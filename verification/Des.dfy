/**
  The portable cipher of nsd/crypt.c: the Feistel network of encrypt_private.

  Bits are booleans (the C code keeps one bit per byte).  The first half of the
  module says what the cipher computes, the second half what it undoes; the
  array code that computes it is in DesCrypt.
*/
module Des {
  import opened DesTables

  type Bits = seq<bool>

  datatype Halves = Halves(l: Bits, r: Bits)

  predicate ValidHalves(h: Halves) {
    |h.l| == 32 && |h.r| == 32
  }

  // A key schedule: sixteen round keys of 48 bits.
  predicate ValidKeys(keys: seq<Bits>) {
    forall i :: 0 <= i < |keys| ==> |keys[i]| == 48
  }

  // An E bit selection, salted or not.
  predicate ValidSelection(e: seq<int>) {
    |e| == 48 && forall j :: 0 <= j < 48 ==> 1 <= e[j] <= 32
  }

  function Xor(a: Bits, b: Bits): (r: Bits)
    requires |a| == |b|
    ensures |r| == |a|
  {
    seq(|a|, j requires 0 <= j < |a| => a[j] != b[j])
  }

  function Weight(b: bool, w: nat): nat {
    if b then w else 0
  }

  // The 6-bit index of group g: the outer two bits choose the row.
  function SelectionIndex(pre: Bits, g: nat): (k: nat)
    requires |pre| == 48 && g < 8
    ensures k < 64
  {
    Weight(pre[6 * g], 32) + Weight(pre[6 * g + 1], 8) + Weight(pre[6 * g + 2], 4) +
    Weight(pre[6 * g + 3], 2) + Weight(pre[6 * g + 4], 1) + Weight(pre[6 * g + 5], 16)
  }

  // Bit b (0 is the most significant) of a 4-bit quantity.
  function NibbleBit(k: nat, b: nat): bool
    requires b < 4
  {
    (if b == 0 then k / 8 else if b == 1 then k / 4 else if b == 2 then k / 2 else k) % 2 == 1
  }

  function PreSelection(r: Bits, e: seq<int>, key: Bits): (pre: Bits)
    requires |r| == 32 && ValidSelection(e) && |key| == 48
    ensures |pre| == 48
  {
    seq(48, j requires 0 <= j < 48 => r[e[j] - 1] != key[j])
  }

  // The bits of s at the 1-based (or base-based) positions of the table.
  function Gather(s: Bits, table: seq<int>, base: int): (r: Bits)
    requires InRange(table, base, base + |s| - 1)
    ensures |r| == |table|
  {
    seq(|table|, j requires 0 <= j < |table| => s[table[j] - base])
  }

  function Nibble(pre: Bits, g: nat, boxes: seq<seq<seq<nat>>>): nat
    requires |pre| == 48 && g < 8 && ValidBoxes(boxes)
  {
    var k := SelectionIndex(pre, g);
    boxes[g][k / 16][k % 16]
  }

  function Selected(pre: Bits, boxes: seq<seq<seq<nat>>>): (f: Bits)
    requires |pre| == 48 && ValidBoxes(boxes)
    ensures |f| == 32
  {
    seq(32, j requires 0 <= j < 32 => NibbleBit(Nibble(pre, j / 4, boxes), j % 4))
  }

  // The cipher function f(R, K).
  function CipherFunction(r: Bits, e: seq<int>, key: Bits): (f: Bits)
    requires |r| == 32 && ValidSelection(e) && |key| == 48
    ensures |f| == 32
  {
    Gather(Selected(PreSelection(r, e, key), Boxes()), Permutation(), 1)
  }

  function Round(h: Halves, e: seq<int>, key: Bits): (h': Halves)
    requires ValidHalves(h) && ValidSelection(e) && |key| == 48
    ensures ValidHalves(h')
  {
    Halves(h.r, Xor(h.l, CipherFunction(h.r, e, key)))
  }

  // The rounds applied for keys[0], keys[1], ... in turn.
  function Rounds(h: Halves, e: seq<int>, keys: seq<Bits>): (h': Halves)
    requires ValidHalves(h) && ValidSelection(e) && ValidKeys(keys)
    ensures ValidHalves(h')
  {
    if keys == [] then h
    else
      var last := |keys| - 1;
      Round(Rounds(h, e, keys[..last]), e, keys[last])
  }

  function Swap(h: Halves): Halves {
    Halves(h.r, h.l)
  }

  function Initial(block: Bits): (h: Halves)
    requires |block| == 64
    ensures ValidHalves(h)
  {
    var p := Gather(block, InitialPermutation(), 1);
    Halves(p[..32], p[32..])
  }

  function Final(h: Halves): (block: Bits)
    requires ValidHalves(h)
    ensures |block| == 64
  {
    Gather(h.l + h.r, FinalPermutation(), 1)
  }

  function Reversed(keys: seq<Bits>): (r: seq<Bits>)
    ensures |r| == |keys|
    ensures forall i :: 0 <= i < |keys| ==> r[i] == keys[|keys| - 1 - i]
  {
    seq(|keys|, i requires 0 <= i < |keys| => keys[|keys| - 1 - i])
  }

  // The whole cipher.  Decryption differs only in the order of the round keys.
  function Crypt(e: seq<int>, keys: seq<Bits>, block: Bits, decrypt: bool): (r: Bits)
    requires ValidSelection(e) && ValidKeys(keys) && |block| == 64
    ensures |r| == 64
  {
    Final(Swap(Rounds(Initial(block), e, if decrypt then Reversed(keys) else keys)))
  }

  // ---------------------------------------------------------------- inverse

  lemma XorTwice(a: Bits, b: Bits)
    requires |a| == |b|
    ensures Xor(Xor(a, b), b) == a
  {
  }

  // A round is undone by the same round on the exchanged halves.
  lemma RoundUndone(h: Halves, e: seq<int>, key: Bits)
    requires ValidHalves(h) && ValidSelection(e) && |key| == 48
    ensures Round(Swap(Round(h, e, key)), e, key) == Swap(h)
  {
    XorTwice(h.l, CipherFunction(h.r, e, key));
  }

  // Rounds may be peeled from the front as well as from the back.
  lemma {:induction false} RoundsFromFront(h: Halves, e: seq<int>, key: Bits, keys: seq<Bits>)
    requires ValidHalves(h) && ValidSelection(e) && |key| == 48 && ValidKeys(keys)
    ensures ValidKeys([key] + keys)
    ensures Rounds(h, e, [key] + keys) == Rounds(Round(h, e, key), e, keys)
    decreases |keys|
  {
    var all := [key] + keys;
    if keys == [] {
      assert all[..0] == [];
    } else {
      var last := |keys| - 1;
      assert all[..|all| - 1] == [key] + keys[..last];
      RoundsFromFront(h, e, key, keys[..last]);
    }
  }

  lemma {:induction false} RoundsUndone(h: Halves, e: seq<int>, keys: seq<Bits>)
    requires ValidHalves(h) && ValidSelection(e) && ValidKeys(keys)
    ensures Rounds(Swap(Rounds(h, e, keys)), e, Reversed(keys)) == Swap(h)
    decreases |keys|
  {
    if keys != [] {
      var last := |keys| - 1;
      var mid := Rounds(h, e, keys[..last]);
      assert Reversed(keys) == [keys[last]] + Reversed(keys[..last]);
      RoundsFromFront(Swap(Round(mid, e, keys[last])), e, keys[last], Reversed(keys[..last]));
      RoundUndone(mid, e, keys[last]);
      RoundsUndone(h, e, keys[..last]);
    }
  }

  lemma GatherUndone(s: Bits, p: seq<int>, q: seq<int>)
    requires |s| == |q| && InRange(q, 1, |s|) && Undoes(q, p)
    ensures Gather(Gather(s, q, 1), p, 1) == s
  {
  }

  lemma InitialOfFinal(h: Halves)
    requires ValidHalves(h)
    ensures Initial(Final(h)) == h
  {
    hide InitialPermutation, FinalPermutation;
    PermutationsInverse();
    GatherUndone(h.l + h.r, InitialPermutation(), FinalPermutation());
  }

  lemma FinalOfInitial(block: Bits)
    requires |block| == 64
    ensures Final(Initial(block)) == block
  {
    hide InitialPermutation, FinalPermutation;
    var h := Initial(block);
    assert h.l + h.r == Gather(block, InitialPermutation(), 1);
    PermutationsInverse();
    GatherUndone(block, FinalPermutation(), InitialPermutation());
  }

  lemma ReversedTwice(keys: seq<Bits>)
    ensures Reversed(Reversed(keys)) == keys
  {
  }

  // Encryption and decryption undo each other, in either order.
  lemma CryptInverse(e: seq<int>, keys: seq<Bits>, block: Bits, decrypt: bool)
    requires ValidSelection(e) && ValidKeys(keys) && |block| == 64
    ensures Crypt(e, keys, Crypt(e, keys, block, decrypt), !decrypt) == block
  {
    hide Initial, Final, Rounds;
    var order := if decrypt then Reversed(keys) else keys;
    var h := Initial(block);
    var out := Rounds(h, e, order);
    ReversedTwice(keys);
    InitialOfFinal(Swap(out));
    RoundsUndone(h, e, order);
    FinalOfInitial(block);
  }

  // So the cipher is a bijection on blocks: no two blocks collide.
  lemma CryptInjective(e: seq<int>, keys: seq<Bits>, a: Bits, b: Bits, decrypt: bool)
    requires ValidSelection(e) && ValidKeys(keys) && |a| == 64 && |b| == 64
    requires Crypt(e, keys, a, decrypt) == Crypt(e, keys, b, decrypt)
    ensures a == b
  {
    CryptInverse(e, keys, a, decrypt);
    CryptInverse(e, keys, b, decrypt);
  }
}

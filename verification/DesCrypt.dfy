/**
  The in-place routines of nsd/crypt.c: key schedule, salt and block cipher.
*/
module DesCrypt {
  import opened DesTables
  import opened Des

  // ---------------------------------------------------- the key schedule

  // Total rotation of C and D by the first i shifts.
  function Turned(shifts: seq<nat>, i: nat): (n: nat)
    requires i <= |shifts|
  {
    if i == 0 then 0 else Turned(shifts, i - 1) + shifts[i - 1]
  }

  // Bit j of round key i, read straight off the key.
  function KeyBit(key: Bits, t: KeyTables, i: nat, j: nat): bool
    requires |key| >= 64 && t.Valid() && i < 16 && j < 48
  {
    var n := Turned(t.shifts, i + 1);
    if j < 24
    then key[t.pc1C[(t.pc2C[j] - 1 + n) % 28] - 1]
    else key[t.pc1D[(t.pc2D[j - 24] - 29 + n) % 28] - 1]
  }

  function KeySchedule(key: Bits, t: KeyTables): (keys: seq<Bits>)
    requires |key| >= 64 && t.Valid()
    ensures |keys| == 16 && ValidKeys(keys)
  {
    seq(16, i requires 0 <= i < 16 => seq(48, j requires 0 <= j < 48 => KeyBit(key, t, i, j)))
  }

  // The shifts of the standard turn C and D once around.
  lemma FullTurn()
    ensures Turned(StandardTables().shifts, 16) == 28
  {
    assert Turned(SHIFTS, 4) == 6 && Turned(SHIFTS, 8) == 14 && Turned(SHIFTS, 12) == 21;
  }

  // Keys that differ only in their parity bits have the same schedule.
  lemma ParityIgnored(a: Bits, b: Bits, t: KeyTables)
    requires |a| >= 64 && |b| >= 64 && t.Valid() && t.AvoidsParity()
    requires forall j :: 1 <= j <= 64 && j % 8 != 0 ==> a[j - 1] == b[j - 1]
    ensures KeySchedule(a, t) == KeySchedule(b, t)
  {
    var ka, kb := KeySchedule(a, t), KeySchedule(b, t);
    forall i | 0 <= i < 16
      ensures ka[i] == kb[i]
    {
      forall j | 0 <= j < 48
        ensures KeyBit(a, t, i, j) == KeyBit(b, t, i, j)
      {
      }
    }
  }

  // One left rotation, and n of them.
  function RotatedOnce(s: Bits): (r: Bits)
    requires |s| == 28
    ensures |r| == 28
  {
    s[1..] + [s[0]]
  }

  function Rotated(s: Bits, n: nat): (r: Bits)
    requires |s| == 28
    ensures |r| == 28
  {
    if n == 0 then s else RotatedOnce(Rotated(s, n - 1))
  }

  lemma {:induction false} RotatedAt(s: Bits, n: nat, m: nat)
    requires |s| == 28 && m < 28
    ensures Rotated(s, n)[m] == s[(m + n) % 28]
  {
    if n > 0 {
      hide RotatedOnce;
      RotatedAt(s, n - 1, (m + 1) % 28);
      RotatedOnceAt(Rotated(s, n - 1), m);
      NextTurn(m, n - 1);
    }
  }

  lemma RotatedOnceAt(s: Bits, m: nat)
    requires |s| == 28 && m < 28
    ensures RotatedOnce(s)[m] == s[(m + 1) % 28]
  {
  }

  lemma NextTurn(m: nat, n: nat)
    requires m < 28
    ensures ((m + 1) % 28 + n) % 28 == (m + (n + 1)) % 28
  {
    if m == 27 {
      assert (m + (n + 1)) % 28 == (28 + n) % 28;
    }
  }

  lemma {:induction false} RotatedSum(s: Bits, a: nat, b: nat)
    requires |s| == 28
    ensures Rotated(Rotated(s, a), b) == Rotated(s, a + b)
  {
    if b > 0 {
      RotatedSum(s, a, b - 1);
    }
  }

  // The round key picked from C and D once they have turned n places.
  function PickedKey(c: Bits, d: Bits, n: nat, t: KeyTables): (k: Bits)
    requires |c| == 28 && |d| == 28 && t.Valid()
    ensures |k| == 48
  {
    Gather(Rotated(c, n), t.pc2C, 1) + Gather(Rotated(d, n), t.pc2D, 29)
  }

  lemma PickedKeyIsClosedForm(key: Bits, t: KeyTables, i: nat)
    requires |key| >= 64 && t.Valid() && i < 16
    ensures PickedKey(Gather(key, t.pc1C, 1), Gather(key, t.pc1D, 1), Turned(t.shifts, i + 1), t)
         == KeySchedule(key, t)[i]
  {
    var c, d := Gather(key, t.pc1C, 1), Gather(key, t.pc1D, 1);
    var n := Turned(t.shifts, i + 1);
    var k := PickedKey(c, d, n, t);
    forall j | 0 <= j < 48
      ensures k[j] == KeyBit(key, t, i, j)
    {
      if j < 24 {
        RotatedAt(c, n, t.pc2C[j] - 1);
      } else {
        RotatedAt(d, n, t.pc2D[j - 24] - 29);
      }
    }
  }

  // A full turn brings C and D back.
  lemma RotatedFully(s: Bits)
    requires |s| == 28
    ensures Rotated(s, 28) == s
  {
    forall m | 0 <= m < 28
      ensures Rotated(s, 28)[m] == s[m]
    {
      RotatedAt(s, 28, m);
    }
  }

  class Schedule {
    const c: array<bool>
    const d: array<bool>
    const ks: array2<bool>
    const e: array<int>

    constructor ()
      ensures Valid() && fresh(c) && fresh(d) && fresh(ks) && fresh(e)
    {
      c, d, ks, e := new bool[28], new bool[28], new bool[16, 48], new int[48];
    }

    ghost predicate Valid() {
      c.Length == 28 && d.Length == 28 && c != d &&
      ks.Length0 == 16 && ks.Length1 == 48 && e.Length == 48
    }

    ghost function Keys(): (keys: seq<Bits>)
      requires Valid()
      reads ks
      ensures |keys| == 16 && ValidKeys(keys)
    {
      seq(16, i requires 0 <= i < 16 reads ks => seq(48, j requires 0 <= j < 48 reads ks => ks[i, j]))
    }
  }

  method RotateLeft(a: array<bool>)
    requires a.Length == 28
    modifies a
    ensures a[..] == RotatedOnce(old(a[..]))
  {
    var t := a[0];
    for j := 0 to 27
      invariant forall m :: 0 <= m < j ==> a[m] == old(a[m + 1])
      invariant forall m :: j <= m < 28 ==> a[m] == old(a[m])
    {
      a[j] := a[j + 1];
    }
    a[27] := t;
  }

  // Rotates C and D left by the given number of places.
  method RotateHalves(sp: Schedule, turns: nat)
    requires sp.Valid()
    modifies sp.c, sp.d
    ensures sp.c[..] == Rotated(old(sp.c[..]), turns)
    ensures sp.d[..] == Rotated(old(sp.d[..]), turns)
  {
    for k := 0 to turns
      invariant sp.c[..] == Rotated(old(sp.c[..]), k)
      invariant sp.d[..] == Rotated(old(sp.d[..]), k)
    {
      RotateLeft(sp.c);
      RotateLeft(sp.d);
    }
  }

  // The PC1 selection of C and D.
  method SelectHalves(sp: Schedule, key: array<bool>, t: KeyTables)
    requires sp.Valid() && t.Valid() && key.Length >= 64 && key != sp.c && key != sp.d
    modifies sp.c, sp.d
    ensures sp.c[..] == Gather(key[..], t.pc1C, 1)
    ensures sp.d[..] == Gather(key[..], t.pc1D, 1)
  {
    for i := 0 to 28
      invariant forall m :: 0 <= m < i ==> sp.c[m] == key[t.pc1C[m] - 1]
      invariant forall m :: 0 <= m < i ==> sp.d[m] == key[t.pc1D[m] - 1]
    {
      sp.c[i] := key[t.pc1C[i] - 1];
      sp.d[i] := key[t.pc1D[i] - 1];
    }
  }

  // Picks up round key i from the current C and D.
  method PickRoundKey(sp: Schedule, i: nat, t: KeyTables)
    requires sp.Valid() && t.Valid() && i < 16
    modifies sp.ks
    ensures sp.Keys() == old(sp.Keys())[i := PickedKey(sp.c[..], sp.d[..], 0, t)]
  {
    for j := 0 to 24
      invariant forall r, m :: 0 <= r < 16 && r != i && 0 <= m < 48 ==> sp.ks[r, m] == old(sp.ks[r, m])
      invariant forall m :: 0 <= m < j ==> sp.ks[i, m] == sp.c[t.pc2C[m] - 1]
      invariant forall m :: 0 <= m < j ==> sp.ks[i, m + 24] == sp.d[t.pc2D[m] - 29]
    {
      sp.ks[i, j] := sp.c[t.pc2C[j] - 1];
      sp.ks[i, j + 24] := sp.d[t.pc2D[j] - 28 - 1];
    }
    ghost var ki := PickedKey(sp.c[..], sp.d[..], 0, t);
    forall m | 0 <= m < 48
      ensures sp.ks[i, m] == ki[m]
    {
      PickedAt(sp.c[..], sp.d[..], t, m);
      assert m >= 24 ==> sp.ks[i, (m - 24) + 24] == sp.d[t.pc2D[m - 24] - 29];
    }
    hide PickedKey;
    assert sp.Keys()[i] == ki;
    assert forall r :: 0 <= r < 16 && r != i ==> sp.Keys()[r] == old(sp.Keys())[r];
  }

  lemma PickedAt(c: Bits, d: Bits, t: KeyTables, m: nat)
    requires |c| == 28 && |d| == 28 && t.Valid() && m < 48
    ensures PickedKey(c, d, 0, t)[m] == if m < 24 then c[t.pc2C[m] - 1] else d[t.pc2D[m - 24] - 29]
  {
  }

  // Rotates C and D by the schedule and picks up the sixteen round keys.
  method FillKeys(sp: Schedule, t: KeyTables)
    requires sp.Valid() && t.Valid()
    modifies sp.c, sp.d, sp.ks
    ensures sp.c[..] == Rotated(old(sp.c[..]), Turned(t.shifts, 16))
    ensures sp.d[..] == Rotated(old(sp.d[..]), Turned(t.shifts, 16))
    ensures forall r :: 0 <= r < 16 ==>
              sp.Keys()[r] == PickedKey(old(sp.c[..]), old(sp.d[..]), Turned(t.shifts, r + 1), t)
  {
    ghost var c, d := sp.c[..], sp.d[..];
    for i := 0 to 16
      invariant sp.c[..] == Rotated(c, Turned(t.shifts, i)) && sp.d[..] == Rotated(d, Turned(t.shifts, i))
      invariant forall r :: 0 <= r < i ==> sp.Keys()[r] == PickedKey(c, d, Turned(t.shifts, r + 1), t)
    {
      ghost var before := Turned(t.shifts, i);
      RotateHalves(sp, t.shifts[i]);
      RotatedSum(c, before, t.shifts[i]);
      RotatedSum(d, before, t.shifts[i]);
      PickRoundKey(sp, i, t);
    }
  }

  // The sixteen round keys of a key, and the unsalted selection.
  method SetKey(sp: Schedule, key: array<bool>)
    requires sp.Valid() && key.Length >= 64
    requires key != sp.c && key != sp.d
    modifies sp.c, sp.d, sp.ks, sp.e
    ensures sp.Keys() == KeySchedule(key[..], StandardTables())
    ensures sp.c[..] == Gather(key[..], StandardTables().pc1C, 1)
    ensures sp.d[..] == Gather(key[..], StandardTables().pc1D, 1)
    ensures forall j :: 0 <= j < 48 ==> sp.e[j] == ExpansionBit(j)
  {
    var t := StandardTables();
    SetKeySchedule(sp, key, t);
    FullTurn();
    RotatedFully(Gather(key[..], t.pc1C, 1));
    RotatedFully(Gather(key[..], t.pc1D, 1));
    ResetSelection(sp.e);
  }

  // The unsalted E bit selection.
  method ResetSelection(e: array<int>)
    requires e.Length == 48
    modifies e
    ensures forall j :: 0 <= j < 48 ==> e[j] == ExpansionBit(j)
  {
    for i := 0 to 48
      invariant forall j :: 0 <= j < i ==> e[j] == ExpansionBit(j)
    {
      e[i] := ExpansionBit(i);
    }
  }

  method SetKeySchedule(sp: Schedule, key: array<bool>, t: KeyTables)
    requires sp.Valid() && t.Valid() && key.Length >= 64
    requires key != sp.c && key != sp.d
    modifies sp.c, sp.d, sp.ks
    ensures sp.Keys() == KeySchedule(key[..], t)
    ensures sp.c[..] == Rotated(Gather(key[..], t.pc1C, 1), Turned(t.shifts, 16))
    ensures sp.d[..] == Rotated(Gather(key[..], t.pc1D, 1), Turned(t.shifts, 16))
  {
    SelectHalves(sp, key, t);
    FillKeys(sp, t);
    forall r | 0 <= r < 16
      ensures sp.Keys()[r] == KeySchedule(key[..], t)[r]
    {
      PickedKeyIsClosedForm(key[..], t, r);
    }
  }

  // ------------------------------------------------------------ the salt

  // The 6-bit value of a salt character, with C's unsigned char wrap-around.
  function SaltValue(ch: int): (v: int)
    requires 0 <= ch < 256
    ensures 0 <= v < 256
  {
    var c1 := if ch > 90 then ch - 6 else ch;
    var c2 := if c1 > 57 then c1 - 7 else c1;
    (c2 - 46) % 256
  }

  function PowerOfTwo(j: nat): (p: nat)
    ensures p > 0
  {
    if j == 0 then 1 else 2 * PowerOfTwo(j - 1)
  }

  predicate SaltBit(salt: seq<int>, k: nat)
    requires |salt| == 2 && (forall i :: 0 <= i < 2 ==> 0 <= salt[i] < 256) && k < 12
  {
    SaltValue(salt[k / 6]) / PowerOfTwo(k % 6) % 2 == 1
  }

  predicate ValidSalt(salt: seq<int>) {
    |salt| == 2 && forall i :: 0 <= i < 2 ==> 0 <= salt[i] < 256
  }

  // The first n salt bits exchange entries k and k + 24 of the selection.
  function Salted(e: seq<int>, salt: seq<int>, n: nat): (r: seq<int>)
    requires |e| == 48 && ValidSalt(salt) && n <= 12
    ensures |r| == 48
  {
    seq(48, k requires 0 <= k < 48 =>
      if k < n && SaltBit(salt, k) then e[k + 24]
      else if 24 <= k < 24 + n && SaltBit(salt, k - 24) then e[k - 24]
      else e[k])
  }

  lemma SaltedValid(e: seq<int>, salt: seq<int>)
    requires ValidSelection(e) && ValidSalt(salt)
    ensures ValidSelection(Salted(e, salt, 12))
  {
    var r := Salted(e, salt, 12);
    forall k | 0 <= k < 48
      ensures 1 <= r[k] <= 32
    {
    }
  }

  lemma SaltedTwice(e: seq<int>, salt: seq<int>)
    requires |e| == 48 && ValidSalt(salt)
    ensures Salted(Salted(e, salt, 12), salt, 12) == e
  {
  }

  // Salt bit n exchanges two entries that the earlier bits left alone.
  lemma SaltedStep(e: seq<int>, salt: seq<int>, n: nat)
    requires |e| == 48 && ValidSalt(salt) && n < 12
    ensures var s := Salted(e, salt, n);
            Salted(e, salt, n + 1) == if SaltBit(salt, n) then s[n := s[n + 24]][n + 24 := s[n]] else s
  {
  }

  // The salt exchanges entries of the E selection in place.
  method ApplySalt(e: array<int>, salt: seq<int>)
    requires e.Length == 48 && ValidSalt(salt)
    modifies e
    ensures e[..] == Salted(old(e[..]), salt, 12)
  {
    for i := 0 to 2
      invariant e[..] == Salted(old(e[..]), salt, 6 * i)
    {
      for j := 0 to 6
        invariant e[..] == Salted(old(e[..]), salt, 6 * i + j)
      {
        var k := 6 * i + j;
        assert k / 6 == i && k % 6 == j;
        SaltedStep(old(e[..]), salt, k);
        if SaltValue(salt[i]) / PowerOfTwo(j) % 2 == 1 {
          e[k], e[k + 24] := e[k + 24], e[k];
        }
      }
    }
  }

  // ------------------------------------------------------ the block cipher

  method Expand(sp: Schedule, i: nat, l: array<bool>) returns (preS: array<bool>)
    requires sp.Valid() && ValidSelection(sp.e[..]) && i < 16 && l.Length == 64
    ensures fresh(preS) && preS.Length == 48
    ensures preS[..] == PreSelection(l[32..], sp.e[..], sp.Keys()[i])
  {
    preS := new bool[48];
    for j := 0 to 48
      invariant forall m :: 0 <= m < j ==> preS[m] == (l[32 + (sp.e[m] - 1)] != sp.ks[i, m])
    {
      assert 1 <= sp.e[..][j] <= 32;
      preS[j] := l[32 + (sp.e[j] - 1)] != sp.ks[i, j];
    }
  }

  method Select(preS: array<bool>, boxes: seq<seq<seq<nat>>>) returns (f: array<bool>)
    requires preS.Length == 48 && ValidBoxes(boxes)
    ensures fresh(f) && f.Length == 32 && f[..] == Selected(preS[..], boxes)
  {
    f := new bool[32];
    ghost var goal := Selected(preS[..], boxes);
    for j := 0 to 8
      invariant f[..4 * j] == goal[..4 * j]
    {
      var k := Nibble(preS[..], j, boxes);
      StoreNibble(f, 4 * j, k);
      forall m | 4 * j <= m < 4 * j + 4
        ensures goal[m] == NibbleBit(k, m - 4 * j)
      {
        assert m / 4 == j;
      }
    }
  }

  method StoreNibble(f: array<bool>, t: nat, k: nat)
    requires t + 4 <= f.Length
    modifies f
    ensures forall m :: t <= m < t + 4 ==> f[m] == NibbleBit(k, m - t)
    ensures f[..t] == old(f[..t]) && f[t + 4..] == old(f[t + 4..])
  {
    f[t] := NibbleBit(k, 0);
    f[t + 1] := NibbleBit(k, 1);
    f[t + 2] := NibbleBit(k, 2);
    f[t + 3] := NibbleBit(k, 3);
  }

  method SaveRight(l: array<bool>) returns (tempL: array<bool>)
    requires l.Length == 64
    ensures fresh(tempL) && tempL.Length == 32 && tempL[..] == l[32..]
  {
    tempL := new bool[32];
    for j := 0 to 32
      invariant tempL[..j] == l[32..32 + j]
    {
      tempL[j] := l[32 + j];
    }
  }

  // The new L is R; the new R is L xor the permuted f.
  method Combine(l: array<bool>, f: array<bool>, p: seq<int>)
    requires l.Length == 64 && f.Length == 32 && f != l && |p| == 32 && InRange(p, 1, 32)
    modifies l
    ensures l[..32] == old(l[32..])
    ensures l[32..] == Xor(old(l[..32]), Gather(f[..], p, 1))
  {
    var tempL := SaveRight(l);
    for j := 0 to 32
      invariant l[..32] == old(l[..32])
      invariant forall m :: 32 <= m < 32 + j ==> l[m] == (l[m - 32] != f[p[m - 32] - 1])
      modifies l
    {
      l[32 + j] := l[j] != f[p[j] - 1];
    }
    ghost var right := l[32..];
    assert right == Xor(old(l[..32]), Gather(f[..], p, 1));
    for j := 0 to 32
      invariant l[..j] == tempL[..j]
      invariant l[32..] == right
      modifies l
    {
      l[j] := tempL[j];
    }
  }

  ghost function HalvesOf(l: array<bool>): (h: Halves)
    requires l.Length == 64
    reads l
    ensures ValidHalves(h)
  {
    Halves(l[..32], l[32..])
  }

  method RoundInPlace(sp: Schedule, i: nat, l: array<bool>)
    requires sp.Valid() && ValidSelection(sp.e[..]) && i < 16 && l.Length == 64
    modifies l
    ensures HalvesOf(l) == Round(old(HalvesOf(l)), sp.e[..], sp.Keys()[i])
  {
    hide PreSelection, Selected, Boxes, Permutation;
    var preS := Expand(sp, i, l);
    var f := Select(preS, Boxes());
    Combine(l, f, Permutation());
  }

  method Permute(source: array<bool>, target: array<bool>, table: seq<int>)
    requires source.Length >= 64 && target.Length >= 64 && source != target
    requires |table| == 64 && InRange(table, 1, 64)
    modifies target
    ensures target[..64] == Gather(source[..64], table, 1)
    ensures target[64..] == old(target[64..])
  {
    for j := 0 to 64
      invariant forall m :: 0 <= m < j ==> target[m] == source[table[m] - 1]
      invariant target[64..] == old(target[64..])
    {
      target[j] := source[table[j] - 1];
    }
  }

  method SwapHalves(l: array<bool>)
    requires l.Length == 64
    modifies l
    ensures l[..] == old(l[32..]) + old(l[..32])
  {
    for j := 0 to 32
      invariant forall k :: 0 <= k < 32 ==> l[k] == old(if k < j then l[32 + k] else l[k])
      invariant forall k :: 32 <= k < 64 ==> l[k] == old(if k < 32 + j then l[k - 32] else l[k])
    {
      l[j], l[32 + j] := l[32 + j], l[j];
    }
  }

  // The sixteen rounds, with the round keys taken in the direction asked for.
  method RoundsInPlace(sp: Schedule, l: array<bool>, edflag: bool)
    requires sp.Valid() && ValidSelection(sp.e[..]) && l.Length == 64
    modifies l
    ensures HalvesOf(l) == Rounds(old(HalvesOf(l)), sp.e[..], if edflag then Reversed(sp.Keys()) else sp.Keys())
  {
    hide Round, Rounds;
    ghost var keys, e, h := sp.Keys(), sp.e[..], HalvesOf(l);
    ghost var order := if edflag then Reversed(keys) else keys;
    NoRounds(h, e);
    assert order[..0] == [];
    for ii := 0 to 16
      invariant sp.Keys() == keys && sp.e[..] == e
      invariant HalvesOf(l) == Rounds(h, e, order[..ii])
    {
      RoundsSnoc(h, e, order, ii);
      var i := if edflag then 15 - ii else ii;
      assert order[ii] == keys[i];
      RoundInPlace(sp, i, l);
    }
    assert order[..16] == order;
  }

  lemma NoRounds(h: Halves, e: seq<int>)
    requires ValidHalves(h) && ValidSelection(e)
    ensures Rounds(h, e, []) == h
  {
  }

  lemma RoundsSnoc(h: Halves, e: seq<int>, keys: seq<Bits>, n: nat)
    requires ValidHalves(h) && ValidSelection(e) && ValidKeys(keys) && n < |keys|
    ensures Rounds(h, e, keys[..n + 1]) == Round(Rounds(h, e, keys[..n]), e, keys[n])
  {
    hide Round;
    assert keys[..n + 1][..n] == keys[..n];
  }

  // Encrypts or, with edflag, decrypts the first 64 entries of the block.
  method EncryptPrivate(sp: Schedule, block: array<bool>, edflag: bool)
    requires sp.Valid() && ValidSelection(sp.e[..]) && block.Length >= 64
    modifies block
    ensures block[..64] == Crypt(sp.e[..], sp.Keys(), old(block[..64]), edflag)
    ensures block[64..] == old(block[64..])
  {
    hide Rounds, InitialPermutation, FinalPermutation;
    var l := new bool[64];
    Permute(block, l, InitialPermutation());
    assert HalvesOf(l) == Initial(block[..64]);
    RoundsInPlace(sp, l, edflag);
    ghost var out := HalvesOf(l);
    SwapHalves(l);
    assert l[..64] == Swap(out).l + Swap(out).r;
    Permute(l, block, FinalPermutation());
  }
}

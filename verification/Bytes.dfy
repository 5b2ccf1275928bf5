/**
  Bytes and byte strings, shared by the components that move them around.
*/
module Bytes {
  type Byte = x: int | 0 <= x < 256
  type Bytes = seq<Byte>

  const NUL: Byte := 0
  const LF: Byte := 10
  const CR: Byte := 13

  function Flatten(parts: seq<Bytes>): (r: Bytes) {
    if parts == [] then [] else parts[0] + Flatten(parts[1..])
  }

  lemma {:induction false} FlattenAppend(a: seq<Bytes>, b: seq<Bytes>)
    ensures Flatten(a + b) == Flatten(a) + Flatten(b)
  {
    if a == [] {
      assert a + b == b;
    } else {
      assert (a + b)[1..] == a[1..] + b;
      FlattenAppend(a[1..], b);
    }
  }

  lemma FlattenSnoc(a: seq<Bytes>, b: Bytes)
    ensures Flatten(a + [b]) == Flatten(a) + b
  {
    FlattenAppend(a, [b]);
  }

  // memmove to a lower address in the same buffer.
  method MoveDown(a: array<Byte>, target: nat, source: nat, n: nat)
    requires target <= source && source + n <= a.Length
    modifies a
    ensures a[target..target + n] == old(a[source..source + n])
    ensures forall i :: 0 <= i < target || target + n <= i < a.Length ==> a[i] == old(a[i])
  {
    for i := 0 to n
      invariant a[target..target + i] == old(a[source..source + i])
      invariant forall k :: 0 <= k < target || target + i <= k < a.Length ==> a[k] == old(a[k])
    {
      a[target + i] := a[source + i];
    }
  }

  // memcpy
  method Copy(a: array<Byte>, target: nat, s: Bytes)
    requires target + |s| <= a.Length
    modifies a
    ensures a[target..target + |s|] == s
    ensures forall i :: 0 <= i < target || target + |s| <= i < a.Length ==> a[i] == old(a[i])
  {
    for i := 0 to |s|
      invariant a[target..target + i] == s[..i]
      invariant forall k :: 0 <= k < target || target + i <= k < a.Length ==> a[k] == old(a[k])
    {
      a[target + i] := s[i];
    }
  }
}

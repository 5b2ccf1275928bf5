/**
  Small things several components use.
*/
module Basics {
  datatype Option<+T> = None | Some(value: T)

  function Min(a: int, b: int): int {
    if a < b then a else b
  }

  // What a list becomes when its members are pushed one by one on an empty one.
  function Reverse<T>(s: seq<T>): seq<T> {
    if s == [] then [] else Reverse(s[1..]) + [s[0]]
  }

  lemma {:induction false} ReverseSame<T>(s: seq<T>)
    ensures |Reverse(s)| == |s| && multiset(Reverse(s)) == multiset(s)
  {
    if s != [] {
      ReverseSame(s[1..]);
      assert s == [s[0]] + s[1..];
    }
  }

  lemma ReverseHas<T>(s: seq<T>, x: T)
    ensures |Reverse(s)| == |s| && (x in Reverse(s) <==> x in s)
  {
    ReverseSame(s);
    assert x in multiset(Reverse(s)) <==> x in multiset(s);
  }

  lemma {:induction false} ReverseAt<T>(s: seq<T>, k: nat)
    requires k < |s|
    ensures |Reverse(s)| == |s| && Reverse(s)[k] == s[|s| - 1 - k]
  {
    ReverseSame(s[1..]);
    if k < |s| - 1 {
      ReverseAt(s[1..], k);
    }
  }
}

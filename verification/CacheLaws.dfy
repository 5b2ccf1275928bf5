/**
  Laws of the cache operations: well-formedness, size accounting, what is freed
  when, exactness of the pruning, and the protection of pending entries.
*/
module CacheLaws {
  import opened Basics
  import opened CacheSpec

  // ------------------------------------------------------- sizes and values

  // The values held, most recently used first.
  function Stored<E>(items: seq<Item<E>>): seq<Value> {
    if items == [] then [] else Stored(items[..|items| - 1]) + items[|items| - 1].Freed()
  }

  lemma {:induction false} SizeAppend<E>(a: seq<Item<E>>, b: seq<Item<E>>)
    ensures Size(a + b) == Size(a) + Size(b)
    decreases |b|
  {
    if b == [] {
      assert a + b == a;
    } else {
      assert (a + b)[..|a + b| - 1] == a + b[..|b| - 1];
      SizeAppend(a, b[..|b| - 1]);
    }
  }

  lemma {:induction false} StoredAppend<E>(a: seq<Item<E>>, b: seq<Item<E>>)
    ensures Stored(a + b) == Stored(a) + Stored(b)
    decreases |b|
  {
    if b == [] {
      assert a + b == a;
    } else {
      assert (a + b)[..|a + b| - 1] == a + b[..|b| - 1];
      StoredAppend(a, b[..|b| - 1]);
    }
  }

  lemma Singleton<E>(item: Item<E>)
    ensures Size([item]) == item.size && Stored([item]) == item.Freed()
  {
    assert [item][..0] == [];
  }

  lemma Split<T>(s: seq<T>, i: nat)
    requires i < |s|
    ensures s == s[..i] + [s[i]] + s[i + 1..] && Without(s, i) == s[..i] + s[i + 1..]
  {
  }

  lemma SizeAround<E>(items: seq<Item<E>>, i: nat)
    requires i < |items|
    ensures Size(items) == Size(Without(items, i)) + items[i].size
  {
    hide Size, Stored, Without;
    var a, x, b := items[..i], [items[i]], items[i + 1..];
    Split(items, i);
    SizeAppend(a + x, b);
    SizeAppend(a, x);
    SizeAppend(a, b);
    Singleton(items[i]);
  }

  lemma StoredAround<E>(items: seq<Item<E>>, i: nat)
    requires i < |items|
    ensures multiset(Stored(items)) == multiset(Stored(Without(items, i))) + multiset(items[i].Freed())
  {
    hide Size, Stored, Without;
    var a, x, b := items[..i], [items[i]], items[i + 1..];
    Split(items, i);
    StoredAppend(a + x, b);
    StoredAppend(a, x);
    StoredAppend(a, b);
    Singleton(items[i]);
  }

  // Replacing one entry, in place or while moving it to the front.
  lemma Replaced<E>(items: seq<Item<E>>, i: nat, item: Item<E>)
    requires i < |items|
    ensures Size(items[i := item]) == Size(items) - items[i].size + item.size
    ensures Size(ToFront(items, i, item)) == Size(items) - items[i].size + item.size
    ensures multiset(Stored(items[i := item])) + multiset(items[i].Freed())
         == multiset(Stored(items)) + multiset(item.Freed())
    ensures multiset(Stored(ToFront(items, i, item))) + multiset(items[i].Freed())
         == multiset(Stored(items)) + multiset(item.Freed())
  {
    hide Size, Stored;
    var updated := items[i := item];
    assert Without(updated, i) == Without(items, i);
    SizeAround(items, i);
    SizeAround(updated, i);
    StoredAround(items, i);
    StoredAround(updated, i);
    SizeAppend([item], Without(items, i));
    StoredAppend([item], Without(items, i));
    Singleton(item);
  }

  // ---------------------------------------------------------- well-formedness

  lemma PrefixValid<E>(items: seq<Item<E>>, n: nat)
    requires ValidItems(items) && n <= |items|
    ensures ValidItems(items[..n])
  {
  }

  lemma WithoutValid<E>(items: seq<Item<E>>, i: nat)
    requires ValidItems(items) && i < |items|
    ensures ValidItems(Without(items, i))
    ensures forall j :: 0 <= j < |items| - 1 ==>
              Without(items, i)[j].key != items[i].key && Without(items, i)[j].ptr != items[i].ptr
  {
    var r := Without(items, i);
    assert forall j :: 0 <= j < |r| ==> r[j] == items[if j < i then j else j + 1];
  }

  lemma ReplacedValid<E>(items: seq<Item<E>>, i: nat, item: Item<E>)
    requires ValidItems(items) && i < |items|
    requires item.Valid() && item.key == items[i].key && item.ptr == items[i].ptr
    ensures ValidItems(items[i := item]) && ValidItems(ToFront(items, i, item))
  {
    WithoutValid(items, i);
  }

  lemma {:induction false} PrunePrefix<E>(items: seq<Item<E>>, maxSize: nat, keep: E)
    ensures |Prune(items, maxSize, keep).items| <= |items|
    ensures Prune(items, maxSize, keep).items == items[..|Prune(items, maxSize, keep).items|]
    decreases |items|
  {
    if items != [] {
      PrunePrefix(items[..|items| - 1], maxSize, keep);
    }
  }

  lemma DeleteKeeps<E>(items: seq<Item<E>>, i: nat)
    requires ValidItems(items) && i < |items|
    ensures var r := Delete(items, i);
            ValidItems(r.items) && multiset(Stored(items)) == multiset(Stored(r.items)) + multiset(r.freed)
  {
    WithoutValid(items, i);
    StoredAround(items, i);
  }

  lemma UnsetKeeps<E>(items: seq<Item<E>>, i: nat)
    requires ValidItems(items) && i < |items|
    ensures var r := Unset(items, i);
            ValidItems(r.items) && multiset(Stored(items)) == multiset(Stored(r.items)) + multiset(r.freed)
  {
    ReplacedValid(items, i, items[i].Unset());
    Replaced(items, i, items[i].Unset());
  }

  // Moving an entry to the front, as it is or unset.
  lemma TouchKeeps<E>(items: seq<Item<E>>, i: nat)
    requires ValidItems(items) && i < |items|
    ensures var r := ToFront(items, i, items[i].Counted());
            ValidItems(r) && multiset(Stored(r)) == multiset(Stored(items))
  {
    hide Stored, ToFront;
    ReplacedValid(items, i, items[i].Counted());
    Replaced(items, i, items[i].Counted());
    Cancel(Stored(ToFront(items, i, items[i].Counted())), Stored(items), items[i].Freed());
  }

  lemma Cancel(a: seq<Value>, b: seq<Value>, c: seq<Value>)
    requires multiset(a) + multiset(c) == multiset(b) + multiset(c)
    ensures multiset(a) == multiset(b)
  {
    forall v
      ensures multiset(a)[v] == multiset(b)[v]
    {
      assert multiset(a)[v] + multiset(c)[v] == (multiset(a) + multiset(c))[v];
      assert multiset(b)[v] + multiset(c)[v] == (multiset(b) + multiset(c))[v];
    }
  }

  lemma UnsetFrontKeeps<E>(items: seq<Item<E>>, i: nat)
    requires ValidItems(items) && i < |items|
    ensures var r := ToFront(items, i, items[i].Unset());
            ValidItems(r) && multiset(Stored(items)) == multiset(Stored(r)) + multiset(items[i].Freed())
  {
    hide Stored, ToFront;
    ReplacedValid(items, i, items[i].Unset());
    Replaced(items, i, items[i].Unset());
  }

  lemma NewKeeps<E>(items: seq<Item<E>>, item: Item<E>)
    requires ValidItems(items) && item.Valid() && item.Pending()
    requires forall i :: 0 <= i < |items| ==> items[i].ptr != item.ptr && items[i].key != item.key
    ensures ValidItems([item] + items) && Stored([item] + items) == Stored(items)
  {
    hide Stored, ValidItems;
    NewValid(items, item);
    StoredAppend([item], items);
    Singleton(item);
  }

  lemma NewValid<E>(items: seq<Item<E>>, item: Item<E>)
    requires ValidItems(items) && item.Valid()
    requires forall i :: 0 <= i < |items| ==> items[i].ptr != item.ptr && items[i].key != item.key
    ensures ValidItems([item] + items)
  {
    var r := [item] + items;
    assert forall j :: 1 <= j < |r| ==> r[j] == items[j - 1];
  }

  lemma LookupKeeps<E>(items: seq<Item<E>>, key: string, now: Time)
    requires ValidItems(items)
    ensures var r := Lookup(items, key, now).0;
            ValidItems(r.items) && multiset(Stored(items)) == multiset(Stored(r.items)) + multiset(r.freed)
  {
    hide Stored, ValidItems, Find, Delete, ToFront;
    var i := Find(items, key);
    if i < |items| {
      DeleteKeeps(items, i);
      TouchKeeps(items, i);
    }
  }

  lemma CreateKeeps<E>(items: seq<Item<E>>, key: string, now: Time, born: E)
    requires ValidItems(items) && forall i :: 0 <= i < |items| ==> items[i].ptr != born
    ensures var r := Create(items, key, now, born).0;
            ValidItems(r.items) && multiset(Stored(items)) == multiset(Stored(r.items)) + multiset(r.freed)
  {
    hide Stored, ValidItems, Find, ToFront;
    var i := Find(items, key);
    if i == |items| {
      NewKeeps(items, Item(born, key, None, 0, NEVER, 0, 0));
    } else {
      UnsetFrontKeeps(items, i);
      TouchKeeps(items, i);
    }
  }

  lemma {:induction false} PruneConserves<E>(items: seq<Item<E>>, maxSize: nat, keep: E)
    ensures var r := Prune(items, maxSize, keep);
            multiset(Stored(items)) == multiset(Stored(r.items)) + multiset(r.freed)
    decreases |items|
  {
    if items != [] {
      PruneConserves(items[..|items| - 1], maxSize, keep);
    }
  }

  // Setting a value stores it once; every value that leaves the cache is freed.
  lemma SetKeeps<E>(items: seq<Item<E>>, i: nat, value: Value, size: nat, timeout: Option<Time>, cost: int, maxSize: nat)
    requires ValidItems(items) && i < |items|
    ensures var r := Set(items, i, value, size, timeout, cost, maxSize);
            && ValidItems(r.items)
            && multiset(Stored(items)) + multiset{value} == multiset(Stored(r.items)) + multiset(r.freed)
  {
    hide Stored, Prune, Size;
    var item := Filled(items[i], value, size, timeout, cost);
    var filled := items[i := item];
    ReplacedValid(items, i, item);
    Replaced(items, i, item);
    PrunePrefix(filled, maxSize, items[i].ptr);
    PrefixValid(filled, |Prune(filled, maxSize, items[i].ptr).items|);
    PruneConserves(filled, maxSize, items[i].ptr);
  }

  // -------------------------------------------------------------- exact LRU

  // Prune unfolded once.
  lemma PruneStep<E>(items: seq<Item<E>>, maxSize: nat, keep: E)
    requires items != []
    ensures var n := |items| - 1;
            if Size(items) <= maxSize || items[n].ptr == keep || items[n].Pending()
            then Prune(items, maxSize, keep) == Outcome(items, [])
            else
              var r := Prune(Without(items, n), maxSize, keep);
              Prune(items, maxSize, keep) == Outcome(r.items, items[n].Freed() + r.freed)
  {
    assert Without(items, |items| - 1) == items[..|items| - 1];
  }

  predicate Blocked<E(==)>(item: Item<E>, keep: E) {
    item.ptr == keep || item.Pending()
  }

  // The entry at position i has to go: with it the cache is too large, and
  // nothing protects it.
  predicate Excess<E(==)>(items: seq<Item<E>>, i: nat, maxSize: nat, keep: E)
    requires i < |items|
  {
    Size(items[..i + 1]) > maxSize && !Blocked(items[i], keep)
  }

  // The survivors are the first n entries, where n is the largest number for
  // which they fit or the last of them may not be dropped.
  lemma {:induction false} PruneExact<E>(items: seq<Item<E>>, maxSize: nat, keep: E)
    ensures var n := |Prune(items, maxSize, keep).items|;
            && n <= |items| && Prune(items, maxSize, keep).items == items[..n]
            && (n == 0 || Size(items[..n]) <= maxSize || Blocked(items[n - 1], keep))
            && forall i :: n <= i < |items| ==> Excess(items, i, maxSize, keep)
    decreases |items|
  {
    PrunePrefix(items, maxSize, keep);
    assert items[..|items|] == items;
    if items != [] {
      var last := |items| - 1;
      if Size(items) > maxSize && !Blocked(items[last], keep) {
        var init := items[..last];
        PruneExact(init, maxSize, keep);
        var n := |Prune(init, maxSize, keep).items|;
        assert init[..n] == items[..n];
        forall i | n <= i < |items|
          ensures Excess(items, i, maxSize, keep)
        {
          if i < last {
            assert Excess(init, i, maxSize, keep);
            assert init[..i + 1] == items[..i + 1];
          } else {
            assert items[..i + 1] == items;
          }
        }
      }
    }
  }

  // The values freed are those of the entries removed.
  lemma PruneFrees<E>(items: seq<Item<E>>, maxSize: nat, keep: E)
    ensures var r := Prune(items, maxSize, keep);
            |r.items| <= |items| && multiset(r.freed) == multiset(Stored(items[|r.items|..]))
  {
    hide Prune, Stored;
    var r := Prune(items, maxSize, keep);
    PrunePrefix(items, maxSize, keep);
    PruneConserves(items, maxSize, keep);
    var n := |r.items|;
    assert items[..n] + items[n..] == items;
    StoredAppend(items[..n], items[n..]);
    var kept, gone := multiset(Stored(items[..n])), multiset(Stored(items[n..]));
    assert multiset(Stored(items)) == kept + gone;
    assert multiset(r.freed) + kept == kept + multiset(r.freed) && gone + kept == kept + gone;
    Cancel(r.freed, Stored(items[n..]), Stored(items[..n]));
  }

  // The number of entries up to the last one that may not be dropped.
  function Protected<E(==)>(items: seq<Item<E>>, keep: E): (m: nat)
    ensures m <= |items|
    decreases |items|
  {
    if items == [] then 0
    else if Blocked(items[|items| - 1], keep) then |items|
    else Protected(items[..|items| - 1], keep)
  }

  lemma SizePrefix<E>(items: seq<Item<E>>, n: nat)
    requires n <= |items|
    ensures Size(items[..n]) <= Size(items)
  {
    assert items[..n] + items[n..] == items;
    SizeAppend(items[..n], items[n..]);
  }

  lemma {:induction false} PruneFits<E>(items: seq<Item<E>>, maxSize: nat, keep: E)
    ensures Size(Prune(items, maxSize, keep).items) <= maxSize <==> Size(items[..Protected(items, keep)]) <= maxSize
    decreases |items|
  {
    hide Size;
    SizePrefix(items, Protected(items, keep));
    if items != [] && Size(items) > maxSize {
      var init := items[..|items| - 1];
      if Blocked(items[|items| - 1], keep) {
        assert items[..|items|] == items;
      } else {
        PruneFits(init, maxSize, keep);
        assert items[..Protected(items, keep)] == init[..Protected(init, keep)];
      }
    } else {
      assert items == [] ==> items[..Protected(items, keep)] == items;
    }
  }

  // After an entry is set, the sizes are within the limit exactly if those up to
  // the last entry that may not be dropped are.
  lemma SetFits<E>(items: seq<Item<E>>, i: nat, value: Value, size: nat, timeout: Option<Time>, cost: int, maxSize: nat)
    requires i < |items| && maxSize > 0
    ensures var filled := items[i := Filled(items[i], value, size, timeout, cost)];
            Size(Set(items, i, value, size, timeout, cost, maxSize).items) <= maxSize <==>
            Size(filled[..Protected(filled, items[i].ptr)]) <= maxSize
  {
    PruneFits(items[i := Filled(items[i], value, size, timeout, cost)], maxSize, items[i].ptr);
  }

  // --------------------------------------------------------- pending entries

  // p is in the list, possibly with its use count changed.
  ghost predicate Holds<E>(items: seq<Item<E>>, p: E, key: string) {
    exists i :: 0 <= i < |items| && items[i].ptr == p && items[i].key == key && items[i].Pending()
  }

  lemma WithoutHolds<E>(items: seq<Item<E>>, i: nat, p: E, key: string)
    requires i < |items| && Holds(items, p, key) && items[i].ptr != p
    ensures Holds(Without(items, i), p, key)
  {
    var j :| 0 <= j < |items| && items[j].ptr == p && items[j].key == key && items[j].Pending();
    var r := Without(items, i);
    assert r[if j < i then j else j - 1] == items[j];
  }

  lemma UpdateHolds<E>(items: seq<Item<E>>, i: nat, item: Item<E>, p: E, key: string)
    requires i < |items| && Holds(items, p, key)
    requires items[i].ptr != p || (item.ptr == p && item.key == key && item.Pending())
    ensures Holds(items[i := item], p, key) && Holds(ToFront(items, i, item), p, key)
  {
    var j :| 0 <= j < |items| && items[j].ptr == p && items[j].key == key && items[j].Pending();
    var r := ToFront(items, i, item);
    if items[i].ptr == p {
      assert items[i := item][i] == item && r[0] == item;
    } else {
      assert items[i := item][j] == items[j];
      assert r[if j < i then j + 1 else j] == items[j];
    }
  }

  // A lookup of any key leaves every pending entry in place.
  lemma LookupKeepsPending<E>(items: seq<Item<E>>, key: string, now: Time, p: E, k: string)
    requires ValidItems(items) && Holds(items, p, k)
    ensures Holds(Lookup(items, key, now).0.items, p, k)
  {
    var i := Find(items, key);
    if i < |items| && !items[i].Pending() {
      if items[i].Expired(now) {
        WithoutHolds(items, i, p, k);
      } else {
        UpdateHolds(items, i, items[i].Counted(), p, k);
      }
    }
  }

  // So does creating an entry, the pending one included: it never expires.
  lemma CreateKeepsPending<E>(items: seq<Item<E>>, key: string, now: Time, born: E, p: E, k: string)
    requires ValidItems(items) && Holds(items, p, k)
    ensures Holds(Create(items, key, now, born).0.items, p, k)
  {
    var i := Find(items, key);
    if i == |items| {
      var j :| 0 <= j < |items| && items[j].ptr == p && items[j].key == k && items[j].Pending();
      assert ([Item(born, key, None, 0, NEVER, 0, 0)] + items)[j + 1] == items[j];
    } else if items[i].Expired(now) {
      UpdateHolds(items, i, items[i].Unset(), p, k);
    } else {
      UpdateHolds(items, i, items[i].Counted(), p, k);
    }
  }

  // Deleting or unsetting another entry.
  lemma DeleteKeepsPending<E>(items: seq<Item<E>>, i: nat, p: E, k: string)
    requires ValidItems(items) && Holds(items, p, k) && i < |items| && items[i].ptr != p
    ensures Holds(Delete(items, i).items, p, k)
  {
    WithoutHolds(items, i, p, k);
  }

  lemma UnsetKeepsPending<E>(items: seq<Item<E>>, i: nat, p: E, k: string)
    requires ValidItems(items) && Holds(items, p, k) && i < |items|
    ensures Holds(Unset(items, i).items, p, k)
  {
    UpdateHolds(items, i, items[i].Unset(), p, k);
  }

  lemma {:induction false} PruneKeepsPending<E>(items: seq<Item<E>>, maxSize: nat, keep: E, p: E, k: string)
    requires Holds(items, p, k)
    ensures Holds(Prune(items, maxSize, keep).items, p, k)
  {
    PruneExact(items, maxSize, keep);
    var j :| 0 <= j < |items| && items[j].ptr == p && items[j].key == k && items[j].Pending();
    assert !Excess(items, j, maxSize, keep);
    assert Prune(items, maxSize, keep).items[j] == items[j];
  }

  // Setting another entry, with all the pruning that may cause.
  lemma SetKeepsPending<E>(items: seq<Item<E>>, i: nat, value: Value, size: nat, timeout: Option<Time>, cost: int,
                           maxSize: nat, p: E, k: string)
    requires ValidItems(items) && Holds(items, p, k) && i < |items| && items[i].ptr != p
    ensures Holds(Set(items, i, value, size, timeout, cost, maxSize).items, p, k)
  {
    var item := Filled(items[i], value, size, timeout, cost);
    UpdateHolds(items, i, item, p, k);
    PruneKeepsPending(items[i := item], maxSize, items[i].ptr, p, k);
  }

  // ---------------------------------------------------------- walk and flush

  // A walk deletes no pending entry.
  lemma {:induction false} NextKeepsPending<E>(items: seq<Item<E>>, todo: seq<string>, now: Time, p: E, k: string)
    requires ValidItems(items) && Holds(items, p, k)
    ensures Holds(Next(items, todo, now).items, p, k)
    decreases |todo|
  {
    if todo != [] {
      var i := Find(items, todo[0]);
      if i == |items| || items[i].Pending() {
        NextKeepsPending(items, todo[1..], now, p, k);
      } else if items[i].Expired(now) {
        WithoutHolds(items, i, p, k);
        WithoutValid(items, i);
        NextKeepsPending(Without(items, i), todo[1..], now, p, k);
      }
    }
  }

  // Deleting what the walk finds and walking on is what a flush does.
  lemma {:induction false} FlushByWalking<E>(items: seq<Item<E>>, todo: seq<string>, now: Time)
    ensures var w := Next(items, todo, now);
            if w.key.None? then Flush(items, todo) == Outcome(w.items, w.freed)
            else
              var i := Find(w.items, w.key.value);
              && i < |w.items|
              && var d := Delete(w.items, i);
                 var r := Flush(d.items, w.todo);
                 Flush(items, todo) == Outcome(r.items, w.freed + d.freed + r.freed)
    decreases |todo|
  {
    hide Find, Without;
    if todo != [] {
      var i := Find(items, todo[0]);
      if i == |items| || items[i].Pending() {
        FlushByWalking(items, todo[1..], now);
      } else if items[i].Expired(now) {
        FlushByWalking(Without(items, i), todo[1..], now);
        var w := Next(Without(items, i), todo[1..], now);
        if w.key.Some? {
          var d := Delete(w.items, Find(w.items, w.key.value));
          var r := Flush(d.items, w.todo);
          assert items[i].Freed() + (w.freed + d.freed + r.freed) == items[i].Freed() + w.freed + d.freed + r.freed;
        }
      } else {
        var r := Flush(Without(items, i), todo[1..]);
        assert [] + items[i].Freed() + r.freed == items[i].Freed() + r.freed;
      }
    }
  }

  // The entries a flush leaves behind: those pending or not walked over.
  function Kept<E>(items: seq<Item<E>>, todo: seq<string>): seq<Item<E>> {
    if items == [] then []
    else
      var last := items[|items| - 1];
      Kept(items[..|items| - 1], todo) + if last.Pending() || last.key !in todo then [last] else []
  }

  lemma {:induction false} KeptAppend<E>(a: seq<Item<E>>, b: seq<Item<E>>, todo: seq<string>)
    ensures Kept(a + b, todo) == Kept(a, todo) + Kept(b, todo)
    decreases |b|
  {
    if b == [] {
      assert a + b == a;
    } else {
      assert (a + b)[..|a + b| - 1] == a + b[..|b| - 1];
      KeptAppend(a, b[..|b| - 1], todo);
    }
  }

  // Keys that no entry with a value has make no difference.
  lemma {:induction false} KeptFewer<E>(items: seq<Item<E>>, todo: seq<string>)
    requires todo != [] && forall j :: 0 <= j < |items| ==> items[j].key != todo[0] || items[j].Pending()
    ensures Kept(items, todo) == Kept(items, todo[1..])
    decreases |items|
  {
    if items != [] {
      KeptFewer(items[..|items| - 1], todo);
      assert forall k :: k in todo <==> k == todo[0] || k in todo[1..];
    }
  }

  lemma KeptOne<E>(item: Item<E>, todo: seq<string>)
    ensures Kept([item], todo) == if item.Pending() || item.key !in todo then [item] else []
  {
    assert [item][..0] == [];
  }

  lemma KeptWithout<E>(items: seq<Item<E>>, i: nat, todo: seq<string>)
    requires i < |items| && !items[i].Pending() && items[i].key in todo
    ensures Kept(items, todo) == Kept(Without(items, i), todo)
  {
    hide Kept, Without;
    var a, x, b := items[..i], [items[i]], items[i + 1..];
    Split(items, i);
    KeptAppend(a + x, b, todo);
    KeptAppend(a, x, todo);
    KeptAppend(a, b, todo);
    KeptOne(items[i], todo);
  }

  lemma {:induction false} FlushKeeps<E>(items: seq<Item<E>>, todo: seq<string>)
    requires ValidItems(items)
    ensures var r := Flush(items, todo);
            && r.items == Kept(items, todo)
            && multiset(Stored(items)) == multiset(Stored(r.items)) + multiset(r.freed)
    decreases |todo|
  {
    hide Stored;
    if todo == [] {
      KeptAll(items);
    } else {
      var i := Find(items, todo[0]);
      if i == |items| || items[i].Pending() {
        KeptFewer(items, todo);
        FlushKeeps(items, todo[1..]);
      } else {
        WithoutValid(items, i);
        StoredAround(items, i);
        KeptWithout(items, i, todo);
        KeptFewer(Without(items, i), todo);
        FlushKeeps(Without(items, i), todo[1..]);
      }
    }
  }

  lemma {:induction false} KeptAll<E>(items: seq<Item<E>>)
    ensures Kept(items, []) == items
    decreases |items|
  {
    if items != [] {
      KeptAll(items[..|items| - 1]);
    }
  }

  // A flush that walks over every key leaves only pending entries, in their
  // order and with total size zero, and frees every value once.
  lemma FlushComplete<E>(items: seq<Item<E>>, todo: seq<string>)
    requires ValidItems(items) && forall i :: 0 <= i < |items| ==> items[i].key in todo
    ensures var r := Flush(items, todo);
            && r.items == PendingOnly(items) && Size(r.items) == 0
            && multiset(r.freed) == multiset(Stored(items))
  {
    FlushKeeps(items, todo);
    KeptPending(items, todo);
    NothingStored(items);
  }

  function PendingOnly<E>(items: seq<Item<E>>): seq<Item<E>> {
    if items == [] then []
    else PendingOnly(items[..|items| - 1]) + if items[|items| - 1].Pending() then [items[|items| - 1]] else []
  }

  lemma {:induction false} KeptPending<E>(items: seq<Item<E>>, todo: seq<string>)
    requires forall i :: 0 <= i < |items| ==> items[i].key in todo
    ensures Kept(items, todo) == PendingOnly(items)
    decreases |items|
  {
    if items != [] {
      KeptPending(items[..|items| - 1], todo);
    }
  }

  lemma {:induction false} NothingStored<E>(items: seq<Item<E>>)
    requires forall i :: 0 <= i < |items| ==> items[i].Valid()
    ensures Size(PendingOnly(items)) == 0 && Stored(PendingOnly(items)) == []
    decreases |items|
  {
    if items != [] {
      var init, last := items[..|items| - 1], items[|items| - 1];
      NothingStored(init);
      var tail := if last.Pending() then [last] else [];
      assert PendingOnly(items) == PendingOnly(init) + tail;
      SizeAppend(PendingOnly(init), tail);
      StoredAppend(PendingOnly(init), tail);
      Singleton(last);
    }
  }

  lemma {:induction false} FlushKeepsPending<E>(items: seq<Item<E>>, todo: seq<string>, p: E, k: string)
    requires ValidItems(items) && Holds(items, p, k)
    ensures Holds(Flush(items, todo).items, p, k)
    decreases |todo|
  {
    if todo != [] {
      var i := Find(items, todo[0]);
      if i == |items| || items[i].Pending() {
        FlushKeepsPending(items, todo[1..], p, k);
      } else {
        WithoutHolds(items, i, p, k);
        WithoutValid(items, i);
        FlushKeepsPending(Without(items, i), todo[1..], p, k);
      }
    }
  }

  lemma {:induction false} NextKeeps<E>(items: seq<Item<E>>, todo: seq<string>, now: Time)
    requires ValidItems(items)
    ensures var w := Next(items, todo, now);
            ValidItems(w.items) && multiset(Stored(items)) == multiset(Stored(w.items)) + multiset(w.freed)
    decreases |todo|
  {
    hide Stored, ValidItems;
    if todo != [] {
      var i := Find(items, todo[0]);
      if i == |items| || items[i].Pending() {
        NextKeeps(items, todo[1..], now);
      } else if items[i].Expired(now) {
        DeleteKeeps(items, i);
        NextKeeps(Without(items, i), todo[1..], now);
      }
    }
  }

  lemma {:induction false} FlushKeepsValid<E>(items: seq<Item<E>>, todo: seq<string>)
    requires ValidItems(items)
    ensures ValidItems(Flush(items, todo).items)
    decreases |todo|
  {
    hide ValidItems;
    if todo != [] {
      var i := Find(items, todo[0]);
      if i == |items| || items[i].Pending() {
        FlushKeepsValid(items, todo[1..]);
      } else {
        WithoutValid(items, i);
        FlushKeepsValid(Without(items, i), todo[1..]);
      }
    }
  }

  // ------------------------------------------------------- known entries only

  // Every entry of b is one of a: no pointer, and no stored value of a key,
  // comes out of nowhere.
  ghost predicate Within<E>(b: seq<Item<E>>, a: seq<Item<E>>) {
    forall i :: 0 <= i < |b| ==> Known(b[i], a)
  }

  ghost predicate Known<E>(x: Item<E>, a: seq<Item<E>>) {
    exists j :: 0 <= j < |a| && x.ptr == a[j].ptr && x.key == a[j].key && (x.Pending() || x.value == a[j].value)
  }

  lemma KnownAt<E>(x: Item<E>, a: seq<Item<E>>, j: nat)
    requires j < |a| && x.ptr == a[j].ptr && x.key == a[j].key && (x.Pending() || x.value == a[j].value)
    ensures Known(x, a)
  {
  }

  lemma WithinRefl<E>(a: seq<Item<E>>)
    ensures Within(a, a)
  {
    forall i | 0 <= i < |a| ensures Known(a[i], a) {
      KnownAt(a[i], a, i);
    }
  }

  lemma WithinTrans<E>(c: seq<Item<E>>, b: seq<Item<E>>, a: seq<Item<E>>)
    requires Within(c, b) && Within(b, a)
    ensures Within(c, a)
  {
    forall i | 0 <= i < |c| ensures Known(c[i], a) {
      assert Known(c[i], b);
      var j :| 0 <= j < |b| && c[i].ptr == b[j].ptr && c[i].key == b[j].key && (c[i].Pending() || c[i].value == b[j].value);
      assert Known(b[j], a);
      var k :| 0 <= k < |a| && b[j].ptr == a[k].ptr && b[j].key == a[k].key && (b[j].Pending() || b[j].value == a[k].value);
      KnownAt(c[i], a, k);
    }
  }

  lemma WithinWithout<E>(a: seq<Item<E>>, i: nat)
    requires i < |a|
    ensures Within(Without(a, i), a)
  {
    var b := Without(a, i);
    forall j | 0 <= j < |b| ensures Known(b[j], a) {
      KnownAt(b[j], a, if j < i then j else j + 1);
    }
  }

  lemma WithinReplaced<E>(a: seq<Item<E>>, i: nat, x: Item<E>)
    requires i < |a| && x.ptr == a[i].ptr && x.key == a[i].key && (x.Pending() || x.value == a[i].value)
    ensures Within(a[i := x], a) && Within(ToFront(a, i, x), a)
  {
    var b, c := a[i := x], ToFront(a, i, x);
    forall j | 0 <= j < |b| ensures Known(b[j], a) {
      KnownAt(b[j], a, j);
    }
    forall j | 0 <= j < |c| ensures Known(c[j], a) {
      KnownAt(c[j], a, if j == 0 then i else if j <= i then j - 1 else j);
    }
  }

  lemma WithinPrefix<E>(a: seq<Item<E>>, n: nat)
    requires n <= |a|
    ensures Within(a[..n], a)
  {
    forall j | 0 <= j < n ensures Known(a[..n][j], a) {
      KnownAt(a[..n][j], a, j);
    }
  }

  lemma {:induction false} NextWithin<E>(items: seq<Item<E>>, todo: seq<string>, now: Time)
    ensures Within(Next(items, todo, now).items, items)
    decreases |todo|
  {
    hide Within;
    WithinRefl(items);
    if todo != [] {
      var i := Find(items, todo[0]);
      if i == |items| || items[i].Pending() {
        NextWithin(items, todo[1..], now);
      } else if items[i].Expired(now) {
        WithinWithout(items, i);
        NextWithin(Without(items, i), todo[1..], now);
        WithinTrans(Next(items, todo, now).items, Without(items, i), items);
      }
    }
  }

  lemma {:induction false} FlushWithin<E>(items: seq<Item<E>>, todo: seq<string>)
    ensures Within(Flush(items, todo).items, items)
    decreases |todo|
  {
    hide Within;
    WithinRefl(items);
    if todo != [] {
      var i := Find(items, todo[0]);
      if i == |items| || items[i].Pending() {
        FlushWithin(items, todo[1..]);
      } else {
        WithinWithout(items, i);
        FlushWithin(Without(items, i), todo[1..]);
        WithinTrans(Flush(items, todo).items, Without(items, i), items);
      }
    }
  }

  // An existing key; a new one only adds an entry without a value.
  lemma CreateWithin<E>(items: seq<Item<E>>, key: string, now: Time, born: E)
    ensures Find(items, key) < |items| ==> Within(Create(items, key, now, born).0.items, items)
  {
    hide Within;
    var i := Find(items, key);
    if i < |items| {
      WithinReplaced(items, i, items[i].Unset());
      WithinReplaced(items, i, items[i].Counted());
    }
  }

  // After a set, everything but the entry set comes from before.
  lemma SetWithin<E>(items: seq<Item<E>>, i: nat, value: Value, size: nat, timeout: Option<Time>, cost: int, maxSize: nat)
    requires i < |items|
    ensures Within(Set(items, i, value, size, timeout, cost, maxSize).items,
                   items[i := Filled(items[i], value, size, timeout, cost)])
  {
    hide Within, Prune;
    var filled := items[i := Filled(items[i], value, size, timeout, cost)];
    WithinRefl(filled);
    PrunePrefix(filled, maxSize, items[i].ptr);
    WithinPrefix(filled, |Prune(filled, maxSize, items[i].ptr).items|);
  }

  // Pruning never removes the entry that was set.
  lemma SetStores<E>(items: seq<Item<E>>, i: nat, value: Value, size: nat, timeout: Option<Time>, cost: int, maxSize: nat)
    requires i < |items|
    ensures value in multiset(Stored(Set(items, i, value, size, timeout, cost, maxSize).items))
  {
    hide Prune, Stored;
    var item := Filled(items[i], value, size, timeout, cost);
    var filled := items[i := item];
    var r := Set(items, i, value, size, timeout, cost, maxSize).items;
    PruneExact(filled, maxSize, items[i].ptr);
    assert !Excess(filled, i, maxSize, items[i].ptr);
    assert i < |r| && r[i] == item;
    StoredAround(r, i);
  }
}

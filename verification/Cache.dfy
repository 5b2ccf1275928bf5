/**
  The cache of nsd/cache.c: entries that sit in a hash table and, at the same
  time, in a doubly linked list that orders them by recency.  Every operation
  is proved to do to the abstract list (Items) what CacheSpec says, to keep the
  table and the list in step, and to keep currentSize the sum of the sizes.

  The hash table is a map.  The free procedure is a log of the values it was
  called with; it does not call back into the cache.
*/
module Cache {
  import opened Basics
  import opened CacheSpec
  import CacheLaws

  // The fields of an entry other than its links.
  datatype Data = Data(value: Option<Value>, size: nat, expires: Time, cost: int, count: int)

  class Entry {
    var next: Entry?
    var prev: Entry?
    const key: string
    var data: Data

    constructor (key: string)
      ensures this.key == key && ToItem() == Item(this, key, None, 0, NEVER, 0, 0)
    {
      this.key := key;
      next, prev := null, null;
      data := Data(None, 0, NEVER, 0, 0);
    }

    ghost function ToItem(): Item<Entry>
      reads `data
    {
      Item(this, key, data.value, data.size, data.expires, data.cost, data.count)
    }
  }

  function Before(order: seq<Entry>, i: nat): Entry?
    requires i < |order|
  {
    if i == 0 then null else order[i - 1]
  }

  function After(order: seq<Entry>, i: nat): Entry?
    requires i < |order|
  {
    if i == |order| - 1 then null else order[i + 1]
  }

  // The entries of a well-formed doubly linked list are distinct and each
  // points to its neighbours.
  ghost predicate Linked(order: seq<Entry>)
    reads (set e | e in order)`next, (set e | e in order)`prev
  {
    && (forall i, j :: 0 <= i < j < |order| ==> order[i] != order[j])
    && (forall i {:trigger order[i].prev} :: 0 <= i < |order| ==> order[i].prev == Before(order, i))
    && (forall i {:trigger order[i].next} :: 0 <= i < |order| ==> order[i].next == After(order, i))
  }

  lemma LinkedDistinct(order: seq<Entry>)
    requires Linked(order)
    ensures forall j, k :: 0 <= j < k < |order| ==> order[j] != order[k]
  {
  }

  // Every entry but i is linked to its neighbours, those of i past it.
  ghost predicate Skips(was: seq<Entry>, i: nat)
    requires i < |was|
    reads was
  {
    && (forall k {:trigger was[k].next} :: 0 <= k < |was| && k != i && k + 1 != i ==> was[k].next == After(was, k))
    && (i > 0 ==> was[i - 1].next == After(was, i))
    && (forall k {:trigger was[k].prev} :: 0 <= k < |was| && k != i && k != i + 1 ==> was[k].prev == Before(was, k))
    && (i + 1 < |was| ==> was[i + 1].prev == Before(was, i))
  }

  // Skipping entry i in both directions leaves the rest well linked.
  lemma LinkedWithout(was: seq<Entry>, i: nat)
    requires i < |was| && forall j, k :: 0 <= j < k < |was| ==> was[j] != was[k]
    requires Skips(was, i)
    ensures Linked(Without(was, i))
  {
    var order := Without(was, i);
    assert forall j :: 0 <= j < |order| ==> order[j] == was[if j < i then j else j + 1];
    forall j | 0 <= j < |order|
      ensures order[j].prev == Before(order, j) && order[j].next == After(order, j)
    {
      var k := if j < i then j else j + 1;
      assert order[j] == was[k];
    }
  }

  // An entry linked to the front of a list.
  lemma LinkedFront(was: seq<Entry>, e: Entry)
    requires e !in was && forall j, k :: 0 <= j < k < |was| ==> was[j] != was[k]
    requires e.prev == null && e.next == (if was == [] then null else was[0])
    requires was != [] ==> was[0].prev == e
    requires forall k {:trigger was[k].prev} :: 0 < k < |was| ==> was[k].prev == was[k - 1]
    requires forall k {:trigger was[k].next} :: 0 <= k < |was| ==> was[k].next == After(was, k)
    ensures Linked([e] + was)
  {
    var order := [e] + was;
    assert forall j :: 0 < j < |order| ==> order[j] == was[j - 1];
    forall j | 0 <= j < |order|
      ensures order[j].prev == Before(order, j) && order[j].next == After(order, j)
    {
      if j > 0 {
        assert order[j] == was[j - 1];
      }
    }
  }

  // The table maps every entry's key to the entry, and nothing else.
  ghost predicate InTable(table: map<string, Entry>, order: seq<Entry>) {
    && (forall k :: k in table ==> table[k] in order && table[k].key == k)
    && (forall i :: 0 <= i < |order| ==> order[i].key in table && table[order[i].key] == order[i])
  }

  lemma InTableWithout(table: map<string, Entry>, order: seq<Entry>, i: nat)
    requires InTable(table, order) && i < |order|
    requires forall j, k :: 0 <= j < k < |order| ==> order[j] != order[k]
    ensures InTable(table - {order[i].key}, Without(order, i))
  {
    var t, r := table - {order[i].key}, Without(order, i);
    forall k | k in t
      ensures t[k] in r
    {
      var j :| 0 <= j < |order| && order[j] == table[k];
      assert r[if j < i then j else j - 1] == order[j];
    }
    forall j | 0 <= j < |r|
      ensures r[j].key in t && t[r[j].key] == r[j]
    {
      var k := if j < i then j else j + 1;
      assert r[j] == order[k] && order[k] != order[i];
    }
  }

  ghost predicate Mirrors(order: seq<Entry>, items: seq<Item<Entry>>)
    reads (set e | e in order)`data
  {
    |items| == |order| && forall i :: 0 <= i < |order| ==> items[i] == order[i].ToItem()
  }

  lemma MirrorsWithout(order: seq<Entry>, items: seq<Item<Entry>>, i: nat)
    requires Mirrors(order, items) && i < |order|
    ensures Mirrors(Without(order, i), Without(items, i))
  {
    var o, t := Without(order, i), Without(items, i);
    forall j | 0 <= j < |o|
      ensures t[j] == o[j].ToItem()
    {
      var k := if j < i then j else j + 1;
      assert o[j] == order[k] && t[j] == items[k];
    }
  }

  lemma MirrorsFront(order: seq<Entry>, items: seq<Item<Entry>>, i: nat)
    requires Mirrors(order, items) && i < |order|
    ensures Mirrors([order[i]] + Without(order, i), ToFront(items, i, items[i]))
  {
    MirrorsWithout(order, items, i);
    var o, t := [order[i]] + Without(order, i), ToFront(items, i, items[i]);
    assert forall j :: 0 < j < |o| ==> o[j] == Without(order, i)[j - 1] && t[j] == Without(items, i)[j - 1];
  }

  lemma MirrorsNew(order: seq<Entry>, items: seq<Item<Entry>>, e: Entry)
    requires Mirrors(order, items)
    ensures Mirrors([e] + order, [e.ToItem()] + items)
  {
  }

  lemma InTableNew(table: map<string, Entry>, order: seq<Entry>, e: Entry)
    requires InTable(table, order) && e.key !in table
    ensures InTable(table[e.key := e], [e] + order)
  {
  }

  lemma InTableFront(table: map<string, Entry>, order: seq<Entry>, i: nat)
    requires InTable(table, order) && i < |order|
    ensures InTable(table, [order[i]] + Without(order, i))
  {
    var r := [order[i]] + Without(order, i);
    forall k | k in table
      ensures table[k] in r
    {
      var j :| 0 <= j < |order| && order[j] == table[k];
      assert r[if j < i then j + 1 else if j == i then 0 else j] == order[j];
    }
    forall j | 0 <= j < |r|
      ensures r[j].key in table && table[r[j].key] == r[j]
    {
      assert r[j] == order[if j == 0 then i else if j <= i then j - 1 else j];
    }
  }

  ghost predicate Accounted(items: seq<Item<Entry>>, currentSize: nat) {
    ValidItems(items) && currentSize == Size(items)
  }

  lemma UnsetAccounted(items: seq<Item<Entry>>, currentSize: nat, i: nat)
    requires Accounted(items, currentSize) && i < |items|
    ensures items[i].size <= currentSize
    ensures Accounted(Unset(items, i).items, if items[i].Pending() then currentSize else currentSize - items[i].size)
  {
    CacheLaws.SizeAround(items, i);
    CacheLaws.Replaced(items, i, items[i].Unset());
    CacheLaws.UnsetKeeps(items, i);
  }

  lemma FrontAccounted(items: seq<Item<Entry>>, currentSize: nat, i: nat)
    requires Accounted(items, currentSize) && i < |items|
    ensures Accounted(ToFront(items, i, items[i]), currentSize)
  {
    CacheLaws.Replaced(items, i, items[i]);
    CacheLaws.ReplacedValid(items, i, items[i]);
  }

  lemma CountAccounted(items: seq<Item<Entry>>, currentSize: nat, i: nat)
    requires Accounted(items, currentSize) && i < |items|
    ensures Accounted(items[i := items[i].Counted()], currentSize)
  {
    CacheLaws.Replaced(items, i, items[i].Counted());
    CacheLaws.ReplacedValid(items, i, items[i].Counted());
  }

  lemma NewAccounted(items: seq<Item<Entry>>, currentSize: nat, item: Item<Entry>)
    requires Accounted(items, currentSize) && item.Valid() && item.Pending()
    requires forall i :: 0 <= i < |items| ==> items[i].ptr != item.ptr && items[i].key != item.key
    ensures Accounted([item] + items, currentSize)
  {
    CacheLaws.NewKeeps(items, item);
    CacheLaws.SizeAppend([item], items);
    CacheLaws.Singleton(item);
  }

  lemma FillAccounted(items: seq<Item<Entry>>, currentSize: nat, i: nat, value: Value, size: nat,
                      timeout: Option<Time>, cost: int)
    requires Accounted(items, currentSize) && i < |items| && items[i].Pending()
    ensures Accounted(items[i := Filled(items[i], value, size, timeout, cost)], currentSize + size)
  {
    var item := Filled(items[i], value, size, timeout, cost);
    CacheLaws.Replaced(items, i, item);
    CacheLaws.ReplacedValid(items, i, item);
  }

  lemma DeleteAccounted(items: seq<Item<Entry>>, currentSize: nat, i: nat)
    requires Accounted(items, currentSize) && i < |items| && items[i].Pending()
    ensures Accounted(Without(items, i), currentSize)
  {
    CacheLaws.SizeAround(items, i);
    CacheLaws.WithoutValid(items, i);
  }

  // Where a flush stands that has found the entry with the given key.
  ghost predicate Flushing(goal: Outcome<Entry>, was: seq<Value>, items: seq<Item<Entry>>, freed: seq<Value>,
                           key: Option<string>, rest: seq<string>) {
    match key
    case None => goal.items == items && was + goal.freed == freed
    case Some(k) =>
      var i := Find(items, k);
      && i < |items|
      && var r := Flush(Without(items, i), rest);
         goal.items == r.items && was + goal.freed == freed + items[i].Freed() + r.freed
  }

  lemma FlushingNext(goal: Outcome<Entry>, was: seq<Value>, items: seq<Item<Entry>>, freed: seq<Value>,
                     rest: seq<string>, now: Time)
    requires var r := Flush(items, rest); goal.items == r.items && was + goal.freed == freed + r.freed
    ensures var w := Next(items, rest, now); Flushing(goal, was, w.items, freed + w.freed, w.key, w.todo)
  {
    CacheLaws.FlushByWalking(items, rest, now);
    var w := Next(items, rest, now);
    if w.key.Some? {
      var d := Delete(w.items, Find(w.items, w.key.value));
      var r := Flush(d.items, w.todo);
      assert freed + (w.freed + d.freed + r.freed) == freed + w.freed + d.freed + r.freed;
    }
  }

  lemma FlushingDelete(goal: Outcome<Entry>, was: seq<Value>, items: seq<Item<Entry>>, freed: seq<Value>,
                       key: string, rest: seq<string>)
    requires Flushing(goal, was, items, freed, Some(key), rest)
    ensures Find(items, key) < |items|
    ensures var d := Delete(items, Find(items, key));
            var r := Flush(d.items, rest);
            goal.items == r.items && was + goal.freed == freed + d.freed + r.freed
  {
  }

  lemma FlushingEnd(goal: Outcome<Entry>, was: seq<Value>, items: seq<Item<Entry>>, freed: seq<Value>, rest: seq<string>)
    requires Flushing(goal, was, items, freed, None, rest)
    ensures goal.items == items && was <= freed && freed[|was|..] == goal.freed
  {
  }

  // A walk that has come to w, with these values freed, goes on to goal.
  ghost predicate Continues(goal: Walk<Entry>, before: seq<Value>, w: Walk<Entry>, freed: seq<Value>) {
    goal.items == w.items && goal.todo == w.todo && goal.key == w.key && before + goal.freed == freed + w.freed
  }

  // Next unfolded once.
  lemma NextUnfolds(items: seq<Item<Entry>>, rest: seq<string>, now: Time, goal: Walk<Entry>, before: seq<Value>, freed: seq<Value>)
    requires rest != [] && Continues(goal, before, Next(items, rest, now), freed)
    ensures var i := Find(items, rest[0]);
            if i < |items| && !items[i].Pending() then
              if items[i].Expired(now) then
                Continues(goal, before, Next(Without(items, i), rest[1..], now), freed + items[i].Freed())
              else goal.items == items && goal.todo == rest[1..] && goal.key == Some(rest[0]) && before + goal.freed == freed
            else Continues(goal, before, Next(items, rest[1..], now), freed)
  {
    var i := Find(items, rest[0]);
    if i < |items| && !items[i].Pending() {
      if items[i].Expired(now) {
        var w := Next(Without(items, i), rest[1..], now);
        assert freed + (items[i].Freed() + w.freed) == (freed + items[i].Freed()) + w.freed;
      } else {
        assert freed + [] == freed;
      }
    }
  }

  lemma NextNone(items: seq<Item<Entry>>, now: Time)
    ensures Next(items, [], now) == Walk(items, [], [], None)
  {
  }

  class Cache {
    var first: Entry?
    var last: Entry?
    var table: map<string, Entry>
    const maxSize: nat
    var currentSize: nat
    var freed: seq<Value>
    ghost var order: seq<Entry>          // the list, first to last
    ghost var items: seq<Item<Entry>>    // what its entries hold

    constructor (maxSize: nat)
      ensures Valid() && items == [] && freed == [] && this.maxSize == maxSize
    {
      first, last, table, currentSize, freed, order, items := null, null, map[], 0, [], [], [];
      this.maxSize := maxSize;
    }

    ghost function Nodes(): set<Entry>
      reads this
    {
      set e | e in order
    }

    // The list is well linked, the table holds exactly its entries, and the
    // sizes add up.
    ghost predicate Valid()
      reads this, order
    {
      && Linked(order) && Ends() && InTable(table, order)
      && |items| == |order| && Mirrors(order, items) && Accounted(items, currentSize)
    }

    ghost predicate Ends()
      reads this
    {
      && first == (if |order| == 0 then null else order[0])
      && last == (if |order| == 0 then null else order[|order| - 1])
    }

    // The pointer surgery of Delink.
    method Unlink(e: Entry, ghost i: nat)
      requires Linked(order) && Ends() && i < |order| && e == order[i]
      modifies `first, `last, Nodes()`next, Nodes()`prev
      ensures Skips(order, i)
      ensures first == (if i == 0 then After(order, i) else order[0])
      ensures last == (if i == |order| - 1 then Before(order, i) else order[|order| - 1])
    {
      assert e.prev == Before(order, i) && e.next == After(order, i);
      if e.prev != null {
        e.prev.next := e.next;
      } else {
        first := e.next;
      }
      if e.next != null {
        e.next.prev := e.prev;
      } else {
        last := e.prev;
      }
      e.prev, e.next := null, null;
    }

    // Takes entry e, at position i, out of the list.
    method Delink(e: Entry, ghost i: nat)
      requires Linked(order) && Ends() && i < |order| && e == order[i]
      modifies `first, `last, `order, Nodes()`next, Nodes()`prev
      ensures order == Without(old(order), i) && Linked(order) && Ends()
    {
      hide Linked;
      assert forall j, k :: 0 <= j < k < |order| ==> order[j] != order[k] by {
        LinkedDistinct(order);
      }
      Unlink(e, i);
      LinkedWithout(order, i);
      order := Without(order, i);
    }

    // Puts entry e at the front of the list, as the most recently used.
    method Push(e: Entry)
      requires Linked(order) && Ends() && e !in order
      modifies `first, `last, `order, e`next, e`prev, Nodes()`prev
      ensures order == [e] + old(order) && Linked(order) && Ends()
    {
      assert order != [] ==> order[0] in Nodes();
      if first != null {
        first.prev := e;
      }
      e.prev := null;
      e.next := first;
      first := e;
      if last == null {
        last := e;
      }
      LinkedFront(order, e);
      order := [e] + order;
    }

    // ------------------------------------------------------- the operations

    // The position of a key's entry, found through the table.
    lemma Position(key: string)
      requires Valid()
      ensures var i := Find(items, key);
              if key in table then i < |order| && order[i] == table[key] else i == |order|
    {
      var i := Find(items, key);
      if key in table {
        var j :| 0 <= j < |order| && order[j] == table[key];
        assert items[j].key == key;
      } else {
        assert forall j :: 0 <= j < |order| ==> items[j].key == order[j].key;
      }
    }

    method UnsetValue(e: Entry, ghost i: nat)
      requires Valid() && i < |order| && order[i] == e
      modifies `currentSize, `freed, `items, e`data
      ensures Valid()
      ensures items == Unset(old(items), i).items
      ensures freed == old(freed) + Unset(old(items), i).freed
    {
      hide Linked, InTable, Accounted;
      LinkedDistinct(order);
      UnsetAccounted(items, currentSize, i);
      if e.data.value.Some? {
        var value := e.data.value.value;
        currentSize := currentSize - e.data.size;
        e.data := e.data.(size := 0, value := None, expires := NEVER);
        freed := freed + [value];
      }
      items := items[i := items[i].Unset()];
    }

    // Removes an entry without a value from the list and from the table.
    method Remove(e: Entry, ghost i: nat)
      requires Valid() && i < |order| && order[i] == e && items[i].Pending()
      modifies `first, `last, `order, `items, `table, Nodes()`next, Nodes()`prev
      ensures Valid()
      ensures order == Without(old(order), i) && items == Without(old(items), i)
    {
      hide Linked, InTable, Mirrors, Accounted, Without;
      DeleteAccounted(items, currentSize, i);
      LinkedDistinct(order);
      InTableWithout(table, order, i);
      MirrorsWithout(order, items, i);
      Delink(e, i);
      table := table - {e.key};
      items := Without(items, i);
      assert InTable(table, order);
      assert Linked(order) && Mirrors(order, items);
      assert Accounted(items, currentSize);
    }

    method DeleteEntry(e: Entry, ghost i: nat)
      requires Valid() && i < |order| && order[i] == e
      modifies this, Nodes()
      ensures Valid()
      ensures order == Without(old(order), i) && items == Delete(old(items), i).items
      ensures freed == old(freed) + Delete(old(items), i).freed
      ensures Nodes() <= old(Nodes())
    {
      hide Linked, InTable, Mirrors, Accounted;
      UnsetValue(e, i);
      Remove(e, i);
      assert items == Without(old(items), i);
    }

    // Delink followed by Push.
    method Relink(e: Entry, ghost i: nat)
      requires Linked(order) && Ends() && i < |order| && e == order[i]
      modifies `first, `last, `order, Nodes()`next, Nodes()`prev
      ensures order == [e] + Without(old(order), i) && Linked(order) && Ends()
    {
      hide Linked;
      LinkedDistinct(order);
      assert e !in Without(order, i);
      Delink(e, i);
      Push(e);
    }

    // Moves entry e, at position i, to the front of the list.
    method MoveToFront(e: Entry, ghost i: nat)
      requires Valid() && i < |order| && order[i] == e
      modifies `first, `last, `order, `items, Nodes()`next, Nodes()`prev
      ensures Valid()
      ensures order == [e] + Without(old(order), i) && items == ToFront(old(items), i, old(items[i]))
    {
      hide Linked, InTable, Mirrors, Accounted, Without, ToFront;
      FrontAccounted(items, currentSize, i);
      InTableFront(table, order, i);
      MirrorsFront(order, items, i);
      Relink(e, i);
      items := ToFront(items, i, items[i]);
      assert Linked(order) && Mirrors(order, items);
    }

    // One more use of an entry.
    method Count(e: Entry, ghost i: nat)
      requires Valid() && i < |order| && order[i] == e
      modifies `items, e`data
      ensures Valid()
      ensures items == old(items)[i := old(items)[i].Counted()]
    {
      hide Linked, InTable, Accounted;
      LinkedDistinct(order);
      CountAccounted(items, currentSize, i);
      e.data := e.data.(count := e.data.count + 1);
      items := items[i := items[i].Counted()];
    }

    method FindEntry(key: string, now: Time) returns (e: Entry?)
      requires Valid()
      modifies this, Nodes()
      ensures Valid()
      ensures var r := Lookup(old(items), key, now);
              items == r.0.items && freed == old(freed) + r.0.freed && (e != null) == r.1
      ensures e != null ==> e.key == key && |order| > 0 && order[0] == e
      ensures Nodes() <= old(Nodes())
    {
      hide Linked, InTable, Mirrors, Accounted, Find;
      Position(key);
      if key !in table {
        return null;
      }
      e := table[key];
      ghost var i := Find(items, key);
      DataAt(e, i);
      if e.data.value.None? {
        return null;
      }
      if e.data.expires.sec > 0 && e.data.expires.Before(now) {
        DeleteEntry(e, i);
        return null;
      }
      Count(e, i);
      MoveToFront(e, i);
      assert items == ToFront(old(items), i, old(items)[i].Counted());
    }

    lemma DataAt(e: Entry, i: nat)
      requires Valid() && i < |order| && order[i] == e
      ensures items[i] == e.ToItem()
    {
    }

    // Adds a new entry, without a value, to table and list.
    method Insert(key: string) returns (e: Entry)
      requires Valid() && key !in table
      modifies `first, `last, `order, `items, `table, Nodes()`prev
      ensures Valid() && fresh(e) && e.key == key && order == [e] + old(order)
      ensures items == [Item(e, key, None, 0, NEVER, 0, 0)] + old(items)
    {
      hide Linked, InTable, Mirrors, Accounted, Find;
      e := new Entry(key);
      ghost var item := e.ToItem();
      Position(key);
      NewAccounted(items, currentSize, item);
      InTableNew(table, order, e);
      MirrorsNew(order, items, e);
      Push(e);
      table := table[key := e];
      items := [item] + items;
      assert InTable(table, order);
      assert Linked(order) && Mirrors(order, items);
      assert Accounted(items, currentSize);
    }

    method CreateEntry(key: string, now: Time) returns (e: Entry, isNew: bool)
      requires Valid()
      modifies this, Nodes()
      ensures Valid()
      ensures var r := Create(old(items), key, now, e);
              items == r.0.items && freed == old(freed) + r.0.freed && isNew == r.1
      ensures e.key == key && |order| > 0 && order[0] == e
      ensures Nodes() <= old(Nodes()) || (fresh(e) && Nodes() == old(Nodes()) + {e})
    {
      hide Linked, InTable, Mirrors, Accounted, Find;
      Position(key);
      if key !in table {
        e := Insert(key);
        return e, true;
      }
      e := table[key];
      ghost var i := Find(items, key);
      DataAt(e, i);
      if e.data.expires.sec > 0 && e.data.expires.Before(now) {
        UnsetValue(e, i);
        isNew := true;
      } else {
        Count(e, i);
        isNew := false;
      }
      MoveToFront(e, i);
      assert items == ToFront(old(items), i, if isNew then old(items)[i].Unset() else old(items)[i].Counted());
    }

    // Stores a value in an entry that has none.
    method Fill(e: Entry, ghost i: nat, value: Value, size: nat, timeout: Option<Time>, cost: int)
      requires Valid() && i < |order| && order[i] == e && items[i].Pending()
      modifies `currentSize, `items, e`data
      ensures Valid()
      ensures items == old(items)[i := Filled(old(items)[i], value, size, timeout, cost)]
    {
      hide Linked, InTable, Accounted;
      LinkedDistinct(order);
      FillAccounted(items, currentSize, i, value, size, timeout, cost);
      e.data := e.data.(value := Some(value), size := size, cost := cost, count := 1);
      if timeout.Some? {
        e.data := e.data.(expires := timeout.value);
      }
      currentSize := currentSize + size;
      items := items[i := Filled(items[i], value, size, timeout, cost)];
    }

    method SetValueExpires(e: Entry, ghost i: nat, value: Value, size: nat, timeout: Option<Time>, cost: int)
      requires Valid() && i < |order| && order[i] == e
      modifies this, Nodes()
      ensures Valid()
      ensures var r := Set(old(items), i, value, size, timeout, cost, maxSize);
              items == r.items && freed == old(freed) + r.freed
      ensures order <= old(order)
    {
      hide Linked, InTable, Mirrors, Accounted, Prune;
      ghost var was := items;
      DataAt(e, i);
      UnsetValue(e, i);
      Fill(e, i, value, size, timeout, cost);
      assert items == was[i := Filled(was[i], value, size, timeout, cost)];
      if maxSize > 0 {
        PruneTo(e, i);
      }
    }

    // The pruning loop.
    method PruneTo(e: Entry, ghost i: nat)
      requires Valid() && i < |order| && order[i] == e
      modifies this, Nodes()
      ensures Valid()
      ensures var r := Prune(old(items), maxSize, e);
              items == r.items && freed == old(freed) + r.freed
      ensures order <= old(order)
    {
      hide Linked, InTable, Mirrors, Prune, Size, ValidItems;
      ghost var goal := Prune(items, maxSize, e);
      while currentSize > maxSize && last != e && last.data.value.Some?
        invariant Valid() && i < |order| && order[i] == e && order <= old(order)
        invariant goal.items == Prune(items, maxSize, e).items
        invariant old(freed) + goal.freed == freed + Prune(items, maxSize, e).freed
        decreases |order|
      {
        ghost var n := |order| - 1;
        DataAt(last, n);
        CacheLaws.PruneStep(items, maxSize, e);
        DeleteEntry(last, n);
      }
      DataAt(last, |order| - 1);
      CacheLaws.PruneStep(items, maxSize, e);
    }

    // The next live entry on a walk over the table, with the keys left to visit.
    method NextEntry(todo: seq<string>, now: Time) returns (e: Entry?, rest: seq<string>)
      requires Valid()
      modifies this, Nodes()
      ensures Valid()
      ensures var w := Next(old(items), todo, now);
              && items == w.items && freed == old(freed) + w.freed && rest == w.todo
              && (if w.key.Some? then e != null && e.key == w.key.value && e.key in table && table[e.key] == e
                  else e == null)
      ensures Nodes() <= old(Nodes())
      ensures |rest| <= |todo| && (e != null ==> |rest| < |todo|)
    {
      hide Linked, InTable, Mirrors, Accounted, Find, Next;
      rest := todo;
      ghost var goal := Next(items, todo, now);
      while rest != []
        invariant Valid() && |rest| <= |todo| && Nodes() <= old(Nodes())
        invariant Continues(goal, old(freed), Next(items, rest, now), freed)
        decreases |rest|
      {
        var key := rest[0];
        Position(key);
        ghost var i := Find(items, key);
        NextUnfolds(items, rest, now, goal, old(freed), freed);
        if key in table {
          e := table[key];
          DataAt(e, i);
          if e.data.value.Some? {
            if !(e.data.expires.sec > 0 && e.data.expires.Before(now)) {
              rest := rest[1..];
              return;
            }
            DeleteEntry(e, i);
          }
        }
        rest := rest[1..];
      }
      NextNone(items, now);
      e := null;
    }

    // Deletes every entry that has a value; walk is the order in which the
    // hash table gives out its keys.
    method Flush(walk: seq<string>, now: Time)
      requires Valid() && forall k :: k in table ==> k in walk
      modifies this, Nodes()
      ensures Valid()
      ensures items == CacheLaws.PendingOnly(old(items)) && currentSize == 0
      ensures old(freed) <= freed && multiset(freed[|old(freed)|..]) == multiset(CacheLaws.Stored(old(items)))
    {
      hide Linked, InTable, Mirrors, Find, Next, CacheSpec.Flush, Size, ValidItems, Flushing;
      ghost var goal := CacheSpec.Flush(items, walk);
      AllWalked(walk);
      CacheLaws.FlushComplete(items, walk);
      FlushingNext(goal, freed, items, freed, walk, now);
      var e, rest := NextEntry(walk, now);
      while e != null
        invariant Valid() && Nodes() <= old(Nodes())
        invariant e != null ==> e.key in table && table[e.key] == e
        invariant Flushing(goal, old(freed), items, freed, if e == null then None else Some(e.key), rest)
        decreases e != null, |rest|
      {
        Position(e.key);
        ghost var i := Find(items, e.key);
        FlushingDelete(goal, old(freed), items, freed, e.key, rest);
        DeleteEntry(e, i);
        FlushingNext(goal, old(freed), items, freed, rest, now);
        e, rest := NextEntry(rest, now);
      }
      FlushingEnd(goal, old(freed), items, freed, rest);
    }

    lemma AllWalked(walk: seq<string>)
      requires Valid() && forall k :: k in table ==> k in walk
      ensures forall i :: 0 <= i < |items| ==> items[i].key in walk
    {
      forall i | 0 <= i < |items|
        ensures items[i].key in walk
      {
        assert order[i].key in table;
      }
    }
  }
}

/**
  What a cache of nsd/cache.c does, on values.

  A cache is the list of its entries, most recently used first.  An entry whose
  value is None is pending: some thread is computing its value.  Operations give
  the new list and the values handed to the free procedure, in order.  Entries
  carry the pointer that callers hold on to (type E).
*/
module CacheSpec {
  import opened Basics

  // Absolute time, microseconds below a million.
  datatype Time = Time(sec: int, usec: int) {
    // Ns_DiffTime(this, t) < 0
    predicate Before(t: Time) {
      sec < t.sec || (sec == t.sec && usec < t.usec)
    }
  }

  const NEVER: Time := Time(0, 0)

  type Value = nat

  datatype Item<E> = Item(ptr: E, key: string, value: Option<Value>, size: nat, expires: Time, cost: int, count: int)
  {
    predicate Pending() {
      value.None?
    }

    predicate Expired(now: Time) {
      expires.sec > 0 && expires.Before(now)
    }

    // A pending entry has no size and cannot expire.
    predicate Valid() {
      Pending() ==> size == 0 && expires == NEVER
    }

    function Unset(): Item<E> {
      if Pending() then this else this.(size := 0, value := None, expires := NEVER)
    }

    // Used once more.
    function Counted(): Item<E> {
      this.(count := count + 1)
    }

    function Freed(): seq<Value> {
      if Pending() then [] else [value.value]
    }
  }

  datatype Outcome<E> = Outcome(items: seq<Item<E>>, freed: seq<Value>)

  // ------------------------------------------------------------- the entries

  predicate ValidItems<E(==)>(items: seq<Item<E>>) {
    && (forall i :: 0 <= i < |items| ==> items[i].Valid())
    && (forall i, j :: 0 <= i < j < |items| ==> items[i].key != items[j].key)
    && (forall i, j :: 0 <= i < j < |items| ==> items[i].ptr != items[j].ptr)
  }

  // Position of a key, or the length of the list.
  function Find<E>(items: seq<Item<E>>, key: string): (i: nat)
    ensures i <= |items|
    ensures i < |items| ==> items[i].key == key
    ensures forall j :: 0 <= j < i ==> items[j].key != key
  {
    if items == [] || items[0].key == key then 0 else 1 + Find(items[1..], key)
  }

  function Size<E>(items: seq<Item<E>>): nat {
    if items == [] then 0 else Size(items[..|items| - 1]) + items[|items| - 1].size
  }

  function Without<T>(s: seq<T>, i: nat): (r: seq<T>)
    requires i < |s|
    ensures |r| == |s| - 1
  {
    s[..i] + s[i + 1..]
  }

  function ToFront<E>(items: seq<Item<E>>, i: nat, item: Item<E>): (r: seq<Item<E>>)
    requires i < |items|
    ensures |r| == |items|
  {
    [item] + Without(items, i)
  }

  // ----------------------------------------------------------- the operations

  // Ns_CacheDeleteEntry
  function Delete<E>(items: seq<Item<E>>, i: nat): Outcome<E>
    requires i < |items|
  {
    Outcome(Without(items, i), items[i].Freed())
  }

  // Ns_CacheUnsetValue
  function Unset<E>(items: seq<Item<E>>, i: nat): Outcome<E>
    requires i < |items|
  {
    Outcome(items[i := items[i].Unset()], items[i].Freed())
  }

  // Ns_CacheFindEntry; the entry found, if any, is then at the front.
  function Lookup<E>(items: seq<Item<E>>, key: string, now: Time): (Outcome<E>, bool) {
    var i := Find(items, key);
    if i == |items| || items[i].Pending() then (Outcome(items, []), false)
    else if items[i].Expired(now) then (Delete(items, i), false)
    else (Outcome(ToFront(items, i, items[i].Counted()), []), true)
  }

  // Ns_CacheCreateEntry; the entry is then at the front.  The flag is isNew.
  function Create<E>(items: seq<Item<E>>, key: string, now: Time, born: E): (r: (Outcome<E>, bool))
    ensures |r.0.items| > 0 && r.0.items[0].key == key
  {
    var i := Find(items, key);
    if i == |items| then (Outcome([Item(born, key, None, 0, NEVER, 0, 0)] + items, []), true)
    else if items[i].Expired(now) then (Outcome(ToFront(items, i, items[i].Unset()), items[i].Freed()), true)
    else (Outcome(ToFront(items, i, items[i].Counted()), []), false)
  }

  // The pruning loop: drops the least recently used entry while the cache is
  // too large, but neither the entry being set nor a pending one.
  function Prune<E(==)>(items: seq<Item<E>>, maxSize: nat, keep: E): Outcome<E>
    decreases |items|
  {
    if items == [] then Outcome(items, [])
    else
      var last := items[|items| - 1];
      if Size(items) <= maxSize || last.ptr == keep || last.Pending() then Outcome(items, [])
      else
        var r := Prune(items[..|items| - 1], maxSize, keep);
        r.(freed := last.Freed() + r.freed)
  }

  function Filled<E>(item: Item<E>, value: Value, size: nat, timeout: Option<Time>, cost: int): Item<E> {
    item.(value := Some(value), size := size, cost := cost, count := 1,
          expires := if timeout.Some? then timeout.value else item.Unset().expires)
  }

  // Ns_CacheSetValueExpires on a cache limited to maxSize (0: unlimited).
  function Set<E(==)>(items: seq<Item<E>>, i: nat, value: Value, size: nat, timeout: Option<Time>, cost: int,
                      maxSize: nat): Outcome<E>
    requires i < |items|
  {
    var u := Unset(items, i);
    var filled := items[i := Filled(items[i], value, size, timeout, cost)];
    var r := if maxSize > 0 then Prune(filled, maxSize, items[i].ptr) else Outcome(filled, []);
    r.(freed := u.freed + r.freed)
  }

  // A walk over the hash table: todo lists the keys still to be visited, in
  // the table's own order.
  datatype Walk<E> = Walk(items: seq<Item<E>>, freed: seq<Value>, todo: seq<string>, key: Option<string>)

  // Ns_CacheFirstEntry and Ns_CacheNextEntry: the next entry that has a value
  // and has not expired; expired ones on the way are deleted.
  function Next<E>(items: seq<Item<E>>, todo: seq<string>, now: Time): Walk<E>
    decreases |todo|
  {
    if todo == [] then Walk(items, [], [], None)
    else
      var i := Find(items, todo[0]);
      if i == |items| || items[i].Pending() then Next(items, todo[1..], now)
      else if items[i].Expired(now) then
        var w := Next(Without(items, i), todo[1..], now);
        w.(freed := items[i].Freed() + w.freed)
      else Walk(items, [], todo[1..], Some(todo[0]))
  }

  // Ns_CacheFlush over such a walk.
  function Flush<E>(items: seq<Item<E>>, todo: seq<string>): Outcome<E>
    decreases |todo|
  {
    if todo == [] then Outcome(items, [])
    else
      var i := Find(items, todo[0]);
      if i == |items| || items[i].Pending() then Flush(items, todo[1..])
      else
        var r := Flush(Without(items, i), todo[1..]);
        r.(freed := items[i].Freed() + r.freed)
  }
}

/**
  Cached static files (the cached branch of FastReturn in nsd/fastpath.c) in
  every interleaving.

  A File lives as long as its reference count is positive.  The cache holds one
  reference to each file it stores, and gives it up through the free procedure;
  a thread holds one while it sends the file.  The lock is dropped while a
  thread waits, reads a file from disk, or sends one.
*/
module FastPath {
  import opened Basics
  import opened CacheSpec
  import CacheLaws

  type Thread = nat

  // The part of struct stat that identifies a version of a file.
  datatype Stat = Stat(mtime: int, size: nat, dev: int, ino: int)

  datatype File = File(refcnt: nat, stat: Stat)

  datatype Phase =
    | Idle
    | Waiting(name: string, stat: Stat)
    | Reading(name: string, stat: Stat)
    | Sending(name: string, stat: Stat, file: Value)

  datatype State = State(
    items: seq<Item<nat>>,
    maxSize: nat,
    header: nat,                  // sizeof(File), added to the size of a cached file
    born: nat,                    // the next cache entry to be allocated
    files: map<Value, File>,      // the files that have not been freed
    next: Value,                  // the next file to be allocated
    threads: map<Thread, Phase>,
    dangling: bool                // a file was used after it was freed
  )

  datatype Step =
    | Begin(t: Thread, name: string, stat: Stat, now: Time)
    | Wake(t: Thread, now: Time)
    | ReadDone(t: Thread, now: Time, ok: bool)
    | Sent(t: Thread)
    | Scan(todo: seq<string>, now: Time)
    | FlushAll(todo: seq<string>)

  function PhaseOf(s: State, t: Thread): Phase {
    if t in s.threads then s.threads[t] else Idle
  }

  // ------------------------------------------------------ reference counting

  // DecrEntry
  function Decr(files: map<Value, File>, f: Value): map<Value, File>
    requires f in files
  {
    if files[f].refcnt <= 1 then files - {f}
    else files[f := files[f].(refcnt := files[f].refcnt - 1)]
  }

  // FreeEntry called for each value; the flag tells whether all of them lived.
  function Release(files: map<Value, File>, freed: seq<Value>): (map<Value, File>, bool)
    decreases |freed|
  {
    if freed == [] then (files, true)
    else if freed[0] !in files then (files, false)
    else Release(Decr(files, freed[0]), freed[1..])
  }

  function Incr(files: map<Value, File>, f: Value): map<Value, File>
    requires f in files
  {
    files[f := files[f].(refcnt := files[f].refcnt + 1)]
  }

  // ------------------------------------------------------------------- steps

  function Cached(s: State, items: seq<Item<nat>>, freed: seq<Value>): State {
    var (files, ok) := Release(s.files, freed);
    s.(items := items, files := files, dangling := s.dangling || !ok)
  }

  // Sends file f, which has just been looked up or stored.
  function Send(s: State, t: Thread, name: string, stat: Stat, f: Value): State {
    if f !in s.files then s.(dangling := true)
    else s.(files := Incr(s.files, f), threads := s.threads[t := Sending(name, stat, f)])
  }

  // A turn of Ns_CacheWaitCreateEntry and the validation of what it found.
  function Created(s: State, t: Thread, name: string, stat: Stat, now: Time): State {
    var (o, isNew) := Create(s.items, name, now, s.born);
    var s1 := Cached(s, o.items, o.freed).(born := s.born + 1);
    var e := o.items[0];
    if isNew then s1.(threads := s.threads[t := Reading(name, stat)])
    else if e.Pending() then s1.(threads := s.threads[t := Waiting(name, stat)])
    else if e.value.value !in s1.files then s1.(dangling := true)
    else if s1.files[e.value.value].stat != stat then
      var u := Unset(o.items, 0);
      Cached(s1, u.items, u.freed).(threads := s.threads[t := Reading(name, stat)])
    else Send(s1, t, name, stat, e.value.value)
  }

  // Back under the lock with the file read, or not.
  function Stored(s: State, t: Thread, name: string, stat: Stat, now: Time, ok: bool): State {
    var o := Create(s.items, name, now, s.born).0;
    var s1 := Cached(s, o.items, o.freed).(born := s.born + 1);
    if ok then
      var f := s.next;
      var s2 := s1.(files := s1.files[f := File(1, stat)], next := f + 1);
      var r := Set(o.items, 0, f, stat.size + s.header, None, 0, s.maxSize);
      Send(Cached(s2, r.items, r.freed), t, name, stat, f)
    else
      var d := Delete(o.items, 0);
      Cached(s1, d.items, d.freed).(threads := s.threads[t := Idle])
  }

  function Take(s: State, step: Step): State {
    match step
    case Begin(t, name, stat, now) =>
      if !PhaseOf(s, t).Idle? then s else Created(s, t, name, stat, now)
    case Wake(t, now) =>
      var p := PhaseOf(s, t);
      if !p.Waiting? then s else Created(s, t, p.name, p.stat, now)
    case ReadDone(t, now, ok) =>
      var p := PhaseOf(s, t);
      if !p.Reading? then s else Stored(s, t, p.name, p.stat, now, ok)
    case Sent(t) =>
      var p := PhaseOf(s, t);
      if !p.Sending? then s
      else if p.file !in s.files then s.(dangling := true)
      else s.(files := Decr(s.files, p.file), threads := s.threads[t := Idle])
    case Scan(todo, now) =>
      var w := Next(s.items, todo, now);
      Cached(s, w.items, w.freed)
    case FlushAll(todo) =>
      var o := Flush(s.items, todo);
      Cached(s, o.items, o.freed)
  }

  function Run(s: State, steps: seq<Step>): State
    decreases |steps|
  {
    if steps == [] then s else Run(Take(s, steps[0]), steps[1..])
  }

  function Start(maxSize: nat, header: nat): State {
    State([], maxSize, header, 0, map[], 0, map[], false)
  }

  // --------------------------------------------------------------- invariant

  // The threads that are sending file f.
  function Senders(threads: map<Thread, Phase>, f: Value): set<Thread> {
    set t | t in threads && threads[t].Sending? && threads[t].file == f
  }

  // How often the cache stores file f.
  function Copies(items: seq<Item<nat>>, f: Value): nat {
    multiset(CacheLaws.Stored(items))[f]
  }

  function References(s: State, f: Value): nat {
    Copies(s.items, f) + |Senders(s.threads, f)|
  }

  // f lives exactly as long as it is referenced, and counts its references.
  ghost predicate Counts(files: map<Value, File>, f: Value, n: nat) {
    (f in files <==> n > 0) && (f in files ==> files[f].refcnt == n)
  }

  ghost predicate Counted(s: State) {
    forall f :: Counts(s.files, f, References(s, f))
  }

  ghost predicate SendersMatch(s: State) {
    forall t :: PhaseOf(s, t).Sending? ==>
                  PhaseOf(s, t).file in s.files && s.files[PhaseOf(s, t).file].stat == PhaseOf(s, t).stat
  }

  ghost predicate Fresh(s: State) {
    && (forall f :: f >= s.next ==> References(s, f) == 0)
    && (forall i :: 0 <= i < |s.items| ==> s.items[i].ptr < s.born)
  }

  ghost predicate Inv(s: State) {
    && !s.dangling && ValidItems(s.items) && Counted(s) && SendersMatch(s) && Fresh(s)
    && forall f :: Copies(s.items, f) <= 1
  }

  // ------------------------------------------------------------ proof: files

  // Giving up the listed references leaves each file with the others.
  lemma {:induction false} ReleaseCounts(files: map<Value, File>, freed: seq<Value>, n: Value -> nat)
    requires forall f :: Counts(files, f, n(f) + multiset(freed)[f])
    ensures var (files', ok) := Release(files, freed);
            && ok
            && (forall f :: Counts(files', f, n(f)))
            && (forall f :: f in files' ==> f in files && files'[f].stat == files[f].stat)
    decreases |freed|
  {
    if freed != [] {
      var g, rest := freed[0], freed[1..];
      assert freed == [g] + rest;
      assert forall f :: multiset(freed)[f] == multiset(rest)[f] + if f == g then 1 else 0;
      assert Counts(files, g, n(g) + multiset(freed)[g]);
      var files1 := Decr(files, g);
      forall f
        ensures Counts(files1, f, n(f) + multiset(rest)[f])
      {
        assert Counts(files, f, n(f) + multiset(freed)[f]);
      }
      ReleaseCounts(files1, rest, n);
    }
  }

  lemma CopiesDropped(a: seq<Item<nat>>, b: seq<Item<nat>>, freed: seq<Value>, f: Value)
    requires multiset(CacheLaws.Stored(a)) == multiset(CacheLaws.Stored(b)) + multiset(freed)
    ensures Copies(a, f) == Copies(b, f) + multiset(freed)[f]
  {
  }

  lemma CachedCounts(s: State, items: seq<Item<nat>>, freed: seq<Value>)
    requires Counted(s)
    requires multiset(CacheLaws.Stored(s.items)) == multiset(CacheLaws.Stored(items)) + multiset(freed)
    ensures var s' := Cached(s, items, freed);
            && Counted(s') && s'.dangling == s.dangling
            && forall f :: f in s'.files ==> f in s.files && s'.files[f].stat == s.files[f].stat
  {
    hide CacheLaws.Stored, Release, Copies, Senders;
    var s' := Cached(s, items, freed);
    var n := (f: Value) => Copies(items, f) + |Senders(s.threads, f)|;
    forall f
      ensures Counts(s.files, f, n(f) + multiset(freed)[f])
    {
      CopiesDropped(s.items, items, freed, f);
      assert Counts(s.files, f, References(s, f));
    }
    ReleaseCounts(s.files, freed, n);
    forall f
      ensures Counts(s'.files, f, References(s', f))
    {
      assert Counts(s'.files, f, n(f));
    }
  }

  // A change of the cache that frees exactly the values it drops.
  lemma CachedKeeps(s: State, items: seq<Item<nat>>, freed: seq<Value>)
    requires Inv(s) && ValidItems(items) && forall i :: 0 <= i < |items| ==> items[i].ptr < s.born
    requires multiset(CacheLaws.Stored(s.items)) == multiset(CacheLaws.Stored(items)) + multiset(freed)
    ensures Inv(Cached(s, items, freed))
    ensures var s' := Cached(s, items, freed);
            forall f :: f in s'.files ==> f in s.files && s'.files[f].stat == s.files[f].stat
  {
    hide ValidItems, CacheLaws.Stored, Release, Copies, Senders, Counted;
    var s' := Cached(s, items, freed);
    CachedCounts(s, items, freed);
    forall f
      ensures Copies(items, f) <= Copies(s.items, f)
      ensures References(s', f) <= References(s, f)
    {
      CopiesDropped(s.items, items, freed, f);
    }
    forall t | PhaseOf(s', t).Sending?
      ensures PhaseOf(s', t).file in s'.files && s'.files[PhaseOf(s', t).file].stat == PhaseOf(s', t).stat
    {
      SenderReferenced(s', t);
      assert PhaseOf(s', t) == PhaseOf(s, t);
    }
    forall f | f >= s'.next
      ensures References(s', f) == 0
    {
      assert References(s, f) == 0;
    }
  }

  // A file being sent is referenced.
  lemma SenderReferenced(s: State, t: Thread)
    requires Counted(s) && PhaseOf(s, t).Sending?
    ensures PhaseOf(s, t).file in s.files
  {
    var f := PhaseOf(s, t).file;
    assert t in Senders(s.threads, f);
    assert Counts(s.files, f, References(s, f));
  }

  // ---------------------------------------------------------- proof: threads

  lemma SendersChange(threads: map<Thread, Phase>, t: Thread, p: Phase, f: Value)
    ensures Senders(threads[t := p], f) ==
            if p.Sending? && p.file == f then Senders(threads, f) + {t} else Senders(threads, f) - {t}
  {
  }

  lemma PhaseKeeps(s: State, t: Thread, p: Phase)
    requires Inv(s) && !PhaseOf(s, t).Sending? && !p.Sending?
    ensures Inv(s.(threads := s.threads[t := p]))
  {
    hide ValidItems, Copies, Senders;
    var s' := s.(threads := s.threads[t := p]);
    forall f
      ensures References(s', f) == References(s, f)
    {
      SendersChange(s.threads, t, p, f);
      NotSender(s, t, f);
    }
    forall f
      ensures Counts(s'.files, f, References(s', f))
    {
      assert Counts(s.files, f, References(s, f));
    }
    assert forall t2 :: t2 != t ==> PhaseOf(s', t2) == PhaseOf(s, t2);
  }

  lemma NotSender(s: State, t: Thread, f: Value)
    requires !PhaseOf(s, t).Sending?
    ensures t !in Senders(s.threads, f)
  {
  }

  lemma SendKeeps(s: State, t: Thread, name: string, stat: Stat, f: Value)
    requires Inv(s) && !PhaseOf(s, t).Sending? && f in s.files && s.files[f].stat == stat
    ensures Inv(Send(s, t, name, stat, f))
  {
    hide ValidItems, Copies, Senders;
    var p := Sending(name, stat, f);
    var s' := Send(s, t, name, stat, f);
    forall g
      ensures References(s', g) == References(s, g) + (if g == f then 1 else 0)
    {
      SendersChange(s.threads, t, p, g);
      NotSender(s, t, g);
    }
    forall g
      ensures Counts(s'.files, g, References(s', g))
    {
      assert Counts(s.files, g, References(s, g));
    }
    assert References(s, f) > 0 by {
      assert Counts(s.files, f, References(s, f));
    }
    assert forall t2 :: t2 != t ==> PhaseOf(s', t2) == PhaseOf(s, t2);
  }

  lemma SentKeeps(s: State, t: Thread)
    requires Inv(s)
    ensures Inv(Take(s, Sent(t)))
  {
    hide ValidItems, Copies, Senders;
    var p := PhaseOf(s, t);
    if p.Sending? {
      SenderReferenced(s, t);
      var f := p.file;
      var s' := Take(s, Sent(t));
      forall g
        ensures References(s', g) == References(s, g) - (if g == f then 1 else 0)
      {
        SendersChange(s.threads, t, Idle, g);
        IsSender(s, t, g);
      }
      forall g
        ensures Counts(s'.files, g, References(s', g))
      {
        assert Counts(s.files, g, References(s, g));
      }
      forall t2 | PhaseOf(s', t2).Sending?
        ensures PhaseOf(s', t2).file in s'.files && s'.files[PhaseOf(s', t2).file].stat == PhaseOf(s', t2).stat
      {
        assert PhaseOf(s', t2) == PhaseOf(s, t2);
        SenderReferenced(s', t2);
      }
    }
  }

  lemma IsSender(s: State, t: Thread, g: Value)
    requires PhaseOf(s, t).Sending?
    ensures (t in Senders(s.threads, g)) == (PhaseOf(s, t).file == g)
  {
  }

  // ------------------------------------------------------------ proof: steps

  lemma CreatePointers(s: State, name: string, now: Time)
    requires Inv(s)
    ensures var items := Create(s.items, name, now, s.born).0.items;
            forall i :: 0 <= i < |items| ==> items[i].ptr < s.born + 1
  {
    var items := Create(s.items, name, now, s.born).0.items;
    CacheLaws.CreateWithin(s.items, name, now, s.born);
    if Find(s.items, name) < |s.items| {
      forall i | 0 <= i < |items|
        ensures items[i].ptr < s.born
      {
        assert CacheLaws.Known(items[i], s.items);
      }
    } else {
      assert forall i :: 1 <= i < |items| ==> items[i] == s.items[i - 1];
    }
  }

  // Ns_CacheCreateEntry, as both locked sections begin.
  lemma EntryCreated(s: State, name: string, now: Time)
    requires Inv(s)
    ensures var o := Create(s.items, name, now, s.born).0;
            var s1 := Cached(s, o.items, o.freed).(born := s.born + 1);
            && Inv(s1) && s1.items == o.items && s1.threads == s.threads
            && s1.next == s.next && s1.maxSize == s.maxSize && s1.header == s.header
  {
    hide CacheLaws.Stored, ValidItems, Release, Create, Counted, Copies, Senders;
    var o := Create(s.items, name, now, s.born).0;
    CacheLaws.CreateKeeps(s.items, name, now, s.born);
    CreatePointers(s, name, now);
    var s0 := s.(born := s.born + 1);
    BornLater(s);
    CachedKeeps(s0, o.items, o.freed);
    assert Cached(s0, o.items, o.freed) == Cached(s, o.items, o.freed).(born := s.born + 1);
  }

  lemma BornLater(s: State)
    requires Inv(s)
    ensures Inv(s.(born := s.born + 1))
  {
    var s' := s.(born := s.born + 1);
    assert forall f :: References(s', f) == References(s, f);
    assert forall t :: PhaseOf(s', t) == PhaseOf(s, t);
    forall f
      ensures Counts(s'.files, f, References(s', f))
    {
      assert Counts(s.files, f, References(s, f));
    }
  }

  // A stored value is a living file.
  lemma StoredLives(s: State, i: nat)
    requires Inv(s) && i < |s.items| && !s.items[i].Pending()
    ensures s.items[i].value.value in s.files
  {
    var f := s.items[i].value.value;
    CacheLaws.StoredAround(s.items, i);
    assert f in multiset(CacheLaws.Stored(s.items));
    assert Counts(s.files, f, References(s, f));
  }

  lemma CreatedKeeps(s: State, t: Thread, name: string, stat: Stat, now: Time)
    requires Inv(s) && !PhaseOf(s, t).Sending?
    ensures Inv(Created(s, t, name, stat, now))
  {
    hide Inv, Cached, Create, PhaseOf;
    var (o, isNew) := Create(s.items, name, now, s.born);
    var s1 := Cached(s, o.items, o.freed).(born := s.born + 1);
    EntryCreated(s, name, now);
    SamePhase(s, s1, t);
    if isNew {
      PhaseKeeps(s1, t, Reading(name, stat));
    } else if o.items[0].Pending() {
      PhaseKeeps(s1, t, Waiting(name, stat));
    } else {
      var f := o.items[0].value.value;
      StoredLives(s1, 0);
      if s1.files[f].stat == stat {
        SendKeeps(s1, t, name, stat, f);
      } else {
        var u := Unset(o.items, 0);
        UnsetKeeps(s1);
        var s2 := Cached(s1, u.items, u.freed);
        SamePhase(s, s2, t);
        PhaseKeeps(s2, t, Reading(name, stat));
      }
    }
  }

  lemma SamePhase(s: State, s': State, t: Thread)
    requires s'.threads == s.threads
    ensures PhaseOf(s', t) == PhaseOf(s, t)
  {
  }

  lemma UnsetKeeps(s: State)
    requires Inv(s) && s.items != []
    ensures var u := Unset(s.items, 0);
            var s' := Cached(s, u.items, u.freed);
            Inv(s') && s'.threads == s.threads
  {
    hide CacheLaws.Stored, ValidItems, Release, Counted, Copies, Senders;
    CacheLaws.UnsetKeeps(s.items, 0);
    var u := Unset(s.items, 0);
    CachedKeeps(s, u.items, u.freed);
  }

  lemma DeleteKeeps(s: State)
    requires Inv(s) && s.items != []
    ensures var d := Delete(s.items, 0);
            var s' := Cached(s, d.items, d.freed);
            Inv(s') && s'.threads == s.threads
  {
    hide CacheLaws.Stored, ValidItems, Release, Counted, Copies, Senders;
    CacheLaws.DeleteKeeps(s.items, 0);
    var d := Delete(s.items, 0);
    assert forall i :: 0 <= i < |d.items| ==> d.items[i] == s.items[i + 1];
    CachedKeeps(s, d.items, d.freed);
  }

  lemma ScanKeeps(s: State, todo: seq<string>, now: Time)
    requires Inv(s)
    ensures Inv(Take(s, Scan(todo, now)))
  {
    hide CacheLaws.Stored, ValidItems, Next, Release, Counted, Copies, Senders;
    var w := Next(s.items, todo, now);
    CacheLaws.NextKeeps(s.items, todo, now);
    CacheLaws.NextWithin(s.items, todo, now);
    PointersWithin(w.items, s.items, s.born);
    CachedKeeps(s, w.items, w.freed);
  }

  lemma FlushKeeps(s: State, todo: seq<string>)
    requires Inv(s)
    ensures Inv(Take(s, FlushAll(todo)))
  {
    hide CacheLaws.Stored, ValidItems, Flush, Release, Counted, Copies, Senders;
    var o := Flush(s.items, todo);
    CacheLaws.FlushKeeps(s.items, todo);
    CacheLaws.FlushKeepsValid(s.items, todo);
    CacheLaws.FlushWithin(s.items, todo);
    PointersWithin(o.items, s.items, s.born);
    CachedKeeps(s, o.items, o.freed);
  }

  lemma PointersWithin(b: seq<Item<nat>>, a: seq<Item<nat>>, born: nat)
    requires CacheLaws.Within(b, a) && forall i :: 0 <= i < |a| ==> a[i].ptr < born
    ensures forall i :: 0 <= i < |b| ==> b[i].ptr < born
  {
    forall i | 0 <= i < |b|
      ensures b[i].ptr < born
    {
      assert CacheLaws.Known(b[i], a);
    }
  }

  // A new file with one reference, handed to the entry at the front.
  lemma NewFileCounts(s: State, stat: Stat, items: seq<Item<nat>>, freed: seq<Value>)
    requires Inv(s)
    requires multiset(CacheLaws.Stored(s.items)) + multiset{s.next} == multiset(CacheLaws.Stored(items)) + multiset(freed)
    ensures var s2 := s.(files := s.files[s.next := File(1, stat)], next := s.next + 1);
            var s' := Cached(s2, items, freed);
            && Counted(s') && !s'.dangling
            && (forall g :: g in s'.files ==> g in s2.files && s'.files[g].stat == s2.files[g].stat)
            && (forall g :: Copies(items, g) <= Copies(s.items, g) + if g == s.next then 1 else 0)
  {
    hide CacheLaws.Stored, Release, Senders, ValidItems;
    var f := s.next;
    var s2 := s.(files := s.files[f := File(1, stat)], next := f + 1);
    var s' := Cached(s2, items, freed);
    var n := (g: Value) => Copies(items, g) + |Senders(s.threads, g)|;
    forall g
      ensures Counts(s2.files, g, n(g) + multiset(freed)[g])
      ensures Copies(items, g) <= Copies(s.items, g) + if g == f then 1 else 0
    {
      var total := multiset(CacheLaws.Stored(s.items)) + multiset{f};
      assert total[g] == Copies(s.items, g) + if g == f then 1 else 0;
      assert total[g] == Copies(items, g) + multiset(freed)[g];
      assert Counts(s.files, g, References(s, g));
      assert References(s, f) == 0;
    }
    ReleaseCounts(s2.files, freed, n);
    forall g
      ensures Counts(s'.files, g, References(s', g))
    {
      assert Counts(s'.files, g, n(g));
    }
  }

  lemma NewFileKeeps(s: State, stat: Stat, items: seq<Item<nat>>, freed: seq<Value>)
    requires Inv(s) && ValidItems(items) && forall i :: 0 <= i < |items| ==> items[i].ptr < s.born
    requires multiset(CacheLaws.Stored(s.items)) + multiset{s.next} == multiset(CacheLaws.Stored(items)) + multiset(freed)
    requires s.next in multiset(CacheLaws.Stored(items))
    ensures var s2 := s.(files := s.files[s.next := File(1, stat)], next := s.next + 1);
            var s' := Cached(s2, items, freed);
            Inv(s') && s'.threads == s.threads && s.next in s'.files && s'.files[s.next].stat == stat
  {
    hide ValidItems, CacheLaws.Stored, Release, Senders, Counted;
    var f := s.next;
    var s2 := s.(files := s.files[f := File(1, stat)], next := f + 1);
    var s' := Cached(s2, items, freed);
    NewFileCounts(s, stat, items, freed);
    assert References(s, f) == 0;
    assert forall g :: References(s, g) == Copies(s.items, g) + |Senders(s.threads, g)|;
    forall t | PhaseOf(s', t).Sending?
      ensures PhaseOf(s', t).file in s'.files && s'.files[PhaseOf(s', t).file].stat == PhaseOf(s', t).stat
    {
      SenderReferenced(s', t);
      assert PhaseOf(s', t) == PhaseOf(s, t);
      NotSent(s, t);
    }
    forall g | g >= s'.next
      ensures References(s', g) == 0
    {
      assert References(s, g) == 0;
      assert Copies(items, g) <= Copies(s.items, g);
    }
    CountedAt(s', f);
  }

  lemma CountedAt(s: State, f: Value)
    requires Counted(s)
    ensures Counts(s.files, f, References(s, f))
  {
  }

  // Nobody sends a file that is yet to be allocated.
  lemma NotSent(s: State, t: Thread)
    requires Inv(s) && PhaseOf(s, t).Sending?
    ensures PhaseOf(s, t).file != s.next
  {
    var f := PhaseOf(s, t).file;
    assert t in Senders(s.threads, f);
    assert |Senders(s.threads, f)| > 0;
    assert References(s, s.next) == 0;
  }

  lemma StoredKeeps(s: State, t: Thread, name: string, stat: Stat, now: Time, ok: bool)
    requires Inv(s) && !PhaseOf(s, t).Sending?
    ensures Inv(Stored(s, t, name, stat, now, ok))
  {
    hide Inv, Cached, Create, PhaseOf, Set;
    var o := Create(s.items, name, now, s.born).0;
    var s1 := Cached(s, o.items, o.freed).(born := s.born + 1);
    EntryCreated(s, name, now);
    if ok {
      SetKeeps(s1, stat);
      var f := s.next;
      var r := Set(o.items, 0, f, stat.size + s.header, None, 0, s.maxSize);
      var s3 := Cached(s1.(files := s1.files[f := File(1, stat)], next := f + 1), r.items, r.freed);
      SamePhase(s, s3, t);
      SendKeeps(s3, t, name, stat, f);
    } else {
      DeleteKeeps(s1);
      var d := Delete(o.items, 0);
      var s2 := Cached(s1, d.items, d.freed);
      SamePhase(s, s2, t);
      PhaseKeeps(s2, t, Idle);
    }
  }

  lemma SetKeeps(s: State, stat: Stat)
    requires Inv(s) && s.items != []
    ensures var r := Set(s.items, 0, s.next, stat.size + s.header, None, 0, s.maxSize);
            var s' := Cached(s.(files := s.files[s.next := File(1, stat)], next := s.next + 1), r.items, r.freed);
            Inv(s') && s'.threads == s.threads && s.next in s'.files && s'.files[s.next].stat == stat
  {
    hide CacheLaws.Stored, ValidItems, Set, Release, Counted, Copies, Senders;
    var size := stat.size + s.header;
    var r := Set(s.items, 0, s.next, size, None, 0, s.maxSize);
    CacheLaws.SetKeeps(s.items, 0, s.next, size, None, 0, s.maxSize);
    CacheLaws.SetStores(s.items, 0, s.next, size, None, 0, s.maxSize);
    CacheLaws.SetWithin(s.items, 0, s.next, size, None, 0, s.maxSize);
    var filled := s.items[0 := Filled(s.items[0], s.next, size, None, 0)];
    PointersWithin(r.items, filled, s.born);
    NewFileKeeps(s, stat, r.items, r.freed);
  }

  // -------------------------------------------------------------------- runs

  lemma StepKeeps(s: State, step: Step)
    requires Inv(s)
    ensures Inv(Take(s, step))
  {
    hide Inv, Created, Stored;
    match step
    case Begin(t, name, stat, now) =>
      if PhaseOf(s, t).Idle? {
        CreatedKeeps(s, t, name, stat, now);
      }
    case Wake(t, now) =>
      var p := PhaseOf(s, t);
      if p.Waiting? {
        CreatedKeeps(s, t, p.name, p.stat, now);
      }
    case ReadDone(t, now, ok) =>
      var p := PhaseOf(s, t);
      if p.Reading? {
        StoredKeeps(s, t, p.name, p.stat, now, ok);
      }
    case Sent(t) => SentKeeps(s, t);
    case Scan(todo, now) => ScanKeeps(s, todo, now);
    case FlushAll(todo) => FlushKeeps(s, todo);
  }

  lemma {:induction false} RunKeeps(s: State, steps: seq<Step>)
    requires Inv(s)
    ensures Inv(Run(s, steps))
    decreases |steps|
  {
    hide Inv, Take;
    if steps != [] {
      StepKeeps(s, steps[0]);
      RunKeeps(Take(s, steps[0]), steps[1..]);
    }
  }

  lemma StartInv(maxSize: nat, header: nat)
    ensures Inv(Start(maxSize, header))
  {
    var s := Start(maxSize, header);
    assert forall f :: Senders(s.threads, f) == {};
    assert forall f :: Copies(s.items, f) == 0;
    assert forall t :: PhaseOf(s, t) == Idle;
  }

  // In every run: no file is used after it was freed; a file lives exactly
  // while the cache holds it or a thread sends it, and its count is the number
  // of these; what a thread sends has the identity its own stat found.
  lemma FilesSafe(maxSize: nat, header: nat, steps: seq<Step>)
    ensures var s := Run(Start(maxSize, header), steps);
            && !s.dangling
            && (forall f :: Copies(s.items, f) <= 1)
            && (forall f :: f in s.files <==> Copies(s.items, f) + |Senders(s.threads, f)| > 0)
            && (forall f :: f in s.files ==> s.files[f].refcnt == Copies(s.items, f) + |Senders(s.threads, f)|)
            && (forall t :: PhaseOf(s, t).Sending? ==>
                  PhaseOf(s, t).file in s.files && s.files[PhaseOf(s, t).file].stat == PhaseOf(s, t).stat)
  {
    hide Run, Copies, Senders;
    StartInv(maxSize, header);
    RunKeeps(Start(maxSize, header), steps);
    var s := Run(Start(maxSize, header), steps);
    forall f
      ensures f in s.files <==> Copies(s.items, f) + |Senders(s.threads, f)| > 0
      ensures f in s.files ==> s.files[f].refcnt == Copies(s.items, f) + |Senders(s.threads, f)|
    {
      assert Counts(s.files, f, References(s, f));
    }
  }
}

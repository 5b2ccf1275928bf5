/**
  DnsGet of nsd/dns.c as a client of the cache, in every interleaving.

  A thread holds the cache lock for the length of a step and drops it between
  steps: while it waits on the condition and while it resolves.  In the latter
  case it keeps the pointer to the cache entry it is going to fill.
*/
module DnsLookup {
  import opened Basics
  import opened CacheSpec
  import CacheLaws

  type Thread = nat
  type Pointer = nat

  datatype Phase =
    | Idle
    | Waiting(key: string)
    | Resolving(key: string, entry: Pointer)
    | Answered(key: string, value: Value)
    | Failed(key: string)

  datatype State = State(
    items: seq<Item<Pointer>>,
    maxSize: nat,
    born: Pointer,                     // the next entry to be allocated
    threads: map<Thread, Phase>,
    freed: seq<Value>,
    made: multiset<Value>,             // every value handed to the cache
    answers: set<(string, Value)>,     // what resolving a key has yielded
    dangling: bool                     // an entry was used after its deletion
  )

  datatype Step =
    | Begin(t: Thread, key: string, now: Time)
    | Wake(t: Thread, now: Time, timedOut: bool)
    | Resolved(t: Thread, value: Value, size: nat, expires: Time, cost: int)
    | NotFound(t: Thread)
    | Scan(todo: seq<string>, now: Time)
    | FlushAll(todo: seq<string>)

  function PhaseOf(s: State, t: Thread): Phase {
    if t in s.threads then s.threads[t] else Idle
  }

  predicate Busy(p: Phase) {
    p.Waiting? || p.Resolving?
  }

  // Position of the entry a pointer refers to.
  function FindPointer(items: seq<Item<Pointer>>, p: Pointer): (i: nat)
    ensures i <= |items|
    ensures i < |items| ==> items[i].ptr == p
    ensures forall j :: 0 <= j < i ==> items[j].ptr != p
  {
    if items == [] || items[0].ptr == p then 0 else 1 + FindPointer(items[1..], p)
  }

  // Ns_CacheCreateEntry under Ns_CacheWaitCreateEntry: where the thread goes
  // on depends on whether the entry is its own, somebody else's, or filled.
  function Created(s: State, t: Thread, key: string, now: Time, timedOut: bool): State {
    var (o, isNew) := Create(s.items, key, now, s.born);
    var e := o.items[0];
    var phase := if timedOut then Failed(key)
                 else if isNew then Resolving(key, e.ptr)
                 else if e.Pending() then Waiting(key)
                 else Answered(key, e.value.value);
    s.(items := o.items, born := s.born + 1, freed := s.freed + o.freed, threads := s.threads[t := phase])
  }

  function Take(s: State, step: Step): State {
    match step
    case Begin(t, key, now) =>
      if Busy(PhaseOf(s, t)) then s else Created(s, t, key, now, false)
    case Wake(t, now, timedOut) =>
      var p := PhaseOf(s, t);
      if !p.Waiting? then s else Created(s, t, p.key, now, timedOut)
    case Resolved(t, value, size, expires, cost) =>
      var p := PhaseOf(s, t);
      if !p.Resolving? then s
      else
        var i := FindPointer(s.items, p.entry);
        if i == |s.items| then s.(dangling := true)
        else
          var o := Set(s.items, i, value, size, Some(expires), cost, s.maxSize);
          s.(items := o.items, freed := s.freed + o.freed, made := s.made + multiset{value},
             answers := s.answers + {(p.key, value)}, threads := s.threads[t := Answered(p.key, value)])
    case NotFound(t) =>
      var p := PhaseOf(s, t);
      if !p.Resolving? then s
      else
        var i := FindPointer(s.items, p.entry);
        if i == |s.items| then s.(dangling := true)
        else
          var o := Delete(s.items, i);
          s.(items := o.items, freed := s.freed + o.freed, threads := s.threads[t := Failed(p.key)])
    case Scan(todo, now) =>
      var w := Next(s.items, todo, now);
      s.(items := w.items, freed := s.freed + w.freed)
    case FlushAll(todo) =>
      var o := Flush(s.items, todo);
      s.(items := o.items, freed := s.freed + o.freed)
  }

  function Run(s: State, steps: seq<Step>): State
    decreases |steps|
  {
    if steps == [] then s else Run(Take(s, steps[0]), steps[1..])
  }

  function Start(maxSize: nat): State {
    State([], maxSize, 0, map[], [], multiset{}, {}, false)
  }

  // -------------------------------------------------------------- invariant

  ghost predicate Owns(s: State, t: Thread, key: string, e: Pointer) {
    PhaseOf(s, t) == Resolving(key, e)
  }

  // The entry of every resolver is in the cache, still waiting for its value.
  ghost predicate OwnersHold(s: State) {
    forall t, key, e :: Owns(s, t, key, e) ==> CacheLaws.Holds(s.items, e, key)
  }

  ghost predicate OneOwner(s: State) {
    forall t1, t2, key, e1, e2 :: Owns(s, t1, key, e1) && Owns(s, t2, key, e2) ==> t1 == t2
  }

  ghost predicate PointersOld(s: State) {
    forall i :: 0 <= i < |s.items| ==> s.items[i].ptr < s.born
  }

  // Whatever the cache holds for a key, or a thread was given, was resolved
  // for that key.
  ghost predicate ItemsAnswer(items: seq<Item<Pointer>>, answers: set<(string, Value)>) {
    forall i :: 0 <= i < |items| && !items[i].Pending() ==> (items[i].key, items[i].value.value) in answers
  }

  ghost predicate ThreadsAnswer(s: State) {
    forall t :: PhaseOf(s, t).Answered? ==> (PhaseOf(s, t).key, PhaseOf(s, t).value) in s.answers
  }

  // A value the cache was given is in the cache or freed, and freed only once.
  ghost predicate Conserved(s: State) {
    s.made == multiset(CacheLaws.Stored(s.items)) + multiset(s.freed)
  }

  ghost predicate Inv(s: State) {
    && ValidItems(s.items) && PointersOld(s) && !s.dangling
    && OwnersHold(s) && OneOwner(s)
    && ItemsAnswer(s.items, s.answers) && ThreadsAnswer(s) && Conserved(s)
  }

  // ------------------------------------------------------------------ proof

  // Effects on the cache that no pending entry notices.
  ghost predicate KeepsPending(a: seq<Item<Pointer>>, b: seq<Item<Pointer>>, except: set<Pointer>) {
    forall p, k :: p !in except && CacheLaws.Holds(a, p, k) ==> CacheLaws.Holds(b, p, k)
  }

  lemma AnswersWithin(b: seq<Item<Pointer>>, a: seq<Item<Pointer>>, answers: set<(string, Value)>, born: Pointer)
    requires CacheLaws.Within(b, a) && ItemsAnswer(a, answers) && forall i :: 0 <= i < |a| ==> a[i].ptr < born
    ensures ItemsAnswer(b, answers) && forall i :: 0 <= i < |b| ==> b[i].ptr < born
  {
    forall i | 0 <= i < |b|
      ensures b[i].ptr < born && (b[i].Pending() || (b[i].key, b[i].value.value) in answers)
    {
      assert CacheLaws.Known(b[i], a);
    }
  }

  lemma MultisetCat(a: seq<Value>, b: seq<Value>)
    ensures multiset(a + b) == multiset(a) + multiset(b)
  {
  }

  // A cache operation that concerns no thread.
  lemma BackgroundKeeps(s: State, items: seq<Item<Pointer>>, freed: seq<Value>)
    requires Inv(s) && ValidItems(items) && CacheLaws.Within(items, s.items) && KeepsPending(s.items, items, {})
    requires multiset(CacheLaws.Stored(s.items)) == multiset(CacheLaws.Stored(items)) + multiset(freed)
    ensures Inv(s.(items := items, freed := s.freed + freed))
  {
    hide ValidItems, CacheLaws.Within, CacheLaws.Holds, CacheLaws.Stored;
    var s' := s.(items := items, freed := s.freed + freed);
    AnswersWithin(items, s.items, s.answers, s.born);
    MultisetCat(s.freed, freed);
    assert forall t :: PhaseOf(s', t) == PhaseOf(s, t);
    forall t, key, e | Owns(s', t, key, e)
      ensures CacheLaws.Holds(items, e, key)
    {
      assert Owns(s, t, key, e);
    }
    forall t1, t2, key, e1, e2 | Owns(s', t1, key, e1) && Owns(s', t2, key, e2)
      ensures t1 == t2
    {
      assert Owns(s, t1, key, e1) && Owns(s, t2, key, e2);
    }
  }

  lemma ScanKeeps(s: State, todo: seq<string>, now: Time)
    requires Inv(s)
    ensures Inv(Take(s, Scan(todo, now)))
  {
    hide ValidItems, CacheLaws.Within, CacheLaws.Holds, CacheLaws.Stored, Next, Inv;
    assert ValidItems(s.items) by { InvParts(s); }
    var w := Next(s.items, todo, now);
    CacheLaws.NextKeeps(s.items, todo, now);
    CacheLaws.NextWithin(s.items, todo, now);
    forall p, k | CacheLaws.Holds(s.items, p, k)
      ensures CacheLaws.Holds(w.items, p, k)
    {
      CacheLaws.NextKeepsPending(s.items, todo, now, p, k);
    }
    BackgroundKeeps(s, w.items, w.freed);
  }

  lemma FlushKeeps(s: State, todo: seq<string>)
    requires Inv(s)
    ensures Inv(Take(s, FlushAll(todo)))
  {
    hide ValidItems, CacheLaws.Within, CacheLaws.Holds, CacheLaws.Stored, Flush, Inv;
    assert ValidItems(s.items) by { InvParts(s); }
    var o := Flush(s.items, todo);
    CacheLaws.FlushKeeps(s.items, todo);
    CacheLaws.FlushKeepsValid(s.items, todo);
    CacheLaws.FlushWithin(s.items, todo);
    forall p, k | CacheLaws.Holds(s.items, p, k)
      ensures CacheLaws.Holds(o.items, p, k)
    {
      CacheLaws.FlushKeepsPending(s.items, todo, p, k);
    }
    BackgroundKeeps(s, o.items, o.freed);
  }

  lemma InvParts(s: State)
    requires Inv(s)
    ensures ValidItems(s.items)
  {
  }

  // --------------------------------------------------- steps of the lookups

  // The entry of a key being resolved is there and has not expired.
  lemma OwnedIsNotNew(s: State, key: string, now: Time, t: Thread, e: Pointer)
    requires Inv(s) && Owns(s, t, key, e)
    ensures !Create(s.items, key, now, s.born).1
  {
    assert CacheLaws.Holds(s.items, e, key);
    var j :| 0 <= j < |s.items| && s.items[j].ptr == e && s.items[j].key == key && s.items[j].Pending();
    assert s.items[j].Valid();
    assert Find(s.items, key) == j;
  }

  lemma CreateAnswers(s: State, key: string, now: Time)
    requires Inv(s)
    ensures var items := Create(s.items, key, now, s.born).0.items;
            ItemsAnswer(items, s.answers) && forall i :: 0 <= i < |items| ==> items[i].ptr < s.born + 1
  {
    var items := Create(s.items, key, now, s.born).0.items;
    CacheLaws.CreateWithin(s.items, key, now, s.born);
    if Find(s.items, key) < |s.items| {
      AnswersWithin(items, s.items, s.answers, s.born);
    } else {
      assert forall i :: 1 <= i < |items| ==> items[i] == s.items[i - 1];
    }
  }

  // Replacing the phase of thread t.
  lemma OwnersAfter(s: State, s': State, t: Thread, phase: Phase)
    requires s'.threads == s.threads[t := phase] && OneOwner(s)
    requires phase.Resolving? ==>
               && CacheLaws.Holds(s'.items, phase.entry, phase.key)
               && forall t2, e :: t2 != t ==> !Owns(s, t2, phase.key, e)
    requires forall t2, key, e :: t2 != t && Owns(s, t2, key, e) ==> CacheLaws.Holds(s'.items, e, key)
    ensures OwnersHold(s') && OneOwner(s')
  {
    hide CacheLaws.Holds;
    assert forall t2 :: t2 != t ==> PhaseOf(s', t2) == PhaseOf(s, t2);
    forall t2, key, e | Owns(s', t2, key, e)
      ensures CacheLaws.Holds(s'.items, e, key)
    {
      assert t2 != t ==> Owns(s, t2, key, e);
    }
    forall t1, t2, key, e1, e2 | Owns(s', t1, key, e1) && Owns(s', t2, key, e2)
      ensures t1 == t2
    {
      assert t1 != t ==> Owns(s, t1, key, e1);
      assert t2 != t ==> Owns(s, t2, key, e2);
    }
  }

  lemma AnswersAfter(s: State, s': State, t: Thread, phase: Phase)
    requires s'.threads == s.threads[t := phase] && ThreadsAnswer(s) && s.answers <= s'.answers
    requires phase.Answered? ==> (phase.key, phase.value) in s'.answers
    ensures ThreadsAnswer(s')
  {
    assert forall t2 :: t2 != t ==> PhaseOf(s', t2) == PhaseOf(s, t2);
  }

  lemma CreatedKeeps(s: State, t: Thread, key: string, now: Time, timedOut: bool)
    requires Inv(s) && !PhaseOf(s, t).Resolving?
    ensures Inv(Created(s, t, key, now, timedOut))
  {
    hide ValidItems, CacheLaws.Holds, CacheLaws.Stored, OneOwner, OwnersHold;
    var (o, isNew) := Create(s.items, key, now, s.born);
    var s' := Created(s, t, key, now, timedOut);
    CacheLaws.CreateKeeps(s.items, key, now, s.born);
    CreateAnswers(s, key, now);
    MultisetCat(s.freed, o.freed);
    forall t2, k, e | t2 != t && Owns(s, t2, k, e)
      ensures CacheLaws.Holds(s'.items, e, k)
    {
      OwnerHolds(s, t2, k, e);
      CacheLaws.CreateKeepsPending(s.items, key, now, s.born, e, k);
    }
    forall t2, e | Owns(s, t2, key, e)
      ensures !isNew
    {
      OwnedIsNotNew(s, key, now, t2, e);
    }
    if isNew {
      FrontHolds(o.items);
    }
    OwnersAfter(s, s', t, PhaseOf(s', t));
    assert ItemsAnswer(o.items, s.answers);
    AnswersAfter(s, s', t, PhaseOf(s', t));
  }

  lemma OwnerHolds(s: State, t: Thread, key: string, e: Pointer)
    requires Inv(s) && Owns(s, t, key, e)
    ensures CacheLaws.Holds(s.items, e, key)
  {
  }

  lemma FrontHolds(items: seq<Item<Pointer>>)
    requires items != [] && items[0].Pending()
    ensures CacheLaws.Holds(items, items[0].ptr, items[0].key)
  {
  }

  // The pointer a resolver kept leads to its own pending entry, which no other
  // resolver has.
  lemma PointerGood(s: State, t: Thread, key: string, e: Pointer)
    requires Inv(s) && Owns(s, t, key, e)
    ensures var i := FindPointer(s.items, e);
            i < |s.items| && s.items[i].key == key && s.items[i].Pending()
    ensures forall t2, k, e2 :: t2 != t && Owns(s, t2, k, e2) ==> e2 != e
  {
    assert CacheLaws.Holds(s.items, e, key);
    var j :| 0 <= j < |s.items| && s.items[j].ptr == e && s.items[j].key == key && s.items[j].Pending();
    var i := FindPointer(s.items, e);
    assert i == j;
    forall t2, k, e2 | Owns(s, t2, k, e2) && e2 == e
      ensures t2 == t
    {
      SameOwner(s, t, t2, key, k, e);
    }
  }

  lemma SameOwner(s: State, t1: Thread, t2: Thread, k1: string, k2: string, e: Pointer)
    requires Inv(s) && Owns(s, t1, k1, e) && Owns(s, t2, k2, e)
    ensures t1 == t2
  {
    assert CacheLaws.Holds(s.items, e, k1) && CacheLaws.Holds(s.items, e, k2);
    var i :| 0 <= i < |s.items| && s.items[i].ptr == e && s.items[i].key == k1 && s.items[i].Pending();
    var j :| 0 <= j < |s.items| && s.items[j].ptr == e && s.items[j].key == k2 && s.items[j].Pending();
    assert i == j;
  }

  lemma ResolvedKeeps(s: State, t: Thread, value: Value, size: nat, expires: Time, cost: int)
    requires Inv(s)
    ensures Inv(Take(s, Resolved(t, value, size, expires, cost)))
  {
    var p := PhaseOf(s, t);
    if p.Resolving? {
      PointerGood(s, t, p.key, p.entry);
      var i := FindPointer(s.items, p.entry);
      FilledKeeps(s, t, i, value, size, expires, cost);
    }
  }

  lemma FilledKeeps(s: State, t: Thread, i: nat, value: Value, size: nat, expires: Time, cost: int)
    requires Inv(s) && PhaseOf(s, t).Resolving?
    requires i == FindPointer(s.items, PhaseOf(s, t).entry) && i < |s.items| && s.items[i].key == PhaseOf(s, t).key
    requires forall t2, k, e2 :: t2 != t && Owns(s, t2, k, e2) ==> e2 != PhaseOf(s, t).entry
    ensures Inv(Take(s, Resolved(t, value, size, expires, cost)))
  {
    hide ValidItems, CacheLaws.Holds, CacheLaws.Stored, OneOwner, OwnersHold, Set, FindPointer;
    var p := PhaseOf(s, t);
    var o := Set(s.items, i, value, size, Some(expires), cost, s.maxSize);
    var s' := Take(s, Resolved(t, value, size, expires, cost));
    CacheLaws.SetKeeps(s.items, i, value, size, Some(expires), cost, s.maxSize);
    MultisetCat(s.freed, o.freed);
    var filled := s.items[i := Filled(s.items[i], value, size, Some(expires), cost)];
    CacheLaws.SetWithin(s.items, i, value, size, Some(expires), cost, s.maxSize);
    AnswersWithin(o.items, filled, s'.answers, s.born);
    forall t2, k, e | t2 != t && Owns(s, t2, k, e)
      ensures CacheLaws.Holds(s'.items, e, k)
    {
      OwnerHolds(s, t2, k, e);
      CacheLaws.SetKeepsPending(s.items, i, value, size, Some(expires), cost, s.maxSize, e, k);
    }
    OwnersAfter(s, s', t, Answered(p.key, value));
    AnswersAfter(s, s', t, Answered(p.key, value));
    assert s'.made == multiset(CacheLaws.Stored(s.items)) + multiset{value} + multiset(s.freed);
  }

  lemma NotFoundKeeps(s: State, t: Thread)
    requires Inv(s)
    ensures Inv(Take(s, NotFound(t)))
  {
    var p := PhaseOf(s, t);
    if p.Resolving? {
      PointerGood(s, t, p.key, p.entry);
      DeletedKeeps(s, t, FindPointer(s.items, p.entry));
    }
  }

  lemma DeletedKeeps(s: State, t: Thread, i: nat)
    requires Inv(s) && PhaseOf(s, t).Resolving?
    requires i == FindPointer(s.items, PhaseOf(s, t).entry) && i < |s.items|
    requires forall t2, k, e2 :: t2 != t && Owns(s, t2, k, e2) ==> e2 != PhaseOf(s, t).entry
    ensures Inv(Take(s, NotFound(t)))
  {
    hide ValidItems, CacheLaws.Holds, CacheLaws.Stored, OneOwner, OwnersHold, FindPointer, Without;
    var o := Delete(s.items, i);
    var s' := Take(s, NotFound(t));
    CacheLaws.DeleteKeeps(s.items, i);
    MultisetCat(s.freed, o.freed);
    CacheLaws.WithinWithout(s.items, i);
    AnswersWithin(o.items, s.items, s.answers, s.born);
    forall t2, k, e | t2 != t && Owns(s, t2, k, e)
      ensures CacheLaws.Holds(s'.items, e, k)
    {
      OwnerHolds(s, t2, k, e);
      CacheLaws.DeleteKeepsPending(s.items, i, e, k);
    }
    OwnersAfter(s, s', t, Failed(PhaseOf(s, t).key));
    AnswersAfter(s, s', t, Failed(PhaseOf(s, t).key));
  }

  // ------------------------------------------------------------------- runs

  lemma StepKeeps(s: State, step: Step)
    requires Inv(s)
    ensures Inv(Take(s, step))
  {
    hide Inv, Created;
    match step
    case Begin(t, key, now) =>
      if !Busy(PhaseOf(s, t)) {
        CreatedKeeps(s, t, key, now, false);
      }
    case Wake(t, now, timedOut) =>
      if PhaseOf(s, t).Waiting? {
        CreatedKeeps(s, t, PhaseOf(s, t).key, now, timedOut);
      }
    case Resolved(t, value, size, expires, cost) => ResolvedKeeps(s, t, value, size, expires, cost);
    case NotFound(t) => NotFoundKeeps(s, t);
    case Scan(todo, now) => ScanKeeps(s, todo, now);
    case FlushAll(todo) => FlushKeeps(s, todo);
  }

  lemma {:induction false} RunKeeps(s: State, steps: seq<Step>)
    requires Inv(s)
    ensures Inv(Run(s, steps))
    decreases |steps|
  {
    hide Inv, Take;
    if steps != [] {
      StepKeeps(s, steps[0]);
      RunKeeps(Take(s, steps[0]), steps[1..]);
    }
  }

  // In every run: no lookup uses an entry after its deletion, at most one
  // thread resolves a key, and its entry stays in the cache until it is done.
  lemma LookupsSafe(maxSize: nat, steps: seq<Step>)
    ensures var s := Run(Start(maxSize), steps);
            && !s.dangling
            && (forall t1, t2, key, e1, e2 :: Owns(s, t1, key, e1) && Owns(s, t2, key, e2) ==> t1 == t2)
            && (forall t, key, e :: Owns(s, t, key, e) ==> CacheLaws.Holds(s.items, e, key))
            && (forall t :: PhaseOf(s, t).Answered? ==> (PhaseOf(s, t).key, PhaseOf(s, t).value) in s.answers)
            && s.made == multiset(CacheLaws.Stored(s.items)) + multiset(s.freed)
  {
    hide Run;
    StartInv(maxSize);
    RunKeeps(Start(maxSize), steps);
  }

  lemma StartInv(maxSize: nat)
    ensures Inv(Start(maxSize))
  {
    assert forall t :: PhaseOf(Start(maxSize), t) == Idle;
  }
}

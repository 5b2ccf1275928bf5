/**
  The table of loaded encodings (LoadEncoding in nsd/encoding.c) in every
  interleaving of its callers.  A step runs under the table's lock; the lock is
  dropped while a thread loads an encoding and while it waits for another one.
*/
module EncodingTable {
  import opened Basics

  type Thread = nat
  type Encoding = nat

  // The value of a table entry; a load that failed leaves Value(None).
  datatype Cell = Locked | Value(encoding: Option<Encoding>)

  datatype Phase = Idle | Loading(name: string) | Waiting(name: string)

  datatype State = State(
    table: map<string, Cell>,
    phases: map<Thread, Phase>,
    loads: multiset<string>,            // calls of the loader so far
    answers: set<(string, Cell)>        // what calls for a name returned so far
  )

  datatype Step =
    | Enter(t: Thread, name: string)
    | Wake(t: Thread)
    | Loaded(t: Thread, encoding: Option<Encoding>)

  const START: State := State(map[], map[], multiset{}, {})

  function PhaseOf(s: State, t: Thread): Phase {
    if t in s.phases then s.phases[t] else Idle
  }

  function To(s: State, t: Thread, p: Phase): State {
    s.(phases := s.phases[t := p])
  }

  // Reads the entry until it is no longer locked.
  function Await(s: State, t: Thread, name: string): State
    requires name in s.table
  {
    if s.table[name].Locked? then To(s, t, Waiting(name))
    else To(s, t, Idle).(answers := s.answers + {(name, s.table[name])})
  }

  function Take(s: State, step: Step): State {
    var ph := PhaseOf(s, step.t);
    match step
    case Enter(t, name) =>
      if !ph.Idle? then s
      else if name in s.table then Await(s, t, name)
      else To(s, t, Loading(name)).(table := s.table[name := Locked], loads := s.loads + multiset{name})
    case Wake(t) =>
      if !ph.Waiting? || ph.name !in s.table then s else Await(s, t, ph.name)
    case Loaded(t, encoding) =>
      if !ph.Loading? then s
      else To(s, t, Idle).(table := s.table[ph.name := Value(encoding)],
                           answers := s.answers + {(ph.name, Value(encoding))})
  }

  function Run(s: State, steps: seq<Step>): State
    decreases |steps|
  {
    if steps == [] then s else Run(Take(s, steps[0]), steps[1..])
  }

  // --------------------------------------------------------------- invariant

  ghost predicate Loads(s: State, t: Thread, name: string) {
    PhaseOf(s, t) == Loading(name)
  }

  // A locked entry has exactly one loader.
  ghost predicate LoaderMatches(s: State, name: string) {
    && (name in s.table && s.table[name].Locked? <==> exists t :: Loads(s, t, name))
    && (forall t, u :: Loads(s, t, name) && Loads(s, u, name) ==> t == u)
  }

  // The loader was called once for each name in the table, and for no other.
  ghost predicate LoadedOnce(s: State, name: string) {
    s.loads[name] == if name in s.table then 1 else 0
  }

  // A call returned what is in the table for good, never the marker.
  ghost predicate ReturnMatches(s: State, r: (string, Cell)) {
    r in s.answers ==> r.0 in s.table && s.table[r.0] == r.1 && r.1.Value?
  }

  ghost predicate WaiterMatches(s: State, t: Thread) {
    PhaseOf(s, t).Waiting? ==> PhaseOf(s, t).name in s.table
  }

  ghost predicate Inv(s: State) {
    && (forall name :: LoaderMatches(s, name) && LoadedOnce(s, name))
    && (forall r :: ReturnMatches(s, r))
    && (forall t :: WaiterMatches(s, t))
  }

  // ------------------------------------------------------------------- proof

  lemma AwaitKeeps(s: State, t: Thread, name: string)
    requires Inv(s) && name in s.table && !PhaseOf(s, t).Loading?
    ensures Inv(Await(s, t, name))
  {
    var s' := Await(s, t, name);
    forall n ensures LoaderMatches(s', n) && LoadedOnce(s', n) {
      assert LoaderMatches(s, n) && LoadedOnce(s, n);
      assert forall u :: Loads(s', u, n) == Loads(s, u, n);
    }
    forall r ensures ReturnMatches(s', r) {
      assert ReturnMatches(s, r);
    }
    forall u ensures WaiterMatches(s', u) {
      assert WaiterMatches(s, u);
    }
  }

  lemma LoadKeeps(s: State, t: Thread, name: string)
    requires Inv(s) && name !in s.table && PhaseOf(s, t).Idle?
    ensures Inv(Take(s, Enter(t, name)))
  {
    var s' := Take(s, Enter(t, name));
    forall n ensures LoaderMatches(s', n) && LoadedOnce(s', n) {
      assert LoaderMatches(s, n) && LoadedOnce(s, n);
      assert forall u :: u != t ==> Loads(s', u, n) == Loads(s, u, n);
      assert Loads(s', t, n) == (n == name);
    }
    forall r ensures ReturnMatches(s', r) {
      assert ReturnMatches(s, r);
    }
    forall u ensures WaiterMatches(s', u) {
      assert WaiterMatches(s, u);
    }
  }

  lemma LoadedKeeps(s: State, t: Thread, encoding: Option<Encoding>)
    requires Inv(s) && PhaseOf(s, t).Loading?
    ensures Inv(Take(s, Loaded(t, encoding)))
  {
    var s' := Take(s, Loaded(t, encoding));
    var name := PhaseOf(s, t).name;
    assert LoaderMatches(s, name) && Loads(s, t, name);
    forall n ensures LoaderMatches(s', n) && LoadedOnce(s', n) {
      assert LoaderMatches(s, n) && LoadedOnce(s, n);
      assert forall u :: u != t ==> Loads(s', u, n) == Loads(s, u, n);
    }
    forall r ensures ReturnMatches(s', r) {
      assert ReturnMatches(s, r);
    }
    forall u ensures WaiterMatches(s', u) {
      assert WaiterMatches(s, u);
    }
  }

  lemma StepKeeps(s: State, step: Step)
    requires Inv(s)
    ensures Inv(Take(s, step))
  {
    hide Inv, Await;
    var ph := PhaseOf(s, step.t);
    match step
    case Enter(t, name) =>
      if ph.Idle? {
        if name in s.table { AwaitKeeps(s, t, name); } else { LoadKeeps(s, t, name); }
      }
    case Wake(t) => if ph.Waiting? && ph.name in s.table { AwaitKeeps(s, t, ph.name); }
    case Loaded(t, encoding) => if ph.Loading? { LoadedKeeps(s, t, encoding); }
  }

  lemma {:induction false} RunKeeps(s: State, steps: seq<Step>)
    requires Inv(s)
    ensures Inv(Run(s, steps))
    decreases |steps|
  {
    hide Inv, Take;
    if steps != [] {
      StepKeeps(s, steps[0]);
      RunKeeps(Take(s, steps[0]), steps[1..]);
    }
  }

  // In every run each name is loaded at most once, no call answers the marker,
  // all calls for a name return the same, a failed load included, and whoever
  // waits for a locked entry waits for exactly one loader.
  lemma LoadOnce(steps: seq<Step>, name: string)
    ensures var s := Run(START, steps);
            && s.loads[name] <= 1
            && (forall r, q :: r in s.answers && q in s.answers && r.0 == name && q.0 == name ==> r.1 == q.1)
            && (forall r :: r in s.answers ==> r.1.Value?)
            && LoaderMatches(s, name)
  {
    hide Take;
    assert forall n, t :: !Loads(START, t, n);
    RunKeeps(START, steps);
    var s := Run(START, steps);
    assert LoadedOnce(s, name) && LoaderMatches(s, name);
    forall r | r in s.answers ensures r.1.Value? && r.0 in s.table && s.table[r.0] == r.1 {
      assert ReturnMatches(s, r);
    }
  }
}

/**
  What holds in every run of the driver's threads, and when the count of the
  queue, which they change without a lock, is right.
*/
module DriverCount {
  import opened Basics
  import opened DriverLists

  // --------------------------------------------------------------- the count

  // By how much the count is off.
  function Skew(s: State): int {
    s.queuesize - Busy(s.lists)
  }

  // By how much the value loaded is behind when a step stores the count.
  function Stale(s: State, step: Step): int {
    if Loaded(s, step).Some? then Loaded(s, step).value - s.queuesize else 0
  }

  function StaleAll(s: State, steps: seq<Step>): int
    decreases |steps|
  {
    if steps == [] then 0 else Stale(s, steps[0]) + StaleAll(Take(s, steps[0]), steps[1..])
  }

  lemma StepSkews(s: State, step: Step)
    requires Tidy(s)
    ensures Skew(Take(s, step)) == Skew(s) + Stale(s, step)
  {
    hide Conserved, Put, Advanced, Accepted, Handled, Busy;
    match step
    case Advance => if s.lists.current == [] { AdvancedConserves(s.lists); }
    case Handle(o) =>
      if s.lists.current != [] && Allowed(s.lists.stage, o) {
        HandledConserves(s.lists, o);
        if s.mine.Some? { if o == Released {} else {} }
      }
    case Accept(o) =>
      if s.admitted && Acceptable(o) {
        AcceptedConserves(s.lists, o);
        if s.mine.Some? { if o == Failed {} else {} }
      }
    case HandBack(x) => if x in s.lists.service { LeftConserves(s.lists, x); }
    case Drop(x) => if x in s.lists.service { LeftConserves(s.lists, x); }
    case _ =>
  }

  // At most one load is under way, and nothing was stored since.
  ghost predicate Current(s: State) {
    && (s.mine.Some? ==> s.mine.value == s.queuesize && s.theirs == map[])
    && (forall x :: x in s.theirs ==> s.theirs[x] == s.queuesize)
    && (forall x, y :: x in s.theirs && y in s.theirs ==> x == y)
  }

  // Neither the count nor a value loaded exceeds the limit, and once a socket is
  // admitted they stay below it.
  ghost predicate Bounded(s: State) {
    && s.queuesize <= s.max && (s.admitted ==> s.queuesize < s.max)
    && (s.mine.Some? ==> s.mine.value <= s.max && (s.admitted ==> s.mine.value < s.max))
    && (forall x :: x in s.theirs ==> s.theirs[x] <= s.max)
  }

  lemma StepBounded(s: State, step: Step)
    requires Bounded(s)
    ensures Bounded(Take(s, step)) && Take(s, step).max == s.max
  {
    hide Put, Advanced, Accepted, Handled, Allowed;
  }

  // The step starts no update of the count while another is under way.
  predicate Alone(s: State, step: Step) {
    && (step.Load? ==> s.theirs == map[])
    && (step.DropLoad? ==> s.mine.None? && s.theirs == map[])
  }

  predicate AloneRun(s: State, steps: seq<Step>)
    decreases |steps|
  {
    steps == [] || (Alone(s, steps[0]) && AloneRun(Take(s, steps[0]), steps[1..]))
  }

  lemma StepCurrent(s: State, step: Step)
    requires Current(s) && Alone(s, step)
    ensures Current(Take(s, step)) && Stale(s, step) == 0
  {
    hide Put, Advanced, Accepted, Handled;
    match step
    case Drop(x) => if x in s.theirs && x in s.lists.service { assert forall y :: y !in s.theirs - {x}; }
    case _ =>
  }

  // -------------------------------------------------------------------- runs

  // Kept by every step, whatever the other threads do.
  ghost predicate Inv(s: State) {
    Conserved(s.lists) && Ordered(s.lists) && Tidy(s)
  }

  lemma {:induction false} RunKeeps(s: State, steps: seq<Step>)
    requires Inv(s)
    ensures Inv(Run(s, steps)) && Skew(Run(s, steps)) == Skew(s) + StaleAll(s, steps)
    decreases |steps|
  {
    hide Conserved, Ordered, Take, Tidy, Skew, Stale;
    if steps != [] {
      StepConserves(s, steps[0]);
      StepTidy(s, steps[0]);
      StepOrders(s, steps[0]);
      StepSkews(s, steps[0]);
      RunKeeps(Take(s, steps[0]), steps[1..]);
    }
  }

  lemma {:induction false} RunCurrent(s: State, steps: seq<Step>)
    requires Current(s) && AloneRun(s, steps)
    ensures Current(Run(s, steps)) && StaleAll(s, steps) == 0
    decreases |steps|
  {
    hide Current, Stale, Alone, Take;
    if steps != [] {
      StepCurrent(s, steps[0]);
      RunCurrent(Take(s, steps[0]), steps[1..]);
    }
  }

  lemma {:induction false} RunBounded(s: State, steps: seq<Step>)
    requires Bounded(s)
    ensures Bounded(Run(s, steps)) && Run(s, steps).max == s.max
    decreases |steps|
  {
    hide Bounded, Take;
    if steps != [] {
      StepBounded(s, steps[0]);
      RunBounded(Take(s, steps[0]), steps[1..]);
    }
  }

  // In every interleaving of the driver thread with the others each socket
  // structure is in exactly one place, and the wait list is ordered by the time
  // of joining, so that its sockets are tried oldest first.  The queue size is
  // off by the sum of how far the values stored were behind when they were
  // stored: it is the number of sockets accepted and not released exactly if
  // that sum is 0.
  lemma SocketsConserved(max: nat, steps: seq<Step>)
    ensures var s := Run(Start(max), steps);
            && (forall x: Sock :: Places(s.lists, x) == if x < s.lists.next then 1 else 0)
            && Ordered(s.lists)
            && (s.queuesize == Busy(s.lists) <==> StaleAll(Start(max), steps) == 0)
  {
    RunKeeps(Start(max), steps);
  }

  // In every interleaving, lost updates included, the queue size is within its
  // limit.
  lemma QueueBounded(max: nat, steps: seq<Step>)
    ensures Run(Start(max), steps).queuesize <= max
  {
    RunBounded(Start(max), steps);
  }

  // If no update of the count starts while another is under way, the queue
  // size is that number.
  lemma QueueCounted(max: nat, steps: seq<Step>)
    requires AloneRun(Start(max), steps)
    ensures var s := Run(Start(max), steps); s.queuesize == Busy(s.lists) <= max
  {
    RunKeeps(Start(max), steps);
    RunCurrent(Start(max), steps);
    QueueBounded(max, steps);
  }

  // That is so without spooler threads, which alone release sockets.
  lemma {:induction false} AloneWithoutSpooler(s: State, steps: seq<Step>)
    requires s.theirs == map[] && forall step :: step in steps ==> !step.DropLoad?
    ensures AloneRun(s, steps)
    decreases |steps|
  {
    if steps != [] {
      hide Put, Advanced, Accepted, Handled;
      assert steps[0] in steps;
      AloneWithoutSpooler(Take(s, steps[0]), steps[1..]);
    }
  }

  // An update that overlaps another one is lost: the driver thread loads the
  // count, a spooler releases a socket, and the driver thread stores.
  lemma OverlapLoses(s: State, x: Sock, step: Step)
    requires s.mine.None? && x in s.lists.service && x !in s.theirs
    requires Loaded(s.(mine := Some(s.queuesize)), step).Some? && !step.Drop?
    ensures var t := Take(Take(Take(s, Load), DropLoad(x)), Drop(x));
            t.queuesize == s.queuesize - 1 && Loaded(t, step).Some? && Stale(t, step) == 1
  {
    hide Put, Advanced, Accepted, Handled;
    var t1 := Take(s, Load);
    var t2 := Take(t1, DropLoad(x));
    assert t2.theirs[x] == s.queuesize && t2.mine == Some(s.queuesize) && t2.lists == s.lists;
    PutLeft(s.lists, x);
  }

  // And the other way round: a spooler loads the count, the driver thread updates
  // it, and the spooler stores.
  lemma OverlapLosesToo(s: State, x: Sock, step: Step)
    requires s.mine.None? && x in s.lists.service && x !in s.theirs && Tidy(s)
    requires Loaded(s.(mine := Some(s.queuesize)), step).Some? && !step.Drop?
    ensures var t := Take(Take(Take(s, DropLoad(x)), Load), step);
            Loaded(t, Drop(x)).Some? && Stale(t, Drop(x)) == s.queuesize - t.queuesize && t.queuesize != s.queuesize
  {
    hide Put, Advanced;
    var t2 := Take(Take(s, DropLoad(x)), Load);
    assert t2 == s.(theirs := s.theirs[x := s.queuesize], mine := Some(s.queuesize));
    if step.Handle? {
      ServiceStays(s.lists.(current := s.lists.current[1..]), s.lists.current[0], step.to, x);
    } else {
      var (l, y) := Allocate(s.lists);
      ServiceStays(l, y, step.to, x);
    }
  }

  lemma ServiceStays(l: Lists, y: Sock, o: Outcome, x: Sock)
    requires x in l.service
    ensures x in Put(l, y, o).service
  {
  }

  lemma RunFour(s: State, a: Step, b: Step, c: Step, d: Step)
    ensures Run(s, [a, b, c, d]) == Take(Take(Take(Take(s, a), b), c), d)
  {
    hide Take;
    var s1 := Take(s, a);
    assert Run(s, [a, b, c, d]) == Run(s1, [b, c, d]) by { assert [a, b, c, d][1..] == [b, c, d]; }
    var s2 := Take(s1, b);
    assert Run(s1, [b, c, d]) == Run(s2, [c, d]) by { assert [b, c, d][1..] == [c, d]; }
    var s3 := Take(s2, c);
    assert Run(s2, [c, d]) == Run(s3, [d]) by { assert [c, d][1..] == [d]; }
    assert Run(s3, [d]) == Take(s3, d) by { assert [d][1..] == []; }
  }

  // A driver about to accept its first socket.
  function Idling(max: nat): State {
    Start(max).(lists := Start(max).lists.(stage := Accepting, open := true))
  }

  // Socket 0 is with a spooler, and the driver is about to accept another one.
  function OneServed(max: nat): State {
    State(Idling(max).lists.(service := multiset{0}, next := 1), 1, max, true, None, map[])
  }

  lemma ReachOneServed(max: nat)
    requires max > 1
    ensures Run(Run(Start(max), [Advance, Advance, Advance, Advance]), [Admit, Load, Accept(Served), Admit]) == OneServed(max)
  {
    RunFour(Start(max), Advance, Advance, Advance, Advance);
    RunFour(Idling(max), Admit, Load, Accept(Served), Admit);
    assert Take(Take(Take(Take(Start(max), Advance), Advance), Advance), Advance) == Idling(max) by {
      assert Reverse<Sock>([]) == [];
    }
    hide Run;
    var s3 := Take(Take(Take(Idling(max), Admit), Load), Accept(Served));
    assert s3 == OneServed(max).(admitted := false);
  }

  // A run that ends with one socket in the queue and a count of two.
  lemma LostUpdate(max: nat)
    requires max > 1
    ensures var t := Run(Run(Start(max), [Advance, Advance, Advance, Advance]), [Admit, Load, Accept(Served), Admit]);
            var s := Run(t, [Load, DropLoad(0), Drop(0), Accept(Served)]);
            s.queuesize == 2 && Busy(s.lists) == 1
  {
    ReachOneServed(max);
    RunFour(OneServed(max), Load, DropLoad(0), Drop(0), Accept(Served));
    hide Run, Take;
    SpoolerDrops(max);
    DriverStores(max);
  }

  // The spooler has released socket 0, and the driver still holds the old count.
  function Outdated(max: nat): State {
    var t := OneServed(max);
    t.(lists := t.lists.(service := multiset{}, free := [0]), queuesize := 0, mine := Some(1))
  }

  lemma SpoolerDrops(max: nat)
    ensures Take(Take(Take(OneServed(max), Load), DropLoad(0)), Drop(0)) == Outdated(max)
  {
    var t := OneServed(max);
    var t2 := Take(Take(t, Load), DropLoad(0));
    assert t2 == t.(mine := Some(1), theirs := map[0 := 1]);
    assert Put(Left(t.lists, 0), 0, Released) == Outdated(max).lists by {
      assert multiset{0} - multiset{0} == multiset{};
      assert [0] + [] == [0];
    }
    assert t2.theirs - {0} == map[];
  }

  lemma DriverStores(max: nat)
    ensures var s := Take(Outdated(max), Accept(Served)); s.queuesize == 2 && Busy(s.lists) == 1
  {
    var l := Outdated(max).lists;
    assert [0][1..] == [];
    assert Accepted(l, Served) == l.(free := [], service := multiset{0});
  }
}

/**
  The driver thread's loops over its lists (DriverThread in nsd/driver.c): each
  is a run of the steps of DriverLists, and so is a whole spin of the thread.
*/
module DriverThread {
  import opened Basics
  import opened DriverLists
  import opened DriverCount

  // A release loads the count and stores it.
  function HandleSteps(o: Outcome): seq<Step> {
    if o == Released then [Load, Handle(o)] else [Handle(o)]
  }

  function ListSteps(os: seq<Outcome>): seq<Step> {
    if os == [] then [] else HandleSteps(os[0]) + ListSteps(os[1..])
  }

  function AcceptSteps(o: Outcome): seq<Step> {
    if o == Failed then [Admit, Accept(o)]
    else if o == Released then [Admit, Load, Accept(o), Load, Handle(o)]
    else [Admit, Load, Accept(o)]
  }

  function AcceptAllSteps(os: seq<Outcome>): seq<Step> {
    if os == [] then [] else AcceptSteps(os[0]) + AcceptAllSteps(os[1..])
  }

  function HandSteps(xs: seq<Sock>): seq<Step> {
    if xs == [] then [] else [HandBack(xs[0])] + HandSteps(xs[1..])
  }

  // A spin: each stage takes over its list and handles the sockets on it;
  // meanwhile sockets are handed back.
  function SpinSteps(closing: seq<Outcome>, reading: seq<Outcome>, retrying: seq<Outcome>,
                     accepting: seq<Outcome>, handed: seq<Sock>, returning: seq<Outcome>): seq<Step> {
    ([Advance] + ListSteps(closing)) + ([Advance] + ListSteps(reading)) + ([Advance] + ListSteps(retrying)) +
    ([Advance] + AcceptAllSteps(accepting)) + HandSteps(handed) + ([Advance] + ListSteps(returning))
  }

  // How many sockets are accepted: at most left, while the queue is not full,
  // and until one fails.
  function AcceptCount(os: seq<Outcome>, queuesize: int, max: int, left: nat): (n: nat)
    ensures n <= |os| && n <= left
    decreases left
  {
    if os == [] || left == 0 || queuesize >= max then 0
    else if os[0] == Failed || os[0] == Released then 1
    else 1 + AcceptCount(os[1..], queuesize + 1, max, left - 1)
  }

  // ------------------------------------------------------- steps put together

  lemma {:induction false} RunAppend(s: State, a: seq<Step>, b: seq<Step>)
    ensures Run(s, a + b) == Run(Run(s, a), b)
    decreases |a|
  {
    hide Take;
    if a == [] {
      assert a + b == b;
    } else {
      assert (a + b)[1..] == a[1..] + b;
      RunAppend(Take(s, a[0]), a[1..], b);
    }
  }

  lemma RunOne(s: State, a: Step)
    ensures Run(s, [a]) == Take(s, a)
  {
    hide Take;
    assert [a][1..] == [];
  }

  lemma RunTwo(s: State, a: Step, b: Step)
    ensures Run(s, [a, b]) == Take(Take(s, a), b)
  {
    hide Take;
    RunOne(s, a);
    RunOne(Take(s, a), b);
    RunAppend(s, [a], [b]);
    assert [a] + [b] == [a, b];
  }

  // The driver thread is between two of its updates.
  predicate Between(s: State) {
    s.mine.None? && !s.admitted
  }

  lemma RunHandle(s: State, o: Outcome)
    requires Between(s) && s.lists.current != [] && Allowed(s.lists.stage, o)
    ensures Run(s, HandleSteps(o)) ==
            s.(lists := Handled(s.lists, o), queuesize := s.queuesize - if o == Released then 1 else 0)
  {
    hide Run, Handled;
    if o == Released {
      RunTwo(s, Load, Handle(o));
    } else {
      RunOne(s, Handle(o));
    }
  }

  lemma RunAccept(s: State, o: Outcome)
    requires Between(s) && s.lists.stage == Accepting && s.lists.open && s.lists.current == []
    requires s.queuesize < s.max && Acceptable(o) && o != Released
    ensures Run(s, AcceptSteps(o)) ==
            s.(lists := Accepted(s.lists, o), queuesize := s.queuesize + if o == Failed then 0 else 1)
  {
    hide Run, Accepted;
    assert Take(s, Admit) == s.(admitted := true);
    if o == Failed {
      RunTwo(s, Admit, Accept(o));
    } else {
      RunTwo(s, Admit, Load);
      var t := s.(admitted := true, mine := Some(s.queuesize));
      assert Take(s.(admitted := true), Load) == t;
      RunOne(t, Accept(o));
      RunAppend(s, [Admit, Load], [Accept(o)]);
      assert [Admit, Load] + [Accept(o)] == [Admit, Load, Accept(o)];
    }
  }

  // Accepted, and released because it could not be read.
  lemma RunReleased(s: State)
    requires Between(s) && s.lists.stage == Accepting && s.lists.open && s.lists.current == []
    requires s.queuesize < s.max
    ensures Accepted(s.lists, Released).current != []
    ensures Run(s, AcceptSteps(Released)) == s.(lists := Handled(Accepted(s.lists, Released), Released))
  {
    AcceptedCurrent(s.lists);
    hide Run, Accepted, Handled;
    RunTwo(s, Admit, Load);
    var t0 := s.(admitted := true, mine := Some(s.queuesize));
    assert Take(s, Admit) == s.(admitted := true);
    assert Take(s.(admitted := true), Load) == t0;
    var t := Take(t0, Accept(Released));
    RunOne(t0, Accept(Released));
    RunAppend(s, [Admit, Load], [Accept(Released)]);
    assert t == s.(lists := Accepted(s.lists, Released), queuesize := s.queuesize + 1);
    RunTwo(t, Load, Handle(Released));
    RunAppend(s, [Admit, Load] + [Accept(Released)], [Load, Handle(Released)]);
    assert [Admit, Load] + [Accept(Released)] + [Load, Handle(Released)] == AcceptSteps(Released);
  }

  lemma AcceptedCurrent(l: Lists)
    ensures Accepted(l, Released).current != [] && Accepted(l, Released).stage == l.stage
  {
  }

  // A step of the driver thread.
  predicate Own(step: Step) {
    !step.DropLoad? && !step.Drop? && !step.HandBack?
  }

  lemma {:induction false} AllOwn(os: seq<Outcome>)
    ensures forall step :: step in ListSteps(os) ==> Own(step)
    ensures forall step :: step in AcceptAllSteps(os) ==> Own(step)
  {
    if os != [] {
      AllOwn(os[1..]);
    }
  }

  lemma {:induction false} AllHandBack(xs: seq<Sock>)
    ensures forall step :: step in HandSteps(xs) ==> step.HandBack?
  {
    if xs != [] {
      AllHandBack(xs[1..]);
    }
  }

  // ------------------------------------------- sockets handed back meanwhile

  // A connection thread has the socket.
  predicate InService(s: State, x: Sock) {
    x in s.lists.service && x !in s.theirs
  }

  // The driver thread does not take over the sockets handed back.
  predicate LeavesBack(s: State, step: Step) {
    Own(step) && !(step.Advance? && s.lists.stage == Accepting)
  }

  predicate LeavesBackRun(s: State, steps: seq<Step>)
    decreases |steps|
  {
    steps == [] || (LeavesBack(s, steps[0]) && LeavesBackRun(Take(s, steps[0]), steps[1..]))
  }

  lemma PutHanded(l: Lists, y: Sock, o: Outcome, x: Sock)
    requires x in l.service
    ensures Put(Handed(l, x), y, o) == Handed(Put(l, y, o), x)
    ensures x in Put(l, y, o).service
  {
    if o == Served {
      assert l.service - multiset{x} + multiset{y} == l.service + multiset{y} - multiset{x};
    } else if o == Waits {
      if l.stage == Retrying {} else {}
    }
  }

  lemma HandledHanded(l: Lists, o: Outcome, x: Sock)
    requires x in l.service && l.current != []
    ensures Handled(Handed(l, x), o) == Handed(Handled(l, o), x)
    ensures x in Handled(l, o).service
  {
    hide Put;
    PutHanded(l.(current := l.current[1..]), l.current[0], o, x);
  }

  lemma AllocateHanded(l: Lists, x: Sock)
    requires x in l.service
    ensures Allocate(Handed(l, x)) == (Handed(Allocate(l).0, x), Allocate(l).1) && x in Allocate(l).0.service
  {
  }

  lemma AcceptedHanded(l: Lists, o: Outcome, x: Sock)
    requires x in l.service
    ensures Accepted(Handed(l, x), o) == Handed(Accepted(l, o), x)
    ensures x in Accepted(l, o).service
  {
    AllocateHanded(l, x);
    var (l1, y) := Allocate(l);
    PutHanded(l1, y, o, x);
    hide Put, Allocate;
  }

  lemma AdvancedHanded(l: Lists, x: Sock)
    requires x in l.service && l.stage != Accepting
    ensures Advanced(Handed(l, x)) == Handed(Advanced(l), x)
    ensures x in Advanced(l).service
  {
  }

  lemma HandedFields(l: Lists, x: Sock)
    ensures var h := Handed(l, x); h.stage == l.stage && h.current == l.current && h.open == l.open
  {
  }

  // Handing a socket back a step earlier makes no difference.
  lemma HandedStep(s: State, step: Step, x: Sock)
    requires InService(s, x) && LeavesBack(s, step)
    ensures InService(Take(s, step), x)
    ensures Take(Take(s, HandBack(x)), step) == Take(Take(s, step), HandBack(x))
  {
    hide Handled, Accepted, Advanced, Put, Handed, Allowed, Acceptable;
    var l := s.lists;
    HandedFields(l, x);
    match step
    case Advance => if l.stage != Accepting { AdvancedHanded(l, x); }
    case Load =>
    case Admit =>
    case Handle(o) =>
      if l.current != [] {
        HandledHanded(l, o, x);
        if o == Released {} else {}
      }
    case Accept(o) =>
      AcceptedHanded(l, o, x);
      if o == Failed {} else {}
  }

  // Whenever before the driver thread looks a socket is handed back, it is as if
  // it were right before.
  lemma {:induction false} HandedAnyTime(s: State, steps: seq<Step>, x: Sock)
    requires InService(s, x) && LeavesBackRun(s, steps)
    ensures Run(s, [HandBack(x)] + steps) == Run(s, steps + [HandBack(x)])
    decreases |steps|
  {
    hide Take, LeavesBack, InService;
    RunOne(s, HandBack(x));
    RunAppend(s, [HandBack(x)], steps);
    RunAppend(s, steps, [HandBack(x)]);
    if steps == [] {
      RunOne(s, HandBack(x));
    } else {
      HandedStep(s, steps[0], x);
      var t := Take(s, steps[0]);
      HandedAnyTime(t, steps[1..], x);
      RunOne(t, HandBack(x));
      RunAppend(t, [HandBack(x)], steps[1..]);
      RunAppend(t, steps[1..], [HandBack(x)]);
    }
  }

  lemma {:induction false} ServiceGrows(s: State, steps: seq<Step>)
    requires forall step :: step in steps ==> Own(step)
    ensures s.lists.service <= Run(s, steps).lists.service && Run(s, steps).theirs == s.theirs
    decreases |steps|
  {
    if steps != [] {
      assert steps[0] in steps;
      ServiceStep(s, steps[0]);
      hide Take;
      ServiceGrows(Take(s, steps[0]), steps[1..]);
    }
  }

  lemma ServiceStep(s: State, step: Step)
    requires Own(step)
    ensures s.lists.service <= Take(s, step).lists.service && Take(s, step).theirs == s.theirs
  {
    hide Put, Advanced, Allowed, Acceptable;
    var l := s.lists;
    match step
    case Advance => ServiceAdvanced(l);
    case Handle(o) => if l.current != [] { ServicePut(l.(current := l.current[1..]), l.current[0], o); }
    case Accept(o) => ServicePut(Allocate(l).0, Allocate(l).1, o);
    case _ =>
  }

  lemma ServicePut(l: Lists, x: Sock, o: Outcome)
    ensures l.service <= Put(l, x, o).service
  {
  }

  lemma ServiceAdvanced(l: Lists)
    ensures Advanced(l).service == l.service
  {
  }

  // -------------------------------------------------------------- the driver

  class Driver {
    var read: seq<Sock>
    var wait: seq<Sock>
    var close: seq<Sock>
    var back: seq<Sock>
    var free: seq<Sock>
    var queuesize: int
    var next: Sock
    const maxqueuesize: nat
    const acceptsize: nat
    ghost var world: State      // sockets in service, times of waiting, spoolers

    ghost function Value(stage: Stage, current: seq<Sock>): State
      reads this
    {
      State(world.lists.(stage := stage, current := current, read := read, wait := wait, close := close,
                         back := back, free := free, next := next),
            queuesize, maxqueuesize, false, None, world.theirs)
    }

    // Between two spins, with no spooler in the middle of a release: every
    // socket is in one place, the wait list is in order, the count is right.
    ghost predicate Valid()
      reads this
    {
      var s := Value(Returning, []);
      Inv(s) && Current(s) && Bounded(s) && s.theirs == map[] && s.queuesize == Busy(s.lists)
    }

    constructor (maxqueuesize: nat, acceptsize: nat)
      ensures Value(Returning, []) == Start(maxqueuesize) && Valid()
      ensures this.maxqueuesize == maxqueuesize && this.acceptsize == acceptsize
    {
      this.maxqueuesize, this.acceptsize := maxqueuesize, acceptsize;
      read, wait, close, back, free, queuesize, next := [], [], [], [], [], 0, 0;
      world := Start(maxqueuesize);
    }

    // Moves socket x, on no list, to its next place.
    method Move(x: Sock, o: Outcome, ghost stage: Stage, ghost current: seq<Sock>)
      modifies this
      ensures Value(stage, current) == old(Value(stage, current)).(lists := Put(old(Value(stage, current)).lists, x, o),
                                                                   queuesize := old(queuesize) - if o == Released then 1 else 0)
      ensures world.lists.open == old(world.lists.open) && world.theirs == old(world.theirs)
      ensures back == old(back) && |wait| <= |old(wait)| + 1
      ensures o == Released || o == Closes ==> read == old(read) && wait == old(wait)
    {
      match o {
        case Released =>
          queuesize := queuesize - 1;
          free := [x] + free;
        case ReadOn => read := [x] + read;
        case Served => world := world.(lists := world.lists.(service := world.lists.service + multiset{x}));
        case Closes => close := [x] + close;
        case Failed => free := [x] + free;
        case Waits =>
          wait := [x] + wait;
          if stage != Retrying {
            world := world.(lists := world.lists.(since := world.lists.since[x := world.lists.clock], clock := world.lists.clock + 1));
          }
      }
    }

    // NsSockClose: a socket is handed back; true if the driver thread is to be
    // woken up.
    method SockClose(x: Sock) returns (trigger: bool)
      requires Valid() && x in world.lists.service
      modifies `back, `world
      ensures Valid() && queuesize == old(queuesize)
      ensures Value(Returning, []) == Run(old(Value(Returning, [])), [HandBack(x)])
      ensures x in back && world.lists.service == old(world.lists.service) - multiset{x}
      ensures trigger <==> old(back) == []
    {
      RunOne(Value(Returning, []), HandBack(x));
      LeftConserves(Value(Returning, []).lists, x);
      LeftOrders(Value(Returning, []).lists, x);
      OnePlace(Value(Returning, []).lists, x);
      hide Conserved, Ordered, Run, Busy;
      trigger := back == [];
      back := [x] + back;
      world := world.(lists := Left(world.lists, x));
      assert Value(Returning, []).lists == Handed(old(Value(Returning, [])).lists, x);
    }

    // The sockets of a list that was taken over, one after the other.
    method HandleList(list: seq<Sock>, os: seq<Outcome>, ghost stage: Stage)
      requires stage != Accepting && |list| <= |os| && forall i :: 0 <= i < |list| ==> Allowed(stage, os[i])
      modifies this
      ensures Value(stage, []) == Run(old(Value(stage, list)), ListSteps(os[..|list|]))
      ensures back == old(back) && |wait| <= |old(wait)| + |list|
      ensures stage == Closing ==> read == old(read) && wait == old(wait)
    {
      hide Put, Run;
      var current, i, n := list, 0, |list|;
      ghost var goal := Run(Value(stage, list), ListSteps(os[..n]));
      assert os[0..n] == os[..n];
      while current != []
        invariant 0 <= i <= n && |current| == n - i
        invariant Run(Value(stage, current), ListSteps(os[i..n])) == goal
        invariant back == old(back) && |wait| <= |old(wait)| + i
        invariant stage == Closing ==> read == old(read) && wait == old(wait)
        decreases |current|
      {
        ghost var s := Value(stage, current);
        assert os[i..n][1..] == os[i + 1..n];
        RunHandle(s, os[i]);
        RunAppend(s, HandleSteps(os[i]), ListSteps(os[i + 1..n]));
        Move(current[0], os[i], stage, current[1..]);
        current, i := current[1..], i + 1;
        assert Value(stage, current) == Run(s, HandleSteps(os[i - 1]));
      }
      RunNone(Value(stage, []));
      assert os[n..n] == [];
    }

    // Drains or releases closing sockets.
    method DrainClosing(os: seq<Outcome>)
      requires |close| <= |os| && forall o :: o in os ==> Allowed(Closing, o)
      modifies this
      ensures Value(Closing, []) == Run(old(Value(Returning, [])), [Advance] + ListSteps(os[..|old(close)|]))
      ensures back == old(back) && read == old(read) && wait == old(wait)
    {
      ghost var s := Value(Returning, []);
      var list := close;
      close := [];
      TakenOver(s, ListSteps(os[..|list|]));
      hide Run;
      assert Value(Closing, list) == s.(lists := Advanced(s.lists));
      HandleList(list, os, Closing);
    }

    // Reads ahead and queues what is ready.
    method ReadAhead(os: seq<Outcome>)
      requires |read| <= |os| && forall o :: o in os ==> Allowed(Reading, o)
      modifies this
      ensures Value(Reading, []) == Run(old(Value(Closing, [])), [Advance] + ListSteps(os[..|old(read)|]))
      ensures back == old(back) && |wait| <= |old(wait)| + |old(read)|
    {
      ghost var s := Value(Closing, []);
      var list := read;
      read := [];
      TakenOver(s, ListSteps(os[..|list|]));
      hide Run;
      assert Value(Reading, list) == s.(lists := Advanced(s.lists));
      HandleList(list, os, Reading);
    }

    method TurnAround() returns (list: seq<Sock>)
      modifies `wait
      ensures list == Reverse(old(wait)) && wait == [] && |list| == |old(wait)|
    {
      list := [];
      while wait != []
        invariant Reverse(wait) + list == Reverse(old(wait)) && |wait| + |list| == |old(wait)|
        decreases |wait|
      {
        assert Reverse(wait) + list == Reverse(wait[1..]) + ([wait[0]] + list);
        list, wait := [wait[0]] + list, wait[1..];
      }
    }

    // Turns the wait list around and tries to queue its sockets.
    method RetryWaiting(os: seq<Outcome>)
      requires |wait| <= |os| && forall o :: o in os ==> Allowed(Retrying, o)
      modifies this
      ensures Value(Retrying, []) == Run(old(Value(Reading, [])), [Advance] + ListSteps(os[..|old(wait)|]))
      ensures back == old(back)
    {
      ghost var s := Value(Reading, []);
      var list := TurnAround();
      TakenOver(s, ListSteps(os[..|list|]));
      hide Run;
      assert Value(Retrying, list) == s.(lists := Advanced(s.lists));
      HandleList(list, os, Retrying);
    }

    // SockAccept: a Sock structure and what became of it.
    method AcceptOne(o: Outcome)
      requires Acceptable(o) && world.lists.open && queuesize < maxqueuesize
      modifies this
      ensures Value(Accepting, []) == Run(old(Value(Accepting, [])), AcceptSteps(o))
      ensures queuesize == old(queuesize) + (if o == Failed || o == Released then 0 else 1)
      ensures world.lists.open && back == old(back)
    {
      ghost var s := Value(Accepting, []);
      if o == Released { RunReleased(s); } else { RunAccept(s, o); }
      hide Run, Put;
      var x;
      if free != [] {
        x, free := free[0], free[1..];
      } else {
        x, next := next, next + 1;
      }
      assert Value(Accepting, []).lists == Allocate(s.lists).0 && x == Allocate(s.lists).1;
      if o != Failed {
        queuesize := queuesize + 1;
      }
      assert [x][1..] == [];
      Move(x, o, Accepting, []);
    }

    // Accepts more connections if none waits; the outcomes end where no
    // connection is pending.
    method AcceptMore(os: seq<Outcome>) returns (ghost n: nat)
      requires forall o :: o in os ==> Acceptable(o)
      modifies this
      ensures n == (if old(wait) == [] then AcceptCount(os, old(queuesize), maxqueuesize, acceptsize) else 0)
      ensures Value(Accepting, []) == Run(old(Value(Retrying, [])), [Advance] + AcceptAllSteps(os[..n]))
      ensures n <= |os| && back == old(back)
    {
      ghost var s := Value(Retrying, []);
      world := world.(lists := world.lists.(open := wait == []));
      ghost var s0 := Value(Accepting, []);
      n := if wait == [] then AcceptCount(os, queuesize, maxqueuesize, acceptsize) else 0;
      TakenOver(s, AcceptAllSteps(os[..n]));
      assert s0 == s.(lists := Advanced(s.lists));
      if wait == [] {
        AcceptLoop(os);
      } else {
        assert os[..0] == [];
      }
    }

    method AcceptLoop(os: seq<Outcome>)
      requires world.lists.open && forall o :: o in os ==> Acceptable(o)
      modifies this
      ensures var n := AcceptCount(os, old(queuesize), maxqueuesize, acceptsize);
              Value(Accepting, []) == Run(old(Value(Accepting, [])), AcceptAllSteps(os[..n]))
      ensures back == old(back)
    {
      hide Run, AcceptSteps;
      var accepted, more := 0, true;
      ghost var n := AcceptCount(os, queuesize, maxqueuesize, acceptsize);
      ghost var s0 := Value(Accepting, []);
      RunNone(s0);
      assert os[..0] == [];
      while accepted < acceptsize && queuesize < maxqueuesize && accepted < |os| && more
        invariant 0 <= accepted <= acceptsize && accepted <= |os| && world.lists.open && back == old(back)
        invariant more ==> n == accepted + AcceptCount(os[accepted..], queuesize, maxqueuesize, acceptsize - accepted)
        invariant more ==> Value(Accepting, []) == Run(s0, AcceptAllSteps(os[..accepted]))
        invariant !more ==> Value(Accepting, []) == Run(s0, AcceptAllSteps(os[..n]))
        decreases acceptsize - accepted, more
      {
        var o := os[accepted];
        assert os[accepted..][1..] == os[accepted + 1..] && o in os;
        AcceptSnoc(s0, os, accepted);
        AcceptOne(o);
        if o == Failed || o == Released {
          more := false;
        } else {
          accepted := accepted + 1;
        }
      }
    }

    // Sockets that connection threads hand back meanwhile.
    method TakeHanded(xs: seq<Sock>)
      requires world.theirs == map[] && multiset(xs) <= world.lists.service
      modifies `back, `world
      ensures Value(Accepting, []) == Run(old(Value(Accepting, [])), HandSteps(xs))
      ensures |back| == |old(back)| + |xs|
    {
      hide Run;
      ghost var goal := Run(Value(Accepting, []), HandSteps(xs));
      var i := 0;
      assert xs[0..] == xs;
      while i < |xs|
        invariant 0 <= i <= |xs| && world.theirs == map[] && multiset(xs[i..]) <= world.lists.service
        invariant Run(Value(Accepting, []), HandSteps(xs[i..])) == goal
        invariant |back| == |old(back)| + i
      {
        ghost var s := Value(Accepting, []);
        assert xs[i..] == [xs[i]] + xs[i + 1..];
        RunOne(s, HandBack(xs[i]));
        RunAppend(s, [HandBack(xs[i])], HandSteps(xs[i + 1..]));
        back := [xs[i]] + back;
        world := world.(lists := Left(world.lists, xs[i]));
        assert Value(Accepting, []) == Take(s, HandBack(xs[i]));
        i := i + 1;
      }
      RunNone(Value(Accepting, []));
    }

    // Takes the sockets handed back.
    method TakeBack(os: seq<Outcome>)
      requires |back| <= |os| && forall o :: o in os ==> Allowed(Returning, o)
      modifies this
      ensures Value(Returning, []) == Run(old(Value(Accepting, [])), [Advance] + ListSteps(os[..|old(back)|]))
    {
      ghost var s := Value(Accepting, []);
      var list := back;
      back := [];
      TakenOver(s, ListSteps(os[..|list|]));
      hide Run;
      assert Value(Returning, list) == s.(lists := Advanced(s.lists));
      HandleList(list, os, Returning);
    }

    // A spin of the driver thread, with the outcomes for the sockets of each
    // stage, and the sockets that connection threads hand back meanwhile.  It is a run of the driver's steps; afterwards every socket is
    // again in one place, the wait list in order and the count right.
    method Spin(closing: seq<Outcome>, reading: seq<Outcome>, retrying: seq<Outcome>,
                accepting: seq<Outcome>, handed: seq<Sock>, returning: seq<Outcome>)
      returns (ghost steps: seq<Step>, ghost tried: nat, ghost n: nat)
      requires Valid()
      requires |close| <= |closing| && forall o :: o in closing ==> Allowed(Closing, o)
      requires |read| <= |reading| && forall o :: o in reading ==> Allowed(Reading, o)
      requires |wait| + |read| <= |retrying| && forall o :: o in retrying ==> Allowed(Retrying, o)
      requires forall o :: o in accepting ==> Acceptable(o)
      requires multiset(handed) <= world.lists.service
      requires |back| + |handed| <= |returning| && forall o :: o in returning ==> Allowed(Returning, o)
      modifies this
      ensures Valid()
      ensures Value(Returning, []) == Run(old(Value(Returning, [])), steps)
      ensures tried <= |retrying| && n <= |accepting|
      ensures steps == SpinSteps(closing[..|old(close)|], reading[..|old(read)|], retrying[..tried], accepting[..n],
                                 handed, returning[..|old(back)| + |handed|])
    {
      hide Run, ListSteps, AcceptAllSteps, HandSteps, Inv, Current, Bounded, Busy, Allowed, Acceptable;
      ghost var s := Value(Returning, []);
      var a := |close|;
      DrainClosing(closing);
      ghost var s1 := Value(Closing, []);
      var b := |read|;
      ReadAhead(reading);
      ghost var s2 := Value(Reading, []);
      tried := |wait|;
      RetryWaiting(retrying);
      ghost var s3 := Value(Retrying, []);
      n := AcceptMore(accepting);
      ghost var first, second := [Advance] + ListSteps(closing[..a]), [Advance] + ListSteps(reading[..b]);
      ghost var third, fourth := [Advance] + ListSteps(retrying[..tried]), [Advance] + AcceptAllSteps(accepting[..n]);
      RunAppend(s, first, second);
      RunAppend(s, first + second, third);
      RunAppend(s, first + second + third, fourth);
      ghost var own := first + second + third + fourth;
      AllOwn(closing[..a]);
      AllOwn(reading[..b]);
      AllOwn(retrying[..tried]);
      AllOwn(accepting[..n]);
      ServiceGrows(s, own);
      TakeHanded(handed);
      var e := |back|;
      TakeBack(returning);
      ghost var fifth := [Advance] + ListSteps(returning[..e]);
      steps := own + HandSteps(handed) + fifth;
      RunAppend(s, own, HandSteps(handed));
      RunAppend(s, own + HandSteps(handed), fifth);
      AllHandBack(handed);
      AllOwn(returning[..e]);
      SpinKeeps(s, steps);
    }
  }

  lemma SpinKeeps(s: State, steps: seq<Step>)
    requires Inv(s) && Current(s) && Bounded(s) && s.theirs == map[] && s.queuesize == Busy(s.lists)
    requires forall step :: step in steps ==> !step.DropLoad?
    ensures var t := Run(s, steps); Inv(t) && Current(t) && Bounded(t) && t.theirs == map[] && t.queuesize == Busy(t.lists)
  {
    hide Inv, Current, Bounded, Take;
    AloneWithoutSpooler(s, steps);
    RunKeeps(s, steps);
    RunCurrent(s, steps);
    RunBounded(s, steps);
    NoneTheirs(s, steps);
  }

  lemma {:induction false} NoneTheirs(s: State, steps: seq<Step>)
    requires s.theirs == map[] && forall step :: step in steps ==> !step.DropLoad?
    ensures Run(s, steps).theirs == map[]
    decreases |steps|
  {
    if steps != [] {
      hide Put, Advanced, Accepted, Handled;
      assert steps[0] in steps;
      NoneTheirs(Take(s, steps[0]), steps[1..]);
    }
  }

  lemma RunNone(s: State)
    ensures Run(s, []) == s
  {
  }

  // Taking a list over, and then more.
  lemma TakenOver(s: State, steps: seq<Step>)
    requires Between(s) && s.lists.current == []
    ensures Run(s, [Advance] + steps) == Run(s.(lists := Advanced(s.lists)), steps)
  {
    hide Advanced;
    RunOne(s, Advance);
    RunAppend(s, [Advance], steps);
  }

  lemma {:induction false} AcceptAllAppend(a: seq<Outcome>, b: seq<Outcome>)
    ensures AcceptAllSteps(a + b) == AcceptAllSteps(a) + AcceptAllSteps(b)
  {
    if a == [] {
      assert a + b == b;
    } else {
      assert (a + b)[1..] == a[1..] + b;
      AcceptAllAppend(a[1..], b);
    }
  }

  lemma AcceptSnoc(s: State, os: seq<Outcome>, i: nat)
    requires i < |os|
    ensures Run(s, AcceptAllSteps(os[..i + 1])) == Run(Run(s, AcceptAllSteps(os[..i])), AcceptSteps(os[i]))
  {
    hide Run, AcceptSteps;
    assert os[..i + 1] == os[..i] + [os[i]];
    AcceptAllAppend(os[..i], [os[i]]);
    assert [os[i]][1..] == [] && AcceptAllSteps([os[i]]) == AcceptSteps(os[i]) + AcceptAllSteps([]);
    assert AcceptAllSteps([os[i]]) == AcceptSteps(os[i]);
    RunAppend(s, AcceptAllSteps(os[..i]), AcceptSteps(os[i]));
  }

  // A socket in service is in no list.
  lemma OnePlace(l: Lists, x: Sock)
    requires Conserved(l) && x in l.service
    ensures x !in l.back
  {
    assert Places(l, x) <= 1;
  }
}

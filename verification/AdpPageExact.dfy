/**
  Exactly when AdpSource uses something after it was freed, and exactly when it
  frees objects that are not there.
*/
module AdpPageExact {
  import opened Basics
  import opened AdpPages
  import opened AdpPageRuns
  import opened AdpPageFaults
  import opened AdpPageObjs

  // --------------------------------------------------- objects only get newer

  // The objects in a slot are for the cached result of its page or an older one.
  ghost predicate SlotAged(s: State, k: Slot) {
    k in s.slots && s.slots[k].objs.Some? ==>
      var p := s.slots[k].page;
      p in s.pages && s.pages[p].result.Some? && s.slots[k].objs.value <= s.pages[p].result.value
  }

  // Those of a call are the ones in its slot or older ones.
  ghost predicate CallAged(s: State, i: Interp, k: nat) {
    var f := Call(s, i, k);
    f.Executing? && f.result.Some? && Lives(s, i, f) ==>
      var objs := s.slots[(i, f.file)].objs; objs.Some? && f.result.value <= objs.value
  }

  ghost predicate Aged(s: State) {
    (forall k :: SlotAged(s, k)) && forall i, k: nat :: CallAged(s, i, k)
  }

  // Objects that a step gives are no older than those they replace.
  lemma GiftNewer(s: State, step: Step)
    requires Inv(s) && Aged(s) && Gift(s, step).Some?
    ensures var g := Gift(s, step).value;
            g.0 in s.slots && (s.slots[g.0].objs.Some? ==> s.slots[g.0].objs.value <= g.1)
  {
    GiftCurrent(s, step);
    assert SlotAged(s, Gift(s, step).value.0);
  }

  lemma SlotAges(s: State, step: Step, k: Slot)
    requires Inv(s) && Aged(s) && Inv(Take(s, step))
    ensures SlotAged(Take(s, step), k)
  {
    var s' := Take(s, step);
    if k in s'.slots {
      SlotHolds(s', k);
      SlotStep(s, step, k);
      if k in s.slots {
        assert SlotAged(s, k);
        SlotHolds(s, k);
        ResultStep(s, step, s.slots[k].page);
        ResultOld(s, s.slots[k].page);
        if Gift(s, step).Some? { GiftCurrent(s, step); }
      }
      hide Take, Inv, Gift;
    }
  }

  lemma CallAges(s: State, step: Step, i: Interp, k: nat)
    requires Inv(s) && Aged(s)
    ensures CallAged(Take(s, step), i, k)
  {
    var s' := Take(s, step);
    CallStep(s, step, i, k);
    var c := Call(s, i, k);
    if c == Call(s', i, k) && Uses(c) {
      CallLives(s, i, k);
      assert CallAged(s, i, k);
      SlotStep(s, step, (i, c.file));
      if Gift(s, step).Some? { GiftNewer(s, step); }
    }
    hide Take, Inv, Gift;
  }

  lemma CallLives(s: State, i: Interp, k: nat)
    requires Inv(s)
    ensures Lives(s, i, Call(s, i, k))
  {
    assert SlotMatches(s, i) && OuterMatches(s, i, k);
  }

  lemma StepAges(s: State, step: Step)
    requires Inv(s) && Aged(s) && Inv(Take(s, step))
    ensures Aged(Take(s, step))
  {
    hide Take, Inv, Aged, SlotAged, CallAged;
    assert Aged(Take(s, step)) by {
      var s' := Take(s, step);
      forall k ensures SlotAged(s', k) { SlotAges(s, step, k); }
      forall i, k: nat ensures CallAged(s', i, k) { CallAges(s, step, i, k); }
      AgedIs(s');
    }
  }

  lemma AgedIs(s: State)
    requires (forall k :: SlotAged(s, k)) && forall i, k: nat :: CallAged(s, i, k)
    ensures Aged(s)
  {
  }

  // A call whose objects were replaced does not get them back.
  lemma StaysStale(s: State, step: Step, i: Interp, k: nat)
    requires Inv(s) && Aged(s) && Inv(Take(s, step))
    requires Call(s, i, k).Executing? && !Readable(s, i, Call(s, i, k)) && Call(Take(s, step), i, k).Executing?
    ensures Call(Take(s, step), i, k) == Call(s, i, k) && !Readable(Take(s, step), i, Call(s, i, k))
  {
    var s' := Take(s, step);
    var c := Call(s, i, k);
    CallStep(s, step, i, k);
    CallLives(s, i, k);
    CallLives(s', i, k);
    assert CallAged(s, i, k);
    SlotStep(s, step, (i, c.file));
    assert s.slots[(i, c.file)].id < s.nextIpage;
    if Gift(s, step).Some? { GiftNewer(s, step); }
    hide Take, Inv, Gift;
  }

  // ---------------------------------------------- a run that is safe is careful

  // A step of a run that uses nothing after it was freed, and ends all calls.
  lemma SafeStep(s: State, steps: seq<Step>)
    requires Inv(s) && steps != [] && Settled(Run(s, steps)) && !Run(s, steps).dangling
    ensures Spares(s, steps[0]) && (steps[0].Suspend? ==> Readable(s, steps[0].i, PhaseOf(s, steps[0].i)))
    ensures Inv(Take(s, steps[0]))
  {
    var step := steps[0];
    var i := step.i;
    if !Spares(s, step) {
      var k := CarelessDooms(s, step);
      DoomedRun(Take(s, step), steps[1..], i, k);
      assert false;
    }
    if step.Suspend? {
      CallLives(s, i, |Outer(s, i)|);
      if !Readable(s, i, PhaseOf(s, i)) {
        DoomedRun(Take(s, step), steps[1..], i, 0);
        assert false;
      }
    }
    StepKeeps(s, step);
  }

  lemma {:induction false} StaleStartsNone(s: State, steps: seq<Step>, i: Interp, k: nat)
    requires Inv(s) && Aged(s) && Settled(Run(s, steps)) && !Run(s, steps).dangling
    requires Call(s, i, k).Executing? && !Readable(s, i, Call(s, i, k))
    ensures !StartsScript(s, steps, i, k)
    decreases |steps|
  {
    hide Inv, Aged, Take, Readable, Settled;
    if steps != [] {
      SafeStep(s, steps);
      StepAges(s, steps[0]);
      if Call(Take(s, steps[0]), i, k).Executing? {
        StaysStale(s, steps[0], i, k);
        StaleStartsNone(Take(s, steps[0]), steps[1..], i, k);
      }
    }
  }

  // Freeing the objects of a suspended call leaves it without.
  lemma RenewedStale(s: State, step: Step, k: nat)
    requires Inv(s) && Renewed(s, step).Some? && ExecutesWith(s, Renewed(s, step).value, k)
    ensures var i := Renewed(s, step).value.0;
            Call(Take(s, step), i, k).Executing? && !Readable(Take(s, step), i, Call(Take(s, step), i, k))
  {
    var slot := Renewed(s, step).value;
    NoGift(s, step);
    SlotStep(s, step, slot);
    OuterStays(s, step);
    hide Take, Inv, Gift;
  }

  lemma {:induction false} SafeIsCareful(s: State, steps: seq<Step>)
    requires Inv(s) && Aged(s) && Settled(Run(s, steps)) && !Run(s, steps).dangling
    ensures CarefulRun(s, steps)
    decreases |steps|
  {
    hide Inv, Aged, Take, Readable, Settled, Spares, StartsScript, ExecutesWith, Renewed;
    if steps != [] {
      var s' := Take(s, steps[0]);
      SafeStep(s, steps);
      StepAges(s, steps[0]);
      if Renewed(s, steps[0]).Some? {
        var slot := Renewed(s, steps[0]).value;
        forall k: nat | ExecutesWith(s, slot, k) ensures !StartsScript(s', steps[1..], slot.0, k) {
          RenewedStale(s, steps[0], k);
          StaleStartsNone(s', steps[1..], slot.0, k);
        }
      }
      SafeIsCareful(s', steps[1..]);
    }
  }

  // ---------------------------------------------- a run that is careful is safe

  // A call whose objects were freed starts no more scripts.
  ghost predicate Quiet(s: State, steps: seq<Step>, i: Interp, k: nat) {
    Call(s, i, k).Executing? && !Readable(s, i, Call(s, i, k)) ==> !StartsScript(s, steps, i, k)
  }

  lemma QuietStep(s: State, steps: seq<Step>)
    requires Inv(s) && steps != [] && Quiet(s, steps, steps[0].i, |Outer(s, steps[0].i)|)
    ensures steps[0].Suspend? ==> Readable(s, steps[0].i, PhaseOf(s, steps[0].i))
  {
    CallLives(s, steps[0].i, |Outer(s, steps[0].i)|);
  }

  lemma StaysQuiet(s: State, steps: seq<Step>, i: Interp, k: nat)
    requires Inv(s) && steps != [] && Careful(s, steps) && Quiet(s, steps, i, k) && Inv(Take(s, steps[0]))
    ensures Quiet(Take(s, steps[0]), steps[1..], i, k)
  {
    var s' := Take(s, steps[0]);
    var c := Call(s, i, k);
    CallStep(s, steps[0], i, k);
    if c == Call(s', i, k) && c.Executing? && Readable(s, i, c) && !Readable(s', i, c) {
      CallLives(s', i, k);
      SlotStep(s, steps[0], (i, c.file));
      NoGift(s, steps[0]);
      assert Renewed(s, steps[0]) == Some((i, c.file)) && ExecutesWith(s, (i, c.file), k);
    }
  }

  lemma {:induction false} CarefulKeeps(s: State, steps: seq<Step>)
    requires Inv(s) && CarefulRun(s, steps) && forall i, k: nat :: Quiet(s, steps, i, k)
    ensures Inv(Run(s, steps))
    decreases |steps|
  {
    hide Inv, Take, Readable, Quiet, Spares, StartsScript, ExecutesWith, Renewed;
    if steps != [] {
      var s' := Take(s, steps[0]);
      QuietStep(s, steps);
      StepKeeps(s, steps[0]);
      forall i, k: nat ensures Quiet(s', steps[1..], i, k) {
        StaysQuiet(s, steps, i, k);
      }
      CarefulKeeps(s', steps[1..]);
    }
  }

  // ------------------------------------------------------------------ theorems

  // In every careful run the invariant holds: nothing is used after it was
  // freed, an entry without a value has exactly one parser, a page points to a
  // table entry exactly if it is the entry's value, and the counts of pages and
  // cached results are the numbers of their users, nested calls included.
  lemma PagesSafe(steps: seq<Step>)
    requires CarefulRun(START, steps)
    ensures Inv(Run(START, steps))
  {
    StartInv();
    assert forall i, k: nat :: Call(START, i, k) == Idle;
    hide Inv, Run, CarefulRun, StartsScript;
    CarefulKeeps(START, steps);
  }

  // A run that ends with no call under way uses nothing after it was freed
  // exactly if it is careful.
  lemma SafeExactlyIfCareful(steps: seq<Step>)
    requires Settled(Run(START, steps))
    ensures !Run(START, steps).dangling <==> CarefulRun(START, steps)
  {
    StartInv();
    assert forall i, k: nat :: Call(START, i, k) == Idle;
    assert Aged(START);
    hide Run, CarefulRun, Inv;
    if CarefulRun(START, steps) {
      PagesSafe(steps);
      NotDangling(Run(START, steps));
    }
    if !Run(START, steps).dangling {
      SafeIsCareful(START, steps);
    }
  }

  // ----------------------------------------------------- freeing no objects

  lemma NullObjsStep(s: State, step: Step)
    ensures Take(s, step).nullObjs <==> s.nullObjs || FreesNull(s, step)
  {
    hide FreeSlot, DropResult, TakeBegin, TakeSeek, TakeParsed, TakeDecide, TakeBuilt;
    var ph := PhaseOf(s, step.i);
    match step
    case Begin(i, file, stat) => if ph.Idle? { BeginFields(s, i, file, stat); }
    case Evict(i, file) => if (i, file) in s.slots { FreeFields(s, (i, file)); }
    case Seek(i) => if ph.Seeking? { SeekOuter(s, i, ph.file, ph.stat); }
    case Parsed(i, ok) => if ph.Parsing? { ParsedOuter(s, i, ph.file, ph.stat, ok); }
    case Decide(i, caching, expired) => if ph.Holding? { DecideFields(s, i, ph, caching, expired); }
    case Built(i, ok) => if ph.Building? { BuiltFields(s, i, ph, ok); }
    case Executed(i) => if ph.Executing? { DropOuter(s, ph.result); }
    case _ =>
  }

  // In the step a call of interpreter page ip starts to execute a cached result.
  predicate Takes(s: State, step: Step, ip: nat) {
    ((step.Decide? && PhaseOf(s, step.i).Holding?) || (step.Built? && PhaseOf(s, step.i).Building?)) &&
    var f := PhaseOf(Take(s, step), step.i); f.Executing? && f.ip == ip && f.result.Some?
  }

  predicate Took(s: State, steps: seq<Step>, ip: nat)
    decreases |steps|
  {
    steps != [] && (Takes(s, steps[0], ip) || Took(Take(s, steps[0]), steps[1..], ip))
  }

  // The step frees the last interpreter page of a page with a cached result, and
  // no step before it took a cached result with that interpreter page.
  predicate NullFree(steps: seq<Step>, n: nat)
    requires n < |steps|
  {
    var s := Run(START, steps[..n]);
    Freed(s, steps[n]).Some? &&
    var ip := s.slots[Freed(s, steps[n]).value];
    ip.page in s.pages && s.pages[ip.page].refcnt <= 1 && s.pages[ip.page].result.Some? && !Took(START, steps[..n], ip.id)
  }

  lemma TakesGift(s: State, step: Step, ip: nat)
    ensures Takes(s, step, ip) <==> Gift(s, step).Some? && s.slots[Gift(s, step).value.0].id == ip
  {
    hide TakeDecide, TakeBuilt;
    var f := PhaseOf(s, step.i);
    match step
    case Decide(i, caching, expired) => if f.Holding? { DecideTops(s, i, caching, expired); }
    case Built(i, ok) => if f.Building? { BuiltDoes(s, i, ok, 0); }
    case _ =>
  }

  lemma {:induction false} RunSnoc(s: State, steps: seq<Step>, last: Step, ip: nat)
    ensures Run(s, steps + [last]) == Take(Run(s, steps), last)
    ensures Took(s, steps + [last], ip) <==> Took(s, steps, ip) || Takes(Run(s, steps), last, ip)
    decreases |steps|
  {
    hide Take, Takes;
    if steps == [] {
      assert [last][1..] == [];
    } else {
      assert (steps + [last])[1..] == steps[1..] + [last];
      RunSnoc(Take(s, steps[0]), steps[1..], last, ip);
    }
  }

  // The interpreter page in a slot has objects exactly if a step took a cached
  // result with it.
  ghost predicate ObjsTaken(s: State, steps: seq<Step>, k: Slot) {
    k in s.slots ==> s.slots[k].id < s.nextIpage && (s.slots[k].objs.Some? <==> Took(START, steps, s.slots[k].id))
  }

  ghost predicate TakenKnown(s: State, steps: seq<Step>) {
    && (forall k :: ObjsTaken(s, steps, k))
    && (forall k, l :: k in s.slots && l in s.slots && s.slots[k].id == s.slots[l].id ==> k == l)
    && (forall ip: nat :: ip >= s.nextIpage ==> !Took(START, steps, ip))
  }

  lemma SlotTaken(steps: seq<Step>, last: Step, k: Slot)
    requires TakenKnown(Run(START, steps), steps)
    ensures ObjsTaken(Run(START, steps + [last]), steps + [last], k)
  {
    hide Run, Take, Took, Takes;
    var s := Run(START, steps);
    var s' := Take(s, last);
    RunSnoc(START, steps, last, 0);
    if k in s'.slots {
      var ip := s'.slots[k].id;
      SlotStep(s, last, k);
      StepOnly(s, last);
      RunSnoc(START, steps, last, ip);
      TakesGift(s, last, ip);
      NoGift(s, last);
      assert ObjsTaken(s, steps, k);
      if Gift(s, last).Some? { assert ObjsTaken(s, steps, Gift(s, last).value.0); }
      hide Gift;
    }
  }

  lemma IdsUnique(steps: seq<Step>, last: Step, k: Slot, l: Slot)
    requires TakenKnown(Run(START, steps), steps)
    ensures var s := Take(Run(START, steps), last);
            k in s.slots && l in s.slots && s.slots[k].id == s.slots[l].id ==> k == l
  {
    hide Run, Take, Took, Gift;
    var s := Run(START, steps);
    assert ObjsTaken(s, steps, k) && ObjsTaken(s, steps, l);
    SlotStep(s, last, k);
    SlotStep(s, last, l);
  }

  lemma NoneTaken(steps: seq<Step>, last: Step, ip: nat)
    requires TakenKnown(Run(START, steps), steps) && ip >= Run(START, steps).nextIpage
    ensures !Took(START, steps + [last], ip)
  {
    hide Run, Take, Took, Takes, Gift;
    var s := Run(START, steps);
    RunSnoc(START, steps, last, ip);
    TakesGift(s, last, ip);
    NoGift(s, last);
    if Gift(s, last).Some? { assert ObjsTaken(s, steps, Gift(s, last).value.0); }
  }

  lemma TakenKept(steps: seq<Step>, last: Step)
    requires TakenKnown(Run(START, steps), steps)
    ensures TakenKnown(Run(START, steps + [last]), steps + [last])
  {
    hide Run, Take, Took, ObjsTaken;
    var s' := Take(Run(START, steps), last);
    RunSnoc(START, steps, last, 0);
    StepOnly(Run(START, steps), last);
    forall k ensures ObjsTaken(s', steps + [last], k) {
      SlotTaken(steps, last, k);
    }
    forall k, l ensures k in s'.slots && l in s'.slots && s'.slots[k].id == s'.slots[l].id ==> k == l {
      IdsUnique(steps, last, k, l);
    }
    forall ip: nat | ip >= s'.nextIpage ensures !Took(START, steps + [last], ip) {
      NoneTaken(steps, last, ip);
    }
  }

  lemma {:induction false} TakenAll(steps: seq<Step>)
    ensures TakenKnown(Run(START, steps), steps)
    decreases |steps|
  {
    if steps != [] {
      hide Run, TakenKnown;
      var n := |steps| - 1;
      TakenAll(steps[..n]);
      TakenKept(steps[..n], steps[n]);
      assert steps[..n] + [steps[n]] == steps;
    }
  }

  // FreeObjs is called without objects exactly if some step of the run is such.
  lemma {:induction false} NullObjsExactly(steps: seq<Step>)
    ensures Run(START, steps).nullObjs <==> exists n: nat :: n < |steps| && NullFree(steps, n)
    decreases |steps|
  {
    if steps != [] {
      var n := |steps| - 1;
      var init := steps[..n];
      assert init + [steps[n]] == steps;
      NullObjsExactly(init);
      RunSnoc(START, init, steps[n], 0);
      NullObjsStep(Run(START, init), steps[n]);
      NullFreeLast(steps);
      hide Run, Take, FreesNull, NullFree;
      assert forall m: nat :: m < n ==> NullFree(steps, m) == NullFree(init, m) by {
        forall m: nat | m < n ensures NullFree(steps, m) == NullFree(init, m) { NullFreeInit(steps, m); }
      }
      if Run(START, init).nullObjs {
        var m: nat :| m < |init| && NullFree(init, m);
        assert NullFree(steps, m);
      }
    }
  }

  lemma NullFreeInit(steps: seq<Step>, m: nat)
    requires m < |steps| - 1
    ensures NullFree(steps, m) == NullFree(steps[..|steps| - 1], m)
  {
    assert steps[..|steps| - 1][..m] == steps[..m];
  }

  lemma NullFreeLast(steps: seq<Step>)
    requires steps != []
    ensures var n := |steps| - 1; NullFree(steps, n) <==> FreesNull(Run(START, steps[..n]), steps[n])
  {
    var n := |steps| - 1;
    TakenAll(steps[..n]);
    var s := Run(START, steps[..n]);
    if Freed(s, steps[n]).Some? {
      assert ObjsTaken(s, steps[..n], Freed(s, steps[n]).value);
    }
  }
}

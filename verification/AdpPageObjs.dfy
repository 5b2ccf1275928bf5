/**
  The objects that an interpreter page keeps for the scripts of a cached result:
  when AdpSource uses anything after it was freed, these objects included, and
  when it frees objects that are not there.
*/
module AdpPageObjs {
  import opened Basics
  import opened AdpPages
  import opened AdpPageRuns
  import opened AdpPageFaults

  // ------------------------------------------------------- giving objects

  // The slot that gets objects in a step, and the cached result they are for.
  function Gift(s: State, step: Step): Option<(Slot, ResultId)> {
    var f := PhaseOf(s, step.i);
    if !Uses(f) || !Lives(s, step.i, f) || f.page !in s.pages then None
    else
      var page := s.pages[f.page];
      match step
      case Decide(i, caching, expired) =>
        if f.Holding? && caching && page.result.Some? && (page.locked || !expired) && page.result.value in s.results
        then Some(((i, f.file), page.result.value)) else None
      case Built(i, ok) => if f.Building? && ok then Some(((i, f.file), s.nextResult)) else None
      case _ => None
  }

  // The slot whose objects a step frees because they are for an older result.
  function Renewed(s: State, step: Step): (slot: Option<Slot>)
    ensures slot.Some? ==> slot.value in s.slots
  {
    var g := Gift(s, step);
    if g.Some? && s.slots[g.value.0].objs.Some? && s.slots[g.value.0].objs != Some(g.value.1) then Some(g.value.0) else None
  }

  // The suspended call at depth k executes with the objects in a slot.
  predicate ExecutesWith(s: State, slot: Slot, k: nat)
    requires slot in s.slots
  {
    k < |Outer(s, slot.0)| &&
    var f := Outer(s, slot.0)[k]; f.Executing? && f.file == slot.1 && f.result.Some? && f.result == s.slots[slot].objs
  }

  // The executing call of interpreter i at depth k starts a script in the steps.
  predicate StartsScript(s: State, steps: seq<Step>, i: Interp, k: nat)
    decreases |steps|
  {
    steps != [] && Call(s, i, k).Executing? &&
    ((steps[0] == Suspend(i) && |Outer(s, i)| == k) || StartsScript(Take(s, steps[0]), steps[1..], i, k))
  }

  // The first step frees no interpreter page of a suspended call; if it frees
  // objects that a suspended call executes with, that call starts no more scripts.
  ghost predicate Careful(s: State, steps: seq<Step>)
    requires steps != []
  {
    Spares(s, steps[0]) &&
    (Renewed(s, steps[0]).Some? ==>
       var slot := Renewed(s, steps[0]).value;
       forall k: nat :: ExecutesWith(s, slot, k) ==> !StartsScript(Take(s, steps[0]), steps[1..], slot.0, k))
  }

  ghost predicate CarefulRun(s: State, steps: seq<Step>)
    decreases |steps|
  {
    steps == [] || (Careful(s, steps) && CarefulRun(Take(s, steps[0]), steps[1..]))
  }

  // The same without looking ahead: no suspended call loses what it executes with.
  ghost predicate Cautious(s: State, step: Step) {
    Spares(s, step) && (Renewed(s, step).Some? ==> forall k: nat :: !ExecutesWith(s, Renewed(s, step).value, k))
  }

  ghost predicate CautiousRun(s: State, steps: seq<Step>)
    decreases |steps|
  {
    steps == [] || (Cautious(s, steps[0]) && CautiousRun(Take(s, steps[0]), steps[1..]))
  }

  lemma {:induction false} CautiousIsCareful(s: State, steps: seq<Step>)
    requires CautiousRun(s, steps)
    ensures CarefulRun(s, steps)
    decreases |steps|
  {
    hide Take, Spares, Renewed, StartsScript;
    if steps != [] {
      CautiousIsCareful(Take(s, steps[0]), steps[1..]);
    }
  }

  // ------------------------------------------------- proof: what a step does

  // The cached result of a page stays or becomes a new one.
  ghost predicate ResultChange(s: State, t: State, p: PageId) {
    p in s.pages && p in t.pages ==> t.pages[p].result == s.pages[p].result || t.pages[p].result == Some(s.nextResult)
  }

  ghost predicate Gives(s: State, t: State, step: Step) {
    var g := Gift(s, step);
    if g.None? then t.slots == s.slots
    else t.slots == s.slots[g.value.0 := s.slots[g.value.0].(objs := Some(g.value.1))]
  }

  lemma FreeDoes(s: State, slot: Slot, p: PageId)
    requires slot in s.slots
    ensures ResultChange(s, FreeSlot(s, slot), p)
  {
    hide DropResult;
    var q := s.slots[slot].page;
    if q in s.pages {
      var page := s.pages[q];
      if page.refcnt <= 1 {
        var table := if page.entry.Some? then s.table - {page.entry.value} else s.table;
        DropOuter(s.(slots := s.slots - {slot}).(pages := s.pages - {q}, table := table,
                     nullObjs := s.nullObjs || (page.result.Some? && s.slots[slot].objs.None?)), page.result);
      }
    }
  }

  lemma BeginDoes(s: State, i: Interp, file: string, stat: Stat, p: PageId)
    requires PhaseOf(s, i).Idle?
    ensures var t := TakeBegin(s, i, file, stat);
            && (t.slots == s.slots || t.slots == s.slots - {(i, file)})
            && ResultChange(s, t, p) && !PhaseOf(t, i).Executing?
  {
    hide FreeSlot;
    if (i, file) in s.slots {
      FreeFields(s, (i, file));
      FreeDoes(s, (i, file), p);
      if s.slots[(i, file)].page in s.pages {
        if s.pages[s.slots[(i, file)].page].stat == stat {} else {}
      }
    }
  }

  lemma SeekDoes(s: State, i: Interp, file: string, stat: Stat, p: PageId)
    requires PhaseOf(s, i).Seeking?
    ensures var t := TakeSeek(s, i, file, stat);
            && ResultChange(s, t, p) && !PhaseOf(t, i).Executing?
            && (t.slots == s.slots ||
                (t.nextIpage == s.nextIpage + 1 && exists q :: t.slots == s.slots[(i, file) := Ipage(s.nextIpage, q, None)]))
  {
    if file in s.table {
      if s.table[file].Some? {
        if s.table[file].value in s.pages {
          if s.pages[s.table[file].value].stat != stat {} else {}
        }
      }
    }
  }

  lemma ParsedDoes(s: State, i: Interp, file: string, stat: Stat, ok: bool, p: PageId)
    ensures var t := TakeParsed(s, i, file, stat, ok);
            && (p < s.nextPage ==> ResultChange(s, t, p)) && !PhaseOf(t, i).Executing?
            && (t.slots == s.slots ||
                (t.nextIpage == s.nextIpage + 1 && exists q :: t.slots == s.slots[(i, file) := Ipage(s.nextIpage, q, None)]))
  {
    if ok {} else {}
  }

  // Executes a cached result exactly if its slot got objects.
  ghost predicate Tops(s: State, t: State, step: Step) {
    var f := PhaseOf(t, step.i);
    if Gift(s, step).None? then f.Executing? ==> f.result.None? && Readable(t, step.i, f)
    else f.Executing? && f.result.Some? && f.ip == PhaseOf(s, step.i).ip && Readable(t, step.i, f)
  }

  lemma DecideDoes(s: State, i: Interp, caching: bool, expired: bool, p: PageId)
    requires PhaseOf(s, i).Holding?
    ensures var t, step := TakeDecide(s, i, PhaseOf(s, i), caching, expired), Decide(i, caching, expired);
            ResultChange(s, t, p) && (Gift(s, step).Some? ==> t.pages == s.pages) && Gives(s, t, step)
  {
    var f := PhaseOf(s, i);
    if Lives(s, i, f) && f.page in s.pages {
      var page := s.pages[f.page];
      if caching && page.result.Some? {
        if !page.locked && expired {} else if page.result.value in s.results {}
      }
    }
  }

  lemma DecideTops(s: State, i: Interp, caching: bool, expired: bool)
    requires PhaseOf(s, i).Holding?
    ensures Tops(s, TakeDecide(s, i, PhaseOf(s, i), caching, expired), Decide(i, caching, expired))
  {
    var f := PhaseOf(s, i);
    if Lives(s, i, f) && f.page in s.pages {
      var page := s.pages[f.page];
      if caching && page.result.Some? {
        if !page.locked && expired {} else if page.result.value in s.results {}
      }
    }
  }

  lemma BuiltDoes(s: State, i: Interp, ok: bool, p: PageId)
    requires PhaseOf(s, i).Building?
    ensures var f, t, step := PhaseOf(s, i), TakeBuilt(s, i, PhaseOf(s, i), ok), Built(i, ok);
            && ResultChange(s, t, p) && Gives(s, t, step) && Tops(s, t, step)
            && (Gift(s, step).Some? ==> f.page in t.pages && t.pages[f.page].result == Some(s.nextResult))
  {
    hide DropResult;
    var f := PhaseOf(s, i);
    if Lives(s, i, f) && f.page in s.pages {
      if ok { DropOuter(s, s.pages[f.page].result); } else {}
    }
  }

  lemma ExecutedDoes(s: State, i: Interp, f: Phase)
    requires f.Executing?
    ensures var t := TakeExecuted(s, i, f); t.slots == s.slots && t.pages == s.pages && PhaseOf(t, i).Idle?
  {
    hide DropResult;
    DropOuter(s, f.result);
  }

  // What becomes of the interpreter page in a slot.
  ghost predicate SlotChange(s: State, s': State, step: Step, k: Slot) {
    k in s'.slots ==>
      || (k in s.slots && s'.slots[k] == s.slots[k] && !(Gift(s, step).Some? && Gift(s, step).value.0 == k))
      || (k.0 == step.i && FileOf(PhaseOf(s, k.0)) == Some(k.1) && s'.slots[k].objs.None? && s'.slots[k].id == s.nextIpage < s'.nextIpage)
      || (k in s.slots && Gift(s, step).Some? && Gift(s, step).value.0 == k &&
          s'.slots[k] == s.slots[k].(objs := Some(Gift(s, step).value.1)))
  }

  lemma SlotStep(s: State, step: Step, k: Slot)
    ensures SlotChange(s, Take(s, step), step, k)
  {
    hide TakeBegin, TakeSeek, TakeParsed, TakeDecide, TakeBuilt, TakeExecuted, FreeSlot, Gift;
    var ph := PhaseOf(s, step.i);
    NoGift(s, step);
    match step
    case Begin(i, file, stat) => if ph.Idle? { BeginDoes(s, i, file, stat, 0); }
    case Seek(i) => if ph.Seeking? { SeekDoes(s, i, ph.file, ph.stat, 0); }
    case Parsed(i, ok) => if ph.Parsing? { ParsedDoes(s, i, ph.file, ph.stat, ok, 0); }
    case Decide(i, caching, expired) => if ph.Holding? { DecideDoes(s, i, caching, expired, 0); }
    case Built(i, ok) => if ph.Building? { BuiltDoes(s, i, ok, 0); }
    case Executed(i) => if ph.Executing? { ExecutedDoes(s, i, ph); }
    case Evict(i, file) => if (i, file) in s.slots { FreeFields(s, (i, file)); }
    case _ =>
  }

  lemma NoGift(s: State, step: Step)
    ensures Gift(s, step).Some? ==> (step.Decide? && PhaseOf(s, step.i).Holding?) || (step.Built? && PhaseOf(s, step.i).Building?)
    ensures Gift(s, step).Some? ==> Gift(s, step).value.0 in s.slots && Gift(s, step).value.0 == (step.i, PhaseOf(s, step.i).file)
  {
  }

  lemma ResultStep(s: State, step: Step, p: PageId)
    requires Inv(s)
    ensures ResultChange(s, Take(s, step), p)
  {
    assert p in s.pages ==> p < s.nextPage;
    hide Inv, TakeBegin, TakeSeek, TakeParsed, TakeDecide, TakeBuilt, TakeExecuted, FreeSlot;
    var ph := PhaseOf(s, step.i);
    match step
    case Begin(i, file, stat) => if ph.Idle? { BeginDoes(s, i, file, stat, p); }
    case Seek(i) => if ph.Seeking? { SeekDoes(s, i, ph.file, ph.stat, p); }
    case Parsed(i, ok) => if ph.Parsing? { ParsedDoes(s, i, ph.file, ph.stat, ok, p); }
    case Decide(i, caching, expired) => if ph.Holding? { DecideDoes(s, i, caching, expired, p); }
    case Built(i, ok) => if ph.Building? { BuiltDoes(s, i, ok, p); }
    case Executed(i) => if ph.Executing? { ExecutedDoes(s, i, ph); }
    case Evict(i, file) => if (i, file) in s.slots { FreeDoes(s, (i, file), p); }
    case _ =>
  }

  // A slot gets objects for the cached result its page then has.
  lemma GiftCurrent(s: State, step: Step)
    requires Inv(s) && Gift(s, step).Some?
    ensures var g := Gift(s, step).value;
            && g.0 in s.slots && s.slots[g.0].page in s.pages
            && s.slots[g.0].page in Take(s, step).pages && Take(s, step).pages[s.slots[g.0].page].result == Some(g.1)
            && (s.pages[s.slots[g.0].page].result.Some? ==> s.pages[s.slots[g.0].page].result.value <= g.1)
  {
    var f := PhaseOf(s, step.i);
    assert SlotMatches(s, step.i);
    ResultOld(s, f.page);
    hide Inv, TakeDecide, TakeBuilt;
    match step
    case Decide(i, caching, expired) => DecideDoes(s, i, caching, expired, f.page);
    case Built(i, ok) => BuiltDoes(s, i, ok, f.page);
  }

  lemma ResultOld(s: State, p: PageId)
    requires Fresh(s)
    ensures p in s.pages && s.pages[p].result.Some? ==> s.pages[p].result.value < s.nextResult
  {
    if p in s.pages && s.pages[p].result.Some? {
      assert p in Owners(s.pages, s.pages[p].result.value);
    }
  }

  // What becomes of the call of interpreter i at depth k: a call that starts to
  // execute has its objects.
  ghost predicate CallChange(s: State, t: State, i: Interp, k: nat) {
    var c, d := Call(s, i, k), Call(t, i, k);
    c == d || !d.Executing? || (!c.Executing? && k == |Outer(s, i)| && Readable(t, i, d))
  }

  lemma CallStep(s: State, step: Step, i: Interp, k: nat)
    ensures CallChange(s, Take(s, step), i, k)
  {
    if i != step.i {
      StepOnly(s, step);
      hide Take;
    } else if step.Suspend? || step.Resume? {
      hide Readable;
    } else {
      TopStep(s, step);
      OuterStays(s, step);
      hide Take;
    }
  }

  // The same for the innermost call.
  lemma TopStep(s: State, step: Step)
    requires !step.Suspend? && !step.Resume?
    ensures var c, d := PhaseOf(s, step.i), PhaseOf(Take(s, step), step.i);
            c == d || !d.Executing? || (!c.Executing? && Readable(Take(s, step), step.i, d))
  {
    hide TakeBegin, TakeSeek, TakeParsed, TakeDecide, TakeBuilt, TakeExecuted, FreeSlot, Readable;
    var ph := PhaseOf(s, step.i);
    match step
    case Begin(i, file, stat) => if ph.Idle? { BeginDoes(s, i, file, stat, 0); }
    case Seek(i) => if ph.Seeking? { SeekDoes(s, i, ph.file, ph.stat, 0); }
    case Parsed(i, ok) => if ph.Parsing? { ParsedDoes(s, i, ph.file, ph.stat, ok, 0); }
    case Decide(i, caching, expired) => if ph.Holding? { DecideTops(s, i, caching, expired); }
    case Built(i, ok) => if ph.Building? { BuiltDoes(s, i, ok, 0); }
    case Executed(i) => if ph.Executing? { ExecutedDoes(s, i, ph); }
    case Evict(i, file) => if (i, file) in s.slots { FreeFields(s, (i, file)); }
  }
}

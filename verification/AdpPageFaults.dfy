/**
  What follows when AdpSource frees an interpreter page that a suspended call
  uses; and what makes an entry leave the table of pages.
*/
module AdpPageFaults {
  import opened Basics
  import opened AdpPages
  import opened AdpPageRuns

  // ------------------------------------------------------ use after freeing

  // The call of interpreter i at a depth, counted from the outermost.
  function Call(s: State, i: Interp, k: nat): Phase {
    if k < |Outer(s, i)| then Outer(s, i)[k] else if k == |Outer(s, i)| then PhaseOf(s, i) else Idle
  }

  // A call whose interpreter page is gone for good.
  ghost predicate Doomed(s: State, i: Interp, k: nat) {
    var f := Call(s, i, k);
    Uses(f) && !Lives(s, i, f) && f.ip < s.nextIpage
  }

  // No call is under way.
  ghost predicate Settled(s: State) {
    forall i :: PhaseOf(s, i).Idle? && Outer(s, i) == []
  }

  // A change made by interpreter i: other interpreters keep their calls and
  // slots, new interpreter pages are new, and what dangles stays dangling.
  ghost predicate Only(s: State, s': State, i: Interp) {
    && (forall j :: j != i ==> PhaseOf(s', j) == PhaseOf(s, j) && Outer(s', j) == Outer(s, j))
    && (forall k: Slot :: SlotOnly(s, s', i, k))
    && s'.nextIpage >= s.nextIpage && (s.dangling ==> s'.dangling)
  }

  ghost predicate SlotOnly(s: State, s': State, i: Interp, k: Slot) {
    if k in s'.slots then (k in s.slots && s'.slots[k].id == s.slots[k].id) || (k.0 == i && s'.slots[k].id >= s.nextIpage)
    else k in s.slots ==> k.0 == i
  }

  lemma OnlyThen(s: State, t: State, u: State, i: Interp)
    requires Only(s, t, i) && Only(t, u, i)
    ensures Only(s, u, i)
  {
    forall k: Slot ensures SlotOnly(s, u, i, k) {
      assert SlotOnly(s, t, i, k) && SlotOnly(t, u, i, k);
    }
  }

  // Changes that leave calls and slots alone.
  lemma OnlyShared(s: State, s': State, i: Interp)
    requires s'.phases == s.phases && s'.outer == s.outer && s'.slots == s.slots
    requires s'.nextIpage == s.nextIpage && (s.dangling ==> s'.dangling)
    ensures Only(s, s', i)
  {
  }

  lemma ToOnly(s: State, i: Interp, f: Phase)
    ensures Only(s, To(s, i, f), i)
  {
  }

  lemma DropOnly(s: State, i: Interp, r: Option<ResultId>)
    ensures Only(s, DropResult(s, r), i)
    ensures DropResult(s, r).slots == s.slots && DropResult(s, r).pages == s.pages
  {
    hide Only;
    DropOuter(s, r);
    OnlyShared(s, DropResult(s, r), i);
  }

  lemma GiveOnly(s: State, i: Interp, slot: Slot, r: ResultId)
    requires slot in s.slots
    ensures Only(s, GiveObjs(s, slot, r), i)
  {
  }

  lemma FillOnly(s: State, i: Interp, file: string, p: PageId)
    requires p in s.pages
    ensures Only(s, FillSlot(s, (i, file), p), i)
  {
  }

  lemma FreeOnly(s: State, i: Interp, file: string)
    requires (i, file) in s.slots
    ensures Only(s, FreeSlot(s, (i, file)), i) && (i, file) !in FreeSlot(s, (i, file)).slots
    ensures FreeSlot(s, (i, file)).phases == s.phases && FreeSlot(s, (i, file)).outer == s.outer
    ensures FreeSlot(s, (i, file)).nextIpage == s.nextIpage
  {
    hide Only;
    FreeFields(s, (i, file));
    LoseOnly(s, FreeSlot(s, (i, file)), i, file);
  }

  lemma LoseOnly(s: State, s': State, i: Interp, file: string)
    requires s'.slots == s.slots - {(i, file)} && s'.phases == s.phases && s'.outer == s.outer
    requires s'.nextIpage == s.nextIpage && (s.dangling ==> s'.dangling)
    ensures Only(s, s', i)
  {
  }

  lemma BeginOnly(s: State, i: Interp, file: string, stat: Stat)
    ensures Only(s, TakeBegin(s, i, file, stat), i)
  {
    hide Only, To, FreeSlot;
    var s' := TakeBegin(s, i, file, stat);
    if (i, file) !in s.slots {
      ToOnly(s, i, Seeking(file, stat));
    } else {
      var ip := s.slots[(i, file)];
      OnlyShared(s, s.(dangling := true), i);
      ToOnly(s, i, Holding(file, stat, ip.id, ip.page));
      FreeOnly(s, i, file);
      ToOnly(FreeSlot(s, (i, file)), i, Seeking(file, stat));
      OnlyThen(s, FreeSlot(s, (i, file)), To(FreeSlot(s, (i, file)), i, Seeking(file, stat)), i);
    }
  }

  lemma SeekOnly(s: State, i: Interp, file: string, stat: Stat)
    ensures Only(s, TakeSeek(s, i, file, stat), i)
  {
    hide Only, To, FillSlot;
    OnlyShared(s, s, i);
    OnlyShared(s, s.(dangling := true), i);
    if file !in s.table {
      var t := s.(table := s.table[file := None]);
      SharedThenTo(s, t, i, Parsing(file, stat));
    } else if s.table[file].Some? && s.table[file].value in s.pages {
      var p := s.table[file].value;
      var t := s.(table := s.table[file := None], pages := s.pages[p := s.pages[p].(entry := None)]);
      SharedThenTo(s, t, i, Parsing(file, stat));
      FillOnly(s, i, file, p);
      ToOnly(FillSlot(s, (i, file), p), i, Holding(file, stat, s.nextIpage, p));
      OnlyThen(s, FillSlot(s, (i, file), p), To(FillSlot(s, (i, file), p), i, Holding(file, stat, s.nextIpage, p)), i);
    }
  }

  lemma SharedThenTo(s: State, t: State, i: Interp, f: Phase)
    requires t.phases == s.phases && t.outer == s.outer && t.slots == s.slots
    requires t.nextIpage == s.nextIpage && (s.dangling ==> t.dangling)
    ensures Only(s, To(t, i, f), i)
  {
    hide Only, To;
    OnlyShared(s, t, i);
    ToOnly(t, i, f);
    OnlyThen(s, t, To(t, i, f), i);
  }

  lemma ParsedOnly(s: State, i: Interp, file: string, stat: Stat, ok: bool)
    ensures Only(s, TakeParsed(s, i, file, stat, ok), i)
  {
    hide Only, To, FillSlot;
    if !ok {
      SharedThenTo(s, s.(table := s.table - {file}), i, Idle);
    } else {
      var p := s.nextPage;
      var s1 := s.(pages := s.pages[p := Page(stat, 0, Some(file), None, false)],
                   table := s.table[file := Some(p)], nextPage := p + 1);
      OnlyShared(s, s1, i);
      FillOnly(s1, i, file, p);
      var s2 := FillSlot(s1, (i, file), p);
      OnlyThen(s, s1, s2, i);
      ToOnly(s2, i, Holding(file, stat, s.nextIpage, p));
      OnlyThen(s, s2, To(s2, i, Holding(file, stat, s.nextIpage, p)), i);
    }
  }

  lemma DecideOnly(s: State, i: Interp, f: Phase, caching: bool, expired: bool)
    requires f.Holding?
    ensures Only(s, TakeDecide(s, i, f, caching, expired), i)
  {
    hide Only, To, GiveObjs;
    OnlyShared(s, s, i);
    OnlyShared(s, s.(dangling := true), i);
    if Lives(s, i, f) && f.page in s.pages {
      var page := s.pages[f.page];
      ToOnly(s, i, Executing(f.file, f.stat, f.ip, f.page, None));
      ToOnly(s, i, Building(f.file, f.stat, f.ip, f.page));
      SharedThenTo(s, s.(pages := s.pages[f.page := page.(locked := true)]), i, Building(f.file, f.stat, f.ip, f.page));
      if page.result.Some? && page.result.value in s.results {
        var r := page.result.value;
        var s1 := s.(results := s.results[r := s.results[r] + 1]);
        SharedGiven(s, s1, i, f.file, r, Executing(f.file, f.stat, f.ip, f.page, Some(r)));
      }
    }
  }

  lemma SharedGiven(s: State, t: State, i: Interp, file: string, r: ResultId, f: Phase)
    requires t.phases == s.phases && t.outer == s.outer && t.slots == s.slots && (i, file) in s.slots
    requires t.nextIpage == s.nextIpage && (s.dangling ==> t.dangling)
    ensures Only(s, To(GiveObjs(t, (i, file), r), i, f), i)
  {
    hide Only, To, GiveObjs;
    OnlyShared(s, t, i);
    GiveOnly(t, i, (i, file), r);
    OnlyThen(s, t, GiveObjs(t, (i, file), r), i);
    ToOnly(GiveObjs(t, (i, file), r), i, f);
    OnlyThen(s, GiveObjs(t, (i, file), r), To(GiveObjs(t, (i, file), r), i, f), i);
  }

  lemma BuiltOnly(s: State, i: Interp, f: Phase, ok: bool)
    requires f.Building?
    ensures Only(s, TakeBuilt(s, i, f, ok), i)
  {
    hide Only, To, GiveObjs, DropResult;
    OnlyShared(s, s.(dangling := true), i);
    if Lives(s, i, f) && f.page in s.pages {
      var page, r := s.pages[f.page], s.nextResult;
      SharedThenTo(s, s.(pages := s.pages[f.page := page.(locked := false)]), i, Executing(f.file, f.stat, f.ip, f.page, None));
      var s1 := DropResult(s, page.result);
      DropOnly(s, i, page.result);
      var s2 := s1.(pages := s1.pages[f.page := page.(result := Some(r), locked := false)],
                    results := s1.results[r := 2], nextResult := r + 1);
      SharedGiven(s1, s2, i, f.file, r, Executing(f.file, f.stat, f.ip, f.page, Some(r)));
      OnlyThen(s, s1, To(GiveObjs(s2, (i, f.file), r), i, Executing(f.file, f.stat, f.ip, f.page, Some(r))), i);
    }
  }

  lemma ExecutedOnly(s: State, i: Interp, f: Phase)
    requires f.Executing?
    ensures Only(s, TakeExecuted(s, i, f), i)
  {
    hide Only, To, DropResult;
    SharedThenTo(s, s.(dangling := true), i, Idle);
    DropOnly(s, i, f.result);
    ToOnly(DropResult(s, f.result), i, Idle);
    OnlyThen(s, DropResult(s, f.result), To(DropResult(s, f.result), i, Idle), i);
  }

  lemma NestOnly(s: State, i: Interp, outer: seq<Phase>, f: Phase, dangling: bool)
    requires s.dangling ==> dangling
    ensures Only(s, To(s.(outer := s.outer[i := outer], dangling := dangling), i, f), i)
  {
  }

  lemma StepOnly(s: State, step: Step)
    ensures Only(s, Take(s, step), step.i)
  {
    hide Only, TakeBegin, TakeSeek, TakeParsed, TakeDecide, TakeBuilt, TakeExecuted, FreeSlot, To;
    OnlyShared(s, s, step.i);
    var ph := PhaseOf(s, step.i);
    match step
    case Begin(i, file, stat) => BeginOnly(s, i, file, stat);
    case Seek(i) => if ph.Seeking? { SeekOnly(s, i, ph.file, ph.stat); }
    case Parsed(i, ok) => if ph.Parsing? { ParsedOnly(s, i, ph.file, ph.stat, ok); }
    case Decide(i, caching, expired) => if ph.Holding? { DecideOnly(s, i, ph, caching, expired); }
    case Built(i, ok) => if ph.Building? { BuiltOnly(s, i, ph, ok); }
    case Executed(i) => if ph.Executing? { ExecutedOnly(s, i, ph); }
    case Suspend(i) => NestOnly(s, i, Outer(s, i) + [ph], Idle, s.dangling || !Readable(s, i, ph));
    case Resume(i) =>
      if Outer(s, i) != [] { NestOnly(s, i, Outer(s, i)[..|Outer(s, i)| - 1], Outer(s, i)[|Outer(s, i)| - 1], s.dangling); }
    case Evict(i, file) => if (i, file) in s.slots { FreeOnly(s, i, file); }
  }

  // The innermost call that is doomed uses what was freed when it goes on.
  lemma DoomedTop(s: State, step: Step)
    requires Uses(PhaseOf(s, step.i)) && !Lives(s, step.i, PhaseOf(s, step.i))
    ensures Take(s, step).dangling || PhaseOf(Take(s, step), step.i) == PhaseOf(s, step.i)
  {
    hide FreeSlot, DropResult;
    match step
    case Evict(i, file) => if Freed(s, step).Some? { FreeFields(s, (i, file)); }
    case _ =>
  }

  // The step frees the last interpreter page of a page with a cached result,
  // and that interpreter page has no objects for it.
  ghost predicate FreesNull(s: State, step: Step) {
    Freed(s, step).Some? &&
    var ip := s.slots[Freed(s, step).value];
    ip.page in s.pages && s.pages[ip.page].refcnt <= 1 && s.pages[ip.page].result.Some? && ip.objs.None?
  }

  // Suspended calls do not change.
  lemma OuterStays(s: State, step: Step)
    ensures step.Suspend? || step.Resume? || Take(s, step).outer == s.outer
  {
    hide FreeSlot, DropResult, TakeBegin, TakeSeek, TakeParsed, TakeDecide, TakeBuilt;
    var ph := PhaseOf(s, step.i);
    match step
    case Begin(i, file, stat) => if ph.Idle? { BeginFields(s, i, file, stat); }
    case Evict(i, file) => if (i, file) in s.slots { FreeFields(s, (i, file)); }
    case Seek(i) => if ph.Seeking? { SeekOuter(s, i, ph.file, ph.stat); }
    case Parsed(i, ok) => if ph.Parsing? { ParsedOuter(s, i, ph.file, ph.stat, ok); }
    case Decide(i, caching, expired) => if ph.Holding? { DecideFields(s, i, ph, caching, expired); }
    case Built(i, ok) => if ph.Building? { BuiltFields(s, i, ph, ok); }
    case Executed(i) => if ph.Executing? { DropOuter(s, ph.result); }
    case _ =>
  }

  lemma BeginFields(s: State, i: Interp, file: string, stat: Stat)
    requires PhaseOf(s, i).Idle?
    ensures TakeBegin(s, i, file, stat).outer == s.outer
    ensures TakeBegin(s, i, file, stat).nullObjs <==> s.nullObjs || FreesNull(s, Begin(i, file, stat))
  {
    hide FreeSlot;
    if (i, file) in s.slots {
      FreeFields(s, (i, file));
      if s.slots[(i, file)].page in s.pages {
        if s.pages[s.slots[(i, file)].page].stat == stat {} else {}
      }
    }
  }

  lemma SeekOuter(s: State, i: Interp, file: string, stat: Stat)
    ensures TakeSeek(s, i, file, stat).outer == s.outer && TakeSeek(s, i, file, stat).nullObjs == s.nullObjs
  {
    if file in s.table {
      if s.table[file].Some? {
        if s.table[file].value in s.pages {
          if s.pages[s.table[file].value].stat != stat {} else {}
        }
      }
    }
  }

  lemma ParsedOuter(s: State, i: Interp, file: string, stat: Stat, ok: bool)
    ensures TakeParsed(s, i, file, stat, ok).outer == s.outer && TakeParsed(s, i, file, stat, ok).nullObjs == s.nullObjs
  {
    if ok {} else {}
  }

  lemma DecideFields(s: State, i: Interp, f: Phase, caching: bool, expired: bool)
    requires f.Holding?
    ensures var t := TakeDecide(s, i, f, caching, expired);
            t.table == s.table && t.outer == s.outer && t.nullObjs == s.nullObjs
  {
    hide To, GiveObjs;
    if Lives(s, i, f) {
      if f.page in s.pages {
        var page := s.pages[f.page];
        ToFields(s, i, Executing(f.file, f.stat, f.ip, f.page, None));
        ToFields(s, i, Building(f.file, f.stat, f.ip, f.page));
        ToFields(s.(pages := s.pages[f.page := page.(locked := true)]), i, Building(f.file, f.stat, f.ip, f.page));
        if page.result.Some? {
          if page.result.value in s.results {
            var r := page.result.value;
            GivenFields(s.(results := s.results[r := s.results[r] + 1]), i, f.file, r, Executing(f.file, f.stat, f.ip, f.page, Some(r)));
          }
        }
      }
    }
  }

  lemma ToFields(s: State, i: Interp, f: Phase)
    ensures To(s, i, f).table == s.table && To(s, i, f).outer == s.outer && To(s, i, f).nullObjs == s.nullObjs
  {
  }

  lemma GivenFields(s: State, i: Interp, file: string, r: ResultId, f: Phase)
    requires (i, file) in s.slots
    ensures var t := To(GiveObjs(s, (i, file), r), i, f);
            t.table == s.table && t.outer == s.outer && t.nullObjs == s.nullObjs
  {
  }

  lemma BuiltFields(s: State, i: Interp, f: Phase, ok: bool)
    requires f.Building?
    ensures var t := TakeBuilt(s, i, f, ok); t.table == s.table && t.outer == s.outer && t.nullObjs == s.nullObjs
  {
    hide DropResult;
    if Lives(s, i, f) && f.page in s.pages {
      if ok {
        DropOuter(s, s.pages[f.page].result);
      }
    }
  }

  // A doomed call stays doomed until it goes on, and then uses what was freed.
  lemma StaysDoomed(s: State, step: Step, i: Interp, k: nat)
    requires Doomed(s, i, k)
    ensures Take(s, step).dangling || Doomed(Take(s, step), i, k)
  {
    var s' := Take(s, step);
    assert !s'.dangling ==> Call(s', i, k) == Call(s, i, k) by { SameCall(s, step, i, k); }
    hide Take;
    StepOnly(s, step);
    assert SlotOnly(s, s', step.i, (i, Call(s, i, k).file));
  }

  lemma SameCall(s: State, step: Step, i: Interp, k: nat)
    requires Doomed(s, i, k)
    ensures Take(s, step).dangling || Call(Take(s, step), i, k) == Call(s, i, k)
  {
    StepOnly(s, step);
    if step.i == i {
      OuterStays(s, step);
      if k == |Outer(s, i)| {
        DoomedTop(s, step);
      }
      if !step.Suspend? && !step.Resume? {
        hide Take;
      }
    }
  }

  lemma {:induction false} DoomedRun(s: State, steps: seq<Step>, i: Interp, k: nat)
    requires s.dangling || Doomed(s, i, k)
    ensures Run(s, steps).dangling || Doomed(Run(s, steps), i, k)
    decreases |steps|
  {
    hide Doomed, Take;
    if steps != [] {
      if s.dangling { StepOnly(s, steps[0]); } else { StaysDoomed(s, steps[0], i, k); }
      DoomedRun(Take(s, steps[0]), steps[1..], i, k);
    }
  }

  // Freeing the interpreter page of a suspended call dooms the call.
  lemma CarelessDooms(s: State, step: Step) returns (k: nat)
    requires Inv(s) && !Spares(s, step)
    ensures Doomed(Take(s, step), step.i, k)
  {
    hide FreeSlot, Counted, Tabled;
    var slot := Freed(s, step).value;
    var n :| 0 <= n < |Outer(s, slot.0)| && FileOf(Outer(s, slot.0)[n]) == Some(slot.1);
    k := n;
    assert SlotMatches(s, step.i) && OuterMatches(s, step.i, k);
    FreeOnly(s, slot.0, slot.1);
  }

  // --------------------------------------------------------- table entries

  // A table entry disappears only when parsing its file fails, or when the step
  // frees the last interpreter page of the page that is its value.
  lemma EntryRemoved(s: State, step: Step, file: string)
    requires Inv(s)
    ensures file in s.table && file !in Take(s, step).table ==>
              || (step.Parsed? && !step.ok && Parses(s, step.i, file))
              || (Freed(s, step).Some? &&
                  var p := s.slots[Freed(s, step).value].page;
                  s.table[file] == Some(p) && p in s.pages && s.pages[p].refcnt == 1)
  {
    hide Inv, FreeSlot, TakeBegin, TakeSeek, TakeDecide, TakeBuilt, DropResult;
    var ph := PhaseOf(s, step.i);
    match step
    case Begin(i, f, stat) => if ph.Idle? { BeginTable(s, i, f, stat, file); }
    case Evict(i, f) => if (i, f) in s.slots { FreeSlotRemoves(s, (i, f), file); }
    case Seek(i) => if ph.Seeking? { SeekTable(s, i, ph.file, ph.stat, file); }
    case Decide(i, caching, expired) => if ph.Holding? { DecideFields(s, i, ph, caching, expired); }
    case Built(i, ok) => if ph.Building? { BuiltFields(s, i, ph, ok); }
    case Executed(i) => if ph.Executing? { DropOuter(s, ph.result); }
    case _ =>
  }

  lemma BeginTable(s: State, i: Interp, f: string, stat: Stat, file: string)
    requires Inv(s) && PhaseOf(s, i).Idle?
    ensures file in s.table && file !in TakeBegin(s, i, f, stat).table ==>
              Freed(s, Begin(i, f, stat)) == Some((i, f)) &&
              var p := s.slots[(i, f)].page; s.table[file] == Some(p) && p in s.pages && s.pages[p].refcnt == 1
  {
    hide Inv, FreeSlot;
    if (i, f) in s.slots {
      FreeSlotRemoves(s, (i, f), file);
      if s.slots[(i, f)].page in s.pages {
        if s.pages[s.slots[(i, f)].page].stat == stat {} else {}
      }
    }
  }

  lemma SeekTable(s: State, i: Interp, f: string, stat: Stat, file: string)
    ensures file in s.table ==> file in TakeSeek(s, i, f, stat).table
  {
    if f in s.table {
      if s.table[f].Some? {
        if s.table[f].value in s.pages {
          if s.pages[s.table[f].value].stat != stat {} else {}
        }
      }
    }
  }

  lemma FreeSlotRemoves(s: State, slot: Slot, file: string)
    requires Inv(s) && slot in s.slots
    ensures file in s.table && file !in FreeSlot(s, slot).table ==>
            var p := s.slots[slot].page; s.table[file] == Some(p) && p in s.pages && s.pages[p].refcnt == 1
  {
    SlotHolds(s, slot);
    EntryOf(s, s.slots[slot].page, file);
  }
}

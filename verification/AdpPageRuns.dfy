/**
  Building, executing and dropping cached ADP results keeps the invariant of
  AdpPages, and so does every interleaving of steps.
*/
module AdpPageRuns {
  import opened Basics
  import opened AdpPages

  // ----------------------------------------------------- proof: cached results

  lemma LockKeeps(s: State, p: PageId, locked: bool)
    requires Inv(s) && p in s.pages
    ensures Inv(s.(pages := s.pages[p := s.pages[p].(locked := locked)]))
  {
    hide Sleepers, Holders, Owners, Executors;
    var s' := s.(pages := s.pages[p := s.pages[p].(locked := locked)]);
    forall q: PageId ensures PageCounts(s', q) {
      assert PageCounts(s, q);
    }
    forall r: ResultId
      ensures ResultCounts(s', r) && Owners(s'.pages, r) == Owners(s.pages, r)
    {
      assert ResultCounts(s, r);
      OwnersSame(s.pages, p, s'.pages[p], r);
    }
    forall q: PageId, f ensures EntryMatches(s', q, f) {
      assert EntryMatches(s, q, f);
    }
    assert forall j :: PhaseOf(s', j) == PhaseOf(s, j);
    TabledSamePhases(s, s');
    forall j ensures SlotMatches(s', j) {
      assert SlotMatches(s, j);
      forall k ensures OuterMatches(s', j, k) {
        assert OuterMatches(s, j, k);
      }
    }
  }

  // Changes confined to cached results and to which interpreters execute them.
  lemma ResultsKeep(s: State, s': State, i: Interp, ph: Phase)
    requires Inv(s) && s'.phases == s.phases[i := ph] && !PhaseOf(s, i).Parsing? && !ph.Parsing?
    requires s'.table == s.table && s'.slots == s.slots && s'.outer == s.outer && !s'.dangling
    requires s'.pages.Keys == s.pages.Keys
    requires forall p :: p in s.pages ==>
               s'.pages[p].refcnt == s.pages[p].refcnt && s'.pages[p].stat == s.pages[p].stat &&
               s'.pages[p].entry == s.pages[p].entry
    requires s'.nextPage == s.nextPage && s'.nextIpage == s.nextIpage && TopMatches(s', i, ph)
    requires forall r: ResultId :: ResultCounts(s', r) && |Owners(s'.pages, r)| <= 1
    requires s'.nextResult >= s.nextResult
    requires forall r: ResultId :: r >= s'.nextResult ==> Owners(s'.pages, r) == {} && Executors(s'.phases, r) == {}
    ensures Inv(s')
  {
    hide Sleepers, Holders, Owners, Executors;
    PhasesElsewhere(s, s', i, ph);
    forall q: PageId ensures PageCounts(s', q) {
      assert PageCounts(s, q);
    }
    forall q: PageId, f ensures EntryMatches(s', q, f) {
      assert EntryMatches(s, q, f);
    }
    TabledSame(s, s', i);
    forall j ensures SlotMatches(s', j) {
      assert SlotMatches(s, j);
      forall k ensures OuterMatches(s', j, k) {
        assert OuterMatches(s, j, k);
      }
    }
  }

  // Objects for the scripts of a cached result do not matter to the counts.
  lemma ObjsKeep(s: State, slot: Slot, r: ResultId)
    requires Inv(s) && slot in s.slots
    ensures Inv(GiveObjs(s, slot, r))
  {
    hide Sleepers, Owners, Executors;
    var s' := GiveObjs(s, slot, r);
    forall q: PageId ensures PageCounts(s', q) {
      assert PageCounts(s, q);
      assert Holders(s'.slots, q) == Holders(s.slots, q);
    }
    forall q: ResultId ensures ResultCounts(s', q) {
      assert ResultCounts(s, q);
    }
    forall q: PageId, f ensures EntryMatches(s', q, f) {
      assert EntryMatches(s, q, f);
    }
    assert forall j :: PhaseOf(s', j) == PhaseOf(s, j);
    TabledSamePhases(s, s');
    forall j ensures SlotMatches(s', j) {
      assert SlotMatches(s, j);
      forall k ensures OuterMatches(s', j, k) {
        assert OuterMatches(s, j, k);
      }
    }
  }

  lemma DecideKeeps(s: State, i: Interp, caching: bool, expired: bool)
    requires Inv(s) && PhaseOf(s, i).Holding?
    ensures Inv(TakeDecide(s, i, PhaseOf(s, i), caching, expired))
  {
    hide Holders, Owners, Executors, Counted, Tabled, Fresh;
    var ph := PhaseOf(s, i);
    var p := ph.page;
    assert SlotMatches(s, i);
    var page := s.pages[p];
    if !caching {
      PhaseKeeps(s, i, Executing(ph.file, ph.stat, ph.ip, p, None));
    } else if page.result.None? {
      if !page.locked {
        PhaseKeeps(s, i, Building(ph.file, ph.stat, ph.ip, p));
      }
    } else if !page.locked && expired {
      LockKeeps(s, p, true);
      PhaseKeeps(s.(pages := s.pages[p := page.(locked := true)]), i, Building(ph.file, ph.stat, ph.ip, p));
    } else {
      var r := page.result.value;
      ReuseKeeps(s, i, r);
      ObjsKeep(To(s.(results := s.results[r := s.results[r] + 1]), i, Executing(ph.file, ph.stat, ph.ip, p, Some(r))),
               (i, ph.file), r);
    }
  }

  // One more interpreter executes the cached result of the page it holds.
  lemma ReuseKeeps(s: State, i: Interp, r: ResultId)
    requires Inv(s) && PhaseOf(s, i).Holding?
    requires PhaseOf(s, i).page in s.pages && s.pages[PhaseOf(s, i).page].result == Some(r)
    ensures var ph := PhaseOf(s, i);
            && r in s.results
            && Inv(To(s.(results := s.results[r := s.results[r] + 1]), i, Executing(ph.file, ph.stat, ph.ip, ph.page, Some(r))))
  {
    hide Sleepers, Holders, Owners, Executors;
    var ph := PhaseOf(s, i);
    OwnersUpdated(s.pages, ph.page, s.pages[ph.page], r);
    assert ResultCounts(s, r);
    var next := Executing(ph.file, ph.stat, ph.ip, ph.page, Some(r));
    var s' := To(s.(results := s.results[r := s.results[r] + 1]), i, next);
    forall q: ResultId
      ensures ResultCounts(s', q)
      ensures q >= s.nextResult ==> Executors(s'.phases, q) == {}
    {
      assert ResultCounts(s, q);
      ExecutorsUpdated(s.phases, i, next, q);
      assert q != r ==> Executors(s.phases, q) - {i} == Executors(s.phases, q);
    }
    assert SlotMatches(s, i);
    ResultsKeep(s, s', i, next);
  }

  // The references to a result once interpreter i no longer executes it.
  ghost function CountIdle(s: State, i: Interp, r: ResultId): nat {
    |Owners(s.pages, r)| + (|Executors(s.phases[i := Idle], r)| + |Sleepers(s.outer, r)|)
  }

  lemma ExecutedDrops(s: State, i: Interp)
    requires Counted(s) && PhaseOf(s, i).Executing?
    ensures var result := PhaseOf(s, i).result;
            && DropResult(s, result) == s.(results := DropResult(s, result).results)
            && forall r :: CountIs(DropResult(s, result).results, r, CountIdle(s, i, r))
  {
    hide Sleepers, Holders, Owners, Executors;
    var result := PhaseOf(s, i).result;
    var n := (r: ResultId) => CountIdle(s, i, r);
    forall r: ResultId
      ensures CountIs(s.results, r, n(r) + if result == Some(r) then 1 else 0)
    {
      assert ResultCounts(s, r);
      ExecutorsUpdated(s.phases, i, Idle, r);
      if result == Some(r) {
        assert |Executors(s.phases, r) - {i}| == |Executors(s.phases, r)| - 1;
      } else {
        assert Executors(s.phases, r) - {i} == Executors(s.phases, r);
      }
    }
    DropCounts(s, result, n);
    forall r: ResultId ensures CountIs(DropResult(s, result).results, r, CountIdle(s, i, r)) {
      assert CountIs(DropResult(s, result).results, r, n(r));
    }
  }

  lemma ExecutedKeeps(s: State, i: Interp)
    requires Inv(s) && PhaseOf(s, i).Executing?
    ensures Inv(TakeExecuted(s, i, PhaseOf(s, i)))
  {
    hide Sleepers, Holders, Owners, Executors, DropResult, Tabled;
    assert SlotMatches(s, i);
    ExecutedDrops(s, i);
    var s' := To(DropResult(s, PhaseOf(s, i).result), i, Idle);
    forall r: ResultId
      ensures ResultCounts(s', r)
      ensures r >= s.nextResult ==> Executors(s'.phases, r) == {}
    {
      assert CountIs(s'.results, r, CountIdle(s, i, r));
      ExecutorsUpdated(s.phases, i, Idle, r);
    }
    ResultsKeep(s, s', i, Idle);
  }

  // The state in which a new cached result has replaced the page's old one,
  // before its scripts get objects.
  function Replaced(s: State, i: Interp): State
    requires PhaseOf(s, i).Building? && PhaseOf(s, i).page in s.pages
  {
    var f, r := PhaseOf(s, i), s.nextResult;
    var s1 := DropResult(s, s.pages[f.page].result);
    To(s1.(pages := s1.pages[f.page := s.pages[f.page].(result := Some(r), locked := false)],
           results := s1.results[r := 2], nextResult := r + 1),
       i, Executing(f.file, f.stat, f.ip, f.page, Some(r)))
  }

  // A new cached result replaces the page's old one and is executed at once.
  lemma BuiltOkKeeps(s: State, i: Interp)
    requires Inv(s) && PhaseOf(s, i).Building?
    ensures Inv(TakeBuilt(s, i, PhaseOf(s, i), true))
  {
    hide Counted, Tabled, Fresh;
    assert SlotMatches(s, i);
    ReplacedKeeps(s, i);
    OwnedDrops(s, PhaseOf(s, i).page);
    ObjsKeep(Replaced(s, i), (i, PhaseOf(s, i).file), s.nextResult);
  }

  lemma ReplacedKeeps(s: State, i: Interp)
    requires Inv(s) && PhaseOf(s, i).Building? && PhaseOf(s, i).page in s.pages
    ensures Inv(Replaced(s, i))
  {
    hide Sleepers, Holders, Owners, Executors, Tabled;
    var ph := PhaseOf(s, i);
    assert SlotMatches(s, i);
    var s' := Replaced(s, i);
    OwnedDrops(s, ph.page);
    forall q: ResultId
      ensures ResultCounts(s', q) && |Owners(s'.pages, q)| <= 1
      ensures q >= s'.nextResult ==> Owners(s'.pages, q) == {} && Executors(s'.phases, q) == {}
    {
      BuiltCounts(s, i, ph.page, q);
    }
    ResultsKeep(s, s', i, Executing(ph.file, ph.stat, ph.ip, ph.page, Some(s.nextResult)));
  }

  lemma BuiltCounts(s: State, i: Interp, p: PageId, q: ResultId)
    requires Counted(s) && Fresh(s) && p in s.pages && PhaseOf(s, i).Building? && PhaseOf(s, i).page == p
    ensures var ph := PhaseOf(s, i);
            var s' := Replaced(s, i);
            && ResultCounts(s', q) && |Owners(s'.pages, q)| <= 1
            && (q >= s'.nextResult ==> Owners(s'.pages, q) == {} && Executors(s'.phases, q) == {})
  {
    hide Sleepers, Holders, Owners, Executors, PageCounts;
    var ph := PhaseOf(s, i);
    var r := s.nextResult;
    var s' := Replaced(s, i);
    OwnedDrops(s, p);
    assert CountIs(DropResult(s, s.pages[p].result).results, q, CountWithout(s, p, q));
    BuiltOwners(s, p, s.pages[p].(result := Some(r), locked := false), q);
    OwnersWithout(s, p, q);
    ExecutorsUpdated(s.phases, i, Executing(ph.file, ph.stat, ph.ip, p, Some(r)), q);
    assert q != r ==> Executors(s'.phases, q) == Executors(s.phases, q);
  }

  lemma BuiltOwners(s: State, p: PageId, page: Page, q: ResultId)
    requires Fresh(s) && p in s.pages && page.result == Some(s.nextResult)
    ensures Owners(s.pages[p := page], q) == if q == s.nextResult then {p} else Owners(s.pages - {p}, q)
    ensures q >= s.nextResult ==> Owners(s.pages - {p}, q) == {} && Executors(s.phases, q) == {}
  {
    hide Sleepers, Owners, Executors;
    OwnersUpdated(s.pages, p, page, q);
    assert q >= s.nextResult ==> Owners(s.pages, q) == {};
  }

  lemma BuiltNotKeeps(s: State, i: Interp)
    requires Inv(s) && PhaseOf(s, i).Building?
    ensures Inv(TakeBuilt(s, i, PhaseOf(s, i), false))
  {
    hide Counted, Tabled, Fresh;
    var ph := PhaseOf(s, i);
    assert SlotMatches(s, i);
    LockKeeps(s, ph.page, false);
    PhaseKeeps(s.(pages := s.pages[ph.page := s.pages[ph.page].(locked := false)]), i,
               Executing(ph.file, ph.stat, ph.ip, ph.page, None));
  }

  lemma BeginKeeps(s: State, i: Interp, file: string, stat: Stat)
    requires Inv(s) && PhaseOf(s, i).Idle? && Spares(s, Begin(i, file, stat))
    ensures Inv(TakeBegin(s, i, file, stat))
  {
    hide Counted, Tabled, Fresh, FreeSlot;
    var slot := (i, file);
    if slot !in s.slots {
      PhaseKeeps(s, i, Seeking(file, stat));
    } else {
      SlotHolds(s, slot);
      if s.pages[s.slots[slot].page].stat == stat {
        PhaseKeeps(s, i, Holding(file, stat, s.slots[slot].id, s.slots[slot].page));
      } else {
        FreeSlotKeeps(s, slot);
        PhaseKeeps(FreeSlot(s, slot), i, Seeking(file, stat));
      }
    }
  }

  // ----------------------------------------------------- proof: nested calls

  lemma SleepersPushed(outer: map<Interp, seq<Phase>>, i: Interp, f: Phase, r: ResultId)
    requires i in outer
    ensures Sleepers(outer[i := outer[i] + [f]], r) ==
            if Executes(f, r) then Sleepers(outer, r) + {(i, |outer[i]|)} else Sleepers(outer, r)
    ensures (i, |outer[i]|) !in Sleepers(outer, r)
  {
    var outer' := outer[i := outer[i] + [f]];
    forall j, k ensures (j, k) in Sleepers(outer', r) <==> (j, k) in Sleepers(outer, r) || (j == i && k == |outer[i]| && Executes(f, r)) {
    }
  }

  lemma SleepersNew(outer: map<Interp, seq<Phase>>, i: Interp, r: ResultId)
    requires i !in outer
    ensures Sleepers(outer[i := []], r) == Sleepers(outer, r)
  {
  }

  // A call f of interpreter i moves between innermost (in a) and suspended (in b).
  ghost predicate Moved(a: State, b: State, i: Interp, f: Phase) {
    && PhaseOf(a, i) == f && (f.Building? || f.Executing?)
    && b.outer == a.outer[i := Outer(a, i) + [f]] && b.phases == a.phases[i := Idle]
    && b == a.(outer := b.outer, phases := b.phases)
  }

  lemma MovedCounts(a: State, b: State, i: Interp, f: Phase, r: ResultId)
    requires Moved(a, b, i, f)
    ensures Executions(a, r) == Executions(b, r)
    ensures Executors(a.phases, r) == {} && Sleepers(a.outer, r) == {} <==> Executors(b.phases, r) == {} && Sleepers(b.outer, r) == {}
  {
    hide Sleepers, Executors;
    var base := if i in a.outer then a.outer else a.outer[i := []];
    if i !in a.outer { SleepersNew(a.outer, i, r); }
    SleepersPushed(base, i, f, r);
    assert b.outer == base[i := base[i] + [f]];
    ExecutorsUpdated(a.phases, i, Idle, r);
    if Executes(f, r) {
      assert |Executors(a.phases, r) - {i}| == |Executors(a.phases, r)| - 1;
      assert |Sleepers(base, r) + {(i, |base[i]|)}| == |Sleepers(base, r)| + 1;
    } else {
      assert Executors(a.phases, r) - {i} == Executors(a.phases, r);
    }
  }

  lemma MovedCounted(a: State, b: State, i: Interp, f: Phase)
    requires Moved(a, b, i, f)
    ensures Counted(a) <==> Counted(b)
    ensures Fresh(a) <==> Fresh(b)
  {
    hide Sleepers, Executors, Holders, Owners;
    forall r: ResultId
      ensures ResultCounts(a, r) <==> ResultCounts(b, r)
      ensures Executors(a.phases, r) == {} && Sleepers(a.outer, r) == {} <==> Executors(b.phases, r) == {} && Sleepers(b.outer, r) == {}
    {
      MovedCounts(a, b, i, f, r);
    }
    forall p: PageId ensures PageCounts(a, p) <==> PageCounts(b, p) {
    }
  }

  lemma MovedTabled(a: State, b: State, i: Interp, f: Phase)
    requires Moved(a, b, i, f)
    ensures Tabled(a) <==> Tabled(b)
  {
    assert forall j :: j != i ==> PhaseOf(a, j) == PhaseOf(b, j);
    if Tabled(a) {
      forall p: PageId, file ensures EntryMatches(b, p, file) { assert EntryMatches(a, p, file); }
      TabledSame(a, b, i);
    }
    if Tabled(b) {
      forall p: PageId, file ensures EntryMatches(a, p, file) { assert EntryMatches(b, p, file); }
      TabledSame(b, a, i);
    }
  }

  lemma SuspendKeeps(s: State, i: Interp)
    requires Inv(s) && (PhaseOf(s, i).Building? || PhaseOf(s, i).Executing?) && Readable(s, i, PhaseOf(s, i))
    ensures Inv(TakeSuspend(s, i))
  {
    hide Counted, Tabled, Fresh;
    var s' := TakeSuspend(s, i);
    MovedCounted(s, s', i, PhaseOf(s, i));
    MovedTabled(s, s', i, PhaseOf(s, i));
    forall j ensures SlotMatches(s', j) {
      assert SlotMatches(s, j);
      forall k ensures OuterMatches(s', j, k) {
        assert OuterMatches(s, j, k);
      }
    }
  }

  lemma ResumeKeeps(s: State, i: Interp)
    requires Inv(s) && PhaseOf(s, i).Idle? && Outer(s, i) != []
    ensures Inv(TakeResume(s, i))
  {
    hide Counted, Tabled, Fresh;
    var s' := TakeResume(s, i);
    var n := |Outer(s, i)| - 1;
    var f := Outer(s, i)[n];
    assert SlotMatches(s, i) && OuterMatches(s, i, n);
    ResumeMoves(s, i);
    var b := To(s, i, Idle);
    MovedCounted(s', b, i, f);
    MovedTabled(s', b, i, f);
    IdleAlready(s, i);
    forall j ensures SlotMatches(s', j) {
      assert SlotMatches(s, j);
      forall k ensures OuterMatches(s', j, k) {
        assert OuterMatches(s, j, k);
      }
    }
  }

  lemma ResumeMoves(s: State, i: Interp)
    requires PhaseOf(s, i).Idle? && Outer(s, i) != []
    requires var f := Outer(s, i)[|Outer(s, i)| - 1]; f.Building? || f.Executing?
    ensures Moved(TakeResume(s, i), To(s, i, Idle), i, Outer(s, i)[|Outer(s, i)| - 1])
  {
    var st, s' := Outer(s, i), TakeResume(s, i);
    assert st[..|st| - 1] + [st[|st| - 1]] == st;
    assert s'.outer[i := st] == s.outer;
  }

  // Noting that an interpreter is idle changes nothing.
  lemma IdleAlready(s: State, i: Interp)
    requires PhaseOf(s, i).Idle?
    ensures Counted(s) ==> Counted(To(s, i, Idle))
    ensures Fresh(s) ==> Fresh(To(s, i, Idle))
    ensures Tabled(s) ==> Tabled(To(s, i, Idle))
  {
    hide Sleepers, Holders, Owners, Executors;
    var s' := To(s, i, Idle);
    forall r: ResultId ensures Executors(s'.phases, r) == Executors(s.phases, r) {
      ExecutorsSame(s, i, Idle, r);
    }
    forall p: PageId ensures PageCounts(s, p) <==> PageCounts(s', p) {
    }
    forall r: ResultId ensures ResultCounts(s, r) <==> ResultCounts(s', r) {
    }
    if Tabled(s) {
      forall p: PageId, file ensures EntryMatches(s', p, file) { assert EntryMatches(s, p, file); }
      TabledSame(s, s', i);
    }
  }

  // -------------------------------------------------------------------- runs

  // A step keeps the invariant if it frees no interpreter page of a suspended
  // call and starts no script whose objects were freed.
  lemma StepKeeps(s: State, step: Step)
    requires Inv(s) && Spares(s, step) && (step.Suspend? ==> Readable(s, step.i, PhaseOf(s, step.i)))
    ensures Inv(Take(s, step))
  {
    hide Inv, TakeBegin, TakeSeek, TakeParsed, TakeDecide, TakeBuilt, TakeExecuted, TakeSuspend, TakeResume, FreeSlot;
    var ph := PhaseOf(s, step.i);
    match step
    case Begin(i, file, stat) => if ph.Idle? { BeginKeeps(s, i, file, stat); }
    case Seek(i) => if ph.Seeking? { SeekKeeps(s, i); }
    case Parsed(i, ok) => if ph.Parsing? { if ok { ParsedOkKeeps(s, i); } else { ParsedNotKeeps(s, i); } }
    case Decide(i, caching, expired) => if ph.Holding? { DecideKeeps(s, i, caching, expired); }
    case Built(i, ok) => if ph.Building? { if ok { BuiltOkKeeps(s, i); } else { BuiltNotKeeps(s, i); } }
    case Executed(i) => if ph.Executing? { ExecutedKeeps(s, i); }
    case Suspend(i) => if ph.Building? || ph.Executing? { SuspendKeeps(s, i); }
    case Resume(i) => if ph.Idle? && Outer(s, i) != [] { ResumeKeeps(s, i); }
    case Evict(i, file) => if Freed(s, step).Some? { FreeSlotKeeps(s, (i, file)); }
  }

  lemma StartInv()
    ensures Inv(START)
  {
    assert forall i :: PhaseOf(START, i) == Idle && Outer(START, i) == [];
    assert forall p :: Holders(START.slots, p) == {};
    assert forall r :: Owners(START.pages, r) == {} && Executors(START.phases, r) == {} && Sleepers(START.outer, r) == {};
  }
}

/**
  The table of compiled ADP pages and their cached results (AdpSource,
  FreeInterpPage and DecrCache in nsd/adpeval.c) in every interleaving.

  Interpreters share the page table.  Each keeps its own slots, file by file,
  with an interpreter page that refers to a page; a page keeps at most one
  cached result.  The page lock is held for the length of a step and dropped
  between steps: while an interpreter waits, parses a file, builds a cached
  result, or executes.  A script that is executed may include further files:
  the frame of the including page is then suspended below the new one.
*/
module AdpPages {
  import opened Basics

  type Interp = nat
  type PageId = nat
  type ResultId = nat
  type Slot = (Interp, string)

  // What identifies a version of a file: mtime, size, device, inode, flags.
  datatype Stat = Stat(mtime: int, size: nat, dev: int, ino: int, flags: nat)

  datatype Page = Page(
    stat: Stat,
    refcnt: nat,
    entry: Option<string>,      // hPtr: the table entry whose value it is
    result: Option<ResultId>,   // cachePtr
    locked: bool
  )

  // An interpreter page; id tells it from others that were in its slot, and objs
  // the cached result whose script objects it keeps (cacheGen and cacheObjs).
  datatype Ipage = Ipage(id: nat, page: PageId, objs: Option<ResultId>)

  // A call of AdpSource.
  datatype Phase =
    | Idle
    | Seeking(file: string, stat: Stat)     // about to look at the table, or waiting to
    | Parsing(file: string, stat: Stat)
    | Holding(file: string, stat: Stat, ip: nat, page: PageId)    // about to decide, or waiting to
    | Building(file: string, stat: Stat, ip: nat, page: PageId)
    | Executing(file: string, stat: Stat, ip: nat, page: PageId, result: Option<ResultId>)

  datatype State = State(
    table: map<string, Option<PageId>>,     // None: being parsed
    pages: map<PageId, Page>,
    results: map<ResultId, nat>,            // reference counts of cached results
    slots: map<Slot, Ipage>,
    phases: map<Interp, Phase>,             // the innermost calls
    outer: map<Interp, seq<Phase>>,         // calls whose scripts are running, outermost first
    nextPage: PageId,
    nextResult: ResultId,
    nextIpage: nat,
    dangling: bool,                         // something was used after it was freed
    nullObjs: bool                          // FreeObjs was called without objects
  )

  datatype Step =
    | Begin(i: Interp, file: string, stat: Stat)
    | Seek(i: Interp)
    | Parsed(i: Interp, ok: bool)
    | Decide(i: Interp, caching: bool, expired: bool)
    | Built(i: Interp, ok: bool)
    | Executed(i: Interp)
    | Suspend(i: Interp)                    // a script of the innermost call starts
    | Resume(i: Interp)                     // and ends
    | Evict(i: Interp, file: string)

  function PhaseOf(s: State, i: Interp): Phase {
    if i in s.phases then s.phases[i] else Idle
  }

  function Outer(s: State, i: Interp): seq<Phase> {
    if i in s.outer then s.outer[i] else []
  }

  function FileOf(f: Phase): Option<string> {
    if f.Idle? then None else Some(f.file)
  }

  // The call holds an interpreter page.
  predicate Uses(p: Phase) {
    p.Holding? || p.Building? || p.Executing?
  }

  // The interpreter page of a call is still there.
  predicate Lives(s: State, i: Interp, f: Phase) {
    Uses(f) ==> (i, f.file) in s.slots && s.slots[(i, f.file)].id == f.ip
  }

  // The objects for the scripts of a call are still there.
  predicate Readable(s: State, i: Interp, f: Phase) {
    Lives(s, i, f) && (f.Executing? && f.result.Some? ==> s.slots[(i, f.file)].objs == f.result)
  }

  function To(s: State, i: Interp, p: Phase): State {
    s.(phases := s.phases[i := p])
  }

  // ------------------------------------------------------------------ counts

  // DecrCache
  function Decr(results: map<ResultId, nat>, r: ResultId): map<ResultId, nat>
    requires r in results
  {
    if results[r] <= 1 then results - {r} else results[r := results[r] - 1]
  }

  function DropResult(s: State, r: Option<ResultId>): State {
    if r.None? then s
    else if r.value !in s.results then s.(dangling := true)
    else s.(results := Decr(s.results, r.value))
  }

  // FreeInterpPage on the interpreter page in a slot.
  function FreeSlot(s: State, slot: Slot): State
    requires slot in s.slots
  {
    var p := s.slots[slot].page;
    var s1 := s.(slots := s.slots - {slot});
    if p !in s.pages then s1.(dangling := true)
    else
      var page := s.pages[p];
      if page.refcnt > 1 then s1.(pages := s.pages[p := page.(refcnt := page.refcnt - 1)])
      else
        var table := if page.entry.Some? then s.table - {page.entry.value} else s.table;
        DropResult(s1.(pages := s.pages - {p}, table := table,
                       nullObjs := s.nullObjs || (page.result.Some? && s.slots[slot].objs.None?)),
                   page.result)
  }

  // A new interpreter page for page p in a slot.
  function FillSlot(s: State, slot: Slot, p: PageId): State
    requires p in s.pages
  {
    s.(pages := s.pages[p := s.pages[p].(refcnt := s.pages[p].refcnt + 1)],
       slots := s.slots[slot := Ipage(s.nextIpage, p, None)], nextIpage := s.nextIpage + 1)
  }

  // The interpreter page in a slot gets objects for the scripts of a cached
  // result; those of an older one are freed.
  function GiveObjs(s: State, slot: Slot, r: ResultId): State
    requires slot in s.slots
  {
    s.(slots := s.slots[slot := s.slots[slot].(objs := Some(r))])
  }

  // ------------------------------------------------------------------- steps

  // Looks for the page in the interpreter's own slots.
  function TakeBegin(s: State, i: Interp, file: string, stat: Stat): State {
    var slot := (i, file);
    if slot !in s.slots then To(s, i, Seeking(file, stat))
    else
      var ip := s.slots[slot];
      if ip.page !in s.pages then s.(dangling := true)
      else if s.pages[ip.page].stat == stat then To(s, i, Holding(file, stat, ip.id, ip.page))
      else To(FreeSlot(s, slot), i, Seeking(file, stat))
  }

  // Looks for the page in the table; a page being parsed makes it wait.
  function TakeSeek(s: State, i: Interp, file: string, stat: Stat): State {
    if file !in s.table then To(s.(table := s.table[file := None]), i, Parsing(file, stat))
    else if s.table[file].None? then s
    else
      var p := s.table[file].value;
      if p !in s.pages then s.(dangling := true)
      else if s.pages[p].stat != stat then
        To(s.(table := s.table[file := None], pages := s.pages[p := s.pages[p].(entry := None)]), i, Parsing(file, stat))
      else To(FillSlot(s, (i, file), p), i, Holding(file, stat, s.nextIpage, p))
  }

  function TakeParsed(s: State, i: Interp, file: string, stat: Stat, ok: bool): State {
    if !ok then To(s.(table := s.table - {file}), i, Idle)
    else
      var p := s.nextPage;
      var s1 := s.(pages := s.pages[p := Page(stat, 0, Some(file), None, false)],
                   table := s.table[file := Some(p)], nextPage := p + 1);
      To(FillSlot(s1, (i, file), p), i, Holding(file, stat, s.nextIpage, p))
  }

  // Chooses between the page's code, a new cached result and the present one.
  function TakeDecide(s: State, i: Interp, f: Phase, caching: bool, expired: bool): State
    requires f.Holding?
  {
    if !Lives(s, i, f) || f.page !in s.pages then s.(dangling := true)
    else
      var page := s.pages[f.page];
      if !caching then To(s, i, Executing(f.file, f.stat, f.ip, f.page, None))
      else if page.result.None? then
        if page.locked then s else To(s, i, Building(f.file, f.stat, f.ip, f.page))
      else if !page.locked && expired then
        To(s.(pages := s.pages[f.page := page.(locked := true)]), i, Building(f.file, f.stat, f.ip, f.page))
      else if page.result.value !in s.results then s.(dangling := true)
      else
        var r := page.result.value;
        To(GiveObjs(s.(results := s.results[r := s.results[r] + 1]), (i, f.file), r), i,
           Executing(f.file, f.stat, f.ip, f.page, Some(r)))
  }

  function TakeBuilt(s: State, i: Interp, f: Phase, ok: bool): State
    requires f.Building?
  {
    if !Lives(s, i, f) || f.page !in s.pages then s.(dangling := true)
    else if !ok then
      To(s.(pages := s.pages[f.page := s.pages[f.page].(locked := false)]), i,
         Executing(f.file, f.stat, f.ip, f.page, None))
    else
      var r := s.nextResult;
      var page := s.pages[f.page].(result := Some(r), locked := false);
      var s1 := DropResult(s, s.pages[f.page].result);
      To(GiveObjs(s1.(pages := s1.pages[f.page := page], results := s1.results[r := 2], nextResult := r + 1), (i, f.file), r),
         i, Executing(f.file, f.stat, f.ip, f.page, Some(r)))
  }

  function TakeExecuted(s: State, i: Interp, f: Phase): State
    requires f.Executing?
  {
    if !Lives(s, i, f) || f.page !in s.pages then To(s.(dangling := true), i, Idle)
    else To(DropResult(s, f.result), i, Idle)
  }

  // A script starts, with its object.
  function TakeSuspend(s: State, i: Interp): State {
    To(s.(outer := s.outer[i := Outer(s, i) + [PhaseOf(s, i)]], dangling := s.dangling || !Readable(s, i, PhaseOf(s, i))),
       i, Idle)
  }

  function TakeResume(s: State, i: Interp): State
    requires Outer(s, i) != []
  {
    var n := |Outer(s, i)| - 1;
    To(s.(outer := s.outer[i := Outer(s, i)[..n]]), i, Outer(s, i)[n])
  }

  // The slot whose interpreter page a step frees, if it frees one.
  function Freed(s: State, step: Step): Option<Slot> {
    var ph := PhaseOf(s, step.i);
    match step
    case Begin(i, file, stat) =>
      var slot := (i, file);
      if ph.Idle? && slot in s.slots && s.slots[slot].page in s.pages && s.pages[s.slots[slot].page].stat != stat
      then Some(slot) else None
    case Evict(i, file) =>
      if (i, file) in s.slots && !(Uses(ph) && ph.file == file) then Some((i, file)) else None
    case _ => None
  }

  function Take(s: State, step: Step): State {
    var ph := PhaseOf(s, step.i);
    match step
    case Begin(i, file, stat) => if !ph.Idle? then s else TakeBegin(s, i, file, stat)
    case Seek(i) => if !ph.Seeking? then s else TakeSeek(s, i, ph.file, ph.stat)
    case Parsed(i, ok) => if !ph.Parsing? then s else TakeParsed(s, i, ph.file, ph.stat, ok)
    case Decide(i, caching, expired) => if !ph.Holding? then s else TakeDecide(s, i, ph, caching, expired)
    case Built(i, ok) => if !ph.Building? then s else TakeBuilt(s, i, ph, ok)
    case Executed(i) => if !ph.Executing? then s else TakeExecuted(s, i, ph)
    case Suspend(i) => if !(ph.Building? || ph.Executing?) then s else TakeSuspend(s, i)
    case Resume(i) => if !ph.Idle? || Outer(s, i) == [] then s else TakeResume(s, i)
    case Evict(i, file) => if Freed(s, step).None? then s else FreeSlot(s, (i, file))
  }

  function Run(s: State, steps: seq<Step>): State
    decreases |steps|
  {
    if steps == [] then s else Run(Take(s, steps[0]), steps[1..])
  }

  const START: State := State(map[], map[], map[], map[], map[], map[], 0, 0, 0, false, false)

  // A suspended call of the slot's interpreter is for the slot's file.
  predicate Sleeping(s: State, slot: Slot) {
    exists k :: 0 <= k < |Outer(s, slot.0)| && FileOf(Outer(s, slot.0)[k]) == Some(slot.1)
  }

  // The step frees no interpreter page of a suspended call.
  predicate Spares(s: State, step: Step) {
    Freed(s, step).Some? ==> !Sleeping(s, Freed(s, step).value)
  }

  // --------------------------------------------------------------- invariant

  function Holders(slots: map<Slot, Ipage>, p: PageId): set<Slot> {
    set k | k in slots && slots[k].page == p
  }

  function Owners(pages: map<PageId, Page>, r: ResultId): set<PageId> {
    set p | p in pages && pages[p].result == Some(r)
  }

  predicate Executes(f: Phase, r: ResultId) {
    f.Executing? && f.result == Some(r)
  }

  function Executors(phases: map<Interp, Phase>, r: ResultId): set<Interp> {
    set i | i in phases && Executes(phases[i], r)
  }

  // The suspended calls that execute a cached result, with their depths.
  function Sleepers(outer: map<Interp, seq<Phase>>, r: ResultId): set<(Interp, int)> {
    set i, k | i in outer && 0 <= k < |outer[i]| && Executes(outer[i][k], r) :: (i, k)
  }

  // A page lives exactly while slots refer to it, and counts them.
  ghost predicate PageCounts(s: State, p: PageId) {
    && (p in s.pages <==> Holders(s.slots, p) != {})
    && (p in s.pages ==> s.pages[p].refcnt == |Holders(s.slots, p)|)
  }

  ghost predicate CountIs(results: map<ResultId, nat>, r: ResultId, n: nat) {
    (r in results <==> n > 0) && (r in results ==> results[r] == n)
  }

  // The calls that execute cached result r, innermost or suspended.
  ghost function Executions(s: State, r: ResultId): nat {
    |Executors(s.phases, r)| + |Sleepers(s.outer, r)|
  }

  ghost predicate ResultCounts(s: State, r: ResultId) {
    CountIs(s.results, r, |Owners(s.pages, r)| + Executions(s, r))
  }

  // A page refers to a table entry exactly if it is that entry's value.
  ghost predicate EntryMatches(s: State, p: PageId, file: string) {
    (p in s.pages && s.pages[p].entry == Some(file)) <==> (file in s.table && s.table[file] == Some(p))
  }

  // An entry without a value has exactly one parser.
  ghost predicate ParserMatches(s: State, i: Interp) {
    var ph := PhaseOf(s, i);
    ph.Parsing? ==> ph.file in s.table && s.table[ph.file].None?
  }

  ghost predicate Parses(s: State, i: Interp, file: string) {
    PhaseOf(s, i).Parsing? && PhaseOf(s, i).file == file
  }

  ghost predicate OneParser(s: State) {
    forall i, j, file :: Parses(s, i, file) && Parses(s, j, file) ==> i == j
  }

  ghost predicate HasParser(s: State, file: string) {
    exists i :: Parses(s, i, file)
  }

  // A call's interpreter page is in its slot, with a page of the call's stat.
  ghost predicate FrameMatches(s: State, i: Interp, f: Phase) {
    Uses(f) ==> Lives(s, i, f) && s.slots[(i, f.file)].page == f.page &&
                f.page in s.pages && s.pages[f.page].stat == f.stat
  }

  ghost predicate OuterMatches(s: State, i: Interp, k: int) {
    0 <= k < |Outer(s, i)| ==>
      (Outer(s, i)[k].Building? || Outer(s, i)[k].Executing?) && FrameMatches(s, i, Outer(s, i)[k])
  }

  ghost predicate TopMatches(s: State, i: Interp, f: Phase) {
    (f.Seeking? || f.Parsing? ==> (i, f.file) !in s.slots) && FrameMatches(s, i, f)
  }

  // The calls of an interpreter, innermost and suspended.
  ghost predicate SlotMatches(s: State, i: Interp) {
    TopMatches(s, i, PhaseOf(s, i)) && forall k :: OuterMatches(s, i, k)
  }

  ghost predicate Fresh(s: State) {
    && (forall p :: p in s.pages ==> p < s.nextPage)
    && (forall r :: r >= s.nextResult ==> Owners(s.pages, r) == {} && Executors(s.phases, r) == {} && Sleepers(s.outer, r) == {})
    && (forall k :: k in s.slots ==> s.slots[k].id < s.nextIpage)
  }

  ghost predicate Counted(s: State) {
    && (forall p :: PageCounts(s, p))
    && (forall r :: ResultCounts(s, r))
    && (forall r :: |Owners(s.pages, r)| <= 1)
  }

  ghost predicate Tabled(s: State) {
    && (forall p, file :: EntryMatches(s, p, file))
    && (forall i :: ParserMatches(s, i))
    && OneParser(s)
    && (forall file :: file in s.table && s.table[file].None? ==> HasParser(s, file))
  }

  ghost predicate Inv(s: State) {
    !s.dangling && Counted(s) && Tabled(s) && Fresh(s) && forall i :: SlotMatches(s, i)
  }

  // ------------------------------------------------- proof: what is left alone

  lemma DropOuter(s: State, r: Option<ResultId>)
    ensures var t := DropResult(s, r);
            && t.outer == s.outer && t.slots == s.slots && t.pages == s.pages && t.phases == s.phases && t.table == s.table
            && t.nextIpage == s.nextIpage && t.nullObjs == s.nullObjs && (s.dangling ==> t.dangling)
  {
    if r.Some? {
      if r.value in s.results {
        if s.results[r.value] <= 1 {} else {}
      }
    }
  }

  lemma FreeFields(s: State, slot: Slot)
    requires slot in s.slots
    ensures var t, ip := FreeSlot(s, slot), s.slots[slot];
            && t.slots == s.slots - {slot} && t.phases == s.phases && t.outer == s.outer
            && t.nextIpage == s.nextIpage && (s.dangling ==> t.dangling)
            && (t.nullObjs <==> s.nullObjs || (ip.page in s.pages && s.pages[ip.page].refcnt <= 1 &&
                                               s.pages[ip.page].result.Some? && ip.objs.None?))
  {
    hide DropResult;
    var p := s.slots[slot].page;
    var s1 := s.(slots := s.slots - {slot});
    if p in s.pages {
      var page := s.pages[p];
      if page.refcnt <= 1 {
        var table := if page.entry.Some? then s.table - {page.entry.value} else s.table;
        DropOuter(s1.(pages := s.pages - {p}, table := table,
                      nullObjs := s.nullObjs || (page.result.Some? && s.slots[slot].objs.None?)), page.result);
      }
    }
  }

  // ------------------------------------------------- proof: counting the sets

  lemma HoldersFilled(slots: map<Slot, Ipage>, k: Slot, ip: Ipage, q: PageId)
    requires k !in slots
    ensures Holders(slots[k := ip], q) == if q == ip.page then Holders(slots, q) + {k} else Holders(slots, q)
    ensures k !in Holders(slots, q)
  {
  }

  lemma HoldersFreed(slots: map<Slot, Ipage>, k: Slot, q: PageId)
    requires k in slots
    ensures Holders(slots - {k}, q) == Holders(slots, q) - {k}
    ensures (k in Holders(slots, q)) == (slots[k].page == q)
  {
  }

  lemma OwnersUpdated(pages: map<PageId, Page>, p: PageId, page: Page, r: ResultId)
    ensures Owners(pages[p := page], r) == if page.result == Some(r) then Owners(pages, r) + {p} else Owners(pages, r) - {p}
    ensures Owners(pages - {p}, r) == Owners(pages, r) - {p}
    ensures (p in Owners(pages, r)) == (p in pages && pages[p].result == Some(r))
  {
  }

  lemma ExecutorsUpdated(phases: map<Interp, Phase>, i: Interp, ph: Phase, r: ResultId)
    ensures Executors(phases[i := ph], r) ==
            if Executes(ph, r) then Executors(phases, r) + {i} else Executors(phases, r) - {i}
    ensures (i in Executors(phases, r)) == (i in phases && Executes(phases[i], r))
  {
  }

  // A phase without a cached result neither before nor after.
  lemma ExecutorsSame(s: State, i: Interp, ph: Phase, r: ResultId)
    requires !(ph.Executing? && ph.result.Some?) && !(PhaseOf(s, i).Executing? && PhaseOf(s, i).result.Some?)
    ensures Executors(s.phases[i := ph], r) == Executors(s.phases, r)
  {
    ExecutorsUpdated(s.phases, i, ph, r);
  }

  lemma OwnersSame(pages: map<PageId, Page>, p: PageId, page: Page, r: ResultId)
    requires p in pages && page.result == pages[p].result
    ensures Owners(pages[p := page], r) == Owners(pages, r)
  {
  }

  // --------------------------------------------- proof: changes of one phase

  lemma PhasesElsewhere(s: State, s': State, i: Interp, ph: Phase)
    requires s'.phases == s.phases[i := ph]
    ensures PhaseOf(s', i) == ph && forall j :: j != i ==> PhaseOf(s', j) == PhaseOf(s, j)
  {
  }

  // Only the phase changes, between phases that neither parse nor execute a
  // cached result.
  lemma PhaseKeeps(s: State, i: Interp, ph: Phase)
    requires Inv(s) && !PhaseOf(s, i).Parsing? && !ph.Parsing?
    requires !(ph.Executing? && ph.result.Some?) && !(PhaseOf(s, i).Executing? && PhaseOf(s, i).result.Some?)
    requires TopMatches(s, i, ph)
    ensures Inv(To(s, i, ph))
  {
    hide Sleepers, Holders, Owners, Executors;
    var s' := To(s, i, ph);
    PhasesElsewhere(s, s', i, ph);
    forall r
      ensures Executors(s'.phases, r) == Executors(s.phases, r)
    {
      ExecutorsSame(s, i, ph, r);
    }
    forall p ensures PageCounts(s', p) {
      assert PageCounts(s, p);
    }
    forall r ensures ResultCounts(s', r) {
      assert ResultCounts(s, r);
    }
    forall p, file ensures EntryMatches(s', p, file) {
      assert EntryMatches(s, p, file);
    }
    TabledSame(s, s', i);
    forall j ensures SlotMatches(s', j) {
      assert SlotMatches(s, j);
      forall k ensures OuterMatches(s', j, k) {
        assert OuterMatches(s, j, k);
      }
    }
  }

  // The table side does not notice a phase that does not parse.
  lemma TabledSame(s: State, s': State, i: Interp)
    requires Tabled(s) && s'.table == s.table
    requires forall p, file :: EntryMatches(s', p, file)
    requires forall j :: j != i ==> PhaseOf(s', j) == PhaseOf(s, j)
    requires !PhaseOf(s, i).Parsing? && !PhaseOf(s', i).Parsing?
    ensures Tabled(s')
  {
    forall j ensures ParserMatches(s', j) {
      assert ParserMatches(s, j);
    }
    forall j, file ensures Parses(s', j, file) == Parses(s, j, file) {}
    forall file | file in s'.table && s'.table[file].None?
      ensures HasParser(s', file)
    {
      assert HasParser(s, file);
      var j :| Parses(s, j, file);
      assert Parses(s', j, file);
    }
  }

  // -------------------------------------------------- proof: giving up a slot

  // The slot is not the one its interpreter is working with.
  ghost predicate Unused(s: State, slot: Slot) {
    (Uses(PhaseOf(s, slot.0)) ==> PhaseOf(s, slot.0).file != slot.1) && !Sleeping(s, slot)
  }

  lemma SlotHolds(s: State, slot: Slot)
    requires Counted(s) && slot in s.slots
    ensures var p := s.slots[slot].page;
            slot in Holders(s.slots, p) && p in s.pages && s.pages[p].refcnt == |Holders(s.slots, p)| > 0
  {
    var p := s.slots[slot].page;
    assert slot in Holders(s.slots, p);
    assert PageCounts(s, p);
  }

  lemma FreeSlotMore(s: State, slot: Slot)
    requires Inv(s) && slot in s.slots && Unused(s, slot)
    requires s.slots[slot].page in s.pages && s.pages[s.slots[slot].page].refcnt > 1
    ensures Inv(FreeSlot(s, slot))
  {
    hide Counted, Fresh, Holders, DropResult;
    var s' := FreeSlot(s, slot);
    FreeSlotCounts(s, slot);
    forall q, file ensures EntryMatches(s', q, file) {
      assert EntryMatches(s, q, file);
    }
    assert forall j :: PhaseOf(s', j) == PhaseOf(s, j);
    TabledSamePhases(s, s');
    forall j ensures SlotMatches(s', j) {
      assert SlotMatches(s, j);
      forall k ensures OuterMatches(s', j, k) {
        assert OuterMatches(s, j, k);
      }
    }
  }

  lemma FreeSlotCounts(s: State, slot: Slot)
    requires Counted(s) && Fresh(s) && !s.dangling && slot in s.slots
    requires s.slots[slot].page in s.pages && s.pages[s.slots[slot].page].refcnt > 1
    ensures var s' := FreeSlot(s, slot); Counted(s') && Fresh(s') && !s'.dangling
  {
    hide Sleepers, Holders, Owners, Executors, DropResult;
    var p := s.slots[slot].page;
    var s' := FreeSlot(s, slot);
    SlotHolds(s, slot);
    forall q ensures PageCounts(s', q) {
      assert PageCounts(s, q);
      HoldersFreed(s.slots, slot, q);
      if q == p {
        assert |Holders(s.slots, p)| == |Holders(s.slots, p) - {slot}| + 1;
      }
    }
    forall r ensures Owners(s'.pages, r) == Owners(s.pages, r) && ResultCounts(s', r) {
      OwnersSame(s.pages, p, s'.pages[p], r);
      assert ResultCounts(s, r);
    }
  }

  // No phase changes, and the table keeps its entries without a value.
  lemma TabledSamePhases(s: State, s': State)
    requires Tabled(s) && forall j :: PhaseOf(s', j) == PhaseOf(s, j)
    requires forall p, file :: EntryMatches(s', p, file)
    requires forall file :: (file in s'.table && s'.table[file].None?) <==> (file in s.table && s.table[file].None?)
    ensures Tabled(s')
  {
    forall j ensures ParserMatches(s', j) {
      assert ParserMatches(s, j);
    }
    assert forall j, file :: Parses(s', j, file) == Parses(s, j, file);
    forall file | file in s'.table && s'.table[file].None?
      ensures HasParser(s', file)
    {
      assert HasParser(s, file);
      var j :| Parses(s, j, file);
      assert Parses(s', j, file);
    }
  }

  // The last slot of a page: the page goes, and with it its table entry, if it
  // is the current page of the file, and its hold on its cached result.
  lemma LastSlotCounts(s: State, slot: Slot)
    requires Inv(s) && slot in s.slots && Unused(s, slot)
    requires s.slots[slot].page in s.pages && s.pages[s.slots[slot].page].refcnt == 1
    ensures var s' := FreeSlot(s, slot);
            && !s'.dangling && Counted(s') && Fresh(s') && s'.slots == s.slots - {slot}
            && s'.pages == s.pages - {s.slots[slot].page} && s'.phases == s.phases && s'.outer == s.outer
  {
    hide Sleepers, Holders, Owners, Executors;
    var p := s.slots[slot].page;
    var s' := FreeSlot(s, slot);
    LastSlotPages(s, slot);
    LastSlotFields(s, slot);
    LastSlotResults(s, slot);
    forall q: PageId ensures PageCounts(s', q) {
      assert PageCounts(s.(slots := s.slots - {slot}, pages := s.pages - {p}), q);
    }
    forall r: ResultId ensures Owners(s'.pages, r) <= Owners(s.pages, r) {
      OwnersWithout(s, p, r);
    }
  }

  lemma LastSlotPages(s: State, slot: Slot)
    requires Counted(s) && slot in s.slots
    requires s.slots[slot].page in s.pages && s.pages[s.slots[slot].page].refcnt == 1
    ensures forall q :: PageCounts(s.(slots := s.slots - {slot}, pages := s.pages - {s.slots[slot].page}), q)
  {
    hide Holders;
    var p := s.slots[slot].page;
    var s1 := s.(slots := s.slots - {slot}, pages := s.pages - {p});
    SlotHolds(s, slot);
    assert Holders(s.slots, p) == {slot} by {
      assert |Holders(s.slots, p) - {slot}| == 0;
    }
    forall q: PageId ensures PageCounts(s1, q) {
      assert PageCounts(s, q);
      HoldersFreed(s.slots, slot, q);
    }
  }

  lemma LastSlotFields(s: State, slot: Slot)
    requires Counted(s) && !s.dangling && slot in s.slots
    requires s.slots[slot].page in s.pages && s.pages[s.slots[slot].page].refcnt == 1
    ensures var s', p := FreeSlot(s, slot), s.slots[slot].page;
            && s'.pages == s.pages - {p} && s'.slots == s.slots - {slot}
            && s'.phases == s.phases && s'.outer == s.outer && s'.nextPage == s.nextPage && s'.nextResult == s.nextResult
            && s'.nextIpage == s.nextIpage && !s'.dangling
            && s'.results == DropResult(s, s.pages[p].result).results
  {
    hide Counted;
    var p := s.slots[slot].page;
    OwnedDrops(s, p);
    if s.pages[p].result.Some? {
      if s.pages[p].result.value in s.results {}
    }
  }

  lemma LastSlotResults(s: State, slot: Slot)
    requires Counted(s) && !s.dangling && slot in s.slots
    requires s.slots[slot].page in s.pages && s.pages[s.slots[slot].page].refcnt == 1
    ensures forall r :: ResultCounts(FreeSlot(s, slot), r) && |Owners(FreeSlot(s, slot).pages, r)| <= 1
  {
    hide Sleepers, Holders, Owners, Executors, FreeSlot, DropResult;
    var p, s' := s.slots[slot].page, FreeSlot(s, slot);
    LastSlotFields(s, slot);
    OwnedDrops(s, p);
    forall r: ResultId ensures ResultCounts(s', r) && |Owners(s'.pages, r)| <= 1 {
      OwnersWithout(s, p, r);
      assert CountIs(s'.results, r, CountWithout(s, p, r));
    }
  }

  // One reference less to a result, if any.
  lemma DropCounts(s: State, result: Option<ResultId>, n: ResultId -> nat)
    requires forall r: ResultId :: CountIs(s.results, r, n(r) + if result == Some(r) then 1 else 0)
    ensures DropResult(s, result) == s.(results := DropResult(s, result).results)
    ensures forall r: ResultId :: CountIs(DropResult(s, result).results, r, n(r))
  {
    if result.Some? {
      assert CountIs(s.results, result.value, n(result.value) + 1);
    }
    forall r: ResultId ensures CountIs(DropResult(s, result).results, r, n(r)) {
      assert CountIs(s.results, r, n(r) + if result == Some(r) then 1 else 0);
    }
  }

  lemma OwnersWithout(s: State, p: PageId, r: ResultId)
    requires Counted(s) && p in s.pages
    ensures |Owners(s.pages, r)| == |Owners(s.pages - {p}, r)| + if s.pages[p].result == Some(r) then 1 else 0
    ensures |Owners(s.pages - {p}, r)| <= 1 && Owners(s.pages - {p}, r) <= Owners(s.pages, r)
  {
    hide Owners;
    assert |Owners(s.pages, r)| <= 1;
    OwnersUpdated(s.pages, p, s.pages[p], r);
    if s.pages[p].result == Some(r) {
      assert |Owners(s.pages, r) - {p}| == |Owners(s.pages, r)| - 1;
    } else {
      assert Owners(s.pages, r) - {p} == Owners(s.pages, r);
    }
  }

  // Without page p, result q has so many references.
  ghost function CountWithout(s: State, p: PageId, q: ResultId): nat {
    |Owners(s.pages - {p}, q)| + Executions(s, q)
  }

  // The page's reference to its result is dropped.
  lemma OwnedDrops(s: State, p: PageId)
    requires Counted(s) && p in s.pages
    ensures var s1 := DropResult(s, s.pages[p].result);
            && s1 == s.(results := s1.results)
            && forall q :: CountIs(s1.results, q, CountWithout(s, p, q))
  {
    hide Sleepers, Holders, Owners, Executors;
    var n := (q: ResultId) => CountWithout(s, p, q);
    forall q: ResultId
      ensures CountIs(s.results, q, n(q) + if s.pages[p].result == Some(q) then 1 else 0)
    {
      assert ResultCounts(s, q);
      OwnersWithout(s, p, q);
    }
    DropCounts(s, s.pages[p].result, n);
    forall q: ResultId
      ensures CountIs(DropResult(s, s.pages[p].result).results, q, CountWithout(s, p, q))
    {
      assert CountIs(DropResult(s, s.pages[p].result).results, q, n(q));
    }
  }

  lemma FreeSlotLast(s: State, slot: Slot)
    requires Inv(s) && slot in s.slots && Unused(s, slot)
    requires s.slots[slot].page in s.pages && s.pages[s.slots[slot].page].refcnt == 1
    ensures Inv(FreeSlot(s, slot))
  {
    hide Sleepers, Holders, Owners, Executors, Counted, Fresh;
    var p := s.slots[slot].page;
    var page := s.pages[p];
    var s' := FreeSlot(s, slot);
    LastSlotCounts(s, slot);
    LastSlotOnly(s, slot);
    forall file
      ensures file in s'.table <==> file in s.table && s.table[file] != Some(p)
      ensures file in s'.table ==> s'.table[file] == s.table[file]
    {
      assert EntryMatches(s, p, file);
    }
    forall q, file ensures EntryMatches(s', q, file) {
      assert EntryMatches(s, q, file);
    }
    assert forall j :: PhaseOf(s', j) == PhaseOf(s, j);
    TabledSamePhases(s, s');
    forall j ensures SlotMatches(s', j) {
      assert SlotMatches(s, j);
      forall k ensures OuterMatches(s', j, k) {
        assert OuterMatches(s, j, k);
      }
    }
  }

  lemma LastSlotOnly(s: State, slot: Slot)
    requires Counted(s) && slot in s.slots
    requires s.slots[slot].page in s.pages && s.pages[s.slots[slot].page].refcnt == 1
    ensures forall k :: k in s.slots && s.slots[k].page == s.slots[slot].page ==> k == slot
  {
    var p := s.slots[slot].page;
    SlotHolds(s, slot);
    assert |Holders(s.slots, p) - {slot}| == 0;
    forall k | k in s.slots && s.slots[k].page == p ensures k == slot {
      assert k in Holders(s.slots, p);
      assert k !in Holders(s.slots, p) - {slot};
    }
  }

  lemma FreeSlotKeeps(s: State, slot: Slot)
    requires Inv(s) && slot in s.slots && Unused(s, slot)
    ensures Inv(FreeSlot(s, slot)) && slot !in FreeSlot(s, slot).slots
    ensures FreeSlot(s, slot).phases == s.phases && FreeSlot(s, slot).outer == s.outer
  {
    hide FreeSlot, Counted, Tabled, Fresh;
    SlotHolds(s, slot);
    FreeFields(s, slot);
    if s.pages[s.slots[slot].page].refcnt > 1 {
      FreeSlotMore(s, slot);
    } else {
      FreeSlotLast(s, slot);
    }
  }

  // ------------------------------------------------------ proof: parsing

  // Interpreter i becomes the parser of a file whose entry now has no value.
  lemma ParserKeeps(s: State, s': State, i: Interp, file: string, stat: Stat)
    requires Inv(s) && PhaseOf(s, i) == Seeking(file, stat) && !(file in s.table && s.table[file].None?)
    requires s'.phases == s.phases[i := Parsing(file, stat)] && s'.table == s.table[file := None]
    requires s'.slots == s.slots && s'.results == s.results && !s'.dangling
    requires s'.nextPage == s.nextPage && s'.nextResult == s.nextResult && s'.nextIpage == s.nextIpage
    requires s'.outer == s.outer && s'.pages.Keys == s.pages.Keys
    requires forall p :: p in s.pages ==>
               && s'.pages[p] == s.pages[p].(entry := s'.pages[p].entry)
               && s'.pages[p].entry == if s.pages[p].entry == Some(file) then None else s.pages[p].entry
    ensures Inv(s')
  {
    hide Sleepers, Holders, Owners, Executors;
    PhasesElsewhere(s, s', i, Parsing(file, stat));
    forall r: ResultId
      ensures Owners(s'.pages, r) == Owners(s.pages, r) && Executors(s'.phases, r) == Executors(s.phases, r)
    {
      OwnersAlike(s.pages, s'.pages, r);
      ExecutorsSame(s, i, Parsing(file, stat), r);
    }
    forall p: PageId ensures PageCounts(s', p) {
      assert PageCounts(s, p);
    }
    forall r: ResultId ensures ResultCounts(s', r) {
      assert ResultCounts(s, r);
    }
    forall p: PageId, f ensures EntryMatches(s', p, f) {
      assert EntryMatches(s, p, f);
      assert EntryMatches(s, p, file);
    }
    forall j ensures ParserMatches(s', j) {
      assert ParserMatches(s, j);
    }
    forall j, f
      ensures Parses(s', j, f) == (if j == i then f == file else Parses(s, j, f))
      ensures !Parses(s, j, file)
    {
      assert ParserMatches(s, j);
    }
    assert OneParser(s');
    forall f | f in s'.table && s'.table[f].None? ensures HasParser(s', f) {
      if f == file {
        assert Parses(s', i, file);
      } else {
        assert HasParser(s, f);
        var j :| Parses(s, j, f);
        assert Parses(s', j, f);
      }
    }
    forall j ensures SlotMatches(s', j) {
      assert SlotMatches(s, j);
      forall k ensures OuterMatches(s', j, k) {
        assert OuterMatches(s, j, k);
      }
    }
  }

  lemma OwnersAlike(a: map<PageId, Page>, b: map<PageId, Page>, r: ResultId)
    requires a.Keys == b.Keys && forall p :: p in a ==> b[p].result == a[p].result
    ensures Owners(b, r) == Owners(a, r)
  {
    assert forall p :: p in a <==> p in b;
  }

  lemma SeekParses(s: State, i: Interp)
    requires Inv(s) && PhaseOf(s, i).Seeking?
    requires var ph := PhaseOf(s, i);
             ph.file !in s.table ||
             (s.table[ph.file].Some? && s.table[ph.file].value in s.pages &&
              s.pages[s.table[ph.file].value].stat != ph.stat)
    ensures Inv(TakeSeek(s, i, PhaseOf(s, i).file, PhaseOf(s, i).stat))
  {
    hide Inv;
    var ph := PhaseOf(s, i);
    var s' := TakeSeek(s, i, ph.file, ph.stat);
    forall p | p in s.pages
      ensures p in s'.pages && s'.pages[p] == s.pages[p].(entry := s'.pages[p].entry)
      ensures s'.pages[p].entry == if s.pages[p].entry == Some(ph.file) then None else s.pages[p].entry
    {
      EntryOf(s, p, ph.file);
    }
    assert !s.dangling by { NotDangling(s); }
    ParserKeeps(s, s', i, ph.file, ph.stat);
  }

  lemma EntryOf(s: State, p: PageId, file: string)
    requires Inv(s)
    ensures EntryMatches(s, p, file)
  {
  }

  lemma NotDangling(s: State)
    requires Inv(s)
    ensures !s.dangling
  {
  }

  lemma SeekCounts(s: State, i: Interp, p: PageId)
    requires Inv(s) && PhaseOf(s, i).Seeking?
    requires var ph := PhaseOf(s, i);
             ph.file in s.table && s.table[ph.file] == Some(p) && p in s.pages && s.pages[p].stat == ph.stat
    ensures var s' := TakeSeek(s, i, PhaseOf(s, i).file, PhaseOf(s, i).stat);
            !s'.dangling && Counted(s') && Fresh(s')
  {
    hide Sleepers, Holders, Owners, Executors, Tabled;
    var ph := PhaseOf(s, i);
    assert SlotMatches(s, i);
    FilledCounts(s, i, ph.file, p, Holding(ph.file, ph.stat, s.nextIpage, p));
  }

  // A new interpreter page for a page that is there.
  lemma FilledCounts(s: State, i: Interp, file: string, p: PageId, f: Phase)
    requires Counted(s) && Fresh(s) && p in s.pages && (i, file) !in s.slots
    requires !PhaseOf(s, i).Executing? && !f.Executing?
    ensures Counted(To(FillSlot(s, (i, file), p), i, f)) && Fresh(To(FillSlot(s, (i, file), p), i, f))
  {
    hide Sleepers, Holders, Owners, Executors;
    var s' := To(FillSlot(s, (i, file), p), i, f);
    forall q: PageId ensures PageCounts(s', q) {
      assert PageCounts(s, q);
      HoldersFilled(s.slots, (i, file), Ipage(s.nextIpage, p, None), q);
    }
    forall r: ResultId
      ensures ResultCounts(s', r) && Owners(s'.pages, r) == Owners(s.pages, r)
      ensures Executors(s'.phases, r) == Executors(s.phases, r)
    {
      assert ResultCounts(s, r);
      OwnersSame(s.pages, p, s'.pages[p], r);
      ExecutorsSame(s, i, f, r);
    }
  }

  lemma SeekHolds(s: State, i: Interp, p: PageId)
    requires Inv(s) && PhaseOf(s, i).Seeking?
    requires var ph := PhaseOf(s, i);
             ph.file in s.table && s.table[ph.file] == Some(p) && p in s.pages && s.pages[p].stat == ph.stat
    ensures Inv(TakeSeek(s, i, PhaseOf(s, i).file, PhaseOf(s, i).stat))
  {
    hide Sleepers, Counted, Holders, Owners, Executors;
    var ph := PhaseOf(s, i);
    var s' := TakeSeek(s, i, ph.file, ph.stat);
    SeekCounts(s, i, p);
    PhasesElsewhere(s, s', i, Holding(ph.file, ph.stat, s.nextIpage, p));
    forall q: PageId, f ensures EntryMatches(s', q, f) {
      assert EntryMatches(s, q, f);
    }
    TabledSame(s, s', i);
    forall j ensures SlotMatches(s', j) {
      assert SlotMatches(s, j);
      forall k ensures OuterMatches(s', j, k) {
        assert OuterMatches(s, j, k);
      }
    }
  }

  lemma SeekKeeps(s: State, i: Interp)
    requires Inv(s) && PhaseOf(s, i).Seeking?
    ensures Inv(TakeSeek(s, i, PhaseOf(s, i).file, PhaseOf(s, i).stat))
  {
    hide Inv, Uses;
    var ph := PhaseOf(s, i);
    if ph.file in s.table && s.table[ph.file].Some? {
      var p := s.table[ph.file].value;
      EntryOf(s, p, ph.file);
      if s.pages[p].stat == ph.stat {
        SeekHolds(s, i, p);
      } else {
        SeekParses(s, i);
      }
    } else if ph.file !in s.table {
      SeekParses(s, i);
    }
  }

  // The parser of a file is done with it.
  lemma TabledParsed(s: State, s': State, i: Interp, file: string)
    requires Tabled(s) && Parses(s, i, file) && !PhaseOf(s', i).Parsing?
    requires forall j :: j != i ==> PhaseOf(s', j) == PhaseOf(s, j)
    requires !(file in s'.table && s'.table[file].None?)
    requires forall f :: f != file ==> (f in s'.table <==> f in s.table) && (f in s.table ==> s'.table[f] == s.table[f])
    requires forall p, f :: EntryMatches(s', p, f)
    ensures Tabled(s')
  {
    forall j ensures ParserMatches(s', j) {
      assert ParserMatches(s, j);
      if Parses(s', j, file) {
        assert Parses(s, j, file);
      }
    }
    forall j, f ensures Parses(s', j, f) ==> Parses(s, j, f) {
    }
    forall f | f in s'.table && s'.table[f].None? ensures HasParser(s', f) {
      assert HasParser(s, f);
      var j :| Parses(s, j, f);
      assert Parses(s', j, f);
    }
  }

  lemma ParsedCounts(s: State, i: Interp)
    requires Inv(s) && PhaseOf(s, i).Parsing?
    ensures var s' := TakeParsed(s, i, PhaseOf(s, i).file, PhaseOf(s, i).stat, true);
            !s'.dangling && Counted(s') && Fresh(s')
  {
    hide Sleepers, Holders, Owners, Executors, Tabled;
    var ph := PhaseOf(s, i);
    var p := s.nextPage;
    var s' := TakeParsed(s, i, ph.file, ph.stat, true);
    assert SlotMatches(s, i);
    assert s'.pages == s.pages[p := s'.pages[p]];
    forall q: PageId ensures PageCounts(s', q) {
      assert PageCounts(s, q);
      HoldersFilled(s.slots, (i, ph.file), Ipage(s.nextIpage, p, None), q);
    }
    forall r: ResultId
      ensures ResultCounts(s', r) && Owners(s'.pages, r) == Owners(s.pages, r)
      ensures Executors(s'.phases, r) == Executors(s.phases, r)
    {
      assert ResultCounts(s, r);
      OwnersUpdated(s.pages, p, s'.pages[p], r);
      ExecutorsSame(s, i, PhaseOf(s', i), r);
    }
  }

  lemma ParsedOkKeeps(s: State, i: Interp)
    requires Inv(s) && PhaseOf(s, i).Parsing?
    ensures Inv(TakeParsed(s, i, PhaseOf(s, i).file, PhaseOf(s, i).stat, true))
  {
    hide Sleepers, Counted, Holders, Owners, Executors;
    var ph := PhaseOf(s, i);
    var s' := TakeParsed(s, i, ph.file, ph.stat, true);
    ParsedCounts(s, i);
    assert ParserMatches(s, i);
    PhasesElsewhere(s, s', i, PhaseOf(s', i));
    forall q: PageId, f ensures EntryMatches(s', q, f) {
      assert EntryMatches(s, q, f);
    }
    assert Parses(s, i, ph.file);
    TabledParsed(s, s', i, ph.file);
    forall j ensures SlotMatches(s', j) {
      assert SlotMatches(s, j);
      forall k ensures OuterMatches(s', j, k) {
        assert OuterMatches(s, j, k);
      }
    }
  }

  lemma ParsedNotKeeps(s: State, i: Interp)
    requires Inv(s) && PhaseOf(s, i).Parsing?
    ensures Inv(TakeParsed(s, i, PhaseOf(s, i).file, PhaseOf(s, i).stat, false))
  {
    hide Sleepers, Holders, Owners, Executors;
    var ph := PhaseOf(s, i);
    var s' := TakeParsed(s, i, ph.file, ph.stat, false);
    assert ParserMatches(s, i);
    PhasesElsewhere(s, s', i, Idle);
    forall q: PageId ensures PageCounts(s', q) {
      assert PageCounts(s, q);
    }
    forall r: ResultId
      ensures ResultCounts(s', r) && Executors(s'.phases, r) == Executors(s.phases, r)
    {
      assert ResultCounts(s, r);
      ExecutorsSame(s, i, Idle, r);
    }
    forall q: PageId, f ensures EntryMatches(s', q, f) {
      assert EntryMatches(s, q, f);
    }
    assert Parses(s, i, ph.file);
    TabledParsed(s, s', i, ph.file);
    forall j ensures SlotMatches(s', j) {
      assert SlotMatches(s, j);
      forall k ensures OuterMatches(s', j, k) {
        assert OuterMatches(s, j, k);
      }
    }
  }
}

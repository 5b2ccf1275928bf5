/**
  Runs of AdpSource in which something is used after it was freed, or objects
  are freed that are not there.
*/
module AdpPageCases {
  import opened Basics
  import opened AdpPages
  import opened AdpPageFaults

  lemma RunFive(s: State, a: Step, b: Step, c: Step, d: Step, e: Step)
    ensures Run(s, [a, b, c, d, e]) == Take(Take(Take(Take(Take(s, a), b), c), d), e)
  {
    hide Take;
    var s1 := Take(s, a);
    assert Run(s, [a, b, c, d, e]) == Run(s1, [b, c, d, e]) by { assert [a, b, c, d, e][1..] == [b, c, d, e]; }
    var s2 := Take(s1, b);
    assert Run(s1, [b, c, d, e]) == Run(s2, [c, d, e]) by { assert [b, c, d, e][1..] == [c, d, e]; }
    var s3 := Take(s2, c);
    assert Run(s2, [c, d, e]) == Run(s3, [d, e]) by { assert [c, d, e][1..] == [d, e]; }
    var s4 := Take(s3, d);
    assert Run(s3, [d, e]) == Run(s4, [e]) by { assert [d, e][1..] == [e]; }
    assert Run(s4, [e]) == Take(s4, e) by { assert [e][1..] == []; }
  }

  // Interpreter 0 holds the page of a file it has parsed.
  function Parsed0(file: string, stat: Stat): State {
    State(map[file := Some(0)], map[0 := Page(stat, 1, Some(file), None, false)], map[], map[(0, file) := Ipage(0, 0, None)],
          map[0 := Holding(file, stat, 0, 0)], map[], 1, 0, 1, false, false)
  }

  lemma ReachParsed(file: string, stat: Stat)
    ensures Take(Take(Take(START, Begin(0, file, stat)), Seek(0)), Parsed(0, true)) == Parsed0(file, stat)
  {
    var s2 := Take(Take(START, Begin(0, file, stat)), Seek(0));
    assert s2 == START.(table := map[file := None], phases := map[0 := Parsing(file, stat)]);
  }

  // A script of that page has started.
  function Including(file: string, stat: Stat): State {
    Parsed0(file, stat).(phases := map[0 := Idle], outer := map[0 := [Executing(file, stat, 0, 0, None)]])
  }

  lemma ReachIncluding(file: string, stat: Stat)
    ensures Run(START, [Begin(0, file, stat), Seek(0), Parsed(0, true), Decide(0, false, false), Suspend(0)]) == Including(file, stat)
  {
    RunFive(START, Begin(0, file, stat), Seek(0), Parsed(0, true), Decide(0, false, false), Suspend(0));
    hide Run;
    ReachParsed(file, stat);
    var s4 := Take(Parsed0(file, stat), Decide(0, false, false));
    assert s4 == Parsed0(file, stat).(phases := map[0 := Executing(file, stat, 0, 0, None)]);
    assert Outer(s4, 0) + [PhaseOf(s4, 0)] == [Executing(file, stat, 0, 0, None)];
    assert Take(s4, Suspend(0)) == Including(file, stat);
  }

  // A page whose script includes the page's own file after it was changed frees
  // the interpreter page it is executing, and uses it when the script ends.
  lemma NestedChange(file: string, a: Stat, b: Stat)
    requires a != b
    ensures var s := Run(START, [Begin(0, file, a), Seek(0), Parsed(0, true), Decide(0, false, false), Suspend(0)]);
            && !Spares(s, Begin(0, file, b))
            && Run(s, [Begin(0, file, b), Seek(0), Parsed(0, false), Resume(0), Executed(0)]).dangling
  {
    ReachIncluding(file, a);
    var s := Including(file, a);
    assert Outer(s, 0) == [Executing(file, a, 0, 0, None)];
    assert FileOf(Outer(s, 0)[0]) == Some(file);
    RunFive(s, Begin(0, file, b), Seek(0), Parsed(0, false), Resume(0), Executed(0));
    var t := State(map[], map[], map[], map[], map[0 := Seeking(file, b)], s.outer, 1, 0, 1, false, false);
    assert Take(s, Begin(0, file, b)) == t;
    var u := Take(Take(t, Seek(0)), Parsed(0, false));
    assert u == t.(phases := map[0 := Idle]);
    assert Outer(u, 0)[..0] == [];
    assert Take(u, Resume(0)).slots == map[];
  }

  // Interpreter 0 executes the cached result it has built.
  function Cached(file: string, stat: Stat): State {
    State(map[file := Some(0)], map[0 := Page(stat, 1, Some(file), Some(0), false)], map[0 := 2],
          map[(0, file) := Ipage(0, 0, Some(0))], map[0 := Executing(file, stat, 0, 0, Some(0))], map[], 1, 1, 1, false, false)
  }

  lemma ReachCached(file: string, stat: Stat)
    ensures Run(START, [Begin(0, file, stat), Seek(0), Parsed(0, true), Decide(0, true, false), Built(0, true)]) == Cached(file, stat)
  {
    RunFive(START, Begin(0, file, stat), Seek(0), Parsed(0, true), Decide(0, true, false), Built(0, true));
    hide Run, Take;
    ReachParsed(file, stat);
    FirstBuilds(file, stat);
  }

  lemma FirstBuilds(file: string, stat: Stat)
    ensures Take(Take(Parsed0(file, stat), Decide(0, true, false)), Built(0, true)) == Cached(file, stat)
  {
    var s4 := Take(Parsed0(file, stat), Decide(0, true, false));
    assert s4 == Parsed0(file, stat).(phases := map[0 := Building(file, stat, 0, 0)]);
  }

  // A script of that result has started, included the page's own file and ended,
  // after the nested call built a new result.
  function Rebuilt(file: string, stat: Stat): State {
    State(map[file := Some(0)], map[0 := Page(stat, 1, Some(file), Some(1), false)], map[0 := 1, 1 := 1],
          map[(0, file) := Ipage(0, 0, Some(1))], map[0 := Executing(file, stat, 0, 0, Some(0))], map[0 := []], 1, 2, 1, false, false)
  }

  // In between, the nested call executes the new result.
  function Nested(file: string, stat: Stat): State {
    Rebuilt(file, stat).(results := map[0 := 1, 1 := 2], phases := map[0 := Executing(file, stat, 0, 0, Some(1))],
                         outer := map[0 := [Executing(file, stat, 0, 0, Some(0))]])
  }

  lemma ScriptStarts(file: string, stat: Stat)
    ensures Take(Cached(file, stat), Suspend(0)) ==
            Cached(file, stat).(phases := map[0 := Idle], outer := map[0 := [Executing(file, stat, 0, 0, Some(0))]])
  {
    var f := Executing(file, stat, 0, 0, Some(0));
    assert Outer(Cached(file, stat), 0) + [f] == [f];
  }

  lemma NestedDecides(file: string, stat: Stat)
    ensures var s := Take(Cached(file, stat), Suspend(0));
            Take(Take(s, Begin(0, file, stat)), Decide(0, true, true)) ==
            s.(phases := map[0 := Building(file, stat, 0, 0)], pages := map[0 := s.pages[0].(locked := true)])
  {
    ScriptStarts(file, stat);
    var s := Take(Cached(file, stat), Suspend(0));
    assert Take(s, Begin(0, file, stat)) == s.(phases := map[0 := Holding(file, stat, 0, 0)]);
  }

  lemma DropOne(s: State)
    requires s.results == map[0 := 2]
    ensures DropResult(s, Some(0)) == s.(results := map[0 := 1])
  {
  }

  lemma NestedBuilds(file: string, stat: Stat)
    ensures var s := Cached(file, stat).(outer := map[0 := [Executing(file, stat, 0, 0, Some(0))]]);
            Take(s.(phases := map[0 := Building(file, stat, 0, 0)], pages := map[0 := s.pages[0].(locked := true)]), Built(0, true)) ==
            Nested(file, stat)
  {
    var c := Cached(file, stat).(outer := map[0 := [Executing(file, stat, 0, 0, Some(0))]]);
    var s := c.(phases := map[0 := Building(file, stat, 0, 0)], pages := map[0 := c.pages[0].(locked := true)]);
    DropOne(s);
    hide DropResult;
    assert Lives(s, 0, PhaseOf(s, 0)) && s.pages[0].result == Some(0);
    assert s.slots[(0, file) := s.slots[(0, file)].(objs := Some(1))] == map[(0, file) := Ipage(0, 0, Some(1))];
  }

  lemma NestedEnds(file: string, stat: Stat)
    ensures Take(Take(Nested(file, stat), Executed(0)), Resume(0)) == Rebuilt(file, stat)
  {
    var s := Nested(file, stat);
    assert Take(s, Executed(0)) == s.(results := map[0 := 1, 1 := 1], phases := map[0 := Idle]);
    NestedResumes(file, stat);
  }

  lemma NestedResumes(file: string, stat: Stat)
    ensures Take(Nested(file, stat).(results := map[0 := 1, 1 := 1], phases := map[0 := Idle]), Resume(0)) == Rebuilt(file, stat)
  {
    assert [Executing(file, stat, 0, 0, Some(0))][..0] == [];
  }

  lemma RebuiltFails(file: string, stat: Stat)
    ensures Take(Rebuilt(file, stat), Suspend(0)).dangling
  {
  }

  lemma RebuiltEnds(file: string, stat: Stat)
    ensures var t := Take(Rebuilt(file, stat), Executed(0)); !t.dangling && Settled(t)
  {
    assert Take(Rebuilt(file, stat), Executed(0)).phases == map[0 := Idle];
  }

  // A page whose cached result includes the page's own file when the result has
  // expired frees the objects of the result it is executing: the next script
  // uses them, and if there is none nothing does.
  lemma NestedRebuild(file: string, stat: Stat)
    ensures var s := Run(START, [Begin(0, file, stat), Seek(0), Parsed(0, true), Decide(0, true, false), Built(0, true)]);
            var t := Run(Take(s, Suspend(0)), [Begin(0, file, stat), Decide(0, true, true), Built(0, true), Executed(0), Resume(0)]);
            !t.dangling && Take(t, Suspend(0)).dangling && !Take(t, Executed(0)).dangling && Settled(Take(t, Executed(0)))
  {
    hide Take, Run;
    ReachCached(file, stat);
    RunFive(Take(Cached(file, stat), Suspend(0)), Begin(0, file, stat), Decide(0, true, true), Built(0, true), Executed(0), Resume(0));
    ScriptStarts(file, stat);
    NestedDecides(file, stat);
    NestedBuilds(file, stat);
    NestedEnds(file, stat);
    RebuiltFails(file, stat);
    RebuiltEnds(file, stat);
  }

  // A file executed by interpreter 0 with a cached result and by interpreter 1
  // without, before they give it up.
  function Shared(file: string, stat: Stat): State {
    State(map[file := Some(0)], map[0 := Page(stat, 2, Some(file), Some(0), false)], map[0 := 1],
          map[(0, file) := Ipage(0, 0, Some(0)), (1, file) := Ipage(1, 0, None)],
          map[0 := Idle, 1 := Idle], map[], 1, 1, 2, false, false)
  }

  lemma ReachShared(file: string, stat: Stat)
    ensures Run(Cached(file, stat), [Executed(0), Begin(1, file, stat), Seek(1), Decide(1, false, false), Executed(1)]) == Shared(file, stat)
  {
    RunFive(Cached(file, stat), Executed(0), Begin(1, file, stat), Seek(1), Decide(1, false, false), Executed(1));
    hide Run, Take;
    ReachSecond(file, stat);
    SecondDecides(file, stat);
    SecondExecuted(file, stat);
  }

  lemma SecondDecides(file: string, stat: Stat)
    ensures var s := Shared(file, stat);
            Take(s.(phases := map[0 := Idle, 1 := Holding(file, stat, 1, 0)]), Decide(1, false, false)) ==
            s.(phases := map[0 := Idle, 1 := Executing(file, stat, 1, 0, None)])
  {
  }

  lemma SecondExecuted(file: string, stat: Stat)
    ensures var s := Shared(file, stat);
            Take(s.(phases := map[0 := Idle, 1 := Executing(file, stat, 1, 0, None)]), Executed(1)) == s
  {
  }

  lemma ReachSecond(file: string, stat: Stat)
    ensures Take(Take(Take(Cached(file, stat), Executed(0)), Begin(1, file, stat)), Seek(1)) ==
            Shared(file, stat).(phases := map[0 := Idle, 1 := Holding(file, stat, 1, 0)])
  {
    var s7 := Take(Take(Cached(file, stat), Executed(0)), Begin(1, file, stat));
    assert s7 == Cached(file, stat).(results := map[0 := 1], phases := map[0 := Idle, 1 := Seeking(file, stat)]);
  }

  // The interpreter that never executed the cached result gives up the page last.
  lemma NullObjsReached(file: string, stat: Stat)
    ensures var s := Run(START, [Begin(0, file, stat), Seek(0), Parsed(0, true), Decide(0, true, false), Built(0, true)]);
            var t := Run(s, [Executed(0), Begin(1, file, stat), Seek(1), Decide(1, false, false), Executed(1)]);
            Take(Take(t, Evict(0, file)), Evict(1, file)).nullObjs
  {
    ReachCached(file, stat);
    ReachShared(file, stat);
    hide Run;
    var t := Shared(file, stat);
    var u := Take(t, Evict(0, file));
    assert u.pages == map[0 := Page(stat, 1, Some(file), Some(0), false)] && (1, file) in u.slots;
    assert u.slots[(1, file)] == Ipage(1, 0, None) && PhaseOf(u, 1) == Idle;
  }
}

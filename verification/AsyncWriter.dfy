/**
  The asynchronous log writer's code (NsAsyncWrite and AsyncWriterThread in
  nsd/driver.c): submitting a record and a spin of the writer thread are runs of
  the steps of AsyncLog.
*/
module AsyncWriter {
  import opened Basics
  import opened Bytes
  import opened AsyncLog

  function WriteSteps(answers: seq<int>): seq<Step> {
    if answers == [] then [] else [Write(answers[0])] + WriteSteps(answers[1..])
  }

  lemma {:induction false} RunAppend(s: State, a: seq<Step>, b: seq<Step>)
    ensures Run(s, a + b) == Run(Run(s, a), b)
    decreases |a|
  {
    hide Take;
    if a == [] {
      assert a + b == b;
    } else {
      assert (a + b)[1..] == a[1..] + b;
      RunAppend(Take(s, a[0]), a[1..], b);
    }
  }

  lemma RunOne(s: State, a: Step)
    ensures Run(s, [a]) == Take(s, a)
  {
    hide Take;
    assert [a][1..] == [];
  }

  lemma RunThen(s: State, a: Step, b: seq<Step>)
    ensures Run(s, [a] + b) == Run(Take(s, a), b)
  {
    hide Take, Run;
    RunOne(s, a);
    RunAppend(s, [a], b);
  }

  lemma RunNone(s: State)
    ensures Run(s, []) == s
  {
  }

  // Submitting puts a record at the end of its descriptor's line.
  lemma SubmitLines(s: State, fd: int, data: seq<Byte>, d: int)
    ensures Line(Take(s, Submit(fd, data)), d) == Line(s, d) + if d == fd then [data] else []
  {
    hide For;
    var p := Piece(|s.submitted|, fd, 0, data);
    assert ([p] + s.queue)[1..] == s.queue;
    ForAppend(Reverse(s.queue), [p], d);
    ForOne(p, d);
  }

  lemma ForOne(p: Piece, d: int)
    ensures For([p], d) == if p.fd == d then [p.buf] else []
  {
    assert [p][1..] == [];
  }

  class Writer {
    var queue: seq<Piece>
    var write: seq<Piece>
    var queuesize: int
    var next: nat               // records submitted so far
    ghost var world: State      // what was submitted, written and given up

    ghost function Value(current: seq<Piece>): State
      reads this
    {
      State(queue, write, current, world.fetched, queuesize, world.out, world.submitted, world.failed)
    }

    // Between two spins.
    ghost predicate Valid()
      reads this
    {
      Inv(Value([])) && world.fetched && next == |world.submitted|
    }

    constructor ()
      ensures Valid() && Value([]) == START
    {
      queue, write, queuesize, next, world := [], [], 0, 0, START;
    }

    // Submits a record: it is the last in the line of its descriptor, and the
    // other lines stay.  True if the writer thread is to be woken up.
    method AsyncWrite(fd: int, data: seq<Byte>) returns (trigger: bool)
      requires Valid()
      modifies this
      ensures Valid() && trigger == (old(queue) == [])
      ensures Value([]) == Run(old(Value([])), [Submit(fd, data)])
      ensures forall d :: Line(Value([]), d) == old(Line(Value([]), d)) + if d == fd then [data] else []
    {
      ghost var s := Value([]);
      RunOne(s, Submit(fd, data));
      StepKeeps(s, Submit(fd, data));
      forall d ensures Line(Take(s, Submit(fd, data)), d) == Line(s, d) + if d == fd then [data] else [] {
        SubmitLines(s, fd, data, d);
      }
      hide Run, Inv, Line;
      var p := Piece(next, fd, 0, data);
      trigger := queue == [];
      queue := [p] + queue;
      next := next + 1;
      world := world.(submitted := world.submitted + [p]);
      assert Value([]) == Take(s, Submit(fd, data));
    }

    // One record of the pass; written is what the write call answers.
    method WriteRecord(p: Piece, written: int, ghost rest: seq<Piece>)
      requires written <= |p.buf|
      modifies `write, `queuesize, `world
      ensures Value(rest) == WriteOne(old(Value(rest)), p, written)
      ensures world.submitted == old(world.submitted) && world.fetched == old(world.fetched)
    {
      if written < 0 {
        queuesize := queuesize - 1;
        world := world.(failed := world.failed + {p.id});
      } else {
        world := world.(out := world.out + [p.(buf := p.buf[..written])]);
        if |p.buf[written..]| > 0 {
          write := [p.(nsent := p.nsent + written, buf := p.buf[written..])] + write;
        } else {
          queuesize := queuesize - 1;
        }
      }
    }

    // One pass over the list; the answers are those of the write calls.
    method WriteAll(answers: seq<int>)
      requires world.fetched
      requires |answers| == |write| && forall i :: 0 <= i < |write| ==> answers[i] <= |write[i].buf|
      modifies `write, `queuesize, `world
      ensures Value([]) == Run(old(Value([])), [Begin] + WriteSteps(answers))
      ensures !world.fetched && world.submitted == old(world.submitted)
    {
      hide Run, WriteOne;
      ghost var s0 := Value([]);
      RunThen(s0, Begin, WriteSteps(answers));
      ghost var goal := Run(s0, [Begin] + WriteSteps(answers));
      var current, i := write, 0;
      write := [];
      world := world.(fetched := false);
      assert answers[0..] == answers;
      while current != []
        invariant 0 <= i <= |answers| && |current| == |answers| - i
        invariant forall k :: 0 <= k < |current| ==> answers[i + k] <= |current[k].buf|
        invariant Run(Value(current), WriteSteps(answers[i..])) == goal
        invariant !world.fetched && world.submitted == old(world.submitted)
        decreases |current|
      {
        ghost var s := Value(current);
        assert answers[i..][1..] == answers[i + 1..];
        RunThen(s, Write(answers[i]), WriteSteps(answers[i + 1..]));
        WriteRecord(current[0], answers[i], current[1..]);
        assert Value(current[1..]) == Take(s, Write(answers[i]));
        current, i := current[1..], i + 1;
      }
      RunNone(Value([]));
    }

    // Moves the queue to the list.
    method FetchAll()
      requires !world.fetched
      modifies `queue, `write, `queuesize, `world
      ensures Value([]) == Run(old(Value([])), [Fetch])
      ensures world.fetched && world.submitted == old(world.submitted)
    {
      RunOne(Value([]), Fetch);
      var current := queue;
      queue := [];
      while current != []
        invariant Reverse(current) + write == Reverse(old(queue)) + old(write)
        invariant queuesize + |current| == old(queuesize + |queue|)
        invariant queue == [] && world == old(world)
        decreases |current|
      {
        assert Reverse(current) + write == Reverse(current[1..]) + ([current[0]] + write);
        write := [current[0]] + write;
        queuesize := queuesize + 1;
        current := current[1..];
      }
      world := world.(fetched := true);
    }

    // A spin of the writer thread: a pass over its list, then the queue.
    method Spin(answers: seq<int>)
      requires Valid()
      requires |answers| == |write| && forall i :: 0 <= i < |write| ==> answers[i] <= |write[i].buf|
      modifies this
      ensures Valid()
      ensures Value([]) == Run(old(Value([])), [Begin] + WriteSteps(answers) + [Fetch])
    {
      hide Run, Inv, WriteSteps;
      ghost var s := Value([]);
      WriteAll(answers);
      FetchAll();
      RunAppend(s, [Begin] + WriteSteps(answers), [Fetch]);
      RunKeeps(s, [Begin] + WriteSteps(answers) + [Fetch]);
    }
  }
}

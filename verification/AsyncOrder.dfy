/**
  When the asynchronous log writer keeps the records of a descriptor in order.

  What is left of a record after a partial write is pushed on the list for the
  next pass, and the queue is pushed in front of it.  So a record overtakes the
  rest of an earlier one exactly if it is behind it in the same pass, or if it
  is fetched while the rest is on the list.
*/
module AsyncOrder {
  import opened Basics
  import opened Bytes
  import opened AsyncLog

  // Bytes for the descriptor.
  predicate Live(p: Piece, fd: int) {
    p.fd == fd && p.buf != []
  }

  predicate HasLive(list: seq<Piece>, fd: int) {
    exists p :: p in list && Live(p, fd)
  }

  predicate Before(a: Piece, b: Piece) {
    a.id < b.id || (a.id == b.id && a.nsent < b.nsent)
  }

  // The descriptor's bytes were written record by record, each from its start.
  ghost predicate InSequence(out: seq<Piece>, fd: int) {
    forall i, j :: 0 <= i < j < |out| && Live(out[i], fd) && Live(out[j], fd) ==> Before(out[i], out[j])
  }

  // Nothing is left to be written for the descriptor, and nothing was given up.
  ghost predicate Settled(s: State, fd: int) {
    && (forall p :: Pending(s, p) ==> p.fd != fd)
    && (forall id :: id in s.failed && id < |s.submitted| ==> s.submitted[id].fd != fd)
  }

  // ------------------------------------------------- writing the oldest record

  // The step writes bytes of a record for the descriptor.
  predicate Moves(s: State, step: Step, fd: int) {
    step.Write? && s.current != [] && s.current[0].fd == fd && 0 < step.n <= |s.current[0].buf|
  }

  // No older record of the descriptor is pending then.
  ghost predicate Oldest(s: State, step: Step, fd: int) {
    Moves(s, step, fd) ==> forall q :: Pending(s, q) && Live(q, fd) ==> s.current[0].id <= q.id
  }

  ghost predicate OldestRun(s: State, steps: seq<Step>, fd: int)
    decreases |steps|
  {
    steps == [] || (Oldest(s, steps[0], fd) && OldestRun(Take(s, steps[0]), steps[1..], fd))
  }

  // What was written comes before what is pending.
  ghost predicate WrittenFirst(s: State, a: Piece, q: Piece, fd: int) {
    a in s.out && Live(a, fd) && Pending(s, q) && Live(q, fd) ==> Before(a, q)
  }

  ghost predicate InLine(s: State, fd: int) {
    InSequence(s.out, fd) && forall a, q :: WrittenFirst(s, a, q, fd)
  }

  lemma OldestKeeps(s: State, step: Step, fd: int)
    requires Inv(s) && InLine(s, fd) && Oldest(s, step, fd)
    ensures InLine(Take(s, step), fd)
  {
    match step
    case Submit(to, data) => SubmitInLine(s, to, data, fd);
    case Write(n) => if s.current != [] && n <= |s.current[0].buf| { WriteInLine(s, n, fd); }
    case _ =>
      var s' := Take(s, step);
      forall a, q ensures WrittenFirst(s', a, q, fd) {
        ReverseHas(s.queue, q);
        assert WrittenFirst(s, a, q, fd);
      }
  }

  lemma SubmitInLine(s: State, to: int, data: seq<Byte>, fd: int)
    requires Inv(s) && InLine(s, fd)
    ensures InLine(Take(s, Submit(to, data)), fd)
  {
    var s' := Take(s, Submit(to, data));
    forall a, q ensures WrittenFirst(s', a, q, fd) {
      assert WrittenFirst(s, a, q, fd) && OutMatches(s, a);
    }
  }

  lemma WriteInLine(s: State, n: int, fd: int)
    requires Inv(s) && InLine(s, fd) && Oldest(s, Write(n), fd) && s.current != [] && n <= |s.current[0].buf|
    ensures InLine(Take(s, Write(n)), fd)
  {
    var s', p := Take(s, Write(n)), s.current[0];
    assert p in s.current;
    assert Pendings(s, p.id) <= 1 by { assert RecordMatches(s, p.id); }
    forall a, q ensures WrittenFirst(s', a, q, fd) {
      assert WrittenFirst(s, a, q, fd) && WrittenFirst(s, a, p, fd);
      OthersDiffer(s, q);
    }
    forall i, j | 0 <= i < j < |s'.out| && Live(s'.out[i], fd) && Live(s'.out[j], fd)
      ensures Before(s'.out[i], s'.out[j])
    {
      if j == |s.out| {
        assert s'.out[i] == s.out[i] && WrittenFirst(s, s.out[i], p, fd);
      }
    }
  }

  lemma {:induction false} OldestInLine(s: State, steps: seq<Step>, fd: int)
    requires Inv(s) && InLine(s, fd) && OldestRun(s, steps, fd)
    ensures InLine(Run(s, steps), fd)
    decreases |steps|
  {
    hide Inv, InLine, Take, Oldest;
    if steps != [] {
      StepKeeps(s, steps[0]);
      OldestKeeps(s, steps[0], fd);
      OldestInLine(Take(s, steps[0]), steps[1..], fd);
    }
  }

  // --------------------------------------------- what is written only grows

  lemma StepGrows(s: State, step: Step)
    ensures s.out <= Take(s, step).out && s.submitted <= Take(s, step).submitted && s.failed <= Take(s, step).failed
  {
  }

  lemma {:induction false} RunGrows(s: State, steps: seq<Step>)
    ensures var t := Run(s, steps); s.out <= t.out && s.submitted <= t.submitted && s.failed <= t.failed
    decreases |steps|
  {
    hide Take;
    if steps != [] {
      StepGrows(s, steps[0]);
      RunGrows(Take(s, steps[0]), steps[1..]);
    }
  }

  lemma {:induction false} WrittenSplit(a: seq<Piece>, b: seq<Piece>, id: nat)
    ensures Written(a + b, id) == Written(a, id) + Written(b, id)
  {
    if a == [] {
      assert a + b == b;
    } else {
      assert (a + b)[1..] == a[1..] + b;
      WrittenSplit(a[1..], b, id);
    }
  }

  lemma {:induction false} WrittenSome(out: seq<Piece>, id: nat) returns (j: nat)
    requires Written(out, id) != []
    ensures j < |out| && out[j].id == id && out[j].buf != []
  {
    if out[0].id == id && out[0].buf != [] {
      j := 0;
    } else {
      j := WrittenSome(out[1..], id);
      j := j + 1;
    }
  }

  // A pending record is written later if the descriptor gets settled.
  lemma WrittenLater(s: State, steps: seq<Step>, q: Piece, fd: int) returns (j: nat)
    requires Inv(s) && Pending(s, q) && Live(q, fd) && Settled(Run(s, steps), fd)
    ensures var out := Run(s, steps).out;
            |s.out| <= j < |out| && out[j].id == q.id && Live(out[j], fd) && s.out <= out
  {
    RunKeeps(s, steps);
    RunGrows(s, steps);
    var t := Run(s, steps);
    assert PieceMatches(s, q);
    assert t.submitted[q.id] == s.submitted[q.id];
    NonePending(t, q.id, fd);
    assert RecordMatches(t, q.id);
    var rest := t.out[|s.out|..];
    assert t.out == s.out + rest;
    WrittenSplit(s.out, rest, q.id);
    j := WrittenSome(rest, q.id);
    j := |s.out| + j;
    assert OutMatches(t, t.out[j]);
  }

  lemma NonePending(s: State, id: nat, fd: int)
    requires Inv(s) && Settled(s, fd) && id < |s.submitted| && s.submitted[id].fd == fd
    ensures Pendings(s, id) == 0
  {
    if Pendings(s, id) > 0 {
      var p := PendingFor(s, id);
    }
  }

  lemma PendingFor(s: State, id: nat) returns (p: Piece)
    requires Inv(s) && id < |s.submitted| && Pendings(s, id) > 0
    ensures Pending(s, p) && p.fd == s.submitted[id].fd
  {
    p := PendingPiece(s, id);
    assert PieceMatches(s, p);
  }

  // A record written while an older one is pending comes out before it.
  lemma NotOldestBreaks(s: State, step: Step, rest: seq<Step>, fd: int)
    requires Inv(s) && !Oldest(s, step, fd) && Settled(Run(Take(s, step), rest), fd)
    ensures !InSequence(Run(Take(s, step), rest).out, fd)
  {
    var p, t := s.current[0], Take(s, step);
    var q :| Pending(s, q) && Live(q, fd) && q.id < p.id;
    StepKeeps(s, step);
    assert t.out == s.out + [p.(buf := p.buf[..step.n])];
    assert Pending(t, q);
    var j := WrittenLater(t, rest, q, fd);
    var out := Run(t, rest).out;
    assert out[|s.out|] == t.out[|s.out|];
    assert !Before(out[|s.out|], out[j]);
  }

  lemma {:induction false} InSequenceOldest(s: State, steps: seq<Step>, fd: int)
    requires Inv(s) && Settled(Run(s, steps), fd) && InSequence(Run(s, steps).out, fd)
    ensures OldestRun(s, steps, fd)
    decreases |steps|
  {
    hide Inv, Take, Oldest, Settled, InSequence;
    if steps != [] {
      if !Oldest(s, steps[0], fd) {
        NotOldestBreaks(s, steps[0], steps[1..], fd);
      }
      StepKeeps(s, steps[0]);
      InSequenceOldest(Take(s, steps[0]), steps[1..], fd);
    }
  }

  lemma StartInLine(fd: int)
    ensures Inv(START) && InLine(START, fd)
  {
  }

  // A settled descriptor received its bytes in order exactly if every write of
  // bytes for it was that of its oldest pending record.
  lemma OrderedExactlyIfOldest(steps: seq<Step>, fd: int)
    requires Settled(Run(START, steps), fd)
    ensures InSequence(Run(START, steps).out, fd) <==> OldestRun(START, steps, fd)
  {
    hide Run, OldestRun;
    StartInLine(fd);
    if OldestRun(START, steps, fd) {
      OldestInLine(START, steps, fd);
    }
    if InSequence(Run(START, steps).out, fd) {
      InSequenceOldest(START, steps, fd);
    }
  }

  // ----------------------------------------------------------- the two guards

  // A write of a record moves at least a byte, unless it fails.
  predicate Moving(s: State, step: Step, fd: int) {
    step.Write? && s.current != [] && Live(s.current[0], fd) ==> step.n != 0
  }

  predicate MovingRun(s: State, steps: seq<Step>, fd: int)
    decreases |steps|
  {
    steps == [] || (Moving(s, steps[0], fd) && MovingRun(Take(s, steps[0]), steps[1..], fd))
  }

  // A write that leaves a rest has no record of the descriptor behind it in the
  // pass; a queue with records of the descriptor is not fetched in front of a
  // rest.
  predicate Guarded(s: State, step: Step, fd: int) {
    && (step.Write? && s.current != [] && s.current[0].fd == fd && 0 <= step.n < |s.current[0].buf| ==>
          !HasLive(s.current[1..], fd))
    && (step.Fetch? && !s.fetched && s.current == [] && HasLive(s.write, fd) ==> !HasLive(s.queue, fd))
  }

  predicate GuardedRun(s: State, steps: seq<Step>, fd: int)
    decreases |steps|
  {
    steps == [] || (Guarded(s, steps[0], fd) && GuardedRun(Take(s, steps[0]), steps[1..], fd))
  }

  // The records of the descriptor in a list are in the order of submission.
  ghost predicate Sorted(list: seq<Piece>, fd: int) {
    forall i, j :: 0 <= i < j < |list| && Live(list[i], fd) && Live(list[j], fd) ==> list[i].id < list[j].id
  }

  // The queue is newer than the lists, its newest record first.
  ghost predicate QueueNewer(s: State) {
    && (forall p, q :: (p in s.write || p in s.current) && q in s.queue ==> p.id < q.id)
    && (forall i, j :: 0 <= i < j < |s.queue| ==> s.queue[j].id < s.queue[i].id)
  }

  ghost predicate Lined(s: State, fd: int) {
    && Sorted(s.current, fd) && Sorted(s.write, fd)
    && (!s.fetched && HasLive(s.write, fd) ==> !HasLive(s.current, fd))
  }

  lemma SubmitNewer(s: State, fd: int, data: seq<Byte>)
    requires Inv(s) && QueueNewer(s)
    ensures QueueNewer(Take(s, Submit(fd, data)))
  {
    hide Written, Count;
    var s' := Take(s, Submit(fd, data));
    forall p | Pending(s, p) ensures p.id < |s.submitted| {
      assert PieceMatches(s, p);
    }
    hide Inv;
    forall i, j | 0 <= i < j < |s'.queue| ensures s'.queue[j].id < s'.queue[i].id {
      assert s'.queue[j] == s.queue[j - 1];
      assert Pending(s, s.queue[j - 1]);
    }
    forall p, q | (p in s'.write || p in s'.current) && q in s'.queue ensures p.id < q.id {
      assert Pending(s, p);
    }
  }

  lemma StepNewer(s: State, step: Step)
    requires Inv(s) && QueueNewer(s)
    ensures QueueNewer(Take(s, step))
  {
    hide Inv;
    match step
    case Submit(fd, data) => SubmitNewer(s, fd, data);
    case Write(n) =>
      if s.current != [] {
        assert s.current[0] in s.current;
      }
    case _ =>
      forall p: Piece ensures p in Reverse(s.queue) <==> p in s.queue {
        ReverseHas(s.queue, p);
      }
  }

  lemma FetchLined(s: State, fd: int)
    requires Inv(s) && QueueNewer(s) && Lined(s, fd) && Guarded(s, Fetch, fd) && !s.fetched && s.current == []
    ensures Lined(Take(s, Fetch), fd)
  {
    var w := Reverse(s.queue) + s.write;
    forall i, j | 0 <= i < j < |w| && Live(w[i], fd) && Live(w[j], fd) ensures w[i].id < w[j].id {
      var n := |s.queue|;
      ReverseHas(s.queue, w[i]);
      assert i < n ==> w[i] in s.queue && HasLive(s.queue, fd);
      assert j >= n ==> w[j] in s.write && HasLive(s.write, fd);
      if j < n {
        ReverseAt(s.queue, i);
        ReverseAt(s.queue, j);
      } else {
        assert w[i] == s.write[i - n] && w[j] == s.write[j - n];
      }
    }
  }

  lemma WriteLined(s: State, n: int, fd: int)
    requires Lined(s, fd) && Guarded(s, Write(n), fd) && s.current != [] && n <= |s.current[0].buf| && !s.fetched
    ensures Lined(Take(s, Write(n)), fd)
  {
    var s', p := Take(s, Write(n)), s.current[0];
    assert forall k :: 0 <= k < |s.current[1..]| ==> s.current[1..][k] == s.current[k + 1];
    assert Live(p, fd) ==> HasLive(s.current, fd);
    if 0 <= n < |p.buf| {
      assert forall k :: 0 < k < |s'.write| ==> s'.write[k] == s.write[k - 1] && s.write[k - 1] in s.write;
    }
    if HasLive(s'.current, fd) {
      assert HasLive(s.current, fd);
    }
  }

  lemma GuardedKeeps(s: State, step: Step, fd: int)
    requires Inv(s) && QueueNewer(s) && Lined(s, fd) && Guarded(s, step, fd)
    ensures Lined(Take(s, step), fd)
  {
    match step
    case Write(n) => if s.current != [] && n <= |s.current[0].buf| { WriteLined(s, n, fd); }
    case Fetch => if !s.fetched && s.current == [] { FetchLined(s, fd); }
    case _ =>
  }

  // In a line, the first record is the oldest.
  lemma LinedOldest(s: State, step: Step, fd: int)
    requires Inv(s) && QueueNewer(s) && Lined(s, fd)
    ensures Oldest(s, step, fd)
  {
    if Moves(s, step, fd) {
      var p := s.current[0];
      assert p in s.current && Live(p, fd) && HasLive(s.current, fd);
      forall q | Pending(s, q) && Live(q, fd) ensures p.id <= q.id {
        assert q in s.write ==> HasLive(s.write, fd);
      }
    }
  }

  lemma {:induction false} GuardedOldest(s: State, steps: seq<Step>, fd: int)
    requires Inv(s) && QueueNewer(s) && Lined(s, fd) && GuardedRun(s, steps, fd)
    ensures OldestRun(s, steps, fd)
    decreases |steps|
  {
    hide Inv, QueueNewer, Lined, Take, Oldest, Guarded;
    if steps != [] {
      LinedOldest(s, steps[0], fd);
      StepKeeps(s, steps[0]);
      StepNewer(s, steps[0]);
      GuardedKeeps(s, steps[0], fd);
      GuardedOldest(Take(s, steps[0]), steps[1..], fd);
    }
  }

  // ------------------------------------------------------ without the guards

  predicate Precedes(list: seq<Piece>, q: Piece, p: Piece) {
    exists i, j :: 0 <= i < j < |list| && list[i] == q && list[j] == p
  }

  // Record q will be written before the rest of the older record p.
  ghost predicate Ahead(s: State, q: Piece, p: Piece, fd: int) {
    && Live(q, fd) && Live(p, fd) && p.id < q.id
    && (|| (!s.fetched && q in s.current && p in s.write)
        || Precedes(s.current, q, p)
        || (s.fetched && Precedes(s.write, q, p)))
  }

  lemma AheadPending(s: State, q: Piece, p: Piece, fd: int)
    requires Ahead(s, q, p, fd)
    ensures Pending(s, q) && Pending(s, p)
  {
  }

  lemma AheadStep(s: State, step: Step, q: Piece, p: Piece, fd: int)
    requires Inv(s) && Ahead(s, q, p, fd) && Moving(s, step, fd) && Oldest(s, step, fd)
    ensures Ahead(Take(s, step), q, p, fd) || q.id in Take(s, step).failed
  {
    AheadPending(s, q, p, fd);
    match step
    case Write(n) =>
      if s.current != [] && n <= |s.current[0].buf| {
        AheadWrite(s, n, q, p, fd);
      }
    case Begin =>
    case _ =>
  }

  lemma AheadWrite(s: State, n: int, q: Piece, p: Piece, fd: int)
    requires Inv(s) && Ahead(s, q, p, fd) && Moving(s, Write(n), fd) && Oldest(s, Write(n), fd)
    requires s.current != [] && n <= |s.current[0].buf| && Pending(s, p)
    ensures Ahead(Take(s, Write(n)), q, p, fd) || q.id in Take(s, Write(n)).failed
  {
    var s', h := Take(s, Write(n)), s.current[0];
    if h != q {
      if Precedes(s.current, q, p) {
        var i, j :| 0 <= i < j < |s.current| && s.current[i] == q && s.current[j] == p;
        assert s'.current[i - 1] == q && s'.current[j - 1] == p;
      } else {
        var i :| 0 <= i < |s.current| && s.current[i] == q;
        assert s'.current[i - 1] == q;
      }
    }
  }

  // An unguarded write takes a record out of turn, or puts one ahead of its rest.
  lemma UnguardedWrite(s: State, n: int, fd: int) returns (q: Piece, p: Piece)
    requires Inv(s) && !Guarded(s, Write(n), fd) && Moving(s, Write(n), fd) && Oldest(s, Write(n), fd)
    ensures Ahead(Take(s, Write(n)), q, p, fd)
  {
    hide Written, Count;
    var s', h := Take(s, Write(n)), s.current[0];
    q :| q in s.current[1..] && Live(q, fd);
    p := h.(nsent := h.nsent + n, buf := h.buf[n..]);
    assert RecordMatches(s, h.id);
    hide Inv;
    OthersDiffer(s, q);
    assert Pending(s, q);
    assert s'.write[0] == p;
  }

  // An unguarded fetch puts a record ahead of a rest.
  lemma UnguardedFetch(s: State, fd: int) returns (q: Piece, p: Piece)
    requires QueueNewer(s) && !Guarded(s, Fetch, fd)
    ensures Ahead(Take(s, Fetch), q, p, fd)
  {
    var s' := Take(s, Fetch);
    p :| p in s.write && Live(p, fd);
    q :| q in s.queue && Live(q, fd);
    ReverseHas(s.queue, q);
    var i :| 0 <= i < |Reverse(s.queue)| && Reverse(s.queue)[i] == q;
    var j :| 0 <= j < |s.write| && s.write[j] == p;
    assert s'.write[i] == q && s'.write[|Reverse(s.queue)| + j] == p;
  }

  lemma UnguardedAhead(s: State, step: Step, fd: int) returns (q: Piece, p: Piece)
    requires Inv(s) && QueueNewer(s) && !Guarded(s, step, fd) && Moving(s, step, fd) && Oldest(s, step, fd)
    ensures Ahead(Take(s, step), q, p, fd)
  {
    hide Inv, QueueNewer, Take, Oldest, Ahead;
    if step.Write? {
      q, p := UnguardedWrite(s, step.n, fd);
    } else {
      q, p := UnguardedFetch(s, fd);
    }
  }

  lemma {:induction false} AheadBreaks(s: State, steps: seq<Step>, q: Piece, p: Piece, fd: int)
    requires Inv(s) && Ahead(s, q, p, fd) && MovingRun(s, steps, fd) && Settled(Run(s, steps), fd)
    ensures !OldestRun(s, steps, fd)
    decreases |steps|
  {
    AheadPending(s, q, p, fd);
    if steps != [] && Oldest(s, steps[0], fd) {
      AheadStep(s, steps[0], q, p, fd);
      StepKeeps(s, steps[0]);
      hide Inv, Take, Oldest, Moving, Ahead;
      if Ahead(Take(s, steps[0]), q, p, fd) {
        AheadBreaks(Take(s, steps[0]), steps[1..], q, p, fd);
      } else {
        NotFailed(s, steps, q, fd);
        RunGrows(Take(s, steps[0]), steps[1..]);
      }
    }
  }

  lemma NotFailed(s: State, steps: seq<Step>, q: Piece, fd: int)
    requires Inv(s) && Pending(s, q) && Live(q, fd) && Settled(Run(s, steps), fd)
    ensures q.id !in Run(s, steps).failed
  {
    assert PieceMatches(s, q);
    RunGrows(s, steps);
  }

  lemma {:induction false} OldestGuarded(s: State, steps: seq<Step>, fd: int)
    requires Inv(s) && QueueNewer(s) && MovingRun(s, steps, fd) && Settled(Run(s, steps), fd) && OldestRun(s, steps, fd)
    ensures GuardedRun(s, steps, fd)
    decreases |steps|
  {
    hide Inv, QueueNewer, Take, Oldest, Guarded, Moving, Settled, Ahead;
    if steps != [] {
      StepKeeps(s, steps[0]);
      StepNewer(s, steps[0]);
      if !Guarded(s, steps[0], fd) {
        var q, p := UnguardedAhead(s, steps[0], fd);
        AheadBreaks(Take(s, steps[0]), steps[1..], q, p, fd);
      }
      OldestGuarded(Take(s, steps[0]), steps[1..], fd);
    }
  }

  // A settled descriptor whose writes moved at least a byte each received its
  // bytes in order exactly if the two guards held throughout.
  lemma OrderedExactlyIfGuarded(steps: seq<Step>, fd: int)
    requires MovingRun(START, steps, fd) && Settled(Run(START, steps), fd)
    ensures InSequence(Run(START, steps).out, fd) <==> GuardedRun(START, steps, fd)
  {
    hide Run, OldestRun, GuardedRun, MovingRun;
    StartInLine(fd);
    OrderedExactlyIfOldest(steps, fd);
    if GuardedRun(START, steps, fd) {
      GuardedOldest(START, steps, fd);
    }
    if OldestRun(START, steps, fd) {
      OldestGuarded(START, steps, fd);
    }
  }
}

/**
  The asynchronous log writer (NsAsyncWrite and AsyncWriterThread in
  nsd/driver.c) while it is enabled.  Submitters push records on the queue; the
  writer thread moves them to its own list, one push at a time, and writes the
  list's records in turn, keeping what was not written for the next pass.
*/
module AsyncLog {
  import opened Basics
  import opened Bytes

  // Bytes of record id, from offset nsent: still to be written, or written.
  datatype Piece = Piece(id: nat, fd: int, nsent: nat, buf: seq<Byte>)

  datatype State = State(
    queue: seq<Piece>,          // sockPtr, the newest first
    write: seq<Piece>,          // writePtr
    current: seq<Piece>,        // what is left of the pass under way
    fetched: bool,              // the queue was fetched, a pass is next
    queuesize: int,
    out: seq<Piece>,            // what was written, in order
    submitted: seq<Piece>,
    failed: set<nat>            // records given up on a write error
  )

  datatype Step =
    | Submit(fd: int, data: seq<Byte>)
    | Begin                     // of a pass over the list
    | Write(n: int)             // the next record; n as returned by the system
    | Fetch                     // the queue

  const START: State := State([], [], [], true, 0, [], [], {})

  // Of piece p, n bytes were written.
  function WriteOne(s: State, p: Piece, n: int): State {
    if n < 0 then s.(failed := s.failed + {p.id}, queuesize := s.queuesize - 1)
    else if n > |p.buf| then s
    else
      var s1 := s.(out := s.out + [p.(buf := p.buf[..n])]);
      if n < |p.buf| then s1.(write := [p.(nsent := p.nsent + n, buf := p.buf[n..])] + s.write)
      else s1.(queuesize := s.queuesize - 1)
  }

  function Take(s: State, step: Step): State {
    match step
    case Submit(fd, data) =>
      var p := Piece(|s.submitted|, fd, 0, data);
      s.(queue := [p] + s.queue, submitted := s.submitted + [p])
    case Begin => if !s.fetched then s else s.(current := s.write, write := [], fetched := false)
    case Write(n) =>
      if s.current == [] || n > |s.current[0].buf| then s
      else WriteOne(s.(current := s.current[1..]), s.current[0], n)
    case Fetch =>
      if s.fetched || s.current != [] then s
      else s.(queue := [], write := Reverse(s.queue) + s.write, fetched := true, queuesize := s.queuesize + |s.queue|)
  }

  function Run(s: State, steps: seq<Step>): State
    decreases |steps|
  {
    if steps == [] then s else Run(Take(s, steps[0]), steps[1..])
  }

  // ------------------------------------------------------ order per descriptor

  function For(s: seq<Piece>, fd: int): seq<seq<Byte>> {
    if s == [] then []
    else (if s[0].fd == fd then [s[0].buf] else []) + For(s[1..], fd)
  }

  lemma {:induction false} ForAppend(a: seq<Piece>, b: seq<Piece>, fd: int)
    ensures For(a + b, fd) == For(a, fd) + For(b, fd)
  {
    if a == [] {
      assert a + b == b;
    } else {
      assert (a + b)[1..] == a[1..] + b;
      ForAppend(a[1..], b, fd);
    }
  }

  // The step writes a record for fd, if it writes one, completely.
  predicate Complete(s: State, step: Step, fd: int) {
    step.Write? && s.current != [] && s.current[0].fd == fd ==> step.n == |s.current[0].buf|
  }

  predicate CompleteRun(s: State, steps: seq<Step>, fd: int)
    decreases |steps|
  {
    steps == [] || (Complete(s, steps[0], fd) && CompleteRun(Take(s, steps[0]), steps[1..], fd))
  }

  // What was written, and then what is still to be written, in order.
  function Line(s: State, fd: int): seq<seq<Byte>> {
    For(s.out, fd) + For(s.current, fd) + For(s.write, fd) + For(Reverse(s.queue), fd)
  }

  ghost predicate InOrder(s: State, fd: int) {
    Line(s, fd) == For(s.submitted, fd) && (s.fetched ==> s.current == []) && (!s.fetched ==> For(s.write, fd) == [])
  }

  lemma WriteInOrder(s: State, n: int, fd: int)
    requires InOrder(s, fd) && Complete(s, Write(n), fd)
    ensures InOrder(Take(s, Write(n)), fd)
  {
    if s.current != [] && n <= |s.current[0].buf| {
      var p := s.current[0];
      var s' := Take(s, Write(n));
      assert s.current == [p] + s.current[1..];
      if n >= 0 {
        ForAppend(s.out, [p.(buf := p.buf[..n])], fd);
      }
      assert p.fd == fd ==> p.buf[..n] == p.buf;
      assert For(s'.out, fd) + For(s'.current, fd) == For(s.out, fd) + For(s.current, fd);
    }
  }

  lemma SubmitInOrder(s: State, to: int, data: seq<Byte>, fd: int)
    requires InOrder(s, fd)
    ensures InOrder(Take(s, Submit(to, data)), fd)
  {
    hide For;
    var p := Piece(|s.submitted|, to, 0, data);
    assert ([p] + s.queue)[1..] == s.queue;
    ForAppend(Reverse(s.queue), [p], fd);
    ForAppend(s.submitted, [p], fd);
  }

  lemma StepInOrder(s: State, step: Step, fd: int)
    requires InOrder(s, fd) && Complete(s, step, fd)
    ensures InOrder(Take(s, step), fd)
  {
    match step
    case Submit(_, data) => SubmitInOrder(s, step.fd, data, fd);
    case Write(n) => WriteInOrder(s, n, fd);
    case Begin =>
    case Fetch => ForAppend(Reverse(s.queue), s.write, fd);
  }

  lemma {:induction false} RunInOrder(s: State, steps: seq<Step>, fd: int)
    requires InOrder(s, fd) && CompleteRun(s, steps, fd)
    ensures InOrder(Run(s, steps), fd)
    decreases |steps|
  {
    hide InOrder, Take;
    if steps != [] {
      StepInOrder(s, steps[0], fd);
      RunInOrder(Take(s, steps[0]), steps[1..], fd);
    }
  }

  // A descriptor whose writes are complete receives the records submitted for
  // it in the order of submission, whatever happens to the other descriptors;
  // and all of them once nothing is left to be written.
  lemma Fifo(steps: seq<Step>, fd: int)
    requires CompleteRun(START, steps, fd)
    ensures var s := Run(START, steps);
            && For(s.out, fd) <= For(s.submitted, fd)
            && (s.queue == [] && s.write == [] && s.current == [] ==> For(s.out, fd) == For(s.submitted, fd))
  {
    hide Take;
    RunInOrder(START, steps, fd);
  }

  // -------------------------------------------------------- every byte once

  // The bytes of record id that were written, in the order of the writes.
  function Written(out: seq<Piece>, id: nat): seq<Byte> {
    if out == [] then []
    else (if out[0].id == id then out[0].buf else []) + Written(out[1..], id)
  }

  lemma {:induction false} WrittenAppend(a: seq<Piece>, p: Piece, id: nat)
    ensures Written(a + [p], id) == Written(a, id) + if p.id == id then p.buf else []
  {
    if a == [] {
      assert a + [p] == [p];
    } else {
      assert (a + [p])[1..] == a[1..] + [p];
      WrittenAppend(a[1..], p, id);
    }
  }

  function Count(s: seq<Piece>, id: nat): nat {
    if s == [] then 0 else (if s[0].id == id then 1 else 0) + Count(s[1..], id)
  }

  lemma {:induction false} CountAppend(a: seq<Piece>, b: seq<Piece>, id: nat)
    ensures Count(a + b, id) == Count(a, id) + Count(b, id)
  {
    if a == [] {
      assert a + b == b;
    } else {
      assert (a + b)[1..] == a[1..] + b;
      CountAppend(a[1..], b, id);
    }
  }

  lemma {:induction false} CountReverse(s: seq<Piece>, id: nat)
    ensures Count(Reverse(s), id) == Count(s, id)
  {
    if s != [] {
      CountReverse(s[1..], id);
      CountAppend(Reverse(s[1..]), [s[0]], id);
    }
  }

  lemma {:induction false} CountOf(s: seq<Piece>, p: Piece)
    requires p in s
    ensures Count(s, p.id) > 0
  {
    if s[0] != p {
      CountOf(s[1..], p);
    }
  }

  predicate Pending(s: State, p: Piece) {
    p in s.queue || p in s.write || p in s.current
  }

  function Pendings(s: State, id: nat): nat {
    Count(s.queue, id) + Count(s.write, id) + Count(s.current, id)
  }

  // What was written of a record and what is pending make up the record.
  ghost predicate PieceMatches(s: State, p: Piece) {
    Pending(s, p) ==>
      && p.id < |s.submitted| && p.fd == s.submitted[p.id].fd
      && Written(s.out, p.id) + p.buf == s.submitted[p.id].buf
      && p.nsent == |Written(s.out, p.id)|
  }

  // A record is pending once at most; if it is not, it was written or given up.
  ghost predicate RecordMatches(s: State, id: nat) {
    && Pendings(s, id) <= 1
    && (id >= |s.submitted| ==> Written(s.out, id) == [] && Pendings(s, id) == 0)
    && (id < |s.submitted| && Pendings(s, id) == 0 ==>
          Written(s.out, id) <= s.submitted[id].buf && (id !in s.failed ==> Written(s.out, id) == s.submitted[id].buf))
  }

  // Pieces go to the descriptor and come from the place in their record.
  ghost predicate OutMatches(s: State, p: Piece) {
    p in s.out ==>
      && p.id < |s.submitted| && p.fd == s.submitted[p.id].fd
      && p.nsent + |p.buf| <= |s.submitted[p.id].buf|
      && p.buf == s.submitted[p.id].buf[p.nsent..p.nsent + |p.buf|]
  }

  ghost predicate Inv(s: State) {
    && (forall p :: PieceMatches(s, p) && OutMatches(s, p))
    && (forall id :: RecordMatches(s, id))
    && s.queuesize == |s.write| + |s.current|
    && (s.fetched ==> s.current == [])
  }

  lemma SubmitKeeps(s: State, fd: int, data: seq<Byte>)
    requires Inv(s)
    ensures Inv(Take(s, Submit(fd, data)))
  {
    var s' := Take(s, Submit(fd, data));
    var id := |s.submitted|;
    assert s'.queue[1..] == s.queue;
    assert RecordMatches(s, id);
    forall p ensures PieceMatches(s', p) && OutMatches(s', p) {
      assert PieceMatches(s, p) && OutMatches(s, p);
    }
    forall k: nat ensures RecordMatches(s', k) {
      assert RecordMatches(s, k);
    }
  }

  lemma WriteKeeps(s: State, n: int)
    requires Inv(s) && s.current != [] && n <= |s.current[0].buf|
    ensures Inv(Take(s, Write(n)))
  {
    var s' := Take(s, Write(n));
    var q := s.current[0];
    assert PieceMatches(s, q) && RecordMatches(s, q.id);
    forall p: Piece ensures PieceMatches(s', p) && OutMatches(s', p) {
      assert PieceMatches(s, p) && OutMatches(s, p);
      WritePiece(s, n, p);
    }
    forall id: nat ensures RecordMatches(s', id) {
      assert RecordMatches(s, id);
      if n >= 0 { WrittenAppend(s.out, q.(buf := q.buf[..n]), id); }
      assert n >= 0 && n < |q.buf| ==> s'.write[1..] == s.write;
    }
  }

  lemma WritePiece(s: State, n: int, p: Piece)
    requires Inv(s) && s.current != [] && n <= |s.current[0].buf|
    ensures PieceMatches(Take(s, Write(n)), p) && OutMatches(Take(s, Write(n)), p)
  {
    var s' := Take(s, Write(n));
    var q := s.current[0];
    assert PieceMatches(s, q) && RecordMatches(s, q.id) && PieceMatches(s, p) && OutMatches(s, p);
    if n >= 0 { WrittenAppend(s.out, q.(buf := q.buf[..n]), p.id); }
    OthersDiffer(s, p);
  }

  // Nothing else of the first record of the pass is pending.
  lemma OthersDiffer(s: State, p: Piece)
    requires s.current != [] && Pendings(s, s.current[0].id) <= 1
    ensures p in s.queue || p in s.write || p in s.current[1..] ==> p.id != s.current[0].id
  {
    if p in s.queue { CountOf(s.queue, p); }
    if p in s.write { CountOf(s.write, p); }
    if p in s.current[1..] { CountOf(s.current[1..], p); }
  }

  lemma MoveKeeps(s: State, step: Step)
    requires Inv(s) && (step.Begin? || step.Fetch?)
    ensures Inv(Take(s, step))
  {
    var s' := Take(s, step);
    forall p: Piece ensures Pending(s', p) == Pending(s, p) {
      ReverseHas(s.queue, p);
    }
    forall p ensures PieceMatches(s', p) && OutMatches(s', p) {
      assert PieceMatches(s, p) && OutMatches(s, p);
    }
    forall id: nat ensures RecordMatches(s', id) {
      assert RecordMatches(s, id);
      CountReverse(s.queue, id);
      CountAppend(Reverse(s.queue), s.write, id);
    }
    ReverseSame(s.queue);
  }

  lemma StepKeeps(s: State, step: Step)
    requires Inv(s)
    ensures Inv(Take(s, step))
  {
    hide Inv;
    match step
    case Submit(fd, data) => SubmitKeeps(s, fd, data);
    case Write(n) => if s.current != [] && n <= |s.current[0].buf| { WriteKeeps(s, n); }
    case _ => MoveKeeps(s, step);
  }

  lemma {:induction false} RunKeeps(s: State, steps: seq<Step>)
    requires Inv(s)
    ensures Inv(Run(s, steps))
    decreases |steps|
  {
    hide Inv, Take;
    if steps != [] {
      StepKeeps(s, steps[0]);
      RunKeeps(Take(s, steps[0]), steps[1..]);
    }
  }

  // In every run, with partial and failing writes: the bytes written of a
  // record, put together, are a beginning of it; they are all of it when it is
  // no longer pending, unless a write of it failed.
  lemma EveryByteOnce(steps: seq<Step>, id: nat)
    requires id < |Run(START, steps).submitted|
    ensures var s := Run(START, steps);
            && Written(s.out, id) <= s.submitted[id].buf
            && (id !in s.failed && Pendings(s, id) == 0 ==> Written(s.out, id) == s.submitted[id].buf)
            && (forall p :: p in s.out && p.id == id ==> p.fd == s.submitted[id].fd)
  {
    hide Take;
    RunKeeps(START, steps);
    var s := Run(START, steps);
    assert RecordMatches(s, id);
    forall p | p in s.out && p.id == id ensures p.fd == s.submitted[id].fd {
      assert OutMatches(s, p);
    }
    if Pendings(s, id) > 0 {
      var p := PendingPiece(s, id);
      assert PieceMatches(s, p);
    }
  }

  lemma PendingPiece(s: State, id: nat) returns (p: Piece)
    requires Pendings(s, id) > 0
    ensures Pending(s, p) && p.id == id
  {
    if Count(s.queue, id) > 0 { p := CountedPiece(s.queue, id); }
    else if Count(s.write, id) > 0 { p := CountedPiece(s.write, id); }
    else { p := CountedPiece(s.current, id); }
  }

  lemma CountedPiece(s: seq<Piece>, id: nat) returns (p: Piece)
    requires Count(s, id) > 0
    ensures p in s && p.id == id
  {
    if s[0].id == id { p := s[0]; } else { p := CountedPiece(s[1..], id); }
  }
}

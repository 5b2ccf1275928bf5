/**
  The lists of a driver's sockets and the count of its queue (DriverThread,
  SockAccept, SockRelease and NsSockClose in nsd/driver.c).  The driver thread
  takes one of its lists at a time and moves each socket on it to its next
  place, while connection threads hand sockets back and spooler threads release
  them at any moment.

  The lists that threads share are changed under a lock, each change in one
  step.  The count is changed without a lock: a thread loads it in one step and
  stores it, one more or one less, in a later one.
*/
module DriverLists {
  import opened Basics

  type Sock = nat

  // A spin of the driver thread: the list it works on.
  datatype Stage = Closing | Reading | Retrying | Accepting | Returning

  // Where a socket goes.
  datatype Outcome =
    | Released
    | ReadOn      // read list
    | Served      // to a connection thread or the spooler
    | Waits       // wait list: no connection thread took it
    | Closes      // close list
    | Failed      // accept failed

  datatype Lists = Lists(
    stage: Stage,
    current: seq<Sock>,         // the rest of the list under way
    open: bool,                 // accepting: nobody waits
    read: seq<Sock>,
    wait: seq<Sock>,
    close: seq<Sock>,
    back: seq<Sock>,            // handed back: closePtr of the driver
    free: seq<Sock>,            // sockPtr of the driver
    service: multiset<Sock>,
    next: Sock,                 // sockets allocated so far
    clock: nat,
    since: map<Sock, nat>       // when a socket joined the wait list
  )

  datatype State = State(
    lists: Lists,
    queuesize: int,
    max: nat,
    admitted: bool,             // the driver thread is about to accept
    mine: Option<int>,          // the count as loaded by the driver thread
    theirs: map<Sock, int>      // and by spoolers about to release a socket
  )

  datatype Step =
    | Advance                   // to the next list
    | Load                      // the count, by the driver thread about to release or accept
    | Handle(to: Outcome)       // the next socket of the list
    | Admit                     // the queue is not full
    | Accept(to: Outcome)
    | HandBack(x: Sock)         // a connection thread is done with a socket
    | DropLoad(x: Sock)         // the count, by a spooler that releases a socket
    | Drop(x: Sock)             // the release

  function Start(max: nat): State {
    State(Lists(Returning, [], false, [], [], [], [], [], multiset{}, 0, 0, map[]), 0, max, false, None, map[])
  }

  // Outcomes for the sockets of a list; one that could not be read when it was
  // accepted is released.
  predicate Allowed(stage: Stage, o: Outcome) {
    match stage
    case Closing => o == Released || o == Closes
    case Reading => o == Released || o == ReadOn || o == Served || o == Waits
    case Retrying => o == Served || o == Waits
    case Accepting => o == Released
    case Returning => o == ReadOn || o == Released || o == Closes
  }

  predicate Acceptable(o: Outcome) {
    o != Closes
  }

  // Socket x, on no list, goes to its next place.
  function Put(l: Lists, x: Sock, o: Outcome): Lists {
    match o
    case Released => l.(free := [x] + l.free)
    case ReadOn => l.(read := [x] + l.read)
    case Served => l.(service := l.service + multiset{x})
    case Closes => l.(close := [x] + l.close)
    case Failed => l.(free := [x] + l.free)
    case Waits =>
      if l.stage == Retrying then l.(wait := [x] + l.wait)
      else l.(wait := [x] + l.wait, since := l.since[x := l.clock], clock := l.clock + 1)
  }

  function Advanced(l: Lists): Lists {
    match l.stage
    case Returning => l.(stage := Closing, current := l.close, close := [])
    case Closing => l.(stage := Reading, current := l.read, read := [])
    case Reading => l.(stage := Retrying, current := Reverse(l.wait), wait := [])
    case Retrying => l.(stage := Accepting, open := l.wait == [])
    case Accepting => l.(stage := Returning, current := l.back, back := [])
  }

  function Handled(l: Lists, o: Outcome): Lists
    requires l.current != []
  {
    Put(l.(current := l.current[1..]), l.current[0], o)
  }

  // A Sock structure from the free list, or a new one.
  function Allocate(l: Lists): (Lists, Sock) {
    if l.free == [] then (l.(next := l.next + 1), l.next) else (l.(free := l.free[1..]), l.free[0])
  }

  function Accepted(l: Lists, o: Outcome): Lists {
    var (l1, x) := Allocate(l);
    if o == Released then l1.(current := [x]) else Put(l1, x, o)
  }

  // Socket x leaves service.
  function Left(l: Lists, x: Sock): Lists {
    l.(service := l.service - multiset{x})
  }

  // And is handed back.
  function Handed(l: Lists, x: Sock): Lists {
    Left(l, x).(back := [x] + l.back)
  }

  // The value a step stores one more or one less of, if it stores the count.
  function Loaded(s: State, step: Step): Option<int> {
    match step
    case Handle(o) => if o == Released && s.lists.current != [] && Allowed(s.lists.stage, o) then s.mine else None
    case Accept(o) => if o != Failed && s.admitted && Acceptable(o) then s.mine else None
    case Drop(x) => if x in s.theirs && x in s.lists.service then Some(s.theirs[x]) else None
    case _ => None
  }

  function Take(s: State, step: Step): State {
    var l := s.lists;
    match step
    case Advance => if l.current != [] || s.admitted || s.mine.Some? then s else s.(lists := Advanced(l))
    case Load =>
      if s.mine.None? && (s.admitted || (l.current != [] && Allowed(l.stage, Released))) then s.(mine := Some(s.queuesize)) else s
    case Handle(o) =>
      if l.current == [] || !Allowed(l.stage, o) then s
      else if o != Released then (if s.mine.Some? then s else s.(lists := Handled(l, o)))
      else if s.mine.None? then s
      else s.(lists := Handled(l, o), queuesize := s.mine.value - 1, mine := None)
    case Admit =>
      if l.stage == Accepting && l.open && l.current == [] && s.mine.None? && s.queuesize < s.max
      then s.(admitted := true) else s
    case Accept(o) =>
      if !s.admitted || !Acceptable(o) then s
      else if o == Failed then (if s.mine.Some? then s else s.(lists := Accepted(l, o), admitted := false))
      else if s.mine.None? then s
      else s.(lists := Accepted(l, o), queuesize := s.mine.value + 1, mine := None, admitted := false)
    case HandBack(x) =>
      if x !in l.service || x in s.theirs then s else s.(lists := Handed(l, x))
    case DropLoad(x) =>
      if x !in l.service || x in s.theirs then s else s.(theirs := s.theirs[x := s.queuesize])
    case Drop(x) =>
      if x !in l.service || x !in s.theirs then s
      else s.(lists := Put(Left(l, x), x, Released), queuesize := s.theirs[x] - 1, theirs := s.theirs - {x})
  }

  function Run(s: State, steps: seq<Step>): State
    decreases |steps|
  {
    if steps == [] then s else Run(Take(s, steps[0]), steps[1..])
  }

  // ------------------------------------------------------------ conservation

  function Count(s: seq<Sock>, x: Sock): nat {
    multiset(s)[x]
  }

  // In how many places socket x is.
  function Places(l: Lists, x: Sock): nat {
    Count(l.current, x) + Count(l.read, x) + Count(l.wait, x) + Count(l.close, x) + Count(l.back, x) +
    Count(l.free, x) + l.service[x]
  }

  // The number of sockets accepted and not released.
  function Busy(l: Lists): nat {
    |l.current| + |l.read| + |l.wait| + |l.close| + |l.back| + |l.service|
  }

  // Every socket is in exactly one place.
  ghost predicate Conserved(l: Lists) {
    forall x: Sock :: Places(l, x) == if x < l.next then 1 else 0
  }

  lemma CountCons(y: Sock, s: seq<Sock>, x: Sock)
    ensures Count([y] + s, x) == Count(s, x) + if x == y then 1 else 0
  {
  }

  lemma CountOne(y: Sock, x: Sock)
    ensures Count([y], x) == (if x == y then 1 else 0) && Count([], x) == 0
  {
  }

  // A socket put to a place is there once more.
  lemma PutPlaces(l: Lists, y: Sock, o: Outcome, x: Sock)
    ensures Places(Put(l, y, o), x) == Places(l, x) + if x == y then 1 else 0
  {
    hide Count;
    match o
    case Released => CountCons(y, l.free, x);
    case Failed => CountCons(y, l.free, x);
    case ReadOn => CountCons(y, l.read, x);
    case Closes => CountCons(y, l.close, x);
    case Waits =>
      CountCons(y, l.wait, x);
      if l.stage == Retrying {} else {}
    case Served =>
  }

  lemma PutBusy(l: Lists, y: Sock, o: Outcome)
    ensures Put(l, y, o).next == l.next
    ensures Busy(Put(l, y, o)) == Busy(l) + (if o == Failed || o == Released then 0 else 1)
  {
    match o
    case Waits => if l.stage == Retrying {} else {}
    case _ =>
  }

  lemma HandledConserves(l: Lists, o: Outcome)
    requires l.current != []
    ensures Conserved(l) ==> Conserved(Handled(l, o))
    ensures Busy(Handled(l, o)) == Busy(l) - (if o == Failed || o == Released then 1 else 0)
  {
    hide Count, Put;
    var y, l1 := l.current[0], l.(current := l.current[1..]);
    assert l.current == [y] + l.current[1..];
    PutBusy(l1, y, o);
    forall x: Sock ensures Places(Handled(l, o), x) == Places(l, x) {
      CountCons(y, l.current[1..], x);
      PutPlaces(l1, y, o, x);
    }
  }

  lemma AdvancedConserves(l: Lists)
    requires l.current == []
    ensures Conserved(l) ==> Conserved(Advanced(l))
    ensures Busy(Advanced(l)) == Busy(l)
  {
    hide Count, Reverse;
    forall x: Sock ensures Places(Advanced(l), x) == Places(l, x) {
      AdvancedPlaces(l, x);
    }
    ReverseSame(l.wait);
    if l.stage == Reading {} else {}
  }

  lemma AdvancedPlaces(l: Lists, x: Sock)
    requires l.current == []
    ensures Places(Advanced(l), x) == Places(l, x)
  {
    hide Reverse;
    ReverseSame(l.wait);
    if l.stage == Reading {} else {}
  }

  lemma AllocatePlaces(l: Lists, x: Sock)
    ensures var (l1, y) := Allocate(l);
            && Places(l1, x) + (if x == y then 1 else 0) == Places(l, x) + (if l.free == [] && x == l.next then 1 else 0)
            && Busy(l1) == Busy(l) && l1.next == l.next + (if l.free == [] then 1 else 0)
  {
    hide Count;
    if l.free != [] {
      assert l.free == [l.free[0]] + l.free[1..];
      CountCons(l.free[0], l.free[1..], x);
    }
  }

  lemma AcceptedConserves(l: Lists, o: Outcome)
    requires l.current == [] && Acceptable(o)
    ensures Conserved(l) ==> Conserved(Accepted(l, o))
    ensures Busy(Accepted(l, o)) == Busy(l) + (if o == Failed then 0 else 1)
  {
    hide Count, Put, Allocate;
    var (l1, y) := Allocate(l);
    PutBusy(l1, y, o);
    AllocatePlaces(l, 0);
    forall x: Sock
      ensures Places(Accepted(l, o), x) == Places(l, x) + if l.free == [] && x == l.next then 1 else 0
    {
      AllocatePlaces(l, x);
      AllocateCurrent(l);
      PutPlaces(l1, y, o, x);
      CountOne(y, x);
    }
    AllocateCurrent(l);
  }

  lemma AllocateCurrent(l: Lists)
    ensures Allocate(l).0.current == l.current
  {
  }

  // A socket leaves service.
  lemma LeftConserves(l: Lists, y: Sock)
    requires y in l.service
    ensures Conserved(l) ==> Conserved(Put(Left(l, y), y, Released)) && Conserved(Handed(l, y))
    ensures Busy(Put(Left(l, y), y, Released)) == Busy(l) - 1 && Busy(Handed(l, y)) == Busy(l)
  {
    hide Count, Put;
    PutBusy(Left(l, y), y, Released);
    assert |l.service - multiset{y}| == |l.service| - 1;
    forall x: Sock
      ensures Places(Put(Left(l, y), y, Released), x) == Places(l, x)
      ensures Places(Handed(l, y), x) == Places(l, x)
    {
      assert Places(Left(l, y), x) == Places(l, x) - if x == y then 1 else 0;
      PutPlaces(Left(l, y), y, Released, x);
      CountCons(y, l.back, x);
    }
  }

  // What a driver thread keeps between its steps.
  ghost predicate Tidy(s: State) {
    s.admitted ==> s.lists.stage == Accepting && s.lists.current == []
  }

  lemma StepTidy(s: State, step: Step)
    requires Tidy(s)
    ensures Tidy(Take(s, step))
  {
    hide Put, Advanced, Accepted, Handled;
    match step
    case Drop(x) => PutLeft(s.lists, x);
    case _ =>
  }

  lemma StepConserves(s: State, step: Step)
    requires Conserved(s.lists) && Tidy(s)
    ensures Conserved(Take(s, step).lists)
  {
    hide Conserved, Put, Advanced, Accepted, Handled, Busy, Allowed;
    var l := s.lists;
    match step
    case Advance => if l.current == [] { AdvancedConserves(l); }
    case Handle(o) =>
      if l.current != [] && Allowed(l.stage, o) {
        HandledConserves(l, o);
        if o != Released { if s.mine.Some? {} else {} } else if s.mine.Some? {}
      }
    case Accept(o) =>
      if s.admitted && Acceptable(o) {
        AcceptedConserves(l, o);
        if o == Failed { if s.mine.Some? {} else {} } else if s.mine.Some? {}
      }
    case HandBack(x) => if x in l.service { LeftConserves(l, x); }
    case Drop(x) => if x in l.service { LeftConserves(l, x); if x in s.theirs {} }
    case _ =>
  }

  lemma PutLeft(l: Lists, x: Sock)
    ensures Put(Left(l, x), x, Released).current == l.current && Put(Left(l, x), x, Released).stage == l.stage
  {
  }

  // ------------------------------------------------------- order of the wait list

  ghost predicate Stamped(l: Lists, list: seq<Sock>) {
    forall i :: 0 <= i < |list| ==> list[i] in l.since && l.since[list[i]] < l.clock
  }

  // The times of waiting fall along the list.
  ghost predicate NewestFirst(l: Lists, list: seq<Sock>)
    requires Stamped(l, list)
  {
    forall i, j :: 0 <= i < j < |list| ==> l.since[list[j]] < l.since[list[i]]
  }

  ghost predicate OldestFirst(l: Lists, list: seq<Sock>)
    requires Stamped(l, list)
  {
    forall i, j :: 0 <= i < j < |list| ==> l.since[list[i]] < l.since[list[j]]
  }

  // What was tried in this spin is older than what is still to be tried.
  ghost predicate TriedOlder(l: Lists)
    requires Stamped(l, l.wait) && Stamped(l, l.current)
  {
    forall i, j :: 0 <= i < |l.wait| && 0 <= j < |l.current| ==> l.since[l.wait[i]] < l.since[l.current[j]]
  }

  ghost predicate Ordered(l: Lists) {
    && Stamped(l, l.wait) && NewestFirst(l, l.wait)
    && (l.stage == Retrying ==> Stamped(l, l.current) && OldestFirst(l, l.current) && TriedOlder(l))
  }

  // A socket joins the wait list.
  lemma JoinOrders(l: Lists, x: Sock)
    requires Ordered(l) && l.stage != Retrying && x !in l.wait
    ensures Ordered(Put(l, x, Waits))
  {
    var l' := Put(l, x, Waits);
    assert forall i :: 0 < i < |l'.wait| ==> l'.wait[i] == l.wait[i - 1];
  }

  // The oldest socket was tried in vain.
  lemma RetryOrders(l: Lists)
    requires Ordered(l) && l.stage == Retrying && l.current != []
    ensures Ordered(l.(current := l.current[1..], wait := [l.current[0]] + l.wait))
  {
    var l' := l.(current := l.current[1..], wait := [l.current[0]] + l.wait);
    assert forall i :: 0 < i < |l'.wait| ==> l'.wait[i] == l.wait[i - 1];
  }

  lemma HandledOrders(l: Lists, o: Outcome)
    requires Ordered(l) && Conserved(l) && l.current != [] && Allowed(l.stage, o)
    ensures Ordered(Handled(l, o))
  {
    var x, l1 := l.current[0], l.(current := l.current[1..]);
    assert Ordered(l1);
    if o == Waits {
      if l.stage == Retrying {
        RetryOrders(l);
      } else {
        assert Places(l, x) <= 1;
        JoinOrders(l1, x);
      }
    }
  }

  lemma AcceptedOrders(l: Lists, o: Outcome)
    requires Ordered(l) && Conserved(l) && l.stage == Accepting
    ensures Ordered(Accepted(l, o))
  {
    var (l1, x) := Allocate(l);
    if o == Waits {
      assert Places(l, x) <= if l.free == [] then 0 else 1;
      JoinOrders(l1, x);
    }
  }

  lemma AdvancedOrders(l: Lists)
    requires Ordered(l) && l.current == []
    ensures Ordered(Advanced(l))
  {
    if l.stage == Reading {
      ReverseSame(l.wait);
      forall k | 0 <= k < |l.wait| ensures Reverse(l.wait)[k] == l.wait[|l.wait| - 1 - k] {
        ReverseAt(l.wait, k);
      }
    }
  }

  lemma LeftOrders(l: Lists, x: Sock)
    requires Ordered(l)
    ensures Ordered(Handed(l, x)) && Ordered(Put(Left(l, x), x, Released))
  {
  }

  lemma StepOrders(s: State, step: Step)
    requires Ordered(s.lists) && Conserved(s.lists) && Tidy(s)
    ensures Ordered(Take(s, step).lists)
  {
    hide Conserved, Advanced, Accepted, Handled, Ordered, Put;
    match step
    case Advance => if s.lists.current == [] { AdvancedOrders(s.lists); }
    case Handle(o) =>
      if s.lists.current != [] && Allowed(s.lists.stage, o) {
        HandledOrders(s.lists, o);
        if s.mine.Some? { if o == Released {} else {} }
      }
    case Accept(o) =>
      if s.admitted && Acceptable(o) {
        AcceptedOrders(s.lists, o);
        if s.mine.Some? { if o == Failed {} else {} }
      }
    case HandBack(x) => LeftOrders(s.lists, x);
    case Drop(x) => LeftOrders(s.lists, x);
    case _ =>
  }
}

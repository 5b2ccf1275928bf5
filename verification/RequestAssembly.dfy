/**
  Assembly of a request from what a socket delivers (SockRead and SockParse in
  nsd/driver.c): header lines are taken off a growing buffer, then the content
  is collected in the buffer or in a temporary file.  Requests with chunked
  content are not covered; the line parsers are given as functions.
*/
module RequestAssembly {
  import opened Basics
  import opened Bytes

  type Line = Bytes

  // What the parsers say about a request line and about header lines.
  datatype Rules = Rules(
    badRequest: Line -> bool,
    oldVersion: Line -> bool,                 // before HTTP/1.0: no headers
    badHeader: (seq<Line>, Line) -> bool,
    headerCount: seq<Line> -> nat,
    contentLength: seq<Line> -> nat           // 0: none, or not meaningful
  )

  // The driver's configuration.
  datatype Config = Config(
    rules: Rules,
    bufsize: nat,
    maxinput: nat,
    maxline: nat,
    maxheaders: nat,
    readahead: nat,
    maxupload: nat,
    spoolerThreads: nat
  )

  datatype Status = Ready | More | Spool | Error | ReadError | WriteError | BadRequest | BadHeader | TooManyHeaders

  datatype Flag = Fine | UriTooLong | LineTooLong | EntityTooLarge

  const TBUF: nat := 16384

  // ------------------------------------------------------------ header lines

  // strnchr for a newline in [i, end).
  function FindLf(s: Bytes, i: nat, end: nat): (r: Option<nat>)
    requires end <= |s|
    ensures r.Some? ==> i <= r.value < end && s[r.value] == LF && forall j :: i <= j < r.value ==> s[j] != LF
    ensures r.None? ==> forall j :: i <= j < end ==> s[j] != LF
    decreases end - i
  {
    if i >= end then None else if s[i] == LF then Some(i) else FindLf(s, i + 1, end)
  }

  // A line without its newline, and without a return before that.
  function LineOf(s: Bytes, i: nat, lf: nat): Line
    requires i <= lf < |s|
  {
    if i < lf && s[lf - 1] == CR then s[i..lf - 1] else s[i..lf]
  }

  function Headers(lines: seq<Line>): seq<Line> {
    if lines == [] then [] else lines[1..]
  }

  function ContentLength(c: Config, lines: seq<Line>): nat {
    if |lines| <= 1 then 0 else c.rules.contentLength(Headers(lines))
  }

  // Why a further line ends the request, if it does.
  function Refused(c: Config, lines: seq<Line>, line: Line): Option<Status> {
    if lines == [] && c.rules.badRequest(line) then Some(BadRequest)
    else if lines != [] && c.rules.badHeader(Headers(lines), line) then Some(BadHeader)
    else if c.rules.headerCount(Headers(lines + [line])) > c.maxheaders then Some(TooManyHeaders)
    else None
  }

  function LongLine(c: Config, lines: seq<Line>, length: nat, flag: Flag): Flag {
    if length <= c.maxline then flag else if lines == [] then UriTooLong else LineTooLong
  }

  // What the head of a request comes to: still open, refused, or complete.
  datatype Head =
    | Open
    | Bad(status: Status, at: nat)       // behind the line that is refused
    | Done(lines: seq<Line>, coff: nat, length: nat, flag: Flag)

  // How much of the stream it takes.
  function Need(h: Head): nat {
    match h
    case Open => 0
    case Bad(_, at) => at
    case Done(_, coff, length, _) => coff + length
  }

  datatype Turn = Ends(head: Head) | GoesOn(lines: seq<Line>, flag: Flag)

  // A further line, whose raw length is given, with the next one at next.
  function TakeLine(c: Config, lines: seq<Line>, line: Line, next: nat, raw: nat, flag: Flag): (t: Turn)
    ensures t.Ends? ==> !t.head.Open? && Need(t.head) == next + if t.head.Done? then t.head.length else 0
    ensures t.Ends? && t.head.Done? ==> t.head.coff == next
  {
    var flag' := LongLine(c, lines, raw, flag);
    if line == [] then
      var n := ContentLength(c, lines);
      Ends(Done(lines, next, n, if n > c.maxinput then EntityTooLarge else flag'))
    else if Refused(c, lines, line).Some? then Ends(Bad(Refused(c, lines, line).value, next))
    else if c.rules.oldVersion((lines + [line])[0]) then Ends(Done(lines + [line], next, 0, flag'))
    else GoesOn(lines + [line], flag')
  }

  // The head of a stream, from the line at roff on.
  function Scan(c: Config, s: Bytes, roff: nat, lines: seq<Line>, flag: Flag): Head
    requires roff <= |s|
    decreases |s| - roff
  {
    var lf := FindLf(s, roff, |s|);
    if lf.None? then Open
    else
      var t := TakeLine(c, lines, LineOf(s, roff, lf.value), lf.value + 1, lf.value - roff, flag);
      if t.Ends? then t.head else Scan(c, s, lf.value + 1, t.lines, t.flag)
  }

  function HeadOf(c: Config, s: Bytes): Head {
    Scan(c, s, 0, [], Fine)
  }

  lemma ScanStep(c: Config, s: Bytes, roff: nat, lf: nat, lines: seq<Line>, flag: Flag)
    requires roff <= lf < |s| && FindLf(s, roff, |s|) == Some(lf)
    ensures var t := TakeLine(c, lines, LineOf(s, roff, lf), lf + 1, lf - roff, flag);
            Scan(c, s, roff, lines, flag) == if t.Ends? then t.head else Scan(c, s, lf + 1, t.lines, t.flag)
  {
    hide FindLf, LineOf, TakeLine;
  }

  // The head of a stream ends behind its next newline.
  lemma {:induction false} ScanEnds(c: Config, s: Bytes, roff: nat, lines: seq<Line>, flag: Flag, end: nat)
    requires roff <= end <= |s| && forall j :: roff <= j < end ==> s[j] != LF
    ensures var h := Scan(c, s, roff, lines, flag);
            (h.Done? ==> end < h.coff <= |s|) && (h.Bad? ==> end < h.at <= |s|)
    decreases |s| - roff
  {
    hide TakeLine, FindLf, LineOf;
    var lf := FindLf(s, roff, |s|);
    if lf.Some? {
      var t := TakeLine(c, lines, LineOf(s, roff, lf.value), lf.value + 1, lf.value - roff, flag);
      if t.GoesOn? {
        ScanEnds(c, s, lf.value + 1, t.lines, t.flag, lf.value + 1);
      }
    }
  }

  // Lines taken stay.
  lemma {:induction false} ScanKeepsLines(c: Config, s: Bytes, roff: nat, lines: seq<Line>, flag: Flag)
    requires roff <= |s|
    ensures var h := Scan(c, s, roff, lines, flag); h.Done? ==> lines <= h.lines
    decreases |s| - roff
  {
    hide FindLf, LineOf, Refused, LongLine, ContentLength;
    var lf := FindLf(s, roff, |s|);
    if lf.Some? {
      var t := TakeLine(c, lines, LineOf(s, roff, lf.value), lf.value + 1, lf.value - roff, flag);
      if t.GoesOn? {
        ScanKeepsLines(c, s, lf.value + 1, t.lines, t.flag);
      }
    }
  }

  predicate StartsBlank(s: Bytes) {
    (|s| > 0 && s[0] == LF) || (|s| > 1 && s[0] == CR && s[1] == LF)
  }

  // A head is complete without a request line exactly if the stream starts with
  // a blank line; then there is no content either.
  lemma LeadingBlankLine(c: Config, s: Bytes)
    ensures HeadOf(c, s).Done? && HeadOf(c, s).lines == [] <==> StartsBlank(s)
    ensures StartsBlank(s) ==> HeadOf(c, s).length == 0
  {
    hide FindLf, Refused, LongLine;
    var lf := FindLf(s, 0, |s|);
    if lf.Some? {
      var line := LineOf(s, 0, lf.value);
      assert line == [] <==> StartsBlank(s);
      if line != [] {
        var t := TakeLine(c, [], line, lf.value + 1, lf.value, Fine);
        if t.GoesOn? {
          ScanKeepsLines(c, s, lf.value + 1, t.lines, t.flag);
        }
      }
    }
  }

  // ------------------------------------------------------------- the request

  datatype Content = Nowhere | InBuffer | Mapped

  // What the system does on a read: how much has arrived, and what fails.
  datatype Io = Io(arrived: nat, recvFails: bool, tempFails: bool, writeFails: bool, mapFails: bool)

  predicate Works(io: Io) {
    io.arrived > 0 && !io.recvFails && !io.tempFails && !io.writeFails && !io.mapFails
  }

  predicate Refusal(status: Status) {
    status == BadRequest || status == BadHeader || status == TooManyHeaders
  }

  lemma RefusedIs(c: Config, lines: seq<Line>, line: Line)
    ensures var r := Refused(c, lines, line); r.Some? ==> Refusal(r.value)
  {
  }

  lemma PartOfPrefix(s: Bytes, n: nat, a: nat, b: nat)
    requires a <= b <= n <= |s|
    ensures s[..n][a..b] == s[a..b]
  {
  }

  // The NUL behind the content does not touch it.
  lemma EndMarked(s: Bytes, a: nat, b: nat)
    requires a <= b < |s|
    ensures s[b := NUL][a..b] == s[a..b]
  {
  }

  lemma FileMarked(s: Bytes, a: nat, b: nat, n: nat)
    requires a <= b <= |s| && n <= b - a
    ensures (s[a..b] + [NUL])[n := NUL][0..n] == s[a..a + n]
  {
    var f := s[a..b] + [NUL];
    EndMarked(f, 0, n);
    assert f[0..n] == s[a..a + n];
  }

  class Sock {
    const c: Config
    const stream: Bytes         // all the client sends

    var buffer: Bytes
    var roff: nat               // the next line
    var woff: nat               // bytes received
    var coff: nat               // start of the content; 0 while in the head
    var avail: nat
    var length: nat
    var lines: seq<Line>
    var flag: Flag
    var tfd: bool               // a temporary file takes the content
    var tfile: bool             // one that is kept for the connection
    var file: Bytes
    var content: Content

    // In the head: every line received in full was taken.
    ghost predicate InHead()
      reads this
    {
      && coff == 0 && length == 0 && !tfd && !tfile && content == Nowhere
      && woff <= |stream| && buffer == stream[..woff] && roff + avail == woff <= c.maxinput
      && HeadOf(c, stream) == Scan(c, stream, roff, lines, flag)
    }

    // The head is complete, and what was received of the content is in place.
    ghost predicate InContent()
      reads this
    {
      && coff > 0 && content == Nowhere && coff + avail == woff <= |stream|
      && (if tfd then file == stream[coff..woff] && |buffer| < c.maxinput else buffer == stream[..woff] && woff <= c.maxinput)
      && (tfile ==> tfd)
      && HeadOf(c, stream) == Done(lines, coff, length, flag)
    }

    // No line is left to be taken.
    ghost predicate NoLine()
      requires woff <= |stream|
      reads this
    {
      forall j :: roff <= j < woff ==> stream[j] != LF
    }

    // Between two reads.
    ghost predicate Valid()
      reads this
    {
      (InHead() && NoLine()) || (InContent() && avail < length)
    }

    // The content is what the client sent.
    ghost predicate HasContent(where: Bytes, at: nat)
      requires coff + length <= |stream|
      reads this
    {
      at + length <= |where| && where[at..at + length] == stream[coff..coff + length]
    }

    // The request is complete.
    ghost predicate Complete()
      reads this
    {
      && HeadOf(c, stream) == Done(lines, coff, length, flag) && lines != []
      && coff + length <= |stream|
      && match content
         case InBuffer => !tfd && avail == length && HasContent(buffer, coff)
         case Mapped => tfd && !tfile && avail == length && HasContent(file, 0)
         case Nowhere => tfd && tfile && avail == 0 && HasContent(file, 0)
    }

    constructor (c: Config, stream: Bytes)
      ensures this.c == c && this.stream == stream && Valid() && woff == 0
    {
      this.c, this.stream := c, stream;
      buffer, roff, woff, coff, avail, length, lines, flag := [], 0, 0, 0, 0, 0, [], Fine;
      tfd, tfile, file, content := false, false, [], Nowhere;
    }

    // Takes the line at roff off the buffer.
    method ParseLine(lf: nat) returns (status: Status)
      requires InHead() && roff <= lf < woff && FindLf(buffer, roff, woff) == Some(lf)
      modifies this
      ensures woff == old(woff) && buffer == old(buffer)
      ensures status == More ==> InHead() && roff > old(roff)
      ensures status == Ready ==> InContent() && !tfd
      ensures status != More && status != Ready ==> Refuses(status) && Refusal(status)
    {
      hide FindLf, LineOf, Refused, LongLine, ContentLength, HeadOf, Scan;
      SameLine(roff, lf);
      var line := LineOf(buffer, roff, lf);
      ghost var t := TakeLine(c, lines, line, lf + 1, lf - roff, flag);
      ScanStep(c, stream, roff, lf, lines, flag);
      flag := LongLine(c, lines, lf - roff, flag);
      avail := avail - (lf + 1 - roff);
      roff := lf + 1;
      status := More;
      if line == [] {
        coff := roff;
        length := ContentLength(c, lines);
        if length > c.maxinput {
          flag := EntityTooLarge;
        }
        status := Ready;
      } else {
        var refused := Refused(c, lines, line);
        if refused.Some? {
          RefusedIs(c, lines, line);
          return refused.value;
        }
        lines := lines + [line];
        if c.rules.oldVersion(lines[0]) {
          coff := roff;
          status := Ready;
        }
      }
    }

    // Takes the lines of the head off the buffer.
    method ParseHead() returns (status: Status)
      requires InHead()
      modifies this
      ensures woff == old(woff) && buffer == old(buffer)
      ensures status == More ==> InHead() && NoLine()
      ensures status == Ready ==> InContent() && !tfd
      ensures status != More && status != Ready ==> Refuses(status) && Refusal(status)
    {
      hide FindLf, HeadOf, Scan;
      status := More;
      while status == More
        invariant woff == old(woff) && buffer == old(buffer)
        invariant status == More ==> InHead()
        invariant status == Ready ==> InContent() && !tfd
        invariant status != More && status != Ready ==> Refuses(status) && Refusal(status)
        decreases status == More, woff - roff
      {
        var lf := FindLf(buffer, roff, roff + avail);
        if lf.None? {
          assert forall j :: roff <= j < woff ==> stream[j] == buffer[j];
          return More;
        }
        status := ParseLine(lf.value);
      }
    }

    // The buffer shows the line that the stream has there.
    lemma SameLine(roff: nat, lf: nat)
      requires woff <= |stream| && buffer == stream[..woff] && roff <= lf < woff
      requires FindLf(buffer, roff, woff) == Some(lf)
      ensures FindLf(stream, roff, |stream|) == Some(lf) && LineOf(buffer, roff, lf) == LineOf(stream, roff, lf)
    {
      assert forall j :: 0 <= j < woff ==> buffer[j] == stream[j];
      var k := FindLf(stream, roff, |stream|);
      assert stream[lf] == LF;
      assert buffer[roff..lf] == stream[roff..lf];
    }

    // The content is in the buffer.
    method HandBuffer()
      requires InContent() && !tfd && length <= avail
      modifies `buffer, `content, `avail
      ensures content == InBuffer && avail == length && coff + length <= c.maxinput && coff + length <= |stream|
      ensures HasContent(buffer, coff)
    {
      hide HeadOf;
      content := InBuffer;
      PartOfPrefix(stream, woff, coff, coff + length);
      if 0 < length && coff + length < |buffer| {
        EndMarked(buffer, coff, coff + length);
        buffer := buffer[coff + length := NUL];
      }
      avail := length;
    }

    // The content is in the file, which is mapped.
    method HandFile()
      requires InContent() && tfd && length <= avail
      modifies `file, `content, `avail
      ensures content == Mapped && avail == length && coff + length <= |stream|
      ensures HasContent(file, 0)
    {
      hide HeadOf;
      FileMarked(stream, coff, woff, length);
      file := file + [NUL];
      content := Mapped;
      file := file[length := NUL];
      avail := length;
    }

    // Checks if all content has arrived, and hands it over.
    method Finish(io: Io) returns (status: Status)
      requires InContent()
      modifies this
      ensures status == More ==> InContent() && avail < length && woff == old(woff) && tfd == old(tfd)
      ensures status == Ready ==> Complete() && (content == InBuffer ==> coff + length <= c.maxinput)
      ensures status == More || status == Ready || status == Error
      ensures status == Error && !io.mapFails ==> HeadOf(c, stream).Done? && HeadOf(c, stream).lines == []
    {
      hide HeadOf;
      if length > avail {
        return More;
      }
      if tfile {
        assert file[0..length] == stream[coff..coff + length];
        avail := 0;
      } else if tfd {
        if io.mapFails {
          return Error;
        }
        HandFile();
      } else {
        HandBuffer();
      }
      status := if lines != [] then Ready else Error;
    }

    // Moves the content received so far to a temporary file.
    method StartFile()
      requires InContent() && !tfd && woff < c.maxinput
      modifies `buffer, `tfd, `tfile, `file
      ensures InContent() && tfd
    {
      hide HeadOf;
      tfile := c.maxupload > 0 && length > c.maxupload;
      tfd := true;
      file := buffer[coff..];
      buffer := [];
    }

    // Takes n more bytes to the buffer or the file.
    method Receive(n: nat)
      requires Valid() && woff + n <= |stream| && (!tfd ==> woff + n <= c.maxinput)
      modifies `buffer, `file, `woff, `avail
      ensures InHead() || InContent()
      ensures woff == old(woff) + n
    {
      hide HeadOf, Scan;
      var data := stream[woff..woff + n];
      if tfd {
        assert stream[coff..woff + n] == stream[coff..woff] + data;
        file := file + data;
      } else {
        assert stream[..woff + n] == stream[..woff] + data;
        buffer := buffer + data;
      }
      woff := woff + n;
      avail := avail + n;
    }

    // SockParse
    method Parse(io: Io) returns (status: Status)
      requires InHead() || InContent()
      modifies this
      ensures status == More ==> Valid() && woff == old(woff)
      ensures status == Ready ==> Complete() && (content == InBuffer ==> coff + length <= c.maxinput)
      ensures status == More || status == Ready || status == Error || Refusal(status)
      ensures Refusal(status) ==> Refuses(status)
      ensures status == Error && !io.mapFails ==> HeadOf(c, stream).Done? && HeadOf(c, stream).lines == []
    {
      hide HeadOf;
      if coff == 0 {
        status := ParseHead();
        if status != Ready {
          return;
        }
      }
      status := Finish(io);
    }

    // SockRead
    method Read(spooler: bool, io: Io) returns (status: Status)
      requires Valid()
      modifies this
      ensures status == More || status == Spool ==> Valid()
      ensures status == More && Works(io) && old(woff) < |stream| && c.bufsize > 0 ==> woff > old(woff)
      ensures status == Spool ==> !spooler && woff == old(woff)
      ensures status == Ready ==> Complete() && (content == InBuffer ==> coff + length <= c.maxinput)
      ensures Refusal(status) ==> Refuses(status)
      ensures status == Error ==> !Works(io) || NoRequest() || old(!tfd && woff == c.maxinput)
      ensures status == ReadError || status == WriteError ==> !Works(io)
    {
      hide HeadOf, Scan, Complete;
      var nread := if length == 0 then c.bufsize else length - avail;
      var before := buffer;
      if |buffer| + nread > c.maxinput {
        nread := c.maxinput - |buffer|;
        if nread == 0 {
          return Error;
        }
      }
      if coff > 0 && length > c.readahead && !tfd {
        if !spooler && c.spoolerThreads > 0 {
          return Spool;
        }
        if io.tempFails {
          return Error;
        }
        if io.writeFails {
          return WriteError;
        }
        StartFile();
      }
      var room := if tfd then Min(nread, TBUF) else nread;
      if io.recvFails {
        return ReadError;
      }
      var n := Min(io.arrived, Min(room, |stream| - woff));
      if n == 0 {
        // The length is set back, also if the buffer was emptied for a new file.
        if |buffer| < |before| {
          buffer := before[0 := NUL];
        }
        return More;
      }
      if tfd && io.writeFails {
        return WriteError;
      }
      Receive(n);
      status := Parse(io);
    }

    // The head is refused with that status.
    ghost predicate Refuses(status: Status)
      reads this
    {
      HeadOf(c, stream).Bad? && HeadOf(c, stream).status == status
    }

    // A blank line where the request line should be.
    ghost predicate NoRequest()
      reads this
    {
      HeadOf(c, stream).Done? && HeadOf(c, stream).lines == []
    }

    // Something is still to come.
    lemma Wanting()
      requires Valid() && !HeadOf(c, stream).Open?
      ensures woff < Need(HeadOf(c, stream))
    {
      if coff == 0 {
        ScanEnds(c, stream, roff, lines, flag, woff);
      }
    }

    // The client sends all of a request, or all up to a line that is refused,
    // within the limits.
    ghost predicate Fits()
      reads this
    {
      var h := HeadOf(c, stream);
      !h.Open? && Need(h) <= |stream| && Need(h) <= c.maxinput && c.bufsize > 0
    }

    // What becomes of it.
    ghost function Verdict(): Status
      reads this
    {
      var h := HeadOf(c, stream);
      if h.Bad? then h.status else if h.Done? && h.lines != [] then Ready else Error
    }

    // Reads, by the driver and after a hand-over by the spooler, until nothing
    // more is asked for.  However the stream is cut, a completed request has the
    // lines of the stream's head and the content behind it, in the buffer or in
    // the file; a stream that fits the limits gets its verdict.
    method Assemble(ios: seq<Io>) returns (status: Status)
      requires Valid() && woff == 0
      modifies this
      ensures status == Ready ==> Complete() && (content == InBuffer ==> coff + length <= c.maxinput)
      ensures Refusal(status) ==> Refuses(status)
      ensures Fits() && |ios| >= |stream| + 2 && (forall io :: io in ios ==> Works(io)) ==> status == Verdict()
    {
      hide HeadOf, Complete, InHead, InContent, Valid;
      var spooler, i := false, 0;
      status := More;
      while i < |ios| && (status == More || status == Spool)
        invariant 0 <= i <= |ios|
        invariant status == More || status == Spool ==> Valid()
        invariant status == Ready ==> Complete() && (content == InBuffer ==> coff + length <= c.maxinput)
        invariant Refusal(status) ==> Refuses(status)
        invariant Fits() && (forall io :: io in ios ==> Works(io)) ==>
                    if status == More || status == Spool then i <= woff + (if spooler then 1 else 0) else status == Verdict()
        decreases |ios| - i
      {
        assert ios[i] in ios;
        if Fits() {
          Wanting();
        }
        status := Read(spooler, ios[i]);
        if status == Ready {
          ReadyVerdict();
        }
        if status == Spool {
          spooler := true;
        }
        i := i + 1;
      }
      if Fits() && (status == More || status == Spool) {
        Wanting();
      }
    }

    lemma ReadyVerdict()
      requires Complete()
      ensures Verdict() == Ready
    {
    }
  }
}

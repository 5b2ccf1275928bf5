/**
  Sending a response (Ns_ConnWriteVData, Ns_CompleteHeaders and Ns_ConnClose in
  nsd/connio.c), for connections that neither compress nor use the writer
  thread.  The socket is the sequence of bytes handed to it.
*/
module ConnOutput {
  import opened Bytes
  import opened Hex
  import opened Chunked

  // The state of a connection that the output functions look at and change.
  datatype Flags = Flags(
    isOpen: bool,           // sockPtr != NULL
    sentHeaders: bool,
    stream: bool,
    chunk: bool,
    sentLastChunk: bool,
    keep: int,              // -1 while undecided
    responseLength: int     // negative while unknown
  )

  // ... together with everything sent so far.
  datatype Output = Output(wire: Bytes, flags: Flags)

  // What a request and its reply fix beforehand.
  datatype Context = Context(skipHeaders: bool, skipBody: bool, http11: bool, byteRanges: bool)

  const LAST_CHUNK: Bytes := [48, CR, LF, CR, LF]

  // The chunk Ns_ConnWriteVData sends for a nonempty body.
  function ChunkOf(body: Bytes): Chunk {
    Chunk(PrintHex(|body|), body)
  }

  // ------------------------------------------------------------ the methods

  // A response is chunked when it is streamed with unknown length over a
  // connection that may stay open.
  predicate StartsChunking(f: Flags, ctx: Context, streaming: bool) {
    streaming && f.responseLength < 0 && ctx.http11 && f.keep != 0 && !ctx.byteRanges
  }

  function HeadersCompleted(f: Flags, ctx: Context, length: nat, streaming: bool, keep: bool): Flags {
    if ctx.skipHeaders then f
    else f.(stream := f.stream || streaming,
            chunk := f.chunk || StartsChunking(f, ctx, streaming),
            responseLength := if !streaming && f.responseLength < 0 then length else f.responseLength,
            keep := if keep then 1 else 0)
  }

  // The flags once the headers are settled, which is when the body is framed.
  function Prepared(f: Flags, ctx: Context, length: nat, streaming: bool, keep: bool): Flags {
    var f1 := f.(stream := f.stream || streaming);
    if f1.sentHeaders then f1
    else HeadersCompleted(f1.(sentHeaders := true), ctx, length, streaming, keep)
  }

  function Ended(f: Flags, ctx: Context, last: bool): Flags {
    if last && f.chunk && !ctx.skipBody then f.(stream := false, sentLastChunk := true) else f
  }

  // The bytes of one body under the framing in force.
  function Framing(chunked: bool, skipBody: bool, body: Bytes, last: bool): Bytes {
    if skipBody then []
    else if !chunked then body
    else (if body == [] then [] else Frame(ChunkOf(body))) + (if last then LAST_CHUNK else [])
  }

  function Written(o: Output, ctx: Context, header: Bytes, body: Bytes, streaming: bool, last: bool, keep: bool): Output {
    var f := Prepared(o.flags, ctx, |body|, streaming, keep);
    var head := if o.flags.sentHeaders || ctx.skipHeaders then [] else header;
    Output(if f.isOpen then o.wire + (head + Framing(f.chunk, ctx.skipBody, body, last)) else o.wire,
           Ended(f, ctx, last))
  }

  function Closed(o: Output, ctx: Context): Output {
    if !o.flags.isOpen then o
    else
      var o1 := if o.flags.stream && o.flags.chunk then Written(o, ctx, [], [], false, true, false) else o;
      o1.(flags := o1.flags.(isOpen := false))
  }

  // The entries of the send vector: at least 32, and room for the buffers and
  // three more.
  function Capacity(nbufs: nat): nat {
    if nbufs + 3 > 32 then nbufs + 3 else 32
  }

  // A chunked write that closes the stream and carries headers and a body of 29
  // buffers or more.
  predicate Crowded(f: Flags, ctx: Context, bufs: seq<Bytes>, streaming: bool, last: bool) {
    && !f.sentHeaders && !ctx.skipHeaders && !ctx.skipBody && last
    && (f.chunk || StartsChunking(f, ctx, streaming)) && Flatten(bufs) != [] && |bufs| >= 29
  }

  lemma PreparedChunk(f: Flags, ctx: Context, length: nat, streaming: bool, keep: bool)
    ensures var g := Prepared(f, ctx, length, streaming, keep);
            g.chunk == (f.chunk || (!f.sentHeaders && !ctx.skipHeaders && StartsChunking(f, ctx, streaming)))
  {
  }

  class Conn {
    const ctx: Context
    var flags: Flags
    var wire: Bytes

    ghost function Out(): Output
      reads this
    {
      Output(wire, flags)
    }

    constructor (ctx: Context, responseLength: int, keep: int)
      ensures this.ctx == ctx
      ensures Out() == Output([], Flags(true, false, false, false, false, keep, responseLength))
    {
      this.ctx := ctx;
      flags := Flags(true, false, false, false, false, keep, responseLength);
      wire := [];
    }

    // Decides on chunking; keep is what CheckKeep answers.
    method CompleteHeaders(length: nat, streaming: bool, keep: bool) returns (build: bool)
      modifies `flags
      ensures build == !ctx.skipHeaders
      ensures flags == HeadersCompleted(old(flags), ctx, length, streaming, keep)
    {
      if ctx.skipHeaders {
        return false;
      }
      if streaming {
        flags := flags.(stream := true);
        if flags.responseLength < 0 && ctx.http11 && flags.keep != 0 && !ctx.byteRanges {
          flags := flags.(chunk := true);
        }
      } else if flags.responseLength < 0 {
        flags := flags.(responseLength := length);
      }
      flags := flags.(keep := if keep then 1 else 0);
      return true;
    }

    // Ns_ConnSend: hands the vector to the socket if there is one.
    method Send(bufs: seq<Bytes>)
      modifies `wire
      ensures wire == if flags.isOpen then old(wire) + Flatten(bufs) else old(wire)
    {
      if flags.isOpen {
        wire := wire + Flatten(bufs);
      }
    }

    // header is the header block, should this call be the one to send it; used
    // is how many entries of its send vector the call fills.
    method WriteVData(bufs: seq<Bytes>, header: Bytes, streaming: bool, streamClose: bool, keep: bool)
      returns (used: nat)
      modifies this
      ensures Out() == Written(old(Out()), ctx, header, Flatten(bufs), streaming, streamClose, keep)
      ensures used <= Capacity(|bufs|) <==> !Crowded(old(flags), ctx, bufs, streaming, streamClose)
    {
      hide Flatten, Framing, Prepared;
      var sbufs := Prepare(header, |Flatten(bufs)|, streaming, keep);
      FlattenSmall(header);
      ghost var front := |sbufs|;
      var own := sbufs != [] || flags.chunk;
      sbufs := AddBody(sbufs, bufs, streamClose);
      used := if own then |sbufs| else 0;
      PreparedChunk(old(flags), ctx, |Flatten(bufs)|, streaming, keep);
      if !ctx.skipBody && flags.chunk && streamClose {
        flags := flags.(stream := false, sentLastChunk := true);
      }
      Send(sbufs);
    }

    // Starts the send vector with the headers if they have not been sent yet.
    method Prepare(header: Bytes, length: nat, streaming: bool, keep: bool) returns (sbufs: seq<Bytes>)
      modifies `flags
      ensures flags == Prepared(old(flags), ctx, length, streaming, keep)
      ensures flags.isOpen == old(flags).isOpen
      ensures sbufs == if old(flags).sentHeaders || ctx.skipHeaders then [] else [header]
    {
      sbufs := [];
      flags := flags.(stream := flags.stream || streaming);
      if !flags.sentHeaders {
        flags := flags.(sentHeaders := true);
        var build := CompleteHeaders(length, streaming, keep);
        if build {
          sbufs := [header];
        }
      }
    }

    // Fills the send vector with the body and its framing.
    method AddBody(front: seq<Bytes>, bufs: seq<Bytes>, last: bool) returns (sbufs: seq<Bytes>)
      ensures Flatten(sbufs) == Flatten(front) + Framing(flags.chunk, ctx.skipBody, Flatten(bufs), last)
      ensures |sbufs| == |front| + if ctx.skipBody then 0 else if !flags.chunk then |bufs|
                                   else (if Flatten(bufs) == [] then 0 else |bufs| + 2) + (if last then 1 else 0)
    {
      hide PrintHex, Flatten;
      sbufs := front;
      if !ctx.skipBody {
        if !flags.chunk {
          FlattenAppend(sbufs, bufs);
          sbufs := sbufs + bufs;
        } else {
          var n := |Flatten(bufs)|;
          if n > 0 {
            FlattenFrame(sbufs, bufs, PrintHex(n));
            sbufs := sbufs + [PrintHex(n) + CRLF] + bufs + [CRLF];
          }
          if last {
            FlattenSnoc(sbufs, LAST_CHUNK);
            sbufs := sbufs + [LAST_CHUNK];
          }
        }
      }
    }

    method Close()
      modifies this
      ensures Out() == Closed(old(Out()), ctx)
    {
      if flags.isOpen {
        if flags.stream && flags.chunk {
          FlattenSmall([]);
          var used := WriteVData([], [], false, true, false);
        }
        flags := flags.(isOpen := false);
      }
    }
  }

  lemma FlattenSmall(b: Bytes)
    ensures Flatten([]) == [] && Flatten([b]) == b
  {
    assert [b][1..] == [];
  }

  lemma FlattenFrame(front: seq<Bytes>, bufs: seq<Bytes>, size: Bytes)
    ensures Flatten(front + [size + CRLF] + bufs + [CRLF]) == Flatten(front) + Frame(Chunk(size, Flatten(bufs)))
  {
    var line := size + CRLF;
    FlattenSnoc(front, line);
    FlattenAppend(front + [line], bufs);
    FlattenSnoc(front + [line] + bufs, CRLF);
  }

  // -------------------------------------------------------------- responses

  // One body write of a response, and a whole sequence of them.
  datatype Write = Write(body: Bytes, streaming: bool, keep: bool)

  function WrittenAll(o: Output, ctx: Context, header: Bytes, writes: seq<Write>): Output
    decreases |writes|
  {
    if writes == [] then o
    else
      var w := writes[0];
      WrittenAll(Written(o, ctx, header, w.body, w.streaming, false, w.keep), ctx, header, writes[1..])
  }

  function ClosedTimes(o: Output, ctx: Context, n: nat): Output
    decreases n
  {
    if n == 0 then o else ClosedTimes(Closed(o, ctx), ctx, n - 1)
  }

  function Bodies(writes: seq<Write>): (r: seq<Bytes>) {
    if writes == [] then [] else [writes[0].body] + Bodies(writes[1..])
  }

  // The writes that produce a chunk.
  function NonEmpty(bodies: seq<Bytes>): seq<Bytes> {
    if bodies == [] then []
    else (if bodies[0] == [] then [] else [bodies[0]]) + NonEmpty(bodies[1..])
  }

  function ChunksOf(bodies: seq<Bytes>): (cs: seq<Chunk>)
    ensures |cs| == |bodies| && forall i :: 0 <= i < |cs| ==> cs[i] == ChunkOf(bodies[i])
  {
    seq(|bodies|, i requires 0 <= i < |bodies| => ChunkOf(bodies[i]))
  }

  predicate Chunking(o: Output, ctx: Context) {
    o.flags.isOpen && o.flags.sentHeaders && o.flags.stream && o.flags.chunk && !ctx.skipBody
  }

  lemma {:induction false} FlattenNonEmpty(bodies: seq<Bytes>)
    ensures Flatten(NonEmpty(bodies)) == Flatten(bodies)
  {
    if bodies != [] {
      FlattenNonEmpty(bodies[1..]);
      FlattenSmall(bodies[0]);
      if bodies[0] != [] {
        FlattenAppend([bodies[0]], NonEmpty(bodies[1..]));
      } else {
        assert NonEmpty(bodies) == NonEmpty(bodies[1..]);
      }
    }
  }

  lemma BodyFront(c: Chunk, cs: seq<Chunk>)
    ensures Body([c] + cs) == Frame(c) + Body(cs)
  {
    assert Frames([c] + cs)[1..] == Frames(cs);
  }

  lemma {:induction false} BodyAppend(a: seq<Chunk>, b: seq<Chunk>)
    ensures Body(a + b) == Body(a) + Body(b)
  {
    assert Frames(a + b) == Frames(a) + Frames(b);
    FlattenAppend(Frames(a), Frames(b));
  }

  lemma WriteSendsChunk(o: Output, ctx: Context, header: Bytes, w: Write)
    requires Chunking(o, ctx)
    ensures var r := Written(o, ctx, header, w.body, w.streaming, false, w.keep);
            Chunking(r, ctx) && r.wire == o.wire + if w.body == [] then [] else Frame(ChunkOf(w.body))
  {
    hide Frame;
  }

  // Writes on a chunking connection send one chunk for every nonempty body.
  lemma {:induction false} WritesSendChunks(o: Output, ctx: Context, header: Bytes, writes: seq<Write>)
    requires Chunking(o, ctx)
    ensures var r := WrittenAll(o, ctx, header, writes);
            Chunking(r, ctx) && r.wire == o.wire + Body(ChunksOf(NonEmpty(Bodies(writes))))
    decreases |writes|
  {
    hide Written, Chunking, Frame, Body, ChunkOf;
    if writes == [] {
      assert ChunksOf([]) == [];
      EmptyBody();
    } else {
      var w := writes[0];
      var rest := NonEmpty(Bodies(writes[1..]));
      WriteSendsChunk(o, ctx, header, w);
      WritesSendChunks(Written(o, ctx, header, w.body, w.streaming, false, w.keep), ctx, header, writes[1..]);
      if w.body == [] {
        assert NonEmpty(Bodies(writes)) == rest;
      } else {
        BodyFront(ChunkOf(w.body), ChunksOf(rest));
        assert NonEmpty(Bodies(writes)) == [w.body] + rest;
        assert ChunksOf([w.body] + rest) == [ChunkOf(w.body)] + ChunksOf(rest);
      }
    }
  }

  lemma EmptyBody()
    ensures Body([]) == []
  {
  }

  const TERMINATOR: Chunk := Chunk([48], [])

  lemma {:induction false} ClosingAgain(o: Output, ctx: Context, n: nat)
    requires !o.flags.isOpen
    ensures ClosedTimes(o, ctx, n) == o
  {
    if n > 0 {
      ClosingAgain(o, ctx, n - 1);
    }
  }

  // The first close sends the terminating chunk; further ones send nothing.
  lemma CloseTerminates(o: Output, ctx: Context, n: nat)
    requires Chunking(o, ctx) && n > 0
    ensures var r := ClosedTimes(o, ctx, n);
            r.wire == o.wire + Frame(TERMINATOR) && !r.flags.isOpen && !r.flags.stream && r.flags.sentLastChunk
  {
    var o1 := Closed(o, ctx);
    assert Frame(TERMINATOR) == LAST_CHUNK;
    assert o1.wire == o.wire + LAST_CHUNK;
    ClosingAgain(o1, ctx, n - 1);
  }

  lemma {:induction false} DigitsHaveNoCrlf(s: Bytes, i: nat)
    requires i <= |s| && forall k :: 0 <= k < |s| ==> IsHexDigit(s[k])
    ensures FindCrlf(s + CRLF, i) == |s|
    decreases |s| - i
  {
    if i < |s| {
      assert (s + CRLF)[i] == s[i];
      DigitsHaveNoCrlf(s, i + 1);
    }
  }

  lemma SentChunkWellFormed(body: Bytes)
    requires |body| <= LONG_MAX
    ensures WellFormed(ChunkOf(body))
  {
    PrintedDigits(|body|);
    DigitsHaveNoCrlf(PrintHex(|body|), 0);
    StrtolPrinted(|body|);
  }

  lemma TerminatorWellFormed()
    ensures WellFormed(TERMINATOR)
  {
    assert PrintHex(0) == [48];
    SentChunkWellFormed([]);
  }

  lemma {:induction false} NonEmptyMembers(bodies: seq<Bytes>)
    ensures forall i :: 0 <= i < |NonEmpty(bodies)| ==>
              NonEmpty(bodies)[i] in bodies && NonEmpty(bodies)[i] != []
  {
    if bodies != [] {
      NonEmptyMembers(bodies[1..]);
    }
  }

  // A streamed response of any writes and any positive number of closes: after
  // the headers come the nonempty writes as chunks, then one zero chunk, and
  // nothing else; decoding the body gives the writes back.
  lemma ChunkedResponse(o: Output, ctx: Context, header: Bytes, writes: seq<Write>, closes: nat)
    requires Chunking(o, ctx) && closes > 0
    requires forall i :: 0 <= i < |writes| ==> |writes[i].body| <= LONG_MAX
    ensures var r := ClosedTimes(WrittenAll(o, ctx, header, writes), ctx, closes);
            && o.wire <= r.wire
            && Decode(r.wire, |o.wire|) == Progress(|r.wire|, NonEmpty(Bodies(writes)) + [[]], true)
            && Flatten(NonEmpty(Bodies(writes)) + [[]]) == Flatten(Bodies(writes))
  {
    hide Body, Frame, WellFormed, Decode, PrintHex, Written;
    var bodies := Bodies(writes);
    var sent := NonEmpty(bodies);
    var cs := ChunksOf(sent) + [TERMINATOR];
    WritesSendChunks(o, ctx, header, writes);
    CloseTerminates(WrittenAll(o, ctx, header, writes), ctx, closes);
    BodyAppend(ChunksOf(sent), [TERMINATOR]);
    BodyFront(TERMINATOR, []);
    EmptyBody();
    var r := ClosedTimes(WrittenAll(o, ctx, header, writes), ctx, closes);
    assert [TERMINATOR] + [] == [TERMINATOR];
    assert Body([TERMINATOR]) == Frame(TERMINATOR);
    assert r.wire == o.wire + Body(cs);
    AllWellFormed(writes);
    TerminatorWellFormed();
    DecodeRecovers(o.wire, cs);
    assert Data(cs) == sent + [[]];
    FlattenNonEmpty(bodies);
    FlattenSnoc(sent, []);
  }

  lemma {:induction false} BodiesBounded(writes: seq<Write>)
    requires forall i :: 0 <= i < |writes| ==> |writes[i].body| <= LONG_MAX
    ensures forall b :: b in Bodies(writes) ==> |b| <= LONG_MAX
  {
    if writes != [] {
      BodiesBounded(writes[1..]);
    }
  }

  lemma AllWellFormed(writes: seq<Write>)
    requires forall i :: 0 <= i < |writes| ==> |writes[i].body| <= LONG_MAX
    ensures forall i :: 0 <= i < |NonEmpty(Bodies(writes))| ==> WellFormed(ChunksOf(NonEmpty(Bodies(writes)))[i])
  {
    hide WellFormed;
    var sent := NonEmpty(Bodies(writes));
    BodiesBounded(writes);
    NonEmptyMembers(Bodies(writes));
    forall i | 0 <= i < |sent|
      ensures WellFormed(ChunksOf(sent)[i])
    {
      SentChunkWellFormed(sent[i]);
    }
  }

  // A connection about to send the headers of a response it will chunk.
  predicate Eligible(o: Output, ctx: Context, w: Write) {
    && o.flags.isOpen && !o.flags.sentHeaders && !ctx.skipHeaders && !ctx.skipBody
    && StartsChunking(o.flags, ctx, w.streaming)
  }

  lemma PreparedTwice(f: Flags, ctx: Context, length: nat, w: Write)
    requires !ctx.skipHeaders && !f.sentHeaders && StartsChunking(f, ctx, w.streaming)
    ensures var r := Prepared(f, ctx, 0, w.streaming, w.keep);
            && r.sentHeaders && r.stream && r.chunk && r.isOpen == f.isOpen
            && Prepared(f, ctx, length, w.streaming, w.keep) == r == Prepared(r, ctx, length, w.streaming, w.keep)
  {
  }

  lemma NoFraming()
    ensures Framing(true, false, [], false) == []
  {
  }

  // The first write sends the headers, turns chunking on, and then frames its
  // body like any later write.
  lemma FirstWriteChunks(o: Output, ctx: Context, header: Bytes, w: Write)
    requires Eligible(o, ctx, w)
    ensures var r := Written(o, ctx, header, [], w.streaming, false, w.keep);
            && Chunking(r, ctx) && r.wire == o.wire + header
            && Written(o, ctx, header, w.body, w.streaming, false, w.keep)
               == Written(r, ctx, header, w.body, w.streaming, false, w.keep)
  {
    hide Framing;
    PreparedTwice(o.flags, ctx, |w.body|, w);
    var f := Framing(true, false, w.body, false);
    assert o.wire + (header + f) == o.wire + header + ([] + f);
    assert Framing(true, false, [], false) == [] by {
      NoFraming();
    }
  }

  // A whole chunked response, from before its headers to after its closing.
  lemma WholeResponse(o: Output, ctx: Context, header: Bytes, writes: seq<Write>, closes: nat)
    requires writes != [] && Eligible(o, ctx, writes[0]) && closes > 0
    requires forall i :: 0 <= i < |writes| ==> |writes[i].body| <= LONG_MAX
    ensures var r := ClosedTimes(WrittenAll(o, ctx, header, writes), ctx, closes);
            var body := |o.wire| + |header|;
            && o.wire + header <= r.wire
            && Decode(r.wire, body) == Progress(|r.wire|, NonEmpty(Bodies(writes)) + [[]], true)
            && Flatten(NonEmpty(Bodies(writes)) + [[]]) == Flatten(Bodies(writes))
  {
    hide Written, Decode, Flatten, NonEmpty;
    var w := writes[0];
    FirstWriteChunks(o, ctx, header, w);
    ChunkedResponse(Written(o, ctx, header, [], w.streaming, false, w.keep), ctx, header, writes, closes);
  }
}

/**
  Chunked transfer coding of request bodies (ChunkedDecode in nsd/driver.c;
  section 4.1 of RFC 7230).

  Decode says what the decoder makes of a byte string; Request is the buffer
  with its offsets, decoded in place and piece by piece.
*/
module Chunked {
  import opened Bytes
  import opened Hex

  const CRLF: Bytes := [CR, LF]

  // strstr(s + i, "\r\n"): the first CRLF at or after i, unless a NUL ends the
  // string before it.
  function FindCrlf(s: Bytes, i: nat): (p: int)
    ensures p == -1 || (i <= p && p + 1 < |s| && s[p] == CR && s[p + 1] == LF)
    ensures forall m :: i <= m < p ==> s[m] != NUL && !(s[m] == CR && s[m + 1] == LF)
    decreases |s| - i
  {
    if i + 1 >= |s| || s[i] == NUL then -1
    else if s[i] == CR && s[i + 1] == LF then i
    else FindCrlf(s, i + 1)
  }

  // The number on a size line.
  function ChunkSize(header: Bytes): (v: int)
    ensures -LONG_MAX - 1 <= v <= LONG_MAX
  {
    Strtol16(header)
  }

  // One chunk taken off the input, or none if it has not arrived in full.
  datatype Taken = None | Taken(data: Bytes, next: nat)

  function TakeChunk(s: Bytes, start: nat): (t: Taken)
    ensures t.Taken? ==> start < |s| && start < t.next
  {
    var p := FindCrlf(s, start);
    if p < 0 then None
    else
      var n := ChunkSize(s[start..p]);
      if n < 0 || p + 2 + n > |s| then None else Taken(s[p + 2..p + 2 + n], p + 4 + n)
  }

  // Where decoding stands: the offset of the next chunk, the chunks decoded,
  // and whether the input ran out between chunks rather than inside one.
  datatype Progress = Progress(start: nat, chunks: seq<Bytes>, complete: bool) {
    function After(earlier: seq<Bytes>): Progress {
      this.(chunks := earlier + chunks)
    }
  }

  function Decode(s: Bytes, start: nat): (r: Progress)
    ensures start <= r.start
    decreases |s| - start
  {
    if start >= |s| then Progress(start, [], true)
    else
      match TakeChunk(s, start)
      case None => Progress(start, [], false)
      case Taken(data, next) => Decode(s, next).After([data])
  }

  // Decode unfolded once.
  lemma DecodeStep(s: Bytes, start: nat)
    ensures start >= |s| ==> Decode(s, start) == Progress(start, [], true)
    ensures start < |s| && TakeChunk(s, start).None? ==> Decode(s, start) == Progress(start, [], false)
    ensures start < |s| && TakeChunk(s, start).Taken? ==>
              Decode(s, start) == Decode(s, TakeChunk(s, start).next).After([TakeChunk(s, start).data])
  {
  }

  // ------------------------------------------------------- arbitrary arrivals

  lemma {:induction false} FindCrlfExtend(s: Bytes, t: Bytes, i: nat)
    requires FindCrlf(s, i) >= 0
    ensures FindCrlf(s + t, i) == FindCrlf(s, i)
    decreases |s| - i
  {
    if !(s[i] == CR && s[i + 1] == LF) {
      FindCrlfExtend(s, t, i + 1);
    }
  }

  // Only what lies at or after the offset matters.
  lemma {:induction false} FindCrlfLocal(s: Bytes, t: Bytes, i: nat)
    requires |s| == |t| && forall m :: i <= m < |s| ==> s[m] == t[m]
    ensures FindCrlf(s, i) == FindCrlf(t, i)
    decreases |s| - i
  {
    if i < |s| {
      FindCrlfLocal(s, t, i + 1);
    }
  }

  lemma TakeChunkLocal(s: Bytes, t: Bytes, start: nat)
    requires |s| == |t| && forall m :: start <= m < |s| ==> s[m] == t[m]
    ensures TakeChunk(s, start) == TakeChunk(t, start)
  {
    hide ChunkSize;
    FindCrlfLocal(s, t, start);
    var p := FindCrlf(s, start);
    if p >= 0 {
      assert s[start..p] == t[start..p];
      var n := ChunkSize(s[start..p]);
      if 0 <= n && p + 2 + n <= |s| {
        assert s[p + 2..p + 2 + n] == t[p + 2..p + 2 + n];
      }
    }
  }

  lemma TakeChunkExtend(s: Bytes, t: Bytes, start: nat)
    requires TakeChunk(s, start).Taken?
    ensures TakeChunk(s + t, start) == TakeChunk(s, start)
  {
    hide ChunkSize;
    FindCrlfExtend(s, t, start);
    var p := FindCrlf(s, start);
    assert (s + t)[start..p] == s[start..p];
    var n := ChunkSize(s[start..p]);
    assert (s + t)[p + 2..p + 2 + n] == s[p + 2..p + 2 + n];
  }

  lemma AfterAfter(r: Progress, a: seq<Bytes>, b: seq<Bytes>)
    ensures r.After(b).After(a) == r.After(a + b)
    ensures r.After([]) == r
  {
    assert a + (b + r.chunks) == (a + b) + r.chunks;
    assert [] + r.chunks == r.chunks;
  }

  // Decoding what has arrived so far and resuming from there on the longer
  // input is the same as decoding the longer input from the beginning.
  lemma {:induction false} DecodeResumes(s: Bytes, t: Bytes, start: nat)
    ensures var r := Decode(s, start);
            Decode(s + t, start) == Decode(s + t, r.start).After(r.chunks)
    decreases |s| - start
  {
    hide TakeChunk;
    if start < |s| && TakeChunk(s, start).Taken? {
      TakeChunkExtend(s, t, start);
      var data, next := TakeChunk(s, start).data, TakeChunk(s, start).next;
      DecodeResumes(s, t, next);
      var r := Decode(s, next);
      AfterAfter(Decode(s + t, r.start), [data], r.chunks);
    } else {
      AfterAfter(Decode(s + t, start), [], []);
    }
  }

  // Decoding after every one of a sequence of arrivals.
  function DecodeArrivals(s: Bytes, r: Progress, pieces: seq<Bytes>): Progress
    decreases |pieces|
  {
    if pieces == [] then r
    else
      var s' := s + pieces[0];
      DecodeArrivals(s', Decode(s', r.start).After(r.chunks), pieces[1..])
  }

  // However the input is cut into arrivals, the decoder ends up where a single
  // call on the whole input would have left it.
  lemma {:induction false} ArrivalsDoNotMatter(s: Bytes, start: nat, pieces: seq<Bytes>)
    ensures DecodeArrivals(s, Decode(s, start), pieces) == Decode(s + Flatten(pieces), start)
    decreases |pieces|
  {
    hide Decode;
    if pieces == [] {
      assert s + Flatten(pieces) == s;
    } else {
      var s' := s + pieces[0];
      DecodeResumes(s, pieces[0], start);
      ArrivalsDoNotMatter(s', start, pieces[1..]);
      assert s + Flatten(pieces) == s' + Flatten(pieces[1..]);
    }
  }

  // ------------------------------------------------------ the test as written

  // The code compares addresses: base is that of the buffer, and sums wrap.
  predicate Passes(base: nat, len: nat, p: nat, n: nat) {
    (base + p + 2 + n) % SIZE_RANGE <= base + len
  }

  // A buffer lies in the lower half of the address space.
  predicate Addressable(base: nat, len: nat) {
    base + len <= LONG_MAX
  }

  // The number on the size line that ends at p.
  function SizeAt(s: Bytes, start: nat, p: nat): (v: int)
    requires start <= p <= |s|
    ensures -LONG_MAX - 1 <= v <= LONG_MAX
  {
    ChunkSize(s[start..p])
  }

  // The copies the code makes, as source and length, up to one that leaves the
  // buffer.
  function Copies(s: Bytes, base: nat, start: nat): seq<(nat, nat)>
    decreases |s| - start
  {
    var p := FindCrlf(s, start);
    if start >= |s| || p < 0 then []
    else
      var n := ToSize(SizeAt(s, start, p));
      if !Passes(base, |s|, p, n) then []
      else [(p + 2, n)] + if p + 2 + n > |s| then [] else Copies(s, base, p + 4 + n)
  }

  // Decoding reaches a size line whose number is negative, but by no more than
  // the address of the byte behind the line.
  predicate Wild(s: Bytes, base: nat, start: nat)
    decreases |s| - start
  {
    var p := FindCrlf(s, start);
    start < |s| && p >= 0 &&
    var v := SizeAt(s, start, p);
    if v < 0 then -v <= base + p + 2 else p + 2 + v <= |s| && Wild(s, base, p + 4 + v)
  }

  predicate Inside(s: Bytes, copies: seq<(nat, nat)>) {
    forall c :: c in copies ==> c.0 + c.1 <= |s|
  }

  // A size passes the test if it fits, or if it is negative and the sum wraps.
  lemma PassesExactly(base: nat, len: nat, p: nat, v: int)
    requires Addressable(base, len) && p + 2 <= len && -LONG_MAX - 1 <= v <= LONG_MAX
    ensures Passes(base, len, p, ToSize(v)) <==> (if v < 0 then -v <= base + p + 2 else p + 2 + v <= len)
    ensures p + 2 + ToSize(v) <= len <==> 0 <= v && p + 2 + v <= len
  {
    var sum := base + p + 2 + v;
    if v < 0 && sum >= 0 {
      assert base + p + 2 + ToSize(v) == sum + SIZE_RANGE;
      assert (sum + SIZE_RANGE) % SIZE_RANGE == sum;
    } else if v < 0 {
      assert (sum + SIZE_RANGE) % SIZE_RANGE == sum + SIZE_RANGE;
    } else {
      assert sum % SIZE_RANGE == sum;
    }
  }

  // Every copy stays inside the buffer exactly if no such size line is reached.
  lemma {:induction false} InsideExactly(s: Bytes, base: nat, start: nat)
    requires Addressable(base, |s|)
    ensures Inside(s, Copies(s, base, start)) <==> !Wild(s, base, start)
    decreases |s| - start
  {
    hide FindCrlf, SizeAt, Passes, Inside;
    var p := FindCrlf(s, start);
    if start < |s| && p >= 0 {
      var v := SizeAt(s, start, p);
      PassesExactly(base, |s|, p, v);
      InsideFirst(s, (p + 2, ToSize(v)), []);
      if 0 <= v && p + 2 + v <= |s| {
        InsideExactly(s, base, p + 4 + v);
        InsideFirst(s, (p + 2, v), Copies(s, base, p + 4 + v));
      } else {
        assert [(p + 2, ToSize(v))] + [] == [(p + 2, ToSize(v))];
        InsideNone(s);
      }
    } else {
      InsideNone(s);
    }
  }

  lemma InsideFirst(s: Bytes, c: (nat, nat), rest: seq<(nat, nat)>)
    ensures Inside(s, [c] + rest) <==> c.0 + c.1 <= |s| && Inside(s, rest)
  {
    assert c in [c] + rest;
    assert forall d :: d in rest ==> d in [c] + rest;
  }

  lemma InsideNone(s: Bytes)
    ensures Inside(s, [])
  {
  }

  // The line "-1" is such a size wherever the buffer lies.
  lemma MinusOne(base: nat)
    requires Addressable(base, 4)
    ensures Wild([45, 49, CR, LF], base, 0) && !Inside([45, 49, CR, LF], Copies([45, 49, CR, LF], base, 0))
  {
    var s := [45, 49, CR, LF];
    assert FindCrlf(s, 2) == 2;
    assert FindCrlf(s, 1) == 2;
    assert FindCrlf(s, 0) == 2;
    assert s[0..2] == [45, 49];
    assert ReadDigits([45, 49], 2, 1) == 1;
    assert ReadDigits([45, 49], 1, 0) == 1;
    assert Strtol16([45, 49]) == -1;
    InsideExactly(s, base, 0);
  }

  // What is wild stays wild when more arrives.
  lemma {:induction false} WildExtend(s: Bytes, t: Bytes, base: nat, start: nat)
    requires Wild(s, base, start)
    ensures Wild(s + t, base, start)
    decreases |s| - start
  {
    hide SizeAt;
    FindCrlfExtend(s, t, start);
    var p := FindCrlf(s, start);
    SizeExtend(s, t, start, p);
    if SizeAt(s, start, p) >= 0 {
      WildExtend(s, t, base, p + 4 + SizeAt(s, start, p));
    }
  }

  lemma SizeExtend(s: Bytes, t: Bytes, start: nat, p: nat)
    requires start <= p <= |s|
    ensures SizeAt(s + t, start, p) == SizeAt(s, start, p)
  {
    assert (s + t)[start..p] == s[start..p];
  }

  // The chunks decoded so far do not matter to it.
  lemma {:induction false} WildResumes(s: Bytes, t: Bytes, base: nat, start: nat)
    ensures Wild(s + t, base, start) <==> Wild(s + t, base, Decode(s, start).start)
    decreases |s| - start
  {
    hide TakeChunk, Wild;
    if start < |s| && TakeChunk(s, start).Taken? {
      TakeChunkExtend(s, t, start);
      WildStep(s + t, base, start);
      WildResumes(s, t, base, TakeChunk(s, start).next);
    }
  }

  // Every size line that decoding reaches has a number that is not negative.
  predicate Tame(s: Bytes, start: nat)
    decreases |s| - start
  {
    var p := FindCrlf(s, start);
    start >= |s| || p < 0 ||
    (var v := SizeAt(s, start, p); 0 <= v && (p + 2 + v > |s| || Tame(s, p + 4 + v)))
  }

  // A tame input, cut anywhere, is decoded inside the buffer wherever that lies.
  lemma TameNeverWild(s: Bytes, t: Bytes, base: nat, start: nat)
    requires Tame(s + t, start)
    ensures !Wild(s, base, start) && !Wild(s + t, base, start)
  {
    TameNotWild(s + t, base, start);
    if Wild(s, base, start) {
      WildExtend(s, t, base, start);
    }
  }

  // What is decoded completely is tame.
  lemma {:induction false} CompleteIsTame(s: Bytes, start: nat)
    requires Decode(s, start).complete
    ensures Tame(s, start)
    decreases |s| - start
  {
    hide SizeAt, FindCrlf, TakeChunk;
    if start < |s| {
      TakenSize(s, start);
      CompleteIsTame(s, TakeChunk(s, start).next);
    }
  }

  lemma {:induction false} TameNotWild(s: Bytes, base: nat, start: nat)
    requires Tame(s, start)
    ensures !Wild(s, base, start)
    decreases |s| - start
  {
    hide SizeAt, FindCrlf;
    var p := FindCrlf(s, start);
    if start < |s| && p >= 0 && p + 2 + SizeAt(s, start, p) <= |s| {
      TameNotWild(s, base, p + 4 + SizeAt(s, start, p));
    }
  }

  // One that is not tame leaves a buffer from some address on, and no lower one.
  lemma {:induction false} WildFrom(s: Bytes, start: nat) returns (lowest: int)
    requires !Tame(s, start)
    ensures forall base: nat :: Wild(s, base, start) <==> lowest <= base
    decreases |s| - start
  {
    hide SizeAt, FindCrlf;
    var p := FindCrlf(s, start);
    var v := SizeAt(s, start, p);
    if v < 0 {
      lowest := -v - p - 2;
    } else {
      lowest := WildFrom(s, p + 4 + v);
    }
  }

  // It leaves the buffer wherever that lies exactly if the negative size reached is
  // no further below zero than the offset behind its line, as at address 0.
  lemma WildAnywhere(s: Bytes, start: nat)
    requires Addressable(0, |s|)
    ensures (forall base: nat :: Addressable(base, |s|) ==> !Inside(s, Copies(s, base, start))) <==> Wild(s, 0, start)
  {
    hide Wild, Inside, Copies;
    InsideExactly(s, 0, start);
    if Wild(s, 0, start) {
      assert !Tame(s, start) by { if Tame(s, start) { TameNotWild(s, 0, start); } }
      var lowest := WildFrom(s, start);
      forall base: nat | Addressable(base, |s|) ensures !Inside(s, Copies(s, base, start)) {
        InsideExactly(s, base, start);
      }
    }
  }

  lemma WildStep(s: Bytes, base: nat, start: nat)
    requires TakeChunk(s, start).Taken?
    ensures Wild(s, base, start) <==> Wild(s, base, TakeChunk(s, start).next)
  {
    hide SizeAt, FindCrlf, TakeChunk;
    TakenSize(s, start);
    assert start < |s|;
  }

  // What the test decides about the chunk at an offset.
  lemma TestDecides(s: Bytes, base: nat, start: nat)
    requires Addressable(base, |s|) && start < |s| && FindCrlf(s, start) >= 0
    ensures var p := FindCrlf(s, start);
            var n := ToSize(SizeAt(s, start, p));
            if !Passes(base, |s|, p, n) then TakeChunk(s, start).None? && !Wild(s, base, start)
            else if p + 2 + n > |s| then TakeChunk(s, start).None? && Wild(s, base, start)
            else TakeChunk(s, start) == Taken(s[p + 2..p + 2 + n], p + 4 + n)
  {
    hide FindCrlf, Passes, ChunkSize;
    var p := FindCrlf(s, start);
    PassesExactly(base, |s|, p, SizeAt(s, start, p));
  }

  // Only what lies at or after the offset matters to it.
  lemma {:induction false} WildLocal(s: Bytes, t: Bytes, base: nat, start: nat)
    requires |s| == |t| && forall m :: start <= m < |s| ==> s[m] == t[m]
    ensures Wild(s, base, start) <==> Wild(t, base, start)
    decreases |s| - start
  {
    hide ChunkSize, FindCrlf;
    FindCrlfLocal(s, t, start);
    var p := FindCrlf(s, start);
    if start < |s| && p >= 0 {
      assert s[start..p] == t[start..p];
      var v := SizeAt(s, start, p);
      if 0 <= v && p + 2 + v <= |s| {
        WildLocal(s, t, base, p + 4 + v);
      }
    }
  }

  // A chunk that was taken has a size that is not negative.
  lemma TakenSize(s: Bytes, start: nat)
    requires TakeChunk(s, start).Taken?
    ensures var p := FindCrlf(s, start);
            p >= 0 && 0 <= SizeAt(s, start, p) && p + 2 + SizeAt(s, start, p) <= |s| &&
            TakeChunk(s, start).next == p + 4 + SizeAt(s, start, p)
  {
  }

  // ------------------------------------------------------- well-formed bodies

  // A chunk as sent: the text of its size line and its data.
  datatype Chunk = Chunk(header: Bytes, data: Bytes)

  predicate WellFormed(c: Chunk) {
    FindCrlf(c.header + CRLF, 0) == |c.header| && ChunkSize(c.header) == |c.data|
  }

  function Frame(c: Chunk): Bytes {
    c.header + CRLF + c.data + CRLF
  }

  function Frames(cs: seq<Chunk>): (r: seq<Bytes>)
    ensures |r| == |cs|
    ensures forall i :: 0 <= i < |cs| ==> r[i] == Frame(cs[i])
  {
    seq(|cs|, i requires 0 <= i < |cs| => Frame(cs[i]))
  }

  function Data(cs: seq<Chunk>): (r: seq<Bytes>)
    ensures |r| == |cs|
    ensures forall i :: 0 <= i < |cs| ==> r[i] == cs[i].data
  {
    seq(|cs|, i requires 0 <= i < |cs| => cs[i].data)
  }

  function Body(cs: seq<Chunk>): Bytes {
    Flatten(Frames(cs))
  }

  // w stands in s at offset k.
  ghost predicate At(s: Bytes, k: nat, w: Bytes) {
    k + |w| <= |s| && forall m :: 0 <= m < |w| ==> s[k + m] == w[m]
  }

  lemma AtSlice(s: Bytes, k: nat, w: Bytes)
    requires At(s, k, w)
    ensures s[k..k + |w|] == w
  {
  }

  lemma AtParts(s: Bytes, k: nat, x: Bytes, y: Bytes)
    requires At(s, k, x + y)
    ensures At(s, k, x) && At(s, k + |x|, y)
  {
    var w := x + y;
    assert forall m :: 0 <= m < |x| ==> x[m] == w[m];
    assert forall m :: 0 <= m < |y| ==> y[m] == w[|x| + m];
  }

  lemma {:induction false} FindCrlfAt(s: Bytes, k: nat, w: Bytes, i: nat)
    requires At(s, k, w) && FindCrlf(w, i) >= 0
    ensures FindCrlf(s, k + i) == k + FindCrlf(w, i)
    decreases |w| - i
  {
    if !(w[i] == CR && w[i + 1] == LF) {
      FindCrlfAt(s, k, w, i + 1);
    }
  }

  lemma TakeFrame(s: Bytes, k: nat, c: Chunk)
    requires WellFormed(c) && At(s, k, Frame(c))
    ensures TakeChunk(s, k) == Taken(c.data, k + |Frame(c)|)
  {
    hide ChunkSize, FindCrlf, At;
    var line := c.header + CRLF;
    AtParts(s, k, line + c.data, CRLF);
    AtParts(s, k, line, c.data);
    AtParts(s, k, c.header, CRLF);
    AtSlice(s, k, c.header);
    AtSlice(s, k + |line|, c.data);
    FindCrlfAt(s, k, line, 0);
  }

  // w is a frame of d: wherever it stands, the decoder takes d off it.
  ghost predicate Framed(w: Bytes, d: Bytes) {
    forall s: Bytes, k: nat :: At(s, k, w) ==> TakeChunk(s, k) == Taken(d, k + |w|)
  }

  // A whole sequence of frames, wherever it stands.
  lemma {:induction false} DecodeFrames(s: Bytes, k: nat, ws: seq<Bytes>, ds: seq<Bytes>)
    requires |ws| == |ds| && forall i :: 0 <= i < |ws| ==> Framed(ws[i], ds[i])
    requires At(s, k, Flatten(ws))
    ensures Decode(s, k) == Decode(s, k + |Flatten(ws)|).After(ds)
    decreases |ws|
  {
    hide TakeChunk, At, Decode, Framed;
    var rest := Decode(s, k + |Flatten(ws)|);
    if ws == [] {
      AfterAfter(rest, [], []);
    } else {
      AtParts(s, k, ws[0], Flatten(ws[1..]));
      DecodeFrame(s, k, ws[0], ds[0]);
      DecodeFrames(s, k + |ws[0]|, ws[1..], ds[1..]);
      AfterAfter(rest, [ds[0]], ds[1..]);
      assert [ds[0]] + ds[1..] == ds;
    }
  }

  lemma DecodeFrame(s: Bytes, k: nat, w: Bytes, d: Bytes)
    requires Framed(w, d) && At(s, k, w)
    ensures Decode(s, k) == Decode(s, k + |w|).After([d])
  {
    hide TakeChunk, At;
    assert TakeChunk(s, k) == Taken(d, k + |w|);
  }

  lemma FrameIsFramed(c: Chunk)
    requires WellFormed(c)
    ensures Framed(Frame(c), c.data)
  {
    hide TakeChunk, Frame, At;
    forall s: Bytes, k: nat | At(s, k, Frame(c))
      ensures TakeChunk(s, k) == Taken(c.data, k + |Frame(c)|)
    {
      TakeFrame(s, k, c);
    }
  }

  lemma BodyIsFramed(cs: seq<Chunk>)
    requires forall i :: 0 <= i < |cs| ==> WellFormed(cs[i])
    ensures forall i :: 0 <= i < |cs| ==> Framed(Frames(cs)[i], Data(cs)[i])
  {
    hide WellFormed, Framed, Frame;
    forall i | 0 <= i < |cs|
      ensures Framed(Frames(cs)[i], Data(cs)[i])
    {
      FrameIsFramed(cs[i]);
    }
  }

  lemma DecodeAtEnd(a: Bytes, b: Bytes, ds: seq<Bytes>)
    requires Decode(a + b, |a|) == Decode(a + b, |a| + |b|).After(ds)
    ensures Decode(a + b, |a|) == Progress(|a| + |b|, ds, true)
  {
    hide TakeChunk;
    assert ds + [] == ds;
  }

  // The decoder recovers exactly the data of a well-formed body.
  lemma DecodeRecovers(a: Bytes, cs: seq<Chunk>)
    requires forall i :: 0 <= i < |cs| ==> WellFormed(cs[i])
    ensures Decode(a + Body(cs), |a|) == Progress(|a| + |Body(cs)|, Data(cs), true)
  {
    hide WellFormed, TakeChunk, Decode, Framed, Frame, Frames, Data, Flatten, At;
    BodyIsFramed(cs);
    BodyStands(a, Body(cs));
    DecodeFrames(a + Body(cs), |a|, Frames(cs), Data(cs));
    DecodeAtEnd(a, Body(cs), Data(cs));
  }

  lemma BodyStands(a: Bytes, b: Bytes)
    ensures At(a + b, |a|, b)
  {
  }

  // ----------------------------------------------------------- the buffer

  class Request {
    var str: array<Byte>     // the dynamic string's storage
    var len: nat             // its length; str[len] is the terminating NUL
    var base: nat            // its address
    const coff: nat          // where the content begins
    var chunkStartOff: nat
    var chunkWriteOff: nat
    ghost var raw: Bytes     // every byte that has arrived
    ghost var seen: nat      // how many of them the last decoding looked at

    ghost predicate Valid()
      reads this, str
    {
      && len < str.Length && str[len] == NUL && Addressable(base, len)
      && |raw| == len && coff <= seen <= len
      && coff <= chunkWriteOff <= chunkStartOff && chunkWriteOff <= len
      && (forall i :: chunkStartOff <= i < len ==> str[i] == raw[i])
      && var r := Decode(raw[..seen], coff);
         chunkStartOff == r.start && str[..chunkWriteOff] == raw[..coff] + Flatten(r.chunks)
    }

    // A request whose header block has been read and which has no content yet.
    constructor (header: Bytes, base: nat)
      requires Addressable(base, |header|)
      ensures Valid() && fresh(str)
      ensures coff == |header| && raw == header && seen == |header|
    {
      str := new Byte[|header| + 1](i => if 0 <= i < |header| then header[i] else NUL);
      len := |header|;
      coff, chunkStartOff, chunkWriteOff := |header|, |header|, |header|;
      raw, seen := header, |header|;
      this.base := base;
    }

    // More bytes from the socket are appended to the buffer, which may move.
    method Arrive(piece: Bytes, newBase: nat)
      requires Valid() && Addressable(newBase, len + |piece|)
      modifies this
      ensures Valid() && fresh(str)
      ensures raw == old(raw) + piece && seen == old(seen)
      ensures chunkStartOff == old(chunkStartOff) && chunkWriteOff == old(chunkWriteOff)
    {
      hide Decode, Flatten;
      var s := str[..len] + piece + [NUL];
      str := new Byte[|s|](i requires 0 <= i < |s| => s[i]);
      raw := raw + piece;
      len := len + |piece|;
      base := newBase;
      assert raw[..seen] == old(raw)[..seen];
      assert str[..chunkWriteOff] == s[..chunkWriteOff] == old(str[..chunkWriteOff]);
    }

    ghost predicate InBounds()
      reads this, str
    {
      && len < str.Length && str[len] == NUL && Addressable(base, len)
      && coff <= chunkWriteOff <= chunkStartOff && chunkWriteOff <= len
    }

    // One turn of the decoding loop: takes the chunk at chunkStartOff, if all
    // of it is there, and moves its data down to chunkWriteOff.  A size that
    // passes the test but does not fit makes the code copy beyond the buffer;
    // this is as far as the model goes then.
    method DecodeOne() returns (taken: bool, overrun: bool)
      requires InBounds() && chunkStartOff < len
      modifies `chunkStartOff, `chunkWriteOff, str
      ensures InBounds()
      ensures var s, start := old(str[..len]), old(chunkStartOff);
              var t := TakeChunk(s, start);
              && taken == t.Taken? && (overrun <==> Wild(s, base, start) && !taken)
              && chunkStartOff == (if taken then t.next else start)
              && str[..chunkWriteOff] == old(str[..chunkWriteOff]) + (if taken then t.data else [])
      ensures forall i :: chunkStartOff <= i < str.Length ==> str[i] == old(str[i])
    {
      hide ChunkSize, FindCrlf, TakeChunk, Wild, SizeAt, Addressable, Passes, ToSize;
      ghost var s, done := str[..len], str[..chunkWriteOff];
      assert done + [] == done;
      var p := FindCrlf(str[..len], chunkStartOff);
      if p < 0 {
        NoLine(s, base, chunkStartOff);
        return false, false;
      }
      var n := ReadSize(p);
      assert str[..len] == s && str[..chunkWriteOff] == done;
      TestDecides(s, base, chunkStartOff);
      if !Passes(base, len, p, n) {
        return false, false;
      }
      if p + 2 + n > len {
        return false, true;
      }
      Store(p + 2, n);
      chunkStartOff := chunkStartOff + (p - chunkStartOff) + 4 + n;
      return true, false;
    }

    // Reads the size line that ends at p, terminating it for the time being.
    method ReadSize(p: nat) returns (n: nat)
      requires chunkStartOff <= p < len && InBounds() && str[p] == CR
      modifies str
      ensures str[..] == old(str[..])
      ensures n == ToSize(SizeAt(str[..len], chunkStartOff, p))
    {
      hide ChunkSize;
      ghost var s := str[..];
      str[p] := NUL;
      n := ToSize(ChunkSize(str[chunkStartOff..p]));
      assert str[chunkStartOff..p] == s[chunkStartOff..p];
      str[p] := CR;
      assert str[..] == s && str[..len][chunkStartOff..p] == s[chunkStartOff..p];
    }

    // Appends n bytes found further up to the decoded content, and a NUL.
    method Store(source: nat, n: nat)
      requires InBounds() && chunkWriteOff < source && source + n <= len
      modifies `chunkWriteOff, str
      ensures chunkWriteOff == old(chunkWriteOff) + n
      ensures str[..chunkWriteOff] == old(str[..chunkWriteOff]) + old(str[source..source + n])
      ensures forall i :: chunkWriteOff < i < str.Length ==> str[i] == old(str[i])
    {
      MoveDown(str, chunkWriteOff, source, n);
      assert str[..chunkWriteOff] == old(str[..chunkWriteOff]);
      chunkWriteOff := chunkWriteOff + n;
      str[chunkWriteOff] := NUL;
    }

    // Decodes in place every chunk that has arrived in full.
    method ChunkedDecode() returns (result: int, overrun: bool)
      requires Valid()
      modifies this, str
      ensures Valid() && str == old(str) && len == old(len) && raw == old(raw) && base == old(base)
      ensures seen == len
      ensures overrun <==> Wild(raw, base, coff)
      ensures !overrun ==> result == if Decode(raw, coff).complete then 1 else -1
      ensures forall i :: chunkStartOff <= i < str.Length ==> str[i] == old(str[i])
    {
      hide Decode, TakeChunk, Flatten, Wild;
      ghost var all := Decode(raw, coff);
      ghost var done := Decode(raw[..seen], coff).chunks;
      DecodeResumes(raw[..seen], raw[seen..], coff);
      WildResumes(raw[..seen], raw[seen..], base, coff);
      assert raw[..seen] + raw[seen..] == raw;
      var taken := true;
      overrun := false;
      while chunkStartOff < len && taken
        invariant str == old(str) && len == old(len) && raw == old(raw) && base == old(base) && |raw| == len && InBounds()
        invariant forall i :: chunkStartOff <= i < len ==> str[i] == raw[i]
        invariant forall i :: chunkStartOff <= i < str.Length ==> str[i] == old(str[i])
        invariant all == Decode(raw, chunkStartOff).After(done)
        invariant str[..chunkWriteOff] == raw[..coff] + Flatten(done)
        invariant !taken ==> chunkStartOff < len && TakeChunk(raw, chunkStartOff).None?
        invariant Wild(raw, base, coff) <==> Wild(raw, base, chunkStartOff)
        invariant overrun <==> !taken && Wild(raw, base, chunkStartOff)
        decreases taken, len - chunkStartOff
      {
        ghost var start := chunkStartOff;
        TakeChunkLocal(str[..len], raw, start);
        WildLocal(str[..len], raw, base, start);
        DecodeStep(raw, start);
        taken, overrun := DecodeOne();
        if taken {
          ghost var data := TakeChunk(raw, start).data;
          WildStep(raw, base, start);
          MoreDecoded(Decode(raw, chunkStartOff), raw[..coff], done, data);
          done := done + [data];
        }
      }
      seen := len;
      DecodeStep(raw, chunkStartOff);
      NotWildAtEnd(raw, base, chunkStartOff);
      assert raw[..seen] == raw && done + [] == done;
      result := if taken then 1 else -1;
    }
  }

  lemma NoLine(s: Bytes, base: nat, start: nat)
    requires FindCrlf(s, start) < 0
    ensures TakeChunk(s, start).None? && !Wild(s, base, start)
  {
  }

  lemma NotWildAtEnd(s: Bytes, base: nat, start: nat)
    ensures start >= |s| ==> !Wild(s, base, start)
  {
  }

  lemma MoreDecoded(r: Progress, head: Bytes, done: seq<Bytes>, data: Bytes)
    ensures r.After([data]).After(done) == r.After(done + [data])
    ensures head + Flatten(done + [data]) == head + Flatten(done) + data
  {
    AfterAfter(r, done, [data]);
    FlattenSnoc(done, data);
    assert head + (Flatten(done) + data) == head + Flatten(done) + data;
  }
}

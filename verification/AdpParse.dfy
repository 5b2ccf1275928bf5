/**
  The compiler from an ADP page to a table of text and script blocks (NsAdpParse
  and AppendBlock in nsd/adpparse.c) and the walk over the table (AdpExec in
  nsd/adpeval.c), for pages whose only tags are <% ... %> sequences.

  Events gives the meaning of a page without any table: character by character,
  except that a <% with a matching %> stands for the script between them.
*/
module AdpParse {
  import opened Basics

  const APPEND: string := "ns_adp_append "

  // ------------------------------------------------------------- searching

  predicate At(p: string, i: int, x: char, y: char) {
    0 <= i && i + 1 < |p| && p[i] == x && p[i + 1] == y
  }

  // strchr
  function FindChar(p: string, i: nat, x: char): (r: Option<nat>)
    ensures r.Some? ==> i <= r.value < |p| && p[r.value] == x && forall j :: i <= j < r.value ==> p[j] != x
    ensures r.None? ==> forall j :: i <= j < |p| ==> p[j] != x
    decreases |p| - i
  {
    if i >= |p| then None else if p[i] == x then Some(i) else FindChar(p, i + 1, x)
  }

  // strstr with a string of two characters
  function FindPair(p: string, i: nat, x: char, y: char): (r: Option<nat>)
    ensures r.Some? ==> i <= r.value && At(p, r.value, x, y) && forall j :: i <= j < r.value ==> !At(p, j, x, y)
    ensures r.None? ==> forall j :: i <= j ==> !At(p, j, x, y)
    decreases |p| - i
  {
    if i >= |p| then None else if At(p, i, x, y) then Some(i) else FindPair(p, i + 1, x, y)
  }

  // --------------------------------------------------------- matching closers

  // How many times x y starts in [a, b).
  function Pairs(p: string, a: int, b: int, x: char, y: char): nat
    decreases b - a
  {
    if b <= a then 0 else Pairs(p, a, b - 1, x, y) + if At(p, b - 1, x, y) then 1 else 0
  }

  lemma {:induction false} PairsJoin(p: string, a: int, b: int, c: int, x: char, y: char)
    requires a <= b <= c
    ensures Pairs(p, a, c, x, y) == Pairs(p, a, b, x, y) + Pairs(p, b, c, x, y)
    decreases c - b
  {
    if b < c {
      PairsJoin(p, a, b, c - 1, x, y);
    }
  }

  lemma {:induction false} PairsNone(p: string, a: int, b: int, x: char, y: char)
    requires forall j :: a <= j < b ==> !At(p, j, x, y)
    ensures Pairs(p, a, b, x, y) == 0
    decreases b - a
  {
    if a < b {
      PairsNone(p, a, b - 1, x, y);
    }
  }

  // The %> at e has as many <% as %> before it, from the given place on.
  predicate IsCloser(p: string, from: int, e: int) {
    from <= e && At(p, e, '%', '>') && Pairs(p, from, e, '<', '%') == Pairs(p, from, e, '%', '>')
  }

  function FirstCloser(p: string, from: nat, k: nat): Option<nat>
    decreases |p| - k
  {
    if k >= |p| then None else if IsCloser(p, from, k) then Some(k) else FirstCloser(p, from, k + 1)
  }

  lemma {:induction false} FirstCloserIs(p: string, from: nat, k: nat)
    ensures var r := FirstCloser(p, from, k);
            && (r.Some? ==> k <= r.value && IsCloser(p, from, r.value) && forall j :: k <= j < r.value ==> !IsCloser(p, from, j))
            && (r.None? ==> forall j :: k <= j ==> !IsCloser(p, from, j))
    decreases |p| - k
  {
    if k < |p| && !IsCloser(p, from, k) {
      FirstCloserIs(p, from, k + 1);
    }
  }

  // The next opener lies before e, so that e closes a nested sequence.
  lemma Nested(p: string, from: nat, n: nat, o: nat, e: nat, k: nat)
    requires from <= n <= o < e && At(p, o, '<', '%') && At(p, e, '%', '>')
    requires forall j :: n <= j < o ==> !At(p, j, '<', '%')
    requires Pairs(p, from, n, '<', '%') == k && Pairs(p, from, e, '%', '>') == k
    ensures !IsCloser(p, from, e) && Pairs(p, from, o + 2, '<', '%') == k + 1
  {
    PairsNone(p, n, o, '<', '%');
    PairsJoin(p, from, n, o, '<', '%');
    assert Pairs(p, from, o + 1, '<', '%') == k + 1;
    PairsJoin(p, from, o + 1, e, '<', '%');
  }

  // No opener lies between n and e.
  lemma NotNested(p: string, from: nat, n: nat, e: nat, k: nat)
    requires from <= n <= e && At(p, e, '%', '>')
    requires forall j :: n <= j < e ==> !At(p, j, '<', '%')
    requires Pairs(p, from, n, '<', '%') == k && Pairs(p, from, e, '%', '>') == k
    ensures IsCloser(p, from, e)
  {
    PairsNone(p, n, e, '<', '%');
    PairsJoin(p, from, n, e, '<', '%');
  }

  lemma NextCloser(p: string, from: nat, e: nat, e': nat, k: nat)
    requires from <= e && At(p, e, '%', '>') && e + 2 <= e' && Pairs(p, from, e, '%', '>') == k
    requires forall j :: e + 2 <= j < e' ==> !At(p, j, '%', '>')
    ensures Pairs(p, from, e', '%', '>') == k + 1
  {
    assert Pairs(p, from, e + 2, '%', '>') == k + 1;
    PairsNone(p, e + 2, e', '%', '>');
    PairsJoin(p, from, e + 2, e', '%', '>');
  }

  // The %> for the <% at s; gt is the first > behind s.
  method FindCloser(p: string, s: nat, gt: nat) returns (r: Option<nat>)
    requires At(p, s, '<', '%') && s + 2 < gt < |p| && p[gt] == '>' && forall j :: s <= j < gt ==> p[j] != '>'
    ensures r == FirstCloser(p, s + 2, s + 2)
    ensures r.Some? ==> s + 2 <= r.value && r.value + 1 < |p|
  {
    var from := s + 2;
    r := FindPair(p, gt - 1, '%', '>');
    var n := from;
    ghost var k := 0;
    if r.Some? {
      PairsNone(p, from, r.value, '%', '>');
    }
    var nested := true;
    while r.Some? && nested
      invariant forall j :: from <= j && (r.Some? ==> j < r.value) ==> !IsCloser(p, from, j)
      invariant r.Some? ==> from <= n <= r.value && At(p, r.value, '%', '>')
      invariant r.Some? ==> Pairs(p, from, n, '<', '%') == k && Pairs(p, from, r.value, '%', '>') == k
      invariant r.Some? && !nested ==> IsCloser(p, from, r.value)
      decreases if r.Some? then |p| - r.value else 0, nested
    {
      var o, e := FindPair(p, n, '<', '%'), r.value;
      if o.Some? && o.value < e {
        Nested(p, from, n, o.value, e, k);
        n := o.value + 2;
        r := FindPair(p, e + 2, '%', '>');
        if r.Some? {
          NextCloser(p, from, e, r.value, k);
        }
        k := k + 1;
      } else {
        NotNested(p, from, n, e, k);
        nested := false;
      }
    }
    FirstCloserIs(p, from, from);
  }

  // ------------------------------------------------------- meaning of a page

  // The page says a character, or has a script evaluated.
  datatype Event = Emit(c: char) | Eval(script: string, line: nat)

  function Newlines(p: string): nat {
    if p == [] then 0 else Newlines(p[..|p| - 1]) + if p[|p| - 1] == '\n' then 1 else 0
  }

  // The matching %> of the <% at i, if i starts a script.
  function Script(p: string, i: nat): (r: Option<nat>)
    ensures r.Some? ==> i + 2 <= r.value && r.value + 1 < |p| && At(p, i, '<', '%') && At(p, r.value, '%', '>')
    ensures r.Some? && p[i + 2] == '=' ==> i + 3 <= r.value
  {
    FirstCloserIs(p, i + 2, i + 2);
    if At(p, i, '<', '%') && i + 2 < |p| && p[i + 2] != '>' then FirstCloser(p, i + 2, i + 2) else None
  }

  function ScriptEvent(p: string, from: nat, to: nat, prefix: string): seq<Event>
    requires from <= to <= |p|
  {
    if from == to then [] else [Eval(prefix + p[from..to], Newlines(p[..from]))]
  }

  function Events(p: string, i: nat): seq<Event>
    decreases |p| - i
  {
    if i >= |p| then []
    else
      var e := Script(p, i);
      if e.None? then [Emit(p[i])] + Events(p, i + 1)
      else ScriptEvents(p, i, e.value) + Events(p, e.value + 2)
  }

  // The script of the <% at i with its closer e; <%= stands for its value.
  function ScriptEvents(p: string, i: nat, e: nat): seq<Event>
    requires i + 2 <= e <= |p| && (i + 2 < |p| && p[i + 2] == '=' ==> i + 3 <= e)
  {
    if i + 2 < |p| && p[i + 2] == '=' then ScriptEvent(p, i + 3, e, APPEND) else ScriptEvent(p, i + 2, e, "")
  }

  lemma EventsOfScript(p: string, i: nat, e: nat)
    requires Script(p, i) == Some(e)
    ensures Events(p, i) == ScriptEvents(p, i, e) + Events(p, e + 2)
  {
  }

  function Emits(t: string): seq<Event> {
    seq(|t|, i requires 0 <= i < |t| => Emit(t[i]))
  }

  // Text without a script is said as it is.
  lemma {:induction false} EventsOfText(p: string, i: nat, j: nat)
    requires i <= j <= |p| && forall k :: i <= k < j ==> Script(p, k).None?
    ensures Events(p, i) == Emits(p[i..j]) + Events(p, j)
    decreases j - i
  {
    hide Script, Emits;
    if i < j {
      EventsOfText(p, i + 1, j);
      EmitsFirst(p, i, j);
      assert Events(p, i) == [Emit(p[i])] + Events(p, i + 1);
    } else {
      EmitsNone(p, i);
    }
  }

  lemma EmitsFirst(p: string, i: nat, j: nat)
    requires i < j <= |p|
    ensures Emits(p[i..j]) == [Emit(p[i])] + Emits(p[i + 1..j])
  {
  }

  // ---------------------------------------------------------- table of blocks

  // A negative length is that of a script.
  datatype Code = Code(text: string, lens: seq<int>, lines: seq<nat>, nblocks: nat, nscripts: nat)

  function Abs(n: int): nat {
    if n < 0 then -n else n
  }

  function Total(lens: seq<int>): nat {
    if lens == [] then 0 else Total(lens[..|lens| - 1]) + Abs(lens[|lens| - 1])
  }

  function Negatives(lens: seq<int>): nat {
    if lens == [] then 0 else Negatives(lens[..|lens| - 1]) + if lens[|lens| - 1] < 0 then 1 else 0
  }

  ghost predicate WellFormed(c: Code) {
    && |c.lens| == |c.lines| == c.nblocks
    && Total(c.lens) == |c.text|
    && Negatives(c.lens) == c.nscripts
    && forall i :: 0 <= i < |c.lens| ==> c.lens[i] != 0
  }

  function BlockEvents(block: string, len: int, line: nat): seq<Event> {
    if len > 0 then Emits(block) else [Eval(block, line)]
  }

  // What the blocks of a table do, one after the other.
  function CodeEvents(text: string, lens: seq<int>, lines: seq<nat>): seq<Event>
    requires |lens| == |lines| && Total(lens) == |text|
    decreases |lens|
  {
    if lens == [] then []
    else
      var n := |lens| - 1;
      var at := |text| - Abs(lens[n]);
      CodeEvents(text[..at], lens[..n], lines[..n]) + BlockEvents(text[at..], lens[n], lines[n])
  }

  lemma CodeEventsSnoc(text: string, lens: seq<int>, lines: seq<nat>, block: string, len: int, line: nat)
    requires |lens| == |lines| && Total(lens) == |text| && Abs(len) == |block|
    ensures Total(lens + [len]) == |text + block|
    ensures CodeEvents(text + block, lens + [len], lines + [line]) == CodeEvents(text, lens, lines) + BlockEvents(block, len, line)
  {
    var t, ls, ns := text + block, lens + [len], lines + [line];
    assert ls[..|lens|] == lens && ns[..|lens|] == lines;
    assert t[..|text|] == text && t[|text|..] == block;
  }

  lemma {:induction false} NewlinesJoin(a: string, b: string)
    ensures Newlines(a + b) == Newlines(a) + Newlines(b)
  {
    if b == [] {
      assert a + b == a;
    } else {
      assert (a + b)[..|a + b| - 1] == a + b[..|b| - 1];
      NewlinesJoin(a, b[..|b| - 1]);
    }
  }

  // Where block i lies in the text.
  function Offset(c: Code, i: nat): nat
    requires i <= |c.lens|
  {
    Total(c.lens[..i])
  }

  // Block i of the table is that part of the page, perhaps after the command
  // for its value, and its line is the number of newlines before it.
  ghost predicate Located(p: string, c: Code, i: nat, from: nat, to: nat)
    requires i < |c.lens| == |c.lines|
  {
    && from < to <= |p| && c.lines[i] == Newlines(p[..from])
    && Offset(c, i) + Abs(c.lens[i]) <= |c.text|
    && var block := c.text[Offset(c, i)..Offset(c, i) + Abs(c.lens[i])];
       if c.lens[i] > 0 then block == p[from..to] else block == p[from..to] || block == APPEND + p[from..to]
  }

  // Further blocks do not move those before.
  lemma LocatedStays(p: string, c: Code, c': Code, i: nat, from: nat, to: nat)
    requires i < |c.lens| == |c.lines| && |c'.lens| == |c'.lines| && Located(p, c, i, from, to)
    requires c.text <= c'.text && c.lens <= c'.lens && c.lines <= c'.lines
    ensures Located(p, c', i, from, to)
  {
    assert c'.lens[..i] == c.lens[..i];
    var a, b := Offset(c, i), Offset(c, i) + Abs(c.lens[i]);
    assert c'.text[a..b] == c.text[a..b];
  }

  // The blocks, in the order of the page and apart from each other.
  ghost predicate InOrder(spans: seq<(nat, nat)>, end: nat) {
    && (forall i :: 0 <= i < |spans| ==> spans[i].0 < spans[i].1 <= end)
    && (forall i, j :: 0 <= i < j < |spans| ==> spans[i].1 <= spans[j].0)
  }

  ghost predicate AllLocated(p: string, c: Code, spans: seq<(nat, nat)>) {
    && |spans| == |c.lens| == |c.lines|
    && forall i :: 0 <= i < |spans| ==> Located(p, c, i, spans[i].0, spans[i].1)
  }

  // A block is added.
  lemma LocatedMore(p: string, c: Code, c': Code, spans: seq<(nat, nat)>, from: nat, to: nat, value: bool)
    requires AllLocated(p, c, spans) && WellFormed(c) && from < to <= |p|
    requires |c'.lens| == |c'.lines| == |c.lens| + 1 && c.lens <= c'.lens && c.lines <= c'.lines
    requires c'.text == c.text + ((if value then APPEND else "") + p[from..to])
    requires c'.lines[|c.lens|] == Newlines(p[..from])
    requires Abs(c'.lens[|c.lens|]) == to - from + if value then |APPEND| else 0
    requires value ==> c'.lens[|c.lens|] < 0
    ensures AllLocated(p, c', spans + [(from, to)])
  {
    hide Located, Newlines, Total;
    forall i | 0 <= i < |spans| ensures Located(p, c', i, spans[i].0, spans[i].1) {
      LocatedStays(p, c, c', i, spans[i].0, spans[i].1);
    }
    LocatedLast(p, c, c', from, to, value);
  }

  lemma LocatedLast(p: string, c: Code, c': Code, from: nat, to: nat, value: bool)
    requires WellFormed(c) && from < to <= |p|
    requires |c'.lens| == |c'.lines| == |c.lens| + 1 && c.lens <= c'.lens && c.lines <= c'.lines
    requires c'.text == c.text + ((if value then APPEND else "") + p[from..to])
    requires c'.lines[|c.lens|] == Newlines(p[..from])
    requires Abs(c'.lens[|c.lens|]) == to - from + if value then |APPEND| else 0
    requires value ==> c'.lens[|c.lens|] < 0
    ensures Located(p, c', |c.lens|, from, to)
  {
    assert c'.lens[..|c.lens|] == c.lens;
    assert c'.text[|c.text|..] == (if value then APPEND else "") + p[from..to];
    assert "" + p[from..to] == p[from..to];
  }

  lemma RowAdded(c: Code, block: string, len: int, line: nat)
    requires WellFormed(c) && Abs(len) == |block| > 0
    ensures |c.lens| == |c.lines| && Total(c.lens) == |c.text|
    ensures WellFormed(Code(c.text + block, c.lens + [len], c.lines + [line], c.nblocks + 1,
                            c.nscripts + if len < 0 then 1 else 0))
  {
    assert (c.lens + [len])[..|c.lens|] == c.lens;
  }

  class Parser {
    var text: string
    var lens: seq<int>
    var lines: seq<nat>
    var line: nat
    var nblocks: nat
    var nscripts: nat
    ghost var spans: seq<(nat, nat)>    // where the blocks are in the page

    ghost function Value(): Code
      reads this
    {
      Code(text, lens, lines, nblocks, nscripts)
    }

    ghost predicate Valid()
      reads this
    {
      WellFormed(Value())
    }

    ghost function Done(): seq<Event>
      requires Valid()
      reads this
    {
      CodeEvents(text, lens, lines)
    }

    constructor ()
      ensures Valid() && line == 0 && Done() == [] && spans == [] && lens == [] && lines == []
    {
      text, lens, lines, line, nblocks, nscripts := "", [], [], 0, 0, 0;
      spans := [];
    }

    // Adds a row to the table for a block at the end of the text.
    method AddRow(ghost block: string, len: int, ghost before: string)
      requires WellFormed(Code(before, lens, lines, nblocks, nscripts)) && text == before + block
      requires Abs(len) == |block| > 0
      modifies `lens, `lines, `nblocks, `nscripts
      ensures Valid()
      ensures Done() == CodeEvents(before, old(lens), old(lines)) + BlockEvents(block, len, line)
      ensures lens == old(lens) + [len] && lines == old(lines) + [line]
    {
      hide CodeEvents, WellFormed, BlockEvents;
      RowAdded(Code(before, lens, lines, nblocks, nscripts), block, len, line);
      CodeEventsSnoc(before, lens, lines, block, len, line);
      nblocks := nblocks + 1;
      if len < 0 {
        nscripts := nscripts + 1;
      }
      lens := lens + [len];
      lines := lines + [line];
    }

    method CountLines(p: string, s: nat, e: nat)
      requires s <= e <= |p| && line == Newlines(p[..s])
      modifies `line
      ensures line == Newlines(p[..e])
    {
      var i := s;
      while i < e
        invariant s <= i <= e
        invariant line == Newlines(p[..i])
      {
        assert p[..i + 1][..i] == p[..i];
        if p[i] == '\n' {
          line := line + 1;
        }
        i := i + 1;
      }
    }

    method AppendBlock(p: string, s: nat, e: nat, kind: char)
      requires Valid() && s <= e <= |p| && line == Newlines(p[..s])
      requires kind == 't' || kind == 's' || kind == 'S'
      modifies this
      ensures Valid() && line == Newlines(p[..e])
      ensures Done() == old(Done()) +
                if kind == 't' then Emits(p[s..e]) else ScriptEvent(p, s, e, if kind == 'S' then APPEND else "")
      ensures old(AllLocated(p, Value(), spans) && InOrder(spans, s)) ==> AllLocated(p, Value(), spans) && InOrder(spans, e)
    {
      hide CodeEvents, WellFormed, Newlines, Located, Total;
      if s == e {
        assert Emits(p[s..e]) == [];
        return;
      }
      var len := e - s;
      ghost var before := text;
      ghost var block := p[s..e];
      if kind == 'S' {
        len := len + |APPEND|;
        text := text + APPEND;
        block := APPEND + block;
      }
      text := text + p[s..e];
      assert text == before + block;
      if kind != 't' {
        len := -len;
      }
      assert "" + p[s..e] == p[s..e];
      AddRow(block, len, before);
      spans := spans + [(s, e)];
      CountLines(p, s, e);
      if old(AllLocated(p, Value(), spans) && InOrder(spans, s)) {
        LocatedMore(p, old(Value()), Value(), old(spans), s, e, kind == 'S');
      }
    }

    // The script of the <% at s with its closer e.
    method AppendScript(p: string, s: nat, e: nat)
      requires Valid() && Script(p, s) == Some(e) && line == Newlines(p[..s])
      requires AllLocated(p, Value(), spans) && InOrder(spans, s)
      modifies this
      ensures Valid() && line == Newlines(p[..e + 2])
      ensures AllLocated(p, Value(), spans) && InOrder(spans, e + 2)
      ensures Done() == old(Done()) + ScriptEvents(p, s, e)
    {
      hide CodeEvents, WellFormed, Newlines, Located, InOrder, Script, ScriptEvent, AllLocated, Emits;
      NewlinesSame(p, s, s + 2);
      InOrderMore(spans, s, s + 2);
      if p[s + 2] != '=' {
        AppendBlock(p, s + 2, e, 's');
      } else {
        NewlinesSame(p, s + 2, s + 3);
        InOrderMore(spans, s + 2, s + 3);
        AppendBlock(p, s + 3, e, 'S');
      }
      NewlinesSame(p, e, e + 2);
      InOrderMore(spans, e, e + 2);
    }

    // The text before the <% and the script.
    method AppendBoth(p: string, text: nat, s: nat, e: nat)
      requires Valid() && text <= s && Script(p, s) == Some(e) && line == Newlines(p[..text])
      requires AllLocated(p, Value(), spans) && InOrder(spans, text)
      modifies this
      ensures Valid() && line == Newlines(p[..e + 2])
      ensures AllLocated(p, Value(), spans) && InOrder(spans, e + 2)
      ensures Done() + Events(p, e + 2) == old(Done()) + Emits(p[text..s]) + Events(p, s)
    {
      hide CodeEvents, WellFormed, Newlines, Located, InOrder, Script, ScriptEvents, AllLocated, Events, Emits;
      ghost var before := Done();
      if s > text {
        AppendBlock(p, text, s, 't');
      }
      EmitsNone(p, s);
      assert Done() == before + Emits(p[text..s]);
      AppendScript(p, s, e);
      EventsOfScript(p, s, e);
      assert before + Emits(p[text..s]) + ScriptEvents(p, s, e) + Events(p, e + 2) ==
             before + Emits(p[text..s]) + (ScriptEvents(p, s, e) + Events(p, e + 2));
    }

    // The < at s, with the first > behind it; text is where the text not
    // appended yet starts.  Returns where text and the search go on.
    method Tag(p: string, text: nat, s: nat, gt: nat) returns (text': nat, adp: nat)
      requires Valid() && text <= s < gt < |p| && line == Newlines(p[..text])
      requires p[s] == '<' && p[gt] == '>' && forall j :: s <= j < gt ==> p[j] != '>'
      requires AllLocated(p, Value(), spans) && InOrder(spans, text)
      modifies this
      ensures Valid() && text' <= adp <= |p| && s < adp && line == Newlines(p[..text'])
      ensures AllLocated(p, Value(), spans) && InOrder(spans, text')
      ensures Done() + Emits(p[text'..adp]) + Events(p, adp) == old(Done()) + Emits(p[text..s]) + Events(p, s)
    {
      hide CodeEvents, WellFormed, Newlines, Located, InOrder, FirstCloser, Events, Emits;
      text', adp := text, s + 1;
      if p[s + 1] == '%' && p[s + 2] != '>' {
        var e := FindCloser(p, s, gt);
        assert e == Script(p, s);
        if e.None? {
          MoreText(p, text, s, s + 2, Done());
          AppendBlock(p, text, s + 2, 't');
          text' := s + 2;
        } else {
          AppendBoth(p, text, s, e.value);
          text' := e.value + 2;
        }
        adp := text';
        NoText(p, adp, Done());
      } else {
        MoreText(p, text, s, s + 1, Done());
      }
    }
  }

  // Text that holds no script joins the text before it.
  lemma MoreText(p: string, text: nat, i: nat, j: nat, done: seq<Event>)
    requires text <= i <= j <= |p| && forall k :: i <= k < j ==> Script(p, k).None?
    ensures done + Emits(p[text..i]) + Events(p, i) == done + Emits(p[text..j]) + Events(p, j)
  {
    hide Events, Emits, Script;
    EventsOfText(p, i, j);
    EmitsJoin(p, text, i, j);
    var a, b, c := Emits(p[text..i]), Emits(p[i..j]), Events(p, j);
    assert done + a + (b + c) == done + (a + b) + c;
  }

  lemma EmitsNone(p: string, i: nat)
    requires i <= |p|
    ensures Emits(p[i..i]) == []
  {
  }

  lemma NoText(p: string, i: nat, done: seq<Event>)
    requires i <= |p|
    ensures done + Emits(p[i..i]) + Events(p, i) == done + Events(p, i)
  {
    assert Emits(p[i..i]) == [];
  }

  lemma {:induction false} NewlinesSame(p: string, a: nat, b: nat)
    requires a <= b <= |p| && forall i :: a <= i < b ==> p[i] != '\n'
    ensures Newlines(p[..b]) == Newlines(p[..a])
    decreases b - a
  {
    if a < b {
      assert p[..b][..b - 1] == p[..b - 1];
      NewlinesSame(p, a, b - 1);
    }
  }

  lemma InOrderMore(spans: seq<(nat, nat)>, a: nat, b: nat)
    requires InOrder(spans, a) && a <= b
    ensures InOrder(spans, b)
  {
  }

  lemma EmitsJoin(p: string, a: nat, b: nat, c: nat)
    requires a <= b <= c <= |p|
    ensures Emits(p[a..b]) + Emits(p[b..c]) == Emits(p[a..c])
  {
  }

  // Compiles a page.  The table's blocks, executed in turn, do what the page
  // means; each is a part of the page with its line, in the page's order.
  method Parse(p: string) returns (code: Code, ghost spans: seq<(nat, nat)>)
    ensures WellFormed(code)
    ensures CodeEvents(code.text, code.lens, code.lines) == Events(p, 0)
    ensures AllLocated(p, code, spans) && InOrder(spans, |p|)
  {
    hide CodeEvents, WellFormed, Newlines, Located, InOrder, Events, Emits;
    var parser := new Parser();
    var text: nat, adp: nat := 0, 0;
    StartInOrder();
    NoText(p, 0, parser.Done());
    var s := FindChar(p, 0, '<');
    var e := if s.Some? then FindChar(p, s.value, '>') else None;
    while s.Some? && e.Some?
      invariant parser.Valid() && fresh(parser) && text <= adp <= |p| && parser.line == Newlines(p[..text])
      invariant AllLocated(p, parser.Value(), parser.spans) && InOrder(parser.spans, text)
      invariant parser.Done() + Emits(p[text..adp]) + Events(p, adp) == Events(p, 0)
      invariant s == FindChar(p, adp, '<') && e == if s.Some? then FindChar(p, s.value, '>') else None
      decreases |p| - adp
    {
      MoreText(p, text, adp, s.value, parser.Done());
      text, adp := parser.Tag(p, text, s.value, e.value);
      s := FindChar(p, adp, '<');
      e := if s.Some? then FindChar(p, s.value, '>') else None;
    }
    MoreText(p, text, adp, |p|, parser.Done());
    if text < |p| {
      parser.AppendBlock(p, text, |p|, 't');
    } else {
      NoText(p, |p|, parser.Done());
    }
    NoEvents(p);
    code := Code(parser.text, parser.lens, parser.lines, parser.nblocks, parser.nscripts);
    spans := parser.spans;
  }

  lemma NoEvents(p: string)
    ensures Events(p, |p|) == []
  {
  }

  lemma StartInOrder()
    ensures InOrder([], 0) && Newlines([]) == 0
  {
  }

  // ------------------------------------------------------------ the executor

  lemma {:induction false} TotalJoin(a: seq<int>, b: seq<int>)
    ensures Total(a + b) == Total(a) + Total(b)
  {
    if b == [] {
      assert a + b == a;
    } else {
      assert (a + b)[..|a + b| - 1] == a + b[..|b| - 1];
      TotalJoin(a, b[..|b| - 1]);
    }
  }

  // Walks over the first stop blocks; stop lies beyond the last unless a script
  // ends the page early.
  method Exec(code: Code, stop: nat) returns (events: seq<Event>)
    requires WellFormed(code)
    ensures events <= CodeEvents(code.text, code.lens, code.lines)
    ensures stop >= code.nblocks ==> events == CodeEvents(code.text, code.lens, code.lines)
  {
    hide CodeEvents, Emits;
    events := [];
    var ptr, i := 0, 0;
    FirstBlocks(code, 0);
    while i < code.nblocks && i < stop
      invariant 0 <= i <= code.nblocks && ptr == Offset(code, i) <= |code.text|
      invariant events == CodeEvents(code.text[..ptr], code.lens[..i], code.lines[..i])
    {
      NextBlock(code, i);
      var len := code.lens[i];
      if len > 0 {
        events := events + Emits(code.text[ptr..ptr + len]);
      } else {
        len := -len;
        events := events + [Eval(code.text[ptr..ptr + len], code.lines[i])];
      }
      ptr := ptr + len;
      i := i + 1;
    }
    FirstBlocks(code, i);
  }

  lemma FirstBlocks(c: Code, i: nat)
    requires WellFormed(c) && i <= c.nblocks
    ensures Offset(c, i) <= |c.text|
    ensures var events := CodeEvents(c.text[..Offset(c, i)], c.lens[..i], c.lines[..i]);
            && events <= CodeEvents(c.text, c.lens, c.lines)
            && (i == 0 ==> events == []) && (i == c.nblocks ==> events == CodeEvents(c.text, c.lens, c.lines))
  {
    CodeEventsPrefix(c.text, c.lens, c.lines, i);
    assert c.lens[..c.nblocks] == c.lens && c.lines[..c.nblocks] == c.lines && c.text[..|c.text|] == c.text;
  }

  lemma NextBlock(c: Code, i: nat)
    requires WellFormed(c) && i < c.nblocks
    ensures var at, to := Offset(c, i), Offset(c, i) + Abs(c.lens[i]);
            && Offset(c, i + 1) == to <= |c.text|
            && CodeEvents(c.text[..to], c.lens[..i + 1], c.lines[..i + 1]) ==
               CodeEvents(c.text[..at], c.lens[..i], c.lines[..i]) + BlockEvents(c.text[at..to], c.lens[i], c.lines[i])
  {
    hide CodeEvents, WellFormed, Total, BlockEvents;
    OffsetNext(c, i);
    var at, len := Offset(c, i), c.lens[i];
    assert c.lens[..i + 1] == c.lens[..i] + [len] && c.lines[..i + 1] == c.lines[..i] + [c.lines[i]];
    assert c.text[..at] + c.text[at..at + Abs(len)] == c.text[..at + Abs(len)];
    CodeEventsSnoc(c.text[..at], c.lens[..i], c.lines[..i], c.text[at..at + Abs(len)], len, c.lines[i]);
  }

  lemma OffsetNext(c: Code, i: nat)
    requires WellFormed(c) && i < c.nblocks
    ensures |c.lens| == |c.lines| == c.nblocks
    ensures Offset(c, i + 1) == Offset(c, i) + Abs(c.lens[i]) <= |c.text|
  {
    assert c.lens[..i + 1] + c.lens[i + 1..] == c.lens;
    TotalJoin(c.lens[..i + 1], c.lens[i + 1..]);
    assert c.lens[..i + 1][..i] == c.lens[..i];
  }

  lemma {:induction false} CodeEventsPrefix(text: string, lens: seq<int>, lines: seq<nat>, i: nat)
    requires |lens| == |lines| && Total(lens) == |text| && i <= |lens|
    ensures Total(lens[..i]) <= |text|
    ensures CodeEvents(text[..Total(lens[..i])], lens[..i], lines[..i]) <= CodeEvents(text, lens, lines)
    decreases |lens|
  {
    hide CodeEvents;
    var n := |lens| - 1;
    if i == |lens| {
      assert lens[..i] == lens && lines[..i] == lines && text[..|text|] == text;
    } else {
      var at := |text| - Abs(lens[n]);
      assert lens[..n][..i] == lens[..i] && lines[..n][..i] == lines[..i];
      CodeEventsPrefix(text[..at], lens[..n], lines[..n], i);
      assert text[..at][..Total(lens[..i])] == text[..Total(lens[..i])];
      CodeEventsLast(text, lens, lines);
    }
  }

  lemma CodeEventsLast(text: string, lens: seq<int>, lines: seq<nat>)
    requires |lens| == |lines| > 0 && Total(lens) == |text|
    ensures var n := |lens| - 1;
            CodeEvents(text[..|text| - Abs(lens[n])], lens[..n], lines[..n]) <= CodeEvents(text, lens, lines)
  {
  }

  // Compiling and executing a page does what the page means.
  method Evaluate(p: string, stop: nat) returns (events: seq<Event>)
    ensures events <= Events(p, 0)
    ensures stop >= |p| ==> events == Events(p, 0)
  {
    var code, spans := Parse(p);
    events := Exec(code, stop);
    NoMoreBlocks(p, code, spans);
  }

  // There are no more blocks than characters.
  lemma NoMoreBlocks(p: string, c: Code, spans: seq<(nat, nat)>)
    requires WellFormed(c) && AllLocated(p, c, spans) && InOrder(spans, |p|)
    ensures c.nblocks <= |p|
  {
    if |spans| > 0 {
      SpansApart(spans, |p|, |spans| - 1);
    }
  }

  lemma {:induction false} SpansApart(spans: seq<(nat, nat)>, end: nat, i: nat)
    requires InOrder(spans, end) && i < |spans|
    ensures i + 1 <= spans[i].1
  {
    if i > 0 {
      SpansApart(spans, end, i - 1);
    }
  }

  // A page without a script says itself.
  lemma PlainPage(p: string)
    requires forall i :: 0 <= i < |p| ==> Script(p, i).None?
    ensures Events(p, 0) == Emits(p)
  {
    EventsOfText(p, 0, |p|);
    assert p[0..|p|] == p;
  }
}

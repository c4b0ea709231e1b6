/** The events the reader of `SseReader` yields depend on how the stream is cut into chunks: exactly when,
    and what the forced flush of a long buffer does. */
module SseChunks {
  import opened Common
  import opened SseReader

  // ---------------------------------------------------------------- the events of a text

  lemma EventsByBlocks(s: string)
    ensures HasBlank(s) ==> EventsOfText(s) == EventOf(s[..BlankAt(s)]) + EventsOfText(s[BlankAt(s) + 2..])
    ensures !HasBlank(s) ==> EventsOfText(s) == EventOf(s)
  {
    hide EventOf, BlankAt, Blocks, Rest;
    if HasBlank(s) {
      var block, later := s[..BlankAt(s)], s[BlankAt(s) + 2..];
      CutOff(s);
      EventsOfOne(block);
      EventsOfConcat([block], Blocks(later));
    } else {
      NothingToCut(s);
    }
  }

  lemma EventsOfOne(block: string)
    ensures EventsOf([block]) == EventOf(block)
  {
    hide EventOf;
    assert [block][..0] == [] && EventsOf([]) == [];
  }

  /** A text up to its first blank line. */
  lemma FirstBlock(b: string, x: string)
    requires !HasBlank(b) && (b != "" ==> b[|b| - 1] != '\n')
    ensures EventsOfText(b + "\n\n" + x) == EventOf(b) + EventsOfText(x)
  {
    hide BlankAt, EventOf, EventsOfText;
    var s := b + "\n\n" + x;
    assert s[|b|] == '\n' && s[|b| + 1] == '\n';
    assert forall j :: 0 <= j < |b| ==> s[j] == b[j];
    assert BlankAt(s) == |b|;
    assert s[..|b|] == b && s[|b| + 2..] == x;
    EventsByBlocks(s);
  }

  // ---------------------------------------------------------------- the lines of one block

  lemma {:induction false} DataLinesTogether(a: seq<string>, b: seq<string>)
    ensures DataLines(a + b) == DataLines(a) + DataLines(b)
    decreases |b|
  {
    hide IsDataLine;
    if b == [] {
      assert a + b == a;
    } else {
      var front, last := b[..|b| - 1], b[|b| - 1];
      assert (a + b)[..|a + b| - 1] == a + front && (a + b)[|a + b| - 1] == last;
      DataLinesTogether(a, front);
    }
  }

  /** The data of a block. */
  function Data(s: string): seq<string> { DataLines(SplitLines(s)) }

  function Name(s: string): string { EventName(SplitLines(s)) }

  /** A line feed between two texts ends a line of the first. */
  lemma {:induction false} DataTogether(p: string, q: string)
    requires '\r' !in p
    ensures Data(p + "\n" + q) == Data(p) + Data(q)
    decreases |p|
  {
    hide DataLines, FirstLine, IsLineBreak, SplitLines;
    var s, n := p + "\n" + q, FirstLine(p);
    assert s == p + ("\n" + q);
    FirstLineBefore(p, "\n" + q);
    NoData("");
    if n == |p| {
      assert s[..n] == p && s[n + 1..] == q && p[..n] == p;
      LineThen(s);
      OnlyLine(p);
      DataLinesTogether([p], SplitLines(q));
    } else {
      var later := p[n + 1..];
      assert s[..n] == p[..n] && s[n + 1..] == later + "\n" + q;
      LineThen(p);
      LineThen(s);
      DataTogether(later, q);
      DataLinesTogether([p[..n]], SplitLines(later));
      DataLinesTogether([p[..n]], SplitLines(later + "\n" + q));
    }
  }

  lemma LineThen(s: string)
    requires FirstLine(s) < |s| && s[FirstLine(s)] != '\r'
    ensures SplitLines(s) == [s[..FirstLine(s)]] + SplitLines(s[FirstLine(s) + 1..])
  {
  }

  lemma OnlyLine(s: string)
    requires FirstLine(s) == |s|
    ensures SplitLines(s) == if s == "" then [] else [s]
  {
  }

  lemma NoData(line: string)
    requires !IsDataLine(line)
    ensures DataLines([line]) == [] == DataLines([])
  {
    assert [line][..0] == [];
  }

  lemma {:induction false} FirstLineBefore(p: string, x: string)
    requires x != "" && IsLineBreak(x[0])
    ensures FirstLine(p + x) == FirstLine(p)
  {
    if p == "" {
      assert p + x == x;
    } else {
      assert (p + x)[1..] == p[1..] + x;
      FirstLineBefore(p[1..], x);
    }
  }

  /** A block is an event exactly if it has data: one that is all space has none. */
  lemma EventByData(s: string)
    ensures EventOf(s) == if Data(s) == [] then [] else [SseEvent(Name(s), Data(s))]
  {
    hide DataLines, SplitLines, EventName;
    if Strip(s) == "" {
      StrippedIsSpace(s);
      SpaceHasNoData(s);
    }
  }

  predicate AllSpace(s: string) { forall i :: 0 <= i < |s| ==> IsSpace(s[i]) }

  lemma {:induction false} StrippedIsSpace(s: string)
    requires Strip(s) == ""
    ensures AllSpace(s)
  {
    hide IsSpace, RightStrip;
    if s != "" {
      if IsSpace(s[0]) { StrippedIsSpace(s[1..]); } else { RightStripKeepsFirst(s); }
    }
  }

  lemma {:induction false} SpaceHasNoData(s: string)
    requires AllSpace(s)
    ensures Data(s) == []
    decreases |s|
  {
    hide IsSpace, DataLines, FirstLine;
    var n := FirstLine(s);
    if s != "" {
      var line := s[..n];
      var later := if n == |s| then "" else if s[n] == '\r' && n + 1 < |s| && s[n + 1] == '\n' then s[n + 2..] else s[n + 1..];
      assert AllSpace(later) && AllSpace(line);
      SpaceIsNoData(line);
      NoData(line);
      SpaceHasNoData(later);
      DataLinesTogether([line], SplitLines(later));
      LineFirst(s);
    } else {
      NoData("");
    }
  }

  lemma LineFirst(s: string)
    requires s != ""
    ensures var n := FirstLine(s);
            var later := if n == |s| then "" else if s[n] == '\r' && n + 1 < |s| && s[n + 1] == '\n' then s[n + 2..] else s[n + 1..];
            SplitLines(s) == [s[..n]] + SplitLines(later)
  {
    assert FirstLine(s) == |s| ==> s[..FirstLine(s)] == s;
    assert SplitLines("") == [];
  }

  lemma SpaceIsNoData(line: string)
    requires AllSpace(line)
    ensures !IsDataLine(line)
  {
    if line != "" { assert line[0] != 'd'; }
  }

  lemma FeedBefore(s: string)
    ensures EventOf("\n" + s) == EventOf(s)
  {
    hide EventOf, SplitLines, DataLines, EventName;
    assert [] + DataLines(SplitLines(s)) == DataLines(SplitLines(s));
    EventByData("\n" + s);
    EventByData(s);
    LineAhead(s);
    DataLinesTogether([""], SplitLines(s));
    NoData("");
    NameAfter(SplitLines(s));
  }

  lemma LineAhead(s: string)
    ensures SplitLines("\n" + s) == [""] + SplitLines(s)
  {
    assert ("\n" + s)[1..] == s && ("\n" + s)[..0] == "";
  }

  lemma {:induction false} NameAfter(lines: seq<string>)
    ensures EventName([""] + lines) == EventName(lines)
  {
    var all := [""] + lines;
    if lines != [] {
      assert all[..|all| - 1] == [""] + lines[..|lines| - 1] && all[|all| - 1] == lines[|lines| - 1];
      NameAfter(lines[..|lines| - 1]);
    } else {
      assert all[..0] == [] && EventName([]) == "message";
    }
  }

  /** Line feeds before a text are no event and change none. */
  lemma {:induction false} FeedsAhead(s: string)
    ensures EventsOfText("\n" + s) == EventsOfText(s)
    decreases |s|
  {
    hide BlankAt, EventOf, EventsOfText;
    var t := "\n" + s;
    if s != "" && s[0] == '\n' {
      assert t == "" + "\n\n" + s[1..] && s == "\n" + s[1..];
      FirstBlock("", s[1..]);
      assert EventOf("") == [] by { EmptyBlock(); }
      FeedsAhead(s[1..]);
      assert [] + EventsOfText(s[1..]) == EventsOfText(s[1..]);
    } else {
      BlankAfterFeed(s);
      EventsByBlocks(s);
      EventsByBlocks(t);
      if HasBlank(s) {
        var k := BlankAt(s);
        assert t[..k + 1] == "\n" + s[..k] && t[k + 3..] == s[k + 2..];
        FeedBefore(s[..k]);
      } else {
        FeedBefore(s);
      }
    }
  }

  lemma BlankAfterFeed(s: string)
    requires s == "" || s[0] != '\n'
    ensures BlankAt("\n" + s) == BlankAt(s) + 1
  {
    assert ("\n" + s)[1..] == s;
  }

  lemma EmptyBlock()
    ensures EventOf("") == []
  {
  }

  // ---------------------------------------------------------------- line ends cut in two

  /** The whole normalised text with a CR for every line end that came as a CRLF cut by a chunk boundary. */
  function Marked(chunks: seq<string>): string {
    if chunks == [] then ""
    else
      var before, last := chunks[..|chunks| - 1], chunks[|chunks| - 1];
      var m := Marked(before);
      if CutsCrlf(Concat(before), last) && m != "" then m[..|m| - 1] + "\r" + Normalize(last[1..]) else m + Normalize(last)
  }

  /** What the buffer sees of a marked text: a line end that was cut comes twice. */
  function Doubled(m: string): string {
    if m == "" then "" else (if m[0] == '\r' then "\n\n" else [m[0]]) + Doubled(m[1..])
  }

  lemma {:induction false} DoubledTogether(a: string, b: string)
    ensures Doubled(a + b) == Doubled(a) + Doubled(b)
  {
    if a == "" {
      assert a + b == b;
    } else {
      assert (a + b)[1..] == a[1..] + b;
      DoubledTogether(a[1..], b);
    }
  }

  lemma {:induction false} Unmarked(a: string)
    requires '\r' !in a
    ensures Doubled(a) == a && CrToLf(a) == a
  {
    if a != "" { Unmarked(a[1..]); }
  }

  lemma {:induction false} NormalizedHasNoCr(s: string)
    ensures '\r' !in CrToLf(s)
  {
    if s != "" { NormalizedHasNoCr(s[1..]); }
  }

  lemma CrAtEnd(s: string)
    requires s != "" && s[|s| - 1] == '\r'
    ensures Normalize(s) == Normalize(s[..|s| - 1]) + "\n"
  {
    hide Normalize;
    assert s == s[..|s| - 1] + "\r";
    NormalizeConcat(s[..|s| - 1], "\r");
    NormalizedLineEnds();
  }

  /** Normalising a cut CRLF whole. */
  lemma CutNormalized(a: string, b: string)
    requires CutsCrlf(a, b)
    ensures Normalize(a + b) == Normalize(a[..|a| - 1]) + "\n" + Normalize(b[1..]) && Normalize(b) == "\n" + Normalize(b[1..])
  {
    hide Normalize;
    var front := a[..|a| - 1];
    assert b == "\n" + b[1..] && a + b == front + "\r\n" + b[1..];
    NormalizedLineEnds();
    NormalizeConcat("\n", b[1..]);
    NormalizeConcat(front + "\r\n", b[1..]);
    NormalizeConcat(front, "\r\n");
  }

  /** The marked text is the whole text and what the buffer sees, in one. */
  lemma {:induction false} MarkedReads(chunks: seq<string>)
    ensures var m, whole := Marked(chunks), Concat(chunks);
            CrToLf(m) == Normalize(whole) && Doubled(m) == NormalizeEach(chunks)
            && (whole != "" && whole[|whole| - 1] == '\r' ==> m != "" && m[|m| - 1] == '\n')
  {
    hide Normalize, CrToLf, Doubled;
    if chunks == [] {
      EmptyText();
      Unmarked("");
    } else {
      var before, last := chunks[..|chunks| - 1], chunks[|chunks| - 1];
      MarkedReads(before);
      var m, whole := Marked(before), Concat(before);
      if CutsCrlf(whole, last) { MarkedCut(m, whole, last); } else { MarkedUncut(m, whole, last); }
    }
  }

  lemma MarkedUncut(m: string, whole: string, last: string)
    requires !CutsCrlf(whole, last) && CrToLf(m) == Normalize(whole)
    requires whole != "" && whole[|whole| - 1] == '\r' ==> m != "" && m[|m| - 1] == '\n'
    ensures var m', all := m + Normalize(last), whole + last;
            CrToLf(m') == Normalize(all) && Doubled(m') == Doubled(m) + Normalize(last)
            && (all != "" && all[|all| - 1] == '\r' ==> m' != "" && m'[|m'| - 1] == '\n')
  {
    hide Normalize, CrToLf, Doubled;
    NormalizeConcat(whole, last);
    Plain(last);
    DoubledTogether(m, Normalize(last));
    CrToLfConcat(m, Normalize(last));
    if last == "" {
      EmptyText();
      assert m + "" == m && whole + "" == whole;
    } else if last[|last| - 1] == '\r' {
      CrAtEnd(last);
    }
  }

  lemma Plain(s: string)
    ensures Doubled(Normalize(s)) == Normalize(s) && CrToLf(Normalize(s)) == Normalize(s)
  {
    NormalizedHasNoCr(CrlfToLf(s));
    Unmarked(Normalize(s));
  }

  lemma MarkedCut(m: string, whole: string, last: string)
    requires CutsCrlf(whole, last) && CrToLf(m) == Normalize(whole) && m != "" && m[|m| - 1] == '\n'
    ensures var m', all := m[..|m| - 1] + "\r" + Normalize(last[1..]), whole + last;
            CrToLf(m') == Normalize(all) && Doubled(m') == Doubled(m) + Normalize(last)
            && (all[|all| - 1] == '\r' ==> m'[|m'| - 1] == '\n')
  {
    hide Normalize, CrToLf, Doubled;
    var front, rest := m[..|m| - 1], last[1..];
    assert m == front + "\n" && front + "\r" + Normalize(rest) == front + ("\r" + Normalize(rest));
    CutNormalized(whole, last);
    CrAtEnd(whole);
    Plain(rest);
    OneEnd();
    CrToLfConcat(front, "\n");
    DoubledTogether(front, "\n");
    CrToLfConcat(front, "\r" + Normalize(rest));
    DoubledTogether(front, "\r" + Normalize(rest));
    CrToLfConcat("\r", Normalize(rest));
    DoubledTogether("\r", Normalize(rest));
    SameTail(CrToLf(front), Normalize(whole[..|whole| - 1]), "\n");
    assert Doubled(front) + "\n" + ("\n" + Normalize(rest)) == Doubled(front) + ("\n\n" + Normalize(rest));
    assert CrToLf(front) + ("\n" + Normalize(rest)) == CrToLf(front) + "\n" + Normalize(rest);
    if last[|last| - 1] == '\r' {
      assert rest != "" && rest[|rest| - 1] == '\r';
      CrAtEnd(rest);
    }
  }

  lemma OneEnd()
    ensures CrToLf("\r") == CrToLf("\n") == Doubled("\n") == "\n" && Doubled("\r") == "\n\n"
  {
    assert "\r"[1..] == "" && "\n"[1..] == "" && CrToLf("") == "" && Doubled("") == "";
  }

  /** The blocks of the whole text, and what is left at its end, with their marks. */
  function Segments(m: string): seq<string>
    decreases |m|
  {
    var k := BlankAt(CrToLf(m));
    if k < |m| then [m[..k]] + Segments(m[k + 2..]) else [m]
  }

  function FirstMark(b: string): (k: nat)
    ensures k <= |b| && '\r' !in b[..k] && (k < |b| ==> b[k] == '\r')
  {
    if b == "" || b[0] == '\r' then 0
    else
      assert b == [b[0]] + b[1..];
      1 + FirstMark(b[1..])
  }

  /** What a block is split into: a cut line end becomes a blank line. */
  function Pieces(b: string): seq<string>
    decreases |b|
  {
    if FirstMark(b) == |b| then [b] else [b[..FirstMark(b)]] + Pieces(b[FirstMark(b) + 1..])
  }

  ghost function DataPieces(pieces: seq<string>): seq<string> {
    if pieces == [] then []
    else (if Data(pieces[0]) != [] then [pieces[0]] else []) + DataPieces(pieces[1..])
  }

  /** The block survives its cuts: no piece has data, or one has and is named like the block. */
  ghost predicate Survives(b: string) {
    var d := DataPieces(Pieces(b));
    d == [] || (|d| == 1 && Name(d[0]) == Name(CrToLf(b)))
  }

  ghost function DataOf(pieces: seq<string>): seq<string> {
    if pieces == [] then [] else Data(pieces[0]) + DataOf(pieces[1..])
  }

  lemma EventsOfFirst(blocks: seq<string>)
    requires blocks != []
    ensures EventsOf(blocks) == EventOf(blocks[0]) + EventsOf(blocks[1..])
  {
    hide EventOf;
    assert blocks == [blocks[0]] + blocks[1..];
    EventsOfOne(blocks[0]);
    EventsOfConcat([blocks[0]], blocks[1..]);
  }

  lemma {:induction false} PiecesWithData(pieces: seq<string>)
    ensures var d := DataPieces(pieces);
            |EventsOf(pieces)| == |d| && (DataOf(pieces) == [] <==> d == [])
            && (|d| == 1 ==> EventsOf(pieces) == [SseEvent(Name(d[0]), DataOf(pieces))])
  {
    hide Data, Name, EventOf;
    if pieces != [] {
      EventsOfFirst(pieces);
      EventByData(pieces[0]);
      PiecesWithData(pieces[1..]);
      assert Data(pieces[0]) + [] == Data(pieces[0]) && [] + DataOf(pieces[1..]) == DataOf(pieces[1..]);
    }
  }

  /** The data of the whole block are those of its pieces. */
  lemma {:induction false} DataOfBlock(b: string)
    ensures Data(CrToLf(b)) == DataOf(Pieces(b))
    decreases |b|
  {
    hide Data, CrToLf, FirstMark;
    var k := FirstMark(b);
    if k == |b| {
      Unmarked(b);
      assert [b][1..] == [] && Data(b) + [] == Data(b);
    } else {
      var p, q := b[..k], b[k + 1..];
      MarkBetween(b);
      DataOfBlock(q);
      DataTogether(p, CrToLf(q));
      assert Pieces(b)[0] == p && Pieces(b)[1..] == Pieces(q);
    }
  }

  lemma MarkBetween(b: string)
    requires FirstMark(b) < |b|
    ensures var p, q := b[..FirstMark(b)], b[FirstMark(b) + 1..];
            CrToLf(b) == p + "\n" + CrToLf(q) && Doubled(b) == p + "\n\n" + Doubled(q)
  {
    var p, q := b[..FirstMark(b)], b[FirstMark(b) + 1..];
    hide FirstMark, CrToLf, Doubled;
    assert b == p + ("\r" + q);
    Unmarked(p);
    OneEnd();
    CrToLfConcat(p, "\r" + q);
    DoubledTogether(p, "\r" + q);
    CrToLfConcat("\r", q);
    DoubledTogether("\r", q);
  }

  lemma SurvivesExactly(b: string)
    ensures EventsOf(Pieces(b)) == EventOf(CrToLf(b)) <==> Survives(b)
    ensures |EventsOf(Pieces(b))| >= |EventOf(CrToLf(b))|
  {
    hide Data, Name, EventOf, EventsOf, Pieces, CrToLf, DataPieces, DataOf;
    PiecesWithData(Pieces(b));
    DataOfBlock(b);
    EventByData(CrToLf(b));
  }

  /** A block without blank lines, doubled, is its pieces; `x` is what follows it. */
  lemma {:induction false} DoubledBlock(b: string, x: string)
    requires !HasBlank(CrToLf(b))
    ensures EventsOfText(Doubled(b)) == EventsOf(Pieces(b))
    ensures (b != "" ==> b[|b| - 1] !in "\r\n") ==> EventsOfText(Doubled(b) + "\n\n" + x) == EventsOf(Pieces(b)) + EventsOfText(x)
    decreases |b|
  {
    hide BlankAt, EventOf, EventsOfText, EventsOf, CrToLf, Doubled, FirstMark;
    var k := FirstMark(b);
    if k == |b| {
      Unmarked(b);
      EventsOfOne(b);
      EventsByBlocks(b);
      if b != "" ==> b[|b| - 1] !in "\r\n" { FirstBlock(b, x); }
    } else {
      var p, q := b[..k], b[k + 1..];
      MarkBetween(b);
      BlankInParts(p, CrToLf(q));
      DoubledBlock(q, x);
      FirstBlock(p, Doubled(q));
      FirstBlock(p, Doubled(q) + "\n\n" + x);
      assert Pieces(b)[0] == p && Pieces(b)[1..] == Pieces(q);
      EventsOfFirst(Pieces(b));
      assert p + "\n\n" + (Doubled(q) + "\n\n" + x) == Doubled(b) + "\n\n" + x;
    }
  }

  lemma BlankInParts(p: string, q: string)
    requires !HasBlank(p + "\n" + q)
    ensures !HasBlank(p) && !HasBlank(q) && (p != "" ==> p[|p| - 1] != '\n')
  {
    hide BlankAt;
    var s := p + "\n" + q;
    assert forall j :: 0 <= j < |p| ==> s[j] == p[j];
    assert forall j :: 0 <= j < |q| ==> s[|p| + 1 + j] == q[j];
    assert s[|p|] == '\n';
  }

  ghost function WholeEvents(blocks: seq<string>): seq<SseEvent> {
    if blocks == [] then [] else EventOf(CrToLf(blocks[0])) + WholeEvents(blocks[1..])
  }

  ghost function SplitEvents(blocks: seq<string>): seq<SseEvent> {
    if blocks == [] then [] else EventsOf(Pieces(blocks[0])) + SplitEvents(blocks[1..])
  }

  /** Block by block: the events of the whole text, and those of what the buffer sees. */
  lemma {:induction false} EventsBySegments(m: string)
    ensures EventsOfText(CrToLf(m)) == WholeEvents(Segments(m))
    ensures EventsOfText(Doubled(m)) == SplitEvents(Segments(m))
    decreases |m|
  {
    hide BlankAt, EventOf, EventsOfText, EventsOf, CrToLf, Doubled, Pieces;
    var k := BlankAt(CrToLf(m));
    EventsByBlocks(CrToLf(m));
    if k < |m| {
      var b, later := m[..k], m[k + 2..];
      SegmentAndRest(m);
      EventsBySegments(later);
      var feeds := BlankLine(m, k);
      DoubledBlock(b, feeds + Doubled(later));
      if |feeds| > 0 { FeedsAhead(feeds[1..] + Doubled(later)); assert feeds + Doubled(later) == "\n" + (feeds[1..] + Doubled(later)); }
      if |feeds| > 1 { FeedsAhead(Doubled(later)); assert feeds[1..] + Doubled(later) == "\n" + Doubled(later); }
      if feeds == "" { assert feeds + Doubled(later) == Doubled(later); }
      assert |feeds| == 1 ==> feeds[1..] + Doubled(later) == Doubled(later);
      assert Segments(m)[0] == b && Segments(m)[1..] == Segments(later);
    } else {
      DoubledBlock(m, "");
      assert [m][1..] == [];
      assert WholeEvents([m]) == EventOf(CrToLf(m)) + WholeEvents([]) && SplitEvents([m]) == EventsOf(Pieces(m)) + SplitEvents([]);
    }
  }

  lemma SegmentAndRest(m: string)
    requires HasBlank(CrToLf(m))
    ensures var k := BlankAt(CrToLf(m));
            CrToLf(m)[..k] == CrToLf(m[..k]) && CrToLf(m)[k + 2..] == CrToLf(m[k + 2..]) && !HasBlank(CrToLf(m[..k]))
            && m[k] in "\r\n" && m[k + 1] in "\r\n" && (k > 0 ==> m[k - 1] !in "\r\n")
  {
    hide BlankAt, CrToLf;
    var k := BlankAt(CrToLf(m));
    assert m == m[..k] + m[k..] && m[k..] == m[k..k + 2] + m[k + 2..];
    CrToLfConcat(m[..k], m[k..]);
    CrToLfConcat(m[k..k + 2], m[k + 2..]);
    CrToLfAt(m, k);
    CrToLfAt(m, k + 1);
    if k > 0 { CrToLfAt(m, k - 1); }
  }

  lemma {:induction false} CrToLfAt(s: string, i: nat)
    requires i < |s|
    ensures CrToLf(s)[i] == if s[i] == '\r' then '\n' else s[i]
  {
    if i > 0 { CrToLfAt(s[1..], i - 1); }
  }

  /** A blank line may itself have been cut: then there are more line feeds, at most two. */
  lemma BlankLine(m: string, k: nat) returns (feeds: string)
    requires k + 1 < |m| && m[k] in "\r\n" && m[k + 1] in "\r\n"
    ensures feeds in {"", "\n", "\n\n"} && Doubled(m) == Doubled(m[..k]) + "\n\n" + (feeds + Doubled(m[k + 2..]))
  {
    hide Doubled;
    var later := m[k + 2..];
    assert m == m[..k] + ([m[k]] + ([m[k + 1]] + later));
    DoubledTogether(m[..k], [m[k]] + ([m[k + 1]] + later));
    DoubledTogether([m[k]], [m[k + 1]] + later);
    DoubledTogether([m[k + 1]], later);
    DoubledEnd(m[k]);
    DoubledEnd(m[k + 1]);
    feeds := if m[k] == '\r' && m[k + 1] == '\r' then "\n\n" else if m[k] == '\r' || m[k + 1] == '\r' then "\n" else "";
    assert Doubled([m[k]]) + (Doubled([m[k + 1]]) + Doubled(later)) == "\n\n" + (feeds + Doubled(later));
  }

  lemma DoubledEnd(c: char)
    requires c in "\r\n"
    ensures Doubled([c]) == if c == '\r' then "\n\n" else "\n"
  {
    assert [c][1..] == [] && Doubled("") == "";
  }

  lemma {:induction false} SegmentsSurvive(blocks: seq<string>)
    ensures SplitEvents(blocks) == WholeEvents(blocks) <==> forall i :: 0 <= i < |blocks| ==> Survives(blocks[i])
    ensures |SplitEvents(blocks)| >= |WholeEvents(blocks)|
  {
    hide EventOf, EventsOf, Pieces, CrToLf, Survives;
    if blocks != [] {
      var b, later := blocks[0], blocks[1..];
      SurvivesExactly(b);
      SegmentsSurvive(later);
      assert (forall i :: 0 <= i < |blocks| ==> Survives(blocks[i])) <==> Survives(b) && forall i :: 0 <= i < |later| ==> Survives(later[i]) by {
        assert forall i :: 0 <= i < |later| ==> later[i] == blocks[i + 1];
        assert forall i :: 0 < i < |blocks| ==> blocks[i] == later[i - 1];
      }
      SameParts(EventsOf(Pieces(b)), EventOf(CrToLf(b)), SplitEvents(later), WholeEvents(later));
    }
  }

  lemma SameParts(a: seq<SseEvent>, a': seq<SseEvent>, b: seq<SseEvent>, b': seq<SseEvent>)
    requires |a| >= |a'| && |b| >= |b'|
    ensures a + b == a' + b' <==> a == a' && b == b'
  {
    if a + b == a' + b' {
      assert |a| == |a'| && a == (a + b)[..|a|] && a' == (a' + b')[..|a'|];
      assert b == (a + b)[|a|..] && b' == (a' + b')[|a'|..];
    }
  }

  // ---------------------------------------------------------------- independence of the chunking

  /** Whatever was received, between chunks the buffer holds no blank line and is within the limit. */
  lemma {:induction false} BufferBetweenChunks(chunks: seq<string>)
    ensures !HasBlank(Received(chunks).1) && |Received(chunks).1| <= 1_048_576
  {
    hide Blocks, EventsOf;
    if chunks != [] {
      BufferBetweenChunks(chunks[..|chunks| - 1]);
    }
  }

  /** At no chunk does the text after the last blank line exceed the limit. */
  predicate NeverOversize(chunks: seq<string>) {
    forall n :: 0 <= n <= |chunks| ==> |Rest(NormalizeEach(chunks[..n]))| <= 1_048_576
  }

  lemma {:induction false} ReceivedIsPrefixCut(chunks: seq<string>)
    requires NeverOversize(chunks)
    ensures var text := NormalizeEach(chunks); Received(chunks) == (EventsOf(Blocks(text)), Rest(text))
  {
    hide EventOf, Blocks, Rest, HasBlank, Normalize;
    if chunks == [] {
      EmptyText();
    } else {
      var front, last := chunks[..|chunks| - 1], chunks[|chunks| - 1];
      assert forall n :: 0 <= n <= |front| ==> front[..n] == chunks[..n];
      assert chunks[..|chunks|] == chunks;
      ReceivedIsPrefixCut(front);
      var seen := NormalizeEach(front);
      BlocksIncremental(seen, Normalize(last));
      EventsOfConcat(Blocks(seen), Blocks(Rest(seen) + Normalize(last)));
    }
  }

  /** The events depend only on the normalised chunks put together. */
  lemma StreamedIsWhole(chunks: seq<string>, final: string)
    requires NeverOversize(chunks)
    ensures Streamed(chunks, final) == EventsOfText(NormalizeEach(chunks + [final]))
  {
    hide EventOf, Blocks, Rest, HasBlank, Normalize, EventsOf;
    ReceivedIsPrefixCut(chunks);
    assert (chunks + [final])[..|chunks|] == chunks;
    var seen := NormalizeEach(chunks);
    BlocksIncremental(seen, Normalize(final));
    EventsOfConcat(Blocks(seen), Blocks(Rest(seen) + Normalize(final)));
  }

  // ---------------------------------------------------------------- the flush of a long buffer

  /** The chunk leaves so much behind the last blank line that the buffer is flushed. */
  predicate Flushes(before: seq<string>, chunk: string) { |Rest(Received(before).1 + Normalize(chunk))| > 1_048_576 }

  /** What reached the buffer, with a blank line where it was flushed. */
  function Seen(chunks: seq<string>): string {
    if chunks == [] then ""
    else
      var before, last := chunks[..|chunks| - 1], chunks[|chunks| - 1];
      Seen(before) + Normalize(last) + if Flushes(before, last) then "\n\n" else ""
  }

  /** For all chunks: a flush acts like a blank line in the text, wherever in a line it comes. */
  lemma FlushIsBlankLine(chunks: seq<string>, final: string)
    ensures Streamed(chunks, final) == EventsOfText(Seen(chunks) + Normalize(final))
  {
    hide EventsOfText, Seen, Received, Normalize;
    SeenSoFar(chunks, Normalize(final));
  }

  lemma {:induction false} SeenSoFar(chunks: seq<string>, x: string)
    ensures Received(chunks).0 + EventsOfText(Received(chunks).1 + x) == EventsOfText(Seen(chunks) + x)
    ensures '\r' !in Received(chunks).1
  {
    hide EventsOfText, Normalize, Fed;
    if chunks == [] {
      assert "" + x == x;
    } else {
      var before, last := chunks[..|chunks| - 1], chunks[|chunks| - 1];
      var buffer, feeds := Received(before).1, if Flushes(before, last) then "\n\n" else "";
      SeenSoFar(before, Normalize(last) + feeds + x);
      FedThen(buffer, last, x);
      assert buffer + (Normalize(last) + feeds + x) == buffer + Normalize(last) + feeds + x;
      assert Seen(chunks) + x == Seen(before) + (Normalize(last) + feeds + x);
      assert Received(chunks).0 + EventsOfText(Received(chunks).1 + x)
          == Received(before).0 + (Fed(buffer, last).0 + EventsOfText(Fed(buffer, last).1 + x));
    }
  }

  lemma FedThen(buffer: string, chunk: string, x: string)
    requires '\r' !in buffer
    ensures var text, fed := buffer + Normalize(chunk), Fed(buffer, chunk);
            var feeds := if |Rest(text)| > 1_048_576 then "\n\n" else "";
            fed.0 + EventsOfText(fed.1 + x) == EventsOfText(text + feeds + x) && '\r' !in fed.1
  {
    hide EventsOfText, Normalize, Blocks, Rest, EventsOf;
    var text := buffer + Normalize(chunk);
    NoCrIn(buffer, chunk);
    RestHasNoCr(text);
    if |Rest(text)| > 1_048_576 {
      BlocksThen(text, "\n\n" + x);
      Flushed(Rest(text), x);
      EventsOfOne(Rest(text));
      EventsOfConcat(Blocks(text), [Rest(text)]);
      assert text + ("\n\n" + x) == text + "\n\n" + x && Rest(text) + ("\n\n" + x) == Rest(text) + "\n\n" + x;
      assert "" + x == x;
    } else {
      BlocksThen(text, x);
      assert text + "" == text;
    }
  }

  lemma NoCrIn(buffer: string, chunk: string)
    requires '\r' !in buffer
    ensures '\r' !in buffer + Normalize(chunk)
  {
    NormalizedHasNoCr(CrlfToLf(chunk));
  }

  lemma {:induction false} RestHasNoCr(s: string)
    requires '\r' !in s
    ensures '\r' !in Rest(s)
    decreases |s|
  {
    hide BlankAt;
    if HasBlank(s) { RestHasNoCr(s[BlankAt(s) + 2..]); }
  }

  lemma BlocksThen(text: string, more: string)
    ensures EventsOfText(text + more) == EventsOf(Blocks(text)) + EventsOfText(Rest(text) + more)
  {
    hide Blocks, Rest, EventsOf, EventOf;
    BlocksIncremental(text, more);
    EventsOfConcat(Blocks(text), Blocks(Rest(text) + more));
  }

  lemma Flushed(rest: string, x: string)
    requires !HasBlank(rest) && '\r' !in rest
    ensures EventsOfText(rest + "\n\n" + x) == EventOf(rest) + EventsOfText(x)
  {
    hide BlankAt, EventOf, EventsOfText;
    if rest != "" && rest[|rest| - 1] == '\n' {
      var front := rest[..|rest| - 1];
      assert rest == front + "\n" + "" && rest == front + "\n";
      BlankInParts(front, "");
      FirstBlock(front, "\n" + x);
      FeedsAhead(x);
      FeedBehind(front);
      assert rest + "\n\n" + x == front + "\n\n" + ("\n" + x);
    } else {
      FirstBlock(rest, x);
    }
  }

  lemma FeedBehind(s: string)
    requires '\r' !in s
    ensures EventOf(s + "\n") == EventOf(s)
  {
    hide EventOf, SplitLines, DataLines, EventName;
    EventByData(s + "\n");
    EventByData(s);
    LineBehind(s);
    var lines := SplitLines(s);
    DataLinesTogether(lines, [""]);
    NoData("");
    assert DataLines(lines) + [] == DataLines(lines);
    NameBefore(lines);
  }

  lemma NameBefore(lines: seq<string>)
    ensures EventName(lines + [""]) == EventName(lines)
  {
    assert (lines + [""])[..|lines|] == lines;
  }

  lemma {:induction false} LineBehind(s: string)
    requires '\r' !in s
    ensures SplitLines(s + "\n") == SplitLines(s) || SplitLines(s + "\n") == SplitLines(s) + [""]
    decreases |s|
  {
    hide SplitLines, FirstLine, IsLineBreak;
    var t, n := s + "\n", FirstLine(s);
    FirstLineBefore(s, "\n");
    LineThen(t);
    OnlyLine("");
    if n == |s| {
      OnlyLine(s);
      assert t[..n] == s && t[n + 1..] == "";
      assert [s] + [] == [s] && [] + [""] == [""];
    } else {
      var later := s[n + 1..];
      LineThen(s);
      LineBehind(later);
      assert t[..n] == s[..n] && t[n + 1..] == later + "\n";
      assert [s[..n]] + (SplitLines(later) + [""]) == [s[..n]] + SplitLines(later) + [""];
    }
  }

  /** When a flush between `rest` and the text `x` changes nothing: it falls into a blank line, or the block
      it cuts, `rest` and the `x` up to the next blank line, has the events of its two parts. */
  lemma FlushChanges(rest: string, x: string)
    requires !HasBlank(rest) && '\r' !in rest
    ensures var k := BlankAt(rest + x);
            EventsOfText(rest + "\n\n" + x) == EventsOfText(rest + x) <==>
              k < |rest| || EventOf(rest) + EventOf(x[..k - |rest|]) == EventOf(rest + x[..k - |rest|])
  {
    hide BlankAt, EventOf, EventsOfText;
    Flushed(rest, x);
    if BlankAt(rest + x) < |rest| { FlushAtBlankLine(rest, x); } else { FlushInBlock(rest, x); }
  }

  lemma FlushAtBlankLine(rest: string, x: string)
    requires !HasBlank(rest) && '\r' !in rest && BlankAt(rest + x) < |rest|
    ensures EventsOfText(rest + x) == EventOf(rest) + EventsOfText(x)
  {
    hide BlankAt, EventOf, EventsOfText;
    var s, k := rest + x, BlankAt(rest + x);
    assert forall j :: 0 <= j < |rest| ==> rest[j] == s[j];
    assert k == |rest| - 1 && x[0] == s[|rest|];
    var front, later := rest[..k], x[1..];
    assert rest == front + "\n" && x == "\n" + later && s[..k] == front && s[k + 2..] == later;
    EventsByBlocks(s);
    FeedBehind(front);
    FeedsAhead(later);
  }

  lemma FlushInBlock(rest: string, x: string)
    requires BlankAt(rest + x) >= |rest|
    ensures var q := x[..BlankAt(rest + x) - |rest|];
            EventsOfText(rest + x) == EventOf(rest) + EventsOfText(x) <==> EventOf(rest) + EventOf(q) == EventOf(rest + q)
  {
    hide BlankAt, EventOf, EventsOfText;
    var s, k := rest + x, BlankAt(rest + x);
    var q := x[..k - |rest|];
    BlankBehind(s, |rest|);
    assert s[|rest|..] == x && s[..k] == rest + q;
    EventsByBlocks(s);
    EventsByBlocks(x);
    if HasBlank(s) {
      var later := x[k - |rest| + 2..];
      assert s[k + 2..] == later;
      SameTails(EventOf(rest) + EventOf(q), EventOf(rest + q), EventsOfText(later));
      assert EventOf(rest) + (EventOf(q) + EventsOfText(later)) == EventOf(rest) + EventOf(q) + EventsOfText(later);
    } else {
      assert q == x && s[..k] == s;
    }
  }

  lemma BlankBehind(s: string, n: nat)
    requires n <= BlankAt(s)
    ensures BlankAt(s[n..]) == BlankAt(s) - n
  {
    hide BlankAt;
    assert forall j :: 0 <= j < |s| - n ==> s[n..][j] == s[n + j];
  }

  lemma SameTails(a: seq<SseEvent>, b: seq<SseEvent>, tail: seq<SseEvent>)
    ensures a + tail == b + tail <==> a == b
  {
    if a + tail == b + tail {
      assert |a| == |b| && a == (a + tail)[..|a|] && b == (b + tail)[..|a|];
    }
  }

  // ---------------------------------------------------------------- exactly when the chunks matter

  /** However one text is cut into chunks, the events are those of the whole normalised text exactly if
      every block of it survives the CRLFs cut inside it; if no CRLF is cut, they all do. */
  lemma ChunkIndependence(chunks: seq<string>, final: string)
    requires NeverOversize(chunks)
    ensures var all := chunks + [final];
            var blocks := Segments(Marked(all));
            (Streamed(chunks, final) == EventsOfText(Normalize(Concat(all))) <==> forall i :: 0 <= i < |blocks| ==> Survives(blocks[i]))
            && (!SomeCutInCrlf(all) ==> Streamed(chunks, final) == EventsOfText(Normalize(Concat(all))))
  {
    hide EventsOfText, Streamed, Segments, Marked, Survives, NeverOversize, Normalize, Concat, SomeCutInCrlf;
    var all := chunks + [final];
    ChunkwiseNormalization(all);
    StreamedIsWhole(chunks, final);
    MarkedReads(all);
    EventsBySegments(Marked(all));
    SegmentsSurvive(Segments(Marked(all)));
  }

  predicate OneLine(s: string) {
    forall i :: 0 <= i < |s| ==> !IsLineBreak(s[i])
  }

  lemma {:induction false} OneLineUnchanged(s: string)
    requires OneLine(s)
    ensures Normalize(s) == s && CrlfToLf(s) == s
  {
    if s != "" {
      assert OneLine(s[1..]);
      OneLineUnchanged(s[1..]);
    }
  }

  lemma OneLineSplit(a: string, b: string)
    requires OneLine(a) && OneLine(b) && a != "" && b != ""
    ensures SplitLines(a) == [a] && SplitLines(a + "\n" + b) == [a, b]
  {
    FirstLineOf(a, "");
    FirstLineOf(b, "");
    assert a + "" == a && b + "" == b;
    FirstLineOf(a, "\n" + b);
    var s := a + "\n" + b;
    assert s == a + ("\n" + b) && s[..|a|] == a && s[|a| + 1..] == b;
  }

  lemma {:induction false} FirstLineOf(a: string, b: string)
    requires OneLine(a) && (b != "" ==> IsLineBreak(b[0]))
    ensures FirstLine(a + b) == |a|
  {
    if a == "" {
      assert a + b == b;
    } else {
      assert (a + b)[1..] == a[1..] + b;
      FirstLineOf(a[1..], b);
    }
  }

  lemma NormalizedLineEnds()
    ensures Normalize("\r\n") == "\n" && Normalize("\r") == "\n" && Normalize("\n") == "\n"
  {
    assert "\r\n"[2..] == "" && "\r"[1..] == "" && "\n"[1..] == "" && CrlfToLf("") == "" && CrToLf("") == "";
    assert CrlfToLf("\r\n") == "\n" && CrlfToLf("\r") == "\r" && CrlfToLf("\n") == "\n";
  }

  lemma NormalizedLines(a: string, b: string)
    requires OneLine(a) && OneLine(b)
    ensures Normalize(a + "\r\n" + b) == a + "\n" + b
    ensures Normalize(a + "\r") == a + "\n" && Normalize("\n" + b) == "\n" + b
  {
    hide Normalize;
    OneLineUnchanged(a);
    OneLineUnchanged(b);
    NormalizedLineEnds();
    NormalizeConcat(a, "\r\n");
    NormalizeConcat(a + "\r\n", b);
    NormalizeConcat(a, "\r");
    NormalizeConcat("\n", b);
  }

  lemma OneLinesHaveNoBlank(a: string, b: string)
    requires OneLine(a) && OneLine(b) && b != ""
    ensures !HasBlank(a) && !HasBlank(b) && !HasBlank(a + "\n" + b)
  {
    hide BlankAt;
    var s := a + "\n" + b;
    assert forall j :: 0 <= j < |s| ==> s[j] == if j < |a| then a[j] else if j == |a| then '\n' else b[j - |a| - 1];
  }

  lemma EventOfLines(p: string, q: string)
    requires OneLine(p) && OneLine(q)
    ensures EventOf("data:" + p) == [SseEvent("message", [LeftStrip(p)])]
    ensures EventOf("data:" + p + "\n" + ("data:" + q)) == [SseEvent("message", [LeftStrip(p), LeftStrip(q)])]
  {
    hide SplitLines, LeftStrip, Strip;
    var a, b := "data:" + p, "data:" + q;
    OneLineSplit(a, b);
    NotBlank(a);
    NotBlank(a + "\n" + b);
    assert [a][..0] == [] && [a, b][..1] == [a];
    DataLine(p);
    DataLine(q);
    assert EventName([]) == "message" && DataLines([]) == [];
    assert EventName([a]) == "message" && DataLines([a]) == [LeftStrip(p)];
    assert EventName([a, b]) == "message" && DataLines([a, b]) == [LeftStrip(p), LeftStrip(q)];
  }

  lemma DataLine(p: string)
    ensures IsDataLine("data:" + p) && ("data:" + p)[5..] == p
  {
    assert ("data:" + p)[0] == 'd';
  }

  lemma NotBlank(s: string)
    requires s != "" && !IsSpace(s[0])
    ensures Strip(s) != ""
  {
    RightStripKeepsFirst(s);
  }

  lemma {:induction false} RightStripKeepsFirst(s: string)
    requires s != "" && !IsSpace(s[0])
    ensures RightStrip(s) != ""
  {
    if |s| > 1 && IsSpace(s[|s| - 1]) { RightStripKeepsFirst(s[..|s| - 1]); }
  }

  lemma EventsOfEnd(b: string, end: string)
    requires !HasBlank(b) && b != "" && b[|b| - 1] != '\n' && end in {"", "\n\n"}
    ensures EventsOfText(b + end) == EventOf(b)
  {
    hide BlankAt, EventOf, EventsOfText;
    EventsByBlocks(b);
    FirstBlock(b, "");
    EventsByBlocks("");
    EmptyBlock();
    assert b + "" == b && b + "\n\n" + "" == b + "\n\n" && EventOf(b) + [] == EventOf(b);
  }

  /** A CRLF cut in two turns a line end into a blank line: for any two data lines the one event with
      both becomes two events. */
  lemma CutCrlfSplitsEvent(p: string, q: string)
    requires OneLine(p) && OneLine(q)
    ensures var a, b := "data:" + p, "data:" + q;
            Streamed([a + "\r\n" + b], "") == [SseEvent("message", [LeftStrip(p), LeftStrip(q)])]
            && Streamed([a + "\r", "\n" + b], "") == [SseEvent("message", [LeftStrip(p)]), SseEvent("message", [LeftStrip(q)])]
  {
    hide EventOf, Normalize, LeftStrip, Streamed, HasBlank;
    var a, b := "data:" + p, "data:" + q;
    NormalizedLines(a, b);
    OneLinesHaveNoBlank(a, b);
    EventOfLines(p, q);
    EventOfLines(q, p);
    EmptyText();
    LinesInOneChunk(a, b);
    LinesCutInTwo(a, b);
  }

  lemma LinesInOneChunk(a: string, b: string)
    requires Normalize(a + "\r\n" + b) == a + "\n" + b && Normalize("") == "" && !HasBlank(a + "\n" + b) && b != "" && b[|b| - 1] != '\n'
    ensures Streamed([a + "\r\n" + b], "") == EventOf(a + "\n" + b)
  {
    hide EventOf, Normalize, EventsOfText, Streamed, Flushes, HasBlank;
    FlushIsBlankLine([a + "\r\n" + b], "");
    var end := if Flushes([], a + "\r\n" + b) then "\n\n" else "";
    SeenOne(a + "\r\n" + b);
    assert Seen([a + "\r\n" + b]) + "" == a + "\n" + b + end;
    EventsOfEnd(a + "\n" + b, end);
  }

  lemma LinesCutInTwo(a: string, b: string)
    requires Normalize(a + "\r") == a + "\n" && Normalize("\n" + b) == "\n" + b && Normalize("") == ""
    requires !HasBlank(a) && !HasBlank(b) && a != "" && b != "" && a[|a| - 1] != '\n' && b[|b| - 1] != '\n'
    ensures Streamed([a + "\r", "\n" + b], "") == EventOf(a) + EventOf(b)
  {
    hide EventOf, Normalize, EventsOfText, Streamed, Flushes, HasBlank;
    FlushIsBlankLine([a + "\r", "\n" + b], "");
    var feeds := if Flushes([], a + "\r") then "\n\n" else "";
    var end := if Flushes([a + "\r"], "\n" + b) then "\n\n" else "";
    SeenOne(a + "\r");
    SeenTwo(a + "\r", "\n" + b);
    assert Seen([a + "\r", "\n" + b]) + "" == a + "\n" + feeds + ("\n" + b) + end;
    EventsOfEnd(b, end);
    FirstBlock(a, b + end);
    FirstBlock(a, "\n" + ("\n" + (b + end)));
    FeedsAhead(b + end);
    FeedsAhead("\n" + (b + end));
    if feeds == "" {
      assert a + "\n" + feeds + ("\n" + b) + end == a + "\n\n" + (b + end);
    } else {
      assert a + "\n" + feeds + ("\n" + b) + end == a + "\n\n" + ("\n" + ("\n" + (b + end)));
    }
  }

  lemma SeenOne(chunk: string)
    ensures Seen([chunk]) == Normalize(chunk) + if Flushes([], chunk) then "\n\n" else ""
  {
    hide Normalize, Flushes;
    assert [chunk][..0] == [];
  }

  lemma SeenTwo(first: string, second: string)
    ensures Seen([first, second]) == Seen([first]) + Normalize(second) + if Flushes([first], second) then "\n\n" else ""
  {
    hide Normalize, Flushes;
    assert [first, second][..1] == [first];
  }
}

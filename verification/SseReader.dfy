/** The server-sent-events reader of the DeerFlow client (deerflow_api/client.py): newline
    normalisation per chunk, a text buffer cut at blank lines, and an upper bound on the buffer. The
    functions say what the loops compute, and the methods are the loops; how the events depend on the
    chunks is in SseChunks. */
module SseReader {
  import opened Common

  const MAX_BUFFER_CHARS: nat := 1_048_576

  // ---------------------------------------------------------------- newlines

  /** `text.replace('\r\n', '\n')`: a CR right before an LF goes. */
  function CrlfToLf(s: string): string {
    if s == "" then ""
    else if 2 <= |s| && s[0] == '\r' && s[1] == '\n' then CrlfToLf(s[1..])
    else [s[0]] + CrlfToLf(s[1..])
  }

  function CrToLf(s: string): (r: string)
    ensures |r| == |s|
  {
    if s == "" then "" else [if s[0] == '\r' then '\n' else s[0]] + CrToLf(s[1..])
  }

  /** `text.replace('\r\n', '\n').replace('\r', '\n')`. */
  function Normalize(s: string): string { CrToLf(CrlfToLf(s)) }

  predicate CutsCrlf(a: string, b: string) {
    a != "" && b != "" && a[|a| - 1] == '\r' && b[0] == '\n'
  }

  lemma {:induction false} CrToLfConcat(a: string, b: string)
    ensures CrToLf(a + b) == CrToLf(a) + CrToLf(b)
  {
    if a == "" {
      assert a + b == b;
    } else {
      assert (a + b)[1..] == a[1..] + b;
      CrToLfConcat(a[1..], b);
    }
  }

  lemma {:induction false} CrlfToLfConcat(a: string, b: string)
    requires !CutsCrlf(a, b)
    ensures CrlfToLf(a + b) == CrlfToLf(a) + CrlfToLf(b)
    decreases |a|
  {
    if a == "" {
      assert a + b == b;
    } else {
      assert (a + b)[1..] == a[1..] + b;
      CrlfToLfConcat(a[1..], b);
    }
  }

  lemma CrlfToLfCut(a: string, b: string)
    requires CutsCrlf(a, b)
    ensures CrlfToLf(a) + CrlfToLf(b) == CrlfToLf(a[..|a| - 1]) + "\r" + CrlfToLf(b)
    ensures CrlfToLf(a + b) == CrlfToLf(a[..|a| - 1]) + CrlfToLf(b)
  {
    var front := a[..|a| - 1];
    assert a == front + "\r";
    CrlfToLfConcat(front, "\r");
    assert CrlfToLf("\r") == "\r" + CrlfToLf("\r"[1..]) == "\r";
    assert a + b == front + ("\r" + b);
    CrlfToLfConcat(front, "\r" + b);
    assert ("\r" + b)[1..] == b;
  }

  /** Normalising two pieces separately is normalising the whole, unless the cut falls inside a CRLF:
      then one more newline comes out. */
  lemma NormalizeConcat(a: string, b: string)
    ensures !CutsCrlf(a, b) ==> Normalize(a) + Normalize(b) == Normalize(a + b)
    ensures CutsCrlf(a, b) ==> |Normalize(a) + Normalize(b)| == |Normalize(a + b)| + 1
  {
    if CutsCrlf(a, b) {
      CrlfToLfCut(a, b);
      CrToLfConcat(CrlfToLf(a), CrlfToLf(b));
    } else {
      CrlfToLfConcat(a, b);
      CrToLfConcat(CrlfToLf(a), CrlfToLf(b));
    }
  }

  function Concat(chunks: seq<string>): string {
    if chunks == [] then "" else Concat(chunks[..|chunks| - 1]) + chunks[|chunks| - 1]
  }

  /** What reaches the buffer: every chunk normalised by itself. */
  function NormalizeEach(chunks: seq<string>): string {
    if chunks == [] then "" else NormalizeEach(chunks[..|chunks| - 1]) + Normalize(chunks[|chunks| - 1])
  }

  /** Some cut between chunks falls inside a CRLF of the whole text. */
  predicate SomeCutInCrlf(chunks: seq<string>) {
    exists n :: 0 <= n < |chunks| && CutsCrlf(Concat(chunks[..n]), chunks[n])
  }

  lemma SameTail(a: string, b: string, tail: string)
    ensures a + tail == b + tail <==> a == b
  {
    if a + tail == b + tail {
      assert |a| == |b| && a == (a + tail)[..|a|] && b == (b + tail)[..|a|];
    }
  }

  /** The buffer sees the normalised text exactly when no cut falls inside a CRLF. */
  lemma {:induction false} ChunkwiseNormalization(chunks: seq<string>)
    ensures NormalizeEach(chunks) == Normalize(Concat(chunks)) <==> !SomeCutInCrlf(chunks)
    ensures |NormalizeEach(chunks)| >= |Normalize(Concat(chunks))|
  {
    hide Normalize;
    if chunks == [] {
      assert Normalize("") == "" by { EmptyText(); }
    } else {
      var n := |chunks| - 1;
      var front, last := Concat(chunks[..n]), chunks[n];
      ChunkwiseNormalization(chunks[..n]);
      NormalizeConcat(front, last);
      if CutsCrlf(front, last) {
        assert SomeCutInCrlf(chunks);
      } else {
        SomeCutInFront(chunks);
        SameTail(NormalizeEach(chunks[..n]), Normalize(front), Normalize(last));
      }
    }
  }

  lemma SomeCutInFront(chunks: seq<string>)
    requires chunks != [] && !CutsCrlf(Concat(chunks[..|chunks| - 1]), chunks[|chunks| - 1])
    ensures SomeCutInCrlf(chunks) <==> SomeCutInCrlf(chunks[..|chunks| - 1])
  {
    var front := chunks[..|chunks| - 1];
    if n :| 0 <= n < |chunks| && CutsCrlf(Concat(chunks[..n]), chunks[n]) {
      assert front[..n] == chunks[..n] && front[n] == chunks[n];
    }
    if n :| 0 <= n < |front| && CutsCrlf(Concat(front[..n]), front[n]) {
      assert front[..n] == chunks[..n] && front[n] == chunks[n];
    }
  }

  // ---------------------------------------------------------------- blocks

  /** Position of the leftmost blank line, or the length when there is none. */
  function BlankAt(s: string): (k: nat)
    ensures k <= |s|
    ensures k < |s| ==> k + 1 < |s| && s[k] == '\n' && s[k + 1] == '\n'
    ensures forall j :: 0 <= j < k && j + 1 < |s| ==> !(s[j] == '\n' && s[j + 1] == '\n')
  {
    if s == "" then 0
    else if 2 <= |s| && s[0] == '\n' && s[1] == '\n' then 0
    else 1 + BlankAt(s[1..])
  }

  predicate HasBlank(s: string) { BlankAt(s) < |s| }

  /** The whole text cut at the leftmost blank line again and again. */
  function Blocks(s: string): seq<string>
    decreases |s|
  {
    if HasBlank(s) then [s[..BlankAt(s)]] + Blocks(s[BlankAt(s) + 2..]) else []
  }

  /** What is left after the last blank line. */
  function Rest(s: string): (r: string)
    ensures !HasBlank(r)
    decreases |s|
  {
    if HasBlank(s) then Rest(s[BlankAt(s) + 2..]) else s
  }

  lemma NothingToCut(s: string)
    requires !HasBlank(s)
    ensures Blocks(s) == [] && Rest(s) == s
  {
  }

  lemma {:induction false} CutOff(s: string)
    requires HasBlank(s)
    ensures var k := BlankAt(s);
            Blocks(s) == [s[..k]] + Blocks(s[k + 2..]) && Rest(s) == Rest(s[k + 2..])
  {
    hide BlankAt;
  }

  lemma {:induction false} BlankAtPrefix(a: string, b: string)
    requires HasBlank(a)
    ensures BlankAt(a + b) == BlankAt(a)
    decreases |a|
  {
    if !(2 <= |a| && a[0] == '\n' && a[1] == '\n') {
      assert (a + b)[1..] == a[1..] + b;
      assert BlankAt(a) == 1 + BlankAt(a[1..]);
      BlankAtPrefix(a[1..], b);
    }
  }

  lemma BlankEnd(a: string, b: string) returns (k: nat)
    requires HasBlank(a)
    ensures k == BlankAt(a) == BlankAt(a + b) && HasBlank(a + b) && k + 2 <= |a|
    ensures (a + b)[..k] == a[..k] && (a + b)[k + 2..] == a[k + 2..] + b
  {
    hide BlankAt;
    k := BlankAt(a);
    BlankAtPrefix(a, b);
  }

  /** Cutting a prefix first and the remainder with the rest of the text later changes nothing. */
  lemma {:induction false} BlocksIncremental(a: string, b: string)
    ensures Blocks(a + b) == Blocks(a) + Blocks(Rest(a) + b)
    ensures Rest(a + b) == Rest(Rest(a) + b)
    decreases |a|
  {
    hide BlankAt;
    hide Blocks, Rest, HasBlank;
    if HasBlank(a) {
      var k := BlankEnd(a, b);
      var later := a[k + 2..];
      CutOff(a);
      CutOff(a + b);
      BlocksIncremental(later, b);
      assert [a[..k]] + (Blocks(later) + Blocks(Rest(later) + b)) == ([a[..k]] + Blocks(later)) + Blocks(Rest(later) + b);
    } else {
      NothingToCut(a);
      assert [] + Blocks(a + b) == Blocks(a + b);
    }
  }

  // ---------------------------------------------------------------- one block

  /** `JSON` decoding of the data lines is left to the caller. */
  datatype SseEvent = SseEvent(name: string, data: seq<string>)

  predicate IsLineBreak(c: char) {
    '\n' <= c <= '\r' || '\U{001C}' <= c <= '\U{001E}' || c == '\U{0085}' || c == '\U{2028}' || c == '\U{2029}'
  }

  /** `str.isspace` for one character. */
  predicate IsSpace(c: char) {
    IsLineBreak(c) || c == '\t' || c == '\U{001F}' || c == ' ' || c == '\U{00A0}' || c == '\U{1680}'
    || '\U{2000}' <= c <= '\U{200A}' || c == '\U{202F}' || c == '\U{205F}' || c == '\U{3000}'
  }

  function LeftStrip(s: string): string {
    if s != "" && IsSpace(s[0]) then LeftStrip(s[1..]) else s
  }

  function RightStrip(s: string): string {
    if s != "" && IsSpace(s[|s| - 1]) then RightStrip(s[..|s| - 1]) else s
  }

  function Strip(s: string): string { RightStrip(LeftStrip(s)) }

  function FirstLine(s: string): (n: nat)
    ensures n <= |s| && (n < |s| ==> IsLineBreak(s[n]))
  {
    if s == "" || IsLineBreak(s[0]) then 0 else 1 + FirstLine(s[1..])
  }

  /** `str.splitlines`. */
  function SplitLines(s: string): seq<string>
    decreases |s|
  {
    if s == "" then []
    else
      var n := FirstLine(s);
      if n == |s| then [s]
      else if s[n] == '\r' && n + 1 < |s| && s[n + 1] == '\n' then [s[..n]] + SplitLines(s[n + 2..])
      else [s[..n]] + SplitLines(s[n + 1..])
  }

  predicate IsEventLine(line: string) { "event:" <= line }
  predicate IsDataLine(line: string) { !IsEventLine(line) && "data:" <= line }

  function DataLines(lines: seq<string>): (r: seq<string>)
  {
    if lines == [] then []
    else
      var n := |lines| - 1;
      DataLines(lines[..n]) + if IsDataLine(lines[n]) then [LeftStrip(lines[n][5..])] else []
  }

  /** The last `event:` line names the event. */
  function EventName(lines: seq<string>): string {
    if lines == [] then "message"
    else
      var n := |lines| - 1;
      if IsEventLine(lines[n]) then Strip(lines[n][6..]) else EventName(lines[..n])
  }

  function EventOf(block: string): seq<SseEvent> {
    var lines := SplitLines(block);
    if Strip(block) == "" || DataLines(lines) == [] then []
    else [SseEvent(EventName(lines), DataLines(lines))]
  }

  function EventsOf(blocks: seq<string>): seq<SseEvent> {
    if blocks == [] then [] else EventsOf(blocks[..|blocks| - 1]) + EventOf(blocks[|blocks| - 1])
  }

  method ParseSseBlock(block: string) returns (parsed: Option<SseEvent>)
    ensures EventOf(block) == match parsed case None => [] case Some(e) => [e]
  {
    if Strip(block) == "" { return None; }
    var name, data := "message", [];
    var lines := SplitLines(block);
    for n := 0 to |lines|
      invariant name == EventName(lines[..n]) && data == DataLines(lines[..n])
    {
      assert lines[..n + 1][..n] == lines[..n];
      var line := lines[n];
      if "event:" <= line {
        name := Strip(line[6..]);
      } else if "data:" <= line {
        data := data + [LeftStrip(line[5..])];
      }
    }
    assert lines[..|lines|] == lines;
    if data == [] { return None; }
    return Some(SseEvent(name, data));
  }

  // ---------------------------------------------------------------- the loop

  lemma {:induction false} EventsOfConcat(a: seq<string>, b: seq<string>)
    ensures EventsOf(a + b) == EventsOf(a) + EventsOf(b)
    decreases |b|
  {
    hide EventOf;
    if b == [] {
      assert a + b == a;
    } else {
      var n := |b| - 1;
      assert (a + b)[..|a + b| - 1] == a + b[..n];
      EventsOfConcat(a, b[..n]);
    }
  }

  /** `while '\n\n' in buffer`: every complete block leaves the buffer and is parsed. */
  method TakeBlocks(text: string) returns (events: seq<SseEvent>, buffer: string)
    ensures events == EventsOf(Blocks(text)) && buffer == Rest(text)
  {
    hide BlankAt, EventOf, Blocks, Rest;
    events, buffer := [], text;
    ghost var done: seq<string> := [];
    while HasBlank(buffer)
      invariant Blocks(text) == done + Blocks(buffer) && Rest(text) == Rest(buffer)
      invariant events == EventsOf(done)
      decreases |buffer|
    {
      CutOff(buffer);
      var k := BlankAt(buffer);
      var block := buffer[..k];
      assert done + ([block] + Blocks(buffer[k + 2..])) == (done + [block]) + Blocks(buffer[k + 2..]);
      buffer := buffer[k + 2..];
      var parsed := ParseSseBlock(block);
      if parsed.Some? { events := events + [parsed.value]; }
      assert (done + [block])[..|done|] == done;
      done := done + [block];
    }
    NothingToCut(buffer);
    assert done + [] == done;
  }

  /** One received chunk: the events it completes and the buffer it leaves. A rest beyond the limit is
      parsed as a block of its own and dropped. */
  function Fed(buffer: string, chunk: string): (seq<SseEvent>, string) {
    var text := buffer + Normalize(chunk);
    if |Rest(text)| <= MAX_BUFFER_CHARS then (EventsOf(Blocks(text)), Rest(text))
    else (EventsOf(Blocks(text) + [Rest(text)]), "")
  }

  method Feed(buffer: string, chunk: string) returns (events: seq<SseEvent>, left: string)
    ensures (events, left) == Fed(buffer, chunk)
  {
    hide EventOf, Blocks, Rest, HasBlank, Normalize;
    var text := buffer + Normalize(chunk);
    events, left := TakeBlocks(text);
    if |left| > MAX_BUFFER_CHARS {
      EventsOfConcat(Blocks(text), [left]);
      assert EventsOf([left]) == EventOf(left) by {
        assert [left][..0] == [] && EventsOf([]) == [];
      }
      var parsed := ParseSseBlock(left);
      if parsed.Some? { events := events + [parsed.value]; }
      assert events == EventsOf(Blocks(text) + [left]);
      left := "";
    }
  }

  /** The loop over the received chunks. */
  function Received(chunks: seq<string>): (seq<SseEvent>, string) {
    if chunks == [] then ([], "")
    else
      var before := Received(chunks[..|chunks| - 1]);
      var fed := Fed(before.1, chunks[|chunks| - 1]);
      (before.0 + fed.0, fed.1)
  }

  /** The events of a whole text. */
  function EventsOfText(text: string): seq<SseEvent> {
    EventsOf(Blocks(text)) + EventOf(Rest(text))
  }

  /** `stream_run` over the decoded chunks; `final` is what the decoder gives when it is closed. */
  function Streamed(chunks: seq<string>, final: string): seq<SseEvent> {
    Received(chunks).0 + EventsOfText(Received(chunks).1 + Normalize(final))
  }

  method StreamRun(chunks: seq<string>, final: string) returns (events: seq<SseEvent>)
    ensures events == Streamed(chunks, final)
  {
    hide EventOf, Blocks, Rest, HasBlank, Normalize, Fed;
    var buffer := "";
    events := [];
    for n := 0 to |chunks|
      invariant (events, buffer) == Received(chunks[..n])
    {
      assert chunks[..n + 1][..n] == chunks[..n];
      var more;
      more, buffer := Feed(buffer, chunks[n]);
      events := events + more;
    }
    assert chunks[..|chunks|] == chunks;
    ghost var received := events;
    var more;
    more, buffer := TakeBlocks(buffer + Normalize(final));
    events := events + more;
    if Strip(buffer) != "" {
      var parsed := ParseSseBlock(buffer);
      if parsed.Some? { events := events + [parsed.value]; }
    } else {
      BlankBlock(buffer);
    }
    assert events == received + (more + EventOf(buffer));
  }

  lemma BlankBlock(block: string)
    requires Strip(block) == ""
    ensures EventOf(block) == []
  {
  }

  lemma EmptyText()
    ensures Normalize("") == "" && Blocks("") == [] && Rest("") == ""
  {
    NothingToCut("");
  }
}

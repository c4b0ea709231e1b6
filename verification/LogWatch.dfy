/** Watching a log while it grows (skills/src/commands/log.ts, log-guard.ts): the lines scanned poll by poll
    and the findings made in them are those of one scan of the whole file, whenever the polls happen. */
module LogWatch {
  import opened Common

  datatype LogLine = LogLine(number: nat, text: string)

  // ---------------------------------------------------------------- lines

  /** The index of the first line feed, or the length of a text without one. */
  function FirstLf(text: string): (n: nat)
    ensures n <= |text| && '\n' !in text[..n] && (n < |text| ==> text[n] == '\n')
  {
    if text == "" || text[0] == '\n' then 0 else 1 + FirstLf(text[1..])
  }

  function Chomp(piece: string): string { if piece != "" && piece[|piece| - 1] == '\r' then piece[..|piece| - 1] else piece }

  /** `text.split(/\r?\n/)`. */
  function Lines(text: string): (r: seq<string>)
    ensures |r| >= 1
    decreases |text|
  {
    var n := FirstLf(text);
    if n == |text| then [text] else [Chomp(text[..n])] + Lines(text[n + 1..])
  }

  /** What stands after the last line feed. */
  function Tail(text: string): string
    decreases |text|
  {
    var n := FirstLf(text);
    if n == |text| then text else Tail(text[n + 1..])
  }

  function Numbered(baseNumber: nat, lines: seq<string>): seq<LogLine>
    decreases |lines|
  {
    if lines == [] then [] else [LogLine(baseNumber + 1, lines[0])] + Numbered(baseNumber + 1, lines[1..])
  }

  function NonEmpty(lines: seq<LogLine>): seq<LogLine> {
    if lines == [] then [] else Kept(lines[0]) + NonEmpty(lines[1..])
  }

  function Kept(line: LogLine): seq<LogLine> { if line.text == "" then [] else [line] }

  lemma {:induction false} NumberedAppend(n: nat, a: seq<string>, b: seq<string>)
    ensures Numbered(n, a + b) == Numbered(n, a) + Numbered(n + |a|, b)
    decreases |a|
  {
    if a == [] {
      assert a + b == b;
    } else {
      NumberedAppend(n + 1, a[1..], b);
      assert (a + b)[1..] == a[1..] + b && (a + b)[0] == a[0];
      var first := [LogLine(n + 1, a[0])];
      assert Numbered(n, a) == first + Numbered(n + 1, a[1..]);
      assert Numbered(n, a + b) == first + Numbered(n + 1, a[1..] + b);
      hide Numbered;
    }
  }

  lemma {:induction false} NonEmptyAppend(a: seq<LogLine>, b: seq<LogLine>)
    ensures NonEmpty(a + b) == NonEmpty(a) + NonEmpty(b)
  {
    hide Kept;
    if a == [] {
      assert a + b == b;
    } else {
      NonEmptyAppend(a[1..], b);
      assert (a + b)[1..] == a[1..] + b && (a + b)[0] == a[0];
      var x, y := NonEmpty(a[1..]), NonEmpty(b);
      assert Kept(a[0]) + x + y == Kept(a[0]) + (x + y);
    }
  }

  /** `done` is a text that ends a line, or nothing. */
  predicate Complete(done: string) { done == "" || done[|done| - 1] == '\n' }

  lemma {:induction false} FirstLfAt(text: string, n: nat)
    requires n < |text| && text[n] == '\n' && '\n' !in text[..n]
    ensures FirstLf(text) == n
  {
    if n > 0 {
      assert text[0] == text[..n][0];
      assert text[1..][..n - 1] == text[..n][1..];
      FirstLfAt(text[1..], n - 1);
    }
  }

  lemma {:induction false} FirstLfNone(text: string)
    requires '\n' !in text
    ensures FirstLf(text) == |text| && Lines(text) == [text] && Tail(text) == text
  {
    if text != "" {
      assert text[0] in text;
      forall c | c in text[1..]
        ensures c in text
      {
      }
      FirstLfNone(text[1..]);
    }
  }

  /** The first line of a complete text is also the first line of what continues it. */
  lemma FirstLine(done: string, rest: string)
    requires Complete(done) && done != ""
    ensures var n := FirstLf(done);
            n < |done| && FirstLf(done + rest) == n && (done + rest)[..n] == done[..n]
            && (done + rest)[n + 1..] == done[n + 1..] + rest && Complete(done[n + 1..])
  {
    var n := FirstLf(done);
    assert (done + rest)[..n] == done[..n];
    FirstLfAt(done + rest, n);
  }

  /** After a complete text the lines of the rest follow. */
  lemma {:induction false} LinesAppend(done: string, rest: string)
    requires Complete(done)
    ensures var k := |Lines(done)| - 1;
            Lines(done + rest) == Lines(done)[..k] + Lines(rest) && Lines(done)[k] == "" && Tail(done + rest) == Tail(rest)
    decreases |done|
  {
    hide FirstLf, Complete, Chomp, Lines, Tail;
    if done == "" {
      assert done + rest == rest;
      FirstLfNone("");
    } else {
      FirstLine(done, rest);
      var n := FirstLf(done);
      var after := done[n + 1..];
      LinesAppend(after, rest);
      LinesFirst(done);
      LinesFirst(done + rest);
      FrontKept([Chomp(done[..n])], Lines(after), Lines(rest));
    }
  }

  lemma LinesFirst(text: string)
    requires FirstLf(text) < |text|
    ensures var n := FirstLf(text);
            Lines(text) == [Chomp(text[..n])] + Lines(text[n + 1..]) && Tail(text) == Tail(text[n + 1..])
  {
    hide FirstLf, Chomp;
  }

  lemma FrontKept(a: seq<string>, b: seq<string>, c: seq<string>)
    requires b != []
    ensures var ab := a + b;
            ab[..|ab| - 1] + c == a + (b[..|b| - 1] + c) && ab[|ab| - 1] == b[|b| - 1]
  {
  }

  lemma {:induction false} TailEnds(text: string)
    ensures '\n' !in Tail(text) && |Tail(text)| <= |text|
    ensures text[|text| - |Tail(text)|..] == Tail(text) && Complete(text[..|text| - |Tail(text)|])
    decreases |text|
  {
    hide FirstLf;
    var n := FirstLf(text);
    if n == |text| {
      assert text[..n] == text;
    } else {
      var rest := text[n + 1..];
      TailEnds(rest);
      var k := |rest| - |Tail(rest)|;
      assert text[|text| - |Tail(text)|..] == rest[k..];
      assert text[..|text| - |Tail(text)|] == text[..n + 1] + rest[..k];
    }
  }

  lemma {:induction false} TailEmpty(text: string)
    ensures Tail(text) == "" <==> Complete(text)
    decreases |text|
  {
    hide FirstLf;
    var n := FirstLf(text);
    if n < |text| {
      TailEmpty(text[n + 1..]);
      assert text[n + 1..] == "" ==> text[|text| - 1] == '\n';
    } else if text != "" {
      assert text[..n][|text| - 1] == text[|text| - 1];
    }
  }

  lemma NonEmptyLinesAppend(done: string, rest: string)
    requires Complete(done)
    ensures NonEmpty(Numbered(0, Lines(done + rest))) ==
            NonEmpty(Numbered(0, Lines(done))) + NonEmpty(Numbered(|Lines(done)| - 1, Lines(rest)))
    ensures |Lines(done + rest)| - 1 == |Lines(done)| - 1 + |Lines(rest)| - 1
  {
    hide Lines, Complete, Tail, Kept;
    LinesAppend(done, rest);
    var k := |Lines(done)| - 1;
    var front := Lines(done)[..k];
    NumberedAppend(0, front, Lines(rest));
    NonEmptyAppend(Numbered(0, front), Numbered(k, Lines(rest)));
    assert Lines(done) == front + [""];
    NumberedAppend(0, front, [""]);
    NonEmptyAppend(Numbered(0, front), Numbered(k, [""]));
    EmptyLineLeftOut(k);
    hide Numbered, NonEmpty;
  }

  lemma EmptyLineLeftOut(n: nat)
    ensures NonEmpty(Numbered(n, [""])) == []
  {
  }

  // ---------------------------------------------------------------- polling

  /** `scanned` are all lines handed to the scanner so far. */
  datatype Watch = Watch(offset: nat, baseNumber: nat, carry: string, scanned: seq<LogLine>)

  const START := Watch(0, 0, "", [])

  /** One more than the last index of a line feed or carriage return. */
  function AfterLastBreak(text: string): (n: nat)
    ensures n <= |text|
  {
    if text == "" then 0
    else if text[|text| - 1] == '\n' || text[|text| - 1] == '\r' then |text|
    else AfterLastBreak(text[..|text| - 1])
  }

  function Scanned(w: Watch, complete: string, carry: string): Watch {
    w.(baseNumber := w.baseNumber + |Lines(complete)| - 1, carry := carry,
       scanned := w.scanned + Numbered(w.baseNumber, Lines(complete)))
  }

  /** `poll` on the file content `buffer`; a file that shrank is read from its start. */
  function Poll(w0: Watch, buffer: string): Watch {
    var w := if |buffer| < w0.offset then w0.(offset := 0, baseNumber := 0, carry := "") else w0;
    if |buffer| == w.offset then w
    else
      var text := w.carry + buffer[w.offset..];
      var n := if Complete(text) then |text| else AfterLastBreak(text);
      var r := w.(offset := |buffer|);
      if n == 0 then r.(carry := text) else Scanned(r, text[..n], text[n..])
  }

  /** The lines scanned when the watch ends. */
  function Finished(w: Watch): seq<LogLine> {
    if w.carry == "" then w.scanned else w.scanned + Numbered(w.baseNumber, Lines(w.carry))
  }

  function Polls(buffers: seq<string>): Watch {
    if buffers == [] then START else Poll(Polls(buffers[..|buffers| - 1]), buffers[|buffers| - 1])
  }

  ghost predicate Growing(buffers: seq<string>) { forall i :: 0 < i < |buffers| ==> buffers[i - 1] <= buffers[i] }

  /** A poll scans up to the last line feed or carriage return it sees. Cutting `file` there, at `p`, does
      no harm after a line feed; after a carriage return it does none if nothing follows, or a whole CRLF
      that leaves the line as it was scanned. */
  ghost predicate Harmless(file: string, p: nat)
    requires p <= |file|
  {
    Complete(file[..p]) || file[p..] == "" || "\r\n" <= file[p..]
  }

  ghost predicate AllHarmless(buffers: seq<string>, file: string) {
    forall i :: 0 <= i < |buffers| ==> AfterLastBreak(buffers[i]) <= |file| && Harmless(file, AfterLastBreak(buffers[i]))
  }

  /** The watch has read `file`: it has scanned as many lines as end before the last break, and carries
      what comes after the break. */
  ghost predicate HasRead(w: Watch, file: string) {
    var p := AfterLastBreak(file);
    w.offset == |file| && w.carry == file[p..] && w.baseNumber == |Lines(file[..p])| - 1
  }

  /** The lines scanned are those of the text up to the last break. */
  ghost predicate Agrees(w: Watch, file: string) {
    NonEmpty(w.scanned) == NonEmpty(Numbered(0, Lines(file[..AfterLastBreak(file)])))
  }

  predicate IsBreak(c: char) { c == '\n' || c == '\r' }

  lemma {:induction false} LastBreak(text: string)
    ensures var p := AfterLastBreak(text);
            (p > 0 ==> IsBreak(text[p - 1])) && '\n' !in text[p..] && '\r' !in text[p..]
  {
    var p := AfterLastBreak(text);
    if text != "" && p < |text| {
      var front := text[..|text| - 1];
      LastBreak(front);
      assert text[p..] == front[p..] + [text[|text| - 1]];
    } else {
      assert text[p..] == "";
    }
  }

  /** Behind a break the search starts over. */
  lemma {:induction false} BreakBehind(text: string, p: nat)
    requires p <= |text| && (p > 0 ==> IsBreak(text[p - 1]))
    ensures AfterLastBreak(text) == p + AfterLastBreak(text[p..])
    decreases |text|
  {
    if p < |text| {
      var front := text[..|text| - 1];
      assert text[p..][..|text[p..]| - 1] == front[p..];
      BreakBehind(front, p);
    } else {
      assert text[p..] == "";
    }
  }

  /** A line that `b` continues. */
  lemma LinesOver(x: string, b: string)
    requires '\n' !in x
    ensures var n := FirstLf(b);
            Lines(x + b) == if n == |b| then [x + b] else [Chomp(x + b[..n])] + Lines(b[n + 1..])
  {
    hide Lines, Chomp;
    var n := FirstLf(b);
    var all := x + b;
    if n == |b| {
      assert b[..n] == b;
      FirstLfNone(all);
    } else {
      assert all[..|x| + n] == x + b[..n] && all[|x| + n + 1..] == b[n + 1..];
      FirstLfAt(all, |x| + n);
      LinesFirst(all);
    }
  }

  lemma LineCount(a: string, b: string)
    ensures |Lines(a + b)| - 1 == |Lines(a)| - 1 + |Lines(b)| - 1
  {
    hide Lines, Tail, Complete, Chomp, FirstLf;
    TailEnds(a);
    var x := Tail(a);
    var d := a[..|a| - |x|];
    assert d + x == a && d + (x + b) == a + b;
    LinesAppend(d, x);
    LinesAppend(d, x + b);
    FirstLfNone(x);
    LinesOver(x, b);
    if FirstLf(b) < |b| { LinesFirst(b); } else { FirstLfMissing(b); }
  }

  lemma FirstLfMissing(b: string)
    requires FirstLf(b) == |b|
    ensures Lines(b) == [b] && '\n' !in b
  {
    assert b[..|b|] == b;
  }

  /** A poll scans from the last break of what was read before to the last break there is now. */
  lemma {:induction false} PollReads(w: Watch, file: string, buffer: string)
    requires HasRead(w, file) && file <= buffer
    ensures AfterLastBreak(file) <= AfterLastBreak(buffer)
    ensures var p, p', w' := AfterLastBreak(file), AfterLastBreak(buffer), Poll(w, buffer);
            HasRead(w', buffer)
            && w'.scanned == w.scanned + if p' == p then [] else Numbered(|Lines(file[..p])| - 1, Lines(buffer[p..p']))
  {
    hide Lines, AfterLastBreak, Numbered, Complete, FirstLf, IsBreak;
    var p, p' := AfterLastBreak(file), AfterLastBreak(buffer);
    LastBreak(file);
    BreakBehind(buffer, p);
    var text := buffer[p..];
    assert file[p..] + buffer[|file|..] == text;
    assert w.scanned + [] == w.scanned;
    if |buffer| == |file| {
      assert buffer == file;
    } else {
      var n := AfterLastBreak(text);
      CompleteBreaks(text);
      assert n == p' - p && text[..n] == buffer[p..p'];
      assert text[n..] == buffer[p'..];
      assert buffer[..p] == file[..p];
      assert buffer[..p'] == buffer[..p] + buffer[p..p'];
      LineCount(buffer[..p], buffer[p..p']);
    }
  }

  lemma CompleteBreaks(text: string)
    ensures Complete(text) ==> AfterLastBreak(text) == |text|
  {
  }

  // ---------------------------------------------------------------- harmless cuts

  /** A line scanned at its carriage return, and then the line end that belongs to it. */
  lemma {:induction false} LineEndAppend(a: string, rest: string)
    ensures var n := |Lines(a)| - 1;
            NonEmpty(Numbered(0, Lines(a + "\r\n" + rest))) ==
            NonEmpty(Numbered(0, Lines(a))) + NonEmpty(Numbered(n, Lines("\r\n" + rest)))
  {
    hide Lines, Tail, NonEmpty, Numbered, Complete;
    TailEnds(a);
    var x := Tail(a);
    var d := a[..|a| - |x|];
    var ended := a + "\r\n";
    assert d + x == a && d + (x + "\r\n") == ended;
    assert Complete(ended) by { EndsLine(a); }
    assert Complete("\r\n") by { EndsLine(""); assert "" + "\r\n" == "\r\n"; }
    FirstLfNone(x);
    LineEndLines(x);
    LineEndLines("");
    assert "" + "\r\n" == "\r\n";
    NonEmptyLinesAppend(d, x);
    NonEmptyLinesAppend(d, x + "\r\n");
    NonEmptyLinesAppend(ended, rest);
    var k := |Lines(d)| - 1;
    WithEmptyLine(k, x);
    LineEndFirst(k, rest);
  }

  lemma EndsLine(a: string)
    ensures Complete(a + "\r\n")
  {
  }

  lemma LineEndLines(x: string)
    requires '\n' !in x
    ensures Lines(x + "\r\n") == [x, ""]
  {
    hide Lines;
    assert x + "\r\n" == (x + "\r") + "\n";
    FirstLineBreak(x + "\r", x + "\r\n");
    assert (x + "\r")[..|x|] == x;
  }

  lemma FirstLineBreak(a: string, b: string)
    requires '\n' !in a && b == a + "\n"
    ensures Lines(b) == [Chomp(a), ""]
  {
    assert b[..|a|] == a && b[|a| + 1..] == "";
    FirstLfAt(b, |a|);
  }

  lemma WithEmptyLine(n: nat, x: string)
    ensures NonEmpty(Numbered(n, [x, ""])) == NonEmpty(Numbered(n, [x]))
  {
    hide Kept;
    assert [x, ""] == [x] + [""];
    NumberedAppend(n, [x], [""]);
    NonEmptyAppend(Numbered(n, [x]), Numbered(n + 1, [""]));
    EmptyLineLeftOut(n + 1);
    hide Numbered, NonEmpty;
  }

  lemma LineEndFirst(n: nat, rest: string)
    ensures NonEmpty(Numbered(n, Lines("\r\n" + rest))) == NonEmpty(Numbered(n + 1, Lines(rest)))
  {
    hide Lines, NonEmpty, Numbered, Complete;
    LineEndLines("");
    assert "" + "\r\n" == "\r\n";
    EndsLine("");
    LinesAppend("\r\n", rest);
    assert Lines("\r\n")[..1] == [""];
    NumberedAppend(n, [""], Lines(rest));
    NonEmptyAppend(Numbered(n, [""]), Numbered(n + 1, Lines(rest)));
    EmptyLineLeftOut(n);
  }

  /** Of two harmless cuts the later one is not between a carriage return and its line feed. */
  lemma HarmlessApart(file: string, p: nat, p': nat)
    requires p < p' <= |file| && Harmless(file, p) && Harmless(file, p')
    ensures Complete(file[..p]) || file[p..p'] != "\r"
  {
    assert |file[p..]| > 1 ==> file[p..][1] == file[p + 1];
    assert p' < |file| ==> file[p'..][0] == file[p'];
    assert file[p..p'][0] == file[p] && file[..p'][p' - 1] == file[p' - 1];
  }

  lemma CutAppend(file: string, p: nat, p': nat)
    requires p < p' <= |file| && Harmless(file, p) && (Complete(file[..p]) || file[p..p'] != "\r")
    ensures NonEmpty(Numbered(0, Lines(file[..p']))) ==
            NonEmpty(Numbered(0, Lines(file[..p]))) + NonEmpty(Numbered(|Lines(file[..p])| - 1, Lines(file[p..p'])))
  {
    hide Lines, NonEmpty, Numbered, Complete;
    var a, b := file[..p], file[p..p'];
    assert file[..p'] == a + b;
    if Complete(a) {
      NonEmptyLinesAppend(a, b);
    } else {
      assert file[p..][0] == b[0];
      assert |b| > 1 ==> file[p..][1] == b[1];
      assert |b| == 1 ==> b == "\r";
      assert b == "\r\n" + b[2..];
      LineEndAppend(a, b[2..]);
      assert a + "\r\n" + b[2..] == a + b;
    }
  }

  lemma PollAgrees(w: Watch, before: string, buffer: string, file: string)
    requires HasRead(w, before) && Agrees(w, before) && before <= buffer <= file
    requires Harmless(file, AfterLastBreak(before)) && Harmless(file, AfterLastBreak(buffer))
    ensures Agrees(Poll(w, buffer), buffer)
  {
    hide Lines, AfterLastBreak, Numbered, Complete, NonEmpty, Harmless, Poll, HasRead;
    var p, p' := AfterLastBreak(before), AfterLastBreak(buffer);
    PollReads(w, before, buffer);
    assert before[..p] == file[..p] && buffer[..p'] == file[..p'] && buffer[p..p'] == file[p..p'];
    if p < p' {
      HarmlessApart(file, p, p');
      CutAppend(file, p, p');
      NonEmptyAppend(w.scanned, Numbered(|Lines(before[..p])| - 1, Lines(buffer[p..p'])));
    } else {
      assert w.scanned + [] == w.scanned;
    }
  }

  lemma FinishAgrees(w: Watch, file: string)
    requires HasRead(w, file) && Agrees(w, file) && Harmless(file, AfterLastBreak(file))
    ensures NonEmpty(Finished(w)) == NonEmpty(Numbered(0, Lines(file)))
  {
    hide Lines, AfterLastBreak, Numbered, NonEmpty, Complete;
    var p := AfterLastBreak(file);
    LastBreak(file);
    assert file[..p] + file[p..] == file;
    if w.carry == "" {
      assert file[..p] == file;
    } else {
      assert file[p..][0] == w.carry[0];
      NonEmptyLinesAppend(file[..p], w.carry);
      NonEmptyAppend(w.scanned, Numbered(w.baseNumber, Lines(w.carry)));
    }
  }

  // ---------------------------------------------------------------- cuts that do harm

  lemma {:induction false} NumberedHas(n: nat, lines: seq<string>, i: nat)
    requires i < |lines| && lines[i] != ""
    ensures LogLine(n + i + 1, lines[i]) in NonEmpty(Numbered(n, lines))
    decreases |lines|
  {
    hide Kept;
    var x := LogLine(n + 1, lines[0]);
    var rest := Numbered(n + 1, lines[1..]);
    assert Numbered(n, lines)[0] == x && Numbered(n, lines)[1..] == rest;
    if i > 0 {
      NumberedHas(n + 1, lines[1..], i - 1);
    } else {
      assert x in Kept(x) by { KeptItself(x); }
    }
  }

  lemma KeptItself(x: LogLine)
    requires x.text != ""
    ensures x in Kept(x)
  {
  }

  /** In the one scan a number has one line. */
  lemma {:induction false} NumberedOnly(n: nat, lines: seq<string>, x: LogLine)
    ensures x in NonEmpty(Numbered(n, lines)) ==> n < x.number <= n + |lines| && lines[x.number - n - 1] == x.text
    decreases |lines|
  {
    if lines != [] {
      NumberedOnly(n + 1, lines[1..], x);
      var first := LogLine(n + 1, lines[0]);
      assert Numbered(n, lines)[0] == first && Numbered(n, lines)[1..] == Numbered(n + 1, lines[1..]);
    }
  }

  ghost predicate Ascending(lines: seq<LogLine>) { forall i, j :: 0 <= i < j < |lines| ==> lines[i].number < lines[j].number }

  lemma {:induction false} NumberedAscending(n: nat, lines: seq<string>)
    ensures |Numbered(n, lines)| == |lines| && Ascending(Numbered(n, lines))
    ensures forall i :: 0 <= i < |lines| ==> Numbered(n, lines)[i].number > n
    decreases |lines|
  {
    if lines != [] { NumberedAscending(n + 1, lines[1..]); }
  }

  lemma {:induction false} NonEmptyAscending(n: nat, lines: seq<string>)
    ensures Ascending(NonEmpty(Numbered(n, lines)))
    ensures forall i :: 0 <= i < |NonEmpty(Numbered(n, lines))| ==> NonEmpty(Numbered(n, lines))[i].number > n
    decreases |lines|
  {
    if lines != [] {
      NonEmptyAscending(n + 1, lines[1..]);
      var first := LogLine(n + 1, lines[0]);
      assert Numbered(n, lines)[0] == first && Numbered(n, lines)[1..] == Numbered(n + 1, lines[1..]);
    }
  }

  /** The unfinished line of `a` as it is scanned when `a` is cut off. */
  lemma LastLine(a: string)
    requires !Complete(a)
    ensures var k := |Lines(a)| - 1; Lines(a)[k] == Tail(a) != "" && LogLine(k + 1, Tail(a)) in NonEmpty(Numbered(0, Lines(a)))
  {
    hide Lines, Tail, Complete, NonEmpty, Numbered;
    TailEnds(a);
    TailEmpty(a);
    var x := Tail(a);
    var d := a[..|a| - |x|];
    assert d + x == a;
    LinesAppend(d, x);
    FirstLfNone(x);
    NumberedHas(0, Lines(a), |Lines(a)| - 1);
  }

  /** A line cut at its carriage return with anything but its line end to follow is another line in the
      whole file. */
  lemma CutLineDiffers(file: string, p: nat)
    requires p <= |file| && !Harmless(file, p) && p > 0 && IsBreak(file[p - 1])
    ensures var a := file[..p]; var k := |Lines(a)| - 1; k < |Lines(file)| && Lines(file)[k] != Tail(a)
  {
    hide Lines, Tail, FirstLf, Chomp;
    var a, rest := file[..p], file[p..];
    TailEnds(a);
    TailEmpty(a);
    var x := Tail(a);
    var d := a[..|a| - |x|];
    assert d + x == a && d + (x + rest) == file;
    LinesAppend(d, x);
    LinesAppend(d, x + rest);
    FirstLfNone(x);
    assert a[|a| - |x|..][|x| - 1] == a[p - 1] == file[p - 1];
    assert x[|x| - 1] in x;
    hide Complete;
    ContinuedDiffers(x, rest);
  }

  lemma ContinuedDiffers(x: string, rest: string)
    requires '\n' !in x && x != "" && x[|x| - 1] == '\r' && rest != "" && !("\r\n" <= rest)
    ensures Lines(x + rest)[0] != x
  {
    hide Lines, FirstLf, Chomp;
    LinesOver(x, rest);
    ChompedDiffers(x, rest[..FirstLf(rest)]);
  }

  lemma ChompedDiffers(x: string, more: string)
    requires x != "" && x[|x| - 1] == '\r'
    ensures more != "\r" ==> Chomp(x + more) != x
    ensures more != "" ==> x + more != x
  {
    if |more| == 1 && more != "\r" { assert (x + more)[|x|] == more[0]; }
  }

  /** What the watch scanned up to such a cut is no beginning of the one scan. */
  lemma CutShows(file: string, p: nat, more: seq<LogLine>)
    requires p <= |file| && !Harmless(file, p) && p > 0 && IsBreak(file[p - 1])
    ensures NonEmpty(Numbered(0, Lines(file[..p]))) + more != NonEmpty(Numbered(0, Lines(file)))
  {
    hide Lines, Tail, NonEmpty, Numbered, Complete;
    var a := file[..p];
    LastLine(a);
    CutLineDiffers(file, p);
    var x := LogLine(|Lines(a)|, Tail(a));
    assert x in NonEmpty(Numbered(0, Lines(a))) + more;
    NumberedOnly(0, Lines(file), x);
  }

  /** A cut inside the line end scans the line's number twice. */
  lemma CutLineEndShows(file: string, p: nat, more: seq<LogLine>)
    requires p < |file| && !Complete(file[..p])
    ensures var s := NonEmpty(Numbered(0, Lines(file[..p])));
            s + [LogLine(|Lines(file[..p])|, "\r")] + more != NonEmpty(Numbered(0, Lines(file)))
  {
    hide Lines, Tail, NonEmpty, Numbered, Complete;
    var s := NonEmpty(Numbered(0, Lines(file[..p])));
    LastLine(file[..p]);
    NonEmptyAscending(0, Lines(file));
    var n := |Lines(file[..p])|;
    var i :| 0 <= i < |s| && s[i] == LogLine(n, Tail(file[..p]));
    var all := s + [LogLine(n, "\r")] + more;
    assert all[i].number == all[|s|].number;
  }

  lemma PollHarms(w: Watch, before: string, buffer: string, file: string, more: seq<LogLine>)
    requires HasRead(w, before) && Agrees(w, before) && before <= buffer <= file
    requires Harmless(file, AfterLastBreak(before)) && !Harmless(file, AfterLastBreak(buffer))
    ensures NonEmpty(Poll(w, buffer).scanned) + more != NonEmpty(Numbered(0, Lines(file)))
  {
    hide Lines, AfterLastBreak, Numbered, Complete, NonEmpty, Harmless, Poll, HasRead;
    var p, p' := AfterLastBreak(before), AfterLastBreak(buffer);
    PollReads(w, before, buffer);
    LastBreak(buffer);
    assert before[..p] == file[..p] && buffer[..p'] == file[..p'] && buffer[p..p'] == file[p..p'];
    NonEmptyAppend(w.scanned, Numbered(|Lines(before[..p])| - 1, Lines(buffer[p..p'])));
    if Complete(file[..p]) || file[p..p'] != "\r" {
      CutAppend(file, p, p');
      assert p' > 0;
      CutShows(file, p', more);
    } else {
      CutLineEndShows(file, p, more);
      LoneReturn(|Lines(file[..p])| - 1);
    }
  }

  lemma LoneReturn(n: nat)
    ensures NonEmpty(Numbered(n, Lines("\r"))) == [LogLine(n + 1, "\r")]
  {
    FirstLfNone("\r");
    assert ["\r"][1..] == [];
    var x := LogLine(n + 1, "\r");
    assert Numbered(n, ["\r"]) == [x] && [x][1..] == [];
    assert NonEmpty([x]) == Kept(x) + NonEmpty([x][1..]);
  }

  // ---------------------------------------------------------------- whole runs of polls

  lemma {:induction false} AllRead(buffers: seq<string>)
    requires buffers != [] && Growing(buffers)
    ensures HasRead(Polls(buffers), buffers[|buffers| - 1])
  {
    hide HasRead, Poll;
    var front, buffer := buffers[..|buffers| - 1], buffers[|buffers| - 1];
    if front == [] {
      StartRead(buffer);
      PollReads(START, "", buffer);
    } else {
      AllRead(front);
      PollReads(Polls(front), front[|front| - 1], buffer);
    }
  }

  lemma StartRead(file: string)
    ensures HasRead(START, "") && Agrees(START, "") && AfterLastBreak("") == 0 && Harmless(file, 0)
  {
    FirstLfNone("");
    assert ""[0..] == "" && ""[..0] == "" && file[..0] == "";
    EmptyLineLeftOut(0);
  }

  lemma {:induction false} GrowingFront(buffers: seq<string>, i: nat)
    requires Growing(buffers) && i < |buffers|
    ensures buffers[i] <= buffers[|buffers| - 1]
    decreases |buffers| - i
  {
    if i < |buffers| - 1 { GrowingFront(buffers, i + 1); }
  }

  lemma {:induction false} AllAgree(buffers: seq<string>, file: string)
    requires buffers != [] && Growing(buffers) && buffers[|buffers| - 1] <= file && AllHarmless(buffers, file)
    ensures Agrees(Polls(buffers), buffers[|buffers| - 1])
  {
    hide HasRead, Poll, Agrees, Harmless;
    var front, buffer := buffers[..|buffers| - 1], buffers[|buffers| - 1];
    StartRead(file);
    if front == [] {
      PollAgrees(START, "", buffer, file);
    } else {
      AllRead(front);
      AllAgree(front, file);
      PollAgrees(Polls(front), front[|front| - 1], buffer, file);
    }
  }

  /** Polls only add to what was scanned. */
  lemma ScanGrows(buffers: seq<string>, i: nat) returns (more: seq<LogLine>)
    requires Growing(buffers) && 0 < i <= |buffers|
    ensures NonEmpty(Finished(Polls(buffers))) == NonEmpty(Polls(buffers[..i]).scanned) + more
  {
    hide Poll, NonEmpty, Numbered, Lines, HasRead;
    var added := PollsAdd(buffers, i);
    var w := Polls(buffers);
    var last := if w.carry == "" then [] else Numbered(w.baseNumber, Lines(w.carry));
    assert Finished(w) == Polls(buffers[..i]).scanned + (added + last);
    NonEmptyAppend(Polls(buffers[..i]).scanned, added + last);
    more := NonEmpty(added + last);
  }

  lemma {:induction false} PollsAdd(buffers: seq<string>, i: nat) returns (added: seq<LogLine>)
    requires Growing(buffers) && 0 < i <= |buffers|
    ensures Polls(buffers).scanned == Polls(buffers[..i]).scanned + added
  {
    hide Poll, HasRead, Numbered, Lines;
    if i == |buffers| {
      assert buffers[..i] == buffers;
      added := [];
    } else {
      var front, buffer := buffers[..|buffers| - 1], buffers[|buffers| - 1];
      assert front[..i] == buffers[..i];
      var a := PollsAdd(front, i);
      AllRead(front);
      var before := front[|front| - 1];
      PollReads(Polls(front), before, buffer);
      var p, p' := AfterLastBreak(before), AfterLastBreak(buffer);
      var b := if p' == p then [] else Numbered(|Lines(before[..p])| - 1, Lines(buffer[p..p']));
      added := a + b;
      assert Polls(front).scanned + b == Polls(buffers[..i]).scanned + (a + b);
    }
  }

  lemma FirstHarm(buffers: seq<string>, file: string) returns (i: nat)
    requires !AllHarmless(buffers, file) && forall j :: 0 <= j < |buffers| ==> AfterLastBreak(buffers[j]) <= |file|
    ensures i < |buffers| && AllHarmless(buffers[..i], file) && !Harmless(file, AfterLastBreak(buffers[i]))
  {
    hide Harmless;
    i := 0;
    while i < |buffers| && Harmless(file, AfterLastBreak(buffers[i]))
      invariant i <= |buffers| && forall j :: 0 <= j < i ==> Harmless(file, AfterLastBreak(buffers[j]))
    {
      i := i + 1;
    }
  }

  lemma HarmShows(buffers: seq<string>, file: string)
    requires buffers != [] && Growing(buffers) && file == buffers[|buffers| - 1] && !AllHarmless(buffers, file)
    ensures NonEmpty(Finished(Polls(buffers))) != NonEmpty(Numbered(0, Lines(file)))
  {
    hide HasRead, Poll, Agrees, Harmless, NonEmpty, Numbered, Lines, Finished, AllHarmless;
    forall j | 0 <= j < |buffers|
      ensures buffers[j] <= file && AfterLastBreak(buffers[j]) <= |file|
    {
      GrowingFront(buffers, j);
    }
    var i := FirstHarm(buffers, file);
    var front, upTo, buffer := buffers[..i], buffers[..i + 1], buffers[i];
    assert upTo[..i] == front && upTo[i] == buffer;
    var more := ScanGrows(buffers, i + 1);
    StartRead(file);
    if i == 0 {
      PollHarms(START, "", buffer, file, more);
    } else {
      AllRead(front);
      AllAgree(front, file);
      HarmlessLast(front, file);
      PollHarms(Polls(front), front[i - 1], buffer, file, more);
    }
  }

  lemma HarmlessLast(buffers: seq<string>, file: string)
    requires buffers != [] && AllHarmless(buffers, file)
    ensures var p := AfterLastBreak(buffers[|buffers| - 1]); p <= |file| && Harmless(file, p)
  {
  }

  /** For every growing file and whatever the poll instants: the non-empty numbered lines scanned over all
      polls and at the end are those of the file as it was last seen exactly if every cut was harmless. */
  lemma LinesOfWholeFile(buffers: seq<string>)
    requires buffers != [] && Growing(buffers)
    ensures var file := buffers[|buffers| - 1];
            NonEmpty(Finished(Polls(buffers))) == NonEmpty(Numbered(0, Lines(file))) <==> AllHarmless(buffers, file)
  {
    hide HasRead, Agrees, NonEmpty, Numbered, Lines, Finished, AllHarmless, Polls;
    var file := buffers[|buffers| - 1];
    if AllHarmless(buffers, file) {
      AllRead(buffers);
      AllAgree(buffers, file);
      HarmlessLast(buffers, file);
      FinishAgrees(Polls(buffers), file);
    } else {
      HarmShows(buffers, file);
    }
  }

  // ---------------------------------------------------------------- findings

  datatype Finding = Finding(kind: string, pattern: string, severity: string, line: nat, excerpt: string)

  datatype Pattern = Pattern(kind: string, pattern: string, severity: string, test: string -> bool)

  /** The patterns that apply to the log's source, the secret detector, the redaction of excerpts, and the
      expected failures of the case. */
  datatype Rules = Rules(patterns: seq<Pattern>, leaks: string -> bool, redact: string -> string, expected: Finding -> bool)

  /** An empty line matches nothing. */
  ghost predicate QuietOnEmpty(rules: Rules) {
    !rules.leaks("") && forall i :: 0 <= i < |rules.patterns| ==> !rules.patterns[i].test("")
  }

  /** `findingKey`; source and path are the same for all findings of one scan. */
  function Key(f: Finding): (string, string, nat) { (f.kind, f.pattern, f.line) }

  function WithExpectedSeverity(f: Finding, rules: Rules): Finding {
    if f.kind != "secret_leak" && f.severity != "missing_input" && rules.expected(f) then f.(severity := "ignored_expected_issue") else f
  }

  function FindingFor(p: Pattern, line: LogLine, rules: Rules): Finding {
    WithExpectedSeverity(Finding(p.kind, p.pattern, p.severity, line.number, rules.redact(line.text)), rules)
  }

  function Leak(line: LogLine, rules: Rules): Finding {
    Finding("secret_leak", "secret-like value in logs", "fail", line.number, rules.redact(line.text))
  }

  predicate Has(findings: seq<Finding>, f: Finding) { exists i :: 0 <= i < |findings| && Key(findings[i]) == Key(f) }

  /** `addFinding`. */
  function Added(findings: seq<Finding>, f: Finding): seq<Finding> { if Has(findings, f) then findings else findings + [f] }

  /** The findings in one line alone, from its first `n` patterns. */
  function FromPatterns(line: LogLine, rules: Rules, n: nat): seq<Finding>
    requires n <= |rules.patterns|
  {
    if n == 0 then []
    else
      var before := FromPatterns(line, rules, n - 1);
      if rules.patterns[n - 1].test(line.text) then Added(before, FindingFor(rules.patterns[n - 1], line, rules)) else before
  }

  function InLine(line: LogLine, rules: Rules): seq<Finding> {
    var found := FromPatterns(line, rules, |rules.patterns|);
    if rules.leaks(line.text) then Added(found, Leak(line, rules)) else found
  }

  /** The findings of a scan, line by line. */
  function InLines(lines: seq<LogLine>, rules: Rules): seq<Finding> {
    if lines == [] then [] else InLines(lines[..|lines| - 1], rules) + InLine(lines[|lines| - 1], rules)
  }

  lemma {:induction false} InLinesAppend(a: seq<LogLine>, b: seq<LogLine>, rules: Rules)
    ensures InLines(a + b, rules) == InLines(a, rules) + InLines(b, rules)
  {
    if b == [] {
      assert a + b == a;
    } else {
      InLinesAppend(a, b[..|b| - 1], rules);
      assert (a + b)[..|a + b| - 1] == a + b[..|b| - 1];
      hide InLine;
    }
  }

  lemma {:induction false} EmptyLineFindsNothing(line: LogLine, rules: Rules, n: nat)
    requires QuietOnEmpty(rules) && line.text == "" && n <= |rules.patterns|
    ensures FromPatterns(line, rules, n) == []
  {
    if n > 0 { EmptyLineFindsNothing(line, rules, n - 1); }
  }

  /** Only non-empty lines matter. */
  lemma {:induction false} FindingsOfNonEmpty(lines: seq<LogLine>, rules: Rules)
    requires QuietOnEmpty(rules)
    ensures InLines(NonEmpty(lines), rules) == InLines(lines, rules)
  {
    if lines != [] {
      var x := lines[0];
      FindingsOfNonEmpty(lines[1..], rules);
      assert lines == [x] + lines[1..];
      InLinesAppend([x], lines[1..], rules);
      InLinesAppend(Kept(x), NonEmpty(lines[1..]), rules);
      assert [x][..0] == [] && InLines([x], rules) == InLine(x, rules);
      if x.text == "" { EmptyLineFindsNothing(x, rules, |rules.patterns|); }
      hide InLine;
    }
  }

  /** The rules that report every non-empty line as it is. */
  const ECHO := Rules([Pattern("echo", "any line", "warning", (s: string) => s != "")], (s: string) => false, (s: string) => s, (f: Finding) => false)

  function EchoOf(line: LogLine): Finding { Finding("echo", "any line", "warning", line.number, line.text) }

  lemma EchoFinds(line: LogLine)
    ensures InLine(line, ECHO) == if line.text == "" then [] else [EchoOf(line)]
  {
    assert FromPatterns(line, ECHO, 0) == [];
    assert FromPatterns(line, ECHO, 1) == if line.text == "" then [] else [EchoOf(line)];
  }

  /** The echo of a list of non-empty lines determines the list. */
  lemma {:induction false} EchoDetermines(a: seq<LogLine>, b: seq<LogLine>)
    requires InLines(a, ECHO) == InLines(b, ECHO)
    requires forall i :: 0 <= i < |a| ==> a[i].text != ""
    requires forall i :: 0 <= i < |b| ==> b[i].text != ""
    ensures a == b
    decreases |a|
  {
    EchoLength(a);
    EchoLength(b);
    forall i | 0 <= i < |a|
      ensures a[i] == b[i]
    {
      EchoAt(a, i);
      EchoAt(b, i);
    }
  }

  lemma {:induction false} EchoLength(a: seq<LogLine>)
    requires forall i :: 0 <= i < |a| ==> a[i].text != ""
    ensures |InLines(a, ECHO)| == |a|
  {
    hide InLine;
    if a != [] {
      EchoLength(a[..|a| - 1]);
      EchoFinds(a[|a| - 1]);
    }
  }

  lemma {:induction false} EchoAt(a: seq<LogLine>, i: nat)
    requires (forall j :: 0 <= j < |a| ==> a[j].text != "") && i < |a|
    ensures i < |InLines(a, ECHO)| && InLines(a, ECHO)[i] == EchoOf(a[i])
  {
    hide InLine;
    var front := a[..|a| - 1];
    EchoLength(front);
    EchoFinds(a[|a| - 1]);
    if i < |a| - 1 { EchoAt(front, i); }
  }

  lemma {:induction false} NonEmptyTexts(lines: seq<LogLine>)
    ensures forall i :: 0 <= i < |NonEmpty(lines)| ==> NonEmpty(lines)[i].text != ""
  {
    if lines != [] { NonEmptyTexts(lines[1..]); }
  }

  ghost predicate SameFindings(buffers: seq<string>, rules: Rules)
    requires buffers != []
  {
    InLines(Finished(Polls(buffers)), rules) == InLines(Numbered(0, Lines(buffers[|buffers| - 1])), rules)
  }

  lemma HarmlessFindings(buffers: seq<string>, rules: Rules)
    requires buffers != [] && Growing(buffers) && QuietOnEmpty(rules) && AllHarmless(buffers, buffers[|buffers| - 1])
    ensures SameFindings(buffers, rules)
  {
    hide InLines, Finished, Polls, Numbered, Lines, QuietOnEmpty, NonEmpty, Growing, AllHarmless;
    LinesOfWholeFile(buffers);
    FindingsOfNonEmpty(Finished(Polls(buffers)), rules);
    FindingsOfNonEmpty(Numbered(0, Lines(buffers[|buffers| - 1])), rules);
  }

  /** The findings reported over all polls and at the end are those of one scan of the whole file, for
      whatever rules that find nothing in an empty line, exactly if every cut was harmless. */
  lemma FindingsOfWholeFile(buffers: seq<string>)
    requires buffers != [] && Growing(buffers)
    ensures (forall rules :: QuietOnEmpty(rules) ==> SameFindings(buffers, rules)) <==> AllHarmless(buffers, buffers[|buffers| - 1])
  {
    hide InLines, Finished, Polls, Numbered, Lines, NonEmpty, Growing, AllHarmless, SameFindings, QuietOnEmpty;
    if AllHarmless(buffers, buffers[|buffers| - 1]) {
      forall rules | QuietOnEmpty(rules)
        ensures SameFindings(buffers, rules)
      {
        HarmlessFindings(buffers, rules);
      }
    }
    EchoIsQuiet();
    if SameFindings(buffers, ECHO) { EchoShows(buffers); }
  }

  lemma EchoIsQuiet()
    ensures QuietOnEmpty(ECHO)
  {
  }

  lemma EchoShows(buffers: seq<string>)
    requires buffers != [] && Growing(buffers) && SameFindings(buffers, ECHO)
    ensures AllHarmless(buffers, buffers[|buffers| - 1])
  {
    hide InLines, Finished, Polls, Numbered, Lines, NonEmpty, Growing, AllHarmless, QuietOnEmpty;
    var a, b := Finished(Polls(buffers)), Numbered(0, Lines(buffers[|buffers| - 1]));
    EchoIsQuiet();
    FindingsOfNonEmpty(a, ECHO);
    FindingsOfNonEmpty(b, ECHO);
    NonEmptyTexts(a);
    NonEmptyTexts(b);
    EchoDetermines(NonEmpty(a), NonEmpty(b));
    LinesOfWholeFile(buffers);
  }

  // ---------------------------------------------------------------- the code

  class ScanState {
    var findings: seq<Finding>
    var seenFindings: set<(string, string, nat)>

    ghost predicate Valid()
      reads this
    {
      forall k :: k in seenFindings <==> exists i :: 0 <= i < |findings| && Key(findings[i]) == k
    }

    constructor ()
      ensures Valid() && findings == []
    {
      findings, seenFindings := [], {};
    }

    method AddFinding(f: Finding)
      requires Valid()
      modifies this
      ensures Valid() && findings == Added(old(findings), f)
    {
      var key := Key(f);
      if key in seenFindings { return; }
      seenFindings := seenFindings + {key};
      findings := findings + [f];
      assert findings[|findings| - 1] == f;
      assert forall i :: 0 <= i < |findings| - 1 ==> findings[i] == old(findings)[i];
    }

    /** The inner loop of `scanUnexpectedPatterns` and the check for secrets. */
    method ScanLine(line: LogLine, rules: Rules)
      requires Valid() && forall i :: 0 <= i < |findings| ==> findings[i].line < line.number
      modifies this
      ensures Valid() && findings == old(findings) + InLine(line, rules)
    {
      ghost var before := findings;
      assert before + [] == before;
      for i := 0 to |rules.patterns|
        invariant Valid() && findings == before + FromPatterns(line, rules, i)
      {
        hide Valid, Added;
        if rules.patterns[i].test(line.text) {
          var f := FindingFor(rules.patterns[i], line, rules);
          AddedLater(before, FromPatterns(line, rules, i), f);
          AddFinding(f);
        }
      }
      if rules.leaks(line.text) {
        hide Valid, Added;
        AddedLater(before, FromPatterns(line, rules, |rules.patterns|), Leak(line, rules));
        AddFinding(Leak(line, rules));
      }
    }

    method ScanUnexpectedPatterns(lines: seq<LogLine>, rules: Rules)
      requires Valid() && findings == [] && Ascending(lines)
      modifies this
      ensures Valid() && findings == InLines(lines, rules)
    {
      hide Valid, InLine;
      for i := 0 to |lines|
        invariant Valid() && findings == InLines(lines[..i], rules)
      {
        FoundBelow(lines[..i], rules, lines[i].number);
        assert lines[..i + 1][..i] == lines[..i];
        ScanLine(lines[i], rules);
      }
      assert lines[..|lines|] == lines;
    }
  }

  /** A finding of a later line is new whatever earlier lines had. */
  lemma AddedLater(before: seq<Finding>, found: seq<Finding>, f: Finding)
    requires forall i :: 0 <= i < |before| ==> before[i].line < f.line
    ensures Added(before + found, f) == before + Added(found, f)
  {
    var all := before + found;
    if Has(found, f) {
      var i :| 0 <= i < |found| && Key(found[i]) == Key(f);
      assert Key(all[|before| + i]) == Key(f);
    }
    if Has(all, f) {
      var i :| 0 <= i < |all| && Key(all[i]) == Key(f);
      assert all[i] == found[i - |before|];
    }
    assert before + (found + [f]) == before + found + [f];
  }

  lemma {:induction false} FoundInLine(line: LogLine, rules: Rules, n: nat)
    requires n <= |rules.patterns|
    ensures forall i :: 0 <= i < |FromPatterns(line, rules, n)| ==> FromPatterns(line, rules, n)[i].line == line.number
  {
    if n > 0 { FoundInLine(line, rules, n - 1); }
  }

  lemma {:induction false} FoundBelow(lines: seq<LogLine>, rules: Rules, n: nat)
    requires forall i :: 0 <= i < |lines| ==> lines[i].number < n
    ensures forall i :: 0 <= i < |InLines(lines, rules)| ==> InLines(lines, rules)[i].line < n
  {
    if lines != [] {
      FoundBelow(lines[..|lines| - 1], rules, n);
      FoundInLine(lines[|lines| - 1], rules, |rules.patterns|);
    }
  }

  /** `scanLogText` without a window, as far as the unexpected patterns and secrets go. */
  method ScanLogText(text: string, rules: Rules, baseLineNumber: nat) returns (findings: seq<Finding>)
    ensures findings == InLines(Numbered(baseLineNumber, Lines(text)), rules)
  {
    var allLines := Numbered(baseLineNumber, Lines(text));
    NumberedAscending(baseLineNumber, Lines(text));
    var state := new ScanState();
    state.ScanUnexpectedPatterns(allLines, rules);
    findings := state.findings;
  }

  /** The closure variables of `commandLogWatch`. */
  class Watcher {
    const rules: Rules
    var offset: nat
    var baseLineNumber: nat
    var carry: string
    var findings: seq<Finding>
    ghost var scanned: seq<LogLine>

    ghost function Abs(): Watch
      reads this
    {
      Watch(offset, baseLineNumber, carry, scanned)
    }

    ghost predicate Valid()
      reads this
    {
      findings == InLines(scanned, rules)
    }

    /** With `--from-start`. */
    constructor (rules: Rules)
      ensures Valid() && Abs() == START && this.rules == rules
    {
      this.rules, offset, baseLineNumber, carry, findings, scanned := rules, 0, 0, "", [], [];
    }

    method PollFile(buffer: string)
      requires Valid()
      modifies this
      ensures Valid() && Abs() == Poll(old(Abs()), buffer)
    {
      hide InLines, Lines, AfterLastBreak, Numbered;
      if |buffer| < offset {
        offset, baseLineNumber, carry := 0, 0, "";
      }
      if |buffer| == offset { return; }
      var text := carry + buffer[offset..];
      offset := |buffer|;
      var hasCompleteLine := text != "" && text[|text| - 1] == '\n';
      var afterLast := AfterLastBreak(text);
      assert text != "";
      if !hasCompleteLine && afterLast == 0 {
        carry := text;
        return;
      }
      var complete := if hasCompleteLine then text else text[..afterLast];
      carry := if hasCompleteLine then "" else text[afterLast..];
      assert text[..|text|] == text && text[|text|..] == "";
      Scan(complete);
      baseLineNumber := baseLineNumber + |Lines(complete)| - 1;
    }

    method Scan(text: string)
      requires Valid()
      modifies `findings, `scanned
      ensures Valid() && scanned == old(scanned) + Numbered(baseLineNumber, Lines(text))
    {
      var found := ScanLogText(text, rules, baseLineNumber);
      InLinesAppend(scanned, Numbered(baseLineNumber, Lines(text)), rules);
      findings := findings + found;
      scanned := scanned + Numbered(baseLineNumber, Lines(text));
    }

    /** After the last poll. */
    method Finish()
      requires Valid()
      modifies this
      ensures Valid() && scanned == Finished(old(Abs())) && findings == InLines(Finished(old(Abs())), rules)
    {
      if carry != "" { Scan(carry); }
    }
  }

  /** `commandLogWatch --from-start` over what its polls find in the file. */
  method CommandLogWatch(buffers: seq<string>, rules: Rules) returns (findings: seq<Finding>)
    ensures findings == InLines(Finished(Polls(buffers)), rules)
    ensures buffers != [] && Growing(buffers) && QuietOnEmpty(rules) && AllHarmless(buffers, buffers[|buffers| - 1])
            ==> findings == InLines(Numbered(0, Lines(buffers[|buffers| - 1])), rules)
  {
    hide InLines, Finished, Numbered, Lines, Growing, QuietOnEmpty, Poll, AllHarmless;
    var watcher := new Watcher(rules);
    for i := 0 to |buffers|
      invariant fresh(watcher) && watcher.Valid() && watcher.rules == rules
      invariant watcher.Abs() == Polls(buffers[..i])
    {
      assert buffers[..i + 1][..i] == buffers[..i];
      watcher.PollFile(buffers[i]);
    }
    assert buffers[..|buffers|] == buffers;
    watcher.Finish();
    findings := watcher.findings;
    if buffers != [] && Growing(buffers) && QuietOnEmpty(rules) && AllHarmless(buffers, buffers[|buffers| - 1]) {
      HarmlessFindings(buffers, rules);
    }
  }
}

/** Windows argument quoting (LauncherProcessManager.cs) and the rules by which Microsoft's C
    runtime splits a command line into arguments again. */
module CommandLine {
  import opened Common

  // ---------------------------------------------------------------- the quoter

  /** `char.IsWhiteSpace`. */
  predicate IsWhiteSpace(c: char) {
    '\U{0009}' <= c <= '\U{000D}' || c == ' ' || c == '\U{0085}' || c == '\U{00A0}' || c == '\U{1680}'
    || '\U{2000}' <= c <= '\U{200A}' || c == '\U{2028}' || c == '\U{2029}' || c == '\U{202F}'
    || c == '\U{205F}' || c == '\U{3000}'
  }

  predicate NeedsQuotes(s: string) {
    exists i :: 0 <= i < |s| && (IsWhiteSpace(s[i]) || s[i] == '"')
  }

  function Slashes(n: nat): (r: string)
    ensures |r| == n
  {
    if n == 0 then "" else "\\" + Slashes(n - 1)
  }

  lemma {:induction false} SlashesAdd(m: nat, n: nat)
    ensures Slashes(m) + Slashes(n) == Slashes(m + n)
  {
    if m == 0 {
      assert Slashes(0) + Slashes(n) == Slashes(n);
    } else {
      SlashesAdd(m - 1, n);
      assert Slashes(m) + Slashes(n) == "\\" + (Slashes(m - 1) + Slashes(n));
    }
  }

  /** One more backslash may be moved across the run. */
  lemma SlashesShift(n: nat, s: string)
    requires s != "" && s[0] == '\\'
    ensures Slashes(n + 1) + s[1..] == Slashes(n) + s
  {
    SlashesAdd(n, 1);
    assert Slashes(1) == "\\" + Slashes(0) == "\\";
    assert s == "\\" + s[1..];
    assert Slashes(n) + s == Slashes(n) + "\\" + s[1..];
  }

  /** Length of the run of backslashes `s` ends with. */
  function TrailingSlashes(s: string): (n: nat)
    ensures n <= |s|
  {
    if s != "" && s[|s| - 1] == '\\' then TrailingSlashes(s[..|s| - 1]) + 1 else 0
  }

  /** `Regex.Replace(value, "(\\*)\"", ...)`: every run of backslashes before a quote is doubled and
      the quote itself escaped. `pending` counts the backslashes just read. */
  function EscapeQuotes(s: string, pending: nat := 0): string
    decreases |s|
  {
    if s == "" then Slashes(pending)
    else if s[0] == '\\' then EscapeQuotes(s[1..], pending + 1)
    else if s[0] == '"' then Slashes(2 * pending) + "\\\"" + EscapeQuotes(s[1..], 0)
    else Slashes(pending) + [s[0]] + EscapeQuotes(s[1..], 0)
  }

  /** `Regex.Replace(escaped, "(\\+)$", ...)`. In .NET `$` matches at the end and also just before a
      final newline. */
  function DoubleTrailing(s: string): string {
    if s != "" && s[|s| - 1] == '\n' then
      var t := s[..|s| - 1];
      t + Slashes(TrailingSlashes(t)) + "\n"
    else s + Slashes(TrailingSlashes(s))
  }

  function Quote(value: Option<string>): string {
    match value
    case None => "\"\""
    case Some(s) =>
      if s == "" then "\"\""
      else if !NeedsQuotes(s) then s
      else "\"" + DoubleTrailing(EscapeQuotes(s)) + "\""
  }

  function BuildCommandLine(args: seq<Option<string>>): string {
    if args == [] then ""
    else if |args| == 1 then Quote(args[0])
    else Quote(args[0]) + " " + BuildCommandLine(args[1..])
  }

  // ---------------------------------------------------------------- Microsoft's argv rules

  predicate IsBlank(c: char) { c == ' ' || c == '\t' }

  /** Reads one argument; the result is the argument and the text from its delimiter on. */
  function TakeArgument(s: string, inQuotes: bool, pending: nat := 0): (r: (string, string))
    ensures |r.1| <= |s|
    ensures s != "" && (inQuotes || !IsBlank(s[0])) ==> |r.1| < |s|
    decreases |s|
  {
    if s == "" then (Slashes(pending), "")
    else if s[0] == '\\' then TakeArgument(s[1..], inQuotes, pending + 1)
    else if s[0] == '"' then
      if pending % 2 == 1 then
        var r := TakeArgument(s[1..], inQuotes);
        (Slashes(pending / 2) + "\"" + r.0, r.1)
      else if inQuotes && 1 < |s| && s[1] == '"' then
        var r := TakeArgument(s[2..], true);
        (Slashes(pending / 2) + "\"" + r.0, r.1)
      else
        var r := TakeArgument(s[1..], !inQuotes);
        (Slashes(pending / 2) + r.0, r.1)
    else if !inQuotes && IsBlank(s[0]) then (Slashes(pending), s)
    else
      var r := TakeArgument(s[1..], inQuotes);
      (Slashes(pending) + [s[0]] + r.0, r.1)
  }

  function ParseCommandLine(s: string): seq<string>
    decreases |s|
  {
    if s == "" then []
    else if IsBlank(s[0]) then ParseCommandLine(s[1..])
    else
      var r := TakeArgument(s, false);
      [r.0] + ParseCommandLine(r.1)
  }

  // ---------------------------------------------------------------- quoting undone by parsing

  /** The arguments the quoter damages: backslashes right before a final newline. */
  predicate EndsInSlashNewline(s: string) {
    2 <= |s| && s[|s| - 1] == '\n' && s[|s| - 2] == '\\'
  }

  /** What the program reads back: the argument, except that backslashes right before a final newline
      come back doubled. */
  function ReadBack(s: string): string {
    if EndsInSlashNewline(s) then
      var t := s[..|s| - 1];
      t + Slashes(TrailingSlashes(t)) + "\n"
    else s
  }

  /** What stands between the quotes so that it reads back as `Slashes(pending) + s`. */
  function Body(s: string, pending: nat := 0): string
    decreases |s|
  {
    if s == "" then Slashes(2 * pending)
    else if s[0] == '\\' then Body(s[1..], pending + 1)
    else if s[0] == '"' then Slashes(2 * pending) + "\\\"" + Body(s[1..], 0)
    else Slashes(pending) + [s[0]] + Body(s[1..], 0)
  }

  /** A delimiter may follow the closing quote. */
  predicate Delimited(rest: string) { rest == "" || IsBlank(rest[0]) }

  lemma {:induction false} TakeSlashes(k: nat, tail: string, inQuotes: bool, pending: nat)
    ensures TakeArgument(Slashes(k) + tail, inQuotes, pending) == TakeArgument(tail, inQuotes, pending + k)
    decreases k
  {
    if k == 0 {
      assert Slashes(0) + tail == tail;
    } else {
      assert (Slashes(k) + tail)[1..] == Slashes(k - 1) + tail;
      TakeSlashes(k - 1, tail, inQuotes, pending + 1);
    }
  }

  /** After an odd run of backslashes a quote is literal. */
  lemma TakeEscapedQuote(n: nat, tail: string)
    ensures var r := TakeArgument(tail, true);
            TakeArgument("\"" + tail, true, 2 * n + 1) == (Slashes(n) + "\"" + r.0, r.1)
  {
    assert ("\"" + tail)[1..] == tail;
    assert (2 * n + 1) % 2 == 1 && (2 * n + 1) / 2 == n;
  }

  /** Backslashes before any other character stand for themselves. */
  lemma TakePlain(n: nat, c: char, tail: string)
    requires c != '\\' && c != '"'
    ensures var r := TakeArgument(tail, true);
            TakeArgument([c] + tail, true, n) == (Slashes(n) + [c] + r.0, r.1)
  {
    assert ([c] + tail)[1..] == tail;
  }

  /** After an even run a quote before a delimiter ends the argument. */
  lemma TakeClosing(n: nat, rest: string)
    requires Delimited(rest)
    ensures TakeArgument("\"" + rest, true, 2 * n) == (Slashes(n), rest)
  {
    assert ("\"" + rest)[1..] == rest;
    assert (2 * n) % 2 == 0 && (2 * n) / 2 == n;
    assert Slashes(n) + "" == Slashes(n);
  }

  lemma {:induction false} BodyReadsBack(s: string, pending: nat, rest: string)
    requires Delimited(rest)
    ensures TakeArgument(Body(s, pending) + "\"" + rest, true) == (Slashes(pending) + s, rest)
    decreases |s|
  {
    var line := Body(s, pending) + "\"" + rest;
    if s == "" {
      assert line == Slashes(2 * pending) + ("\"" + rest);
      TakeSlashes(2 * pending, "\"" + rest, true, 0);
      TakeClosing(pending, rest);
      assert Slashes(pending) + s == Slashes(pending);
    } else if s[0] == '\\' {
      BodyReadsBack(s[1..], pending + 1, rest);
      SlashesShift(pending, s);
    } else {
      BodyStep(s, pending, rest);
    }
  }

  lemma {:induction false} BodyStep(s: string, pending: nat, rest: string)
    requires Delimited(rest) && s != "" && s[0] != '\\'
    ensures TakeArgument(Body(s, pending) + "\"" + rest, true) == (Slashes(pending) + s, rest)
    decreases |s|, 0
  {
    hide TakeArgument;
    var c, tail := s[0], Body(s[1..], 0) + "\"" + rest;
    BodyReadsBack(s[1..], 0, rest);
    assert Slashes(0) + s[1..] == s[1..];
    assert Slashes(pending) + [c] + s[1..] == Slashes(pending) + s;
    if c == '"' {
      BodyQuote(s[1..], pending, rest);
      TakeSlashes(2 * pending + 1, "\"" + tail, true, 0);
      TakeEscapedQuote(pending, tail);
    } else {
      assert Body(s, pending) + "\"" + rest == Slashes(pending) + ([c] + tail);
      TakeSlashes(pending, [c] + tail, true, 0);
      TakePlain(pending, c, tail);
    }
  }

  lemma BodyQuote(t: string, pending: nat, rest: string)
    ensures Body("\"" + t, pending) + "\"" + rest == Slashes(2 * pending + 1) + ("\"" + (Body(t, 0) + "\"" + rest))
  {
    assert ("\"" + t)[1..] == t;
    SlashesAdd(2 * pending, 1);
    assert Slashes(1) == "\\" + Slashes(0) == "\\";
    assert Body("\"" + t, pending) == Slashes(2 * pending) + "\\" + "\"" + Body(t, 0);
  }

  lemma {:induction false} TrailingSlashesOver(front: string, k: nat)
    ensures TrailingSlashes(front + Slashes(k)) == TrailingSlashes(front) + k
  {
    if k == 0 {
      assert front + Slashes(0) == front;
    } else {
      SlashesAdd(k - 1, 1);
      assert Slashes(1) == "\\" + Slashes(0) == "\\";
      assert front + Slashes(k) == front + Slashes(k - 1) + "\\";
      assert (front + Slashes(k))[..|front| + k - 1] == front + Slashes(k - 1);
      TrailingSlashesOver(front, k - 1);
    }
  }

  /** Front part of a concatenation ending in something other than a backslash does not count. */
  lemma {:induction false} TrailingSlashesLocal(front: string, c: char, back: string)
    requires c != '\\'
    ensures TrailingSlashes(front + [c] + back) == TrailingSlashes(back)
    decreases |back|
  {
    var s := front + [c] + back;
    if back == "" {
      assert s[|s| - 1] == c;
    } else {
      var b := back[..|back| - 1];
      assert s[|s| - 1] == back[|back| - 1];
      assert s[..|s| - 1] == front + [c] + b;
      TrailingSlashesLocal(front, c, b);
    }
  }

  /** A character that is not a backslash survives escaping, after some front part. */
  lemma EscapeStep(s: string, pending: nat) returns (front: string)
    requires s != "" && s[0] != '\\'
    ensures EscapeQuotes(s, pending) == front + [s[0]] + EscapeQuotes(s[1..], 0)
    ensures Body(s, pending) == front + [s[0]] + Body(s[1..], 0)
  {
    front := if s[0] == '"' then Slashes(2 * pending) + "\\" else Slashes(pending);
    if s[0] == '"' {
      assert "\\\"" == "\\" + [s[0]];
    }
  }

  lemma DoubledAfter(front: string, c: char, rest: string)
    requires c != '\\'
    ensures var e := front + [c] + rest;
            e + Slashes(TrailingSlashes(e)) == front + [c] + (rest + Slashes(TrailingSlashes(rest)))
  {
    hide TrailingSlashes;
    TrailingSlashesLocal(front, c, rest);
  }

  /** Doubling the backslashes at the very end of the escaped text gives the body. */
  lemma {:induction false} EscapedBody(s: string, pending: nat)
    ensures var e := EscapeQuotes(s, pending); e + Slashes(TrailingSlashes(e)) == Body(s, pending)
    decreases |s|
  {
    if s == "" {
      TrailingSlashesOver("", pending);
      assert "" + Slashes(pending) == Slashes(pending);
      SlashesAdd(pending, pending);
    } else if s[0] == '\\' {
      EscapedBody(s[1..], pending + 1);
    } else {
      EscapedBody(s[1..], 0);
      var front := EscapeStep(s, pending);
      DoubledAfter(front, s[0], EscapeQuotes(s[1..], 0));
    }
  }

  /** A final newline passes through escaping, so only what precedes it matters. */
  lemma {:induction false} EscapeFinalNewline(s: string, pending: nat)
    ensures EscapeQuotes(s + "\n", pending) == EscapeQuotes(s, pending) + "\n"
    decreases |s|
  {
    if s == "" {
      assert (s + "\n")[1..] == "";
    } else {
      assert (s + "\n")[1..] == s[1..] + "\n";
      EscapeFinalNewline(s[1..], if s[0] == '\\' then pending + 1 else 0);
    }
  }

  /** Escaping does not change how many backslashes the text ends with. */
  lemma {:induction false} EscapeKeepsTrailing(s: string, pending: nat)
    ensures TrailingSlashes(EscapeQuotes(s, pending)) == TrailingSlashes(Slashes(pending) + s)
    decreases |s|
  {
    hide TrailingSlashes;
    if s == "" {
      assert Slashes(pending) + s == Slashes(pending);
    } else {
      var t := s[1..];
      if s[0] == '\\' {
        SlashesShift(pending, s);
        EscapeKeepsTrailing(t, pending + 1);
      } else {
        EscapeKeepsTrailing(t, 0);
        assert Slashes(0) + t == t;
        assert Slashes(pending) + s == Slashes(pending) + [s[0]] + t;
        TrailingSlashesLocal(Slashes(pending), s[0], t);
        var front := EscapeStep(s, pending);
        TrailingSlashesLocal(front, s[0], EscapeQuotes(t, 0));
      }
    }
  }

  lemma {:induction false} BodyOfSlashesNewline(pending: nat, k: nat)
    ensures Body(Slashes(k) + "\n", pending) == Slashes(pending + k) + "\n"
    decreases k
  {
    var line := Slashes(k) + "\n";
    if k == 0 {
      assert line == "\n" && line[1..] == "" && Body("", 0) == "";
    } else {
      assert line[1..] == Slashes(k - 1) + "\n";
      BodyOfSlashesNewline(pending + 1, k - 1);
    }
  }

  /** The body of `s` with `k` more backslashes and a final newline. */
  lemma {:induction false} BodyFinalNewline(s: string, pending: nat, k: nat)
    ensures Body(s + Slashes(k) + "\n", pending) == EscapeQuotes(s, pending) + Slashes(k) + "\n"
    decreases |s|
  {
    hide Slashes;
    var line := s + Slashes(k) + "\n";
    if s == "" {
      assert line == Slashes(k) + "\n";
      BodyOfSlashesNewline(pending, k);
      SlashesAdd(pending, k);
    } else {
      assert line[1..] == s[1..] + Slashes(k) + "\n";
      BodyFinalNewline(s[1..], if s[0] == '\\' then pending + 1 else 0, k);
    }
  }

  lemma {:induction false} EscapeEndsInNewline(s: string, pending: nat)
    ensures var e := EscapeQuotes(s, pending);
            (e != "" && e[|e| - 1] == '\n') == (s != "" && s[|s| - 1] == '\n')
    decreases |s|
  {
    if s == "" {
      SlashesAdd(pending, 0);
      if pending > 0 { SlashesLast(pending); }
    } else if s[0] == '\\' {
      EscapeEndsInNewline(s[1..], pending + 1);
    } else {
      EscapeEndsInNewline(s[1..], 0);
      var front := EscapeStep(s, pending);
      assert |s| == 1 ==> EscapeQuotes(s[1..], 0) == "";
      assert EscapeQuotes(s[1..], 0) == "" ==> |s| == 1 by { EscapeNotShorter(s[1..], 0); }
    }
  }

  lemma {:induction false} EscapeNotShorter(s: string, pending: nat)
    ensures |EscapeQuotes(s, pending)| >= |s| + pending
    decreases |s|
  {
    if s != "" {
      EscapeNotShorter(s[1..], if s[0] == '\\' then pending + 1 else 0);
    }
  }

  lemma {:induction false} SlashesLast(n: nat)
    requires n > 0
    ensures Slashes(n)[n - 1] == '\\'
  {
    if n > 1 { SlashesLast(n - 1); }
  }

  /** What is printed between the quotes is the body of the argument as it will be read back. */
  lemma QuotedInner(s: string)
    ensures DoubleTrailing(EscapeQuotes(s)) == Body(ReadBack(s))
  {
    hide Body, EscapeQuotes, TrailingSlashes, Slashes;
    EscapeEndsInNewline(s, 0);
    if s != "" && s[|s| - 1] == '\n' {
      InnerBeforeNewline(s[..|s| - 1]);
      assert s == s[..|s| - 1] + "\n";
    } else {
      EscapedBody(s, 0);
    }
  }

  lemma InnerBeforeNewline(t: string)
    ensures DoubleTrailing(EscapeQuotes(t + "\n")) == Body(ReadBack(t + "\n"))
  {
    hide Body, EscapeQuotes, TrailingSlashes, Slashes;
    var e, k := EscapeQuotes(t), TrailingSlashes(t);
    EscapeFinalNewline(t, 0);
    EscapeKeepsTrailing(t, 0);
    NoSlashes(t);
    BodyFinalNewline(t, 0, k);
    assert (e + "\n")[..|e|] == e && (t + "\n")[..|t|] == t;
  }

  lemma NoSlashes(t: string)
    ensures Slashes(0) + t == t
    ensures !EndsInSlashNewline(t + "\n") ==> t + Slashes(TrailingSlashes(t)) + "\n" == t + "\n"
  {
    assert Slashes(0) == "";
    if t != "" && t[|t| - 1] == '\\' { assert EndsInSlashNewline(t + "\n"); }
  }

  // ---------------------------------------------------------------- one argument, then the list

  lemma {:induction false} UnquotedFrom(s: string, pending: nat, rest: string)
    requires !NeedsQuotes(s) && Delimited(rest)
    ensures TakeArgument(s + rest, false, pending) == (Slashes(pending) + s, rest)
    decreases |s|
  {
    if s == "" {
      assert s + rest == rest;
      assert Slashes(pending) + s == Slashes(pending);
    } else {
      var t := s[1..];
      assert (s + rest)[1..] == t + rest;
      assert forall i :: 0 <= i < |t| ==> t[i] == s[i + 1];
      if s[0] == '\\' {
        UnquotedFrom(t, pending + 1, rest);
        SlashesShift(pending, s);
      } else {
        UnquotedFrom(t, 0, rest);
        assert Slashes(0) + t == t;
        assert Slashes(pending) + [s[0]] + t == Slashes(pending) + s;
      }
    }
  }

  /** Text between quotes before a delimiter reads back as what it is the body of. */
  lemma QuotedReadsBack(s: string, rest: string)
    requires Delimited(rest)
    ensures TakeArgument("\"" + Body(s) + "\"" + rest, false) == (s, rest)
  {
    hide Body;
    var line := "\"" + Body(s) + "\"" + rest;
    assert line[1..] == Body(s) + "\"" + rest;
    BodyReadsBack(s, 0, rest);
    assert Slashes(0) + (Slashes(0) + s) == s;
  }

  /** A printed argument before a delimiter is read back as `ReadBack` says. */
  lemma QuoteReadsBack(value: Option<string>, rest: string)
    requires Delimited(rest)
    ensures var line := Quote(value) + rest;
            line != "" && !IsBlank(line[0])
            && TakeArgument(line, false) == (ReadBack(value.GetOr("")), rest)
  {
    hide TakeArgument;
    hide EscapeQuotes;
    hide DoubleTrailing;
    var s := value.GetOr("");
    var line := Quote(value) + rest;
    if s == "" {
      assert Body("") == "";
      assert line == "\"" + Body("") + "\"" + rest;
      QuotedReadsBack("", rest);
    } else if NeedsQuotes(s) {
      QuotedInner(s);
      assert line == "\"" + Body(ReadBack(s)) + "\"" + rest;
      QuotedReadsBack(ReadBack(s), rest);
    } else {
      assert line[0] == s[0];
      assert TakeArgument(s + rest, false) == (s, rest) by {
        UnquotedFrom(s, 0, rest);
        assert Slashes(0) + s == s;
      }
    }
  }

  function ReadBackAll(args: seq<Option<string>>): (r: seq<string>)
    ensures |r| == |args| && forall i :: 0 <= i < |r| ==> r[i] == ReadBack(args[i].GetOr(""))
  {
    seq(|args|, i requires 0 <= i < |args| => ReadBack(args[i].GetOr("")))
  }

  lemma {:induction false} CommandLineReadsBack(args: seq<Option<string>>)
    ensures ParseCommandLine(BuildCommandLine(args)) == ReadBackAll(args)
  {
    if |args| == 1 {
      QuoteReadsBack(args[0], "");
      assert Quote(args[0]) + "" == BuildCommandLine(args);
      assert ParseCommandLine("") == [];
    } else if args != [] {
      var rest := " " + BuildCommandLine(args[1..]);
      QuoteReadsBack(args[0], rest);
      assert Quote(args[0]) + rest == BuildCommandLine(args);
      assert rest[1..] == BuildCommandLine(args[1..]);
      CommandLineReadsBack(args[1..]);
      assert ReadBackAll(args) == [ReadBack(args[0].GetOr(""))] + ReadBackAll(args[1..]);
    }
  }

  /** The argument list itself, a null standing for an empty argument. */
  function Values(args: seq<Option<string>>): (r: seq<string>)
    ensures |r| == |args|
  {
    seq(|args|, i requires 0 <= i < |args| => args[i].GetOr(""))
  }

  predicate NoneDamaged(values: seq<string>) {
    forall i :: 0 <= i < |values| ==> !EndsInSlashNewline(values[i])
  }

  /** Building a command line and splitting it by Microsoft's rules gives back the arguments, a null
      as an empty one, if and only if no argument ends in a backslash and a newline. */
  lemma CommandLineRoundTrip(args: seq<Option<string>>)
    ensures ParseCommandLine(BuildCommandLine(args)) == Values(args) <==> NoneDamaged(Values(args))
  {
    hide ParseCommandLine;
    hide BuildCommandLine;
    CommandLineReadsBack(args);
    var all := ReadBackAll(args);
    if NoneDamaged(Values(args)) {
      assert forall i :: 0 <= i < |args| ==> all[i] == Values(args)[i];
    } else {
      var i :| 0 <= i < |args| && EndsInSlashNewline(Values(args)[i]);
      assert all[i] != Values(args)[i];
    }
  }

  /** The smallest damaged argument: backslash, newline is read back with two backslashes. */
  lemma SlashNewlineIsDamaged()
    ensures ParseCommandLine(BuildCommandLine([Some("\\\n")])) == ["\\\\\n"]
  {
    hide ParseCommandLine;
    hide BuildCommandLine;
    CommandLineReadsBack([Some("\\\n")]);
    var t := "\\";
    assert t[..0] == "" && TrailingSlashes(t) == 1;
    assert Slashes(1) == "\\" + Slashes(0) == "\\";
    assert "\\\n"[..1] == t;
    assert ReadBack("\\\n") == t + "\\" + "\n";
    assert t + "\\" + "\n" == "\\\\\n";
    assert ReadBackAll([Some("\\\n")])[0] == "\\\\\n";
  }

  /** An argument is left as it is exactly if it is not empty and has neither white space nor a quote. */
  lemma LeftAsItIs(s: string)
    ensures Quote(Some(s)) == s <==> s != "" && forall i :: 0 <= i < |s| ==> !IsWhiteSpace(s[i]) && s[i] != '"'
  {
    hide IsWhiteSpace;
    if s != "" && NeedsQuotes(s) {
      EscapedNotShorter(s);
      assert |Quote(Some(s))| > |s|;
    }
  }

  lemma EscapedNotShorter(s: string)
    ensures |DoubleTrailing(EscapeQuotes(s))| >= |s|
  {
    EscapeNotShorter(s, 0);
  }

  /** The white space of .NET: five controls, next line, and the separators of Unicode. */
  lemma WhiteSpaceIs(c: char)
    ensures IsWhiteSpace(c)
       <==> c in "\U{0009}\U{000A}\U{000B}\U{000C}\U{000D} \U{0085}\U{00A0}\U{1680}\U{2000}\U{2001}\U{2002}\U{2003}\U{2004}\U{2005}"
              + "\U{2006}\U{2007}\U{2008}\U{2009}\U{200A}\U{2028}\U{2029}\U{202F}\U{205F}\U{3000}"
  {
  }
}

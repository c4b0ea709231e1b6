/** What the parts of the log watch do, in the terms of the log: its lines, its findings, a file that
    shrank, and the window of a scan. */
module LogLaws {
  import opened Common
  import opened LogWatch
  import opened LogWindow

  // ---------------------------------------------------------------- lines

  /** A line ends at a line feed, and a carriage return before it belongs to the line end. */
  lemma LineForms(line: string, rest: string)
    requires '\n' !in line && (line != "" ==> line[|line| - 1] != '\r')
    ensures Lines(line) == [line]
    ensures Lines(line + "\n" + rest) == [line] + Lines(rest) && Lines(line + "\r\n" + rest) == [line] + Lines(rest)
  {
    hide FirstLf, Lines;
    OnlyLine(line);
    LineThen(line, rest);
    LineThen(line + "\r", rest);
    assert line + "\r" + "\n" + rest == line + "\r\n" + rest;
    assert (line + "\r")[..|line|] == line;
  }

  lemma OnlyLine(line: string)
    requires '\n' !in line
    ensures Lines(line) == [line]
  {
    assert FirstLf(line) == |line|;
  }

  lemma LineThen(line: string, rest: string)
    requires '\n' !in line
    ensures Lines(line + "\n" + rest) == [Chomp(line)] + Lines(rest)
  {
    hide FirstLf;
    var text := line + "\n" + rest;
    assert text[|line|] == '\n';
    FirstLfAt(text, |line|);
    assert text[..|line|] == line && text[|line| + 1..] == rest;
  }

  /** Lines are numbered on from the base number. */
  lemma {:induction false} NumberedAt(base: nat, lines: seq<string>, i: nat)
    requires i < |lines|
    ensures |Numbered(base, lines)| == |lines| && Numbered(base, lines)[i] == LogLine(base + i + 1, lines[i])
    decreases |lines|
  {
    if |lines| > 1 { NumberedAt(base + 1, lines[1..], if i > 0 then i - 1 else 0); }
  }

  // ---------------------------------------------------------------- findings

  /** The finding for a pattern: with its kind, name and severity, the number of the line and its redacted
      text; an expected one is ignored, unless an input is missing or it is a leak. */
  ghost predicate FindingOf(f: Finding, p: Pattern, line: LogLine, rules: Rules) {
    f.kind == p.kind && f.pattern == p.pattern && f.line == line.number && f.excerpt == rules.redact(line.text)
    && f.severity == if p.kind != "secret_leak" && p.severity != "missing_input" && rules.expected(f.(severity := p.severity))
                     then "ignored_expected_issue" else p.severity
  }

  lemma FindingForPattern(p: Pattern, line: LogLine, rules: Rules, f: Finding)
    ensures f == FindingFor(p, line, rules) <==> FindingOf(f, p, line, rules)
  {
    var g := Finding(p.kind, p.pattern, p.severity, line.number, rules.redact(line.text));
    if FindingOf(f, p, line, rules) { assert f.(severity := p.severity) == g; }
  }

  /** No pattern before the `i`-th with its kind and name matches the line. */
  ghost predicate FirstOfItsKind(line: LogLine, rules: Rules, i: nat) {
    i < |rules.patterns| && rules.patterns[i].test(line.text)
    && forall j :: 0 <= j < i && rules.patterns[j].test(line.text) ==>
         (rules.patterns[j].kind, rules.patterns[j].pattern) != (rules.patterns[i].kind, rules.patterns[i].pattern)
  }

  lemma {:induction false} FromPatternsExactly(line: LogLine, rules: Rules, n: nat, f: Finding)
    requires n <= |rules.patterns|
    ensures f in FromPatterns(line, rules, n) <==> exists i :: 0 <= i < n && FirstOfItsKind(line, rules, i) && FindingOf(f, rules.patterns[i], line, rules)
  {
    hide FindingFor, FindingOf;
    if n > 0 {
      var before, p := FromPatterns(line, rules, n - 1), rules.patterns[n - 1];
      FromPatternsExactly(line, rules, n - 1, f);
      if p.test(line.text) {
        FindingForPattern(p, line, rules, f);
        NewIfFirst(line, rules, n - 1);
      }
    }
  }

  /** The finding for pattern `i` is new exactly if no earlier one has its kind and name. */
  lemma NewIfFirst(line: LogLine, rules: Rules, i: nat)
    requires i < |rules.patterns| && rules.patterns[i].test(line.text)
    ensures !Has(FromPatterns(line, rules, i), FindingFor(rules.patterns[i], line, rules)) <==> FirstOfItsKind(line, rules, i)
  {
    var found, g := FromPatterns(line, rules, i), FindingFor(rules.patterns[i], line, rules);
    KeysFound(line, rules, i, rules.patterns[i].kind, rules.patterns[i].pattern);
    FoundInLine(line, rules, i);
    if k :| 0 <= k < |found| && Key(found[k]) == Key(g) {
      assert found[k].kind == rules.patterns[i].kind;
    }
  }

  lemma {:induction false} KeysFound(line: LogLine, rules: Rules, n: nat, kind: string, pattern: string)
    requires n <= |rules.patterns|
    ensures (exists k :: 0 <= k < |FromPatterns(line, rules, n)| && FromPatterns(line, rules, n)[k].kind == kind && FromPatterns(line, rules, n)[k].pattern == pattern)
       <==> exists j :: 0 <= j < n && rules.patterns[j].test(line.text) && rules.patterns[j].kind == kind && rules.patterns[j].pattern == pattern
  {
    if n > 0 {
      KeysFound(line, rules, n - 1, kind, pattern);
      var before, after := FromPatterns(line, rules, n - 1), FromPatterns(line, rules, n);
      assert before <= after;
      FoundInLine(line, rules, n - 1);
      var p := rules.patterns[n - 1];
      if p.test(line.text) && p.kind == kind && p.pattern == pattern {
        var g := FindingFor(p, line, rules);
        if Has(before, g) {
          var k :| 0 <= k < |before| && Key(before[k]) == Key(g);
          assert before[k].kind == kind;
        } else {
          assert after[|before|] == g;
        }
      }
    }
  }

  /** All findings of one line: those of the patterns, and last a leak if there is one and no pattern
      reported it under the same name. */
  lemma InLineExactly(line: LogLine, rules: Rules, f: Finding)
    ensures f in InLine(line, rules)
       <==> (exists i :: 0 <= i < |rules.patterns| && FirstOfItsKind(line, rules, i) && FindingOf(f, rules.patterns[i], line, rules))
            || (rules.leaks(line.text)
                && f == Finding("secret_leak", "secret-like value in logs", "fail", line.number, rules.redact(line.text))
                && forall j :: 0 <= j < |rules.patterns| && rules.patterns[j].test(line.text) ==>
                     (rules.patterns[j].kind, rules.patterns[j].pattern) != ("secret_leak", "secret-like value in logs"))
  {
    hide FindingOf, FirstOfItsKind, FromPatterns;
    var n := |rules.patterns|;
    FromPatternsExactly(line, rules, n, f);
    KeysFound(line, rules, n, "secret_leak", "secret-like value in logs");
    FoundInLine(line, rules, n);
    var found, leak := FromPatterns(line, rules, n), Leak(line, rules);
    if Has(found, leak) {
      var k :| 0 <= k < |found| && Key(found[k]) == Key(leak);
      assert found[k].kind == "secret_leak" && found[k].pattern == "secret-like value in logs";
    }
  }

  /** A scan finds, line by line, what is in each line. */
  lemma {:induction false} InLinesExactly(lines: seq<LogLine>, rules: Rules, f: Finding)
    ensures f in InLines(lines, rules) <==> exists line :: line in lines && f in InLine(line, rules)
  {
    hide InLine;
    if lines != [] {
      var front, last := lines[..|lines| - 1], lines[|lines| - 1];
      InLinesExactly(front, rules, f);
      assert lines == front + [last];
      assert f in InLines(lines, rules) <==> f in InLines(front, rules) || f in InLine(last, rules);
    }
  }

  // ---------------------------------------------------------------- a file that shrank

  /** A file shorter than what was read is read from its start, as if the watch began with it. */
  lemma ShrunkFileStartsOver(w: Watch, buffer: string)
    requires |buffer| < w.offset
    ensures var again, anew := Poll(w, buffer), Poll(START, buffer);
            again.scanned == w.scanned + anew.scanned
            && again.offset == anew.offset && again.baseNumber == anew.baseNumber && again.carry == anew.carry
  {
    hide Lines, Numbered, AfterLastBreak;
    assert w.scanned + [] == w.scanned;
    assert "" + buffer[0..] == buffer;
  }

  // ---------------------------------------------------------------- the window

  /** A line is wanted exactly if the nearest timestamp at or above it lies between the limits, both of
      them included. */
  lemma {:induction false} WantedExactly(lines: seq<LogLine>, stamp: string -> Option<int>, scan: Scan, i: nat)
    requires i < |lines|
    ensures Wanted(lines, stamp, scan, i)
       <==> exists k :: 0 <= k <= i && stamp(lines[k].text).Some? && (forall j :: k < j <= i ==> stamp(lines[j].text).None?)
                        && (scan.since.Some? ==> scan.since.value <= stamp(lines[k].text).value)
                        && (scan.until.Some? ==> stamp(lines[k].text).value <= scan.until.value)
  {
    if stamp(lines[i].text).None? && i > 0 {
      WantedExactly(lines, stamp, scan, i - 1);
    }
  }

  /** The limit on the number of lines keeps the last ones. */
  lemma LastKept(lines: seq<LogLine>, n: nat)
    ensures exists front :: lines == front + Last(lines, Some(n)) && |Last(lines, Some(n))| == if |lines| > n then n else |lines|
    ensures Last(lines, None) == lines
  {
    var last := Last(lines, Some(n));
    assert lines == lines[..|lines| - |last|] + last;
  }
}

/** The rules of Microsoft's C runtime that CommandLine parses by, one by one: what runs of plain
    characters, quotes, blanks and backslashes are read as. */
module ArgvRules {
  import opened Common
  import opened CommandLine

  /** Characters that mean nothing special are taken as they are. */
  lemma {:induction false} TakeRun(p: string, rest: string, inQuotes: bool)
    requires forall i :: 0 <= i < |p| ==> p[i] != '\\' && p[i] != '"' && (inQuotes || !IsBlank(p[i]))
    ensures TakeArgument(p + rest, inQuotes) == (p + TakeArgument(rest, inQuotes).0, TakeArgument(rest, inQuotes).1)
  {
    assert Slashes(0) == "";
    if p == "" {
      assert p + rest == rest;
      assert p + TakeArgument(rest, inQuotes).0 == TakeArgument(rest, inQuotes).0;
    } else {
      assert (p + rest)[1..] == p[1..] + rest && (p + rest)[0] == p[0];
      TakeRun(p[1..], rest, inQuotes);
      var r := TakeArgument(p[1..] + rest, inQuotes);
      assert Slashes(0) + [p[0]] + r.0 == [p[0]] + r.0;
      assert TakeArgument(p + rest, inQuotes) == ([p[0]] + r.0, r.1);
      assert [p[0]] + (p[1..] + TakeArgument(rest, inQuotes).0) == p + TakeArgument(rest, inQuotes).0;
    }
  }

  lemma OneArgument(s: string, arg: string, rest: string)
    requires s != "" && !IsBlank(s[0]) && TakeArgument(s, false) == (arg, rest)
    ensures ParseCommandLine(s) == [arg] + ParseCommandLine(rest)
  {
  }

  /** Spaces and tabs separate arguments, and no other character does. */
  lemma BlankSkipped(c: char, s: string)
    ensures c in " \t" ==> ParseCommandLine([c] + s) == ParseCommandLine(s) && TakeArgument([c] + s, false) == ("", [c] + s)
    ensures c !in " \t\"\\" ==> TakeArgument([c] + s, false).0 == [c] + TakeArgument(s, false).0
  {
    assert ([c] + s)[1..] == s && Slashes(0) == "";
    if c !in " \t\"\\" { assert Slashes(0) + [c] + TakeArgument(s, false).0 == [c] + TakeArgument(s, false).0; }
  }

  /** The last word of a line. */
  lemma LastWord(word: string)
    requires word != "" && forall i :: 0 <= i < |word| ==> word[i] != '\\' && word[i] != '"' && !IsBlank(word[i])
    ensures ParseCommandLine(" " + word) == [word]
  {
    assert Slashes(0) == "";
    TakeRun(word, "", false);
    assert word + "" == word;
    OneArgument(word, word, "");
    BlankSkipped(' ', word);
    assert [' '] + word == " " + word;
  }

  /** A quoted part opens with a quote, and closes with one that no other follows. */
  lemma QuotedRun(p: string, rest: string)
    requires (forall i :: 0 <= i < |p| ==> p[i] != '\\' && p[i] != '"') && (rest == "" || IsBlank(rest[0]))
    ensures TakeArgument("\"" + p + "\"" + rest, false) == (p, rest)
  {
    hide TakeArgument;
    QuoteOpens(p + ("\"" + rest));
    TakeRun(p, "\"" + rest, true);
    QuoteCloses(rest);
    assert "\"" + p + "\"" + rest == "\"" + (p + ("\"" + rest)) && p + "" == p;
  }

  lemma QuoteOpens(s: string)
    ensures TakeArgument("\"" + s, false) == TakeArgument(s, true)
  {
    assert ("\"" + s)[1..] == s;
    var r := TakeArgument(s, true);
    assert Slashes(0) == "" && "" + r.0 == r.0;
    assert TakeArgument("\"" + s, false) == (Slashes(0) + r.0, r.1);
  }

  lemma QuoteCloses(rest: string)
    requires rest == "" || IsBlank(rest[0])
    ensures TakeArgument("\"" + rest, true) == ("", rest)
  {
    var s := "\"" + rest;
    assert s[1..] == rest && Slashes(0) == "" && (rest != "" ==> s[1] == rest[0]);
    assert TakeArgument(rest, false) == ("", rest);
    assert TakeArgument(s, true) == (Slashes(0) + "", rest) && Slashes(0) + "" == "";
  }

  /** An example of the rules as Microsoft documents them: `"a b c" d`. */
  lemma BlanksInQuotes()
    ensures ParseCommandLine("\"a b c\" d") == ["a b c", "d"]
  {
    hide TakeArgument, ParseCommandLine;
    assert forall i :: 0 <= i < 5 ==> "a b c"[i] != '\\' && "a b c"[i] != '"';
    QuotedRun("a b c", " d");
    assert "\"" + "a b c" + "\"" + " d" == "\"a b c\" d";
    OneArgument("\"a b c\" d", "a b c", " d");
    LastWord("d");
    assert " " + "d" == " d" && ["a b c"] + ["d"] == ["a b c", "d"];
  }

  /** Backslashes before a quote count half, and an odd one escapes the quote: for every number of them. */
  lemma SlashesBeforeQuote(n: nat, odd: bool, rest: string)
    requires rest == "" || rest[0] != '"'
    ensures TakeArgument(Slashes(2 * n + if odd then 1 else 0) + "\"" + rest, true)
         == (Slashes(n) + (if odd then "\"" else "") + TakeArgument(rest, odd).0, TakeArgument(rest, odd).1)
  {
    var k := 2 * n + if odd then 1 else 0;
    TakeSlashes(k, "\"" + rest, true, 0);
    assert Slashes(k) + ("\"" + rest) == Slashes(k) + "\"" + rest && ("\"" + rest)[1..] == rest;
    assert Slashes(n) + "" == Slashes(n);
  }

  /** Backslashes before anything else stand for themselves. */
  lemma SlashesElsewhere(n: nat, c: char, rest: string, inQuotes: bool)
    requires c != '\\' && c != '"' && (inQuotes || !IsBlank(c))
    ensures TakeArgument(Slashes(n) + [c] + rest, inQuotes)
         == (Slashes(n) + [c] + TakeArgument(rest, inQuotes).0, TakeArgument(rest, inQuotes).1)
  {
    TakeSlashes(n, [c] + rest, inQuotes, 0);
    assert Slashes(n) + ([c] + rest) == Slashes(n) + [c] + rest && ([c] + rest)[1..] == rest;
  }
}

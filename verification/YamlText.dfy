/** What the line parser of YamlLite makes of documents written by hand: each form of line, with white
    space wherever the parser allows it, and each form of value. */
module YamlText {
  import opened Common
  import opened JsText
  import opened YamlLite

  // ---------------------------------------------------------------- values

  /** Quotes of either kind at both ends are taken away, one from each. */
  lemma QuotedValue(pre: string, q: char, inner: string, r: char, post: string)
    requires Blank(pre) && Blank(post) && q in "\"'" && r in "\"'" && OneLine(inner)
    ensures ParseScalarValue(pre + [q] + inner + [r] + post) == Text(inner)
  {
    var t := [q] + inner + [r];
    assert pre + [q] + inner + [r] + post == pre + t + post && "" + t + "" == t;
    assert t[0] == q && t[|t| - 1] == r && t[1..|t| - 1] == inner && t[1..] == inner + [r];
    assert (inner + [r])[..|inner|] == inner;
    QuoteIsNoSpace();
    hide IsSpace, TrimStart, TrimEnd;
    TrimAround(pre, t, post);
    TrimAround("", t, "");
  }

  lemma QuoteIsNoSpace()
    ensures !IsSpace('"') && !IsSpace('\'')
  {
  }

  /** Without a quote at both ends the text itself is the value, and `true` and `false` are flags. */
  lemma PlainValue(pre: string, v: string, post: string)
    requires Blank(pre) && Trimmed(v) && Blank(post) && !(|v| >= 2 && IsQuote(v[0]) && IsQuote(v[|v| - 1]) && OneLine(v[1..|v| - 1]))
    ensures ParseScalarValue(pre + v + post) == if v == "true" then Flag(true) else if v == "false" then Flag(false) else Text(v)
  {
    hide IsSpace, TrimStart, TrimEnd;
    TrimAround(pre, v, post);
  }

  /** In a list one quote is taken away at either end, also where the other end has none. */
  lemma ItemValue(pre: string, a: string, x: string, b: string, post: string)
    requires Blank(pre) && Blank(post) && a in ["", "\"", "'"] && b in ["", "\"", "'"]
    requires x != "" && Trimmed(x) && (a == "" ==> !IsQuote(x[0])) && (b == "" ==> !IsQuote(x[|x| - 1]))
    ensures Unquote(pre + a + x + b + post) == x
  {
    var t := a + x + b;
    assert pre + a + x + b + post == pre + t + post;
    QuoteIsNoSpace();
    assert Trimmed(t) by {
      assert t[0] == if a == "" then x[0] else a[0];
      assert t[|t| - 1] == if b == "" then x[|x| - 1] else b[0];
    }
    hide IsSpace, TrimStart, TrimEnd;
    TrimAround(pre, t, post);
    var cut := if a == "" then t else t[1..];
    assert cut == x + b;
    assert (x + b)[..|x|] == x;
  }

  // ---------------------------------------------------------------- lines

  /** A key is made of ASCII letters, digits and underscores. */
  ghost predicate KeyText(key: string) {
    key != "" && forall i :: 0 <= i < |key| ==> 'a' <= key[i] <= 'z' || 'A' <= key[i] <= 'Z' || '0' <= key[i] <= '9' || key[i] == '_'
  }

  lemma KeyTextIsKey(key: string)
    ensures KeyText(key) <==> IsKey(key)
  {
  }

  /** A blank line and a line whose first character is `#` are skipped. */
  lemma SkippedLine(s: State, pre: string, comment: string, post: string)
    requires Blank(pre) && Blank(post)
    ensures ReadLine(s, pre + "#" + comment + post) == s && ReadLine(s, pre) == s
  {
    var line := pre + "#" + comment + post;
    assert !IsSpace('#');
    hide IsSpace;
    assert line == pre + ("#" + (comment + post));
    var cut := EndCut(line, pre, "#", comment + post);
    assert pre + "" == pre;
    BlankTrims(pre);
    StartAround(pre, "#" + cut);
    var t := "#" + cut;
    TrimTwice(line, pre, t);
  }

  lemma BlankTrims(s: string)
    requires Blank(s)
    ensures TrimEnd(s) == "" && Trim(s) == "" && Trim("") == ""
  {
    hide IsSpace;
    EndAround("", s);
    StartAround(s, "");
    assert "" + s == s && s + "" == s;
  }

  /** The end of a line is trimmed before anything else. */
  lemma {:induction false} EndCut(line: string, pre: string, head: string, rest: string) returns (cut: string)
    requires line == pre + (head + rest) && head != "" && !IsSpace(head[|head| - 1])
    ensures TrimEnd(line) == pre + (head + cut) && (cut != "" ==> !IsSpace(cut[|cut| - 1]))
    decreases |rest|
  {
    hide IsSpace;
    if rest == "" {
      cut := "";
      assert line[|line| - 1] == head[|head| - 1];
      EndAround(line, "");
      assert line + "" == line;
    } else if IsSpace(rest[|rest| - 1]) {
      assert line[..|line| - 1] == pre + (head + rest[..|rest| - 1]);
      cut := EndCut(line[..|line| - 1], pre, head, rest[..|rest| - 1]);
    } else {
      cut := rest;
      assert line[|line| - 1] == rest[|rest| - 1];
    }
  }

  lemma TrimTwice(line: string, pre: string, t: string)
    requires TrimEnd(line) == pre + t && Blank(pre) && t != "" && !IsSpace(t[0])
    ensures Trim(TrimEnd(line)) != "" && Trim(TrimEnd(line))[0] == t[0]
  {
    hide IsSpace;
    StartAround(pre, t);
    EndKeepsFirst(t);
  }

  lemma {:induction false} EndKeepsFirst(t: string)
    requires t != "" && !IsSpace(t[0])
    ensures TrimEnd(t) != "" && TrimEnd(t)[0] == t[0]
  {
    hide IsSpace;
    if |t| > 1 && IsSpace(t[|t| - 1]) { EndKeepsFirst(t[..|t| - 1]); }
  }

  lemma KeyFacts(key: string)
    requires IsKey(key)
    ensures !IsSpace(key[0]) && key[0] != '#' && key[0] != '-' && !IsSpace(':') && !IsWord(':')
  {
    assert IsWord(key[0]);
  }

  /** `key: value`, with any white space around the value. */
  lemma PairOf(key: string, mid: string, value: string)
    requires IsKey(key) && Blank(mid) && (value != "" ==> !IsSpace(value[0]))
    ensures PairIn(key + ":" + mid + value) == if OneLine(value) then Some((key, value)) else None
  {
    var line, rest := key + ":" + mid + value, ":" + mid + value;
    assert line == key + rest;
    assert !IsWord(rest[0]) && forall i :: 0 <= i < |key| ==> IsWord(key[i]);
    KeyPrefix(key, rest);
    hide IsSpace, OneLine;
    assert line[..|key|] == key && line[|key|] == ':' && line[|key| + 1..] == mid + value;
    StartAround(mid, value);
  }

  /** A scalar replaces what its key had, except under `__proto__`, and ends the list. */
  lemma ScalarLine(s: State, key: string, mid: string, value: string, post: string)
    requires KeyText(key) && Blank(mid) && value != "" && Trimmed(value) && OneLine(value) && Blank(post)
    ensures ReadLine(s, key + ":" + mid + value + post)
         == State(if key == "__proto__" then s.fields else s.fields[key := ParseScalarValue(value)], None)
  {
    KeyTextIsKey(key);
    KeyFacts(key);
    hide IsSpace, OneLine, TrimStart, TrimEnd, PairIn, ItemIn, ParseScalarValue, IsWord, IsKey;
    var line := key + ":" + mid + value;
    EndAround(line, post) by { assert line[|line| - 1] == value[|value| - 1]; }
    LineStarts(line);
    PairOf(key, mid, value);
    assert ParseScalarValue(value).Text? || ParseScalarValue(value).Flag? by { NoItems(value); }
  }

  lemma NoItems(value: string)
    ensures !ParseScalarValue(value).Items?
  {
  }

  lemma LineStarts(line: string)
    requires line != "" && !IsSpace(line[0])
    ensures Trim(line) != "" && Trim(line)[0] == line[0]
  {
    hide IsSpace;
    StartAround("", line);
    assert "" + line == line;
    EndKeepsFirst(line);
  }

  /** A key without a value begins a new list under it. */
  lemma HeaderLine(s: State, key: string, post: string)
    requires KeyText(key) && Blank(post)
    ensures ReadLine(s, key + ":" + post) == State(s.fields[key := Items([])], Some(key))
  {
    KeyTextIsKey(key);
    KeyFacts(key);
    hide IsSpace, TrimStart, TrimEnd, PairIn, ItemIn, IsWord, IsKey;
    var line := key + ":";
    EndAround(line, post);
    LineStarts(line);
    PairOf(key, "", "");
    assert key + ":" + "" + "" == line && OneLine("");
  }

  /** A dash with white space around it adds an item to the list that is open, and to nothing otherwise. */
  lemma DashedLine(s: State, pre: string, mid: string, item: string, post: string)
    requires Blank(pre) && Blank(mid) && item != "" && Trimmed(item) && OneLine(item) && Blank(post)
    ensures ReadLine(s, pre + "-" + mid + item + post) ==
            if s.currentList.Some? && s.currentList.value != "" && s.currentList.value in s.fields && s.fields[s.currentList.value].Items?
            then s.(fields := s.fields[s.currentList.value := Items(s.fields[s.currentList.value].items + [Unquote(item)])])
            else s
  {
    var line, t := pre + "-" + mid + item, "-" + mid + item;
    assert !IsSpace('-') && !IsWord('-');
    hide IsSpace, OneLine, TrimStart, TrimEnd, Unquote;
    assert line == pre + t && t[0] == '-' && t[1..] == mid + item;
    EndAround(line, post) by { assert line[|line| - 1] == item[|item| - 1]; }
    StartAround(pre, t);
    EndKeepsFirst(t);
    StartAround(mid, item);
    NoPair(pre, t);
  }

  lemma NoPair(pre: string, t: string)
    requires Blank(pre) && t != "" && t[0] == '-'
    ensures PairIn(pre + t).None?
  {
    assert !IsWord((pre + t)[0]) by {
      if pre != "" { assert IsSpace(pre[0]); }
    }
  }

  /** A line without a colon that does not begin with a dash is ignored. */
  lemma OtherLine(s: State, pre: string, text: string, post: string)
    requires Blank(pre) && Blank(post) && text != "" && Trimmed(text) && text[0] != '-' && ':' !in text
    ensures ReadLine(s, pre + text + post) == s
  {
    var line := pre + text;
    hide IsSpace, OneLine, TrimStart, TrimEnd;
    EndAround(line, post) by { assert line[|line| - 1] == text[|text| - 1]; }
    StartAround(pre, text);
    assert PairIn(line).None? by { NoColon(pre, text); }
  }

  lemma NoColon(pre: string, text: string)
    requires Blank(pre) && ':' !in text
    ensures PairIn(pre + text).None?
  {
    var line := pre + text;
    forall i | 0 <= i < |line|
      ensures line[i] != ':'
    {
      if i < |pre| { assert IsSpace(pre[i]); } else { assert line[i] == text[i - |pre|]; }
    }
  }

  // ---------------------------------------------------------------- what is printed

  /** The escapes of `JSON.stringify`: two characters for quote, backslash and five controls, `\\u00` and two
      lower-case hexadecimal digits for the others, and every other character as it is. */
  lemma JsonEscapes(c: char)
    ensures EscapeChar('"') == "\\\"" && EscapeChar('\\') == "\\\\" && EscapeChar('\U{0008}') == "\\b" && EscapeChar('\U{0009}') == "\\t"
    ensures EscapeChar('\U{000A}') == "\\n" && EscapeChar('\U{000C}') == "\\f" && EscapeChar('\U{000D}') == "\\r"
    ensures EscapeChar('\U{0000}') == "\\u0000" && EscapeChar('\U{000B}') == "\\u000b" && EscapeChar('\U{001F}') == "\\u001f"
    ensures c >= ' ' && c != '"' && c != '\\' ==> EscapeChar(c) == [c]
  {
  }
}

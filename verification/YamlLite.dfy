/** The YAML subset of skills/src/fs.ts: the line parser, the printers, and exactly which documents the
    parser recovers from them. Strings are sequences of Unicode scalar values. */
module YamlLite {
  import opened Common
  import opened JsText
  import LogWatch

  datatype Value = Text(text: string) | Flag(flag: bool) | Items(items: seq<string>)

  // ---------------------------------------------------------------- characters and trimming

  /** The characters `.` does not match. */
  predicate IsTerminator(c: char) { c == '\n' || c == '\r' || c == '\U{2028}' || c == '\U{2029}' }

  predicate IsWord(c: char) { 'A' <= c <= 'Z' || 'a' <= c <= 'z' || '0' <= c <= '9' || c == '_' }

  predicate IsQuote(c: char) { c == '"' || c == '\'' }

  predicate OneLine(s: string) { forall i :: 0 <= i < |s| ==> !IsTerminator(s[i]) }

  // ---------------------------------------------------------------- the parser

  /** `value.trim().replace(/^["']|["']$/g, "")`. */
  function Unquote(value: string): string {
    var t := Trim(value);
    var a := if t != "" && IsQuote(t[0]) then t[1..] else t;
    if a != "" && IsQuote(a[|a| - 1]) then a[..|a| - 1] else a
  }

  predicate Quoted(s: string) { |s| >= 2 && IsQuote(s[0]) && IsQuote(s[|s| - 1]) && OneLine(s[1..|s| - 1]) }

  function ParseScalarValue(value: string): Value {
    var trimmed := Trim(value);
    if Quoted(trimmed) then Text(Unquote(trimmed))
    else if trimmed == "true" then Flag(true)
    else if trimmed == "false" then Flag(false)
    else Text(trimmed)
  }

  function WordPrefix(s: string): (n: nat)
    ensures n <= |s|
  {
    if s != "" && IsWord(s[0]) then 1 + WordPrefix(s[1..]) else 0
  }

  /** `line.match(/^([A-Za-z0-9_]+):\s*(.*)$/)`. */
  function PairIn(line: string): Option<(string, string)> {
    var n := WordPrefix(line);
    if n == 0 || n == |line| || line[n] != ':' then None
    else
      var value := TrimStart(line[n + 1..]);
      if OneLine(value) then Some((line[..n], value)) else None
  }

  /** `line.match(/^\s*-\s*(.*)$/)`. */
  function ItemIn(line: string): Option<string> {
    var t := TrimStart(line);
    if t == "" || t[0] != '-' then None
    else
      var item := TrimStart(t[1..]);
      if OneLine(item) then Some(item) else None
  }

  /** The fields and the key of the list being read. */
  datatype State = State(fields: map<string, Value>, currentList: Option<string>)

  /** `fields[key] = value` on a plain object: a value that is no object cannot become its prototype. */
  function Assigned(fields: map<string, Value>, key: string, value: Value): map<string, Value> {
    if key == "__proto__" && !value.Items? then fields else fields[key := value]
  }

  function WithPair(s: State, key: string, value: string): State {
    if value == "" then State(Assigned(s.fields, key, Items([])), Some(key))
    else State(Assigned(s.fields, key, ParseScalarValue(value)), None)
  }

  function WithItem(s: State, item: string): State {
    if s.currentList.Some? && s.currentList.value != "" && s.currentList.value in s.fields && s.fields[s.currentList.value].Items?
    then s.(fields := s.fields[s.currentList.value := Items(s.fields[s.currentList.value].items + [Unquote(item)])])
    else s
  }

  /** One line of the text. */
  function ReadLine(s: State, rawLine: string): State {
    var line := TrimEnd(rawLine);
    var trimmed := Trim(line);
    if trimmed == "" || trimmed[0] == '#' then s
    else
      match PairIn(line)
      case Some(pair) => WithPair(s, pair.0, pair.1)
      case None => if ItemIn(line).Some? then WithItem(s, ItemIn(line).value) else s
  }

  function ReadLines(s: State, lines: seq<string>): State
    decreases |lines|
  {
    if lines == [] then s else ReadLines(ReadLine(s, lines[0]), lines[1..])
  }

  const EMPTY := State(map[], None)

  method ParseYamlLite(text: string) returns (fields: map<string, Value>)
    ensures fields == ReadLines(EMPTY, LogWatch.Lines(text)).fields
  {
    fields := map[];
    var currentList: Option<string> := None;
    var lines := LogWatch.Lines(text);
    assert lines[0..] == lines;
    for i := 0 to |lines|
      invariant ReadLines(State(fields, currentList), lines[i..]) == ReadLines(EMPTY, lines)
    {
      hide TrimEnd, Trim, PairIn, ItemIn, ParseScalarValue, Unquote;
      ghost var s := State(fields, currentList);
      assert lines[i..][0] == lines[i] && lines[i..][1..] == lines[i + 1..];
      var line := TrimEnd(lines[i]);
      var trimmed := Trim(line);
      if trimmed == "" || trimmed[0] == '#' { continue; }
      var pair := PairIn(line);
      if pair.Some? {
        var (key, value) := pair.value;
        if value == "" {
          fields := Assigned(fields, key, Items([]));
          currentList := Some(key);
        } else {
          fields := Assigned(fields, key, ParseScalarValue(value));
          currentList := None;
        }
        continue;
      }
      var item := ItemIn(line);
      if item.Some? && currentList.Some? && currentList.value != "" {
        var key := currentList.value;
        if key in fields && fields[key].Items? {
          fields := fields[key := Items(fields[key].items + [Unquote(item.value)])];
        }
      }
    }
  }

  // ---------------------------------------------------------------- the printer

  function HexDigit(n: nat): (r: char)
    requires n < 16
    ensures '0' <= r <= '9' || 'a' <= r <= 'f'
  {
    if n < 10 then ('0' as int + n) as char else ('a' as int + n - 10) as char
  }

  /** The form `JSON.stringify` gives a character. */
  function EscapeChar(c: char): (r: string)
    ensures |r| >= 1
  {
    if c == '"' then "\\\""
    else if c == '\\' then "\\\\"
    else if c == '\U{8}' then "\\b"
    else if c == '\t' then "\\t"
    else if c == '\n' then "\\n"
    else if c == '\U{c}' then "\\f"
    else if c == '\r' then "\\r"
    else if c < ' ' then "\\u00" + [HexDigit(c as int / 16 % 16), HexDigit(c as int % 16)]
    else [c]
  }

  predicate NeedsEscape(c: char) { c == '"' || c == '\\' || c < ' ' }

  function Escape(s: string): string { if s == "" then "" else EscapeChar(s[0]) + Escape(s[1..]) }

  function YamlQuote(value: string): string { "\"" + Escape(value) + "\"" }

  /** `values.map(...).join("\n")`. */
  function YamlList(values: seq<string>): string
    decreases |values|
  {
    if values == [] then ""
    else if |values| == 1 then "  - " + YamlQuote(values[0])
    else "  - " + YamlQuote(values[0]) + "\n" + YamlList(values[1..])
  }

  datatype Entry = Scalar(key: string, value: string) | List(key: string, values: seq<string>)

  function PrintEntry(e: Entry): string {
    match e
    case Scalar(key, value) => key + ": " + YamlQuote(value) + "\n"
    case List(key, values) => key + ":\n" + YamlList(values) + "\n"
  }

  function Print(doc: seq<Entry>): string { if doc == [] then "" else PrintEntry(doc[0]) + Print(doc[1..]) }

  // ---------------------------------------------------------------- escaping

  predicate HasSeparator(s: string) { exists i :: 0 <= i < |s| && (s[i] == '\U{2028}' || s[i] == '\U{2029}') }

  /** A value that `JSON.stringify` prints as it is and that `.` matches. */
  predicate Plain(s: string) { !HasSeparator(s) && forall i :: 0 <= i < |s| ==> !NeedsEscape(s[i]) }

  lemma EscapeCharFacts(c: char)
    ensures '\n' !in EscapeChar(c) && '\r' !in EscapeChar(c)
    ensures OneLine(EscapeChar(c)) <==> c != '\U{2028}' && c != '\U{2029}'
    ensures if NeedsEscape(c) then |EscapeChar(c)| > 1 else EscapeChar(c) == [c]
  {
    var r := EscapeChar(c);
    if NeedsEscape(c) {
    } else {
      assert OneLine([c]) <==> !IsTerminator([c][0]);
    }
  }

  lemma {:induction false} EscapeFacts(s: string)
    ensures '\n' !in Escape(s) && '\r' !in Escape(s)
    ensures OneLine(Escape(s)) <==> !HasSeparator(s)
  {
    if s != "" {
      var c, rest := s[0], s[1..];
      EscapeCharFacts(c);
      EscapeFacts(rest);
      OneLineTogether(EscapeChar(c), Escape(rest));
      hide EscapeChar, OneLine, HasSeparator;
    }
  }

  lemma OneLineTogether(a: string, b: string)
    ensures OneLine(a + b) <==> OneLine(a) && OneLine(b)
  {
    hide IsTerminator;
    if OneLine(a + b) {
      forall i | 0 <= i < |a|
        ensures !IsTerminator(a[i])
      {
        assert (a + b)[i] == a[i];
      }
      forall i | 0 <= i < |b|
        ensures !IsTerminator(b[i])
      {
        assert (a + b)[|a| + i] == b[i];
      }
    }
  }

  /** Escaping changes a string exactly if one of its characters needs it. */
  lemma {:induction false} EscapeSame(s: string)
    ensures |Escape(s)| >= |s|
    ensures Escape(s) == s <==> forall i :: 0 <= i < |s| ==> !NeedsEscape(s[i])
    ensures |Escape(s)| == |s| ==> Escape(s) == s
  {
    if s != "" {
      var c, rest := s[0], s[1..];
      EscapeCharFacts(c);
      EscapeSame(rest);
      hide EscapeChar, NeedsEscape;
      assert s == [c] + rest;
      assert (forall i :: 0 <= i < |s| ==> !NeedsEscape(s[i])) <==> !NeedsEscape(c) && forall i :: 0 <= i < |rest| ==> !NeedsEscape(rest[i]) by {
        if !NeedsEscape(c) && forall i :: 0 <= i < |rest| ==> !NeedsEscape(rest[i]) {
          forall i | 0 <= i < |s|
            ensures !NeedsEscape(s[i])
          {
            assert i > 0 ==> s[i] == rest[i - 1];
          }
        }
        if forall i :: 0 <= i < |s| ==> !NeedsEscape(s[i]) {
          forall i | 0 <= i < |rest|
            ensures !NeedsEscape(rest[i])
          {
            assert rest[i] == s[i + 1];
          }
        }
      }
    }
  }

  // ---------------------------------------------------------------- printed lines

  /** A quoted value reads as it stands: no space at its ends, and unquoting takes off its two quotes. */
  lemma QuotedReads(value: string)
    ensures var q := YamlQuote(value);
            q != "" && q[0] == '"' && !IsSpace(q[|q| - 1]) && TrimStart(q) == q && TrimEnd(q) == q && Unquote(q) == Escape(value)
            && '\n' !in q && '\r' !in q && (OneLine(q) <==> !HasSeparator(value))
    ensures !HasSeparator(value) ==> ParseScalarValue(YamlQuote(value)) == Text(Escape(value))
  {
    var q, e := YamlQuote(value), Escape(value);
    EscapeFacts(value);
    hide Escape, HasSeparator;
  }

  /** The text of a line ends where it does, with a line feed after it. */
  lemma LineThen(line: string, rest: string)
    requires '\n' !in line && '\r' !in line
    ensures LogWatch.Lines(line + "\n" + rest) == [line] + LogWatch.Lines(rest)
  {
    var text := line + "\n" + rest;
    assert text[..|line|] == line && text[|line|] == '\n' && text[|line| + 1..] == rest;
    LogWatch.FirstLfAt(text, |line|);
    if line != "" { assert line[|line| - 1] in line; }
  }

  ghost predicate IsKey(key: string) { key != "" && forall i :: 0 <= i < |key| ==> IsWord(key[i]) }

  lemma {:induction false} KeyPrefix(key: string, rest: string)
    requires (forall i :: 0 <= i < |key| ==> IsWord(key[i])) && (rest == "" || !IsWord(rest[0]))
    ensures WordPrefix(key + rest) == |key|
  {
    if key == "" {
      assert key + rest == rest;
    } else {
      assert (key + rest)[1..] == key[1..] + rest && (key + rest)[0] == key[0];
      KeyPrefix(key[1..], rest);
    }
  }

  /** What a printed scalar does to the state. */
  function AfterScalar(s: State, key: string, value: string): State {
    if HasSeparator(value) then s else State(Assigned(s.fields, key, Text(Escape(value))), None)
  }

  lemma ScalarLineReads(s: State, key: string, value: string)
    requires IsKey(key)
    ensures ReadLine(s, key + ": " + YamlQuote(value)) == AfterScalar(s, key, value)
  {
    hide TrimStart, TrimEnd, Unquote, OneLine, HasSeparator, YamlQuote, Escape, PairIn, ItemIn, ParseScalarValue, IsWord, IsSpace;
    var q := YamlQuote(value);
    var line := key + ": " + q;
    QuotedReads(value);
    TrimmedLine(line, q);
    KeyStarts(key, ": " + q, line);
    PairLine(key, q, line);
  }

  /** A line that starts with a key is no comment, no blank line and no list item. */
  lemma KeyStarts(key: string, rest: string, line: string)
    requires IsKey(key) && line == key + rest
    ensures TrimStart(line) == line && ItemIn(line).None? && line[0] != '#'
  {
    assert line[0] == key[0];
    hide IsSpace;
  }

  lemma {:induction false} PairLine(key: string, q: string, line: string)
    requires IsKey(key) && line == key + ": " + q && TrimStart(q) == q
    ensures PairIn(line) == if OneLine(q) then Some((key, q)) else None
  {
    assert line == key + (": " + q);
    KeyPrefix(key, ": " + q);
    assert line[..|key|] == key && line[|key| + 1..] == " " + q;
    assert TrimStart(" " + q) == q by {
      assert (" " + q)[1..] == q && (" " + q)[0] == ' ' && IsSpace(' ');
      hide IsSpace;
    }
    hide TrimStart, OneLine, WordPrefix;
  }

  lemma TrimmedLine(line: string, end: string)
    requires |end| <= |line| && line[|line| - |end|..] == end && end != "" && !IsSpace(end[|end| - 1])
    ensures TrimEnd(line) == line
  {
    assert line[|line| - 1] == end[|end| - 1];
  }

  lemma HeaderLineReads(s: State, key: string)
    requires IsKey(key)
    ensures ReadLine(s, key + ":") == State(s.fields[key := Items([])], Some(key))
  {
    hide TrimStart, TrimEnd, ItemIn, ParseScalarValue, IsWord, IsSpace, PairIn;
    var line := key + ":";
    assert !IsSpace(':') by { ColonIsNoSpace(); }
    TrimmedLine(line, ":");
    KeyStarts(key, ":", line);
    HeaderPair(key, line);
  }

  lemma ColonIsNoSpace()
    ensures !IsSpace(':')
  {
  }

  lemma HeaderPair(key: string, line: string)
    requires IsKey(key) && line == key + ":"
    ensures PairIn(line) == Some((key, ""))
  {
    KeyPrefix(key, ":");
    assert line[..|key|] == key && line[|key| + 1..] == "";
    hide WordPrefix;
  }

  /** What a printed item does to the items of the list being read. */
  function ItemOf(value: string): seq<string> { if HasSeparator(value) then [] else [Escape(value)] }

  /** While the list `key` is read. */
  function ListState(fields: map<string, Value>, key: string, items: seq<string>): State {
    State(fields[key := Items(items)], Some(key))
  }

  lemma ItemLineReads(fields: map<string, Value>, key: string, items: seq<string>, value: string)
    requires key != ""
    ensures ReadLine(ListState(fields, key, items), "  - " + YamlQuote(value)) == ListState(fields, key, items + ItemOf(value))
  {
    hide TrimStart, TrimEnd, Unquote, OneLine, HasSeparator, YamlQuote, Escape, PairIn, ItemIn, ParseScalarValue, IsWord, IsSpace;
    var q := YamlQuote(value);
    var line := "  - " + q;
    QuotedReads(value);
    TrimmedLine(line, q);
    DashLine(q, line);
    assert items + [] == items;
    assert fields[key := Items(items)][key := Items(items + ItemOf(value))] == fields[key := Items(items + ItemOf(value))];
  }

  lemma {:induction false} DashLine(q: string, line: string)
    requires line == "  - " + q && q != "" && TrimStart(q) == q && TrimEnd(q) == q && !IsSpace(q[|q| - 1])
    ensures PairIn(line).None? && ItemIn(line) == (if OneLine(q) then Some(q) else None)
    ensures Trim(line) != "" && Trim(line)[0] == '-'
  {
    var dash := "- " + q;
    assert line[0] == ' ' && line[1..][0] == ' ' && line[1..][1..] == dash;
    assert IsSpace(' ') && !IsSpace('-');
    assert TrimStart(line) == TrimStart(line[1..]) == TrimStart(dash) == dash;
    assert dash[1..] == " " + q && (" " + q)[1..] == q;
    assert TrimStart(" " + q) == TrimStart(q) == q;
    hide TrimStart, OneLine;
    TrimmedLine(dash, q);
    assert WordPrefix(line) == 0;
  }

  lemma BlankLineReads(s: State)
    ensures ReadLine(s, "") == s
  {
  }

  /** The items read back from a printed list. */
  function ItemsOf(values: seq<string>): seq<string>
    decreases |values|
  {
    if values == [] then [] else ItemOf(values[0]) + ItemsOf(values[1..])
  }

  lemma {:induction false} ListReads(fields: map<string, Value>, key: string, items: seq<string>, values: seq<string>, rest: string)
    requires key != ""
    ensures ReadLines(ListState(fields, key, items), LogWatch.Lines(YamlList(values) + "\n" + rest)) ==
            ReadLines(ListState(fields, key, items + ItemsOf(values)), LogWatch.Lines(rest))
    decreases |values|
  {
    hide ReadLine, YamlQuote, HasSeparator, Escape, LogWatch.Lines, ListState, ItemOf, ReadLines;
    if values == [] {
      LineThen("", rest);
      BlankLineReads(ListState(fields, key, items));
      assert items + [] == items;
      FirstRead(ListState(fields, key, items), "", LogWatch.Lines(rest));
    } else {
      var line := "  - " + YamlQuote(values[0]);
      QuotedReads(values[0]);
      ItemLineReads(fields, key, items, values[0]);
      var items' := items + ItemOf(values[0]);
      if |values| == 1 {
        LineThen(line, rest);
        FirstRead(ListState(fields, key, items), line, LogWatch.Lines(rest));
        assert values[1..] == [] && ItemsOf(values) == ItemOf(values[0]);
      } else {
        var tail := YamlList(values[1..]) + "\n" + rest;
        assert YamlList(values) + "\n" + rest == line + "\n" + tail;
        LineThen(line, tail);
        FirstRead(ListState(fields, key, items), line, LogWatch.Lines(tail));
        ListReads(fields, key, items', values[1..], rest);
        assert items' + ItemsOf(values[1..]) == items + ItemsOf(values);
      }
    }
  }

  lemma FirstRead(s: State, line: string, rest: seq<string>)
    ensures ReadLines(s, [line] + rest) == ReadLines(ReadLine(s, line), rest)
  {
    hide ReadLine;
    assert ([line] + rest)[1..] == rest;
  }

  // ---------------------------------------------------------------- printed documents

  function AfterEntry(s: State, e: Entry): State {
    match e
    case Scalar(key, value) => AfterScalar(s, key, value)
    case List(key, values) => State(s.fields[key := Items(ItemsOf(values))], Some(key))
  }

  function AfterDoc(s: State, doc: seq<Entry>): State
    decreases |doc|
  {
    if doc == [] then s else AfterDoc(AfterEntry(s, doc[0]), doc[1..])
  }

  lemma EntryReads(s: State, e: Entry, rest: string)
    requires IsKey(e.key)
    ensures ReadLines(s, LogWatch.Lines(PrintEntry(e) + rest)) == ReadLines(AfterEntry(s, e), LogWatch.Lines(rest))
  {
    hide ReadLine, YamlQuote, HasSeparator, Escape, LogWatch.Lines, ItemsOf, YamlList, AfterScalar;
    match e
    case Scalar(key, value) =>
      var line := key + ": " + YamlQuote(value);
      QuotedReads(value);
      assert PrintEntry(e) + rest == line + "\n" + rest;
      LineThen(line, rest);
      FirstRead(s, line, LogWatch.Lines(rest));
      ScalarLineReads(s, key, value);
    case List(key, values) =>
      var line := key + ":";
      var tail := YamlList(values) + "\n" + rest;
      assert PrintEntry(e) + rest == line + "\n" + tail;
      LineThen(line, tail);
      FirstRead(s, line, LogWatch.Lines(tail));
      HeaderLineReads(s, key);
      ListReads(s.fields, key, [], values, rest);
      assert [] + ItemsOf(values) == ItemsOf(values);
  }

  ghost predicate KeysOk(doc: seq<Entry>) { forall i :: 0 <= i < |doc| ==> IsKey(doc[i].key) }

  lemma {:induction false} DocReads(s: State, doc: seq<Entry>)
    requires KeysOk(doc)
    ensures ReadLines(s, LogWatch.Lines(Print(doc))) == AfterDoc(s, doc)
    decreases |doc|
  {
    hide ReadLine, PrintEntry, AfterEntry, IsKey;
    if doc == [] {
      LogWatch.FirstLfNone("");
      BlankLineReads(s);
      FirstRead(s, "", []);
      assert [""] + [] == [""];
    } else {
      var e, rest := doc[0], doc[1..];
      assert KeysOk(rest);
      EntryReads(s, e, Print(rest));
      DocReads(AfterEntry(s, e), rest);
    }
  }

  // ---------------------------------------------------------------- what is recovered

  /** What the parser has under the key of an entry, if no other entry has that key. */
  function Recovered(e: Entry): Option<Value> {
    match e
    case Scalar(key, value) => if HasSeparator(value) || key == "__proto__" then None else Some(Text(Escape(value)))
    case List(_, values) => Some(Items(ItemsOf(values)))
  }

  function Meant(e: Entry): Value {
    match e
    case Scalar(_, value) => Text(value)
    case List(_, values) => Items(values)
  }

  ghost predicate Distinct(doc: seq<Entry>) { forall i, j :: 0 <= i < j < |doc| ==> doc[i].key != doc[j].key }

  ghost predicate KeyOf(doc: seq<Entry>, key: string) { exists i :: 0 <= i < |doc| && doc[i].key == key }

  function Lookup(fields: map<string, Value>, key: string): Option<Value> { if key in fields then Some(fields[key]) else None }

  /** Other entries do not matter for a key. */
  lemma {:induction false} KeptByOthers(s: State, doc: seq<Entry>, key: string)
    requires !KeyOf(doc, key)
    ensures Lookup(AfterDoc(s, doc).fields, key) == Lookup(s.fields, key)
    decreases |doc|
  {
    hide Escape, ItemsOf, HasSeparator;
    if doc != [] {
      assert doc[0].key != key;
      hide KeyOf;
      KeptByOthers(AfterEntry(s, doc[0]), doc[1..], key);
    }
  }

  lemma EntryRecovered(s: State, e: Entry)
    requires e.key !in s.fields
    ensures Lookup(AfterEntry(s, e).fields, e.key) == Recovered(e)
    ensures AfterEntry(s, e).fields.Keys <= s.fields.Keys + {e.key}
  {
    hide Escape, ItemsOf, HasSeparator;
  }

  ghost predicate NewKeys(s: State, doc: seq<Entry>) { forall i :: 0 <= i < |doc| ==> doc[i].key !in s.fields }

  lemma {:induction false} DocRecovered(s: State, doc: seq<Entry>, i: nat)
    requires Distinct(doc) && i < |doc| && NewKeys(s, doc)
    ensures Lookup(AfterDoc(s, doc).fields, doc[i].key) == Recovered(doc[i])
    decreases |doc|
  {
    hide Recovered, AfterEntry, Lookup;
    var e, rest := doc[0], doc[1..];
    EntryRecovered(s, e);
    var s' := AfterEntry(s, e);
    if i == 0 {
      assert !KeyOf(rest, e.key);
      KeptByOthers(s', rest, e.key);
    } else {
      assert NewKeys(s', rest) && Distinct(rest) && rest[i - 1] == doc[i];
      DocRecovered(s', rest, i - 1);
    }
  }

  /** The entry comes back as it was meant exactly if its values are plain and it is no scalar under
      `__proto__`. */
  ghost predicate Faithful(e: Entry) {
    match e
    case Scalar(key, value) => Plain(value) && key != "__proto__"
    case List(_, values) => forall i :: 0 <= i < |values| ==> Plain(values[i])
  }

  lemma {:induction false} ItemsShorter(values: seq<string>)
    ensures |ItemsOf(values)| <= |values|
    decreases |values|
  {
    if values != [] { ItemsShorter(values[1..]); }
  }

  lemma {:induction false} ItemsRecovered(values: seq<string>)
    ensures ItemsOf(values) == values <==> forall i :: 0 <= i < |values| ==> Plain(values[i])
    decreases |values|
  {
    hide Escape, HasSeparator;
    if values != [] {
      var v, rest := values[0], values[1..];
      ItemsRecovered(rest);
      ItemsShorter(rest);
      EscapeSame(v);
      assert values == [v] + rest;
      assert ItemsOf(values) == ItemOf(v) + ItemsOf(rest);
      if ItemsOf(values) == values {
        assert |ItemOf(v)| == 1 && ItemsOf(values)[0] == v && ItemsOf(values)[1..] == rest;
      }
      hide Plain;
    }
  }

  lemma RecoveredIsMeant(e: Entry)
    ensures Recovered(e) == Some(Meant(e)) <==> Faithful(e)
  {
    hide Escape, HasSeparator, ItemsOf, NeedsEscape;
    match e
    case Scalar(_, value) => EscapeSame(value);
    case List(_, values) => ItemsRecovered(values);
  }

  /** What the parser makes of a printed document with distinct keys, for every document: each key has
      what `Recovered` says, and there are no other keys. */
  lemma PrintedDocumentReads(doc: seq<Entry>, i: nat, other: string)
    requires KeysOk(doc) && Distinct(doc)
    ensures var fields := ReadLines(EMPTY, LogWatch.Lines(Print(doc))).fields;
            (i < |doc| ==> Lookup(fields, doc[i].key) == Recovered(doc[i])) && (!KeyOf(doc, other) ==> other !in fields)
  {
    hide LogWatch.Lines, Print, ReadLines, Recovered, AfterDoc, KeyOf;
    DocReads(EMPTY, doc);
    if i < |doc| { DocRecovered(EMPTY, doc, i); }
    if !KeyOf(doc, other) { KeptByOthers(EMPTY, doc, other); }
  }

  ghost predicate RoundTrips(doc: seq<Entry>) {
    forall i :: 0 <= i < |doc| ==> Lookup(ReadLines(EMPTY, LogWatch.Lines(Print(doc))).fields, doc[i].key) == Some(Meant(doc[i]))
  }

  /** Parsing undoes printing exactly for the documents whose values need no JSON escape and hold no
      Unicode line separator, and that have no scalar under `__proto__`. */
  lemma PrintThenParse(doc: seq<Entry>)
    requires KeysOk(doc) && Distinct(doc)
    ensures RoundTrips(doc) <==> forall i :: 0 <= i < |doc| ==> Faithful(doc[i])
  {
    hide LogWatch.Lines, Print, ReadLines, Recovered, Faithful, Lookup, Meant, KeysOk, Distinct, KeyOf;
    forall i | 0 <= i < |doc|
      ensures Lookup(ReadLines(EMPTY, LogWatch.Lines(Print(doc))).fields, doc[i].key) == Some(Meant(doc[i])) <==> Faithful(doc[i])
    {
      PrintedDocumentReads(doc, i, "");
      RecoveredIsMeant(doc[i]);
    }
  }
}

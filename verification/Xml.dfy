/** The part of XML that WeCom messages use: elements without attributes, character data without
    references, and CDATA sections. A printer and the reader that undoes it; the reader takes the text
    apart from the left, one node at a time, and fails where an element is not closed or a name is
    missing. */
module Xml {
  import opened Common

  datatype Node = Element(tag: string, children: seq<Node>) | Text(text: string) | CData(text: string)

  // ---------------------------------------------------------------- printing

  function Print(x: Node): string
    decreases x
  {
    match x
    case Element(tag, children) => "<" + tag + ">" + PrintAll(children) + "</" + tag + ">"
    case Text(text) => text
    case CData(text) => "<![CDATA[" + text + "]]>"
  }

  function PrintAll(xs: seq<Node>): string
    decreases xs
  {
    if xs == [] then "" else Print(xs[0]) + PrintAll(xs[1..])
  }

  // ---------------------------------------------------------------- reading

  predicate IsXmlChar(c: char) {
    c == '\t' || c == '\n' || ' ' <= c <= '\U{D7FF}' || '\U{E000}' <= c <= '\U{FFFD}' || '\U{10000}' <= c
  }

  predicate AllXmlChars(s: string) { forall i :: 0 <= i < |s| ==> IsXmlChar(s[i]) }

  predicate IsNameChar(c: char) { 'A' <= c <= 'Z' || 'a' <= c <= 'z' || c == '_' }

  function NameLength(s: string): (n: nat)
    ensures n <= |s| && (n < |s| ==> !IsNameChar(s[n]))
    ensures forall i :: 0 <= i < n ==> IsNameChar(s[i])
  {
    if s != "" && IsNameChar(s[0]) then 1 + NameLength(s[1..]) else 0
  }

  /** Position of the first `]]>`, or the length when there is none. */
  function SectionEnd(s: string): (n: nat)
    ensures n <= |s| && (n < |s| ==> "]]>" <= s[n..])
    ensures forall i :: 0 <= i < n ==> !("]]>" <= s[i..])
  {
    if s == "" || "]]>" <= s then 0
    else
      var n := 1 + SectionEnd(s[1..]);
      assert forall i :: 1 <= i <= |s| ==> s[i..] == s[1..][i - 1..];
      n
  }

  function TextLength(s: string): (n: nat)
    ensures n <= |s| && (n < |s| ==> s[n] == '<')
    ensures forall i :: 0 <= i < n ==> s[i] != '<'
  {
    if s == "" || s[0] == '<' then 0 else 1 + TextLength(s[1..])
  }

  /** Character data that stands for itself: no reference, no `]]>`. */
  predicate PlainText(s: string) {
    AllXmlChars(s) && (forall i :: 0 <= i < |s| ==> s[i] != '<' && s[i] != '&') && SectionEnd(s) == |s|
  }

  predicate PlainSection(s: string) { AllXmlChars(s) && SectionEnd(s) == |s| }

  type Read<T> = Option<(T, string)>

  function ReadElement(s: string): (r: Read<Node>)
    ensures r.Some? ==> |r.value.1| < |s|
    decreases |s|, 0, 0
  {
    if s == "" || s[0] != '<' then None
    else
      var n := NameLength(s[1..]);
      if n == 0 || n + 1 >= |s| || s[n + 1] != '>' then None
      else
        match ReadContent(s[n + 2..])
        case None => None
        case Some((children, rest)) =>
          var tag := s[1..n + 1];
          var close := "</" + tag + ">";
          if close <= rest then Some((Element(tag, children), rest[|close|..])) else None
  }

  function ReadContent(s: string): (r: Read<seq<Node>>)
    ensures r.Some? ==> |r.value.1| <= |s|
    decreases |s|, 1
  {
    if s == "" then None
    else if "</" <= s then Some(([], s))
    else
      match ReadNode(s)
      case None => None
      case Some((x, rest)) =>
        match ReadContent(rest)
        case None => None
        case Some((xs, rest')) => Some(([x] + xs, rest'))
  }

  function ReadNode(s: string): (r: Read<Node>)
    requires s != ""
    ensures r.Some? ==> |r.value.1| < |s|
    decreases |s|, 0, 1
  {
    if s[0] == '<' then if "<![CDATA[" <= s then ReadSection(s) else ReadElement(s)
    else
      var n := TextLength(s);
      if PlainText(s[..n]) then Some((Text(s[..n]), s[n..])) else None
  }

  function ReadSection(s: string): (r: Read<Node>)
    requires "<![CDATA[" <= s
    ensures r.Some? ==> |r.value.1| < |s|
  {
    var body := s[9..];
    var n := SectionEnd(body);
    if n < |body| && AllXmlChars(body[..n]) then Some((CData(body[..n]), body[n + 3..])) else None
  }

  predicate IsBlank(s: string) { forall i :: 0 <= i < |s| ==> s[i] in " \t\n\r" }

  function ReadDocument(s: string): Option<Node> {
    match ReadElement(s)
    case None => None
    case Some((x, rest)) => if IsBlank(rest) then Some(x) else None
  }

  // ---------------------------------------------------------------- reading undoes printing

  predicate IsName(s: string) { s != "" && forall i :: 0 <= i < |s| ==> IsNameChar(s[i]) }

  predicate Clean(x: Node)
    decreases x
  {
    match x
    case Element(tag, children) => IsName(tag) && AllClean(children)
    case Text(text) => text != "" && PlainText(text)
    case CData(text) => PlainSection(text)
  }

  /** Neighbouring texts would be read as one. */
  predicate AllClean(xs: seq<Node>)
    decreases xs
  {
    xs == [] || (Clean(xs[0]) && AllClean(xs[1..]) && !(xs[0].Text? && |xs| > 1 && xs[1].Text?))
  }

  lemma NameLengthOf(name: string, rest: string)
    requires (forall i :: 0 <= i < |name| ==> IsNameChar(name[i])) && (rest != "" ==> !IsNameChar(rest[0]))
    ensures NameLength(name + rest) == |name|
  {
    hide NameLength;
    var s := name + rest;
    assert forall i :: 0 <= i < |name| ==> s[i] == name[i];
    assert rest != "" ==> s[|name|] == rest[0];
  }

  lemma TextLengthOf(text: string, rest: string)
    requires (forall i :: 0 <= i < |text| ==> text[i] != '<') && (rest != "" ==> rest[0] == '<')
    ensures TextLength(text + rest) == |text|
  {
    hide TextLength;
    var s := text + rest;
    assert forall i :: 0 <= i < |text| ==> s[i] == text[i];
    assert rest != "" ==> s[|text|] == rest[0];
  }

  /** A `]]>` that begins inside the text lies inside it. */
  lemma SectionInside(text: string, rest: string, i: nat)
    requires i < |text| && "]]>" <= (text + ("]]>" + rest))[i..]
    ensures "]]>" <= text[i..]
  {
    var s := text + ("]]>" + rest);
    assert s[i..][0] == s[i] && s[i..][1] == s[i + 1] && s[i..][2] == s[i + 2];
    assert i + 2 < |text|;
    assert text[i..][0] == s[i] && text[i..][1] == s[i + 1] && text[i..][2] == s[i + 2];
  }

  lemma SectionEndOf(text: string, rest: string)
    requires SectionEnd(text) == |text|
    ensures SectionEnd(text + ("]]>" + rest)) == |text|
  {
    hide SectionEnd;
    var s := text + ("]]>" + rest);
    assert s[|text|..] == "]]>" + rest;
    forall i | 0 <= i < |text| ensures "]]>" <= s[i..] ==> "]]>" <= text[i..] {
      if "]]>" <= s[i..] { SectionInside(text, rest, i); }
    }
  }

  lemma SectionReadsBack(text: string, rest: string)
    requires PlainSection(text)
    ensures var s := Print(CData(text)) + rest;
            s != "" && !("</" <= s) && ReadNode(s) == Some((CData(text), rest))
  {
    hide ReadElement, SectionEnd;
    var s := Print(CData(text)) + rest;
    var body := text + ("]]>" + rest);
    assert s == "<![CDATA[" + body && s[9..] == body;
    SectionEndOf(text, rest);
    assert body[..|text|] == text && body[|text| + 3..] == rest;
    assert ReadSection(s) == Some((CData(text), rest));
    assert s[1] == '!';
  }

  lemma TextReadsBack(text: string, rest: string)
    requires text != "" && PlainText(text) && rest != "" && rest[0] == '<'
    ensures var s := text + rest; s != "" && !("</" <= s) && ReadNode(s) == Some((Text(text), rest))
  {
    hide PlainText, TextLength, ReadElement, ReadSection;
    var s := text + rest;
    assert forall i :: 0 <= i < |text| ==> text[i] != '<' by { PlainHasNoMarkup(text); }
    TextLengthOf(text, rest);
    assert s[0] == text[0] && s[..|text|] == text && s[|text|..] == rest;
  }

  lemma PlainHasNoMarkup(text: string)
    requires PlainText(text)
    ensures forall i :: 0 <= i < |text| ==> text[i] != '<'
  {
  }

  lemma ElementReadsBack(tag: string, children: seq<Node>, rest: string)
    requires IsName(tag)
    requires ReadContent(PrintAll(children) + ("</" + tag + ">" + rest)) == Some((children, "</" + tag + ">" + rest))
    ensures ReadElement(Print(Element(tag, children)) + rest) == Some((Element(tag, children), rest))
  {
    hide ReadContent, PrintAll, NameLength;
    var close := "</" + tag + ">";
    var inner := PrintAll(children) + (close + rest);
    var s := Print(Element(tag, children)) + rest;
    assert s == "<" + (tag + (">" + inner));
    assert s[1..] == tag + (">" + inner);
    NameLengthOf(tag, ">" + inner);
    assert s[1..|tag| + 1] == tag && s[|tag| + 1] == '>' && s[|tag| + 2..] == inner;
    assert (close + rest)[|close|..] == rest;
  }

  lemma NodeReadsBack(x: Node, rest: string)
    requires Clean(x) && rest != "" && (x.Text? ==> rest[0] == '<')
    ensures var s := Print(x) + rest; s != "" && !("</" <= s) && ReadNode(s) == Some((x, rest))
    decreases x
  {
    hide PlainText, PlainSection, ReadSection;
    match x
    case Text(text) =>
      TextReadsBack(text, rest);
    case CData(text) =>
      SectionReadsBack(text, rest);
    case Element(tag, children) =>
      hide ReadElement, ReadContent, PrintAll;
      ContentReadsBack(children, "</" + tag + ">" + rest);
      ElementReadsBack(tag, children, rest);
  }

  lemma {:induction false} ContentReadsBack(xs: seq<Node>, rest: string)
    requires AllClean(xs) && "</" <= rest
    ensures ReadContent(PrintAll(xs) + rest) == Some((xs, rest))
    decreases xs
  {
    hide ReadNode, Print, Clean;
    var s := PrintAll(xs) + rest;
    if xs == [] {
      assert s == rest;
    } else {
      var tail := PrintAll(xs[1..]) + rest;
      assert s == Print(xs[0]) + tail;
      ContentReadsBack(xs[1..], rest);
      assert tail != "";
      if xs[0].Text? { AfterText(xs[1..], rest); }
      NodeReadsBack(xs[0], tail);
      assert xs == [xs[0]] + xs[1..];
    }
  }

  lemma AfterText(xs: seq<Node>, rest: string)
    requires (xs != [] ==> !xs[0].Text?) && "</" <= rest
    ensures (PrintAll(xs) + rest)[0] == '<'
  {
    if xs == [] {
      assert PrintAll(xs) + rest == rest;
    } else {
      assert Print(xs[0])[0] == '<';
    }
  }

  /** Every clean document, printed, is read back as itself. */
  lemma DocumentRoundTrip(x: Node)
    requires x.Element? && Clean(x)
    ensures ReadDocument(Print(x)) == Some(x)
  {
    hide ReadElement, Print;
    ContentReadsBack(x.children, "</" + x.tag + ">" + "");
    assert "</" + x.tag + ">" + "" == "</" + x.tag + ">";
    ElementReadsBack(x.tag, x.children, "");
    assert Print(x) + "" == Print(x);
  }
}

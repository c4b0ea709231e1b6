/** White space and trimming as JavaScript has them. */
module JsText {
  /** The characters JavaScript's `trim` and `\s` treat as white space. */
  predicate IsSpace(c: char) {
    '\U{0009}' <= c <= '\U{000D}' || c == ' ' || c == '\U{00A0}' || c == '\U{1680}'
    || '\U{2000}' <= c <= '\U{200A}' || c == '\U{2028}' || c == '\U{2029}' || c == '\U{202F}'
    || c == '\U{205F}' || c == '\U{3000}' || c == '\U{FEFF}'
  }

  function TrimStart(s: string): string {
    if s != "" && IsSpace(s[0]) then TrimStart(s[1..]) else s
  }

  function TrimEnd(s: string): string {
    if s != "" && IsSpace(s[|s| - 1]) then TrimEnd(s[..|s| - 1]) else s
  }

  function Trim(s: string): string { TrimEnd(TrimStart(s)) }

  /** The white space of ECMAScript, with its line terminators and the byte order mark. */
  lemma SpaceIs(c: char)
    ensures IsSpace(c)
       <==> c in "\U{0009}\U{000A}\U{000B}\U{000C}\U{000D} \U{00A0}\U{1680}\U{2000}\U{2001}\U{2002}\U{2003}\U{2004}\U{2005}\U{2006}"
              + "\U{2007}\U{2008}\U{2009}\U{200A}\U{2028}\U{2029}\U{202F}\U{205F}\U{3000}\U{FEFF}"
  {
  }

  predicate Blank(s: string) { forall i :: 0 <= i < |s| ==> IsSpace(s[i]) }

  /** No white space at either end. */
  predicate Trimmed(s: string) { s == "" || (!IsSpace(s[0]) && !IsSpace(s[|s| - 1])) }

  /** Trimming takes away the white space around a text, whatever is inside it. */
  lemma TrimAround(pre: string, s: string, post: string)
    requires Blank(pre) && Trimmed(s) && Blank(post)
    ensures Trim(pre + s + post) == s
  {
    hide IsSpace;
    if s == "" {
      StartAround(pre + s + post, "");
      assert pre + s + post + "" == pre + s + post;
      assert Blank(pre + s + post);
    } else {
      StartAround(pre, s + post);
      EndAround(s, post);
      assert pre + (s + post) == pre + s + post;
    }
  }

  lemma {:induction false} StartAround(pre: string, s: string)
    requires Blank(pre) && (s != "" ==> !IsSpace(s[0]))
    ensures TrimStart(pre + s) == s
  {
    hide IsSpace;
    if pre == "" {
      assert pre + s == s;
    } else {
      assert (pre + s)[1..] == pre[1..] + s;
      StartAround(pre[1..], s);
    }
  }

  lemma {:induction false} EndAround(s: string, post: string)
    requires Blank(post) && (s != "" ==> !IsSpace(s[|s| - 1]))
    ensures TrimEnd(s + post) == s
  {
    hide IsSpace;
    if post == "" {
      assert s + post == s;
    } else {
      assert (s + post)[..|s + post| - 1] == s + post[..|post| - 1];
      EndAround(s, post[..|post| - 1]);
    }
  }

  lemma TrimParts(s: string) returns (pre: string, post: string)
    ensures s == pre + Trim(s) + post && Blank(pre) && Blank(post) && Trimmed(Trim(s))
  {
    hide IsSpace;
    pre := StartParts(s);
    post := EndParts(TrimStart(s));
    var t := TrimStart(s);
    assert Trim(s) != "" ==> t[0] == Trim(s)[0];
    assert pre + (Trim(s) + post) == pre + Trim(s) + post;
  }

  lemma {:induction false} StartParts(s: string) returns (pre: string)
    ensures s == pre + TrimStart(s) && Blank(pre) && (TrimStart(s) != "" ==> !IsSpace(TrimStart(s)[0]))
  {
    hide IsSpace;
    pre := "";
    if s != "" && IsSpace(s[0]) {
      var rest := StartParts(s[1..]);
      pre := [s[0]] + rest;
      assert [s[0]] + (rest + TrimStart(s)) == pre + TrimStart(s);
    }
  }

  lemma {:induction false} EndParts(s: string) returns (post: string)
    ensures s == TrimEnd(s) + post && Blank(post) && (TrimEnd(s) != "" ==> !IsSpace(TrimEnd(s)[|TrimEnd(s)| - 1]))
  {
    hide IsSpace;
    post := "";
    if s != "" && IsSpace(s[|s| - 1]) {
      var rest := EndParts(s[..|s| - 1]);
      post := rest + [s[|s| - 1]];
      assert TrimEnd(s) + (rest + [s[|s| - 1]]) == TrimEnd(s) + rest + [s[|s| - 1]];
    }
  }
}

/** What one block of the event stream says, field by field: the name, the data, and the lines. */
module SseFields {
  import opened Common
  import opened SseReader
  import opened SseChunks

  /** What `str.strip` takes away: the white space of Unicode and the four separators of ASCII. */
  lemma SpaceIs(c: char)
    ensures IsSpace(c)
       <==> c in "\U{0009}\U{000A}\U{000B}\U{000C}\U{000D}\U{001C}\U{001D}\U{001E}\U{001F} \U{0085}\U{00A0}\U{1680}\U{2000}\U{2001}\U{2002}"
              + "\U{2003}\U{2004}\U{2005}\U{2006}\U{2007}\U{2008}\U{2009}\U{200A}\U{2028}\U{2029}\U{202F}\U{205F}\U{3000}"
  {
  }

  predicate Spaces(s: string) { forall i :: 0 <= i < |s| ==> IsSpace(s[i]) }

  lemma {:induction false} LeftStripped(pre: string, s: string)
    requires Spaces(pre) && (s != "" ==> !IsSpace(s[0]))
    ensures LeftStrip(pre + s) == s
  {
    hide IsSpace;
    if pre == "" {
      assert pre + s == s;
    } else {
      assert (pre + s)[1..] == pre[1..] + s;
      LeftStripped(pre[1..], s);
    }
  }

  lemma {:induction false} RightStripped(s: string, post: string)
    requires Spaces(post) && (s != "" ==> !IsSpace(s[|s| - 1]))
    ensures RightStrip(s + post) == s
  {
    hide IsSpace;
    if post == "" {
      assert s + post == s;
    } else {
      assert (s + post)[..|s + post| - 1] == s + post[..|post| - 1];
      RightStripped(s, post[..|post| - 1]);
    }
  }

  lemma StripsAround(pre: string, s: string, post: string)
    requires Spaces(pre) && Spaces(post) && (s != "" ==> !IsSpace(s[0]) && !IsSpace(s[|s| - 1]))
    ensures Strip(pre + s + post) == s
  {
    hide IsSpace;
    if s == "" {
      assert Spaces(pre + post) && pre + s + post == pre + post + "";
      LeftStripped(pre + post, "");
    } else {
      assert pre + s + post == pre + (s + post);
      LeftStripped(pre, s + post);
      RightStripped(s, post);
    }
  }

  // ---------------------------------------------------------------- name and data

  /** The last `event:` line names the event, without the white space around the name. */
  lemma LastNameCounts(front: seq<string>, pre: string, name: string, post: string, rest: seq<string>)
    requires Spaces(pre) && Spaces(post) && (name != "" ==> !IsSpace(name[0]) && !IsSpace(name[|name| - 1]))
    requires forall line | line in rest :: !("event:" <= line)
    ensures EventName(front + ["event:" + pre + name + post] + rest) == name
  {
    var line := "event:" + pre + name + post;
    NoNameBehind(front + [line], rest);
    assert line[6..] == pre + name + post;
    StripsAround(pre, name, post);
    hide Strip;
    assert (front + [line])[..|front|] == front;
  }

  lemma {:induction false} NoNameBehind(front: seq<string>, rest: seq<string>)
    requires forall line | line in rest :: !("event:" <= line)
    ensures EventName(front + rest) == EventName(front)
  {
    if rest == [] {
      assert front + rest == front;
    } else {
      var all, init, last := front + rest, rest[..|rest| - 1], rest[|rest| - 1];
      assert all[..|all| - 1] == front + init && all[|all| - 1] == last && last in rest;
      forall line | line in init
        ensures !("event:" <= line)
      {
        assert line in rest;
      }
      NoNameBehind(front, init);
    }
  }

  /** Without one it is a `message`. */
  lemma UnnamedIsMessage(lines: seq<string>)
    requires forall line | line in lines :: !("event:" <= line)
    ensures EventName(lines) == "message"
  {
    NoNameBehind([], lines);
    assert [] + lines == lines && EventName([]) == "message";
  }

  /** A `data:` line adds its text, without white space before it, in the order of the lines. */
  lemma DataInOrder(front: seq<string>, pre: string, text: string, rest: seq<string>)
    requires Spaces(pre) && (text != "" ==> !IsSpace(text[0]))
    ensures DataLines(front + ["data:" + pre + text] + rest) == DataLines(front) + [text] + DataLines(rest)
  {
    hide LeftStrip, IsSpace;
    var line := "data:" + pre + text;
    DataLinesTogether(front + [line], rest);
    DataLinesTogether(front, [line]);
    assert line[0] == 'd' && line[5..] == pre + text;
    LeftStripped(pre, text);
    assert [line][..0] == [] && DataLines([line]) == DataLines([]) + [text];
  }

  /** Every other line adds nothing. */
  lemma OtherLinesAreIgnored(front: seq<string>, line: string, rest: seq<string>)
    requires !("data:" <= line)
    ensures DataLines(front + [line] + rest) == DataLines(front) + DataLines(rest)
  {
    DataLinesTogether(front + [line], rest);
    DataLinesTogether(front, [line]);
    NoData(line);
    assert DataLines(front) + [] == DataLines(front);
  }

  /** A block is an event exactly if it has a `data:` line. */
  lemma BlockIsEvent(block: string)
    ensures EventOf(block) == [] <==> forall line | line in SplitLines(block) :: !("data:" <= line)
    ensures EventOf(block) != [] ==> EventOf(block) == [SseEvent(EventName(SplitLines(block)), DataLines(SplitLines(block)))]
  {
    hide SplitLines, LeftStrip;
    EventByData(block);
    HasDataLine(SplitLines(block));
  }

  lemma {:induction false} HasDataLine(lines: seq<string>)
    ensures DataLines(lines) == [] <==> forall line | line in lines :: !("data:" <= line)
  {
    hide LeftStrip;
    if lines != [] {
      var front, last := lines[..|lines| - 1], lines[|lines| - 1];
      assert lines == front + [last];
      HasDataLine(front);
      assert IsDataLine(last) <==> "data:" <= last by {
        assert "event:"[0] == 'e' && "data:"[0] == 'd';
        if "data:" <= last { assert last[0] == "data:"[0]; }
        if "event:" <= last { assert last[0] == "event:"[0]; }
      }
      assert (forall line | line in lines :: !("data:" <= line)) <==> !("data:" <= last) && forall line | line in front :: !("data:" <= line) by {
        assert last in lines && forall line | line in front :: line in lines;
      }
    }
  }

  // ---------------------------------------------------------------- lines

  /** A line ends at a line feed, a vertical tab, a form feed, a file, group or record separator, a next-line
      character or a line or paragraph separator. */
  lemma LineEnds(line: string, c: char, rest: string)
    requires OneLine(line)
    requires c in "\n\U{000B}\U{000C}\U{001C}\U{001D}\U{001E}\U{0085}\U{2028}\U{2029}"
    ensures SplitLines(line + [c] + rest) == [line] + SplitLines(rest)
  {
    assert IsLineBreak(c) && c != '\r';
    var s := line + [c] + rest;
    assert s == line + ([c] + rest);
    FirstLineOf(line, [c] + rest);
    hide FirstLine;
    assert s[..|line|] == line && s[|line| + 1..] == rest;
    LineThen(s);
  }

  lemma LastLine(line: string)
    requires OneLine(line)
    ensures SplitLines(line) == if line == "" then [] else [line]
  {
    FirstLineOf(line, "");
    assert line + "" == line;
    OnlyLine(line);
  }
}

/** The setup-automation graph between test cases: how an entry of a case names another case
    (setup-automation.ts), and the depth-first cycle check over the graph (validate.ts). */
module SetupGraph {
  import opened JsText

  datatype EntryKind = Case | Node

  datatype SetupSpec = SetupSpec(kind: EntryKind, target: string, args: seq<string>)

  datatype CaseItem = CaseItem(id: string, path: string, setup: seq<string>, script: string, scriptExists: bool)

  // ---------------------------------------------------------------- entries

  function FirstWord(s: string): (word: string)
    ensures |word| <= |s|
    ensures s != "" && !IsSpace(s[0]) ==> word != ""
  {
    if s == "" || IsSpace(s[0]) then "" else [s[0]] + FirstWord(s[1..])
  }

  /** `split(/\s+/).filter(Boolean)`. */
  function Words(s: string): seq<string>
    decreases |s|
  {
    if s == "" then []
    else if IsSpace(s[0]) then Words(s[1..])
    else [FirstWord(s)] + Words(s[|FirstWord(s)|..])
  }

  function ParseEntry(entry: string): SetupSpec {
    var trimmed := Trim(entry);
    if "case:" <= trimmed then SetupSpec(Case, Trim(trimmed[5..]), [])
    else if "node:" <= trimmed then
      var words := Words(Trim(trimmed[5..]));
      if words == [] then SetupSpec(Node, "", []) else SetupSpec(Node, words[0], words[1..])
    else SetupSpec(Case, "", [])
  }

  // ---------------------------------------------------------------- the graph

  type Graph = map<string, CaseItem>

  /** `new Map(caseItems.map(item => [id, item]))`: of two items with one id the later stays. */
  function ById(items: seq<CaseItem>): (g: Graph)
    ensures forall id :: id in g <==> exists i :: 0 <= i < |items| && items[i].id == id
    ensures forall id | id in g :: g[id] in items && g[id].id == id
  {
    if items == [] then map[]
    else
      var n := |items| - 1;
      ById(items[..n])[items[n].id := items[n]]
  }

  lemma {:induction false} LaterStays(items: seq<CaseItem>, i: nat)
    requires i < |items| && forall j :: i < j < |items| ==> items[j].id != items[i].id
    ensures items[i].id in ById(items) && ById(items)[items[i].id] == items[i]
  {
    if i < |items| - 1 { LaterStays(items[..|items| - 1], i); }
  }

  /** The entry asks for the case `target` to be run first. */
  predicate Names(entry: string, target: string) {
    ParseEntry(entry).kind == Case && ParseEntry(entry).target == target
  }

  ghost predicate Edge(g: Graph, a: string, b: string) {
    a in g && exists i :: 0 <= i < |g[a].setup| && Names(g[a].setup[i], b)
  }

  ghost predicate Walk(g: Graph, p: seq<string>) {
    forall i :: 0 <= i < |p| - 1 ==> Edge(g, p[i], p[i + 1])
  }

  ghost predicate ClosedWalk(g: Graph, p: seq<string>) {
    2 <= |p| && p[0] == p[|p| - 1] && Walk(g, p)
  }

  ghost predicate Cyclic(g: Graph) {
    exists p :: ClosedWalk(g, p)
  }

  /** The error pushed for a cycle: the owner named in front and the ids printed with arrows. */
  datatype CycleError = CycleError(owner: string, printed: seq<string>)

  ghost predicate GenuineError(g: Graph, e: CycleError) {
    var n := |e.printed| - 1;
    2 <= n && e.printed[n] == e.printed[0] && ClosedWalk(g, e.printed[..n])
    && e.printed[0] in g && e.owner == g[e.printed[0]].path
  }

  /** `entry` reads `case:` and the id, with white space around either. */
  ghost predicate ReadsCase(entry: string, id: string) {
    Trimmed(id) && exists pre, mid, post :: Blank(pre) && Blank(mid) && Blank(post) && entry == CaseText(pre, mid, id, post)
  }

  ghost function CaseText(pre: string, mid: string, id: string, post: string): string { pre + "case:" + mid + id + post }

  /** An entry of neither form is taken for a case without a name. */
  ghost predicate ReadsNothing(entry: string) {
    forall pre, rest :: Blank(pre) ==> entry != pre + "case:" + rest && entry != pre + "node:" + rest
  }

  /** Exactly the entries that read so name a case. */
  lemma NamesExactly(entry: string, id: string)
    ensures Names(entry, id) <==> ReadsCase(entry, id) || (id == "" && ReadsNothing(entry))
  {
    hide Trim, ReadsCase, ReadsNothing;
    if "case:" <= Trim(entry) { CaseSide(entry, id); } else { OtherSide(entry, id); }
  }

  lemma CaseSide(entry: string, id: string)
    requires "case:" <= Trim(entry)
    ensures (ReadsCase(entry, id) <==> ParseEntry(entry).target == id) && !ReadsNothing(entry) && ParseEntry(entry).kind == Case
  {
    hide IsSpace, TrimStart, TrimEnd;
    CaseEntry(entry);
    var pre, post := TrimParts(entry);
    assert entry == pre + "case:" + (Trim(entry)[5..] + post);
    if ReadsCase(entry, id) {
      var pre, mid, post :| Blank(pre) && Blank(mid) && Blank(post) && entry == CaseText(pre, mid, id, post);
      CaseNames(pre, mid, id, post);
    }
  }

  lemma OtherSide(entry: string, id: string)
    requires !("case:" <= Trim(entry))
    ensures !ReadsCase(entry, id) && (ReadsNothing(entry) <==> !("node:" <= Trim(entry)))
  {
    hide IsSpace, TrimStart, TrimEnd;
    if ReadsCase(entry, id) {
      var pre, mid, post :| Blank(pre) && Blank(mid) && Blank(post) && entry == CaseText(pre, mid, id, post);
      CaseTextStarts(pre, mid, id, post);
      assert false;
    }
    if "node:" <= Trim(entry) {
      var pre, post := TrimParts(entry);
      assert entry == pre + "node:" + (Trim(entry)[5..] + post);
    } else {
      forall pre, rest | Blank(pre)
        ensures entry != pre + "case:" + rest && entry != pre + "node:" + rest
      {
        CaseStarts(pre, rest);
      }
    }
  }

  /** What stands behind white space decides. */
  lemma CaseStarts(pre: string, rest: string)
    requires Blank(pre)
    ensures "case:" <= Trim(pre + "case:" + rest) && "node:" <= Trim(pre + "node:" + rest)
  {
    KeywordsTrimmed();
    TrimKeepsStart(pre, "case:", rest);
    TrimKeepsStart(pre, "node:", rest);
  }

  lemma CaseTextStarts(pre: string, mid: string, id: string, post: string)
    requires Blank(pre)
    ensures "case:" <= Trim(CaseText(pre, mid, id, post))
  {
    CaseStarts(pre, mid + id + post);
    assert pre + "case:" + (mid + id + post) == CaseText(pre, mid, id, post);
  }

  lemma TrimKeepsStart(pre: string, word: string, rest: string)
    requires Blank(pre) && word != "" && Trimmed(word)
    ensures word <= Trim(pre + word + rest)
  {
    hide IsSpace;
    assert pre + word + rest == pre + (word + rest);
    StartAround(pre, word + rest);
    EndKeeps(word, rest);
  }

  lemma {:induction false} EndKeeps(word: string, rest: string)
    requires word != "" && !IsSpace(word[|word| - 1])
    ensures word <= TrimEnd(word + rest)
    decreases |rest|
  {
    hide IsSpace;
    if rest == "" {
      assert word + rest == word;
    } else {
      assert (word + rest)[..|word + rest| - 1] == word + rest[..|rest| - 1];
      EndKeeps(word, rest[..|rest| - 1]);
    }
  }

  lemma KeywordsTrimmed()
    ensures Trimmed("case:") && Trimmed("node:")
  {
  }

  lemma CaseNames(pre: string, mid: string, id: string, post: string)
    requires Blank(pre) && Blank(mid) && Trimmed(id) && Blank(post)
    ensures ParseEntry(CaseText(pre, mid, id, post)) == SetupSpec(Case, id, [])
  {
    KeywordsTrimmed();
    hide IsSpace;
    var entry := CaseText(pre, mid, id, post);
    if id == "" {
      assert Blank(mid + post) && entry == pre + "case:" + (mid + post);
      TrimAround(pre, "case:", mid + post);
      TrimAround("", "", "");
      assert Trim(entry)[5..] == "" && "" + "" + "" == "";
    } else {
      var body := "case:" + mid + id;
      assert entry == pre + body + post && body[0] == 'c' && body[|body| - 1] == id[|id| - 1];
      TrimAround(pre, body, post);
      TrimAround(mid, id, "");
      assert body[5..] == mid + id + "";
    }
  }

  lemma CaseEntry(entry: string)
    requires "case:" <= Trim(entry)
    ensures ParseEntry(entry).kind == Case && ReadsCase(entry, ParseEntry(entry).target)
  {
    hide IsSpace, TrimStart, TrimEnd, Words;
    var t := Trim(entry);
    var pre, post := TrimParts(entry);
    var mid, end := TrimParts(t[5..]);
    var id := Trim(t[5..]);
    assert t == "case:" + (mid + id + end);
    assert entry == CaseText(pre, mid, id, end + post);
    assert Blank(end + post);
  }

  /** The edges of the graph as they are written. */
  lemma EdgesByText(g: Graph, a: string, b: string)
    requires b != ""
    ensures Edge(g, a, b) <==> a in g && exists entry :: entry in g[a].setup && ReadsCase(entry, b)
  {
    hide Names, ReadsCase;
    if a in g {
      forall entry | entry in g[a].setup
        ensures Names(entry, b) <==> ReadsCase(entry, b)
      {
        NamesExactly(entry, b);
      }
      if entry :| entry in g[a].setup && ReadsCase(entry, b) {
        var i :| 0 <= i < |g[a].setup| && g[a].setup[i] == entry;
        assert Names(g[a].setup[i], b);
      }
    }
  }

  /** An entry that reads `node:` names no case; its script is the first word behind it. */
  lemma NodeNames(pre: string, mid: string, script: string, rest: string)
    requires Blank(pre) && Blank(mid) && script != "" && (forall i :: 0 <= i < |script| ==> !IsSpace(script[i]))
    requires rest != "" ==> IsSpace(rest[0])
    ensures var entry := pre + "node:" + mid + script + rest;
            ParseEntry(entry) == SetupSpec(Node, script, Words(rest)) && forall id :: !Names(entry, id)
  {
    hide Words, Trim, Blank, IsSpace;
    var entry, tail := pre + "node:" + mid + script + rest, mid + script + rest;
    assert entry == pre + "node:" + tail;
    var end := NodeBody(pre, tail);
    NodeWords(mid, script, rest, Trim(entry)[5..], end);
  }

  lemma NodeWords(mid: string, script: string, rest: string, body: string, end: string)
    requires Blank(mid) && script != "" && (forall i :: 0 <= i < |script| ==> !IsSpace(script[i])) && (rest != "" ==> IsSpace(rest[0]))
    requires body + end == mid + script + rest && Blank(end)
    ensures Words(Trim(body)) == [script] + Words(rest)
  {
    hide Words, Trim, Blank, IsSpace;
    WordThen(script, rest);
    TrimmedWords(body);
    NoBlank();
    WordsAround("", body, end);
    WordsAround(mid, script + rest, "");
    assert "" + body + end == body + end;
    assert mid + (script + rest) + "" == mid + script + rest;
  }

  lemma TrimmedWords(s: string)
    ensures Words(Trim(s)) == Words(s)
  {
    hide Words, Trim, IsSpace;
    var pre, post := TrimParts(s);
    WordsAround(pre, Trim(s), post);
  }

  lemma NoBlank()
    ensures Blank("")
  {
  }

  lemma NodeBody(pre: string, tail: string) returns (end: string)
    requires Blank(pre)
    ensures var t := Trim(pre + "node:" + tail); "node:" <= t && !("case:" <= t) && t[5..] + end == tail && Blank(end)
  {
    KeywordsTrimmed();
    hide IsSpace;
    CaseStarts(pre, tail);
    assert pre + "node:" + tail == pre + ("node:" + tail);
    StartAround(pre, "node:" + tail);
    end := EndParts("node:" + tail);
    var t := Trim(pre + "node:" + tail);
    assert t[0] == "node:"[0] && "case:"[0] == 'c';
    assert tail == ("node:" + tail)[5..] == (t + end)[5..] == t[5..] + end;
  }

  lemma {:induction false} WordsAround(pre: string, s: string, post: string)
    requires Blank(pre) && Blank(post)
    ensures Words(pre + s + post) == Words(s)
    decreases |pre|
  {
    hide IsSpace;
    if pre == "" {
      assert pre + s + post == s + post;
      WordsBefore(s, post);
    } else {
      assert (pre + s + post)[1..] == pre[1..] + s + post;
      WordsAround(pre[1..], s, post);
    }
  }

  lemma {:induction false} WordsBefore(s: string, post: string)
    requires Blank(post)
    ensures Words(s + post) == Words(s)
    decreases |s|, |post|
  {
    hide IsSpace;
    if s == "" {
      assert s + post == post;
      if post != "" { WordsBefore("", post[1..]); assert "" + post[1..] == post[1..]; }
    } else if IsSpace(s[0]) {
      assert (s + post)[1..] == s[1..] + post;
      WordsBefore(s[1..], post);
    } else {
      var w := FirstWord(s);
      FirstWordIn(s, post);
      assert (s + post)[|w|..] == s[|w|..] + post;
      WordsBefore(s[|w|..], post);
    }
  }

  lemma {:induction false} FirstWordIn(s: string, post: string)
    requires post != "" ==> IsSpace(post[0])
    ensures FirstWord(s + post) == FirstWord(s)
  {
    hide IsSpace;
    if s == "" {
      assert s + post == post;
    } else {
      assert (s + post)[1..] == s[1..] + post;
      FirstWordIn(s[1..], post);
    }
  }

  lemma WordThen(word: string, rest: string)
    requires word != "" && (forall i :: 0 <= i < |word| ==> !IsSpace(word[i])) && (rest != "" ==> IsSpace(rest[0]))
    ensures Words(word + rest) == [word] + Words(rest)
  {
    hide IsSpace;
    FirstWordIn(word, rest);
    WholeWord(word);
    assert (word + rest)[|word|..] == rest;
  }

  lemma {:induction false} WholeWord(word: string)
    requires forall i :: 0 <= i < |word| ==> !IsSpace(word[i])
    ensures FirstWord(word) == word
  {
    hide IsSpace;
    if word != "" { WholeWord(word[1..]); }
  }

  lemma WalkSuffix(g: Graph, p: seq<string>, k: nat)
    requires Walk(g, p) && k <= |p|
    ensures Walk(g, p[k..])
  {
    forall i | 0 <= i < |p[k..]| - 1 ensures Edge(g, p[k..][i], p[k..][i + 1]) {
      assert Edge(g, p[k + i], p[k + i + 1]);
    }
  }

  lemma WalkExtended(g: Graph, p: seq<string>, b: string)
    requires Walk(g, p) && p != [] && Edge(g, p[|p| - 1], b)
    ensures Walk(g, p + [b])
  {
    var q := p + [b];
    forall i | 0 <= i < |q| - 1 ensures Edge(g, q[i], q[i + 1]) {
      if i < |p| - 1 { assert Edge(g, p[i], p[i + 1]); }
    }
  }

  /** `id` stands on the path before its last position. */
  ghost predicate Before(path: seq<string>, id: string) {
    exists j :: 0 <= j < |path| - 1 && path[j] == id
  }

  /** The nodes being visited all stand on the path to the current one. */
  ghost predicate OnPath(visiting: set<string>, path: seq<string>) {
    forall x | x in visiting :: Before(path, x)
  }

  lemma OnPathExtended(visiting: set<string>, path: seq<string>, b: string)
    requires path != [] && forall x | x in visiting :: Before(path, x) || x == path[|path| - 1]
    ensures OnPath(visiting, path + [b])
  {
    var q := path + [b];
    forall x | x in visiting ensures Before(q, x) {
      if x == path[|path| - 1] {
        assert q[|path| - 1] == x;
      } else {
        var j :| 0 <= j < |path| - 1 && path[j] == x;
        assert q[j] == x;
      }
    }
  }

  // ---------------------------------------------------------------- no cycle below a ranking

  /** `finish` numbers nodes so that every edge into a known node goes to a smaller number. */
  ghost predicate Ranks(g: Graph, finish: map<string, nat>) {
    forall a, b :: a in finish && Edge(g, a, b) && b in g ==> b in finish && finish[b] < finish[a]
  }

  lemma {:induction false} WalkDescends(g: Graph, finish: map<string, nat>, p: seq<string>)
    requires Ranks(g, finish) && 2 <= |p| && Walk(g, p) && p[0] in finish && p[|p| - 1] in g
    ensures p[|p| - 1] in finish && finish[p[|p| - 1]] < finish[p[0]]
    decreases |p|
  {
    assert Edge(g, p[0], p[1]);
    if |p| > 2 {
      assert Edge(g, p[1], p[2]);
      WalkSuffix(g, p, 1);
      WalkDescends(g, finish, p[1..]);
    }
  }

  lemma RankedIsAcyclic(g: Graph, finish: map<string, nat>)
    requires Ranks(g, finish) && g.Keys <= finish.Keys
    ensures !Cyclic(g)
  {
    if p :| ClosedWalk(g, p) {
      assert Edge(g, p[0], p[1]);
      WalkDescends(g, finish, p);
    }
  }

  // ---------------------------------------------------------------- the three-colour search

  function IndexOf(p: seq<string>, id: string): (k: nat)
    requires id in p
    ensures k < |p| && p[k] == id && forall j :: 0 <= j < k ==> p[j] != id
  {
    if p[0] == id then 0 else 1 + IndexOf(p[1..], id)
  }

  /** Meeting an id again on the current path closes a walk of real edges. */
  lemma {:induction false} RepeatedIdIsCycle(g: Graph, path: seq<string>, id: string)
    requires path != [] && path[|path| - 1] == id && Walk(g, path)
    requires id in g && Before(path, id)
    ensures GenuineError(g, CycleError(g[id].path, path[IndexOf(path, id)..] + [id]))
  {
    hide Walk, IndexOf;
    var k := IndexOf(path, id);
    assert k < |path| - 1;
    WalkSuffix(g, path, k);
  }

  lemma GenuineIsCyclic(g: Graph, e: CycleError)
    requires GenuineError(g, e)
    ensures Cyclic(g)
  {
  }

  /** A node all of whose known targets are ranked may be ranked above everything so far. */
  lemma RanksExtended(g: Graph, finish: map<string, nat>, id: string, clock: nat)
    requires Ranks(g, finish) && (forall x | x in finish :: finish[x] < clock)
    requires id in g && id !in finish
    requires forall i, b :: 0 <= i < |g[id].setup| && Names(g[id].setup[i], b) && b in g ==> b in finish
    ensures Ranks(g, finish[id := clock])
  {
  }

  class CycleCheck {
    const byId: Graph
    var visiting: set<string>
    var visited: set<string>
    var errors: seq<CycleError>
    ghost var finish: map<string, nat>
    ghost var clock: nat

    constructor (byId: Graph)
      ensures this.byId == byId && visiting == {} && visited == {} && errors == [] && Valid()
    {
      this.byId := byId;
      visiting, visited, errors := {}, {}, [];
      finish, clock := map[], 0;
    }

    ghost predicate Valid()
      reads this
    {
      && visited <= byId.Keys && visiting <= byId.Keys && visiting !! visited
      && finish.Keys == visited && (forall id | id in finish :: finish[id] < clock)
      && (errors == [] ==> Ranks(byId, finish))
      && forall e | e in errors :: GenuineError(byId, e)
    }

    /** Every known case an entry names has been visited. */
    ghost predicate Explored(entry: string)
      reads this
    {
      forall b :: Names(entry, b) && b in byId ==> b in visited
    }

    method Visit(id: string, path: seq<string>)
      requires Valid() && path != [] && path[|path| - 1] == id && Walk(byId, path)
      requires OnPath(visiting, path)
      modifies this
      ensures Valid() && visiting == old(visiting) && old(visited) <= visited
      ensures old(errors) <= errors
      ensures errors == [] && id in byId ==> id in visited
      decreases byId.Keys - (visiting + visited), 1
    {
      hide GenuineError, Walk, Ranks;
      if id in visited { return; }
      if id in visiting {
        RepeatedIdIsCycle(byId, path, id);
        errors := errors + [CycleError(byId[id].path, path[IndexOf(path, id)..] + [id])];
        return;
      }
      if id !in byId { return; }
      visiting := visiting + {id};
      VisitEntries(id, path);
      visiting := visiting - {id};
      if errors == [] { RanksExtended(byId, finish, id, clock); }
      visited := visited + {id};
      finish, clock := finish[id := clock], clock + 1;
    }

    /** The loop over the entries of `id`, the innermost node being visited. */
    method VisitEntries(id: string, path: seq<string>)
      requires Valid() && path != [] && path[|path| - 1] == id && Walk(byId, path)
      requires id in byId && forall x | x in visiting :: Before(path, x) || x == id
      modifies this
      ensures Valid() && visiting == old(visiting) && old(visited) <= visited
      ensures old(errors) <= errors
      ensures errors == [] ==> forall i :: 0 <= i < |byId[id].setup| ==> Explored(byId[id].setup[i])
      decreases byId.Keys - (visiting + visited), 2
    {
      hide ParseEntry, GenuineError, Walk, Ranks;
      var entries := byId[id].setup;
      for n := 0 to |entries|
        invariant Valid() && visiting == old(visiting) && old(visited) <= visited
        invariant old(errors) <= errors
        invariant errors == [] ==> forall i :: 0 <= i < n ==> Explored(entries[i])
      {
        var spec := ParseEntry(entries[n]);
        if spec.kind == Case {
          var longer := path + [spec.target];
          assert Names(entries[n], spec.target);
          WalkExtended(byId, path, spec.target);
          OnPathExtended(visiting, path, spec.target);
          Visit(spec.target, longer);
        }
      }
    }
  }

  method ValidateSetupAutomationCycles(items: seq<CaseItem>) returns (errors: seq<CycleError>)
    ensures errors == [] <==> !Cyclic(ById(items))
    ensures forall e | e in errors :: GenuineError(ById(items), e)
  {
    hide Ranks, GenuineError, ById, Cyclic;
    var check := new CycleCheck(ById(items));
    for n := 0 to |items|
      invariant check.Valid() && check.visiting == {} && check.byId == ById(items)
      invariant check.errors == [] ==> forall i :: 0 <= i < n ==> items[i].id in check.visited
    {
      check.Visit(items[n].id, [items[n].id]);
    }
    errors := check.errors;
    if errors == [] {
      assert check.byId.Keys <= check.finish.Keys;
      RankedIsAcyclic(check.byId, check.finish);
    } else {
      GenuineIsCyclic(check.byId, errors[0]);
    }
  }
}

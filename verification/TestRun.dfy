/** `lbs test run <case>`: a case's setup entries are spawned one after the other, an entry naming a
    case as a nested `test run`, and the case's own script only after all of them (test.ts). */
module TestRun {
  import opened Common
  import opened SetupGraph

  /** What `spawnSync` reports: it could not start, or an exit status (null after a signal). */
  datatype SpawnResult = SpawnError | Exited(code: Option<int>) {
    function Status(): int {
      match this
      case SpawnError => 1
      case Exited(None) => 1
      case Exited(Some(s)) => s
    }
  }

  /** One nesting level: which setup entry of the case above started this case. */
  datatype Frame = Frame(entry: nat, id: string)

  datatype Event =
    | CaseStarted(chain: seq<Frame>)
    | SetupReturned(chain: seq<Frame>, entry: nat, status: int)
    | ScriptReturned(chain: seq<Frame>, status: int)

  /** The case files, the scripts on disk, and the outcome of every spawn given all that happened. */
  datatype World = World(items: seq<CaseItem>, scripts: set<string>, spawn: seq<Event> -> SpawnResult)

  function Matches(items: seq<CaseItem>, id: string): (r: seq<CaseItem>)
    ensures forall item :: item in r <==> item in items && item.id == id
  {
    if items == [] then []
    else (if items[0].id == id then [items[0]] else []) + Matches(items[1..], id)
  }

  /** Exactly one case file has the id. */
  ghost predicate OneCase(items: seq<CaseItem>, id: string) {
    exists i :: 0 <= i < |items| && items[i].id == id && forall j :: 0 <= j < |items| && j != i ==> items[j].id != id
  }

  lemma {:induction false} MatchesCount(items: seq<CaseItem>, id: string)
    ensures |Matches(items, id)| == 0 <==> forall i :: 0 <= i < |items| ==> items[i].id != id
    ensures |Matches(items, id)| == 1 <==> OneCase(items, id)
  {
    hide OneCase;
    if items == [] {
      assert !OneCase(items, id) by { NoCase(id); }
    } else {
      var rest := items[1..];
      MatchesCount(rest, id);
      OneCaseMore(items, id);
      assert forall i :: 0 < i < |items| ==> items[i] == rest[i - 1];
      assert forall i :: 0 <= i < |rest| ==> rest[i] == items[i + 1];
    }
  }

  lemma NoCase(id: string)
    ensures !OneCase([], id)
  {
  }

  lemma OneCaseMore(items: seq<CaseItem>, id: string)
    requires items != []
    ensures OneCase(items, id) <==> if items[0].id == id then forall i :: 0 <= i < |items[1..]| ==> items[1..][i].id != id
                                    else OneCase(items[1..], id)
  {
    var rest := items[1..];
    assert forall i :: 0 < i < |items| ==> items[i] == rest[i - 1];
    assert forall i :: 0 <= i < |rest| ==> rest[i] == items[i + 1];
    if OneCase(rest, id) && items[0].id != id {
      var i :| 0 <= i < |rest| && rest[i].id == id && forall j :: 0 <= j < |rest| && j != i ==> rest[j].id != id;
      assert items[i + 1].id == id;
    }
    if OneCase(items, id) && items[0].id != id {
      var i :| 0 <= i < |items| && items[i].id == id && forall j :: 0 <= j < |items| && j != i ==> items[j].id != id;
      assert rest[i - 1].id == id;
    }
  }

  /** `findStructuredItem`: no match and several matches both end the process with status 1. */
  function FindCase(items: seq<CaseItem>, id: string): (r: Option<CaseItem>)
    ensures r.Some? <==> OneCase(items, id)
    ensures r.Some? ==> id in ById(items) && ById(items)[id] == r.value
  {
    var m := Matches(items, id);
    MatchesCount(items, id);
    if |m| == 1 then
      OnlyMatch(items, id);
      Some(m[0])
    else None
  }

  lemma OnlyMatch(items: seq<CaseItem>, id: string)
    requires |Matches(items, id)| == 1
    ensures id in ById(items) && ById(items)[id] == Matches(items, id)[0]
  {
    hide Matches, ById;
    var item := Matches(items, id)[0];
    assert item in Matches(items, id);
    var i :| 0 <= i < |items| && items[i] == item;
    assert ById(items)[id] in Matches(items, id);
  }

  function Ids(chain: seq<Frame>): (r: seq<string>)
    ensures |r| == |chain| && forall i :: 0 <= i < |r| ==> r[i] == chain[i].id
  {
    seq(|chain|, i requires 0 <= i < |chain| => chain[i].id)
  }

  function Above(chain: seq<Frame>): set<string> {
    set i | 0 <= i < |chain| - 1 :: chain[i].id
  }

  ghost predicate Distinct(p: seq<string>) {
    forall i, j :: 0 <= i < j < |p| ==> p[i] != p[j]
  }

  lemma AcyclicWalkIsDistinct(g: Graph, p: seq<string>)
    requires !Cyclic(g) && Walk(g, p)
    ensures Distinct(p)
  {
    forall i, j | 0 <= i < j < |p| ensures p[i] != p[j] {
      if p[i] == p[j] {
        WalkSuffix(g, p, i);
        assert Walk(g, p[i..j + 1]) by {
          var q := p[i..j + 1];
          forall k | 0 <= k < j - i ensures Edge(g, q[k], q[k + 1]) {
            assert Edge(g, p[i + k], p[i + k + 1]);
          }
        }
        assert ClosedWalk(g, p[i..j + 1]);
      }
    }
  }

  // ---------------------------------------------------------------- what the log must show

  /** Before position `k` the first `n` setup entries of this run returned 0, in declared order. */
  ghost predicate SetupsDone(log: seq<Event>, k: nat, chain: seq<Frame>, n: nat)
    requires k <= |log|
  {
    n == 0 || exists p :: 0 <= p < k && log[p] == SetupReturned(chain, n - 1, 0) && SetupsDone(log, p, chain, n - 1)
  }

  /** A run of a known case, reached down a chain of setup edges that passes no case twice. */
  ghost predicate Running(w: World, chain: seq<Frame>) {
    chain != [] && chain[|chain| - 1].id in ById(w.items)
    && Walk(ById(w.items), Ids(chain)) && Distinct(Ids(chain))
  }

  ghost function ItemOf(w: World, chain: seq<Frame>): CaseItem
    requires Running(w, chain)
  {
    ById(w.items)[chain[|chain| - 1].id]
  }

  /** The setup entries of the case above that come before the one that started this run returned 0. */
  ghost predicate TurnHasCome(log: seq<Event>, k: nat, chain: seq<Frame>)
    requires k <= |log|
  {
    |chain| > 1 ==> SetupsDone(log, k, chain[..|chain| - 1], chain[|chain| - 1].entry)
  }

  /** What a spawn counts as: its exit status, and 1 if it could not start or was killed by a signal. */
  ghost predicate CountsAs(r: SpawnResult, status: int) {
    (status == 0 <==> r == Exited(Some(0)))
    && match r
       case Exited(Some(code)) => status == code
       case _ => status == 1
  }

  /** How the run of a case that began at position `p` of the log has ended: at once with 1 if the id is not
      that of exactly one case, with 1 after its start if it has no script; otherwise with its script, or
      with the setup entry that failed. */
  ghost predicate CaseReturned(w: World, log: seq<Event>, p: nat, chain: seq<Frame>, status: int)
    requires chain != []
  {
    var id := chain[|chain| - 1].id;
    if !OneCase(w.items, id) || id !in ById(w.items) then |log| == p && status == 1
    else
      var item := ById(w.items)[id];
      p < |log| && log[p] == CaseStarted(chain)
      && if item.script == "" || !item.scriptExists then |log| == p + 1 && status == 1
         else |log| > p + 1
              && var e := log[|log| - 1];
                 e == ScriptReturned(chain, status) || (e.SetupReturned? && e.chain == chain && e.status == status != 0)
  }

  /** What happens in a run right before its setup entry `n`. */
  ghost function TurnOf(chain: seq<Frame>, n: nat): Event {
    if n == 0 then CaseStarted(chain) else SetupReturned(chain, n - 1, 0)
  }

  /** Setup entry `n`, begun at position `p`, returned `status` after `log`: a script what its spawn counts
      as, a case what its run returned, and 1 for a target there is not and a spawn that failed. */
  ghost predicate SetupReturns(w: World, log: seq<Event>, p: nat, chain: seq<Frame>, n: nat, status: int)
    requires Running(w, chain) && n < |ItemOf(w, chain).setup| && p <= |log|
  {
    var spec := ParseEntry(ItemOf(w, chain).setup[n]);
    if spec.kind == Case && spec.target in ById(w.items) && !w.spawn(log[..p]).SpawnError?
    then CaseReturned(w, log, p, chain + [Frame(n, spec.target)], status)
    else |log| == p
         && if spec.kind == Node && spec.target in w.scripts then CountsAs(w.spawn(log), status) else status == 1
  }

  ghost predicate SetupStatus(w: World, log: seq<Event>, chain: seq<Frame>, n: nat, status: int)
    requires Running(w, chain) && n < |ItemOf(w, chain).setup|
  {
    exists p :: 0 < p <= |log| && log[p - 1] == TurnOf(chain, n) && SetupReturns(w, log, p, chain, n, status)
  }

  ghost predicate Justified(w: World, log: seq<Event>, k: nat)
    requires k < |log|
  {
    Running(w, log[k].chain)
    && match log[k]
       case CaseStarted(chain) => TurnHasCome(log, k, chain)
       case SetupReturned(chain, n, status) =>
         n < |ItemOf(w, chain).setup| && SetupsDone(log, k, chain, n) && SetupStatus(w, log[..k], chain, n, status)
       case ScriptReturned(chain, status) =>
         SetupsDone(log, k, chain, |ItemOf(w, chain).setup|) && CountsAs(w.spawn(log[..k]), status)
  }

  ghost predicate GoodLog(w: World, log: seq<Event>) {
    forall k :: 0 <= k < |log| ==> Justified(w, log, k)
  }

  lemma {:induction false} SetupsDoneLater(log: seq<Event>, more: seq<Event>, k: nat, k': nat, chain: seq<Frame>, n: nat)
    requires k <= |log| && log <= more && k <= k' <= |more| && SetupsDone(log, k, chain, n)
    ensures SetupsDone(more, k', chain, n)
    decreases n
  {
    if n != 0 {
      var p :| 0 <= p < k && log[p] == SetupReturned(chain, n - 1, 0) && SetupsDone(log, p, chain, n - 1);
      SetupsDoneLater(log, more, p, p, chain, n - 1);
      assert more[p] == log[p];
    }
  }

  lemma StillJustified(w: World, log: seq<Event>, more: seq<Event>, k: nat)
    requires k < |log| && log <= more && Justified(w, log, k)
    ensures Justified(w, more, k)
  {
    hide SetupsDone, Running, ItemOf, SetupStatus, CountsAs;
    assert more[k] == log[k] && more[..k] == log[..k];
    match log[k]
    case CaseStarted(chain) =>
      if |chain| > 1 { SetupsDoneLater(log, more, k, k, chain[..|chain| - 1], chain[|chain| - 1].entry); }
    case SetupReturned(chain, n, _) => SetupsDoneLater(log, more, k, k, chain, n);
    case ScriptReturned(chain, _) => SetupsDoneLater(log, more, k, k, chain, |ItemOf(w, chain).setup|);
  }

  lemma GoodLogAppend(w: World, log: seq<Event>, e: Event)
    requires GoodLog(w, log) && Justified(w, log + [e], |log|)
    ensures GoodLog(w, log + [e])
  {
    hide Justified;
    forall k | 0 <= k < |log + [e]| ensures Justified(w, log + [e], k) {
      if k < |log| { StillJustified(w, log, log + [e], k); }
    }
  }

  lemma AppendStart(w: World, log: seq<Event>, chain: seq<Frame>)
    requires GoodLog(w, log) && Running(w, chain) && TurnHasCome(log, |log|, chain)
    ensures GoodLog(w, log + [CaseStarted(chain)])
  {
    hide SetupsDone, Running, ItemOf, GoodLog;
    var more := log + [CaseStarted(chain)];
    if |chain| > 1 {
      SetupsDoneLater(log, more, |log|, |log|, chain[..|chain| - 1], chain[|chain| - 1].entry);
    }
    GoodLogAppend(w, log, CaseStarted(chain));
  }

  lemma AppendSetup(w: World, log: seq<Event>, chain: seq<Frame>, n: nat, status: int)
    requires GoodLog(w, log) && Running(w, chain) && n < |ItemOf(w, chain).setup| && SetupsDone(log, |log|, chain, n)
    requires SetupStatus(w, log, chain, n, status)
    ensures var more := log + [SetupReturned(chain, n, status)];
            GoodLog(w, more) && (status == 0 ==> SetupsDone(more, |more|, chain, n + 1))
  {
    hide GoodLog, Running, ItemOf, SetupStatus;
    var more := log + [SetupReturned(chain, n, status)];
    assert more[..|log|] == log;
    SetupsDoneLater(log, more, |log|, |log|, chain, n);
    assert more[|log|] == SetupReturned(chain, n, status);
    GoodLogAppend(w, log, SetupReturned(chain, n, status));
  }

  lemma AppendScript(w: World, log: seq<Event>, chain: seq<Frame>, status: int)
    requires GoodLog(w, log) && Running(w, chain) && SetupsDone(log, |log|, chain, |ItemOf(w, chain).setup|)
    requires CountsAs(w.spawn(log), status)
    ensures GoodLog(w, log + [ScriptReturned(chain, status)])
  {
    hide GoodLog, Running, ItemOf, SetupsDone, CountsAs;
    var more := log + [ScriptReturned(chain, status)];
    assert more[..|log|] == log;
    SetupsDoneLater(log, more, |log|, |log|, chain, |ItemOf(w, chain).setup|);
    GoodLogAppend(w, log, ScriptReturned(chain, status));
  }

  /** Everything `log` has over `before` happened in this run or in runs it started. */
  ghost predicate Below(before: seq<Event>, log: seq<Event>, chain: seq<Frame>) {
    before <= log && forall k :: |before| <= k < |log| ==> chain <= log[k].chain
  }

  // ---------------------------------------------------------------- the run

  method RunCase(w: World, chain: seq<Frame>, before: seq<Event>) returns (status: int, log: seq<Event>)
    requires !Cyclic(ById(w.items)) && GoodLog(w, before)
    requires chain != [] && Walk(ById(w.items), Ids(chain)) && TurnHasCome(before, |before|, chain)
    ensures GoodLog(w, log) && Below(before, log, chain)
    ensures CaseReturned(w, log, |before|, chain, status)
    ensures status == 0 ==> |log| > |before| && log[|log| - 1] == ScriptReturned(chain, 0)
    decreases ById(w.items).Keys - Above(chain), 1
  {
    hide ById, Cyclic, Walk, GoodLog, SetupsDone, TurnHasCome, OneCase;
    log := before;
    var found := FindCase(w.items, chain[|chain| - 1].id);
    if found.None? { return 1, log; }
    var item := found.value;
    AcyclicWalkIsDistinct(ById(w.items), Ids(chain));
    AppendStart(w, log, chain);
    log := log + [CaseStarted(chain)];
    if item.script == "" || !item.scriptExists { return 1, log; }
    status, log := RunSetups(w, chain, log);
    assert log[|before|] == CaseStarted(chain);
    if status != 0 { return; }
    status := w.spawn(log).Status();
    AppendScript(w, log, chain, status);
    log := log + [ScriptReturned(chain, status)];
  }

  method RunSetups(w: World, chain: seq<Frame>, before: seq<Event>) returns (status: int, log: seq<Event>)
    requires !Cyclic(ById(w.items)) && GoodLog(w, before) && Running(w, chain)
    requires before != [] && before[|before| - 1] == CaseStarted(chain)
    ensures GoodLog(w, log) && Below(before, log, chain)
    ensures status != 0 ==> |log| > |before| && var e := log[|log| - 1]; e.SetupReturned? && e.chain == chain && e.status == status
    ensures status == 0 ==> SetupsDone(log, |log|, chain, |ItemOf(w, chain).setup|)
    decreases ById(w.items).Keys - Above(chain), 0, 1
  {
    hide ById, Cyclic, Walk, GoodLog, SetupReturns;
    log, status := before, 0;
    var setup := ById(w.items)[chain[|chain| - 1].id].setup;
    for n := 0 to |setup|
      invariant GoodLog(w, log) && Below(before, log, chain)
      invariant status == 0 && SetupsDone(log, |log|, chain, n)
      invariant log != [] && log[|log| - 1] == TurnOf(chain, n)
    {
      ghost var p := |log|;
      status, log := RunSetup(w, chain, n, log);
      assert log[p - 1] == TurnOf(chain, n);
      AppendSetup(w, log, chain, n, status);
      log := log + [SetupReturned(chain, n, status)];
      if status != 0 { return; }
    }
  }

  method RunSetup(w: World, chain: seq<Frame>, n: nat, before: seq<Event>) returns (status: int, log: seq<Event>)
    requires !Cyclic(ById(w.items)) && GoodLog(w, before) && Running(w, chain)
    requires n < |ItemOf(w, chain).setup| && SetupsDone(before, |before|, chain, n)
    ensures GoodLog(w, log) && Below(before, log, chain) && SetupsDone(log, |log|, chain, n)
    ensures SetupReturns(w, log, |before|, chain, n, status)
    decreases ById(w.items).Keys - Above(chain), 0, 0
  {
    hide ById, Cyclic, Walk, GoodLog, SetupsDone, ParseEntry, TurnHasCome, CaseReturned;
    log := before;
    var entry := ById(w.items)[chain[|chain| - 1].id].setup[n];
    var spec := ParseEntry(entry);
    var known := if spec.kind == Case then spec.target in ById(w.items) else spec.target in w.scripts;
    assert log[..|before|] == log;
    if !known { return 1, log; }
    if spec.kind == Node || w.spawn(log).SpawnError? { return w.spawn(log).Status(), log; }
    var nested := chain + [Frame(n, spec.target)];
    NestedMayStart(w, chain, n, spec.target, log);
    status, log := RunCase(w, nested, log);
    assert log[..|before|] == before;
    SetupsDoneLater(before, log, |before|, |log|, chain, n);
  }

  lemma {:induction false} NestedMayStart(w: World, chain: seq<Frame>, n: nat, target: string, log: seq<Event>)
    requires Running(w, chain) && n < |ItemOf(w, chain).setup| && Names(ItemOf(w, chain).setup[n], target)
    requires SetupsDone(log, |log|, chain, n)
    ensures var nested := chain + [Frame(n, target)];
            Walk(ById(w.items), Ids(nested)) && TurnHasCome(log, |log|, nested)
            && ById(w.items).Keys - Above(nested) < ById(w.items).Keys - Above(chain)
  {
    hide ById, Names, SetupsDone;
    var nested, id := chain + [Frame(n, target)], chain[|chain| - 1].id;
    assert Edge(ById(w.items), id, target);
    WalkExtended(ById(w.items), Ids(chain), target);
    assert Ids(nested) == Ids(chain) + [target];
    assert nested[..|chain|] == chain;
    AboveNested(chain, Frame(n, target));
    assert id !in Above(chain) by {
      assert forall i :: 0 <= i < |chain| - 1 ==> Ids(chain)[i] != Ids(chain)[|chain| - 1];
    }
  }

  lemma AboveNested(chain: seq<Frame>, f: Frame)
    requires chain != []
    ensures Above(chain + [f]) == Above(chain) + {chain[|chain| - 1].id}
  {
    var nested := chain + [f];
    forall x ensures x in Above(nested) <==> x in Above(chain) + {chain[|chain| - 1].id} {
      if x in Above(nested) {
        var i :| 0 <= i < |nested| - 1 && nested[i].id == x;
        assert nested[i] == chain[i];
      }
      if x in Above(chain) {
        var i :| 0 <= i < |chain| - 1 && chain[i].id == x;
        assert nested[i].id == x;
      }
      assert nested[|chain| - 1].id == chain[|chain| - 1].id;
    }
  }
}

/** The reconnect loop of the QQ gateway client (qq_official_api/api.py, `connect_gateway`), run
    against an arbitrary sequence of connection attempts; the properties are about its log. */
module QqGateway {
  import opened Common

  /** The messages of a connection. `Malformed` makes the handler raise, as a failing send does. */
  datatype Message =
    | Unparsable
    | Malformed
    | Hello(sendRaises: bool)
    | Dispatch(seqNo: Option<int>, kind: Kind)
    | Reconnect
    | InvalidSession(canResume: bool)
    | Ignored

  datatype Kind = Ready(sessionId: string) | Resumed | Other

  /** How one round of the loop goes: the connection yields `messages` and then ends or raises. */
  datatype Attempt =
    | UrlFails(rateLimited: bool)
    | ConnectFails
    | Connects(messages: seq<Message>, raises: bool, closeCode: Option<int>)

  datatype Event =
    | Attempted
    | Identify
    | Resume(sessionId: string, seqNo: int)
    | GotSeq(seqNo: int)
    | GotReady(sessionId: string)
    | GotResumed
    | Invalidated
    | Slept(seconds: nat)
    | Reported

  datatype Outcome = StillRunning | ClosedNormally | Banned | Exhausted

  const MAX_RECONNECT_ATTEMPTS := 100
  const BACKOFF_DELAYS := [1, 2, 5, 10, 30, 60]
  const RATE_LIMIT_DELAY := 60

  // ---------------------------------------------------------------- reading the log

  /** The session id of the latest READY, or "" if there was none since the last invalidation. */
  function LatestSession(log: seq<Event>): string {
    if log == [] then ""
    else
      match log[|log| - 1]
      case GotReady(id) => id
      case Invalidated => ""
      case _ => LatestSession(log[..|log| - 1])
  }

  /** The sequence number of the latest dispatch that had one since the last invalidation, or 0. */
  function LatestSeq(log: seq<Event>): int {
    if log == [] then 0
    else
      match log[|log| - 1]
      case GotSeq(n) => n
      case Invalidated => 0
      case _ => LatestSeq(log[..|log| - 1])
  }

  /** Connection attempts since the last READY or RESUMED. */
  function AttemptsSince(log: seq<Event>): nat {
    if log == [] then 0
    else
      match log[|log| - 1]
      case GotReady(_) => 0
      case GotResumed => 0
      case Attempted => AttemptsSince(log[..|log| - 1]) + 1
      case _ => AttemptsSince(log[..|log| - 1])
  }

  predicate EverReady(log: seq<Event>) { exists i :: 0 <= i < |log| && (log[i].GotReady? || log[i].GotResumed?) }

  /** `on_error` was called. */
  predicate Told(log: seq<Event>) { Reported in log }

  /** Failed rounds since the last READY or RESUMED; the round that got it has failed in the end, too. */
  function Failures(log: seq<Event>): nat { AttemptsSince(log) + if EverReady(log) then 1 else 0 }

  function Backoff(failures: nat): nat
    requires failures > 0
  {
    BACKOFF_DELAYS[if failures - 1 < |BACKOFF_DELAYS| - 1 then failures - 1 else |BACKOFF_DELAYS| - 1]
  }

  /** A Resume carries the current session and sequence number, an Identify is sent when there is none,
      and the client waits as long as its failures in a row demand. */
  ghost predicate ActsRight(before: seq<Event>, e: Event) {
    (e.Resume? ==> e.sessionId == LatestSession(before) != "" && e.seqNo == LatestSeq(before) > 0)
    && (e.Identify? ==> LatestSession(before) == "" || LatestSeq(before) <= 0)
    && (e.Slept? ==> Failures(before) > 0 && (e.seconds == RATE_LIMIT_DELAY || e.seconds == Backoff(Failures(before))))
  }

  ghost predicate GoodLog(log: seq<Event>) {
    log == [] || (GoodLog(log[..|log| - 1]) && ActsRight(log[..|log| - 1], log[|log| - 1]) && AttemptsSince(log) <= MAX_RECONNECT_ATTEMPTS + 1)
  }

  lemma {:induction false} Append(log: seq<Event>, e: Event)
    ensures (log + [e])[..|log|] == log
    ensures LatestSession(log + [e]) == match e { case GotReady(id) => id case Invalidated => "" case _ => LatestSession(log) }
    ensures LatestSeq(log + [e]) == match e { case GotSeq(n) => n case Invalidated => 0 case _ => LatestSeq(log) }
    ensures AttemptsSince(log + [e]) ==
            match e { case GotReady(_) => 0 case GotResumed => 0 case Attempted => AttemptsSince(log) + 1 case _ => AttemptsSince(log) }
    ensures EverReady(log + [e]) <==> EverReady(log) || e.GotReady? || e.GotResumed?
    ensures (Told(log + [e]) <==> Told(log) || e.Reported?) && SeenIn(log + [e]) == SeenIn(log) + SeenAt(e)
  {
    var all := log + [e];
    assert all[..|log|] == log && all[|log|] == e;
    if EverReady(log) {
      var i :| 0 <= i < |log| && (log[i].GotReady? || log[i].GotResumed?);
      assert all[i] == log[i];
    }
  }

  lemma GoodAppend(log: seq<Event>, e: Event)
    requires GoodLog(log) && ActsRight(log, e) && (e.Attempted? ==> AttemptsSince(log) <= MAX_RECONNECT_ATTEMPTS)
    ensures GoodLog(log + [e])
  {
    Append(log, e);
    if log != [] { assert AttemptsSince(log) <= MAX_RECONNECT_ATTEMPTS + 1; }
  }

  /** The property of a good log at any place in it. */
  lemma {:induction false} GoodEverywhere(log: seq<Event>, i: nat)
    requires GoodLog(log) && i < |log|
    ensures ActsRight(log[..i], log[i]) && AttemptsSince(log[..i + 1]) <= MAX_RECONNECT_ATTEMPTS + 1
    decreases |log|
  {
    var front := log[..|log| - 1];
    if i == |log| - 1 {
      assert log[..i + 1] == log;
    } else {
      GoodEverywhere(front, i);
      assert front[..i] == log[..i] && front[..i + 1] == log[..i + 1];
    }
  }

  /** After an invalidation nothing is resumed until a new READY. */
  lemma NoResumeAfterInvalidation(log: seq<Event>, i: nat, j: nat)
    requires GoodLog(log) && i < j < |log| && log[i].Invalidated?
    requires forall k :: i < k < j ==> !log[k].GotReady?
    ensures !log[j].Resume?
  {
    GoodEverywhere(log, j);
    NoSessionSince(log[..j], i);
  }

  lemma {:induction false} NoSessionSince(log: seq<Event>, i: nat)
    requires i < |log| && log[i].Invalidated? && forall k :: i < k < |log| ==> !log[k].GotReady?
    ensures LatestSession(log) == ""
  {
    var front := log[..|log| - 1];
    if i < |log| - 1 {
      assert front[i] == log[i] && forall k :: i < k < |front| ==> front[k] == log[k];
      NoSessionSince(front, i);
    }
  }

  // ---------------------------------------------------------------- what the connections deliver

  /** What a log shows of the connections, whatever the client answered. */
  datatype Seen = SeenAttempt | SeenGreeting | SeenSeq(n: int) | SeenReady(sessionId: string) | SeenResumed | SeenInvalid

  function SeenIn(log: seq<Event>): seq<Seen> {
    if log == [] then [] else SeenIn(log[..|log| - 1]) + SeenAt(log[|log| - 1])
  }

  function SeenAt(e: Event): seq<Seen> {
    match e
    case Attempted => [SeenAttempt]
    case Identify => [SeenGreeting]
    case Resume(_, _) => [SeenGreeting]
    case GotSeq(n) => [SeenSeq(n)]
    case GotReady(id) => [SeenReady(id)]
    case GotResumed => [SeenResumed]
    case Invalidated => [SeenInvalid]
    case _ => []
  }

  /** What the messages of one connection make the client see, up to the one that ends or breaks it. */
  ghost function Handled(messages: seq<Message>): seq<Seen> {
    if messages == [] then []
    else
      match messages[0]
      case Unparsable => Handled(messages[1..])
      case Ignored => Handled(messages[1..])
      case Malformed => []
      case Reconnect => []
      case InvalidSession(canResume) => if canResume then [] else [SeenInvalid]
      case Hello(sendRaises) => [SeenGreeting] + if sendRaises then [] else Handled(messages[1..])
      case Dispatch(n, kind) => SeenOf(n, kind) + Handled(messages[1..])
  }

  ghost function SeenOf(n: Option<int>, kind: Kind): seq<Seen> {
    (if n.Some? then [SeenSeq(n.value)] else [])
    + match kind { case Ready(id) => [SeenReady(id)] case Resumed => [SeenResumed] case Other => [] }
  }

  /** Whether the connection ends in an exception. */
  predicate Breaks(messages: seq<Message>, raises: bool) {
    if messages == [] then raises
    else
      match messages[0]
      case Malformed => true
      case Hello(sendRaises) => sendRaises || Breaks(messages[1..], raises)
      case Reconnect => false
      case InvalidSession(_) => false
      case _ => Breaks(messages[1..], raises)
  }

  predicate ClosedWith(a: Attempt, codes: set<int>) {
    a.Connects? && !Breaks(a.messages, a.raises) && a.closeCode.Some? && a.closeCode.value in codes
  }

  const INVALIDATING := {4006, 4007, 4009} + (set c: int | 4900 <= c <= 4913)
  const BANNING := {4914, 4915}
  const RATE_LIMITED := {4008}
  const NORMAL := {1000}

  ghost function SeenInAttempt(a: Attempt): seq<Seen> {
    [SeenAttempt] + (if a.Connects? then Handled(a.messages) else []) + if ClosedWith(a, INVALIDATING) then [SeenInvalid] else []
  }

  ghost function SeenInAll(script: seq<Attempt>): seq<Seen> {
    if script == [] then [] else SeenInAll(script[..|script| - 1]) + SeenInAttempt(script[|script| - 1])
  }

  /** Failures after which the loop only counts, sleeps and goes on. */
  predicate Quiet(a: Attempt) { !a.Connects? || ClosedWith(a, RATE_LIMITED) }

  /** How long the client sleeps after a failed attempt. */
  function Delay(a: Attempt, failures: nat): nat
    requires failures > 0
  {
    if (a.UrlFails? && a.rateLimited) || ClosedWith(a, RATE_LIMITED) then RATE_LIMIT_DELAY else Backoff(failures)
  }

  predicate Terminal(a: Attempt) { ClosedWith(a, BANNING) || ClosedWith(a, NORMAL) }

  // ---------------------------------------------------------------- the loops

  /** The local variables agree with the log. */
  ghost predicate Tracks(log: seq<Event>, sessionId: string, lastSeq: int) {
    GoodLog(log) && sessionId == LatestSession(log) && lastSeq == LatestSeq(log)
  }

  /** Inside a round, before its failure is counted. */
  ghost predicate Counts(log: seq<Event>, attempts: nat) { attempts + 1 == Failures(log) }

  method Listen(messages: seq<Message>, raises: bool, sessionId0: string, lastSeq0: int, attempts0: nat, log0: seq<Event>)
    returns (sessionId: string, lastSeq: int, attempts: nat, log: seq<Event>, broke: bool)
    requires Tracks(log0, sessionId0, lastSeq0) && Counts(log0, attempts0)
    ensures Tracks(log, sessionId, lastSeq) && Counts(log, attempts) && attempts <= attempts0
    ensures SeenIn(log) == SeenIn(log0) + Handled(messages)
    ensures broke == Breaks(messages, raises) && Told(log) == Told(log0)
  {
    hide GoodLog, LatestSession, LatestSeq, AttemptsSince, EverReady, SeenIn, Tracks, Counts, Told;
    sessionId, lastSeq, attempts, log := sessionId0, lastSeq0, attempts0, log0;
    var i := 0;
    assert messages[0..] == messages;
    while i < |messages|
      invariant 0 <= i <= |messages| && attempts <= attempts0
      invariant Tracks(log, sessionId, lastSeq) && Counts(log, attempts)
      invariant SeenIn(log) + Handled(messages[i..]) == SeenIn(log0) + Handled(messages)
      invariant Breaks(messages[i..], raises) == Breaks(messages, raises) && Told(log) == Told(log0)
    {
      var m := messages[i];
      assert messages[i..][0] == m && messages[i..][1..] == messages[i + 1..];
      match m {
        case Unparsable =>
        case Ignored =>
        case Malformed => return sessionId, lastSeq, attempts, log, true;
        case Reconnect => return sessionId, lastSeq, attempts, log, false;
        case InvalidSession(canResume) =>
          if !canResume {
            sessionId, lastSeq, log := Invalidate(sessionId, lastSeq, attempts, log);
          }
          return sessionId, lastSeq, attempts, log, false;
        case Hello(sendRaises) =>
          log := Greet(sessionId, lastSeq, attempts, log);
          if sendRaises { return sessionId, lastSeq, attempts, log, true; }
        case Dispatch(seqNo, kind) =>
          sessionId, lastSeq, attempts, log := HandleDispatch(seqNo, kind, sessionId, lastSeq, attempts, log);
      }
      i := i + 1;
    }
    broke := raises;
  }

  method Invalidate(ghost sessionId0: string, ghost lastSeq0: int, ghost attempts: nat, log0: seq<Event>)
    returns (sessionId: string, lastSeq: int, log: seq<Event>)
    requires Tracks(log0, sessionId0, lastSeq0) && Counts(log0, attempts)
    ensures Tracks(log, sessionId, lastSeq) && Counts(log, attempts)
    ensures SeenIn(log) == SeenIn(log0) + [SeenInvalid] && Told(log) == Told(log0)
  {
    hide AttemptsSince, EverReady, GoodLog, LatestSession, LatestSeq, Told;
    Append(log0, Invalidated);
    GoodAppend(log0, Invalidated);
    sessionId, lastSeq, log := "", 0, log0 + [Invalidated];
  }

  method Greet(sessionId: string, lastSeq: int, ghost attempts: nat, log0: seq<Event>) returns (log: seq<Event>)
    requires Tracks(log0, sessionId, lastSeq) && Counts(log0, attempts)
    ensures Tracks(log, sessionId, lastSeq) && Counts(log, attempts)
    ensures SeenIn(log) == SeenIn(log0) + [SeenGreeting] && Told(log) == Told(log0)
  {
    hide AttemptsSince, EverReady, GoodLog, LatestSession, LatestSeq, Told;
    var greeting := if sessionId != "" && lastSeq > 0 then Resume(sessionId, lastSeq) else Identify;
    Append(log0, greeting);
    GoodAppend(log0, greeting);
    log := log0 + [greeting];
  }

  method HandleDispatch(seqNo: Option<int>, kind: Kind, sessionId0: string, lastSeq0: int, attempts0: nat, log0: seq<Event>)
    returns (sessionId: string, lastSeq: int, attempts: nat, log: seq<Event>)
    requires Tracks(log0, sessionId0, lastSeq0) && Counts(log0, attempts0)
    ensures Tracks(log, sessionId, lastSeq) && Counts(log, attempts) && attempts <= attempts0
    ensures SeenIn(log) == SeenIn(log0) + SeenOf(seqNo, kind) && Told(log) == Told(log0)
  {
    hide AttemptsSince, EverReady, GoodLog, LatestSession, LatestSeq, Told, SeenIn;
    sessionId, lastSeq, attempts, log := sessionId0, lastSeq0, attempts0, log0;
    if seqNo.Some? {
      Append(log, GotSeq(seqNo.value));
      GoodAppend(log, GotSeq(seqNo.value));
      lastSeq, log := seqNo.value, log + [GotSeq(seqNo.value)];
    }
    ghost var first := if seqNo.Some? then [SeenSeq(seqNo.value)] else [];
    assert SeenIn(log) == SeenIn(log0) + first;
    match kind {
      case Ready(id) =>
        Append(log, GotReady(id));
        GoodAppend(log, GotReady(id));
        sessionId, attempts, log := id, 0, log + [GotReady(id)];
      case Resumed =>
        Append(log, GotResumed);
        GoodAppend(log, GotResumed);
        attempts, log := 0, log + [GotResumed];
      case Other =>
    }
    ghost var second := match kind { case Ready(id) => [SeenReady(id)] case Resumed => [SeenResumed] case Other => [] };
    assert SeenIn(log0) + first + second == SeenIn(log0) + (first + second);
  }

  /** Count the failure and sleep. */
  method Wait(attempts0: nat, rateLimited: bool, sessionId: string, lastSeq: int, log0: seq<Event>) returns (attempts: nat, log: seq<Event>)
    requires Tracks(log0, sessionId, lastSeq) && Counts(log0, attempts0)
    ensures attempts == attempts0 + 1 == Failures(log) && Tracks(log, sessionId, lastSeq)
    ensures SeenIn(log) == SeenIn(log0) && log != []
    ensures log[|log| - 1] == Slept(if rateLimited then RATE_LIMIT_DELAY else Backoff(attempts))
    ensures Told(log) == Told(log0)
  {
    hide AttemptsSince, EverReady, GoodLog, LatestSession, LatestSeq, Told;
    attempts := attempts0 + 1;
    var index := if attempts - 1 < |BACKOFF_DELAYS| - 1 then attempts - 1 else |BACKOFF_DELAYS| - 1;
    var delay := if rateLimited then RATE_LIMIT_DELAY else BACKOFF_DELAYS[index];
    Append(log0, Slept(delay));
    GoodAppend(log0, Slept(delay));
    log := log0 + [Slept(delay)];
  }

  method Report(sessionId: string, lastSeq: int, log0: seq<Event>) returns (log: seq<Event>)
    requires Tracks(log0, sessionId, lastSeq)
    ensures GoodLog(log) && Failures(log) == Failures(log0)
    ensures SeenIn(log) == SeenIn(log0) && Told(log)
  {
    hide AttemptsSince, EverReady, GoodLog, LatestSession, LatestSeq, Told;
    Append(log0, Reported);
    GoodAppend(log0, Reported);
    log := log0 + [Reported];
  }

  /** The log of a run over the attempts `done`. */
  ghost predicate RunSoFar(log: seq<Event>, done: seq<Attempt>) {
    SeenIn(log) == SeenInAll(done) && GoodLog(log)
  }

  // ---------------------------------------------------------------- how a run ends

  /** The connection of this attempt got a READY or a RESUMED. */
  ghost predicate GetsReady(a: Attempt) { a.Connects? && AnyReady(Handled(a.messages)) }

  ghost predicate AnyReady(seen: seq<Seen>) { exists i :: 0 <= i < |seen| && (seen[i].SeenReady? || seen[i].SeenResumed?) }

  /** The failures in a row after these attempts. */
  ghost function FailuresAfter(done: seq<Attempt>): nat {
    if done == [] then 0
    else if GetsReady(done[|done| - 1]) then 1
    else FailuresAfter(done[..|done| - 1]) + 1
  }

  /** Attempt number `n` is the last one: it is terminal, or one failure too many. */
  ghost predicate Over(script: seq<Attempt>, n: nat)
    requires n <= |script|
  {
    n > 0 && (Terminal(script[n - 1]) || FailuresAfter(script[..n]) > MAX_RECONNECT_ATTEMPTS)
  }

  ghost function EndFrom(script: seq<Attempt>, n: nat): nat
    requires n <= |script|
    decreases |script| - n
  {
    if n == |script| || Over(script, n) then n else EndFrom(script, n + 1)
  }

  /** The number of attempts the run makes, and how it ends, from the attempts alone. */
  ghost function EndOf(script: seq<Attempt>): nat { EndFrom(script, 0) }

  ghost function OutcomeAt(script: seq<Attempt>, n: nat): Outcome
    requires n <= |script|
  {
    if !Over(script, n) then StillRunning
    else if ClosedWith(script[n - 1], BANNING) then Banned
    else if ClosedWith(script[n - 1], NORMAL) then ClosedNormally
    else Exhausted
  }

  /** The caller is told of a ban, and of attempts that ran out unless the last failure was a quiet one. */
  ghost predicate CallerTold(script: seq<Attempt>, n: nat)
    requires n <= |script|
  {
    var outcome := OutcomeAt(script, n);
    outcome == Banned || (outcome == Exhausted && !Quiet(script[n - 1]))
  }

  lemma {:induction false} EndIsFirst(script: seq<Attempt>, n: nat)
    requires n <= |script|
    ensures var end := EndFrom(script, n);
            n <= end <= |script| && (end < |script| ==> Over(script, end)) && forall i :: n <= i < end ==> !Over(script, i)
    decreases |script| - n
  {
    hide Over;
    if n < |script| && !Over(script, n) { EndIsFirst(script, n + 1); }
  }

  ghost predicate NoneReady(script: seq<Attempt>, from: nat, to: nat)
    requires to <= |script|
  {
    forall i :: from <= i < to ==> !GetsReady(script[i])
  }

  /** One failure too many is 101 attempts of which the last 100 got neither a READY nor a RESUMED. */
  lemma {:induction false} FailuresInARow(done: seq<Attempt>, m: nat)
    ensures FailuresAfter(done) > m <==> |done| > m && NoneReady(done, |done| - m, |done|)
  {
    hide GetsReady;
    if done != [] && m > 0 {
      var front, last := done[..|done| - 1], done[|done| - 1];
      FailuresInARow(front, m - 1);
      if |done| > m {
        assert NoneReady(done, |done| - m, |done|) <==> NoneReady(front, |done| - m, |front|) && !GetsReady(last) by {
          assert forall i :: 0 <= i < |front| ==> front[i] == done[i];
        }
      }
    }
  }

  /** The run ends without a word to the caller exactly if some attempt is quiet, comes after 100 others
      and is not terminal, it and the 99 before it got neither a READY nor a RESUMED, and no earlier
      attempt ended the run. */
  lemma UntoldExactly(script: seq<Attempt>)
    ensures var n := EndOf(script);
            n <= |script| && (OutcomeAt(script, n) == Exhausted && !CallerTold(script, n) <==>
              n > 100 && (script[n - 1].UrlFails? || script[n - 1].ConnectFails? || ClosedWith(script[n - 1], {4008}))
              && NoneReady(script, n - 100, n))
  {
    hide GetsReady;
    EndIsFirst(script, 0);
    var n := EndOf(script);
    FailuresInARow(script[..n], MAX_RECONNECT_ATTEMPTS);
    assert forall i :: 0 <= i < n ==> script[..n][i] == script[i];
    assert n > MAX_RECONNECT_ATTEMPTS ==>
      (NoneReady(script[..n], n - MAX_RECONNECT_ATTEMPTS, n) <==> NoneReady(script, n - MAX_RECONNECT_ATTEMPTS, n));
  }

  /** 101 look-ups of the gateway that fail: the run ends after them, and nobody is told. */
  lemma FailedLookUpsGoUntold(script: seq<Attempt>)
    requires |script| > 100 && forall i :: 0 <= i <= 100 ==> script[i].UrlFails?
    ensures EndOf(script) == 101 && OutcomeAt(script, 101) == Exhausted && !CallerTold(script, 101)
  {
    hide Handled, AnyReady;
    EndIsFirst(script, 0);
    var last := MAX_RECONNECT_ATTEMPTS + 1;
    forall i: nat | i <= last
      ensures Over(script, i) <==> i == last
    {
      FailuresInARow(script[..i], MAX_RECONNECT_ATTEMPTS);
    }
    assert Over(script, last);
  }

  /** What a log shows of READY and attempts is all that counts. */
  ghost function Since(seen: seq<Seen>): nat {
    if seen == [] then 0
    else
      match seen[|seen| - 1]
      case SeenReady(_) => 0
      case SeenResumed => 0
      case SeenAttempt => Since(seen[..|seen| - 1]) + 1
      case _ => Since(seen[..|seen| - 1])
  }

  lemma {:induction false} SinceTogether(a: seq<Seen>, b: seq<Seen>)
    ensures Since(a + b) == if AnyReady(b) then Since(b) else Since(a) + Since(b)
    ensures AnyReady(a + b) <==> AnyReady(a) || AnyReady(b)
    decreases |b|
  {
    AnyReadyTogether(a, b);
    if b == [] {
      assert a + b == a;
    } else {
      var front, last := b[..|b| - 1], b[|b| - 1];
      assert (a + b)[..|a + b| - 1] == a + front;
      SinceTogether(a, front);
      AnyReadyTogether(front, [last]);
      assert front + [last] == b && (AnyReady([last]) <==> [last][0].SeenReady? || [last][0].SeenResumed?);
    }
  }

  lemma AnyReadyTogether(a: seq<Seen>, b: seq<Seen>)
    ensures AnyReady(a + b) <==> AnyReady(a) || AnyReady(b)
  {
    if i :| 0 <= i < |a| && (a[i].SeenReady? || a[i].SeenResumed?) { assert (a + b)[i] == a[i]; }
    if i :| 0 <= i < |b| && (b[i].SeenReady? || b[i].SeenResumed?) { assert (a + b)[|a| + i] == b[i]; }
  }

  lemma {:induction false} FailuresSeen(log: seq<Event>)
    ensures AttemptsSince(log) == Since(SeenIn(log)) && (EverReady(log) <==> AnyReady(SeenIn(log)))
  {
    hide AttemptsSince, EverReady, Since, AnyReady;
    if log == [] {
      NothingSeen();
    } else {
      var front, e := log[..|log| - 1], log[|log| - 1];
      FailuresSeen(front);
      Append(front, e);
      assert front + [e] == log;
      SinceTogether(SeenIn(front), SeenAt(e));
      OneSeen(SeenAt(e));
    }
  }

  lemma NothingSeen()
    ensures AttemptsSince([]) == Since([]) == 0 && !EverReady([]) && !AnyReady([])
  {
  }

  lemma OneSeen(seen: seq<Seen>)
    requires |seen| <= 1
    ensures AnyReady(seen) <==> seen != [] && (seen[0].SeenReady? || seen[0].SeenResumed?)
    ensures Since(seen) == if seen == [SeenAttempt] then 1 else 0
  {
    assert seen != [] ==> seen[..0] == [];
  }

  lemma {:induction false} NoAttemptHandled(messages: seq<Message>)
    ensures Since(Handled(messages)) == 0
  {
    if messages != [] {
      var rest := messages[1..];
      NoAttemptHandled(rest);
      match messages[0] {
        case Hello(sendRaises) =>
          OneSeen([SeenGreeting]);
          SinceTogether([SeenGreeting], Handled(rest));
        case Dispatch(n, kind) =>
          NoAttemptInDispatch(n, kind);
          SinceTogether(SeenOf(n, kind), Handled(rest));
        case InvalidSession(_) => OneSeen([SeenInvalid]);
        case _ =>
      }
    }
  }

  lemma NoAttemptInDispatch(n: Option<int>, kind: Kind)
    ensures Since(SeenOf(n, kind)) == 0
  {
    var a := if n.Some? then [SeenSeq(n.value)] else [];
    var b := match kind { case Ready(id) => [SeenReady(id)] case Resumed => [SeenResumed] case Other => [] };
    OneSeen(a);
    OneSeen(b);
    SinceTogether(a, b);
  }

  lemma {:induction false} FailuresInAll(done: seq<Attempt>)
    ensures var seen := SeenInAll(done); FailuresAfter(done) == Since(seen) + if AnyReady(seen) then 1 else 0
  {
    if done != [] {
      hide Handled, ClosedWith, AnyReady, Since, SeenInAttempt;
      var front, a := done[..|done| - 1], done[|done| - 1];
      FailuresInAll(front);
      SinceTogether(SeenInAll(front), SeenInAttempt(a));
      SinceInAttempt(a);
    } else {
      OneSeen([]);
    }
  }

  lemma SinceInAttempt(a: Attempt)
    ensures AnyReady(SeenInAttempt(a)) <==> GetsReady(a)
    ensures Since(SeenInAttempt(a)) == if GetsReady(a) then 0 else 1
  {
    hide Handled, ClosedWith, AnyReady, Since;
    var handled := if a.Connects? then Handled(a.messages) else [];
    var end := if ClosedWith(a, INVALIDATING) then [SeenInvalid] else [];
    OneSeen([]);
    OneSeen(end);
    OneSeen([SeenAttempt]);
    if a.Connects? { NoAttemptHandled(a.messages); }
    SinceTogether([SeenAttempt], handled);
    SinceTogether([SeenAttempt] + handled, end);
  }

  /** The log counts the failures of the attempts it shows. */
  lemma FailuresOfRun(log: seq<Event>, done: seq<Attempt>)
    requires RunSoFar(log, done)
    ensures Failures(log) == FailuresAfter(done)
  {
    FailuresSeen(log);
    FailuresInAll(done);
  }

  // ---------------------------------------------------------------- the loop over the attempts

  /** The state at the head of the loop after the first `used` attempts. */
  ghost predicate Going(script: seq<Attempt>, used: nat, log: seq<Event>, attempts: nat, sessionId: string, lastSeq: int)
    requires used <= |script|
  {
    Tracks(log, sessionId, lastSeq) && RunSoFar(log, script[..used]) && !Told(log) && EndOf(script) == EndFrom(script, used)
    && attempts == FailuresAfter(script[..used]) <= MAX_RECONNECT_ATTEMPTS + 1
    && (used > 0 ==> log != [] && attempts > 0 && log[|log| - 1] == Slept(Delay(script[used - 1], attempts)))
    && (used > 0 ==> !Terminal(script[used - 1]))
    && (attempts == MAX_RECONNECT_ATTEMPTS + 1 ==> used > 0 && Quiet(script[used - 1]))
  }

  /** A run makes the attempts it should, ends as it should and tells the caller when it should; one that
      goes on has slept as its last failure demands. */
  ghost predicate EndsRight(script: seq<Attempt>, used: nat, log: seq<Event>, outcome: Outcome)
    requires used <= |script|
  {
    used == EndOf(script) && outcome == OutcomeAt(script, used) && (Told(log) <==> CallerTold(script, used))
    && (outcome == StillRunning && used > 0 ==> log != [] && Failures(log) > 0
                                                && log[|log| - 1] == Slept(Delay(script[used - 1], Failures(log))))
  }

  /** `connect_gateway`: its log is good and shows exactly what the attempts made so far delivered. */
  method ConnectGateway(script: seq<Attempt>) returns (log: seq<Event>, outcome: Outcome, used: nat)
    ensures used <= |script| && RunSoFar(log, script[..used]) && EndsRight(script, used, log, outcome)
  {
    hide Tracks, RunSoFar, EndsRight, Going;
    var sessionId, lastSeq := "", 0;
    var attempts: nat := 0;
    log, used := [], 0;
    GoingAtFirst(script);
    while attempts <= MAX_RECONNECT_ATTEMPTS && used < |script|
      invariant 0 <= used <= |script| && Going(script, used, log, attempts, sessionId, lastSeq)
      decreases |script| - used
    {
      GoingMeans(script, used, log, attempts, sessionId, lastSeq);
      var stopped;
      var a := script[used];
      sessionId, lastSeq, attempts, log, stopped := Round(a, script[..used], sessionId, lastSeq, attempts, log);
      assert script[..used + 1] == script[..used] + [a];
      used := used + 1;
      FailuresOfRun(log, script[..used]);
      if stopped.Some? {
        StopsRight(script, used, log, stopped.value);
        return log, stopped.value, used;
      }
      GoesOn(script, used, log, attempts, sessionId, lastSeq);
    }
    outcome := if attempts > MAX_RECONNECT_ATTEMPTS then Exhausted else StillRunning;
    RunsOutRight(script, used, log, attempts, sessionId, lastSeq, outcome);
  }

  lemma GoingAtFirst(script: seq<Attempt>)
    ensures Going(script, 0, [], 0, "", 0)
  {
    assert script[..0] == [];
  }

  lemma GoingMeans(script: seq<Attempt>, used: nat, log: seq<Event>, attempts: nat, sessionId: string, lastSeq: int)
    requires used < |script| && Going(script, used, log, attempts, sessionId, lastSeq) && attempts <= MAX_RECONNECT_ATTEMPTS
    ensures Tracks(log, sessionId, lastSeq) && RunSoFar(log, script[..used]) && attempts == Failures(log) && !Told(log)
    ensures EndOf(script) == EndFrom(script, used + 1)
  {
    hide Tracks, RunSoFar, Failures, Delay, Quiet, Terminal, FailuresAfter;
    FailuresOfRun(log, script[..used]);
  }

  lemma GoesOn(script: seq<Attempt>, used: nat, log: seq<Event>, attempts: nat, sessionId: string, lastSeq: int)
    requires 0 < used <= |script| && EndOf(script) == EndFrom(script, used) && !Terminal(script[used - 1])
    requires Tracks(log, sessionId, lastSeq) && RunSoFar(log, script[..used]) && !Told(log)
    requires attempts == FailuresAfter(script[..used]) <= MAX_RECONNECT_ATTEMPTS + 1
    requires log != [] && attempts > 0 && log[|log| - 1] == Slept(Delay(script[used - 1], attempts))
    requires attempts == MAX_RECONNECT_ATTEMPTS + 1 ==> Quiet(script[used - 1])
    ensures Going(script, used, log, attempts, sessionId, lastSeq)
  {
    hide Tracks, RunSoFar, Failures, Delay, Quiet, Terminal, FailuresAfter;
  }

  lemma StopsRight(script: seq<Attempt>, used: nat, log: seq<Event>, outcome: Outcome)
    requires 0 < used <= |script| && EndOf(script) == EndFrom(script, used) && outcome != StillRunning
    requires outcome == Exhausted ==> FailuresAfter(script[..used]) == MAX_RECONNECT_ATTEMPTS + 1 && !Quiet(script[used - 1])
    requires outcome == Banned <==> ClosedWith(script[used - 1], BANNING)
    requires outcome == ClosedNormally <==> ClosedWith(script[used - 1], NORMAL)
    requires Told(log) <==> outcome != ClosedNormally
    ensures EndsRight(script, used, log, outcome)
  {
    hide Failures, ClosedWith, Quiet, FailuresAfter;
  }

  lemma RunsOutRight(script: seq<Attempt>, used: nat, log: seq<Event>, attempts: nat, sessionId: string, lastSeq: int, outcome: Outcome)
    requires used <= |script| && Going(script, used, log, attempts, sessionId, lastSeq)
    requires attempts > MAX_RECONNECT_ATTEMPTS || used == |script|
    requires outcome == if attempts > MAX_RECONNECT_ATTEMPTS then Exhausted else StillRunning
    ensures RunSoFar(log, script[..used]) && EndsRight(script, used, log, outcome)
  {
    hide Failures, ClosedWith, Quiet, Delay, Tracks, RunSoFar, FailuresAfter;
    FailuresOfRun(log, script[..used]);
  }

  /** One round of the outer loop; `stopped` says whether it returned. */
  method Round(a: Attempt, ghost before: seq<Attempt>, sessionId0: string, lastSeq0: int, attempts0: nat, log0: seq<Event>)
    returns (sessionId: string, lastSeq: int, attempts: nat, log: seq<Event>, stopped: Option<Outcome>)
    requires Tracks(log0, sessionId0, lastSeq0) && attempts0 == Failures(log0) <= MAX_RECONNECT_ATTEMPTS && RunSoFar(log0, before)
    ensures RunSoFar(log, before + [a])
    ensures stopped.None? ==> Tracks(log, sessionId, lastSeq) && attempts == Failures(log) <= MAX_RECONNECT_ATTEMPTS + 1 && !Terminal(a)
    ensures stopped.None? ==> log != [] && attempts > 0 && log[|log| - 1] == Slept(Delay(a, attempts)) && Told(log) == Told(log0)
    ensures stopped.None? && attempts == MAX_RECONNECT_ATTEMPTS + 1 ==> Quiet(a)
    ensures stopped == Some(Exhausted) ==> Failures(log) == MAX_RECONNECT_ATTEMPTS + 1 && !Quiet(a) && Told(log)
    ensures stopped == Some(Banned) <==> ClosedWith(a, BANNING)
    ensures stopped == Some(Banned) ==> Told(log)
    ensures stopped == Some(ClosedNormally) <==> ClosedWith(a, NORMAL)
    ensures stopped == Some(ClosedNormally) ==> Told(log) == Told(log0)
    ensures stopped != Some(StillRunning)
  {
    hide GoodLog, LatestSession, LatestSeq, AttemptsSince, EverReady, SeenIn, Handled, SeenInAll, Breaks, Failures, Backoff, Told;
    OneMoreAttempt(log0, before, sessionId0, lastSeq0);
    SeenInOneMore(before, a);
    sessionId, lastSeq, attempts, log, stopped := sessionId0, lastSeq0, attempts0, log0 + [Attempted], None;
    if a.UrlFails? {
      attempts, log := Wait(attempts, a.rateLimited, sessionId, lastSeq, log);
      return;
    }
    if a.ConnectFails? {
      attempts, log := Wait(attempts, false, sessionId, lastSeq, log);
      return;
    }
    var broke;
    sessionId, lastSeq, attempts, log, broke := Listen(a.messages, a.raises, sessionId, lastSeq, attempts, log);
    if !broke && a.closeCode.Some? {
      var code := a.closeCode.value;
      if code in {4006, 4007, 4009} || 4900 <= code <= 4913 {
        sessionId, lastSeq, log := Invalidate(sessionId, lastSeq, attempts, log);
      } else if code == 4008 {
        attempts, log := Wait(attempts, true, sessionId, lastSeq, log);
        return;
      } else if code == 4914 || code == 4915 {
        log := Report(sessionId, lastSeq, log);
        stopped := Some(Banned);
        return;
      }
      if code == 1000 {
        stopped := Some(ClosedNormally);
        return;
      }
    }
    if attempts + 1 > MAX_RECONNECT_ATTEMPTS {
      log := Report(sessionId, lastSeq, log);
      stopped := Some(Exhausted);
      return;
    }
    attempts, log := Wait(attempts, false, sessionId, lastSeq, log);
  }

  lemma OneMoreAttempt(log: seq<Event>, before: seq<Attempt>, sessionId: string, lastSeq: int)
    requires Tracks(log, sessionId, lastSeq) && Failures(log) <= MAX_RECONNECT_ATTEMPTS && RunSoFar(log, before)
    ensures Tracks(log + [Attempted], sessionId, lastSeq) && Counts(log + [Attempted], Failures(log))
    ensures SeenIn(log + [Attempted]) == SeenInAll(before) + [SeenAttempt] && Told(log + [Attempted]) == Told(log)
  {
    hide AttemptsSince, EverReady, GoodLog, LatestSession, LatestSeq, Told;
    Append(log, Attempted);
    GoodAppend(log, Attempted);
  }

  lemma SeenInOneMore(before: seq<Attempt>, a: Attempt)
    ensures var seen := SeenInAll(before) + [SeenAttempt];
            SeenInAll(before + [a]) ==
            if !a.Connects? then seen
            else if ClosedWith(a, INVALIDATING) then seen + Handled(a.messages) + [SeenInvalid] else seen + Handled(a.messages)
  {
    hide Handled, ClosedWith;
    assert (before + [a])[..|before|] == before;
    assert SeenInAll(before + [a]) == SeenInAll(before) + SeenInAttempt(a);
    assert !a.Connects? ==> !ClosedWith(a, INVALIDATING) by { NeverConnected(a); }
  }

  lemma NeverConnected(a: Attempt)
    ensures !a.Connects? ==> !ClosedWith(a, INVALIDATING)
  {
  }
}

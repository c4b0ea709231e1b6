/** What a run of the gateway loop knows of session and sequence number, from the messages of its
    connections alone: which message settled it, and what the next greeting carries. */
module QqScripts {
  import opened Common
  import opened QqGateway

  // ---------------------------------------------------------------- the messages that are handled

  /** The message loop ends with this message. */
  predicate Ends(m: Message) { m.Malformed? || m.Reconnect? || m.InvalidSession? || (m.Hello? && m.sendRaises) }

  /** The first `n` messages let the loop go on, and it ends with the next one or for want of one. */
  ghost predicate EndsAt(messages: seq<Message>, n: nat) {
    n <= |messages| && (forall i :: 0 <= i < n ==> !Ends(messages[i])) && (n < |messages| ==> Ends(messages[n]))
  }

  /** The messages that are handled. */
  function HandledUpTo(messages: seq<Message>, n: nat): seq<Message>
    requires n <= |messages|
  {
    if n < |messages| then messages[..n + 1] else messages
  }

  lemma EndsBehind(messages: seq<Message>, n: nat)
    requires EndsAt(messages, n) && messages != []
    ensures n == 0 <==> Ends(messages[0])
    ensures n > 0 ==> EndsAt(messages[1..], n - 1) && HandledUpTo(messages, n) == [messages[0]] + HandledUpTo(messages[1..], n - 1)
    ensures n == 0 ==> HandledUpTo(messages, n) == [messages[0]]
  {
    var rest := messages[1..];
    assert forall i :: 0 <= i < |rest| ==> rest[i] == messages[i + 1];
  }

  /** A connection ends in an exception exactly if the message the loop ends with raises, or the socket does
      after the last one. */
  lemma {:induction false} BreaksExactly(messages: seq<Message>, raises: bool, n: nat)
    requires EndsAt(messages, n)
    ensures Breaks(messages, raises) <==> if n == |messages| then raises else messages[n].Malformed? || messages[n].Hello?
  {
    if messages != [] {
      EndsBehind(messages, n);
      if n > 0 { BreaksExactly(messages[1..], raises, n - 1); }
    }
  }

  /** The messages behind the last handled one are not looked at. */
  lemma {:induction false} RestUnread(messages: seq<Message>, n: nat, more: seq<Message>)
    requires EndsAt(messages, n) && n < |messages|
    ensures Handled(messages[..n + 1] + more) == Handled(messages)
    ensures forall raises :: Breaks(messages[..n + 1] + more, raises) == Breaks(messages, raises)
  {
    EndsBehind(messages, n);
    var all := messages[..n + 1] + more;
    assert all[0] == messages[0];
    if n > 0 {
      var rest := messages[1..];
      assert all[1..] == rest[..n] + more;
      RestUnread(rest, n - 1, more);
    }
  }

  // ---------------------------------------------------------------- session and sequence number

  /** The message says what the session is from now on. */
  predicate Tells(m: Message) { (m.Dispatch? && m.kind.Ready?) || m == InvalidSession(false) }

  function Session(m: Message): string
    requires Tells(m)
  {
    if m.Dispatch? then m.kind.sessionId else ""
  }

  predicate TellsSeq(m: Message) { (m.Dispatch? && m.seqNo.Some?) || m == InvalidSession(false) }

  function Seq(m: Message): int
    requires TellsSeq(m)
  {
    if m.Dispatch? then m.seqNo.value else 0
  }

  /** The last of the messages that says so, or what was before. */
  function SessionAfter(messages: seq<Message>, before: string): string {
    if messages == [] then before
    else
      var m := messages[|messages| - 1];
      if Tells(m) then Session(m) else SessionAfter(messages[..|messages| - 1], before)
  }

  function SeqAfter(messages: seq<Message>, before: int): int {
    if messages == [] then before
    else
      var m := messages[|messages| - 1];
      if TellsSeq(m) then Seq(m) else SeqAfter(messages[..|messages| - 1], before)
  }

  lemma {:induction false} AfterFirst(m: Message, messages: seq<Message>, session: string, seqNo: int)
    ensures SessionAfter([m] + messages, session) == SessionAfter(messages, if Tells(m) then Session(m) else session)
    ensures SeqAfter([m] + messages, seqNo) == SeqAfter(messages, if TellsSeq(m) then Seq(m) else seqNo)
    decreases |messages|
  {
    if messages == [] {
      assert [m] + messages == [m] && [m][..0] == [];
    } else {
      var n := |messages| - 1;
      assert ([m] + messages)[..n + 1] == [m] + messages[..n];
      AfterFirst(m, messages[..n], session, seqNo);
    }
  }

  /** The same of what a log shows. */
  ghost function SessionSeen(seen: seq<Seen>, before: string): string {
    if seen == [] then before
    else
      match seen[|seen| - 1]
      case SeenReady(id) => id
      case SeenInvalid => ""
      case _ => SessionSeen(seen[..|seen| - 1], before)
  }

  ghost function SeqSeen(seen: seq<Seen>, before: int): int {
    if seen == [] then before
    else
      match seen[|seen| - 1]
      case SeenSeq(n) => n
      case SeenInvalid => 0
      case _ => SeqSeen(seen[..|seen| - 1], before)
  }

  lemma {:induction false} SeenTogether(a: seq<Seen>, b: seq<Seen>, session: string, seqNo: int)
    ensures SessionSeen(a + b, session) == SessionSeen(b, SessionSeen(a, session))
    ensures SeqSeen(a + b, seqNo) == SeqSeen(b, SeqSeen(a, seqNo))
    decreases |b|
  {
    if b == [] {
      assert a + b == a;
    } else {
      assert (a + b)[..|a + b| - 1] == a + b[..|b| - 1];
      SeenTogether(a, b[..|b| - 1], session, seqNo);
    }
  }

  lemma SeenOne(x: Seen, session: string, seqNo: int)
    ensures SessionSeen([x], session) == match x { case SeenReady(id) => id case SeenInvalid => "" case _ => session }
    ensures SeqSeen([x], seqNo) == match x { case SeenSeq(n) => n case SeenInvalid => 0 case _ => seqNo }
    ensures SessionSeen([], session) == session && SeqSeen([], seqNo) == seqNo
  {
    assert [x][..0] == [];
  }

  lemma {:induction false} LatestIsSeen(log: seq<Event>)
    ensures LatestSession(log) == SessionSeen(SeenIn(log), "") && LatestSeq(log) == SeqSeen(SeenIn(log), 0)
  {
    hide SessionSeen, SeqSeen, LatestSession, LatestSeq;
    if log == [] {
      NothingYet();
    } else {
      var front, e := log[..|log| - 1], log[|log| - 1];
      LatestIsSeen(front);
      Append(front, e);
      assert front + [e] == log;
      SeenTogether(SeenIn(front), SeenAt(e), "", 0);
      if SeenAt(e) == [] {
        SeenOne(SeenAttempt, LatestSession(front), LatestSeq(front));
      } else {
        SeenOne(SeenAt(e)[0], LatestSession(front), LatestSeq(front));
      }
    }
  }

  lemma NothingYet()
    ensures LatestSession([]) == SessionSeen([], "") && LatestSeq([]) == SeqSeen([], 0)
  {
  }

  lemma OfDispatch(n: Option<int>, kind: Kind, session: string, seqNo: int)
    ensures var m := Dispatch(n, kind);
            SessionSeen(SeenOf(n, kind), session) == (if Tells(m) then Session(m) else session)
            && SeqSeen(SeenOf(n, kind), seqNo) == if TellsSeq(m) then Seq(m) else seqNo
  {
    var a := if n.Some? then [SeenSeq(n.value)] else [];
    var b := match kind { case Ready(id) => [SeenReady(id)] case Resumed => [SeenResumed] case Other => [] };
    SeenTogether(a, b, session, seqNo);
    hide SessionSeen, SeqSeen;
    if n.Some? { SeenOne(SeenSeq(n.value), session, seqNo); } else { SeenOne(SeenAttempt, session, seqNo); }
    if b == [] { SeenOne(SeenAttempt, session, SeqSeen(a, seqNo)); } else { SeenOne(b[0], session, SeqSeen(a, seqNo)); }
  }

  /** What one connection leaves behind depends on its handled messages as their last words say. */
  lemma {:induction false} HandledTells(messages: seq<Message>, n: nat, session: string, seqNo: int)
    requires EndsAt(messages, n)
    ensures SessionSeen(Handled(messages), session) == SessionAfter(HandledUpTo(messages, n), session)
    ensures SeqSeen(Handled(messages), seqNo) == SeqAfter(HandledUpTo(messages, n), seqNo)
    decreases |messages|
  {
    hide SessionSeen, SeqSeen, SessionAfter, SeqAfter;
    SeenOne(SeenGreeting, session, seqNo);
    SeenOne(SeenInvalid, session, seqNo);
    NoneAfter(session, seqNo);
    if messages != [] {
      var m, rest := messages[0], messages[1..];
      EndsBehind(messages, n);
      if n == 0 {
        AfterFirst(m, [], session, seqNo);
        NoneAfter(if Tells(m) then Session(m) else session, if TellsSeq(m) then Seq(m) else seqNo);
        var none: seq<Seen> := [];
        assert [m] + [] == [m] && [SeenGreeting] + none == [SeenGreeting];
      } else {
        var session', seqNo' := if Tells(m) then Session(m) else session, if TellsSeq(m) then Seq(m) else seqNo;
        AfterFirst(m, HandledUpTo(rest, n - 1), session, seqNo);
        HandledTells(rest, n - 1, session', seqNo');
        match m {
          case Hello(_) => SeenTogether([SeenGreeting], Handled(rest), session, seqNo);
          case Dispatch(k, kind) =>
            OfDispatch(k, kind, session, seqNo);
            SeenTogether(SeenOf(k, kind), Handled(rest), session, seqNo);
          case _ =>
        }
      }
    }
  }

  lemma NoneAfter(session: string, seqNo: int)
    ensures SessionAfter([], session) == session && SeqAfter([], seqNo) == seqNo
  {
  }

  /** What the client knows after one attempt more: nothing after a close code that invalidates, otherwise
      what the last handled message that says so says. */
  lemma KnownAfterAttempt(done: seq<Attempt>, a: Attempt, log: seq<Event>, log': seq<Event>, n: nat)
    requires RunSoFar(log, done) && RunSoFar(log', done + [a])
    requires a.Connects? ==> EndsAt(a.messages, n)
    ensures var handled := if a.Connects? then HandledUpTo(a.messages, n) else [];
            if ClosedWith(a, INVALIDATING) then LatestSession(log') == "" && LatestSeq(log') == 0
            else LatestSession(log') == SessionAfter(handled, LatestSession(log)) && LatestSeq(log') == SeqAfter(handled, LatestSeq(log))
  {
    hide SessionSeen, SeqSeen, SessionAfter, SeqAfter, Handled, ClosedWith;
    LatestIsSeen(log);
    LatestIsSeen(log');
    assert (done + [a])[..|done|] == done;
    var session, seqNo := LatestSession(log), LatestSeq(log);
    var handled := if a.Connects? then Handled(a.messages) else [];
    var end := if ClosedWith(a, INVALIDATING) then [SeenInvalid] else [];
    SeenTogether(SeenInAll(done), [SeenAttempt] + handled + end, "", 0);
    SeenTogether([SeenAttempt] + handled, end, session, seqNo);
    SeenTogether([SeenAttempt], handled, session, seqNo);
    SeenOne(SeenAttempt, session, seqNo);
    NoneAfter(session, seqNo);
    if a.Connects? { HandledTells(a.messages, n, session, seqNo); }
    var session', seqNo' := SessionSeen(handled, session), SeqSeen(handled, seqNo);
    SeenOne(SeenInvalid, session', seqNo');
  }

  // ---------------------------------------------------------------- the greetings

  /** Position `p` of the log is the greeting for a Hello that comes after the run over `before`. */
  ghost predicate Greets(log: seq<Event>, p: nat, before: seq<Attempt>) {
    p < |log| && RunSoFar(log[..p], before)
    && var session, seqNo := LatestSession(log[..p]), LatestSeq(log[..p]);
       log[p] == if session != "" && seqNo > 0 then Resume(session, seqNo) else Identify
  }

  /** The attempt, broken off before message `i`. */
  function CutAt(a: Attempt, i: nat): Attempt
    requires a.Connects? && i <= |a.messages|
  {
    Connects(a.messages[..i], true, None)
  }

  /** Every Hello that is handled is answered by one greeting, which carries what the client knew right
      before it. */
  lemma HelloIsGreeted(done: seq<Attempt>, a: Attempt, log: seq<Event>, n: nat, i: nat) returns (p: nat)
    requires RunSoFar(log, done + [a]) && a.Connects? && EndsAt(a.messages, n) && i <= n && i < |a.messages| && a.messages[i].Hello?
    ensures Greets(log, p, done + [CutAt(a, i)])
  {
    hide Handled, ClosedWith, GoodLog, LatestSession, LatestSeq;
    var cut := CutAt(a, i);
    HandledSplit(a.messages, n, i);
    CutHandled(a.messages, n, i);
    assert (done + [a])[..|done|] == done && (done + [cut])[..|done|] == done;
    var shown := SeenInAll(done) + ([SeenAttempt] + Handled(a.messages[..i]));
    assert SeenInAll(done + [cut]) == shown by { NotClosed(cut); }
    var end := if ClosedWith(a, INVALIDATING) then [SeenInvalid] else [];
    var rest :| Handled(a.messages) == Handled(a.messages[..i]) + [SeenGreeting] + rest;
    assert SeenIn(log) == shown + [SeenGreeting] + (rest + end);
    p := PlaceOf(log, shown, SeenGreeting, rest + end);
    GoodPrefix(log, p);
    GoodEverywhere(log, p);
  }

  lemma NotClosed(a: Attempt)
    requires a.Connects? && a.closeCode.None?
    ensures !ClosedWith(a, INVALIDATING)
  {
  }

  lemma {:induction false} GoodPrefix(log: seq<Event>, p: nat)
    requires GoodLog(log) && p <= |log|
    ensures GoodLog(log[..p])
    decreases |log|
  {
    if p == |log| {
      assert log[..p] == log;
    } else {
      GoodPrefix(log[..|log| - 1], p);
      assert log[..|log| - 1][..p] == log[..p];
    }
  }

  /** Where in the log something was seen. */
  lemma {:induction false} PlaceOf(log: seq<Event>, shown: seq<Seen>, x: Seen, rest: seq<Seen>) returns (p: nat)
    requires SeenIn(log) == shown + [x] + rest
    ensures p < |log| && SeenIn(log[..p]) == shown && SeenAt(log[p]) == [x]
    decreases |log|
  {
    hide SeenAt;
    assert log != [];
    var n := |log| - 1;
    var last := SeenAt(log[n]);
    AtMostOne(log[n]);
    if last == [] {
      p := PlaceOf(log[..n], shown, x, rest);
      assert log[..n][..p] == log[..p];
    } else if rest == [] {
      p := n;
      assert shown + [x] + rest == shown + [x] && last == [last[0]];
      LastOf(SeenIn(log[..n]), last[0], shown, x);
    } else {
      var front, end := rest[..|rest| - 1], rest[|rest| - 1];
      assert rest == front + [end] && last == [last[0]];
      assert shown + [x] + (front + [end]) == shown + [x] + front + [end];
      LastOf(SeenIn(log[..n]), last[0], shown + [x] + front, end);
      p := PlaceOf(log[..n], shown, x, front);
      assert log[..n][..p] == log[..p];
    }
  }

  lemma AtMostOne(e: Event)
    ensures |SeenAt(e)| <= 1
  {
  }

  lemma LastOf(a: seq<Seen>, x: Seen, b: seq<Seen>, y: Seen)
    requires a + [x] == b + [y]
    ensures a == b && x == y
  {
    assert a == (a + [x])[..|a|] && b == (b + [y])[..|b|] && |a| == |b|;
    assert (a + [x])[|a|] == x && (b + [y])[|b|] == y;
  }

  lemma CutHandled(messages: seq<Message>, n: nat, i: nat)
    requires EndsAt(messages, n) && i <= n
    ensures EndsAt(messages[..i], i) && HandledUpTo(messages[..i], i) == messages[..i]
  {
  }

  lemma {:induction false} HandledSplit(messages: seq<Message>, n: nat, i: nat)
    requires EndsAt(messages, n) && i <= n && i < |messages| && messages[i].Hello?
    ensures exists rest :: Handled(messages) == Handled(messages[..i]) + [SeenGreeting] + rest
  {
    EndsBehind(messages, n);
    var m, tail := messages[0], messages[1..];
    if i == 0 {
      var rest := if m.sendRaises then [] else Handled(tail);
      assert Handled(messages) == Handled(messages[..0]) + [SeenGreeting] + rest;
    } else {
      HandledSplit(tail, n - 1, i - 1);
      var rest :| Handled(tail) == Handled(tail[..i - 1]) + [SeenGreeting] + rest;
      var cut := messages[..i];
      assert cut[0] == m && cut[1..] == tail[..i - 1];
      HandledFirst(messages);
      HandledFirst(cut);
      hide Handled, FirstSeen;
      assert FirstSeen(m) + (Handled(tail[..i - 1]) + [SeenGreeting] + rest) == FirstSeen(m) + Handled(tail[..i - 1]) + [SeenGreeting] + rest;
    }
  }

  ghost function FirstSeen(m: Message): seq<Seen> {
    match m
    case Hello(_) => [SeenGreeting]
    case Dispatch(n, kind) => SeenOf(n, kind)
    case _ => []
  }

  lemma HandledFirst(messages: seq<Message>)
    requires messages != [] && !Ends(messages[0])
    ensures Handled(messages) == FirstSeen(messages[0]) + Handled(messages[1..])
  {
  }

  // ---------------------------------------------------------------- how a connection ends

  /** The log of a run up to the message a connection ends with. */
  lemma RunUpTo(log: seq<Event>, done: seq<Attempt>, a: Attempt, n: nat) returns (q: nat)
    requires RunSoFar(log, done + [a]) && a.Connects? && EndsAt(a.messages, n)
    ensures q <= |log| && RunSoFar(log[..q], done + [CutAt(a, n)])
  {
    hide ClosedWith, GoodLog;
    var cut := CutAt(a, n);
    NotClosed(cut);
    assert (done + [a])[..|done|] == done && (done + [cut])[..|done|] == done;
    var rest := HandledStarts(a.messages, n);
    var end := if ClosedWith(a, INVALIDATING) then [SeenInvalid] else [];
    var shown := SeenInAll(done) + ([SeenAttempt] + Handled(cut.messages));
    assert SeenInAll(done + [cut]) == shown + [] == shown;
    assert SeenIn(log) == shown + (rest + end);
    q := UpTo(log, shown, rest + end);
    GoodPrefix(log, q);
  }

  lemma {:induction false} HandledStarts(messages: seq<Message>, n: nat) returns (rest: seq<Seen>)
    requires EndsAt(messages, n)
    ensures Handled(messages) == Handled(messages[..n]) + rest
  {
    if n == 0 {
      rest := Handled(messages);
    } else {
      EndsBehind(messages, n);
      var m, tail, cut := messages[0], messages[1..], messages[..n];
      rest := HandledStarts(tail, n - 1);
      assert cut[0] == m && cut[1..] == tail[..n - 1];
      HandledFirst(messages);
      HandledFirst(cut);
      hide Handled, FirstSeen;
      assert FirstSeen(m) + (Handled(tail[..n - 1]) + rest) == FirstSeen(m) + Handled(tail[..n - 1]) + rest;
    }
  }

  lemma UpTo(log: seq<Event>, shown: seq<Seen>, rest: seq<Seen>) returns (q: nat)
    requires SeenIn(log) == shown + rest
    ensures q <= |log| && SeenIn(log[..q]) == shown
  {
    if rest == [] {
      q := |log|;
      assert log[..q] == log && shown + rest == shown;
    } else {
      assert shown + rest == shown + [rest[0]] + rest[1..];
      q := PlaceOf(log, shown, rest[0], rest[1..]);
    }
  }

  /** The connection was closed with `code`, and no exception came first. */
  ghost predicate ClosedBy(a: Attempt, code: int) {
    a.Connects? && a.closeCode == Some(code)
    && exists n: nat :: EndsAt(a.messages, n) && if n == |a.messages| then !a.raises else !a.messages[n].Malformed? && !a.messages[n].Hello?
  }

  lemma EndsSomewhere(messages: seq<Message>) returns (n: nat)
    ensures EndsAt(messages, n)
  {
    n := 0;
    while n < |messages| && !Ends(messages[n])
      invariant n <= |messages| && forall i :: 0 <= i < n ==> !Ends(messages[i])
    {
      n := n + 1;
    }
  }

  lemma ClosedByCode(a: Attempt, code: int)
    ensures ClosedBy(a, code) <==> ClosedWith(a, {code})
  {
    hide Breaks;
    if a.Connects? {
      var n := EndsSomewhere(a.messages);
      forall n': nat | EndsAt(a.messages, n')
        ensures Breaks(a.messages, a.raises) <==>
                if n' == |a.messages| then a.raises else a.messages[n'].Malformed? || a.messages[n'].Hello?
      {
        BreaksExactly(a.messages, a.raises, n');
      }
    }
  }

  /** The codes after which the session is forgotten. */
  predicate Forgets(code: int) { code == 4006 || code == 4007 || code == 4009 || 4900 <= code <= 4913 }

  ghost predicate Invalidated(a: Attempt) { a.Connects? && a.closeCode.Some? && Forgets(a.closeCode.value) && ClosedBy(a, a.closeCode.value) }

  lemma InvalidatedByCode(a: Attempt)
    ensures Invalidated(a) <==> ClosedWith(a, INVALIDATING)
  {
    hide ClosedBy, Breaks;
    if a.Connects? && a.closeCode.Some? { ClosedByCode(a, a.closeCode.value); }
  }

  /** How a run ends, by the close code: a ban with 4914 or 4915, normally with 1000. */
  lemma OutcomeByCode(script: seq<Attempt>)
    requires script != []
    ensures 0 < EndOf(script) <= |script|
    ensures OutcomeAt(script, EndOf(script)) == Banned <==>
            ClosedBy(script[EndOf(script) - 1], 4914) || ClosedBy(script[EndOf(script) - 1], 4915)
    ensures OutcomeAt(script, EndOf(script)) == ClosedNormally <==> ClosedBy(script[EndOf(script) - 1], 1000)
  {
    hide ClosedBy, Breaks, FailuresAfter;
    EndIsFirst(script, 0);
    var a := script[EndOf(script) - 1];
    ClosedByCode(a, 4914);
    ClosedByCode(a, 4915);
    ClosedByCode(a, 1000);
  }

  /** A run that goes on has slept: 60 seconds when the gateway limits the rate, and otherwise longer with
      every failure in a row. */
  lemma SleepAfterFailure(script: seq<Attempt>, used: nat, log: seq<Event>)
    requires 0 < used <= |script| && RunSoFar(log, script[..used]) && EndsRight(script, used, log, StillRunning)
    ensures var a, n := script[used - 1], FailuresAfter(script[..used]);
            n > 0 && log != []
            && log[|log| - 1] == Slept(if a == UrlFails(true) || ClosedBy(a, 4008) then 60
                                       else if n == 1 then 1 else if n == 2 then 2 else if n == 3 then 5
                                       else if n == 4 then 10 else if n == 5 then 30 else 60)
  {
    hide ClosedBy, Breaks, RunSoFar;
    FailuresOfRun(log, script[..used]);
    ClosedByCode(script[used - 1], 4008);
    hide FailuresAfter;
  }

  /** A READY or a RESUMED counts if it is handled. */
  lemma {:induction false} ReadyExactly(messages: seq<Message>, n: nat)
    requires EndsAt(messages, n)
    ensures AnyReady(Handled(messages)) <==> exists m :: m in HandledUpTo(messages, n) && m.Dispatch? && !m.kind.Other?
  {
    hide AnyReady;
    OneSeen([SeenGreeting]);
    OneSeen([SeenInvalid]);
    OneSeen([]);
    if messages != [] {
      var m, rest := messages[0], messages[1..];
      EndsBehind(messages, n);
      if n > 0 {
        ReadyExactly(rest, n - 1);
        HandledFirst(messages);
        AnyReadyTogether(FirstSeen(m), Handled(rest));
        if m.Dispatch? { ReadyOfDispatch(m.seqNo, m.kind); }
      } else {
        var none: seq<Seen> := [];
        assert [SeenGreeting] + none == [SeenGreeting];
      }
    }
  }

  lemma ReadyOfDispatch(n: Option<int>, kind: Kind)
    ensures AnyReady(SeenOf(n, kind)) <==> !kind.Other?
  {
    var a := if n.Some? then [SeenSeq(n.value)] else [];
    var b := match kind { case Ready(id) => [SeenReady(id)] case Resumed => [SeenResumed] case Other => [] };
    AnyReadyTogether(a, b);
    OneSeen(a);
    OneSeen(b);
  }

  /** What the message a connection ends with changes: an invalid session that cannot be resumed is
      forgotten; one that can, a Reconnect, a handler that raises and the end of the messages leave what was
      known, unless the close code invalidates it. */
  lemma EndDecides(done: seq<Attempt>, a: Attempt, n: nat, log: seq<Event>) returns (q: nat)
    requires RunSoFar(log, done + [a]) && a.Connects? && EndsAt(a.messages, n)
    ensures q <= |log| && RunSoFar(log[..q], done + [CutAt(a, n)])
    ensures var forgotten := Invalidated(a) || (n < |a.messages| && a.messages[n] == InvalidSession(false));
            LatestSession(log) == (if forgotten then "" else LatestSession(log[..q]))
            && LatestSeq(log) == if forgotten then 0 else LatestSeq(log[..q])
  {
    InvalidatedByCode(a);
    hide ClosedWith, LatestSession, LatestSeq, RunSoFar, Invalidated;
    var cut := CutAt(a, n);
    q := RunUpTo(log, done, a, n);
    CutHandled(a.messages, n, n);
    NotClosed(cut);
    var p := RunBefore(log, done, a);
    KnownAfterAttempt(done, a, log[..p], log, n);
    KnownAfterAttempt(done, cut, log[..p], log[..q], n);
    if n < |a.messages| {
      assert a.messages[..n + 1][..n] == a.messages[..n];
    } else {
      assert a.messages[..n] == a.messages;
    }
  }

  lemma RunBefore(log: seq<Event>, done: seq<Attempt>, a: Attempt) returns (p: nat)
    requires RunSoFar(log, done + [a])
    ensures p <= |log| && RunSoFar(log[..p], done)
  {
    hide ClosedWith, GoodLog, Handled;
    assert (done + [a])[..|done|] == done;
    p := UpTo(log, SeenInAll(done), SeenInAttempt(a));
    GoodPrefix(log, p);
  }

  /** The next connection greets accordingly: after an invalid session that cannot be resumed with an
      Identify, and otherwise with what was known before the message the last connection ended with. */
  lemma NextGreeting(done: seq<Attempt>, a: Attempt, n: nat, next: Attempt, k: nat, log: seq<Event>) returns (q: nat, p: nat)
    requires RunSoFar(log, done + [a] + [next]) && a.Connects? && EndsAt(a.messages, n) && !Invalidated(a)
    requires next.Connects? && next.messages != [] && next.messages[0].Hello? && EndsAt(next.messages, k)
    ensures q <= |log| && p < |log| && RunSoFar(log[..q], done + [CutAt(a, n)]) && RunSoFar(log[..p], done + [a] + [CutAt(next, 0)])
    ensures var session, seqNo := LatestSession(log[..q]), LatestSeq(log[..q]);
            log[p] == if !(n < |a.messages| && a.messages[n] == InvalidSession(false)) && session != "" && seqNo > 0
                      then Resume(session, seqNo) else Identify
  {
    hide ClosedWith, LatestSession, LatestSeq, RunSoFar, Invalidated;
    p := HelloIsGreeted(done + [a], next, log, k, 0);
    var r := RunBefore(log[..p], done + [a], CutAt(next, 0));
    assert log[..p][..r] == log[..r];
    q := EndDecides(done, a, n, log[..r]);
    assert log[..r][..q] == log[..q];
    var cut := CutAt(next, 0);
    NotClosed(cut);
    CutHandled(next.messages, k, 0);
    KnownAfterAttempt(done + [a], cut, log[..r], log[..p], 0);
    NoneAfter(LatestSession(log[..r]), LatestSeq(log[..r]));
  }
}

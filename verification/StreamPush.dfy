/** Pushing the chunks of one reply stream in WebSocket mode (wecom_ai_bot_api/ws_client.py): repeats are
    skipped, the final chunk closes the stream, a failed one leaves it open for another attempt. */
module StreamPush {
  import opened Common

  type MsgId = string

  datatype SessionInfo = SessionInfo(reqId: string, streamId: string, msgId: MsgId, userId: string, chatId: string, chatType: string)

  /** The arguments of `reply_stream`. */
  datatype Reply = Reply(reqId: string, streamId: string, content: string, finish: bool, feedbackId: string)

  datatype Delivery = Delivery(msgId: MsgId, reply: Reply)

  /** `delivered` are the replies `reply_stream` accepted so far. */
  datatype State = State(
    streamIds: map<MsgId, string>,
    lastContent: map<MsgId, string>,
    sessions: map<MsgId, SessionInfo>,
    feedbackSessions: map<string, SessionInfo>,
    msgFeedbackIds: map<MsgId, string>,
    delivered: seq<Delivery>)

  const INITIAL := State(map[], map[], map[], map[], map[], [])

  // ---------------------------------------------------------------- the key of a stream

  function StreamKey(reqId: string, streamId: string): string { reqId + "|" + streamId }

  /** `key.split('|', 1)` for a key with a bar in it. */
  function SplitKey(key: string): (string, string)
    requires '|' in key
  {
    if key[0] == '|' then ("", key[1..])
    else
      var r := SplitKey(key[1..]);
      ([key[0]] + r.0, r.1)
  }

  /** The request id comes back from the key exactly if it has no bar. */
  lemma {:induction false} KeySplitsBack(reqId: string, streamId: string)
    ensures SplitKey(StreamKey(reqId, streamId)) == (reqId, streamId) <==> '|' !in reqId
  {
    var key := StreamKey(reqId, streamId);
    if reqId == "" {
      assert key == "|" + streamId;
    } else {
      assert key[1..] == StreamKey(reqId[1..], streamId);
      KeySplitsBack(reqId[1..], streamId);
      if reqId[0] != '|' {
        assert reqId == [reqId[0]] + reqId[1..];
      }
    }
  }

  // ---------------------------------------------------------------- the operations

  /** The part of `_handle_message_callback` that opens the stream of a message. */
  function Arrived(s: State, msgId: MsgId, info: SessionInfo): State {
    if msgId == "" then s
    else s.(streamIds := s.streamIds[msgId := StreamKey(info.reqId, info.streamId)], sessions := s.sessions[msgId := info])
  }

  /** The bookkeeping before a final chunk is sent. */
  function FeedbackNoted(s: State, msgId: MsgId, feedbackId: string): State {
    s.(msgFeedbackIds := s.msgFeedbackIds[msgId := feedbackId],
       feedbackSessions := if msgId in s.sessions then s.feedbackSessions[feedbackId := s.sessions[msgId]] else s.feedbackSessions)
  }

  /** The bookkeeping after `reply_stream` returned. */
  function Accepted(s: State, msgId: MsgId, reply: Reply): State {
    var d := s.(delivered := s.delivered + [Delivery(msgId, reply)]);
    if reply.finish
    then d.(streamIds := s.streamIds - {msgId}, lastContent := s.lastContent - {msgId}, sessions := s.sessions - {msgId})
    else d.(lastContent := s.lastContent[msgId := reply.content])
  }

  predicate Repeats(s: State, msgId: MsgId, content: string, isFinal: bool) {
    !isFinal && msgId in s.lastContent && s.lastContent[msgId] == content
  }

  /** `push_stream_chunk`; `feedbackId` is the new id of a final chunk, `raises` says how the call of
      `reply_stream` ends. */
  function Push(s: State, msgId: MsgId, content: string, isFinal: bool, feedbackId: string, raises: bool): (State, bool)
    requires KeysHaveBars(s)
  {
    if msgId !in s.streamIds || s.streamIds[msgId] == "" then (s, false)
    else if Repeats(s, msgId, content, isFinal) then (s, true)
    else
      var ids := SplitKey(s.streamIds[msgId]);
      var noted := if isFinal then FeedbackNoted(s, msgId, feedbackId) else s;
      if raises then (noted, false)
      else (Accepted(noted, msgId, Reply(ids.0, ids.1, content, isFinal, if isFinal then feedbackId else "")), true)
  }

  predicate KeysHaveBars(s: State) { forall m | m in s.streamIds :: '|' in s.streamIds[m] }

  // ---------------------------------------------------------------- runs

  datatype Event =
    | Arrival(msgId: MsgId, info: SessionInfo)
    | PushCall(msgId: MsgId, content: string, isFinal: bool, feedbackId: string, raises: bool)

  function Apply(s: State, e: Event): (r: State)
    requires KeysHaveBars(s)
    ensures KeysHaveBars(r)
  {
    match e
    case Arrival(m, info) => Arrived(s, m, info)
    case PushCall(m, content, isFinal, feedbackId, raises) => Push(s, m, content, isFinal, feedbackId, raises).0
  }

  function After(s: State, events: seq<Event>): (r: State)
    requires KeysHaveBars(s)
    ensures KeysHaveBars(r)
  {
    if events == [] then s else Apply(After(s, events[..|events| - 1]), events[|events| - 1])
  }

  // ---------------------------------------------------------------- what should be delivered

  datatype Chunk = Chunk(content: string, isFinal: bool)

  /** The chunks pushed for `m` without a failure of `reply_stream`. */
  ghost function Pushed(events: seq<Event>, m: MsgId): seq<Chunk> {
    if events == [] then []
    else
      var e := events[|events| - 1];
      Pushed(events[..|events| - 1], m)
      + if e.PushCall? && e.msgId == m && !e.raises then [Chunk(e.content, e.isFinal)] else []
  }

  ghost predicate HasFinal(chunks: seq<Chunk>) { exists i :: 0 <= i < |chunks| && chunks[i].isFinal }

  /** Up to and including the first final chunk. */
  ghost function UpToFinal(chunks: seq<Chunk>): seq<Chunk> {
    if chunks == [] || !HasFinal(chunks[..|chunks| - 1]) then chunks else UpToFinal(chunks[..|chunks| - 1])
  }

  /** A chunk that is not final and says the same as the one before it is left out. */
  ghost function WithoutRepeats(chunks: seq<Chunk>): seq<Chunk> {
    if chunks == [] then []
    else
      var last, front := chunks[|chunks| - 1], chunks[..|chunks| - 1];
      WithoutRepeats(front) + if front != [] && !last.isFinal && last.content == front[|front| - 1].content then [] else [last]
  }

  /** The chunks delivered for `m`, wherever else chunks went. */
  ghost function DeliveredFor(log: seq<Delivery>, m: MsgId): seq<Reply> {
    if log == [] then []
    else DeliveredFor(log[..|log| - 1], m) + if log[|log| - 1].msgId == m then [log[|log| - 1].reply] else []
  }

  ghost function ChunksOf(replies: seq<Reply>): seq<Chunk> {
    if replies == [] then [] else ChunksOf(replies[..|replies| - 1]) + [Chunk(replies[|replies| - 1].content, replies[|replies| - 1].finish)]
  }

  ghost predicate Addressed(replies: seq<Reply>, key: string)
    requires '|' in key
  {
    forall r | r in replies :: (r.reqId, r.streamId) == SplitKey(key)
  }

  /** The state of one stream, opened as `key`, after the chunks `pushed`. */
  ghost predicate StreamIs(s: State, m: MsgId, key: string, pushed: seq<Chunk>)
    requires '|' in key
  {
    ChunksOf(DeliveredFor(s.delivered, m)) == WithoutRepeats(UpToFinal(pushed))
    && Addressed(DeliveredFor(s.delivered, m), key)
    && if HasFinal(pushed) then m !in s.streamIds && m !in s.lastContent
       else m in s.streamIds && s.streamIds[m] == key
            && if pushed == [] then m !in s.lastContent
               else m in s.lastContent && s.lastContent[m] == pushed[|pushed| - 1].content
  }

  lemma DeliveredAppend(log: seq<Delivery>, d: Delivery, m: MsgId)
    ensures DeliveredFor(log + [d], m) == DeliveredFor(log, m) + if d.msgId == m then [d.reply] else []
    ensures ChunksOf(DeliveredFor(log + [d], m)) ==
            ChunksOf(DeliveredFor(log, m)) + if d.msgId == m then [Chunk(d.reply.content, d.reply.finish)] else []
  {
    assert (log + [d])[..|log|] == log;
    var replies := DeliveredFor(log, m);
    assert (replies + [d.reply])[..|replies|] == replies;
    assert replies + [] == replies && ChunksOf(replies) + [] == ChunksOf(replies);
  }

  lemma PushedAppend(chunks: seq<Chunk>, c: Chunk)
    ensures HasFinal(chunks + [c]) <==> HasFinal(chunks) || c.isFinal
    ensures UpToFinal(chunks + [c]) == if HasFinal(chunks) then UpToFinal(chunks) else chunks + [c]
    ensures WithoutRepeats(chunks + [c]) ==
            WithoutRepeats(chunks) + if chunks != [] && !c.isFinal && c.content == chunks[|chunks| - 1].content then [] else [c]
  {
    var all := chunks + [c];
    assert all[..|all| - 1] == chunks;
    if HasFinal(chunks) {
      var i :| 0 <= i < |chunks| && chunks[i].isFinal;
      assert all[i].isFinal;
    }
    assert all[|chunks|] == c;
  }

  lemma UpToFinalOpen(chunks: seq<Chunk>)
    requires !HasFinal(chunks)
    ensures UpToFinal(chunks) == chunks
  {
  }

  ghost function ChunksIn(e: Event, m: MsgId): seq<Chunk> {
    if e.PushCall? && e.msgId == m && !e.raises then [Chunk(e.content, e.isFinal)] else []
  }

  lemma OtherMessage(s: State, e: Event, m: MsgId)
    requires KeysHaveBars(s) && e.msgId != m
    ensures var s' := Apply(s, e);
            (m in s'.streamIds <==> m in s.streamIds) && (m in s.streamIds ==> s'.streamIds[m] == s.streamIds[m])
            && (m in s'.lastContent <==> m in s.lastContent) && (m in s.lastContent ==> s'.lastContent[m] == s.lastContent[m])
            && DeliveredFor(s'.delivered, m) == DeliveredFor(s.delivered, m)
  {
    hide DeliveredFor, KeysHaveBars, SplitKey, StreamKey;
    if e.PushCall? && Apply(s, e).delivered != s.delivered {
      var d := Apply(s, e).delivered[|s.delivered|];
      DeliveredAppend(s.delivered, d, m);
    }
  }

  /** One push on the message: what it does to its stream and what it answers. */
  lemma OwnPush(s: State, e: Event, m: MsgId, key: string, pushed: seq<Chunk>)
    requires KeysHaveBars(s) && '|' in key && StreamIs(s, m, key, pushed) && e.PushCall? && e.msgId == m
    ensures StreamIs(Apply(s, e), m, key, pushed + ChunksIn(e, m))
    ensures Push(s, m, e.content, e.isFinal, e.feedbackId, e.raises).1
       <==> !HasFinal(pushed) && (!e.raises || (pushed != [] && !e.isFinal && e.content == pushed[|pushed| - 1].content))
  {
    hide DeliveredFor, SplitKey, StreamKey, WithoutRepeats, UpToFinal, ChunksOf, HasFinal;
    var c := Chunk(e.content, e.isFinal);
    PushedAppend(pushed, c);
    assert pushed + [] == pushed;
    if HasFinal(pushed) {
      assert Apply(s, e) == s;
    } else {
      UpToFinalOpen(pushed);
      if !e.raises && !Repeats(s, m, e.content, e.isFinal) {
        var ids := SplitKey(key);
        var d := Delivery(m, Reply(ids.0, ids.1, e.content, e.isFinal, if e.isFinal then e.feedbackId else ""));
        DeliveredAppend(s.delivered, d, m);
      }
    }
  }

  /** Over every run in which the message is not delivered again, and whatever happens to other messages:
      the replies delivered for it are the pushed chunks up to the first final one, without adjacent
      repeats, all to the request and stream it was opened with. */
  lemma {:induction false} DeliveredWithoutRepeats(s: State, events: seq<Event>, m: MsgId, key: string)
    requires KeysHaveBars(s) && m in s.streamIds && s.streamIds[m] == key && m !in s.lastContent
    requires DeliveredFor(s.delivered, m) == []
    requires forall e | e in events :: e.Arrival? ==> e.msgId != m
    ensures StreamIs(After(s, events), m, key, Pushed(events, m))
  {
    if events == [] {
      assert !HasFinal([]);
    } else {
      var front, e := events[..|events| - 1], events[|events| - 1];
      assert events == front + [e];
      DeliveredWithoutRepeats(s, front, m, key);
      var s1 := After(s, front);
      if e.msgId == m { OwnPush(s1, e, m, key, Pushed(front, m)); } else { OtherMessage(s1, e, m); }
      assert Pushed(front, m) + [] == Pushed(front, m);
    }
  }

  /** At most one reply has `finish` set, and it is the last one. */
  lemma OneFinishAtTheEnd(s: State, events: seq<Event>, m: MsgId, key: string, i: nat)
    requires KeysHaveBars(s) && m in s.streamIds && s.streamIds[m] == key && m !in s.lastContent
    requires DeliveredFor(s.delivered, m) == []
    requires forall e | e in events :: e.Arrival? ==> e.msgId != m
    requires i < |DeliveredFor(After(s, events).delivered, m)|
    ensures var replies := DeliveredFor(After(s, events).delivered, m);
            replies[i].finish <==> i == |replies| - 1 && HasFinal(Pushed(events, m))
  {
    hide HasFinal, UpToFinal, WithoutRepeats, DeliveredFor, ChunksOf, After, Pushed;
    var replies := DeliveredFor(After(s, events).delivered, m);
    DeliveredWithoutRepeats(s, events, m, key);
    ChunksAt(replies, i);
    FinalIsLast(UpToFinal(Pushed(events, m)));
    FinalUpToFinal(Pushed(events, m));
  }

  lemma {:induction false} ChunksAt(replies: seq<Reply>, i: nat)
    requires i < |replies|
    ensures |ChunksOf(replies)| == |replies| && ChunksOf(replies)[i].isFinal == replies[i].finish
  {
    if |replies| > 1 { ChunksAt(replies[..|replies| - 1], if i < |replies| - 1 then i else 0); }
  }

  /** No chunk before the last is final. */
  ghost predicate OpenUntilEnd(chunks: seq<Chunk>) { forall i :: 0 <= i < |chunks| - 1 ==> !chunks[i].isFinal }

  lemma {:induction false} FinalUpToFinal(chunks: seq<Chunk>)
    ensures OpenUntilEnd(UpToFinal(chunks)) && (HasFinal(UpToFinal(chunks)) <==> HasFinal(chunks))
  {
    if chunks != [] {
      var front := chunks[..|chunks| - 1];
      FinalUpToFinal(front);
      if HasFinal(front) {
        var i :| 0 <= i < |front| && front[i].isFinal;
        assert chunks[i].isFinal;
      } else {
        forall i | 0 <= i < |chunks| - 1
          ensures !chunks[i].isFinal
        {
          assert front[i] == chunks[i];
        }
      }
    }
  }

  lemma FinalIsLast(chunks: seq<Chunk>)
    ensures OpenUntilEnd(chunks) ==>
            var w := WithoutRepeats(chunks);
            OpenUntilEnd(w) && (HasFinal(chunks) <==> w != [] && w[|w| - 1].isFinal)
  {
    if chunks != [] && OpenUntilEnd(chunks) {
      var front, last := chunks[..|chunks| - 1], chunks[|chunks| - 1];
      assert !HasFinal(front) && OpenUntilEnd(front);
      OpenStaysOpen(front);
      var w := WithoutRepeats(chunks);
      assert HasFinal(chunks) <==> last.isFinal;
    }
  }

  lemma {:induction false} OpenStaysOpen(chunks: seq<Chunk>)
    requires !HasFinal(chunks)
    ensures !HasFinal(WithoutRepeats(chunks))
  {
    if chunks != [] {
      var front := chunks[..|chunks| - 1];
      forall i | 0 <= i < |front|
        ensures !front[i].isFinal
      {
        assert !chunks[i].isFinal;
      }
      OpenStaysOpen(front);
      var w, f := WithoutRepeats(chunks), WithoutRepeats(front);
      forall i | 0 <= i < |w|
        ensures !w[i].isFinal
      {
        if i < |f| { assert w[i] == f[i] && !f[i].isFinal; }
      }
    }
  }

  /** A failed push leaves the stream as it was: pushing the chunk again has the effect the first attempt
      would have had, but for the feedback id of a final chunk. */
  lemma FailedPushCanBeRetried(s: State, m: MsgId, content: string, isFinal: bool, f: string, f': string)
    requires KeysHaveBars(s) && m in s.streamIds && !Repeats(s, m, content, isFinal)
    ensures var failed := Push(s, m, content, isFinal, f, true);
            !failed.1 && KeysHaveBars(failed.0) && failed.0.streamIds == s.streamIds && failed.0.lastContent == s.lastContent
            && failed.0.delivered == s.delivered
            && var again, first := Push(failed.0, m, content, isFinal, f', false), Push(s, m, content, isFinal, f', false);
               again.1 && again.0.streamIds == first.0.streamIds && again.0.lastContent == first.0.lastContent
               && again.0.delivered == first.0.delivered && again.0.msgFeedbackIds == first.0.msgFeedbackIds
    ensures isFinal ==> var failed := Push(s, m, content, isFinal, f, true).0;
                        m in failed.msgFeedbackIds && failed.msgFeedbackIds[m] == f
                        && (m in s.sessions ==> f in failed.feedbackSessions && failed.feedbackSessions[f] == s.sessions[m])
  {
    hide SplitKey;
    assert '|' in s.streamIds[m];
  }

  /** The feedback id of a delivered final chunk leads to the session of its message. */
  lemma FinishIsTracked(s: State, m: MsgId, content: string, f: string)
    requires KeysHaveBars(s) && m in s.streamIds && m in s.sessions
    ensures var s' := Push(s, m, content, true, f, false).0;
            f in s'.feedbackSessions && s'.feedbackSessions[f] == s.sessions[m] && m in s'.msgFeedbackIds && s'.msgFeedbackIds[m] == f
            && s'.delivered != [] && s'.delivered[|s'.delivered| - 1].reply.feedbackId == f
  {
    hide SplitKey;
    assert '|' in s.streamIds[m];
  }

  /** Over every run exactly the open streams have a session, that of the latest delivery of their message,
      and a message without an id has neither. */
  lemma {:induction false} SessionOfStream(events: seq<Event>, m: MsgId)
    ensures var s := After(INITIAL, events);
            (m in s.streamIds <==> m in s.sessions) && (m in s.streamIds ==> m != "")
            && (m in s.streamIds ==>
                  LastArrival(events, m) == Some(s.sessions[m])
                  && s.streamIds[m] == s.sessions[m].reqId + "|" + s.sessions[m].streamId)
  {
    hide SplitKey, DeliveredFor, Apply;
    if events != [] {
      var front, e := events[..|events| - 1], events[|events| - 1];
      SessionOfStream(front, m);
      StepSessions(After(INITIAL, front), e, m);
    }
  }

  /** What the latest delivery of the message said. */
  ghost function LastArrival(events: seq<Event>, m: MsgId): Option<SessionInfo> {
    if events == [] then None
    else
      var e := events[|events| - 1];
      if e.Arrival? && e.msgId == m then Some(e.info) else LastArrival(events[..|events| - 1], m)
  }

  lemma StepSessions(s: State, e: Event, m: MsgId)
    requires KeysHaveBars(s) && (m in s.streamIds <==> m in s.sessions) && (m in s.streamIds ==> m != "")
    ensures var s' := Apply(s, e);
            (m in s'.streamIds <==> m in s'.sessions)
            && if e.Arrival? && e.msgId == m
               then if m == "" then m !in s'.streamIds
                    else m in s'.streamIds && s'.sessions[m] == e.info && s'.streamIds[m] == e.info.reqId + "|" + e.info.streamId
               else m in s'.streamIds ==> m in s.streamIds && s'.streamIds[m] == s.streamIds[m] && s'.sessions[m] == s.sessions[m]
  {
    hide SplitKey;
    if m in s.streamIds { assert '|' in s.streamIds[m]; }
  }

  // ---------------------------------------------------------------- messages delivered again

  /** From the deliveries and pushes so far: the message has a stream that no final chunk closed. */
  ghost predicate Open(events: seq<Event>, m: MsgId) {
    events != []
    && var e := events[|events| - 1];
       if e.Arrival? && e.msgId == m then true else Open(events[..|events| - 1], m) && !HasFinal(ChunksIn(e, m))
  }

  /** The last chunk pushed for the message without a failure found its stream open. */
  ghost predicate LastHeard(events: seq<Event>, m: MsgId) {
    events != []
    && if ChunksIn(events[|events| - 1], m) != [] then Open(events[..|events| - 1], m) else LastHeard(events[..|events| - 1], m)
  }

  /** What the client keeps of a message over a run with any number of deliveries. */
  lemma {:induction false} KeptOfRun(events: seq<Event>, m: MsgId)
    requires m != ""
    ensures var s, p := After(INITIAL, events), Pushed(events, m);
            (m in s.streamIds <==> Open(events, m)) && (m in s.streamIds ==> '|' in s.streamIds[m])
            && (m in s.lastContent <==> p != [] && !p[|p| - 1].isFinal && LastHeard(events, m))
            && (m in s.lastContent ==> m in s.streamIds && s.lastContent[m] == p[|p| - 1].content)
  {
    hide SplitKey, DeliveredFor, HasFinal, Apply;
    if events != [] {
      var front, e := events[..|events| - 1], events[|events| - 1];
      KeptOfRun(front, m);
      var s := After(INITIAL, front);
      assert Pushed(front, m) + [] == Pushed(front, m);
      FinalIn(e, m);
      if e.msgId != m {
        OtherMessage(s, e, m);
      } else if e.Arrival? {
        KeyHasBar(e.info);
        assert Apply(s, e) == Arrived(s, m, e.info) by { ArrivalApplied(s, e); }
      } else {
        OwnPushKept(s, e, m);
      }
    }
  }

  lemma ArrivalApplied(s: State, e: Event)
    requires KeysHaveBars(s) && e.Arrival?
    ensures Apply(s, e) == Arrived(s, e.msgId, e.info)
  {
  }

  lemma OwnPushKept(s: State, e: Event, m: MsgId)
    requires KeysHaveBars(s) && e.PushCall? && e.msgId == m
    ensures var s' := Apply(s, e);
            (m in s'.streamIds <==> m in s.streamIds && (e.raises || !e.isFinal))
            && (m in s'.streamIds ==> s'.streamIds[m] == s.streamIds[m])
            && (m in s'.lastContent <==> if e.raises || m !in s.streamIds then m in s.lastContent else !e.isFinal)
            && (m in s'.lastContent ==>
                  s'.lastContent[m] == if e.raises || m !in s.streamIds then s.lastContent[m] else e.content)
  {
    hide SplitKey;
    assert m in s.streamIds ==> '|' in s.streamIds[m];
  }

  lemma FinalIn(e: Event, m: MsgId)
    ensures HasFinal(ChunksIn(e, m)) <==> e.PushCall? && e.msgId == m && !e.raises && e.isFinal
  {
    if ChunksIn(e, m) != [] { assert ChunksIn(e, m)[0].isFinal == e.isFinal; }
  }

  lemma KeyHasBar(info: SessionInfo)
    ensures '|' in StreamKey(info.reqId, info.streamId)
  {
    assert StreamKey(info.reqId, info.streamId)[|info.reqId|] == '|';
  }

  /** After any run in which the message comes again, its next push is answered with yes. It delivers
      nothing exactly if it is not final and repeats the last chunk pushed before, that one was not final
      and found a stream open: the new stream is silent about what only the old one said. */
  lemma RedeliverySwallowsRepeat(before: seq<Event>, m: MsgId, info: SessionInfo, content: string, isFinal: bool, f: string)
    requires m != ""
    ensures var s := After(INITIAL, before + [Arrival(m, info)]);
            var r := Push(s, m, content, isFinal, f, false);
            var p := Pushed(before, m);
            r.1 && (r.0.delivered == s.delivered <==> !isFinal && p != [] && p[|p| - 1] == Chunk(content, false) && LastHeard(before, m))
  {
    hide SplitKey, After, Pushed, LastHeard, Open;
    var again := before + [Arrival(m, info)];
    assert again[..|before|] == before;
    KeptOfRun(before, m);
    KeyHasBar(info);
    var s0 := After(INITIAL, before);
    var s := Arrived(s0, m, info);
    assert After(INITIAL, again) == s by { AfterOneMore(INITIAL, before, Arrival(m, info)); }
    var r := Push(s, m, content, isFinal, f, false);
    assert |r.0.delivered| == |s.delivered| + if Repeats(s, m, content, isFinal) then 0 else 1;
  }

  lemma AfterOneMore(s: State, events: seq<Event>, e: Event)
    requires KeysHaveBars(s)
    ensures After(s, events + [e]) == Apply(After(s, events), e)
  {
    assert (events + [e])[..|events|] == events;
  }

  /** The same for a message that came once before: the next push says nothing exactly if no final chunk of
      the old stream was accepted and the last one accepted had the same content. */
  lemma SecondDelivery(before: seq<Event>, m: MsgId, first: SessionInfo, between: seq<Event>, second: SessionInfo, content: string, f: string)
    requires m != "" && forall e | e in before || e in between :: e.Arrival? ==> e.msgId != m
    ensures var s := After(INITIAL, before + [Arrival(m, first)] + between + [Arrival(m, second)]);
            var r, p := Push(s, m, content, false, f, false), Pushed(between, m);
            r.1 && (r.0.delivered == s.delivered <==> !HasFinal(p) && p != [] && p[|p| - 1].content == content)
  {
    hide After, Pushed, LastHeard, Open, Push, HasFinal;
    OneStream(before, m, first, between);
    var p := Pushed(between, m);
    if p != [] {
      assert p == p[..|p| - 1] + [p[|p| - 1]];
      PushedAppend(p[..|p| - 1], p[|p| - 1]);
    }
    RedeliverySwallowsRepeat(before + [Arrival(m, first)] + between, m, second, content, false, f);
  }

  lemma {:induction false} OneStream(before: seq<Event>, m: MsgId, info: SessionInfo, events: seq<Event>)
    requires m != "" && forall e | e in before || e in events :: e.Arrival? ==> e.msgId != m
    ensures var run, p := before + [Arrival(m, info)] + events, Pushed(events, m);
            (Open(run, m) <==> !HasFinal(p)) && Pushed(run, m) == Pushed(before, m) + p
            && (LastHeard(run, m) <==> p != [] && !HasFinal(p[..|p| - 1]))
    decreases |events|
  {
    hide HasFinal, ChunksIn, Open, LastHeard, Pushed;
    var start := before + [Arrival(m, info)];
    if events == [] {
      NoStream(before, m);
      assert start + [] == start;
      OneMoreEvent(before, Arrival(m, info), m);
      NoChunk(Arrival(m, info), m);
      assert Pushed(before, m) + [] == Pushed(before, m);
    } else {
      var front, e := events[..|events| - 1], events[|events| - 1];
      assert events == front + [e];
      OneStream(before, m, info, front);
      assert start + events == start + front + [e];
      OneMoreEvent(front, e, m);
      OneMoreEvent(start + front, e, m);
      OneMoreChunk(Pushed(front, m), e, m);
      assert Pushed(before, m) + (Pushed(front, m) + ChunksIn(e, m)) == Pushed(before, m) + Pushed(front, m) + ChunksIn(e, m);
    }
  }

  lemma NoChunk(e: Event, m: MsgId)
    requires e.Arrival?
    ensures ChunksIn(e, m) == [] && Pushed([], m) == [] && !HasFinal([])
  {
  }

  lemma OneMoreEvent(events: seq<Event>, e: Event, m: MsgId)
    ensures Pushed(events + [e], m) == Pushed(events, m) + ChunksIn(e, m)
    ensures Open(events + [e], m) <==> (e.Arrival? && e.msgId == m) || (Open(events, m) && !HasFinal(ChunksIn(e, m)))
    ensures LastHeard(events + [e], m) <==> if ChunksIn(e, m) != [] then Open(events, m) else LastHeard(events, m)
  {
    assert (events + [e])[..|events|] == events;
  }

  lemma OneMoreChunk(p: seq<Chunk>, e: Event, m: MsgId)
    ensures HasFinal(p + ChunksIn(e, m)) <==> HasFinal(p) || HasFinal(ChunksIn(e, m))
    ensures ChunksIn(e, m) == [] ==> p + ChunksIn(e, m) == p && !HasFinal(ChunksIn(e, m))
    ensures ChunksIn(e, m) != [] ==> (p + ChunksIn(e, m))[..|p + ChunksIn(e, m)| - 1] == p
  {
    if ChunksIn(e, m) == [] { assert p + [] == p; } else { PushedAppend(p, ChunksIn(e, m)[0]); }
    FinalIn(e, m);
  }

  lemma {:induction false} NoStream(events: seq<Event>, m: MsgId)
    requires forall e | e in events :: e.Arrival? ==> e.msgId != m
    ensures !Open(events, m) && !LastHeard(events, m)
  {
    if events != [] { NoStream(events[..|events| - 1], m); }
  }

  /** The case is reached, for all ids and contents: a chunk, the message again, the same chunk, and the new
      stream has delivered nothing though both pushes were answered with yes. */
  lemma SilentNewStream(m: MsgId, first: SessionInfo, second: SessionInfo, content: string, f: string)
    requires m != ""
    ensures var chunk := PushCall(m, content, false, f, false);
            var s1 := After(INITIAL, [Arrival(m, first)]);
            var s2 := After(INITIAL, [Arrival(m, first), chunk, Arrival(m, second)]);
            var ids := SplitKey(StreamKey(first.reqId, first.streamId));
            Push(s1, m, content, false, f, false).1 && Push(s2, m, content, false, f, false) == (s2, true)
            && s2.delivered == [Delivery(m, Reply(ids.0, ids.1, content, false, ""))]
            && m in s2.streamIds && s2.streamIds[m] == StreamKey(second.reqId, second.streamId)
  {
    hide SplitKey, StreamKey;
    KeyHasBar(first);
    KeyHasBar(second);
    var chunk := PushCall(m, content, false, f, false);
    AfterOneMore(INITIAL, [], Arrival(m, first));
    AfterOneMore(INITIAL, [Arrival(m, first)], chunk);
    AfterOneMore(INITIAL, [Arrival(m, first), chunk], Arrival(m, second));
    assert [] + [Arrival(m, first)] == [Arrival(m, first)];
    assert [Arrival(m, first)] + [chunk] == [Arrival(m, first), chunk];
    assert [Arrival(m, first), chunk] + [Arrival(m, second)] == [Arrival(m, first), chunk, Arrival(m, second)];
  }

  // ---------------------------------------------------------------- the client

  class StreamClient {
    var streamIds: map<MsgId, string>
    var lastContent: map<MsgId, string>
    var sessions: map<MsgId, SessionInfo>
    var feedbackSessions: map<string, SessionInfo>
    var msgFeedbackIds: map<MsgId, string>
    ghost var delivered: seq<Delivery>

    ghost function Abs(): State
      reads this
    {
      State(streamIds, lastContent, sessions, feedbackSessions, msgFeedbackIds, delivered)
    }

    constructor ()
      ensures Abs() == INITIAL
    {
      streamIds, lastContent, sessions, feedbackSessions, msgFeedbackIds, delivered := map[], map[], map[], map[], map[], [];
    }

    method HandleMessageCallback(msgId: MsgId, info: SessionInfo)
      modifies this
      ensures Abs() == Arrived(old(Abs()), msgId, info)
    {
      if msgId != "" {
        streamIds := streamIds[msgId := info.reqId + "|" + info.streamId];
        sessions := sessions[msgId := info];
      }
    }

    /** `reply_stream`, as far as this component sees it: it returns or it raises. */
    method ReplyStream(ghost msgId: MsgId, reply: Reply, raises: bool) returns (ok: bool)
      modifies `delivered
      ensures ok == !raises
      ensures delivered == if ok then old(delivered) + [Delivery(msgId, reply)] else old(delivered)
    {
      if raises { return false; }
      delivered := delivered + [Delivery(msgId, reply)];
      return true;
    }

    method PushStreamChunk(msgId: MsgId, content: string, isFinal: bool, feedbackId: string, raises: bool) returns (handled: bool)
      requires KeysHaveBars(Abs())
      modifies this
      ensures (Abs(), handled) == Push(old(Abs()), msgId, content, isFinal, feedbackId, raises)
    {
      hide SplitKey;
      if msgId !in streamIds || streamIds[msgId] == "" { return false; }
      var ids := SplitKey(streamIds[msgId]);
      if !isFinal && msgId in lastContent && content == lastContent[msgId] { return true; }
      var feedback := "";
      if isFinal {
        feedback := feedbackId;
        msgFeedbackIds := msgFeedbackIds[msgId := feedback];
        if msgId in sessions { feedbackSessions := feedbackSessions[feedback := sessions[msgId]]; }
      }
      var ok := ReplyStream(msgId, Reply(ids.0, ids.1, content, isFinal, feedback), raises);
      if !ok { return false; }
      lastContent := lastContent[msgId := content];
      if isFinal {
        streamIds := streamIds - {msgId};
        lastContent := lastContent - {msgId};
        assert lastContent == old(lastContent) - {msgId};
        sessions := sessions - {msgId};
      }
      return true;
    }

    /** `set_message`: the answer says whether the message was dropped. */
    method SetMessage(msgId: MsgId, content: string, feedbackId: string, raises: bool) returns (dropped: bool)
      requires KeysHaveBars(Abs())
      modifies this
      ensures (Abs(), !dropped) == Push(old(Abs()), msgId, content, true, feedbackId, raises)
    {
      var handled := PushStreamChunk(msgId, content, true, feedbackId, raises);
      return !handled;
    }
  }
}

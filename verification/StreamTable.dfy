/** The stream sessions of the WeCom AI bot in webhook mode (wecom_ai_bot_api/api.py) as values: the
    session table, its two indexes, and what stays true over every interleaving. */
module StreamTable {
  import opened Common

  datatype StreamChunk = StreamChunk(content: string, isFinal: bool)

  /** A session with the chunks refreshes have taken from it so far. */
  datatype Session = Session(msgId: string, lastAccess: real, finished: bool, lastChunk: Option<StreamChunk>,
                             feedbackId: Option<string>, taken: seq<StreamChunk>, queue: seq<StreamChunk>)
  {
    function Published(): seq<StreamChunk> { taken + queue }
  }

  const FEEDBACK_SESSION_TTL: real := 600.0

  /** `all` holds every session object ever created: a refresh that is waiting keeps using its session
      after the table dropped it. `live` are the keys of the table. */
  datatype Table = Table(ttl: real, all: map<string, Session>, live: set<string>,
                         msgIndex: map<string, string>, feedbackIndex: map<string, string>)

  function EmptyTable(ttl: real): Table { Table(ttl, map[], {}, map[], map[]) }

  // ---------------------------------------------------------------- the atomic steps

  function Touched(s: Session, now: real): Session { s.(lastAccess := now) }

  /** `create_or_get`; `freshId` is the new uuid, used only when a session is created. */
  function CreateOrGet(t: Table, msgId: string, now: real, freshId: string): (Table, string, bool)
    requires t.live <= t.all.Keys
  {
    if msgId != "" && msgId in t.msgIndex && t.msgIndex[msgId] in t.live then
      var id := t.msgIndex[msgId];
      (t.(all := t.all[id := Touched(t.all[id], now)]), id, false)
    else (Added(t, msgId, now, freshId), freshId, true)
  }

  function Added(t: Table, msgId: string, now: real, freshId: string): Table {
    t.(all := t.all[freshId := Session(msgId, now, false, None, None, [], [])], live := t.live + {freshId},
       msgIndex := if msgId != "" then t.msgIndex[msgId := freshId] else t.msgIndex)
  }

  /** `session.feedback_id = ...` and `register_feedback_id`. */
  function AttachFeedback(t: Table, id: string, feedbackId: string): Table
    requires id in t.all
  {
    t.(all := t.all[id := t.all[id].(feedbackId := Some(feedbackId))], feedbackIndex := t.feedbackIndex[feedbackId := id])
  }

  function InitialResponse(t: Table, msgId: string, now: real, freshId: string, feedbackId: string): Table
    requires t.live <= t.all.Keys
  {
    var r := CreateOrGet(t, msgId, now, freshId);
    AttachFeedback(r.0, r.1, feedbackId)
  }

  function Appended(s: Session, chunk: StreamChunk, now: real): Session {
    s.(lastAccess := now, lastChunk := Some(chunk), queue := s.queue + [chunk], finished := s.finished || chunk.isFinal)
  }

  function Publish(t: Table, id: string, chunk: StreamChunk, now: real): (Table, bool)
    requires t.live <= t.all.Keys
  {
    if id in t.live then (t.(all := t.all[id := Appended(t.all[id], chunk, now)]), true) else (t, false)
  }

  function MarkFinished(t: Table, id: string, now: real): Table
    requires t.live <= t.all.Keys
  {
    if id in t.live then t.(all := t.all[id := t.all[id].(finished := true, lastAccess := now)]) else t
  }

  function StreamOf(t: Table, msgId: string): Option<string> {
    if msgId != "" && msgId in t.msgIndex then Some(t.msgIndex[msgId]) else None
  }

  /** `push_stream_chunk`: the answer of `publish` is ignored. */
  function PushStreamChunk(t: Table, msgId: string, chunk: StreamChunk, now: real): (Table, bool)
    requires t.live <= t.all.Keys
  {
    match StreamOf(t, msgId)
    case None => (t, false)
    case Some(id) =>
      if id == "" then (t, false)
      else
        var p := Publish(t, id, chunk, now).0;
        (if chunk.isFinal then MarkFinished(p, id, now) else p, true)
  }

  /** `consume` up to its wait. */
  function ConsumeBegin(t: Table, id: string, now: real): Table
    requires t.live <= t.all.Keys
  {
    if id in t.live then t.(all := t.all[id := Touched(t.all[id], now)]) else t
  }

  /** The wait ended with a chunk; the session is the one `consume` looked up, live or not. */
  function TakeChunk(t: Table, id: string, now: real): Table
    requires id in t.all && t.all[id].queue != []
  {
    var s := t.all[id];
    t.(all := t.all[id := s.(lastAccess := now, queue := s.queue[1..], taken := s.taken + [s.queue[0]],
                             finished := s.finished || s.queue[0].isFinal)])
  }

  /** The wait ended with a timeout. */
  function ReplayedChunk(s: Session): Option<StreamChunk> {
    if s.finished then s.lastChunk else None
  }

  predicate HasFeedback(s: Session) { s.feedbackId.Some? && s.feedbackId.value != "" }

  predicate Expired(t: Table, s: Session, now: real) {
    now - s.lastAccess > if HasFeedback(s) then FEEDBACK_SESSION_TTL else t.ttl
  }

  function ExpiredIds(t: Table, now: real): set<string>
    requires t.live <= t.all.Keys
  {
    set id | id in t.live && Expired(t, t.all[id], now)
  }

  lemma ExpiredAreLive(t: Table, now: real)
    requires t.live <= t.all.Keys
    ensures ExpiredIds(t, now) <= t.live
  {
  }

  /** The sessions `gone` leave the table: an index entry goes with its session, if it points there. */
  function Dropped(t: Table, gone: set<string>): Table
    requires gone <= t.all.Keys
  {
    t.(live := t.live - gone,
       msgIndex := map m | m in t.msgIndex && !(t.msgIndex[m] in gone && t.all[t.msgIndex[m]].msgId == m && m != "") :: t.msgIndex[m],
       feedbackIndex := t.feedbackIndex - (set id | id in gone && HasFeedback(t.all[id]) :: t.all[id].feedbackId.value))
  }

  function Cleanup(t: Table, now: real): Table
    requires t.live <= t.all.Keys
  {
    Dropped(t, ExpiredIds(t, now))
  }

  lemma DroppedOne(t: Table, id: string)
    requires id in t.all
    ensures var s := t.all[id];
            Dropped(t, {id}) == t.(
              live := t.live - {id},
              msgIndex := if s.msgId != "" && s.msgId in t.msgIndex && t.msgIndex[s.msgId] == id then t.msgIndex - {s.msgId} else t.msgIndex,
              feedbackIndex := if HasFeedback(s) then t.feedbackIndex - {s.feedbackId.value} else t.feedbackIndex)
  {
    var s, d := t.all[id], Dropped(t, {id});
    var pointsHere := s.msgId != "" && s.msgId in t.msgIndex && t.msgIndex[s.msgId] == id;
    assert d.msgIndex == if pointsHere then t.msgIndex - {s.msgId} else t.msgIndex;
    assert d.feedbackIndex == if HasFeedback(s) then t.feedbackIndex - {s.feedbackId.value} else t.feedbackIndex;
  }

  lemma DroppedNothing(t: Table)
    ensures Dropped(t, {}) == t
  {
    assert Dropped(t, {}).msgIndex == t.msgIndex;
    assert Dropped(t, {}).feedbackIndex == t.feedbackIndex;
  }

  lemma DroppedOneMore(t: Table, gone: set<string>, id: string)
    requires gone <= t.all.Keys && id in t.all && id !in gone
    ensures Dropped(t, gone + {id}).all == t.all && Dropped(t, gone + {id}).live == t.live - gone - {id}
    ensures Dropped(t, gone).all == t.all && Dropped(t, gone).live == t.live - gone
    ensures Dropped(Dropped(t, gone), {id}) == Dropped(t, gone + {id})
  {
    var a, b := Dropped(Dropped(t, gone), {id}), Dropped(t, gone + {id});
    assert a.live == b.live;
    assert a.msgIndex == b.msgIndex;
    assert a.feedbackIndex == b.feedbackIndex;
  }

  /** `get_session_by_feedback_id`. */
  function SessionByFeedback(t: Table, feedbackId: string): Option<string> {
    if feedbackId != "" && feedbackId in t.feedbackIndex && t.feedbackIndex[feedbackId] in t.live
    then Some(t.feedbackIndex[feedbackId]) else None
  }

  // ---------------------------------------------------------------- runs

  datatype Step =
    | Callback(msgId: string, now: real, freshId: string, feedbackId: string)
    | Push(pushed: string, chunk: StreamChunk, now: real)
    | Refresh(stream: string, now: real)
    | Take(stream: string, now: real)
    | TimedOut(stream: string)
    | Finish(stream: string, now: real)
    | Sweep(now: real)

  /** Uuids are new; a wait ends with a chunk only when there is one, for a session that exists. */
  ghost predicate Enabled(t: Table, step: Step) {
    match step
    case Callback(_, _, freshId, feedbackId) =>
      freshId != "" && freshId !in t.all && feedbackId != "" && feedbackId !in t.feedbackIndex
      && forall id | id in t.all :: t.all[id].feedbackId != Some(feedbackId)
    case Take(id, _) => id in t.all && t.all[id].queue != []
    case TimedOut(id) => id in t.all
    case _ => true
  }

  /** The message index and the live sessions with a message id point at each other. */
  ghost predicate MsgIndexAgrees(t: Table)
    requires t.live <= t.all.Keys
  {
    (forall m | m in t.msgIndex :: m != "" && t.msgIndex[m] in t.live && t.all[t.msgIndex[m]].msgId == m)
    && (forall id | id in t.live && t.all[id].msgId != "" ::
          t.all[id].msgId in t.msgIndex && t.msgIndex[t.all[id].msgId] == id)
  }

  /** Every live session is found under its latest feedback id, and an entry outlives its session only
      if it is not the latest one. */
  ghost predicate FeedbackIndexAgrees(t: Table)
    requires t.live <= t.all.Keys
  {
    (forall id | id in t.live && t.all[id].feedbackId.Some? ::
       t.all[id].feedbackId.value in t.feedbackIndex && t.feedbackIndex[t.all[id].feedbackId.value] == id)
    && (forall f | f in t.feedbackIndex :: f != "" && t.feedbackIndex[f] in t.all
          && (t.feedbackIndex[f] in t.live || t.all[t.feedbackIndex[f]].feedbackId != Some(f)))
  }

  /** The last chunk is the one published last, and a published final chunk has finished the session. */
  ghost predicate SessionAgrees(s: Session) {
    var p := s.Published();
    s.lastChunk == (if p == [] then None else Some(p[|p| - 1]))
    && (forall i :: 0 <= i < |p| && p[i].isFinal ==> s.finished)
  }

  ghost predicate Inv(t: Table) {
    t.live <= t.all.Keys && "" !in t.all && MsgIndexAgrees(t) && FeedbackIndexAgrees(t)
    && forall id | id in t.all :: SessionAgrees(t.all[id])
  }

  ghost function Apply(t: Table, step: Step): Table
    requires Inv(t) && Enabled(t, step)
  {
    match step
    case Callback(msgId, now, freshId, feedbackId) => InitialResponse(t, msgId, now, freshId, feedbackId)
    case Push(msgId, chunk, now) => PushStreamChunk(t, msgId, chunk, now).0
    case Refresh(id, now) => ConsumeBegin(t, id, now)
    case Take(id, now) => TakeChunk(t, id, now)
    case TimedOut(_) => t
    case Finish(id, now) => MarkFinished(t, id, now)
    case Sweep(now) => Cleanup(t, now)
  }

  /** A session may change anything but its two ids. */
  lemma ReplacedKeeps(t: Table, id: string, s: Session)
    requires Inv(t) && id in t.all && SessionAgrees(s)
    requires s.msgId == t.all[id].msgId && s.feedbackId == t.all[id].feedbackId
    ensures Inv(t.(all := t.all[id := s]))
  {
    hide SessionAgrees;
  }

  lemma CreateKeeps(t: Table, msgId: string, now: real, freshId: string)
    requires Inv(t) && freshId != "" && freshId !in t.all
    ensures var r := CreateOrGet(t, msgId, now, freshId);
            Inv(r.0) && r.1 in r.0.live && r.0.feedbackIndex == t.feedbackIndex
            && forall id | id in r.0.all :: r.0.all[id].feedbackId == if id in t.all then t.all[id].feedbackId else None
  {
    hide SessionAgrees;
    if msgId != "" && msgId in t.msgIndex {
      var id := t.msgIndex[msgId];
      assert SessionAgrees(Touched(t.all[id], now)) by { TouchedAgrees(t.all[id], now); }
      ReplacedKeeps(t, id, Touched(t.all[id], now));
    } else {
      NewSessionKeeps(t, msgId, now, freshId);
    }
  }

  lemma TouchedAgrees(s: Session, now: real)
    requires SessionAgrees(s)
    ensures SessionAgrees(Touched(s, now)) && SessionAgrees(s.(finished := true, lastAccess := now))
  {
    assert Touched(s, now).Published() == s.Published() == s.(finished := true, lastAccess := now).Published();
  }

  lemma NewSessionKeeps(t: Table, msgId: string, now: real, freshId: string)
    requires Inv(t) && freshId != "" && freshId !in t.all && (msgId == "" || msgId !in t.msgIndex)
    ensures Inv(CreateOrGet(t, msgId, now, freshId).0)
  {
    hide SessionAgrees;
    var s := Session(msgId, now, false, None, None, [], []);
    assert SessionAgrees(s) by { EmptyAgrees(msgId, now); }
  }

  lemma EmptyAgrees(msgId: string, now: real)
    ensures SessionAgrees(Session(msgId, now, false, None, None, [], []))
  {
  }

  lemma AttachKeeps(t: Table, id: string, feedbackId: string)
    requires Inv(t) && id in t.live && feedbackId != "" && feedbackId !in t.feedbackIndex
    requires forall i | i in t.all :: t.all[i].feedbackId != Some(feedbackId)
    ensures Inv(AttachFeedback(t, id, feedbackId))
  {
    hide SessionAgrees;
    assert SessionAgrees(t.all[id].(feedbackId := Some(feedbackId))) by { AttachedAgrees(t.all[id], feedbackId); }
  }

  lemma AttachedAgrees(s: Session, feedbackId: string)
    requires SessionAgrees(s)
    ensures SessionAgrees(s.(feedbackId := Some(feedbackId)))
  {
    assert s.(feedbackId := Some(feedbackId)).Published() == s.Published();
  }

  lemma AppendedAgrees(s: Session, chunk: StreamChunk, now: real)
    requires SessionAgrees(s)
    ensures SessionAgrees(Appended(s, chunk, now))
    ensures Appended(s, chunk, now).Published() == s.Published() + [chunk]
  {
    assert s.taken + (s.queue + [chunk]) == s.Published() + [chunk];
  }

  lemma TakenAgrees(s: Session, now: real)
    requires SessionAgrees(s) && s.queue != []
    ensures var s' := s.(lastAccess := now, queue := s.queue[1..], taken := s.taken + [s.queue[0]],
                         finished := s.finished || s.queue[0].isFinal);
            SessionAgrees(s') && s'.Published() == s.Published()
  {
    assert s.taken + [s.queue[0]] + s.queue[1..] == s.taken + s.queue;
  }

  lemma PublishKeeps(t: Table, id: string, chunk: StreamChunk, now: real)
    requires Inv(t)
    ensures Inv(Publish(t, id, chunk, now).0)
  {
    hide SessionAgrees, MsgIndexAgrees, FeedbackIndexAgrees;
    if id in t.live {
      AppendedAgrees(t.all[id], chunk, now);
      ReplacedKeeps(t, id, Appended(t.all[id], chunk, now));
    }
  }

  lemma FinishKeeps(t: Table, id: string, now: real)
    requires Inv(t)
    ensures Inv(MarkFinished(t, id, now)) && Inv(ConsumeBegin(t, id, now))
  {
    hide SessionAgrees, MsgIndexAgrees, FeedbackIndexAgrees;
    if id in t.live {
      TouchedAgrees(t.all[id], now);
      ReplacedKeeps(t, id, t.all[id].(finished := true, lastAccess := now));
      ReplacedKeeps(t, id, Touched(t.all[id], now));
    }
  }

  /** Every step keeps the indexes and the table in agreement. */
  lemma InvKept(t: Table, step: Step)
    requires Inv(t) && Enabled(t, step)
    ensures Inv(Apply(t, step))
  {
    hide Inv, CreateOrGet, AttachFeedback, Publish, MarkFinished, Cleanup, ConsumeBegin;
    assert t.live <= t.all.Keys by { TableCovered(t); }
    match step
    case Callback(msgId, now, freshId, feedbackId) =>
      CreateKeeps(t, msgId, now, freshId);
      var r := CreateOrGet(t, msgId, now, freshId);
      AttachKeeps(r.0, r.1, feedbackId);
    case Push(msgId, chunk, now) =>
      if StreamOf(t, msgId).Some? {
        var id := StreamOf(t, msgId).value;
        PublishKeeps(t, id, chunk, now);
        TableCovered(Publish(t, id, chunk, now).0);
        FinishKeeps(Publish(t, id, chunk, now).0, id, now);
      }
    case Refresh(id, now) => FinishKeeps(t, id, now);
    case Take(id, now) =>
      SessionCovered(t, id);
      TakenAgrees(t.all[id], now);
      ReplacedKeeps(t, id, TakeChunk(t, id, now).all[id]);
    case TimedOut(_) =>
    case Finish(id, now) => FinishKeeps(t, id, now);
    case Sweep(now) => SweepKeeps(t, now);
  }

  lemma TableCovered(t: Table)
    requires Inv(t)
    ensures t.live <= t.all.Keys
  {
  }

  lemma SessionCovered(t: Table, id: string)
    requires Inv(t) && id in t.all
    ensures SessionAgrees(t.all[id])
  {
  }

  lemma SweepKeeps(t: Table, now: real)
    requires Inv(t)
    ensures Inv(Cleanup(t, now))
  {
    hide SessionAgrees;
    var t' := Cleanup(t, now);
    assert MsgIndexAgrees(t');
    assert FeedbackIndexAgrees(t');
  }

  // ---------------------------------------------------------------- what the invariant gives

  /** Non-empty message ids and the live sessions carrying them correspond one to one. */
  lemma MessageIndexBijection(t: Table, m: string)
    requires Inv(t) && m != ""
    ensures m in t.msgIndex <==> exists id :: id in t.live && t.all[id].msgId == m
    ensures forall id, id' :: id in t.live && id' in t.live && t.all[id].msgId == m == t.all[id'].msgId ==> id == id'
    ensures forall id | id in t.live && t.all[id].msgId == m :: StreamOf(t, m) == Some(id)
  {
    hide SessionAgrees, FeedbackIndexAgrees;
  }

  /** `push_stream_chunk` answers yes exactly when a live session carries the message id, and then the
      chunk is the last one published to that session: the ignored answer of `publish` was yes. */
  lemma PushIsNeverDropped(t: Table, m: string, chunk: StreamChunk, now: real)
    requires Inv(t)
    ensures var r := PushStreamChunk(t, m, chunk, now);
            && (r.1 <==> m != "" && exists id :: id in t.live && t.all[id].msgId == m)
            && r.0.live == t.live && r.0.all.Keys == t.all.Keys
            && forall id | id in t.all ::
                 r.0.all[id].Published() == t.all[id].Published() + (if StreamOf(t, m) == Some(id) then [chunk] else [])
                 && r.0.all[id].taken == t.all[id].taken
  {
    hide SessionAgrees, FeedbackIndexAgrees;
    var r := PushStreamChunk(t, m, chunk, now);
    if StreamOf(t, m).Some? {
      var id := StreamOf(t, m).value;
      assert id in t.live && id != "";
      assert t.all[id].taken + (t.all[id].queue + [chunk]) == t.all[id].Published() + [chunk];
    }
    forall id | id in t.all && StreamOf(t, m) != Some(id)
      ensures r.0.all[id].Published() == t.all[id].Published() + []
    {
      assert r.0.all[id] == t.all[id] && t.all[id].Published() + [] == t.all[id].Published();
    }
  }

  // ---------------------------------------------------------------- whole runs

  ghost predicate Enabling(t: Table, steps: seq<Step>)
    requires Inv(t)
    decreases |steps|
  {
    steps == [] || (Enabled(t, steps[0]) && (InvKept(t, steps[0]); Enabling(Apply(t, steps[0]), steps[1..])))
  }

  ghost function After(t: Table, steps: seq<Step>): (r: Table)
    requires Inv(t) && Enabling(t, steps)
    ensures Inv(r)
    decreases |steps|
  {
    if steps == [] then t
    else
      InvKept(t, steps[0]);
      After(Apply(t, steps[0]), steps[1..])
  }

  lemma EmptyTableAgrees(ttl: real)
    ensures Inv(EmptyTable(ttl))
  {
  }

  /** The chunk a step publishes to the session `id`, and the one it hands to a refresh. */
  ghost function PublishedBy(t: Table, step: Step, id: string): seq<StreamChunk> {
    if step.Push? && StreamOf(t, step.pushed) == Some(id) then [step.chunk] else []
  }

  ghost function TakenBy(t: Table, step: Step, id: string): seq<StreamChunk>
    requires Enabled(t, step)
  {
    if step.Take? && step.stream == id then [t.all[id].queue[0]] else []
  }

  ghost function PublishedIn(t: Table, steps: seq<Step>, id: string): seq<StreamChunk>
    requires Inv(t) && Enabling(t, steps)
    decreases |steps|
  {
    if steps == [] then []
    else
      InvKept(t, steps[0]);
      PublishedBy(t, steps[0], id) + PublishedIn(Apply(t, steps[0]), steps[1..], id)
  }

  ghost function TakenIn(t: Table, steps: seq<Step>, id: string): seq<StreamChunk>
    requires Inv(t) && Enabling(t, steps)
    decreases |steps|
  {
    if steps == [] then []
    else
      InvKept(t, steps[0]);
      TakenBy(t, steps[0], id) + TakenIn(Apply(t, steps[0]), steps[1..], id)
  }

  ghost function PublishedOf(t: Table, id: string): seq<StreamChunk> {
    if id in t.all then t.all[id].Published() else []
  }

  ghost function TakenOf(t: Table, id: string): seq<StreamChunk> {
    if id in t.all then t.all[id].taken else []
  }

  /** One step publishes and takes what `PublishedBy` and `TakenBy` say, for every session. */
  lemma StepChunks(t: Table, step: Step, id: string)
    requires Inv(t) && Enabled(t, step)
    ensures var t' := Apply(t, step);
            PublishedOf(t', id) == PublishedOf(t, id) + PublishedBy(t, step, id)
            && TakenOf(t', id) == TakenOf(t, id) + TakenBy(t, step, id)
  {
    hide Inv, SessionAgrees, FeedbackIndexAgrees, MsgIndexAgrees, PushStreamChunk, InitialResponse, Cleanup;
    TableCovered(t);
    match step
    case Push(m, chunk, now) =>
      PushIsNeverDropped(t, m, chunk, now);
      PushedIsCreated(t, m);
    case Take(i, now) =>
      var s := t.all[i];
      assert s.taken + [s.queue[0]] + s.queue[1..] == s.Published();
    case Callback(m, now, freshId, f) =>
      CallbackChunks(t, m, now, freshId, f, id);
    case Sweep(now) =>
      assert Cleanup(t, now).all == t.all by { SweptAll(t, now); }
    case _ =>
      var t' := Apply(t, step);
      assert TakenOf(t', id) == TakenOf(t, id) && PublishedOf(t', id) == PublishedOf(t, id);
  }

  lemma PushedIsCreated(t: Table, m: string)
    requires Inv(t)
    ensures StreamOf(t, m).Some? ==> StreamOf(t, m).value in t.all
  {
    hide SessionAgrees, FeedbackIndexAgrees;
  }

  lemma CallbackChunks(t: Table, m: string, now: real, freshId: string, f: string, id: string)
    requires t.live <= t.all.Keys && freshId !in t.all
    ensures var t' := InitialResponse(t, m, now, freshId, f); PublishedOf(t', id) == PublishedOf(t, id) && TakenOf(t', id) == TakenOf(t, id)
  {
  }

  lemma SweptAll(t: Table, now: real)
    requires t.live <= t.all.Keys
    ensures Cleanup(t, now).all == t.all
  {
  }

  lemma {:induction false} RunChunks(t: Table, steps: seq<Step>, id: string)
    requires Inv(t) && Enabling(t, steps)
    ensures PublishedOf(After(t, steps), id) == PublishedOf(t, id) + PublishedIn(t, steps, id)
    ensures TakenOf(After(t, steps), id) == TakenOf(t, id) + TakenIn(t, steps, id)
    decreases |steps|
  {
    hide Inv, PublishedBy, TakenBy, PublishedOf, TakenOf, Apply, Enabled;
    if steps != [] {
      InvKept(t, steps[0]);
      StepChunks(t, steps[0], id);
      RunChunks(Apply(t, steps[0]), steps[1..], id);
    }
  }

  /** A run from the empty table. */
  ghost predicate Run(ttl: real, steps: seq<Step>) {
    EmptyTableAgrees(ttl);
    Enabling(EmptyTable(ttl), steps)
  }

  ghost function TakenInRun(ttl: real, steps: seq<Step>, id: string): seq<StreamChunk>
    requires Run(ttl, steps)
  {
    EmptyTableAgrees(ttl);
    TakenIn(EmptyTable(ttl), steps, id)
  }

  ghost function PublishedInRun(ttl: real, steps: seq<Step>, id: string): seq<StreamChunk>
    requires Run(ttl, steps)
  {
    EmptyTableAgrees(ttl);
    PublishedIn(EmptyTable(ttl), steps, id)
  }

  /** Over every run from the start, what refreshes took from a session is a prefix of what was
      published to it, in the same order. */
  lemma TakenIsPrefixOfPublished(ttl: real, steps: seq<Step>, id: string)
    requires Run(ttl, steps)
    ensures TakenInRun(ttl, steps, id) <= PublishedInRun(ttl, steps, id)
  {
    hide Inv, Enabling, After, PublishedIn, TakenIn;
    var t := EmptyTable(ttl);
    EmptyTableAgrees(ttl);
    RunChunks(t, steps, id);
    assert TakenOf(t, id) == [] && PublishedOf(t, id) == [];
    assert TakenOf(After(t, steps), id) <= PublishedOf(After(t, steps), id);
    assert [] + TakenIn(t, steps, id) == TakenIn(t, steps, id);
    assert [] + PublishedIn(t, steps, id) == PublishedIn(t, steps, id);
  }

  /** The session's last published chunk was final and has been taken. */
  ghost predicate Drained(t: Table, id: string, chunk: StreamChunk) {
    id in t.all && t.all[id].queue == [] && t.all[id].taken != []
    && t.all[id].taken[|t.all[id].taken| - 1] == chunk && chunk.isFinal
  }

  lemma DrainedReplays(t: Table, id: string, chunk: StreamChunk)
    requires Inv(t) && Drained(t, id, chunk)
    ensures ReplayedChunk(t.all[id]) == Some(chunk)
  {
    SessionCovered(t, id);
    var s := t.all[id];
    assert s.taken + s.queue == s.taken;
    assert s.Published()[|s.taken| - 1].isFinal;
  }

  /** Once a final chunk published last has been taken, then after any further steps that publish
      nothing to the session, a refresh finds the queue empty and answers with that same chunk. */
  lemma {:induction false} FinalChunkIsReplayed(t: Table, steps: seq<Step>, id: string, chunk: StreamChunk)
    requires Inv(t) && Enabling(t, steps) && Drained(t, id, chunk) && PublishedIn(t, steps, id) == []
    ensures var t' := After(t, steps); Drained(t', id, chunk) && ReplayedChunk(t'.all[id]) == Some(chunk)
    decreases |steps|
  {
    hide Inv, SessionAgrees, ReplayedChunk;
    if steps == [] {
      DrainedReplays(t, id, chunk);
    } else {
      InvKept(t, steps[0]);
      assert PublishedBy(t, steps[0], id) == [];
      StillDrained(t, steps[0], id, chunk);
      FinalChunkIsReplayed(Apply(t, steps[0]), steps[1..], id, chunk);
    }
  }

  lemma StillDrained(t: Table, step: Step, id: string, chunk: StreamChunk)
    requires Inv(t) && Enabled(t, step) && Drained(t, id, chunk) && PublishedBy(t, step, id) == []
    ensures Drained(Apply(t, step), id, chunk)
  {
    hide SessionAgrees, FeedbackIndexAgrees;
    StepChunks(t, step, id);
    var s, s' := t.all[id], Apply(t, step).all[id];
    assert s.taken + s.queue == s.taken;
    assert s'.taken == s.taken && s'.Published() == s.taken;
    assert |s'.taken| + |s'.queue| == |s.taken|;
  }

  // ---------------------------------------------------------------- feedback ids

  /** The feedback id a callback gives out and the session it gives it to. */
  ghost function GivenBy(t: Table, step: Step): seq<(string, string)>
    requires t.live <= t.all.Keys
  {
    if step.Callback? then [(step.feedbackId, CreateOrGet(t, step.msgId, step.now, step.freshId).1)] else []
  }

  ghost function GivenIn(t: Table, steps: seq<Step>): seq<(string, string)>
    requires Inv(t) && Enabling(t, steps)
    decreases |steps|
  {
    if steps == [] then []
    else
      InvKept(t, steps[0]);
      TableCovered(t);
      GivenBy(t, steps[0]) + GivenIn(Apply(t, steps[0]), steps[1..])
  }

  /** The session got another feedback id later. */
  ghost predicate Superseded(given: seq<(string, string)>, i: nat)
    requires i < |given|
  {
    exists j :: i < j < |given| && given[j].1 == given[i].1
  }

  ghost predicate FreshlyGiven(given: seq<(string, string)>) {
    (forall i :: 0 <= i < |given| ==> given[i].0 != "")
    && forall i, j :: 0 <= i < j < |given| ==> given[i].0 != given[j].0
  }

  /** A session carries the last feedback id it was given. */
  ghost predicate SessionsCarryLatest(all: map<string, Session>, given: seq<(string, string)>) {
    (forall i :: 0 <= i < |given| ==> given[i].1 in all && (!Superseded(given, i) ==> all[given[i].1].feedbackId == Some(given[i].0)))
    && forall id | id in all && all[id].feedbackId.Some? :: exists i :: 0 <= i < |given| && given[i] == (all[id].feedbackId.value, id)
  }

  /** The index has the ids of live sessions, and of gone ones those that were not their latest. */
  ghost predicate EntriesAre(index: map<string, string>, live: set<string>, given: seq<(string, string)>) {
    (forall i :: 0 <= i < |given| ==> (given[i].0 in index <==> given[i].1 in live || Superseded(given, i)))
    && (forall i :: 0 <= i < |given| && given[i].0 in index ==> index[given[i].0] == given[i].1)
    && forall f | f in index :: exists i :: 0 <= i < |given| && given[i].0 == f
  }

  ghost predicate GivenAgrees(t: Table, given: seq<(string, string)>) {
    FreshlyGiven(given) && SessionsCarryLatest(t.all, given) && EntriesAre(t.feedbackIndex, t.live, given)
  }

  lemma SupersededMore(given: seq<(string, string)>, g: (string, string), i: nat)
    requires i < |given|
    ensures Superseded(given + [g], i) <==> Superseded(given, i) || g.1 == given[i].1
  {
    var all := given + [g];
    if Superseded(given, i) {
      var j :| i < j < |given| && given[j].1 == given[i].1;
      assert all[j].1 == all[i].1;
    }
    if g.1 == given[i].1 { assert all[|given|].1 == all[i].1; }
  }

  /** A feedback id that a callback may use was not given out before. */
  lemma NewFeedbackId(t: Table, given: seq<(string, string)>, f: string, i: nat)
    requires GivenAgrees(t, given) && i < |given|
    requires f !in t.feedbackIndex && forall id | id in t.all :: t.all[id].feedbackId != Some(f)
    ensures given[i].0 != f
  {
  }

  lemma CallbackGiven(t: Table, given: seq<(string, string)>, step: Step)
    requires Inv(t) && Enabled(t, step) && step.Callback? && GivenAgrees(t, given)
    ensures GivenAgrees(Apply(t, step), given + GivenBy(t, step))
  {
    hide Inv, SessionAgrees, MsgIndexAgrees, FeedbackIndexAgrees, FreshlyGiven, SessionsCarryLatest, EntriesAre, Superseded;
    TableCovered(t);
    var r := CreateOrGet(t, step.msgId, step.now, step.freshId);
    var g := (step.feedbackId, r.1);
    assert GivenBy(t, step) == [g];
    forall i | 0 <= i < |given|
      ensures given[i].0 != g.0
    {
      NewFeedbackId(t, given, g.0, i);
    }
    var t' := Apply(t, step);
    GivenOneMore(given, g);
    CarryOneMore(t.all, r.0.all, given, g);
    EntriesOneMore(t.feedbackIndex, t.live, r.0.live, given, g, t.all);
  }

  lemma GivenOneMore(given: seq<(string, string)>, g: (string, string))
    requires FreshlyGiven(given) && g.0 != "" && forall i :: 0 <= i < |given| ==> given[i].0 != g.0
    ensures FreshlyGiven(given + [g])
  {
  }

  lemma CarryOneMore(all: map<string, Session>, all1: map<string, Session>, given: seq<(string, string)>, g: (string, string))
    requires SessionsCarryLatest(all, given) && all1.Keys == all.Keys + {g.1}
    requires forall id | id in all :: all1[id].feedbackId == all[id].feedbackId
    requires g.1 !in all ==> all1[g.1].feedbackId.None?
    ensures SessionsCarryLatest(all1[g.1 := all1[g.1].(feedbackId := Some(g.0))], given + [g])
  {
    var all', given' := all1[g.1 := all1[g.1].(feedbackId := Some(g.0))], given + [g];
    forall i | 0 <= i < |given'|
      ensures given'[i].1 in all' && (!Superseded(given', i) ==> all'[given'[i].1].feedbackId == Some(given'[i].0))
    {
      if i < |given| { SupersededMore(given, g, i); }
    }
    forall id | id in all' && all'[id].feedbackId.Some?
      ensures exists i :: 0 <= i < |given'| && given'[i] == (all'[id].feedbackId.value, id)
    {
      if id == g.1 {
        assert given'[|given|] == (all'[id].feedbackId.value, id);
      } else {
        var i :| 0 <= i < |given| && given[i] == (all[id].feedbackId.value, id);
        assert given'[i] == (all'[id].feedbackId.value, id);
      }
    }
  }

  lemma EntriesOneMore(index: map<string, string>, live: set<string>, live': set<string>, given: seq<(string, string)>,
                                          g: (string, string), all: map<string, Session>)
    requires EntriesAre(index, live, given) && live' == live + {g.1} && SessionsCarryLatest(all, given) && (g.1 in live || g.1 !in all)
    requires forall i :: 0 <= i < |given| ==> given[i].0 != g.0
    ensures EntriesAre(index[g.0 := g.1], live', given + [g])
  {
    hide SessionsCarryLatest;
    var index', given' := index[g.0 := g.1], given + [g];
    forall i | 0 <= i < |given'|
      ensures given'[i].0 in index' <==> given'[i].1 in live' || Superseded(given', i)
      ensures given'[i].0 in index' ==> index'[given'[i].0] == given'[i].1
    {
      if i < |given| {
        SupersededMore(given, g, i);
        GivenIsCreated(all, given, i);
      }
    }
    forall f | f in index'
      ensures exists i :: 0 <= i < |given'| && given'[i].0 == f
    {
      if f == g.0 {
        assert given'[|given|].0 == f;
      } else {
        var i :| 0 <= i < |given| && given[i].0 == f;
        assert given'[i].0 == f;
      }
    }
  }

  lemma GivenIsCreated(all: map<string, Session>, given: seq<(string, string)>, i: nat)
    requires SessionsCarryLatest(all, given) && i < |given|
    ensures given[i].1 in all
  {
  }

  lemma SweepGiven(t: Table, given: seq<(string, string)>, now: real)
    requires Inv(t) && GivenAgrees(t, given)
    ensures GivenAgrees(Cleanup(t, now), given)
  {
    hide SessionAgrees, MsgIndexAgrees, FeedbackIndexAgrees, Superseded;
    var t' := Cleanup(t, now);
    var gone := ExpiredIds(t, now);
    assert t'.live == t.live - gone && gone <= t.live;
    forall i | 0 <= i < |given|
      ensures given[i].0 in t'.feedbackIndex <==> given[i].1 in t'.live || Superseded(given, i)
    {
      GivenDropped(t, given, gone, i);
    }
  }

  /** Dropping sessions drops exactly the entries of their latest feedback ids. */
  lemma GivenDropped(t: Table, given: seq<(string, string)>, gone: set<string>, i: nat)
    requires GivenAgrees(t, given) && gone <= t.live <= t.all.Keys && i < |given|
    ensures given[i].0 in Dropped(t, gone).feedbackIndex <==> given[i].0 in t.feedbackIndex && (given[i].1 in gone ==> Superseded(given, i))
  {
    var (f, id) := given[i];
    if id in gone && !Superseded(given, i) {
      assert HasFeedback(t.all[id]) && t.all[id].feedbackId.value == f;
    }
    forall other | other in gone && HasFeedback(t.all[other]) && t.all[other].feedbackId.value == f
      ensures other == id && !Superseded(given, i)
    {
      var j :| 0 <= j < |given| && given[j] == (f, other);
      assert i == j;
      LatestNotSuperseded(t, given, i);
    }
  }

  lemma LatestNotSuperseded(t: Table, given: seq<(string, string)>, i: nat)
    requires GivenAgrees(t, given) && i < |given| && given[i].1 in t.all && t.all[given[i].1].feedbackId == Some(given[i].0)
    ensures !Superseded(given, i)
  {
    if Superseded(given, i) {
      var j := LastGiven(given, i);
    }
  }

  /** The last feedback id given to the session of entry `i`. */
  lemma {:induction false} LastGiven(given: seq<(string, string)>, i: nat) returns (j: nat)
    requires i < |given| && Superseded(given, i)
    ensures i < j < |given| && given[j].1 == given[i].1 && !Superseded(given, j)
    decreases |given| - i
  {
    j :| i < j < |given| && given[j].1 == given[i].1;
    if Superseded(given, j) { j := LastGiven(given, j); }
  }

  lemma StepGiven(t: Table, given: seq<(string, string)>, step: Step)
    requires Inv(t) && Enabled(t, step) && GivenAgrees(t, given)
    ensures t.live <= t.all.Keys && GivenAgrees(Apply(t, step), given + GivenBy(t, step))
  {
    hide Inv, SessionAgrees, MsgIndexAgrees, FeedbackIndexAgrees, GivenAgrees, CreateOrGet, AttachFeedback;
    TableCovered(t);
    assert given + [] == given;
    match step
    case Callback(_, _, _, _) => CallbackGiven(t, given, step);
    case Sweep(now) => SweepGiven(t, given, now);
    case _ => SameFeedback(t, Apply(t, step), given);
  }

  lemma SameFeedback(t: Table, t': Table, given: seq<(string, string)>)
    requires GivenAgrees(t, given) && t'.all.Keys == t.all.Keys && t'.live == t.live && t'.feedbackIndex == t.feedbackIndex
    requires forall id | id in t.all :: t'.all[id].feedbackId == t.all[id].feedbackId
    ensures GivenAgrees(t', given)
  {
    hide Superseded, EntriesAre, FreshlyGiven;
  }

  lemma {:induction false} RunGiven(t: Table, given: seq<(string, string)>, steps: seq<Step>)
    requires Inv(t) && Enabling(t, steps) && GivenAgrees(t, given)
    ensures GivenAgrees(After(t, steps), given + GivenIn(t, steps))
    decreases |steps|
  {
    hide Inv, Enabled, Apply, GivenAgrees, GivenBy;
    if steps == [] {
      assert given + [] == given;
    } else {
      InvKept(t, steps[0]);
      StepGiven(t, given, steps[0]);
      RunGiven(Apply(t, steps[0]), given + GivenBy(t, steps[0]), steps[1..]);
      assert given + GivenBy(t, steps[0]) + GivenIn(Apply(t, steps[0]), steps[1..]) == given + GivenIn(t, steps);
    }
  }

  ghost function TableAfter(ttl: real, steps: seq<Step>): (t: Table)
    requires Run(ttl, steps)
    ensures Inv(t)
  {
    EmptyTableAgrees(ttl);
    After(EmptyTable(ttl), steps)
  }

  /** All feedback ids given out in a run, each with its session, in order. */
  ghost function GivenInRun(ttl: real, steps: seq<Step>): seq<(string, string)>
    requires Run(ttl, steps)
  {
    EmptyTableAgrees(ttl);
    GivenIn(EmptyTable(ttl), steps)
  }

  lemma GivenInRunAgrees(ttl: real, steps: seq<Step>)
    requires Run(ttl, steps)
    ensures GivenAgrees(TableAfter(ttl, steps), GivenInRun(ttl, steps))
  {
    hide Inv, Enabling, After, GivenIn;
    EmptyTableAgrees(ttl);
    RunGiven(EmptyTable(ttl), [], steps);
    assert [] + GivenIn(EmptyTable(ttl), steps) == GivenIn(EmptyTable(ttl), steps);
  }

  /** Over every run: the entry of a feedback id that was given out is there, and points to a session that
      is gone, exactly if that session has left the table and had been given another feedback id after it. */
  lemma StaleFeedbackEntries(ttl: real, steps: seq<Step>, i: nat)
    requires Run(ttl, steps) && i < |GivenInRun(ttl, steps)|
    ensures var t, given := TableAfter(ttl, steps), GivenInRun(ttl, steps);
            var (f, id) := given[i];
            (f in t.feedbackIndex && t.feedbackIndex[f] !in t.live <==> id !in t.live && Superseded(given, i))
            && (f in t.feedbackIndex ==> t.feedbackIndex[f] == id)
  {
    hide Run, TableAfter, GivenInRun, Superseded;
    GivenInRunAgrees(ttl, steps);
  }

  /** Over every run: a feedback id finds a session exactly if it was given to that session, which is
      still live; it need not be the latest one. */
  lemma FeedbackFindsSession(ttl: real, steps: seq<Step>, f: string, id: string)
    requires Run(ttl, steps)
    ensures var t, given := TableAfter(ttl, steps), GivenInRun(ttl, steps);
            SessionByFeedback(t, f) == Some(id) <==> id in t.live && exists i :: 0 <= i < |given| && given[i] == (f, id)
  {
    hide Run, TableAfter, GivenInRun, Superseded;
    GivenInRunAgrees(ttl, steps);
    var t, given := TableAfter(ttl, steps), GivenInRun(ttl, steps);
    if SessionByFeedback(t, f) == Some(id) {
      var i :| 0 <= i < |given| && given[i].0 == f;
      assert given[i] == (f, id);
    }
  }

  /** The feedback index does keep entries of sessions that are gone: a message delivered twice gets a
      second feedback id, and clean-up removes only the latest one. */
  lemma RedeliveryLeavesFeedbackEntry(ttl: real, m: string, id: string, id': string, f: string, f': string, late: real)
    requires m != "" && id != "" && f != "" && f' != "" && f != f' && late > FEEDBACK_SESSION_TTL
    ensures var t := EmptyTable(ttl);
            var t1 := InitialResponse(t, m, 0.0, id, f);
            var t2 := InitialResponse(t1, m, 0.0, id', f');
            var t3 := Cleanup(t2, late);
            t3.live == {} && t3.msgIndex == map[] && t3.feedbackIndex == map[f := id]
  {
    var t := EmptyTable(ttl);
    var t1 := InitialResponse(t, m, 0.0, id, f);
    assert t1.live == {id} && t1.msgIndex == map[m := id] && t1.feedbackIndex == map[f := id];
    var t2 := InitialResponse(t1, m, 0.0, id', f');
    assert t2.live == {id} && t2.msgIndex == map[m := id] && t2.feedbackIndex == map[f := id, f' := id];
    assert t2.all[id].feedbackId == Some(f') && t2.all[id].lastAccess == 0.0;
    var gone := ExpiredIds(t2, late);
    assert gone == {id};
    var dropped := set i | i in gone && HasFeedback(t2.all[i]) :: t2.all[i].feedbackId.value;
    assert dropped == {f'};
  }
}

/** `StreamSession` and `StreamSessionManager` of wecom_ai_bot_api/api.py with the fields they update in
    place. Each method does to the abstract table what the function of the same name in StreamTable
    says. A coroutine is cut at its waits: `consume` is ConsumeBegin and then ConsumeTake or TimedOut. */
module StreamSessions {
  import opened Common
  import T = StreamTable

  class StreamSession {
    const streamId: string
    const msgId: string
    var lastAccess: real
    var queue: seq<T.StreamChunk>
    var finished: bool
    var lastChunk: Option<T.StreamChunk>
    var feedbackId: Option<string>
    ghost var taken: seq<T.StreamChunk>

    constructor (streamId: string, msgId: string, now: real)
      ensures this.streamId == streamId && this.msgId == msgId
      ensures View() == T.Session(msgId, now, false, None, None, [], [])
    {
      this.streamId, this.msgId, lastAccess := streamId, msgId, now;
      queue, finished, lastChunk, feedbackId, taken := [], false, None, None, [];
    }

    ghost function View(): T.Session
      reads this
    {
      T.Session(msgId, lastAccess, finished, lastChunk, feedbackId, taken, queue)
    }
  }

  class StreamSessionManager {
    const ttl: real
    var sessions: map<string, StreamSession>
    var msgIndex: map<string, string>
    var feedbackIndex: map<string, string>
    ghost var all: map<string, StreamSession>

    constructor (ttl: real)
      ensures Valid() && Table() == T.EmptyTable(ttl)
    {
      this.ttl := ttl;
      sessions, msgIndex, feedbackIndex, all := map[], map[], map[], map[];
    }

    ghost predicate Valid()
      reads this, all.Values
    {
      (forall id | id in all :: all[id].streamId == id)
      && forall id | id in sessions :: id in all && sessions[id] == all[id]
    }

    ghost function Table(): (t: T.Table)
      reads this, all.Values
      ensures t.all.Keys == all.Keys && t.live == sessions.Keys
    {
      T.Table(ttl, map id | id in all :: all[id].View(), sessions.Keys, msgIndex, feedbackIndex)
    }

    /** After a write to one session only, the table differs at that session only. */
    twostate lemma OneSessionChanged(s: StreamSession)
      requires old(Valid()) && old(s.streamId in all && all[s.streamId] == s)
      requires unchanged(this) && forall id | id in old(all) && old(all)[id] != s :: unchanged(old(all)[id])
      ensures Valid() && Table() == old(Table()).(all := old(Table()).all[s.streamId := s.View()])
    {
      assert Table().all == old(Table()).all[s.streamId := s.View()];
    }

    twostate lemma OneSessionAdded(new s: StreamSession)
      requires old(Valid()) && s.streamId !in old(all)
      requires all == old(all)[s.streamId := s] && sessions == old(sessions)[s.streamId := s]
      requires forall id | id in old(all) :: unchanged(old(all)[id])
      ensures Valid() && Table().all == old(Table()).all[s.streamId := s.View()] && Table().live == old(Table()).live + {s.streamId}
    {
    }

    method CreateOrGet(msgId: string, now: real, freshId: string) returns (session: StreamSession, isNew: bool)
      requires Valid() && freshId !in all
      modifies this, sessions.Values
      ensures Valid() && (Table(), session.streamId, isNew) == T.CreateOrGet(old(Table()), msgId, now, freshId)
      ensures session.streamId in sessions && sessions[session.streamId] == session
      ensures (fresh(session) && session.streamId == freshId) || session in old(sessions.Values)
      ensures session.streamId == freshId || session.streamId in old(sessions)
    {
      if msgId != "" && msgId in msgIndex {
        var streamId := msgIndex[msgId];
        if streamId in sessions {
          session := sessions[streamId];
          session.lastAccess := now;
          OneSessionChanged(session);
          return session, false;
        }
      }
      session := AddSession(msgId, now, freshId);
      return session, true;
    }

    method AddSession(msgId: string, now: real, freshId: string) returns (session: StreamSession)
      requires Valid() && freshId !in all
      modifies this
      ensures Valid() && Table() == T.Added(old(Table()), msgId, now, freshId)
      ensures fresh(session) && session.streamId == freshId && freshId in sessions && sessions[freshId] == session
    {
      session := new StreamSession(freshId, msgId, now);
      if msgId != "" { msgIndex := msgIndex[msgId := freshId]; }
      sessions := sessions[freshId := session];
      all := all[freshId := session];
      OneSessionAdded(session);
    }

    method RegisterFeedbackId(streamId: string, feedbackId: string)
      modifies `feedbackIndex
      ensures feedbackIndex == if feedbackId != "" && streamId != "" then old(feedbackIndex)[feedbackId := streamId] else old(feedbackIndex)
    {
      if feedbackId != "" && streamId != "" { feedbackIndex := feedbackIndex[feedbackId := streamId]; }
    }

    method Publish(streamId: string, chunk: T.StreamChunk, now: real) returns (ok: bool)
      requires Valid()
      modifies sessions.Values
      ensures Valid() && (Table(), ok) == T.Publish(old(Table()), streamId, chunk, now)
    {
      if streamId !in sessions { return false; }
      var session := sessions[streamId];
      session.lastAccess := now;
      session.lastChunk := Some(chunk);
      session.queue := session.queue + [chunk];
      if chunk.isFinal { session.finished := true; }
      OneSessionChanged(session);
      return true;
    }

    method MarkFinished(streamId: string, now: real)
      requires Valid()
      modifies sessions.Values
      ensures Valid() && Table() == T.MarkFinished(old(Table()), streamId, now)
    {
      if streamId in sessions {
        var session := sessions[streamId];
        session.finished := true;
        session.lastAccess := now;
        OneSessionChanged(session);
      }
    }

    method GetStreamIdByMsg(msgId: string) returns (r: Option<string>)
      requires Valid()
      ensures r == T.StreamOf(Table(), msgId)
    {
      if msgId == "" { return None; }
      r := if msgId in msgIndex then Some(msgIndex[msgId]) else None;
    }

    method GetSessionByFeedbackId(feedbackId: string) returns (r: Option<string>)
      requires Valid() && "" !in sessions
      ensures r == T.SessionByFeedback(Table(), feedbackId)
    {
      if feedbackId == "" || feedbackId !in feedbackIndex { return None; }
      var streamId := feedbackIndex[feedbackId];
      if streamId != "" && streamId in sessions { return Some(streamId); }
      return None;
    }

    method ConsumeBegin(streamId: string, now: real) returns (session: StreamSession?)
      requires Valid()
      modifies sessions.Values
      ensures Valid() && Table() == T.ConsumeBegin(old(Table()), streamId, now)
      ensures session == if streamId in sessions then sessions[streamId] else null
    {
      if streamId !in sessions { return null; }
      session := sessions[streamId];
      session.lastAccess := now;
      OneSessionChanged(session);
    }

    method ConsumeTake(session: StreamSession, now: real) returns (chunk: T.StreamChunk)
      requires Valid() && session.streamId in all && all[session.streamId] == session && session.queue != []
      modifies session
      ensures Valid() && Table() == T.TakeChunk(old(Table()), session.streamId, now)
      ensures chunk == old(session.queue)[0]
    {
      chunk := session.queue[0];
      session.queue, session.taken := session.queue[1..], session.taken + [chunk];
      session.lastAccess := now;
      if chunk.isFinal { session.finished := true; }
      OneSessionChanged(session);
    }

    method TimedOut(session: StreamSession) returns (r: Option<T.StreamChunk>)
      ensures r == T.ReplayedChunk(session.View())
    {
      if session.finished && session.lastChunk.Some? { return session.lastChunk; }
      return None;
    }

    /** `push_stream_chunk`. */
    method PushStreamChunk(msgId: string, content: string, isFinal: bool, now: real) returns (ok: bool)
      requires Valid()
      modifies sessions.Values
      ensures Valid() && (Table(), ok) == T.PushStreamChunk(old(Table()), msgId, T.StreamChunk(content, isFinal), now)
    {
      var found := GetStreamIdByMsg(msgId);
      if found.None? || found.value == "" { return false; }
      var chunk := T.StreamChunk(content, isFinal);
      var _ := Publish(found.value, chunk, now);
      if isFinal { MarkFinished(found.value, now); }
      return true;
    }

    /** The table part of `_handle_post_initial_response`, which has no wait in between. */
    method InitialResponse(msgId: string, now: real, freshId: string, feedbackId: string) returns (isNew: bool)
      requires Valid() && freshId !in all && freshId != "" && feedbackId != "" && "" !in sessions
      modifies this, sessions.Values
      ensures Valid() && Table() == T.InitialResponse(old(Table()), msgId, now, freshId, feedbackId)
    {
      hide T.CreateOrGet, T.AttachFeedback;
      var session;
      session, isNew := CreateOrGet(msgId, now, freshId);
      SetFeedback(session, feedbackId);
    }

    method SetFeedback(session: StreamSession, feedbackId: string)
      requires Valid() && session.streamId in all && all[session.streamId] == session
      requires session.streamId != "" && feedbackId != ""
      modifies session`feedbackId, `feedbackIndex
      ensures Valid() && Table() == T.AttachFeedback(old(Table()), session.streamId, feedbackId)
    {
      session.feedbackId := Some(feedbackId);
      OneSessionChanged(session);
      label Named:
      RegisterFeedbackId(session.streamId, feedbackId);
      assert Table().all == old@Named(Table()).all;
    }

    /** `cleanup`. The entries of the table are visited in an arbitrary order. */
    method Cleanup(now: real)
      requires Valid()
      modifies this
      ensures Valid() && Table() == T.Cleanup(old(Table()), now)
    {
      hide T.Dropped, T.ExpiredIds, Valid, Table;
      ghost var t := Table();
      T.DroppedNothing(t);
      var expired := CollectExpired(now);
      assert expired <= t.live <= t.all.Keys by {
        assert t.live <= t.all.Keys by { KeysCovered(); }
        T.ExpiredAreLive(t, now);
      }
      var todo := expired;
      assert expired - todo == {};
      while todo != {}
        invariant todo <= expired && Valid()
        invariant todo <= Table().live
        invariant Table() == T.Dropped(t, expired - todo)
      {
        var streamId :| streamId in todo;
        T.DroppedOneMore(t, expired - todo, streamId);
        assert streamId in sessions;
        Drop(streamId);
        assert expired - (todo - {streamId}) == expired - todo + {streamId};
        todo := todo - {streamId};
      }
      assert expired - {} == expired;
    }

    lemma KeysCovered()
      requires Valid()
      ensures Table().live <= Table().all.Keys
    {
    }

    method CollectExpired(now: real) returns (expired: set<string>)
      requires Valid()
      ensures expired == T.ExpiredIds(Table(), now)
    {
      expired := {};
      var todo := sessions.Keys;
      while todo != {}
        invariant todo <= sessions.Keys
        invariant expired == T.ExpiredIds(Table(), now) - todo
      {
        var streamId :| streamId in todo;
        var session := sessions[streamId];
        var hasFeedback := session.feedbackId.Some? && session.feedbackId.value != "";
        var effectiveTtl := if hasFeedback then T.FEEDBACK_SESSION_TTL else ttl;
        if now - session.lastAccess > effectiveTtl { expired := expired + {streamId}; }
        todo := todo - {streamId};
      }
    }

    method Drop(streamId: string)
      requires Valid() && streamId in sessions
      modifies this
      ensures Valid() && Table() == T.Dropped(old(Table()), {streamId})
    {
      hide T.Dropped;
      T.DroppedOne(Table(), streamId);
      var session := sessions[streamId];
      sessions := sessions - {streamId};
      if session.msgId != "" && session.msgId in msgIndex && msgIndex[session.msgId] == streamId {
        msgIndex := msgIndex - {session.msgId};
      }
      if session.feedbackId.Some? && session.feedbackId.value != "" {
        feedbackIndex := feedbackIndex - {session.feedbackId.value};
      }
      assert Table().all == old(Table()).all;
    }
  }
}

/** How long a stream session lives: when it was used last in a run, and which sessions a clean-up removes. */
module StreamLifetimes {
  import opened Common
  import opened StreamTable

  // ---------------------------------------------------------------- when a session was used last

  /** The time at which a step uses the session `id`. */
  ghost function UsedBy(t: Table, step: Step, id: string): Option<real>
    requires t.live <= t.all.Keys
  {
    match step
    case Callback(m, now, freshId, _) => if CreateOrGet(t, m, now, freshId).1 == id then Some(now) else None
    case Push(m, _, now) => if StreamOf(t, m) == Some(id) then Some(now) else None
    case Refresh(stream, now) => if stream == id && id in t.live then Some(now) else None
    case Take(stream, now) => if stream == id then Some(now) else None
    case Finish(stream, now) => if stream == id && id in t.live then Some(now) else None
    case _ => None
  }

  /** The time of the last use in the steps. */
  ghost function LastUse(t: Table, steps: seq<Step>, id: string): Option<real>
    requires Inv(t) && Enabling(t, steps)
    decreases |steps|
  {
    if steps == [] then None
    else
      InvKept(t, steps[0]);
      TableCovered(t);
      var later := LastUse(Apply(t, steps[0]), steps[1..], id);
      if later.Some? then later else UsedBy(t, steps[0], id)
  }

  lemma StepUses(t: Table, step: Step, id: string)
    requires Inv(t) && Enabled(t, step) && id in Apply(t, step).all
    ensures t.live <= t.all.Keys
    ensures UsedBy(t, step, id).Some? ==> Apply(t, step).all[id].lastAccess == UsedBy(t, step, id).value
    ensures UsedBy(t, step, id).None? ==> id in t.all && Apply(t, step).all[id].lastAccess == t.all[id].lastAccess
  {
    TableCovered(t);
    hide Inv, CreateOrGet, AttachFeedback, PushStreamChunk, Cleanup;
    match step
    case Callback(m, now, freshId, f) => CallbackUses(t, m, now, freshId, f, id);
    case Push(m, chunk, now) =>
      PushedIsLive(t, m);
      PushUses(t, m, chunk, now, id);
    case Sweep(now) => SweptAll(t, now);
    case _ =>
  }

  lemma CallbackUses(t: Table, m: string, now: real, freshId: string, f: string, id: string)
    requires t.live <= t.all.Keys && freshId !in t.all && id in InitialResponse(t, m, now, freshId, f).all
    ensures var s := InitialResponse(t, m, now, freshId, f).all[id];
            if CreateOrGet(t, m, now, freshId).1 == id then s.lastAccess == now else id in t.all && s.lastAccess == t.all[id].lastAccess
  {
  }

  lemma PushUses(t: Table, m: string, chunk: StreamChunk, now: real, id: string)
    requires t.live <= t.all.Keys && id in PushStreamChunk(t, m, chunk, now).0.all
    requires StreamOf(t, m).Some? ==> StreamOf(t, m).value in t.live && StreamOf(t, m).value != ""
    ensures id in t.all
    ensures var s := PushStreamChunk(t, m, chunk, now).0.all[id];
            s.lastAccess == if StreamOf(t, m) == Some(id) then now else t.all[id].lastAccess
  {
  }

  lemma PushedIsLive(t: Table, m: string)
    requires Inv(t)
    ensures StreamOf(t, m).Some? ==> StreamOf(t, m).value in t.live && StreamOf(t, m).value != ""
  {
    hide SessionAgrees, FeedbackIndexAgrees;
  }

  /** Over every run a session remembers its last use. */
  lemma {:induction false} UsedLast(t: Table, steps: seq<Step>, id: string)
    requires Inv(t) && Enabling(t, steps) && id in After(t, steps).all
    ensures LastUse(t, steps, id).Some? ==> After(t, steps).all[id].lastAccess == LastUse(t, steps, id).value
    ensures LastUse(t, steps, id).None? ==> id in t.all && After(t, steps).all[id].lastAccess == t.all[id].lastAccess
    decreases |steps|
  {
    hide Inv, Enabled, Apply, UsedBy;
    if steps != [] {
      InvKept(t, steps[0]);
      TableCovered(t);
      var t' := Apply(t, steps[0]);
      UsedLast(t', steps[1..], id);
      if LastUse(t', steps[1..], id).None? { StepUses(t, steps[0], id); }
    }
  }

  // ---------------------------------------------------------------- what a clean-up removes

  /** A session survives a clean-up exactly if it was used at most 600 seconds ago and has a feedback id, or
      at most the table's limit ago and has none. */
  lemma SweepExactly(t: Table, now: real, id: string)
    requires t.live <= t.all.Keys
    ensures id in Cleanup(t, now).live
       <==> id in t.live
            && var s := t.all[id];
               if s.feedbackId.Some? && s.feedbackId.value != "" then now - s.lastAccess <= 600.0 else now - s.lastAccess <= t.ttl
    ensures Cleanup(t, now).all == t.all && Cleanup(t, now).ttl == t.ttl
  {
  }

  /** In every run from the empty table, one clean-up later: what was used at most 600 seconds ago is left,
      since every session was given a feedback id, and nothing else. */
  lemma SweepInRun(ttl: real, steps: seq<Step>, now: real, id: string)
    requires Run(ttl, steps)
    ensures Run(ttl, steps + [Sweep(now)])
    ensures id in TableAfter(ttl, steps + [Sweep(now)]).live
       <==> id in TableAfter(ttl, steps).live && LastUseInRun(ttl, steps, id).Some? && now - LastUseInRun(ttl, steps, id).value <= 600.0
  {
    hide Inv, Enabling, After, Cleanup;
    EmptyTableAgrees(ttl);
    var t := TableAfter(ttl, steps);
    OneMore(EmptyTable(ttl), steps, Sweep(now));
    TableCovered(t);
    SweepExactly(t, now, id);
    if id in t.live {
      UsedLast(EmptyTable(ttl), steps, id);
      AllGiven(EmptyTable(ttl), steps);
    }
  }

  ghost function LastUseInRun(ttl: real, steps: seq<Step>, id: string): Option<real>
    requires Run(ttl, steps)
  {
    EmptyTableAgrees(ttl);
    LastUse(EmptyTable(ttl), steps, id)
  }

  lemma {:induction false} OneMore(t: Table, steps: seq<Step>, step: Step)
    requires Inv(t) && Enabling(t, steps) && Enabled(After(t, steps), step)
    ensures Enabling(t, steps + [step]) && After(t, steps + [step]) == Apply(After(t, steps), step)
    decreases |steps|
  {
    hide Inv, Enabled, Apply;
    var all := steps + [step];
    if steps == [] {
      assert all == [step] && all[1..] == [];
      InvKept(t, step);
    } else {
      InvKept(t, steps[0]);
      assert all[0] == steps[0] && all[1..] == steps[1..] + [step];
      OneMore(Apply(t, steps[0]), steps[1..], step);
    }
  }

  ghost predicate AllHaveFeedback(t: Table) { forall id | id in t.all :: t.all[id].feedbackId.Some? && t.all[id].feedbackId.value != "" }

  lemma StepGives(t: Table, step: Step)
    requires Inv(t) && Enabled(t, step) && AllHaveFeedback(t)
    ensures AllHaveFeedback(Apply(t, step))
  {
    TableCovered(t);
    if step.Push? { PushedIsLive(t, step.pushed); }
    hide Inv;
  }

  lemma {:induction false} AllGiven(t: Table, steps: seq<Step>)
    requires Inv(t) && Enabling(t, steps) && AllHaveFeedback(t)
    ensures AllHaveFeedback(After(t, steps))
    decreases |steps|
  {
    hide Inv, Enabled, Apply, AllHaveFeedback;
    if steps != [] {
      InvKept(t, steps[0]);
      StepGives(t, steps[0]);
      AllGiven(Apply(t, steps[0]), steps[1..]);
    }
  }

  /** After a clean-up within 600 seconds of its last use a session is still found by its feedback id, and
      chunks for its message still reach it. */
  lemma UsedSessionIsKept(t: Table, now: real, id: string, chunk: StreamChunk, later: real)
    requires Inv(t) && id in t.live && t.all[id].feedbackId.Some? && now - t.all[id].lastAccess <= 600.0
    ensures var t' := Cleanup(t, now);
            Inv(t') && t.all[id].feedbackId.value != "" && SessionByFeedback(t', t.all[id].feedbackId.value) == Some(id)
            && (t.all[id].msgId != "" ==>
                  var r := PushStreamChunk(t', t.all[id].msgId, chunk, later);
                  r.1 && id in r.0.all && r.0.all[id].Published() == t.all[id].Published() + [chunk])
  {
    hide SessionAgrees, Cleanup;
    var t' := Cleanup(t, now);
    SweepKeeps(t, now);
    assert t.all[id].feedbackId.value != "";
    SweepExactly(t, now, id);
    if t.all[id].msgId != "" {
      MessageIndexBijection(t', t.all[id].msgId);
      PushIsNeverDropped(t', t.all[id].msgId, chunk, later);
    }
  }

  // ---------------------------------------------------------------- what a refresh is answered with

  /** The step finishes the session: a final chunk is pushed to it, or it is marked while it is live. */
  ghost predicate FinishedBy(t: Table, step: Step, id: string) {
    (step.Push? && step.chunk.isFinal && StreamOf(t, step.pushed) == Some(id)) || (step.Finish? && step.stream == id && id in t.live)
  }

  ghost predicate FinishedIn(t: Table, steps: seq<Step>, id: string)
    requires Inv(t) && Enabling(t, steps)
    decreases |steps|
  {
    steps != [] && (InvKept(t, steps[0]); FinishedBy(t, steps[0], id) || FinishedIn(Apply(t, steps[0]), steps[1..], id))
  }

  ghost predicate IsFinished(t: Table, id: string) { id in t.all && t.all[id].finished }

  lemma StepFinishes(t: Table, step: Step, id: string)
    requires Inv(t) && Enabled(t, step)
    ensures IsFinished(Apply(t, step), id) <==> IsFinished(t, id) || FinishedBy(t, step, id)
  {
    TableCovered(t);
    if step.Take? { TakenFinishes(t, step.stream); }
    hide Inv, CreateOrGet, AttachFeedback, PushStreamChunk, Cleanup;
    match step
    case Callback(m, now, freshId, f) => CallbackFinishes(t, m, now, freshId, f, id);
    case Push(m, chunk, now) =>
      PushedIsLive(t, m);
      PushFinishes(t, m, chunk, now, id);
    case Sweep(now) => SweptAll(t, now);
    case _ =>
  }

  lemma CallbackFinishes(t: Table, m: string, now: real, freshId: string, f: string, id: string)
    requires t.live <= t.all.Keys && freshId !in t.all
    ensures IsFinished(InitialResponse(t, m, now, freshId, f), id) <==> IsFinished(t, id)
  {
  }

  lemma PushFinishes(t: Table, m: string, chunk: StreamChunk, now: real, id: string)
    requires t.live <= t.all.Keys && (StreamOf(t, m).Some? ==> StreamOf(t, m).value in t.live && StreamOf(t, m).value != "")
    ensures IsFinished(PushStreamChunk(t, m, chunk, now).0, id) <==> IsFinished(t, id) || (chunk.isFinal && StreamOf(t, m) == Some(id))
  {
  }

  /** A final chunk that is taken finished its session when it was published. */
  lemma TakenFinishes(t: Table, id: string)
    requires Inv(t) && id in t.all && t.all[id].queue != []
    ensures t.all[id].queue[0].isFinal ==> t.all[id].finished
  {
    SessionCovered(t, id);
    var s := t.all[id];
    assert s.Published()[|s.taken|] == s.queue[0];
  }

  lemma {:induction false} FinishedExactly(t: Table, steps: seq<Step>, id: string)
    requires Inv(t) && Enabling(t, steps)
    ensures IsFinished(After(t, steps), id) <==> IsFinished(t, id) || FinishedIn(t, steps, id)
    decreases |steps|
  {
    hide Inv, Enabled, Apply, FinishedBy, IsFinished;
    if steps != [] {
      InvKept(t, steps[0]);
      StepFinishes(t, steps[0], id);
      FinishedExactly(Apply(t, steps[0]), steps[1..], id);
    }
  }

  /** Over every run from the empty table: a refresh whose wait times out is answered with the chunk pushed
      last if the session was finished, and with nothing before. */
  lemma TimeoutAnswer(ttl: real, steps: seq<Step>, id: string)
    requires Run(ttl, steps) && id in TableAfter(ttl, steps).all
    ensures var p := PublishedInRun(ttl, steps, id);
            ReplayedChunk(TableAfter(ttl, steps).all[id]) ==
            if FinishedInRun(ttl, steps, id) && p != [] then Some(p[|p| - 1]) else None
  {
    hide Inv, Enabling, After, PublishedIn, FinishedIn;
    var t := EmptyTable(ttl);
    EmptyTableAgrees(ttl);
    FinishedExactly(t, steps, id);
    RunChunks(t, steps, id);
    SessionCovered(TableAfter(ttl, steps), id);
    assert [] + PublishedIn(t, steps, id) == PublishedIn(t, steps, id);
  }

  ghost predicate FinishedInRun(ttl: real, steps: seq<Step>, id: string)
    requires Run(ttl, steps)
  {
    EmptyTableAgrees(ttl);
    FinishedIn(EmptyTable(ttl), steps, id)
  }
}

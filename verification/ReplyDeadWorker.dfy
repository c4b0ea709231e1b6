/** A worker cancelled before its first turn stays registered: its request is never served again. */
module ReplyDeadWorker {
  import opened Common
  import opened ReplyProtocol
  import opened ReplyGuarantees
  import opened ReplyDelivery
  import opened ReplyOutcomes

  /** The request is registered with the worker `t`, which is done, and the queue `q`. */
  ghost predicate Dead(s: State, r: ReqId, t: Id, q: Id) {
    r in s.replyQueues && s.replyQueues[r] == q && r in s.replyWorkers && s.replyWorkers[r] == t && t in s.tasks && s.tasks[t].phase.Done?
  }

  /** Cancelling a worker before its first turn runs no `finally`: both dictionaries keep the request. */
  lemma CancelledBeforeItsTurn(s: State, t: Id)
    requires Inv(s) && Enabled(s, CancelDelivered(t)) && s.tasks[t].phase.NotStarted?
    ensures var r := s.tasks[t].req;
            r in s.replyQueues && Dead(Apply(s, CancelDelivered(t)), r, t, s.replyQueues[r])
  {
    hide Below, Apart, LogsInOrder, QueuesInOrder, WorkersAgree, Accounted, Answered;
    assert RegisteredTask(s.replyQueues, s.replyWorkers, t, s.tasks[t]);
  }

  lemma NobodyReadsDead(s: State, r: ReqId, t: Id, q: Id)
    requires Inv(s) && Dead(s, r, t, q)
    ensures !Readable(s, q) && q in s.queues
  {
    hide Below, Apart, LogsInOrder, QueuesInOrder, WorkersAgree, Accounted, Answered;
    forall i | i in s.tasks
      ensures !Reads(s.tasks[i], s.replyQueues, q)
    {
      if Live(s.tasks[i]) { assert RegisteredTask(s.replyQueues, s.replyWorkers, i, s.tasks[i]); }
    }
  }

  lemma NotTheDead(s: State, i: Id, r: ReqId, t: Id, q: Id)
    requires Inv(s) && Dead(s, r, t, q) && i in s.tasks && Live(s.tasks[i])
    ensures s.tasks[i].req != r && i != t && s.tasks[i].req in s.replyQueues
  {
    hide Below, Apart, LogsInOrder, QueuesInOrder, WorkersAgree, Accounted, Answered;
    assert RegisteredTask(s.replyQueues, s.replyWorkers, i, s.tasks[i]);
  }

  lemma EnqueuedKeepsDead(s: State, frame: Frame, r: ReqId, t: Id, q: Id)
    requires Dead(s, r, t, q) && s.nextId + 1 !in s.tasks && (frame.req in s.replyQueues ==> s.replyQueues[frame.req] in s.queues)
    ensures Dead(Enqueue(s, frame), r, t, q)
  {
  }

  lemma PhaseKeepsDead(s: State, i: Id, phase: Phase, r: ReqId, t: Id, q: Id)
    requires Dead(s, r, t, q) && i in s.tasks && s.tasks[i].req != r && i != t
    ensures Dead(WithPhase(s, i, phase), r, t, q)
  {
  }

  lemma ExitKeepsDead(s: State, i: Id, r: ReqId, t: Id, q: Id)
    requires Dead(s, r, t, q) && i in s.tasks && s.tasks[i].req != r && i != t
    ensures Dead(Exited(s, i), r, t, q)
  {
  }

  lemma StartKeepsDead(s: State, i: Id, r: ReqId, t: Id, q: Id)
    requires Dead(s, r, t, q) && i in s.tasks && s.tasks[i].req in s.replyQueues && s.tasks[i].req != r && i != t
    ensures Dead(Started(s, i), r, t, q)
  {
  }

  lemma TakeKeepsDead(s: State, i: Id, r: ReqId, t: Id, q: Id)
    requires Dead(s, r, t, q) && Enabled(s, Take(i)) && i in s.tasks && s.tasks[i].req != r && i != t
    ensures Dead(TakeItem(s, i), r, t, q)
  {
  }

  lemma SendFailedKeepsDead(s: State, i: Id, timeout: bool, r: ReqId, t: Id, q: Id)
    requires Dead(s, r, t, q) && i in s.tasks && s.tasks[i].phase.Sending? && s.tasks[i].req != r && i != t
    ensures Dead(SendFailed(s, i, timeout), r, t, q)
  {
  }

  lemma AckTimerKeepsDead(s: State, i: Id, r: ReqId, t: Id, q: Id)
    requires Dead(s, r, t, q) && i in s.tasks && s.tasks[i].phase.AwaitingAck? && s.tasks[i].req != r && i != t
    ensures Dead(AckTimerFired(s, i), r, t, q)
  {
  }

  lemma ResumeKeepsDead(s: State, i: Id, r: ReqId, t: Id, q: Id)
    requires Dead(s, r, t, q) && i in s.tasks && s.tasks[i].req != r && i != t
    ensures Dead(Resumed(s, i), r, t, q)
  {
  }

  lemma SettleKeepsDead(s: State, i: Id, r: ReqId, t: Id, q: Id)
    requires Dead(s, r, t, q) && i in s.tasks && s.tasks[i].phase.Settling? && s.tasks[i].req != r && i != t
    ensures Dead(ReplySettled(s, i), r, t, q)
  {
  }

  lemma InterruptKeepsDead(s: State, i: Id, r: ReqId, t: Id, q: Id)
    requires Dead(s, r, t, q) && i in s.tasks && s.tasks[i].req != r && i != t
    ensures Dead(Interrupted(s, i), r, t, q)
  {
    hide Exited, SettleOnce, WithPhase;
    PhaseKeepsDead(s, i, Done, r, t, q);
    var w := s.tasks[i];
    var s1 := if w.phase.AwaitingAck? then SettleOnce(s, w.phase.ack, Cancelled) else s;
    if w.phase.AwaitingAck? { SettledTasks(s, w.phase.ack, Cancelled); }
    ExitKeepsDead(s1, i, r, t, q);
  }

  lemma ClearedWorkers(s: State)
    ensures Cleared(s).tasks == s.tasks && Cleared(s).replyQueues == s.replyQueues && Cleared(s).replyWorkers == s.replyWorkers
  {
  }

  lemma AcknowledgedWorkers(s: State, ack: Ack)
    ensures var s' := Acknowledged(s, ack); s'.tasks == s.tasks && s'.replyQueues == s.replyQueues && s'.replyWorkers == s.replyWorkers
  {
  }

  lemma SameAsNow(s: State, s': State, r: ReqId, t: Id, q: Id)
    requires Dead(s, r, t, q) && s'.replyQueues == s.replyQueues && s'.replyWorkers == s.replyWorkers && s'.tasks == s.tasks
    ensures Dead(s', r, t, q)
  {
  }

  lemma StopKeepsDead(s: State, r: ReqId, t: Id, q: Id)
    requires Dead(s, r, t, q)
    ensures Dead(Stopped(s), r, t, q)
  {
  }

  lemma StepKeepsDead(s: State, step: Step, r: ReqId, t: Id, q: Id)
    requires Inv(s) && Enabled(s, step) && Dead(s, r, t, q)
    ensures Dead(Apply(s, step), r, t, q)
  {
    hide Inv, Dead, Stopped, Cleared, Enqueue, SettleOnce, Acknowledged, Started, TakeItem, Exited, SendFailed, Resumed, LoopHead, Interrupted,
         WithPhase, AckTimerFired, ReplySettled;
    RegisteredQueues(s);
    match step
    case SendReply(frame) =>
      BelowNext(s);
      EnqueuedKeepsDead(s, frame, r, t, q);
    case Start(i) =>
      NotTheDead(s, i, r, t, q);
      StartKeepsDead(s, i, r, t, q);
    case Take(i) =>
      NotTheDead(s, i, r, t, q);
      TakeKeepsDead(s, i, r, t, q);
    case IdleFires(i) =>
      NotTheDead(s, i, r, t, q);
      PhaseKeepsDead(s, i, IdleFired, r, t, q);
    case Leave(i) =>
      NotTheDead(s, i, r, t, q);
      ExitKeepsDead(s, i, r, t, q);
    case SendReturns(i) =>
      NotTheDead(s, i, r, t, q);
      PhaseKeepsDead(s, i, AwaitingAck(s.tasks[i].phase.item, s.tasks[i].phase.ack), r, t, q);
    case SendRaises(i, timeout) =>
      NotTheDead(s, i, r, t, q);
      SendFailedKeepsDead(s, i, timeout, r, t, q);
    case AckTimer(i) =>
      NotTheDead(s, i, r, t, q);
      AckTimerKeepsDead(s, i, r, t, q);
    case AckResumes(i) =>
      NotTheDead(s, i, r, t, q);
      ResumeKeepsDead(s, i, r, t, q);
    case Settle(i) =>
      NotTheDead(s, i, r, t, q);
      SettleKeepsDead(s, i, r, t, q);
    case CancelDelivered(i) =>
      NotTheDead(s, i, r, t, q);
      InterruptKeepsDead(s, i, r, t, q);
    case Disconnect => StopKeepsDead(s, r, t, q);
    case CallerCancels(f) =>
      SettledTasks(s, f, Cancelled);
      SameAsNow(s, SettleOnce(s, f, Cancelled), r, t, q);
    case ClearPending =>
      ClearedWorkers(s);
      SameAsNow(s, Cleared(s), r, t, q);
    case AckArrives(ack) =>
      AcknowledgedWorkers(s, ack);
      SameAsNow(s, Acknowledged(s, ack), r, t, q);
    case _ => SameAsNow(s, Apply(s, step), r, t, q);
  }

  lemma BelowNext(s: State)
    requires Inv(s)
    ensures s.nextId + 1 !in s.tasks
  {
    hide Registered, Apart, LogsInOrder, QueuesInOrder, WorkersAgree, Accounted, Answered;
  }

  /** Over every further run, whatever is enqueued for the request is never taken. */
  lemma {:induction false} DeadForever(s: State, steps: seq<Step>, r: ReqId, t: Id, q: Id)
    requires Inv(s) && Enabling(s, steps) && Dead(s, r, t, q)
    ensures Dead(After(s, steps), r, t, q)
    decreases |steps|
  {
    hide Inv, Enabled, Apply, Dead;
    if steps != [] {
      InvKept(s, steps[0]);
      StepKeepsDead(s, steps[0], r, t, q);
      DeadForever(Apply(s, steps[0]), steps[1..], r, t, q);
    }
  }

  /** A reply to such a request is enqueued, without an error, and taken in no continuation. */
  lemma DeadSwallows(run: seq<Step>, r: ReqId, t: Id, q: Id, frame: Frame)
    requires Run(run) && Dead(Reached(run), r, t, q) && frame.req == r && Reached(run).wsOpen
    ensures var item := Item(frame, Reached(run).nextId);
            var run' := run + [SendReply(frame)];
            Run(run') && q in Reached(run').queues && item in Reached(run').queues[q]
            && forall steps | Enabling(Reached(run'), steps) :: item !in After(Reached(run'), steps).taken
  {
    hide Inv, Enabling, After, Dead, Readable;
    InitialAgrees();
    var s := Reached(run);
    AddStep(INITIAL, run, SendReply(frame)) by { AlwaysEnabled(s, frame); }
    JoinsDead(s, r, t, q, frame);
    StepKeepsDead(s, SendReply(frame), r, t, q) by { AlwaysEnabled(s, frame); }
    var run' := run + [SendReply(frame)];
    NobodyReadsDead(Reached(run'), r, t, q);
    TakenExactly(run', q, Item(frame, s.nextId));
  }

  lemma AlwaysEnabled(s: State, frame: Frame)
    ensures Enabled(s, SendReply(frame))
  {
  }

  lemma JoinsDead(s: State, r: ReqId, t: Id, q: Id, frame: Frame)
    requires Inv(s) && Dead(s, r, t, q) && frame.req == r && s.wsOpen
    ensures var s' := Apply(s, SendReply(frame)); q in s'.queues && Item(frame, s.nextId) in s'.queues[q]
  {
    RegisteredQueues(s);
    hide Inv;
    assert Enabled(s, SendReply(frame));
  }

  /** A reply, `disconnect` before its worker's first turn, and a new connection. */
  function NeverStarted(x: Frame): seq<Step> {
    [Connect] + [SocketOpens] + [SendReply(x)] + [Disconnect] + [CancelDelivered(1)] + [SocketCloses] + [ClearPending] + [Connect] + [SocketOpens]
  }

  /** The case is reached, for all frames: after it every reply to the request is swallowed. */
  lemma DisconnectBeforeFirstTurn(x: Frame)
    ensures Run(NeverStarted(x)) && Dead(Reached(NeverStarted(x)), x.req, 1, 0) && Reached(NeverStarted(x)).wsOpen
  {
    hide Run, Reached, Dead;
    var run := [Connect] + [SocketOpens] + [SendReply(x)];
    OneEnqueued(x);
    CutBeforeStart(run, x.req);
    run := run + [Disconnect] + [CancelDelivered(1)];
    OneMore(run, SocketCloses, x.req);
    OneMore(run + [SocketCloses], ClearPending, x.req);
    OneMore(run + [SocketCloses] + [ClearPending], Connect, x.req);
    OneMore(run + [SocketCloses] + [ClearPending] + [Connect], SocketOpens, x.req);
  }

  lemma OneEnqueued(x: Frame)
    ensures var run := [Connect] + [SocketOpens] + [SendReply(x)];
            Run(run) && Reached(run) == OneWorker(x.req, NotStarted, [Item(x, 2)], map[], map[], 3, [])
  {
    hide Run, Reached, Leads, OneWorker;
    JustConnected();
    var s0 := INITIAL.(running := true, wsOpen := true);
    FirstArrivesStep(s0, x);
    RunOn([Connect] + [SocketOpens], SendReply(x), s0, OneWorker(x.req, NotStarted, [Item(x, 2)], map[], map[], 3, []));
  }

  lemma CutBeforeStart(run: seq<Step>, r: ReqId)
    requires Run(run) && 1 in Reached(run).tasks && Reached(run).tasks[1] == Task(r, None, NotStarted, false) && r in Reached(run).replyQueues
    requires Reached(run).replyQueues[r] == 0
    ensures var run' := run + [Disconnect] + [CancelDelivered(1)]; Run(run') && Dead(Reached(run'), r, 1, 0)
  {
    hide Inv, Enabling, After, Dead;
    InitialAgrees();
    var s := Reached(run);
    AddStep(INITIAL, run, Disconnect);
    DisconnectCancelsAll(s);
    var s1 := Apply(s, Disconnect);
    AddStep(INITIAL, run + [Disconnect], CancelDelivered(1));
    CancelledBeforeItsTurn(s1, 1);
  }

  lemma OneMore(run: seq<Step>, step: Step, r: ReqId)
    requires Run(run) && Dead(Reached(run), r, 1, 0) && step in [SocketCloses, ClearPending, Connect, SocketOpens]
    ensures Run(run + [step]) && Dead(Reached(run + [step]), r, 1, 0)
    ensures step == SocketOpens ==> Reached(run + [step]).wsOpen
  {
    hide Inv, Enabling, After, Dead;
    InitialAgrees();
    AddStep(INITIAL, run, step);
    StepKeepsDead(Reached(run), step, r, 1, 0);
  }
}

/** What the reply protocol promises over every run, and exactly where cancelling workers in
    `disconnect` breaks the settling of replies. */
module ReplyGuarantees {
  import opened Common
  import opened ReplyProtocol

  ghost predicate Enabling(s: State, steps: seq<Step>)
    requires Inv(s)
    decreases |steps|
  {
    steps == [] || (Enabled(s, steps[0]) && (InvKept(s, steps[0]); Enabling(Apply(s, steps[0]), steps[1..])))
  }

  ghost function After(s: State, steps: seq<Step>): (r: State)
    requires Inv(s) && Enabling(s, steps)
    ensures Inv(r)
    decreases |steps|
  {
    if steps == [] then s
    else
      InvKept(s, steps[0]);
      After(Apply(s, steps[0]), steps[1..])
  }

  lemma InitialAgrees()
    ensures Inv(INITIAL)
  {
  }

  /** A run of the client from its construction on, and the state it reaches. */
  ghost predicate Run(steps: seq<Step>) {
    InitialAgrees();
    Enabling(INITIAL, steps)
  }

  ghost function Reached(steps: seq<Step>): (s: State)
    requires Run(steps)
    ensures Inv(s)
  {
    InitialAgrees();
    After(INITIAL, steps)
  }

  /** Whatever happened: two live workers of one request are the same worker, so at most one frame of a
      request is waiting for its ACK. */
  lemma OneWorkerPerRequest(steps: seq<Step>, t: Id, i: Id)
    requires Run(steps)
    requires var s := Reached(steps);
             t in s.tasks && i in s.tasks && Live(s.tasks[t]) && Live(s.tasks[i]) && s.tasks[t].req == s.tasks[i].req
    ensures t == i
  {
    OnlyWorker(Reached(steps), t, i);
  }

  /** The items of one request, in order. */
  ghost function Of(log: seq<Item>, req: ReqId): seq<Item> {
    if log == [] then []
    else Of(log[..|log| - 1], req) + if log[|log| - 1].frame.req == req then [log[|log| - 1]] else []
  }

  ghost predicate Subsequence(a: seq<Item>, b: seq<Item>) {
    a == [] || (b != [] && if a[|a| - 1] == b[|b| - 1] then Subsequence(a[..|a| - 1], b[..|b| - 1])
                           else Subsequence(a, b[..|b| - 1]))
  }

  lemma {:induction false} OfMembers(log: seq<Item>, req: ReqId)
    ensures forall x :: x in Of(log, req) <==> x in log && x.frame.req == req
  {
    if log != [] {
      OfMembers(log[..|log| - 1], req);
      assert log == log[..|log| - 1] + [log[|log| - 1]];
    }
  }

  lemma {:induction false} OfIncreasing(log: seq<Item>, req: ReqId)
    requires Ordered(log)
    ensures Increasing(Of(log, req))
  {
    if log != [] {
      var front := log[..|log| - 1];
      OfIncreasing(front, req);
      OfMembers(front, req);
      forall x | x in front && x.frame.req == log[|log| - 1].frame.req
        ensures x.future < log[|log| - 1].future
      {
      }
    }
  }

  lemma {:induction false} IncreasingMembersFormSubsequence(a: seq<Item>, b: seq<Item>)
    requires Increasing(a) && Increasing(b) && forall x | x in a :: x in b
    ensures Subsequence(a, b)
    decreases |b|
  {
    if a != [] {
      var x := a[|a| - 1];
      assert x in b;
      var y, front := b[|b| - 1], b[..|b| - 1];
      assert b == front + [y];
      if x == y {
        forall z | z in a[..|a| - 1]
          ensures z in front
        {
          assert z in b && z.future < x.future;
        }
        IncreasingMembersFormSubsequence(a[..|a| - 1], front);
      } else {
        assert x in front && x.future < y.future;
        forall z | z in a
          ensures z in front
        {
          assert z in b && z.future <= x.future;
        }
        IncreasingMembersFormSubsequence(a, front);
      }
    }
  }

  /** The frames written to the socket for a request are some of those enqueued for it, in the order of
      enqueueing, none of them twice. */
  lemma SentInOrder(steps: seq<Step>, req: ReqId)
    requires Run(steps)
    ensures var s := Reached(steps);
            Subsequence(Of(s.sent, req), Of(s.enqueued, req)) && Increasing(Of(s.sent, req))
  {
    hide Registered, Below, Apart, QueuesInOrder, WorkersAgree, Accounted, Answered, Run, Reached;
    var s := Reached(steps);
    assert LogsInOrder(s.enqueued, s.taken, s.sent);
    assert Ordered(s.enqueued);
    OfIncreasing(s.sent, req);
    OfIncreasing(s.enqueued, req);
    OfMembers(s.sent, req);
    OfMembers(s.enqueued, req);
    IncreasingMembersFormSubsequence(Of(s.sent, req), Of(s.enqueued, req));
  }

  /** What a future was settled with never changes. */
  lemma {:induction false} OutcomeKept(s: State, steps: seq<Step>, f: Id)
    requires Inv(s) && Enabling(s, steps) && f in s.outcome
    ensures var s' := After(s, steps); f in s'.outcome && s'.outcome[f] == s.outcome[f]
    decreases |steps|
  {
    hide Inv, Enabled, Apply;
    if steps != [] {
      InvKept(s, steps[0]);
      StepCalm(s, steps[0]);
      OutcomeKept(Apply(s, steps[0]), steps[1..], f);
    }
  }

  ghost predicate Extends(s: State, s': State) {
    forall f | f in s.outcome :: f in s'.outcome && s'.outcome[f] == s.outcome[f]
  }

  /** Nothing was abandoned or cancelled, and no settled future changed. */
  ghost predicate Calm(s: State, s': State) {
    Extends(s, s') && s'.abandoned == s.abandoned
    && forall t | t in s'.tasks && s'.tasks[t].cancelled :: t in s.tasks && s.tasks[t].cancelled
  }

  ghost predicate SameItems(s: State, s': State) {
    s'.queues == s.queues && s'.enqueued == s.enqueued && s'.taken == s.taken
  }

  lemma LoopHeadCalm(s: State, t: Id)
    requires t in s.tasks
    ensures Calm(s, LoopHead(s, t)) && Calm(s, Exited(s, t)) && SameItems(s, LoopHead(s, t)) && SameItems(s, Exited(s, t))
  {
  }

  lemma SettleCalm(s: State, f: Id, o: Outcome)
    ensures Calm(s, SettleOnce(s, f, o)) && SameItems(s, SettleOnce(s, f, o))
  {
  }

  lemma CalmTwice(s: State, s1: State, s2: State)
    requires Calm(s, s1) && Calm(s1, s2)
    ensures Calm(s, s2)
  {
  }

  lemma SendFailedCalm(s: State, t: Id, timeout: bool)
    requires t in s.tasks && s.tasks[t].phase.Sending?
    ensures Calm(s, SendFailed(s, t, timeout)) && SameItems(s, SendFailed(s, t, timeout))
  {
  }

  lemma ResumedCalm(s: State, t: Id)
    requires t in s.tasks
    ensures Calm(s, Resumed(s, t)) && SameItems(s, Resumed(s, t))
  {
    hide Calm, WithPhase, Held;
    var w := s.tasks[t];
    if w.phase.AckTimedOut? {
      PhaseCalm(s, WithoutPending(s, w.phase.item.frame.req), t, Settling(w.phase.item, NoAck));
    } else if w.phase.AwaitingAck? && w.phase.ack in s.outcome {
      PhaseCalm(s, s, t, Settling(w.phase.item, Awaited(s.outcome[w.phase.ack])));
    } else {
      SameCalm(s);
    }
  }

  lemma SameCalm(s: State)
    ensures Calm(s, s) && SameItems(s, s)
  {
  }

  lemma PhaseCalm(s: State, s1: State, t: Id, phase: Phase)
    requires t in s.tasks && s1.tasks == s.tasks && s1.outcome == s.outcome && s1.abandoned == s.abandoned && SameItems(s, s1)
    ensures Calm(s, WithPhase(s1, t, phase)) && SameItems(s, WithPhase(s1, t, phase))
  {
  }

  lemma TakeCalm(s: State, t: Id)
    requires Enabled(s, Take(t))
    ensures Calm(s, TakeItem(s, t))
  {
  }

  lemma StartedCalm(s: State, t: Id)
    requires t in s.tasks && s.tasks[t].req in s.replyQueues
    ensures Calm(s, Started(s, t)) && SameItems(s, Started(s, t))
  {
  }

  lemma EnqueueCalm(s: State, frame: Frame)
    requires Inv(s) && (frame.req in s.replyQueues ==> s.replyQueues[frame.req] in s.queues)
    ensures Calm(s, Enqueue(s, frame))
  {
    hide Registered, Below, Apart, LogsInOrder, QueuesInOrder, WorkersAgree, Accounted, Answered;
  }

  lemma ClearedCalm(s: State)
    ensures Calm(s, Cleared(s)) && SameItems(s, Cleared(s)) && Extends(s, Stopped(s)) && SameItems(s, Stopped(s))
  {
  }

  lemma InterruptedExtends(s: State, t: Id)
    requires t in s.tasks
    ensures Extends(s, Interrupted(s, t)) && SameItems(s, Interrupted(s, t))
  {
    hide Exited, WithPhase, Held, SettleOnce, Extends;
    var w := s.tasks[t];
    if w.phase.NotStarted? {
      PhaseCalm(s, s, t, Done);
    } else {
      var s1 := if w.phase.AwaitingAck? then SettleOnce(s, w.phase.ack, Cancelled) else s;
      if w.phase.AwaitingAck? {
        SettleCalm(s, w.phase.ack, Cancelled);
        SameTasks(s, w.phase.ack, Cancelled);
      } else {
        SameCalm(s);
      }
      LoopHeadCalm(s1, t);
      CalmTwice(s, s1, Exited(s1, t));
      SameOutcome(s, Exited(s1, t), Interrupted(s, t));
    }
  }

  lemma SameOutcome(s: State, s1: State, s2: State)
    requires Extends(s, s1) && s1.outcome == s2.outcome
    ensures Extends(s, s2)
  {
  }

  lemma StepCalm(s: State, step: Step)
    requires Inv(s) && Enabled(s, step)
    ensures Extends(s, Apply(s, step))
    ensures !step.Disconnect? && !step.CancelDelivered? ==> Calm(s, Apply(s, step))
    ensures !step.SendReply? && !step.Take? ==> SameItems(s, Apply(s, step))
  {
    hide Inv, Stopped, Cleared, Enqueue, SettleOnce, Acknowledged, Started, TakeItem, Exited, SendFailed, Resumed,
         LoopHead, Interrupted;
    RegisteredQueues(s);
    match step
    case Disconnect => ClearedCalm(s);
    case ClearPending => ClearedCalm(s);
    case SendReply(frame) => EnqueueCalm(s, frame);
    case CallerCancels(future) => SettleCalm(s, future, Cancelled);
    case AckArrives(ack) => AcknowledgedCalm(s, ack);
    case Start(t) => StartedCalm(s, t);
    case Take(t) => TakeCalm(s, t);
    case Leave(t) => LoopHeadCalm(s, t);
    case SendRaises(t, timeout) => SendFailedCalm(s, t, timeout);
    case AckTimer(t) => AckTimerCalm(s, t);
    case AckResumes(t) => ResumedCalm(s, t);
    case Settle(t) =>
      var p := s.tasks[t].phase;
      SettleCalm(s, p.item.future, p.outcome);
      var s1 := SettleOnce(s, p.item.future, p.outcome);
      assert t in s1.tasks by { SameTasks(s, p.item.future, p.outcome); }
      LoopHeadCalm(s1, t);
      CalmTwice(s, s1, LoopHead(s1, t));
    case CancelDelivered(t) => InterruptedExtends(s, t);
    case _ =>
  }

  lemma SameTasks(s: State, f: Id, o: Outcome)
    ensures SettleOnce(s, f, o).tasks == s.tasks
  {
  }

  lemma AcknowledgedCalm(s: State, ack: Ack)
    ensures Calm(s, Acknowledged(s, ack)) && SameItems(s, Acknowledged(s, ack))
  {
  }

  lemma AckTimerCalm(s: State, t: Id)
    requires t in s.tasks && s.tasks[t].phase.AwaitingAck?
    ensures Calm(s, AckTimerFired(s, t)) && SameItems(s, AckTimerFired(s, t))
  {
  }

  /** When a worker takes its next frame, every frame taken before it for the same request has been
      settled or was abandoned by a cancelled worker. */
  lemma PreviousSettled(s: State, t: Id, x: Item)
    requires Inv(s) && Enabled(s, Take(t)) && x in s.taken && x.frame.req == s.tasks[t].req
    ensures x.future in s.outcome || x.future in s.abandoned
  {
    hide Below, Apart, LogsInOrder, QueuesInOrder, WorkersAgree, Answered;
    assert RegisteredTask(s.replyQueues, s.replyWorkers, t, s.tasks[t]);
    assert !Busy(x, s.replyWorkers, s.tasks);
  }

  /** A reply is answered by an ACK of its own request only. */
  lemma AnswerIsOwn(steps: seq<Step>, x: Item)
    requires Run(steps)
    ensures var s := Reached(steps);
            x in s.enqueued && x.future in s.outcome && s.outcome[x.future].Acked? ==> s.outcome[x.future].ack.req == x.frame.req
  {
    hide Registered, Below, Apart, LogsInOrder, QueuesInOrder, WorkersAgree, Accounted, Run, Reached;
  }

  /** No ACK is missed: one that arrives while the worker waits for it is the one it resumes with. */
  lemma AckReachesWorker(s: State, t: Id, ack: Ack)
    requires Inv(s) && t in s.tasks && InFlight(s.tasks[t]) && s.tasks[t].phase.ack !in s.outcome && ack.req == s.tasks[t].req
    ensures var s' := Apply(s, AckArrives(ack));
            s'.tasks == s.tasks && s.tasks[t].phase.ack in s'.outcome && s'.outcome[s.tasks[t].phase.ack] == Acked(ack)
  {
    hide Inv;
    InFlightPending(s, t);
  }

  /** An item put in a queue was taken from it or is still in it. */
  ghost predicate Kept(s: State) {
    forall x | x in s.enqueued :: x in s.taken || Queued(s.queues, x)
  }

  ghost predicate Queued(queues: map<Id, seq<Item>>, x: Item) { exists q :: q in queues && x in queues[q] }

  lemma StillQueued(queues: map<Id, seq<Item>>, q: Id, c: seq<Item>, x: Item)
    requires Queued(queues, x) && (q in queues && x in queues[q] ==> x in c)
    ensures Queued(queues[q := c], x)
  {
    var i :| i in queues && x in queues[i];
    assert i in queues[q := c] && x in queues[q := c][i];
  }

  lemma JoinedKeepsItems(s: State, frame: Frame)
    requires Kept(s) && frame.req in s.replyQueues && s.replyQueues[frame.req] in s.queues
    ensures Kept(Joined(s, frame))
  {
    hide Queued;
    var q, s' := s.replyQueues[frame.req], Joined(s, frame);
    forall x | x in s'.enqueued && x !in s'.taken
      ensures Queued(s'.queues, x)
    {
      if x in s.enqueued { StillQueued(s.queues, q, s'.queues[q], x); } else { InQueue(s'.queues, q, x); }
    }
  }

  lemma InQueue(queues: map<Id, seq<Item>>, q: Id, x: Item)
    requires q in queues && x in queues[q]
    ensures Queued(queues, x)
  {
  }

  lemma OpenedKeepsItems(s: State, req: ReqId)
    requires Kept(s) && Below(s.queues.Keys, s.nextId)
    ensures Kept(Opened(s, req))
  {
    hide Queued;
    forall x | x in s.enqueued && x !in s.taken
      ensures Queued(Opened(s, req).queues, x)
    {
      StillQueued(s.queues, s.nextId, [], x);
    }
  }

  lemma TakeKeepsItems(s: State, t: Id)
    requires Kept(s) && Enabled(s, Take(t))
    ensures Kept(TakeItem(s, t))
  {
    hide Queued;
    var q, s' := s.tasks[t].queue.value, TakeItem(s, t);
    forall x | x in s'.enqueued && x !in s'.taken
      ensures Queued(s'.queues, x)
    {
      assert s.queues[q] == [s.queues[q][0]] + s'.queues[q];
      StillQueued(s.queues, q, s'.queues[q], x);
    }
  }

  lemma StepKeepsItems(s: State, step: Step)
    requires Inv(s) && Enabled(s, step) && Kept(s)
    ensures Kept(Apply(s, step))
  {
    hide Registered, Below, Apart, LogsInOrder, QueuesInOrder, WorkersAgree, Accounted, Answered, Queued, Opened, Joined, TakeItem,
         Enabled;
    RegisteredQueues(s);
    if step.Take? {
      TakeKeepsItems(s, step.task);
    } else if step.SendReply? {
      var req := step.frame.req;
      if s.wsOpen {
        if req !in s.replyQueues { OpenedKeepsItems(s, req); }
        OpenedHasQueue(s, req);
        JoinedKeepsItems(if req in s.replyQueues then s else Opened(s, req), step.frame);
      }
    } else {
      hide Apply;
      StepCalm(s, step);
    }
  }

  lemma OpenedHasQueue(s: State, req: ReqId)
    ensures var s' := Opened(s, req); req in s'.replyQueues && s'.replyQueues[req] in s'.queues
  {
  }

  /** The client drops no item between queue and worker: an enqueued item was taken, or it sits in its
      queue (which may be the queue of a worker that is gone). */
  lemma {:induction false} NoItemVanishes(s: State, steps: seq<Step>)
    requires Inv(s) && Enabling(s, steps) && Kept(s)
    ensures Kept(After(s, steps))
    decreases |steps|
  {
    hide Inv, Enabled, Apply, Kept;
    if steps != [] {
      InvKept(s, steps[0]);
      StepKeepsItems(s, steps[0]);
      NoItemVanishes(Apply(s, steps[0]), steps[1..]);
    }
  }

  // ---------------------------------------------------------------- without and with disconnect

  ghost predicate NothingCancelled(s: State) {
    s.abandoned == {} && forall t | t in s.tasks :: !s.tasks[t].cancelled
  }

  lemma NothingCancelledKept(s: State, step: Step)
    requires Inv(s) && Enabled(s, step) && NothingCancelled(s) && !step.Disconnect?
    ensures NothingCancelled(Apply(s, step))
  {
    hide Inv, Apply;
    StepCalm(s, step);
  }

  lemma {:induction false} NoDisconnectNothingAbandoned(s: State, steps: seq<Step>)
    requires Inv(s) && Enabling(s, steps) && NothingCancelled(s) && forall step | step in steps :: !step.Disconnect?
    ensures NothingCancelled(After(s, steps))
    decreases |steps|
  {
    hide Inv, Enabled, Apply, NothingCancelled;
    if steps != [] {
      InvKept(s, steps[0]);
      NothingCancelledKept(s, steps[0]);
      NoDisconnectNothingAbandoned(Apply(s, steps[0]), steps[1..]);
    }
  }

  /** In a run without `disconnect`, whatever the timeouts, lost connections and cancelled callers, a
      frame is taken only after all earlier frames of its request are settled. */
  lemma OneAfterTheOther(steps: seq<Step>, t: Id, x: Item)
    requires Run(steps) && forall step | step in steps :: !step.Disconnect?
    requires var s := Reached(steps); Enabled(s, Take(t)) && x in s.taken && x.frame.req == s.tasks[t].req
    ensures x.future in Reached(steps).outcome
  {
    hide Inv, Enabled, Enabling, After;
    InitialAgrees();
    assert NothingCancelled(INITIAL);
    NoDisconnectNothingAbandoned(INITIAL, steps);
    PreviousSettled(Reached(steps), t, x);
  }

  /** The reply future `f` was abandoned: no worker will settle it any more. */
  ghost predicate Lost(s: State, f: Id) {
    f in s.abandoned && f !in s.outcome && (exists x :: x in s.taken && x.future == f)
    && forall t | t in s.tasks && Live(s.tasks[t]) && Held(s.tasks[t]).Some? :: Held(s.tasks[t]).value.future != f
  }

  /** A worker cancelled while busy with an unsettled reply loses it. */
  lemma CancelledWorkerLosesReply(s: State, t: Id)
    requires Inv(s) && Enabled(s, CancelDelivered(t)) && Held(s.tasks[t]).Some?
    requires Held(s.tasks[t]).value.future !in s.outcome
    ensures Lost(Apply(s, CancelDelivered(t)), Held(s.tasks[t]).value.future)
  {
    hide Inv, Interrupted, Held, Apply;
    var x, s' := Held(s.tasks[t]).value, Apply(s, CancelDelivered(t));
    WorkerHeld(s, t);
    if s.tasks[t].phase.AwaitingAck? { AckIsNoReply(s, t, x); }
    InterruptedHolding(s, t);
    forall i | i in s'.tasks && Live(s'.tasks[i]) && Held(s'.tasks[i]).Some?
      ensures Held(s'.tasks[i]).value.future != x.future
    {
      HeldApart(s, t, i);
    }
  }

  lemma InterruptedHolding(s: State, t: Id)
    requires Inv(s) && Enabled(s, CancelDelivered(t)) && Held(s.tasks[t]).Some?
    ensures var w, s' := s.tasks[t], Apply(s, CancelDelivered(t));
            s'.tasks == s.tasks[t := w.(phase := Done)] && s'.taken == s.taken
            && s'.abandoned == s.abandoned + {Held(w).value.future}
            && s'.outcome.Keys <= s.outcome.Keys + if w.phase.AwaitingAck? then {w.phase.ack} else {}
  {
    hide Inv;
  }

  lemma AckIsNoReply(s: State, t: Id, x: Item)
    requires Inv(s) && t in s.tasks && InFlight(s.tasks[t]) && x in s.taken
    ensures x.future != s.tasks[t].phase.ack
  {
    hide Registered, Below, Apart, QueuesInOrder, WorkersAgree, Accounted, Answered, Ordered;
    InFlightPending(s, t);
  }

  /** Two workers never hold items with the same future. */
  lemma HeldApart(s: State, t: Id, i: Id)
    requires Inv(s) && t in s.tasks && i in s.tasks && Live(s.tasks[t]) && Live(s.tasks[i])
    requires Held(s.tasks[t]).Some? && Held(s.tasks[i]).Some?
    ensures t != i ==> Held(s.tasks[i]).value.future != Held(s.tasks[t]).value.future
  {
    hide Registered, Below, Apart, QueuesInOrder, WorkersAgree, Accounted, Answered, Ordered, Held;
    WorkerHeld(s, t);
    WorkerHeld(s, i);
    OnlyWorker(s, t, i);
    if Held(s.tasks[i]).value.future == Held(s.tasks[t]).value.future {
      SameItem(s.enqueued, Held(s.tasks[t]).value, Held(s.tasks[i]).value);
    }
  }

  /** Only its caller giving up can still settle a lost reply: otherwise that caller waits forever. */
  lemma LostStaysLost(s: State, step: Step, f: Id)
    requires Inv(s) && Enabled(s, step) && Lost(s, f) && step != CallerCancels(f)
    ensures Lost(Apply(s, step), f)
  {
    hide Inv, Stopped, Cleared, Enqueue, SettleOnce, Acknowledged, Started, TakeItem, Exited, SendFailed, Resumed, WithPhase,
         LoopHead, Interrupted, Lost;
    RegisteredQueues(s);
    match step
    case Connect => LostElsewhere(s, Apply(s, step), f);
    case SocketOpens => LostElsewhere(s, Apply(s, step), f);
    case SocketCloses => LostElsewhere(s, Apply(s, step), f);
    case Disconnect => LostStopped(s, f);
    case ClearPending => LostCleared(s, f);
    case SendReply(frame) => LostEnqueued(s, frame, f);
    case CallerCancels(future) => LostSettle(s, future, Cancelled, f);
    case AckArrives(ack) => LostAcknowledged(s, ack, f);
    case Start(t) => LostStarted(s, t, f);
    case Take(t) => LostTaken(s, t, f);
    case IdleFires(t) => LostPhase(s, t, IdleFired, f);
    case Leave(t) => LostExited(s, t, f);
    case SendReturns(t) => LostPhase(s, t, AwaitingAck(s.tasks[t].phase.item, s.tasks[t].phase.ack), f);
    case SendRaises(t, timeout) => LostSendFailed(s, t, timeout, f);
    case AckTimer(t) => LostAckTimer(s, t, f);
    case AckResumes(t) => LostResumed(s, t, f);
    case Settle(t) => LostSettling(s, t, f);
    case CancelDelivered(t) => LostInterrupted(s, t, f);
  }

  lemma LostElsewhere(s: State, s': State, f: Id)
    requires Lost(s, f) && s'.tasks == s.tasks && s'.outcome == s.outcome && s'.taken == s.taken && s'.abandoned >= s.abandoned
    ensures Lost(s', f)
  {
  }

  lemma LostStopped(s: State, f: Id)
    requires Lost(s, f)
    ensures Lost(Stopped(s), f)
  {
    var s' := Stopped(s);
    forall t | t in s'.tasks && Live(s'.tasks[t]) && Held(s'.tasks[t]).Some?
      ensures Held(s'.tasks[t]).value.future != f
    {
      assert Held(s.tasks[t]) == Held(s'.tasks[t]);
    }
  }

  lemma LostCleared(s: State, f: Id)
    requires Inv(s) && Lost(s, f)
    ensures Lost(Cleared(s), f)
  {
    hide Registered, Below, QueuesInOrder, WorkersAgree, Accounted, Answered, Ordered, Held;
    assert f !in s.pendingAcks.Values;
  }

  lemma LostSettle(s: State, g: Id, o: Outcome, f: Id)
    requires Lost(s, f) && g != f
    ensures Lost(SettleOnce(s, g, o), f)
  {
  }

  lemma LostAcknowledged(s: State, ack: Ack, f: Id)
    requires Inv(s) && Lost(s, f)
    ensures Lost(Acknowledged(s, ack), f)
  {
    hide Registered, Below, QueuesInOrder, WorkersAgree, Accounted, Answered, Ordered, Held;
  }

  lemma LostEnqueued(s: State, frame: Frame, f: Id)
    requires Inv(s) && Lost(s, f) && (frame.req in s.replyQueues ==> s.replyQueues[frame.req] in s.queues)
    ensures Lost(Enqueue(s, frame), f)
  {
    hide Registered, Apart, LogsInOrder, QueuesInOrder, WorkersAgree, Accounted, Answered;
  }

  lemma LostPhase(s: State, t: Id, phase: Phase, f: Id)
    requires Lost(s, f) && t in s.tasks && Live(s.tasks[t])
    requires Held(s.tasks[t].(phase := phase)).Some? ==> Held(s.tasks[t].(phase := phase)) == Held(s.tasks[t])
    ensures Lost(WithPhase(s, t, phase), f)
  {
  }

  lemma LostExited(s: State, t: Id, f: Id)
    requires Lost(s, f) && t in s.tasks && Live(s.tasks[t])
    ensures Lost(Exited(s, t), f)
  {
    hide WithPhase, Lost;
    LostPhase(s, t, Done, f);
    LostElsewhere(WithPhase(s, t, Done), Exited(s, t), f);
  }

  lemma LostStarted(s: State, t: Id, f: Id)
    requires Lost(s, f) && t in s.tasks && s.tasks[t].req in s.replyQueues && s.tasks[t].phase.NotStarted?
    ensures Lost(Started(s, t), f)
  {
  }

  lemma LostTaken(s: State, t: Id, f: Id)
    requires Inv(s) && Enabled(s, Take(t)) && Lost(s, f)
    ensures Lost(TakeItem(s, t), f)
  {
    hide Inv, QueueInOrder;
    var w, s' := s.tasks[t], TakeItem(s, t);
    TakenQueue(s, t);
    NotTakenAgain(s, t, f);
    TakerHolds(s, t);
    var x :| x in s.taken && x.future == f;
    assert x in s'.taken;
  }

  lemma NotTakenAgain(s: State, t: Id, f: Id)
    requires Inv(s) && Enabled(s, Take(t)) && exists x :: x in s.taken && x.future == f
    ensures s.queues[s.tasks[t].queue.value][0].future != f
  {
    hide Registered, Below, Apart, WorkersAgree, Accounted, Answered, Ordered, QueuesInOrder, Increasing;
    TakenQueue(s, t);
    var x :| x in s.taken && x.future == f;
    var item := s.queues[s.tasks[t].queue.value][0];
    if item.future == f {
      SameItem(s.enqueued, x, item);
    }
  }

  lemma LostSendFailed(s: State, t: Id, timeout: bool, f: Id)
    requires Lost(s, f) && t in s.tasks && s.tasks[t].phase.Sending?
    ensures Lost(SendFailed(s, t, timeout), f)
  {
    hide Lost, WithPhase;
    var phase := Settling(s.tasks[t].phase.item, if timeout then NoAck else Raised);
    LostElsewhere(s, WithoutPending(s, s.tasks[t].phase.item.frame.req), f);
    LostPhase(if timeout then WithoutPending(s, s.tasks[t].phase.item.frame.req) else s, t, phase, f);
  }

  lemma LostResumed(s: State, t: Id, f: Id)
    requires Lost(s, f) && t in s.tasks
    requires s.tasks[t].phase.AckTimedOut? || (s.tasks[t].phase.AwaitingAck? && s.tasks[t].phase.ack in s.outcome)
    ensures Lost(Resumed(s, t), f)
  {
    hide Lost, WithPhase;
    var p := s.tasks[t].phase;
    if p.AckTimedOut? {
      LostElsewhere(s, WithoutPending(s, p.item.frame.req), f);
      LostPhase(WithoutPending(s, p.item.frame.req), t, Settling(p.item, NoAck), f);
    } else {
      LostPhase(s, t, Settling(p.item, Awaited(s.outcome[p.ack])), f);
    }
  }

  lemma LostAckTimer(s: State, t: Id, f: Id)
    requires Inv(s) && Lost(s, f) && t in s.tasks && s.tasks[t].phase.AwaitingAck?
    ensures Lost(AckTimerFired(s, t), f)
  {
    hide Inv, WithPhase;
    var p := s.tasks[t].phase;
    AckIsNotLost(s, t, f);
    LostSettle(s, p.ack, Cancelled, f);
    LostPhase(SettleOnce(s, p.ack, Cancelled), t, AckTimedOut(p.item, p.ack), f);
  }

  lemma AckIsNotLost(s: State, t: Id, f: Id)
    requires Inv(s) && Lost(s, f) && t in s.tasks && InFlight(s.tasks[t])
    ensures s.tasks[t].phase.ack != f
  {
    hide Inv;
    var x :| x in s.taken && x.future == f;
    AckIsNoReply(s, t, x);
  }

  lemma LostSettling(s: State, t: Id, f: Id)
    requires Lost(s, f) && t in s.tasks && s.tasks[t].phase.Settling?
    ensures Lost(ReplySettled(s, t), f)
  {
    var p := s.tasks[t].phase;
    assert Held(s.tasks[t]) == Some(p.item);
    LostSettle(s, p.item.future, p.outcome, f);
    hide Lost, WithPhase, Exited;
    var s1 := SettleOnce(s, p.item.future, p.outcome);
    if s.running { LostPhase(s1, t, Waiting, f); } else { LostExited(s1, t, f); }
  }

  lemma ExitedAbandonsNothing(s: State, t: Id)
    requires t in s.tasks
    ensures Exited(s, t).abandoned == s.abandoned
  {
  }

  lemma LostInterrupted(s: State, t: Id, f: Id)
    requires Inv(s) && Lost(s, f) && t in s.tasks && Live(s.tasks[t])
    ensures Lost(Interrupted(s, t), f)
  {
    hide Inv, WithPhase, Exited, Lost;
    var w := s.tasks[t];
    if w.phase.NotStarted? {
      LostPhase(s, t, Done, f);
    } else {
      if w.phase.AwaitingAck? {
        AckIsNotLost(s, t, f);
        LostSettle(s, w.phase.ack, Cancelled, f);
      }
      var s1 := if w.phase.AwaitingAck? then SettleOnce(s, w.phase.ack, Cancelled) else s;
      LostExited(s1, t, f);
      ExitedAbandonsNothing(s1, t);
      LostElsewhere(Exited(s1, t), Interrupted(s, t), f);
    }
  }

  /** The reply `f` is settled in the run `steps` exactly if its caller gives up. */
  lemma {:induction false} LostForever(s: State, steps: seq<Step>, f: Id)
    requires Inv(s) && Enabling(s, steps) && Lost(s, f)
    ensures f in After(s, steps).outcome <==> CallerCancels(f) in steps
    decreases |steps|
  {
    hide Inv, Enabled, Apply;
    if steps != [] {
      InvKept(s, steps[0]);
      assert steps == [steps[0]] + steps[1..];
      if steps[0] == CallerCancels(f) {
        CallerCancelSettles(s, f);
        OutcomeKept(Apply(s, steps[0]), steps[1..], f);
      } else {
        LostStaysLost(s, steps[0], f);
        LostForever(Apply(s, steps[0]), steps[1..], f);
      }
    }
  }

  lemma CallerCancelSettles(s: State, f: Id)
    requires Inv(s) && Enabled(s, CallerCancels(f))
    ensures f in Apply(s, CallerCancels(f)).outcome
  {
    hide Inv;
  }

  // ---------------------------------------------------------------- exactly when a frame overtakes

  lemma {:induction false} SplitRun(s: State, steps: seq<Step>, i: nat)
    requires Inv(s) && Enabling(s, steps) && i <= |steps|
    ensures Enabling(s, steps[..i]) && Enabling(After(s, steps[..i]), steps[i..])
    ensures After(s, steps) == After(After(s, steps[..i]), steps[i..])
    decreases |steps|
  {
    hide Inv, Enabled, Apply;
    if i == 0 {
      assert steps[..0] == [] && steps[0..] == steps;
    } else {
      InvKept(s, steps[0]);
      var s1, rest := Apply(s, steps[0]), steps[1..];
      SplitRun(s1, rest, i - 1);
      FirstStep(s, steps[0], rest[..i - 1]);
      assert steps[..i] == [steps[0]] + rest[..i - 1];
      assert steps[i..] == rest[i - 1..];
    }
  }

  /** Only a cancelled worker abandons a reply: the one it holds. */
  lemma AbandonedBy(s: State, step: Step, f: Id)
    requires Inv(s) && Enabled(s, step) && f in Apply(s, step).abandoned
    ensures f in s.abandoned || (step.CancelDelivered? && Held(s.tasks[step.task]).Some? && Held(s.tasks[step.task]).value.future == f)
  {
    hide Inv;
    if !step.CancelDelivered? && !step.Disconnect? {
      hide Apply;
      StepCalm(s, step);
    }
  }

  /** In step `i` of the run a worker is cancelled that holds the reply `f`, unsettled. */
  ghost predicate CutShort(steps: seq<Step>, i: nat, f: Id)
    requires Run(steps)
  {
    i < |steps| && steps[i].CancelDelivered? && Run(steps[..i])
    && var s, t := Reached(steps[..i]), steps[i].task;
       t in s.tasks && Held(s.tasks[t]).Some? && Held(s.tasks[t]).value.future == f && f !in s.outcome
  }

  lemma {:induction false} AbandonedIn(s: State, steps: seq<Step>, f: Id) returns (i: nat)
    requires Inv(s) && Enabling(s, steps) && f !in s.abandoned && f in After(s, steps).abandoned
    ensures i < |steps| && Enabling(s, steps[..i]) && steps[i].CancelDelivered?
    ensures var s', t := After(s, steps[..i]), steps[i].task;
            Enabled(s', steps[i]) && Held(s'.tasks[t]).Some? && Held(s'.tasks[t]).value.future == f
    decreases |steps|
  {
    hide Inv, Apply, Held;
    InvKept(s, steps[0]);
    var s1 := Apply(s, steps[0]);
    if f in s1.abandoned {
      i := 0;
      AbandonedBy(s, steps[0], f);
      assert steps[..0] == [];
    } else {
      var rest := steps[1..];
      var j := AbandonedIn(s1, rest, f);
      i := j + 1;
      assert steps[..i][0] == steps[0] && steps[..i][1..] == rest[..j] && rest[j] == steps[i];
    }
  }

  /** When the next frame is taken, an earlier one that is not settled is lost. */
  lemma UnsettledIsLost(s: State, t: Id, x: Item)
    requires Inv(s) && Enabled(s, Take(t)) && x in s.taken && x.frame.req == s.tasks[t].req && x.future !in s.outcome
    ensures Lost(s, x.future)
  {
    hide Inv, Held, Busy, Registered;
    PreviousSettled(s, t, x);
    forall i | i in s.tasks && Live(s.tasks[i]) && Held(s.tasks[i]).Some?
      ensures Held(s.tasks[i]).value.future != x.future
    {
      HeldElsewhere(s, t, i, x);
    }
  }

  lemma HeldElsewhere(s: State, t: Id, i: Id, x: Item)
    requires Inv(s) && Enabled(s, Take(t)) && x in s.taken && x.frame.req == s.tasks[t].req
    requires i in s.tasks && Live(s.tasks[i]) && Held(s.tasks[i]).Some?
    ensures Held(s.tasks[i]).value.future != x.future
  {
    hide Registered, Below, Apart, QueuesInOrder, WorkersAgree, Accounted, Answered, Ordered;
    WorkerHeld(s, i);
    OnlyWorker(s, t, i);
    assert i != t;
    if Held(s.tasks[i]).value.future == x.future { SameItem(s.enqueued, Held(s.tasks[i]).value, x); }
  }

  /** The exact condition, over every run: when the next frame of its request is taken, a frame taken
      before is unsettled if and only if a worker was cancelled while it held that frame's unsettled reply
      and the caller has not given up since. */
  lemma OvertakesExactly(steps: seq<Step>, t: Id, x: Item)
    requires Run(steps)
    requires var s := Reached(steps); Enabled(s, Take(t)) && x in s.taken && x.frame.req == s.tasks[t].req
    ensures x.future !in Reached(steps).outcome
       <==> exists i :: 0 <= i < |steps| && CutShort(steps, i, x.future) && CallerCancels(x.future) !in steps[i + 1..]
  {
    hide Inv, Enabled, Enabling, After, Held, CutShort, Lost;
    var f := x.future;
    if f !in Reached(steps).outcome {
      UnsettledIsLost(Reached(steps), t, x);
      var i := CutShortSomewhere(steps, f);
      CutShortLoses(steps, i, f);
    }
    forall i | 0 <= i < |steps| && CutShort(steps, i, f) && CallerCancels(f) !in steps[i + 1..]
      ensures f !in Reached(steps).outcome
    {
      CutShortLoses(steps, i, f);
    }
  }

  lemma CutShortSomewhere(steps: seq<Step>, f: Id) returns (i: nat)
    requires Run(steps) && Lost(Reached(steps), f)
    ensures i < |steps| && CutShort(steps, i, f)
  {
    hide Inv, Enabled, Enabling, After, Held;
    InitialAgrees();
    i := AbandonedIn(INITIAL, steps, f);
    SplitRun(INITIAL, steps, i);
    var s := After(INITIAL, steps[..i]);
    if f in s.outcome { OutcomeKept(s, steps[i..], f); }
    assert steps[i] == steps[i..][0];
    EnabledTask(s, steps[i]);
  }

  lemma EnabledTask(s: State, step: Step)
    requires Enabled(s, step) && step.CancelDelivered?
    ensures step.task in s.tasks
  {
  }

  /** A reply cut short is unsettled at the end of the run exactly if its caller has not given up. */
  lemma CutShortLoses(steps: seq<Step>, i: nat, f: Id)
    requires Run(steps) && CutShort(steps, i, f)
    ensures i < |steps| && (f !in Reached(steps).outcome <==> CallerCancels(f) !in steps[i + 1..])
  {
    hide Inv, Enabled, Held, Lost, Apply;
    InitialAgrees();
    SplitRun(INITIAL, steps, i);
    var s, rest := Reached(steps[..i]), steps[i..];
    assert rest[0] == steps[i] && rest[1..] == steps[i + 1..];
    CancelledWorkerLosesReply(s, steps[i].task);
    InvKept(s, steps[i]);
    LostForever(Apply(s, steps[i]), rest[1..], f);
  }

  // ---------------------------------------------------------------- a run with disconnect

  lemma FirstStep(s: State, step: Step, rest: seq<Step>)
    requires Inv(s) && Enabled(s, step)
    ensures Inv(Apply(s, step))
    ensures Enabling(Apply(s, step), rest) ==>
              Enabling(s, [step] + rest) && After(s, [step] + rest) == After(Apply(s, step), rest)
  {
    hide Inv, Enabled, Apply;
    InvKept(s, step);
    var steps := [step] + rest;
    assert steps[0] == step && steps[1..] == rest;
  }

  lemma {:induction false} RunsTogether(s: State, a: seq<Step>, b: seq<Step>)
    requires Inv(s) && Enabling(s, a) && Enabling(After(s, a), b)
    ensures Enabling(s, a + b) && After(s, a + b) == After(After(s, a), b)
    decreases |a|
  {
    hide Inv, Enabled, Apply;
    if a == [] {
      assert a + b == b;
    } else {
      InvKept(s, a[0]);
      RunsTogether(Apply(s, a[0]), a[1..], b);
      assert [a[0]] + (a[1..] + b) == a + b;
      FirstStep(s, a[0], a[1..] + b);
    }
  }

  lemma OneStep(s: State, step: Step)
    requires Inv(s) && Enabled(s, step)
    ensures Enabling(s, [step]) && After(s, [step]) == Apply(s, step)
  {
    hide Inv, Enabled, Apply;
    InvKept(s, step);
    FirstStep(s, step, []);
    assert [step] + [] == [step];
  }

  lemma AddStep(s: State, steps: seq<Step>, step: Step)
    requires Inv(s) && Enabling(s, steps) && Enabled(After(s, steps), step)
    ensures Enabling(s, steps + [step]) && After(s, steps + [step]) == Apply(After(s, steps), step)
  {
    hide Inv, Enabled, Apply, Enabling, After;
    OneStep(After(s, steps), step);
    RunsTogether(s, steps, [step]);
  }

  /** A reply to a request without a worker: enqueued, worker started, frame written. */
  function ReplySteps(n: Id, frame: Frame): seq<Step> { [SendReply(frame)] + [Start(n + 1)] + [Take(n + 1)] }

  lemma FreshReply(s: State, frame: Frame) returns (s': State)
    requires Inv(s) && s.running && s.wsOpen && frame.req !in s.replyQueues
    ensures Enabling(s, ReplySteps(s.nextId, frame)) && s' == After(s, ReplySteps(s.nextId, frame))
    ensures var item := Item(frame, s.nextId + 2);
            s'.running && s'.wsOpen && s'.sent == s.sent + [item] && s'.outcome == s.outcome && s'.abandoned == s.abandoned
            && s'.replyQueues == s.replyQueues[frame.req := s.nextId] && s'.replyWorkers == s.replyWorkers[frame.req := s.nextId + 1]
            && s'.tasks == s.tasks[s.nextId + 1 := Task(frame.req, Some(s.nextId), Sending(item, s.nextId + 3), false)]
            && s'.nextId == s.nextId + 4 && s'.pendingAcks == s.pendingAcks[frame.req := s.nextId + 3]
  {
    hide Inv, Enabling, After, Enqueue, Started, TakeItem;
    var n := s.nextId;
    RegisteredQueues(s);
    OneStep(s, SendReply(frame));
    var s1 := Apply(s, SendReply(frame));
    EnqueuedFresh(s, frame);
    AddStep(s, [SendReply(frame)], Start(n + 1));
    var s2 := Apply(s1, Start(n + 1));
    StartedWaits(s1, n + 1);
    AddStep(s, [SendReply(frame)] + [Start(n + 1)], Take(n + 1));
    s' := Apply(s2, Take(n + 1));
    TakenSends(s2, n + 1);
  }

  lemma EnqueuedFresh(s: State, frame: Frame)
    requires s.wsOpen && frame.req !in s.replyQueues
    ensures var n := s.nextId;
            var s' := Enqueue(s, frame);
            n in s'.queues && s'.queues[n] == [Item(frame, n + 2)]
            && s'.tasks == s.tasks[n + 1 := Task(frame.req, None, NotStarted, false)]
            && s'.replyQueues == s.replyQueues[frame.req := n] && s'.replyWorkers == s.replyWorkers[frame.req := n + 1]
            && s' == s.(nextId := n + 3, replyQueues := s'.replyQueues, replyWorkers := s'.replyWorkers, queues := s'.queues,
                        tasks := s'.tasks, enqueued := s'.enqueued)
  {
  }

  lemma StartedWaits(s: State, t: Id)
    requires s.running && t in s.tasks && s.tasks[t].req in s.replyQueues
    ensures var w := s.tasks[t];
            Started(s, t) == s.(tasks := s.tasks[t := w.(queue := Some(s.replyQueues[w.req]), phase := Waiting)])
  {
  }

  lemma TakenSends(s: State, t: Id)
    requires Enabled(s, Take(t)) && s.wsOpen
    ensures var item := s.queues[s.tasks[t].queue.value][0];
            var s' := TakeItem(s, t);
            s'.tasks == s.tasks[t := s.tasks[t].(phase := Sending(item, s.nextId))] && s'.sent == s.sent + [item]
            && s'.outcome == s.outcome && s'.abandoned == s.abandoned && s'.running == s.running && s'.wsOpen
            && s'.replyQueues == s.replyQueues && s'.replyWorkers == s.replyWorkers && s'.nextId == s.nextId + 1
            && s'.pendingAcks == s.pendingAcks[item.frame.req := s.nextId]
  {
  }

  /** `disconnect` while the worker 1 of the frame `x` waits for its ACK: the worker is cancelled, the socket
      closes, the connection clears its pending ACKs; then the client connects again. */
  function CutSteps(): seq<Step> {
    [SendReturns(1)] + [Disconnect] + [CancelDelivered(1)] + [SocketCloses] + [ClearPending] + [Connect] + [SocketOpens]
  }

  lemma CutInFlight(s: State, x: Frame) returns (s': State)
    requires Inv(s) && s.outcome == map[] && s.pendingAcks == map[x.req := 3]
    requires s.replyWorkers == map[x.req := 1] && s.replyQueues == map[x.req := 0]
    requires s.tasks == map[1 := Task(x.req, Some(0), Sending(Item(x, 2), 3), false)]
    ensures Enabling(s, CutSteps()) && s' == After(s, CutSteps())
    ensures s'.running && s'.wsOpen && s'.replyQueues == map[] && s'.sent == s.sent && s'.nextId == s.nextId
            && s'.outcome == map[3 := Cancelled] && s'.abandoned == s.abandoned + {2}
  {
    hide Inv, Enabling, After;
    var cut := [SendReturns(1)] + [Disconnect] + [CancelDelivered(1)];
    var s3 := CancelledInFlight(s, x);
    AddStep(s, cut, SocketCloses);
    var s4 := Apply(s3, SocketCloses);
    AddStep(s, cut + [SocketCloses], ClearPending);
    var s5 := Apply(s4, ClearPending);
    ClearedSettled(s4);
    s' := ConnectAgain(s, cut + [SocketCloses] + [ClearPending], s5);
  }

  lemma CancelledInFlight(s: State, x: Frame) returns (s': State)
    requires Inv(s) && s.outcome == map[] && s.replyWorkers == map[x.req := 1] && s.replyQueues == map[x.req := 0]
    requires s.tasks == map[1 := Task(x.req, Some(0), Sending(Item(x, 2), 3), false)]
    ensures var cut := [SendReturns(1)] + [Disconnect] + [CancelDelivered(1)]; Enabling(s, cut) && s' == After(s, cut)
    ensures s'.replyQueues == map[] && s'.sent == s.sent && s'.nextId == s.nextId && s'.pendingAcks == s.pendingAcks
            && s'.outcome == map[3 := Cancelled] && s'.abandoned == s.abandoned + {2}
  {
    hide Inv, Enabling, After;
    OneStep(s, SendReturns(1));
    var s1 := Apply(s, SendReturns(1));
    assert s1.tasks == map[1 := Task(x.req, Some(0), AwaitingAck(Item(x, 2), 3), false)];
    AddStep(s, [SendReturns(1)], Disconnect);
    var s2 := Apply(s1, Disconnect);
    StoppedOne(s1, x.req);
    AddStep(s, [SendReturns(1)] + [Disconnect], CancelDelivered(1));
    s' := Apply(s2, CancelDelivered(1));
  }

  lemma ConnectAgain(s: State, steps: seq<Step>, s1: State) returns (s': State)
    requires Inv(s) && Enabling(s, steps) && After(s, steps) == s1
    ensures Enabling(s, steps + [Connect] + [SocketOpens]) && s' == After(s, steps + [Connect] + [SocketOpens])
    ensures s' == s1.(running := true, wsOpen := true)
  {
    hide Inv, Enabling, After;
    AddStep(s, steps, Connect);
    AddStep(s, steps + [Connect], SocketOpens);
    s' := s1.(running := true, wsOpen := true);
  }

  /** With nothing open among the pending futures, clearing them settles nothing. */
  lemma ClearedSettled(s: State)
    ensures s.pendingAcks.Values <= s.outcome.Keys ==> Cleared(s).outcome == s.outcome
  {
    if s.pendingAcks.Values <= s.outcome.Keys {
      assert s.pendingAcks.Values - s.outcome.Keys == {};
    }
  }

  lemma StoppedOne(s: State, req: ReqId)
    requires s.replyWorkers == map[req := 1] && s.tasks.Keys == {1} && Live(s.tasks[1])
    ensures Stopped(s).tasks == map[1 := s.tasks[1].(cancelled := true)]
  {
    assert s.replyWorkers[req] == 1;
    assert 1 in s.replyWorkers.Values;
  }

  /** With `disconnect` the guarantee fails, for every two frames of one request: the second is written
      while the reply of the first is not settled. */
  lemma DisconnectLetsFramesOvertake(x: Frame, y: Frame) returns (steps: seq<Step>)
    requires x.req == y.req
    ensures Run(steps) && Disconnect in steps
    ensures var s := Reached(steps); s.sent == [Item(x, 2), Item(y, 6)] && 2 !in s.outcome
  {
    hide Inv, Enabling, After, Apply, Enabled;
    InitialAgrees();
    var s0 := Connected();
    var s1 := FreshReply(s0, x);
    assert s1.replyQueues == map[x.req := 0] && s1.replyWorkers == map[x.req := 1];
    var s2 := CutInFlight(s1, x);
    var s3 := FreshReply(s2, y);
    RunsTogether(s1, CutSteps(), ReplySteps(4, y));
    RunsTogether(s0, ReplySteps(0, x), CutSteps() + ReplySteps(4, y));
    RunsTogether(INITIAL, [Connect] + [SocketOpens], ReplySteps(0, x) + (CutSteps() + ReplySteps(4, y)));
    steps := [Connect] + [SocketOpens] + (ReplySteps(0, x) + (CutSteps() + ReplySteps(4, y)));
    assert CutSteps()[1] == Disconnect;
  }

  lemma Connected() returns (s: State)
    ensures Inv(INITIAL) && Enabling(INITIAL, [Connect] + [SocketOpens]) && s == After(INITIAL, [Connect] + [SocketOpens])
    ensures s == INITIAL.(running := true, wsOpen := true)
  {
    hide Inv, Enabling, After;
    InitialAgrees();
    OneStep(INITIAL, Connect);
    AddStep(INITIAL, [Connect], SocketOpens);
    s := INITIAL.(running := true, wsOpen := true);
  }
}

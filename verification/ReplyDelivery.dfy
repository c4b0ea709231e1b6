/** Which replies ever leave their queue: an item is taken in some continuation exactly if a worker
    still reads its queue. Two runs show what that costs. */
module ReplyDelivery {
  import opened Common
  import opened ReplyProtocol
  import opened ReplyGuarantees

  /** The worker reads the queue, or will with its first turn. One whose idle timer fired or that was
      cancelled before its first turn will not. */
  predicate Reads(w: Task, queueOf: map<ReqId, Id>, q: Id) {
    !w.phase.Done? && !w.phase.IdleFired?
    && if w.phase.NotStarted? then !w.cancelled && w.req in queueOf && queueOf[w.req] == q else w.queue == Some(q)
  }

  ghost predicate Readable(s: State, q: Id) { exists t :: t in s.tasks && Reads(s.tasks[t], s.replyQueues, q) }

  // ---------------------------------------------------------------- a queue nobody reads stays so

  /** No task of `s'` reads a queue of `s` that it did not read before. */
  ghost predicate NoNewReader(s: State, s': State) {
    forall t, q | t in s'.tasks && q in s.queues && Reads(s'.tasks[t], s'.replyQueues, q) ::
      t in s.tasks && Reads(s.tasks[t], s.replyQueues, q)
  }

  /** One worker moved, and requests may have lost their queue. */
  lemma MovedReader(s: State, s': State, t: Id)
    requires t in s.tasks && t in s'.tasks && s'.tasks == s.tasks[t := s'.tasks[t]]
    requires forall r | r in s'.replyQueues :: r in s.replyQueues && s'.replyQueues[r] == s.replyQueues[r]
    requires forall q | q in s.queues && Reads(s'.tasks[t], s'.replyQueues, q) :: Reads(s.tasks[t], s.replyQueues, q)
    ensures NoNewReader(s, s')
  {
  }

  lemma PhaseReader(s: State, s1: State, t: Id, phase: Phase)
    requires t in s.tasks && s1.tasks == s.tasks && s1.replyQueues == s.replyQueues
    requires !s.tasks[t].phase.NotStarted? && !s.tasks[t].phase.Done? && !s.tasks[t].phase.IdleFired? && !phase.NotStarted?
    ensures NoNewReader(s, WithPhase(s1, t, phase))
  {
    MovedReader(s, WithPhase(s1, t, phase), t);
  }

  lemma ExitedReader(s: State, s1: State, t: Id)
    requires t in s.tasks && s1.tasks == s.tasks && s1.replyQueues == s.replyQueues
    ensures NoNewReader(s, Exited(s1, t))
  {
    MovedReader(s, Exited(s1, t), t);
  }

  lemma StartedReader(s: State, t: Id)
    requires t in s.tasks && s.tasks[t].phase.NotStarted? && !s.tasks[t].cancelled && s.tasks[t].req in s.replyQueues
    ensures NoNewReader(s, Started(s, t))
  {
    MovedReader(s, Started(s, t), t);
  }

  lemma LoopHeadReader(s: State, s1: State, t: Id)
    requires t in s.tasks && s1.tasks == s.tasks && s1.replyQueues == s.replyQueues && s.tasks[t].phase.Settling?
    ensures NoNewReader(s, LoopHead(s1, t))
  {
    if s1.running { PhaseReader(s, s1, t, Waiting); } else { ExitedReader(s, s1, t); }
  }

  lemma EnqueuedReader(s: State, frame: Frame)
    requires Below(s.queues.Keys, s.nextId) && (frame.req in s.replyQueues ==> s.replyQueues[frame.req] in s.queues)
    requires forall t | t in s.tasks && !s.tasks[t].phase.Done? :: s.tasks[t].req in s.replyQueues
    ensures NoNewReader(s, Enqueue(s, frame))
  {
  }

  lemma InterruptedReader(s: State, t: Id)
    requires t in s.tasks
    ensures NoNewReader(s, Interrupted(s, t))
  {
    hide Exited, SettleOnce, Reads;
    var w := s.tasks[t];
    if w.phase.NotStarted? {
      DoneReader(s, t);
    } else {
      if w.phase.AwaitingAck? { SettledTasks(s, w.phase.ack, Cancelled); }
      ExitedReader(s, if w.phase.AwaitingAck? then SettleOnce(s, w.phase.ack, Cancelled) else s, t);
    }
  }

  lemma DoneReader(s: State, t: Id)
    requires t in s.tasks
    ensures NoNewReader(s, WithPhase(s, t, Done))
  {
    MovedReader(s, WithPhase(s, t, Done), t);
  }

  lemma SameReaders(s: State, s': State)
    requires s'.tasks == s.tasks && s'.replyQueues == s.replyQueues
    ensures NoNewReader(s, s')
  {
  }

  lemma StoppedReaders(s: State)
    ensures NoNewReader(s, Stopped(s))
  {
  }

  lemma StepReaders(s: State, step: Step)
    requires Inv(s) && Enabled(s, step)
    ensures NoNewReader(s, Apply(s, step))
  {
    hide NoNewReader, Registered, Apart, LogsInOrder, QueuesInOrder, WorkersAgree, Accounted, Answered, Below;
    RegisteredQueues(s);
    hide Stopped, Cleared, Enqueue, SettleOnce, Acknowledged, Started, TakeItem, Exited, LoopHead, Interrupted, WithPhase;
    match step
    case Disconnect => StoppedReaders(s);
    case ClearPending => SameReaders(s, Cleared(s)) by { ClearedTasks(s); }
    case SendReply(frame) => EnqueuedReader(s, frame);
    case CallerCancels(future) => SameReaders(s, Apply(s, step)) by { SettledTasks(s, future, Cancelled); }
    case AckArrives(ack) => SameReaders(s, Acknowledged(s, ack)) by { AcknowledgedTasks(s, ack); }
    case Start(t) => StartedReader(s, t);
    case Take(t) => TakenReader(s, t);
    case IdleFires(t) => PhaseReader(s, s, t, IdleFired);
    case Leave(t) => ExitedReader(s, s, t);
    case SendReturns(t) => PhaseReader(s, s, t, AwaitingAck(s.tasks[t].phase.item, s.tasks[t].phase.ack));
    case SendRaises(t, timeout) => SendFailedReader(s, t, timeout);
    case AckTimer(t) => AckTimerReader(s, t);
    case AckResumes(t) => ResumedReader(s, t);
    case Settle(t) =>
      var p := s.tasks[t].phase;
      SettledTasks(s, p.item.future, p.outcome);
      LoopHeadReader(s, SettleOnce(s, p.item.future, p.outcome), t);
    case CancelDelivered(t) => InterruptedReader(s, t);
    case _ => SameReaders(s, Apply(s, step));
  }

  lemma SettledTasks(s: State, f: Id, o: Outcome)
    ensures var s' := SettleOnce(s, f, o);
            s'.tasks == s.tasks && s'.replyQueues == s.replyQueues && s'.replyWorkers == s.replyWorkers && s'.running == s.running
  {
  }

  lemma ClearedTasks(s: State)
    ensures Cleared(s).tasks == s.tasks && Cleared(s).replyQueues == s.replyQueues
  {
  }

  lemma AcknowledgedTasks(s: State, ack: Ack)
    ensures Acknowledged(s, ack).tasks == s.tasks && Acknowledged(s, ack).replyQueues == s.replyQueues
  {
  }

  lemma TakenReader(s: State, t: Id)
    requires Enabled(s, Take(t))
    ensures NoNewReader(s, TakeItem(s, t))
  {
    MovedReader(s, TakeItem(s, t), t);
  }

  lemma SendFailedReader(s: State, t: Id, timeout: bool)
    requires t in s.tasks && s.tasks[t].phase.Sending?
    ensures NoNewReader(s, SendFailed(s, t, timeout))
  {
    MovedReader(s, SendFailed(s, t, timeout), t);
  }

  lemma AckTimerReader(s: State, t: Id)
    requires t in s.tasks && s.tasks[t].phase.AwaitingAck?
    ensures NoNewReader(s, AckTimerFired(s, t))
  {
    MovedReader(s, AckTimerFired(s, t), t);
  }

  lemma ResumedReader(s: State, t: Id)
    requires Enabled(s, AckResumes(t))
    ensures NoNewReader(s, Resumed(s, t))
  {
    MovedReader(s, Resumed(s, t), t);
  }

  // ---------------------------------------------------------------- an item is in one queue, until it is taken

  ghost predicate QueuesApart(queues: map<Id, seq<Item>>, enqueued: seq<Item>, taken: seq<Item>) {
    (forall q | q in queues :: NotYetTaken(queues[q], enqueued, taken))
    && (forall q, q', x | q in queues && q' in queues && x in queues[q] && x in queues[q'] :: q == q')
  }

  ghost predicate NotYetTaken(queue: seq<Item>, enqueued: seq<Item>, taken: seq<Item>) {
    (forall x | x in queue :: x in enqueued && x !in taken)
    && forall i, j :: 0 <= i < j < |queue| ==> queue[i] != queue[j]
  }

  lemma JoinedApart(s: State, frame: Frame)
    requires QueuesApart(s.queues, s.enqueued, s.taken) && frame.req in s.replyQueues && s.replyQueues[frame.req] in s.queues
    requires forall x | x in s.enqueued || x in s.taken :: x.future < s.nextId
    ensures var s' := Joined(s, frame); QueuesApart(s'.queues, s'.enqueued, s'.taken)
  {
    var s' := Joined(s, frame);
    forall q | q in s'.queues
      ensures NotYetTaken(s'.queues[q], s'.enqueued, s'.taken)
    {
      assert NotYetTaken(s.queues[q], s.enqueued, s.taken);
    }
  }

  lemma OpenedApart(s: State, req: ReqId)
    requires QueuesApart(s.queues, s.enqueued, s.taken) && s.nextId !in s.queues
    ensures var s' := Opened(s, req); QueuesApart(s'.queues, s'.enqueued, s'.taken)
  {
    hide NotYetTaken;
    assert NotYetTaken([], s.enqueued, s.taken) by { NothingYet(s); }
  }

  lemma NothingYet(s: State)
    ensures NotYetTaken([], s.enqueued, s.taken)
  {
  }

  lemma TakenApart(s: State, t: Id)
    requires Enabled(s, Take(t)) && QueuesApart(s.queues, s.enqueued, s.taken)
    ensures var s' := TakeItem(s, t); QueuesApart(s'.queues, s'.enqueued, s'.taken)
  {
    var q, s' := s.tasks[t].queue.value, TakeItem(s, t);
    forall i | i in s'.queues
      ensures NotYetTaken(s'.queues[i], s'.enqueued, s'.taken)
    {
      assert NotYetTaken(s.queues[i], s.enqueued, s.taken);
      assert s.queues[q] == [s.queues[q][0]] + s'.queues[q];
    }
  }

  lemma StepApart(s: State, step: Step)
    requires Inv(s) && Enabled(s, step) && QueuesApart(s.queues, s.enqueued, s.taken)
    ensures var s' := Apply(s, step); QueuesApart(s'.queues, s'.enqueued, s'.taken)
  {
    hide Registered, QueuesInOrder, WorkersAgree, Accounted, Answered, QueuesApart, Opened, Joined, TakeItem, Ordered, Increasing;
    RegisteredQueues(s);
    if step.Take? {
      TakenApart(s, step.task);
    } else if step.SendReply? {
      var req := step.frame.req;
      if s.wsOpen {
        if req !in s.replyQueues { OpenedApart(s, req); }
        OpenedIs(s, req);
        JoinedApart(if req in s.replyQueues then s else Opened(s, req), step.frame);
      }
    } else {
      hide Apply, Enabled;
      StepCalm(s, step);
    }
  }

  lemma OpenedIs(s: State, req: ReqId)
    ensures var s' := Opened(s, req);
            req in s'.replyQueues && s'.replyQueues[req] in s'.queues && s'.nextId == s.nextId + 2
            && s'.enqueued == s.enqueued && s'.taken == s.taken
  {
  }

  lemma {:induction false} ReachedApart(s: State, steps: seq<Step>)
    requires Inv(s) && Enabling(s, steps) && QueuesApart(s.queues, s.enqueued, s.taken)
    ensures var s' := After(s, steps); QueuesApart(s'.queues, s'.enqueued, s'.taken)
    decreases |steps|
  {
    hide Inv, Enabled, Apply, QueuesApart;
    if steps != [] {
      InvKept(s, steps[0]);
      StepApart(s, steps[0]);
      ReachedApart(Apply(s, steps[0]), steps[1..]);
    }
  }

  // ---------------------------------------------------------------- what nobody reads is never taken

  lemma StillUnread(s: State, s': State, q: Id)
    requires NoNewReader(s, s') && q in s.queues && !Readable(s, q)
    ensures !Readable(s', q)
  {
    hide Reads;
  }

  lemma UnreadNotTaken(s: State, t: Id, q: Id)
    requires Enabled(s, Take(t)) && q in s.queues && !Readable(s, q)
    ensures q in TakeItem(s, t).queues && TakeItem(s, t).queues[q] == s.queues[q]
  {
    assert Reads(s.tasks[t], s.replyQueues, s.tasks[t].queue.value);
  }

  lemma EnqueuedBehind(s: State, frame: Frame, q: Id)
    requires (frame.req in s.replyQueues ==> s.replyQueues[frame.req] in s.queues) && q in s.queues && s.nextId !in s.queues
    ensures var s' := Enqueue(s, frame); q in s'.queues && s.queues[q] <= s'.queues[q]
  {
  }

  lemma UnreadStays(s: State, step: Step, q: Id, x: Item)
    requires Inv(s) && Enabled(s, step) && q in s.queues && x in s.queues[q] && !Readable(s, q)
    ensures var s' := Apply(s, step); q in s'.queues && x in s'.queues[q] && !Readable(s', q)
  {
    hide Registered, Apart, LogsInOrder, QueuesInOrder, WorkersAgree, Accounted, Answered, Readable, NoNewReader, Enqueue, TakeItem;
    RegisteredQueues(s);
    StepReaders(s, step);
    StillUnread(s, Apply(s, step), q);
    if step.Take? {
      hide Inv;
      UnreadNotTaken(s, step.task, q);
    } else if step.SendReply? {
      EnqueuedBehind(s, step.frame, q);
    } else {
      hide Apply, Enabled, Inv;
      StepCalm(s, step);
    }
  }

  lemma {:induction false} UnreadForever(s: State, steps: seq<Step>, q: Id, x: Item)
    requires Inv(s) && Enabling(s, steps) && q in s.queues && x in s.queues[q] && !Readable(s, q)
    ensures var s' := After(s, steps); q in s'.queues && x in s'.queues[q]
    decreases |steps|
  {
    hide Inv, Enabled, Apply, Readable;
    if steps != [] {
      InvKept(s, steps[0]);
      UnreadStays(s, steps[0], q, x);
      UnreadForever(Apply(s, steps[0]), steps[1..], q, x);
    }
  }

  // ---------------------------------------------------------------- what somebody reads can be taken

  /** A step towards the next item of the worker. */
  function NextStep(s: State, t: Id): Step
    requires t in s.tasks
  {
    if !s.running then Connect
    else
      match s.tasks[t].phase
      case NotStarted => Start(t)
      case Sending(_, _) => SendReturns(t)
      case AwaitingAck(_, _) => AckTimer(t)
      case AckTimedOut(_, _) => AckResumes(t)
      case Settling(_, _) => Settle(t)
      case _ => Take(t)
  }

  function StepsLeft(s: State, t: Id): nat
    requires t in s.tasks
  {
    (if s.running then 0 else 1)
    + match s.tasks[t].phase { case NotStarted => 2 case Sending(_, _) => 10 case AwaitingAck(_, _) => 8 case AckTimedOut(_, _) => 6
                               case Settling(_, _) => 4 case _ => 0 }
  }

  /** The worker reads the queue still, with `items` in it. */
  ghost predicate ReadsOn(s: State, t: Id, q: Id, items: seq<Item>) {
    t in s.tasks && Reads(s.tasks[t], s.replyQueues, q) && q in s.queues && s.queues[q] == items
  }

  lemma NextIsEnabled(s: State, t: Id, q: Id)
    requires q in s.queues && s.queues[q] != [] && ReadsOn(s, t, q, s.queues[q])
    ensures Enabled(s, NextStep(s, t))
  {
  }

  lemma Progress(s: State, t: Id, q: Id)
    requires Inv(s) && q in s.queues && s.queues[q] != [] && ReadsOn(s, t, q, s.queues[q])
    ensures Enabled(s, NextStep(s, t))
    ensures var step, s' := NextStep(s, t), Apply(s, NextStep(s, t));
            if step.Take? then ReadsOn(s', t, q, s.queues[q][1..]) && s.queues[q][0] in s'.taken
            else ReadsOn(s', t, q, s.queues[q]) && StepsLeft(s', t) < StepsLeft(s, t)
  {
    NextIsEnabled(s, t, q);
    RegisteredQueues(s);
    hide Inv, Enabled, Started, TakeItem, SendReturned, AckTimerFired, Resumed, ReplySettled, SettleOnce, Acknowledged, Cleared, Stopped,
         Enqueue, Exited, SendFailed, Interrupted, WithPhase;
    if !s.running {
      assert Apply(s, Connect) == s.(running := true);
    } else {
      hide ReadsOn, StepsLeft;
      match s.tasks[t].phase {
        case NotStarted => StartProgress(s, t, q);
        case Sending(_, _) => SendProgress(s, t, q);
        case AwaitingAck(_, _) => TimerProgress(s, t, q);
        case AckTimedOut(_, _) => ResumeProgress(s, t, q);
        case Settling(_, _) => SettleProgress(s, t, q);
        case _ => TakeProgress(s, t, q);
      }
    }
  }

  lemma StartProgress(s: State, t: Id, q: Id)
    requires q in s.queues && ReadsOn(s, t, q, s.queues[q]) && s.running && s.tasks[t].phase.NotStarted?
    ensures var s' := Started(s, t); ReadsOn(s', t, q, s.queues[q]) && StepsLeft(s', t) < StepsLeft(s, t)
  {
  }

  lemma TakeProgress(s: State, t: Id, q: Id)
    requires Enabled(s, Take(t)) && q in s.queues && ReadsOn(s, t, q, s.queues[q])
    ensures var s' := TakeItem(s, t); ReadsOn(s', t, q, s.queues[q][1..]) && s.queues[q][0] in s'.taken
  {
  }

  lemma SendProgress(s: State, t: Id, q: Id)
    requires q in s.queues && ReadsOn(s, t, q, s.queues[q]) && s.tasks[t].phase.Sending?
    ensures var s' := SendReturned(s, t); ReadsOn(s', t, q, s.queues[q]) && StepsLeft(s', t) < StepsLeft(s, t)
  {
  }

  lemma TimerProgress(s: State, t: Id, q: Id)
    requires q in s.queues && ReadsOn(s, t, q, s.queues[q]) && s.tasks[t].phase.AwaitingAck?
    ensures var s' := AckTimerFired(s, t); ReadsOn(s', t, q, s.queues[q]) && StepsLeft(s', t) < StepsLeft(s, t)
  {
  }

  lemma ResumeProgress(s: State, t: Id, q: Id)
    requires q in s.queues && ReadsOn(s, t, q, s.queues[q]) && s.tasks[t].phase.AckTimedOut?
    ensures var s' := Resumed(s, t); ReadsOn(s', t, q, s.queues[q]) && StepsLeft(s', t) < StepsLeft(s, t)
  {
  }

  lemma SettleProgress(s: State, t: Id, q: Id)
    requires q in s.queues && ReadsOn(s, t, q, s.queues[q]) && s.running && s.tasks[t].phase.Settling?
    ensures var s' := ReplySettled(s, t); ReadsOn(s', t, q, s.queues[q]) && StepsLeft(s', t) < StepsLeft(s, t)
  {
  }

  lemma {:induction false} TakenInTime(s: State, t: Id, q: Id, x: Item) returns (steps: seq<Step>)
    requires Inv(s) && q in s.queues && x in s.queues[q] && ReadsOn(s, t, q, s.queues[q])
    ensures Enabling(s, steps) && x in After(s, steps).taken
    decreases |s.queues[q]|, StepsLeft(s, t)
  {
    hide Inv, Enabled, Apply, Reads, StepsLeft, NextStep, Enabling, After;
    Progress(s, t, q);
    var step := NextStep(s, t);
    InvKept(s, step);
    var s' := Apply(s, step);
    if step.Take? && s.queues[q][0] == x {
      steps := [step];
      OneStep(s, step);
    } else {
      assert s.queues[q] == [s.queues[q][0]] + s.queues[q][1..];
      var rest := TakenInTime(s', t, q, x);
      steps := [step] + rest;
      FirstStep(s, step, rest);
    }
  }

  /** Over every run: an item in a queue is taken in some continuation exactly if some worker still reads
      the queue. */
  lemma TakenExactly(run: seq<Step>, q: Id, x: Item)
    requires Run(run) && q in Reached(run).queues && x in Reached(run).queues[q]
    ensures x !in Reached(run).taken
    ensures (exists steps :: Enabling(Reached(run), steps) && x in After(Reached(run), steps).taken) <==> Readable(Reached(run), q)
  {
    hide Inv, Enabling, Reads;
    var s := Reached(run);
    InitialAgrees();
    ReachedApart(INITIAL, run);
    if Readable(s, q) {
      var t :| t in s.tasks && Reads(s.tasks[t], s.replyQueues, q);
      var steps := TakenInTime(s, t, q, x);
    } else {
      forall steps | Enabling(s, steps)
        ensures x !in After(s, steps).taken
      {
        UnreadForever(s, steps, q, x);
        ReachedApart(s, steps);
      }
    }
  }

  // ---------------------------------------------------------------- two runs

  /** The client with one request: queue 0, worker 1. */
  function OneWorker(r: ReqId, phase: Phase, queue: seq<Item>, pending: map<ReqId, Id>, outcome: map<Id, Outcome>, n: Id, log: seq<Item>): State {
    State(true, true, pending, map[r := 0], map[r := 1], map[0 := queue],
          map[1 := Task(r, if phase.NotStarted? then None else Some(0), phase, false)],
          outcome, n, log + queue, log, log, {}, multiset(outcome.Keys))
  }

  lemma Arrives(r: ReqId, phase: Phase, outcome: map<Id, Outcome>, n: Id, log: seq<Item>, y: Frame)
    requires y.req == r
    ensures Enqueue(OneWorker(r, phase, [], map[], outcome, n, log), y)
         == OneWorker(r, phase, [Item(y, n)], map[], outcome, n + 1, log)
  {
    assert [] + [Item(y, n)] == [Item(y, n)] && log + [] + [Item(y, n)] == log + [Item(y, n)];
    assert map[0 := []][0 := [Item(y, n)]] == map[0 := [Item(y, n)]];
  }

  lemma FirstArrives(x: Frame)
    ensures Enqueue(INITIAL.(running := true, wsOpen := true), x) == OneWorker(x.req, NotStarted, [Item(x, 2)], map[], map[], 3, [])
  {
    var s := INITIAL.(running := true, wsOpen := true);
    var s' := Enqueue(s, x);
    var none: seq<Item> := [];
    assert none + [Item(x, 2)] == [Item(x, 2)] && map[0 := none][0 := [Item(x, 2)]] == map[0 := [Item(x, 2)]];
    assert s'.queues == map[0 := [Item(x, 2)]] && s'.tasks == map[1 := Task(x.req, None, NotStarted, false)];
    var outcome: map<Id, Outcome> := map[];
    assert outcome.Keys == {};
  }

  lemma FirstTurn(r: ReqId, item: Item)
    ensures Started(OneWorker(r, NotStarted, [item], map[], map[], 3, []), 1) == OneWorker(r, Waiting, [item], map[], map[], 3, [])
  {
    var s := OneWorker(r, NotStarted, [item], map[], map[], 3, []);
    assert Started(s, 1).tasks == map[1 := Task(r, Some(0), Waiting, false)];
  }

  lemma Moves(r: ReqId, from: Phase, to: Phase, pending: map<ReqId, Id>, outcome: map<Id, Outcome>, n: Id, log: seq<Item>)
    requires !from.NotStarted? && !to.NotStarted?
    ensures WithPhase(OneWorker(r, from, [], pending, outcome, n, log), 1, to) == OneWorker(r, to, [], pending, outcome, n, log)
  {
    assert map[1 := Task(r, Some(0), from, false)][1 := Task(r, Some(0), to, false)] == map[1 := Task(r, Some(0), to, false)];
  }

  lemma Settles(r: ReqId, phase: Phase, pending: map<ReqId, Id>, outcome: map<Id, Outcome>, n: Id, log: seq<Item>, f: Id, o: Outcome)
    requires f !in outcome
    ensures SettleOnce(OneWorker(r, phase, [], pending, outcome, n, log), f, o) == OneWorker(r, phase, [], pending, outcome[f := o], n, log)
  {
    assert outcome[f := o].Keys == outcome.Keys + {f};
    assert multiset(outcome.Keys) + multiset{f} == multiset(outcome.Keys + {f});
  }

  lemma TakesOnly(r: ReqId, item: Item, outcome: map<Id, Outcome>, n: Id, log: seq<Item>)
    requires item.frame.req == r
    ensures TakeItem(OneWorker(r, Waiting, [item], map[], outcome, n, log), 1)
         == OneWorker(r, Sending(item, n), [], map[r := n], outcome, n + 1, log + [item])
  {
    var s := OneWorker(r, Waiting, [item], map[], outcome, n, log);
    assert log + [item] + [] == log + [item] && [item][1..] == [];
    assert s.queues[0 := []] == map[0 := []];
    assert s.tasks[1 := s.tasks[1].(phase := Sending(item, n))] == map[1 := Task(r, Some(0), Sending(item, n), false)];
  }

  /** From `s` the step leads to `s'`. */
  ghost predicate Leads(s: State, step: Step, s': State) { Inv(s) ==> Enabled(s, step) && Apply(s, step) == s' }

  lemma Returns(r: ReqId, item: Item, ack: Id, pending: map<ReqId, Id>, outcome: map<Id, Outcome>, n: Id, log: seq<Item>)
    ensures Leads(OneWorker(r, Sending(item, ack), [], pending, outcome, n, log), SendReturns(1),
                  OneWorker(r, AwaitingAck(item, ack), [], pending, outcome, n, log))
  {
    hide Inv;
    Moves(r, Sending(item, ack), AwaitingAck(item, ack), pending, outcome, n, log);
  }

  lemma TimerFires(r: ReqId, item: Item, ack: Id, n: Id, log: seq<Item>)
    ensures Leads(OneWorker(r, AwaitingAck(item, ack), [], map[r := ack], map[], n, log), AckTimer(1),
                  OneWorker(r, AckTimedOut(item, ack), [], map[r := ack], map[ack := Cancelled], n, log))
  {
    hide Inv, SettleOnce, WithPhase;
    Settles(r, AwaitingAck(item, ack), map[r := ack], map[], n, log, ack, Cancelled);
    Moves(r, AwaitingAck(item, ack), AckTimedOut(item, ack), map[r := ack], map[ack := Cancelled], n, log);
  }

  lemma GivesUp(r: ReqId, item: Item, ack: Id, n: Id, log: seq<Item>)
    requires item.frame.req == r
    ensures Leads(OneWorker(r, AckTimedOut(item, ack), [], map[r := ack], map[ack := Cancelled], n, log), AckResumes(1),
                  OneWorker(r, Settling(item, NoAck), [], map[], map[ack := Cancelled], n, log))
  {
    hide Inv, WithPhase;
    assert map[r := ack] - {r} == map[];
    Moves(r, AckTimedOut(item, ack), Settling(item, NoAck), map[], map[ack := Cancelled], n, log);
  }

  lemma Finishes(r: ReqId, item: Item, o: Outcome, outcome: map<Id, Outcome>, n: Id, log: seq<Item>)
    requires item.future !in outcome
    ensures Leads(OneWorker(r, Settling(item, o), [], map[], outcome, n, log), Settle(1),
                  OneWorker(r, Waiting, [], map[], outcome[item.future := o], n, log))
  {
    hide Inv, SettleOnce, WithPhase;
    Settles(r, Settling(item, o), map[], outcome, n, log, item.future, o);
    Moves(r, Settling(item, o), Waiting, map[], outcome[item.future := o], n, log);
  }

  lemma FirstArrivesStep(s: State, x: Frame)
    requires s == INITIAL.(running := true, wsOpen := true)
    ensures Leads(s, SendReply(x), OneWorker(x.req, NotStarted, [Item(x, 2)], map[], map[], 3, []))
  {
    hide Inv, Enqueue, OneWorker;
    FirstArrives(x);
  }

  lemma FirstTurnStep(r: ReqId, item: Item)
    ensures Leads(OneWorker(r, NotStarted, [item], map[], map[], 3, []), Start(1), OneWorker(r, Waiting, [item], map[], map[], 3, []))
  {
    hide Inv, Started;
    FirstTurn(r, item);
  }

  lemma TakesStep(r: ReqId, item: Item, outcome: map<Id, Outcome>, n: Id, log: seq<Item>)
    requires item.frame.req == r
    ensures Leads(OneWorker(r, Waiting, [item], map[], outcome, n, log), Take(1),
                  OneWorker(r, Sending(item, n), [], map[r := n], outcome, n + 1, log + [item]))
  {
    hide Inv, TakeItem;
    TakesOnly(r, item, outcome, n, log);
  }

  lemma ArrivesStep(r: ReqId, phase: Phase, outcome: map<Id, Outcome>, n: Id, log: seq<Item>, y: Frame)
    requires y.req == r
    ensures Leads(OneWorker(r, phase, [], map[], outcome, n, log), SendReply(y),
                  OneWorker(r, phase, [Item(y, n)], map[], outcome, n + 1, log))
  {
    hide Inv, Enqueue, OneWorker;
    Arrives(r, phase, outcome, n, log, y);
  }

  lemma RunOn(run: seq<Step>, step: Step, s: State, s': State)
    requires Run(run) && Reached(run) == s && Leads(s, step, s')
    ensures Run(run + [step]) && Reached(run + [step]) == s'
  {
    InitialAgrees();
    hide Inv, Enabling, After, Apply, Enabled;
    AddStep(INITIAL, run, step);
  }

  /** Connected; the first reply of a request is written and given up for want of an ACK. */
  function FirstTimesOut(x: Frame): seq<Step> {
    [Connect] + [SocketOpens] + [SendReply(x)] + [Start(1)] + [Take(1)] + [SendReturns(1)] + [AckTimer(1)] + [AckResumes(1)] + [Settle(1)]
  }

  lemma AfterTimeout(x: Frame)
    ensures Run(FirstTimesOut(x))
    ensures Reached(FirstTimesOut(x)) == OneWorker(x.req, Waiting, [], map[], map[3 := Cancelled][2 := NoAck], 4, [Item(x, 2)])
  {
    hide Run, Reached, Leads, OneWorker;
    var r, item, log := x.req, Item(x, 2), [Item(x, 2)];
    var sending := OneWorker(r, Sending(item, 3), [], map[r := 3], map[], 4, log);
    FirstTaken(x);
    var run := [Connect] + [SocketOpens] + [SendReply(x)] + [Start(1)] + [Take(1)];
    Returns(r, item, 3, map[r := 3], map[], 4, log);
    var awaiting := OneWorker(r, AwaitingAck(item, 3), [], map[r := 3], map[], 4, log);
    RunOn(run, SendReturns(1), sending, awaiting);
    TimerFires(r, item, 3, 4, log);
    var timedOut := OneWorker(r, AckTimedOut(item, 3), [], map[r := 3], map[3 := Cancelled], 4, log);
    RunOn(run + [SendReturns(1)], AckTimer(1), awaiting, timedOut);
    GivesUp(r, item, 3, 4, log);
    var settling := OneWorker(r, Settling(item, NoAck), [], map[], map[3 := Cancelled], 4, log);
    RunOn(run + [SendReturns(1)] + [AckTimer(1)], AckResumes(1), timedOut, settling);
    Finishes(r, item, NoAck, map[3 := Cancelled], 4, log);
    RunOn(run + [SendReturns(1)] + [AckTimer(1)] + [AckResumes(1)], Settle(1), settling,
          OneWorker(r, Waiting, [], map[], map[3 := Cancelled][2 := NoAck], 4, log));
  }

  lemma FirstTaken(x: Frame)
    ensures var run := [Connect] + [SocketOpens] + [SendReply(x)] + [Start(1)] + [Take(1)];
            Run(run) && Reached(run) == OneWorker(x.req, Sending(Item(x, 2), 3), [], map[x.req := 3], map[], 4, [Item(x, 2)])
  {
    hide Run, Reached, Leads, OneWorker;
    var r, item := x.req, Item(x, 2);
    var s0 := INITIAL.(running := true, wsOpen := true);
    var waiting := OneWorker(r, Waiting, [item], map[], map[], 3, []);
    JustConnected();
    FirstArrivesStep(s0, x);
    RunOn([Connect] + [SocketOpens], SendReply(x), s0, OneWorker(r, NotStarted, [item], map[], map[], 3, []));
    FirstTurnStep(r, item);
    RunOn([Connect] + [SocketOpens] + [SendReply(x)], Start(1), OneWorker(r, NotStarted, [item], map[], map[], 3, []), waiting);
    TakesStep(r, item, map[], 3, []);
    assert [] + [item] == [item];
    RunOn([Connect] + [SocketOpens] + [SendReply(x)] + [Start(1)], Take(1), waiting,
          OneWorker(r, Sending(item, 3), [], map[r := 3], map[], 4, [item]));
  }

  lemma JustConnected()
    ensures Run([Connect] + [SocketOpens]) && Reached([Connect] + [SocketOpens]) == INITIAL.(running := true, wsOpen := true)
  {
    hide Inv, Enabling, After;
    var s := Connected();
  }

  /** The race with the idle timer, for every two frames of one request: the second reply joins the queue
      after the timer fired and before the worker left. Nothing ever takes it. */
  lemma EnqueuedForNobody(x: Frame, y: Frame)
    requires x.req == y.req
    ensures var run := FirstTimesOut(x) + [IdleFires(1)] + [SendReply(y)];
            Run(run) && var s := Reached(run);
            0 in s.queues && s.queues[0] == [Item(y, 4)]
            && forall steps | Enabling(s, steps) :: Item(y, 4) !in After(s, steps).taken
  {
    hide Run, Reached, Leads, Readable, Enabling, After;
    var r, outcome, log := x.req, map[3 := Cancelled][2 := NoAck], [Item(x, 2)];
    var waiting, idle := OneWorker(r, Waiting, [], map[], outcome, 4, log), OneWorker(r, IdleFired, [], map[], outcome, 4, log);
    var s := OneWorker(r, IdleFired, [Item(y, 4)], map[], outcome, 5, log);
    AfterTimeout(x);
    IdlesStep(r, outcome, 4, log);
    RunOn(FirstTimesOut(x), IdleFires(1), waiting, idle);
    ArrivesStep(r, IdleFired, outcome, 4, log, y);
    RunOn(FirstTimesOut(x) + [IdleFires(1)], SendReply(y), idle, s);
    NobodyReads(r, [Item(y, 4)], outcome, 5, log);
    TakenExactly(FirstTimesOut(x) + [IdleFires(1)] + [SendReply(y)], 0, Item(y, 4));
  }

  lemma NobodyReads(r: ReqId, queue: seq<Item>, outcome: map<Id, Outcome>, n: Id, log: seq<Item>)
    ensures !Readable(OneWorker(r, IdleFired, queue, map[], outcome, n, log), 0)
  {
  }

  lemma IdlesStep(r: ReqId, outcome: map<Id, Outcome>, n: Id, log: seq<Item>)
    ensures Leads(OneWorker(r, Waiting, [], map[], outcome, n, log), IdleFires(1), OneWorker(r, IdleFired, [], map[], outcome, n, log))
  {
    hide Inv;
    Moves(r, Waiting, IdleFired, map[], outcome, n, log);
  }

  /** The second frame of the request is written, after the first was given up. */
  function SecondWritten(x: Frame, y: Frame): seq<Step> { FirstTimesOut(x) + [SendReply(y)] + [Take(1)] }

  lemma SecondSending(x: Frame, y: Frame)
    requires x.req == y.req
    ensures Run(SecondWritten(x, y))
    ensures Reached(SecondWritten(x, y)) ==
            OneWorker(x.req, Sending(Item(y, 4), 5), [], map[x.req := 5], map[3 := Cancelled][2 := NoAck], 6, [Item(x, 2)] + [Item(y, 4)])
  {
    hide Run, Reached, Leads, OneWorker, FirstTimesOut;
    var r, outcome, log, item := x.req, map[3 := Cancelled][2 := NoAck], [Item(x, 2)], Item(y, 4);
    var waiting := OneWorker(r, Waiting, [item], map[], outcome, 5, log);
    AfterTimeout(x);
    ArrivesStep(r, Waiting, outcome, 4, log, y);
    RunOn(FirstTimesOut(x), SendReply(y), OneWorker(r, Waiting, [], map[], outcome, 4, log), waiting);
    TakesStep(r, item, outcome, 5, log);
    RunOn(FirstTimesOut(x) + [SendReply(y)], Take(1), waiting,
          OneWorker(r, Sending(item, 5), [], map[r := 5], outcome, 6, log + [item]));
  }

  /** A late ACK, for every two frames of one request and every ACK for it: the first frame was given up,
      and the ACK that comes while the second is still being sent answers the second. */
  lemma LateAckAnswersNext(x: Frame, y: Frame, ack: Ack)
    requires x.req == y.req == ack.req
    ensures var run := SecondWritten(x, y) + [AckArrives(ack)] + [SendReturns(1)] + [AckResumes(1)] + [Settle(1)];
            Run(run) && var s := Reached(run);
            s.sent == [Item(x, 2), Item(y, 4)] && s.outcome == map[3 := Cancelled, 2 := NoAck, 5 := Acked(ack), 4 := Acked(ack)]
  {
    hide Run, Reached, Leads, OneWorker, SecondWritten;
    var r, item, log := x.req, Item(y, 4), [Item(x, 2)] + [Item(y, 4)];
    var outcome := map[3 := Cancelled][2 := NoAck];
    var answered := outcome[5 := Acked(ack)];
    var run := SecondWritten(x, y);
    var sending, awaiting := OneWorker(r, Sending(item, 5), [], map[], answered, 6, log), OneWorker(r, AwaitingAck(item, 5), [], map[], answered, 6, log);
    var settling := OneWorker(r, Settling(item, Acked(ack)), [], map[], answered, 6, log);
    SecondSending(x, y);
    AckStep(r, item, 5, outcome, 6, log, ack);
    RunOn(run, AckArrives(ack), OneWorker(r, Sending(item, 5), [], map[r := 5], outcome, 6, log), sending);
    Returns(r, item, 5, map[], answered, 6, log);
    RunOn(run + [AckArrives(ack)], SendReturns(1), sending, awaiting);
    AnsweredStep(r, item, 5, answered, 6, log, ack);
    RunOn(run + [AckArrives(ack)] + [SendReturns(1)], AckResumes(1), awaiting, settling);
    Finishes(r, item, Acked(ack), answered, 6, log);
    RunOn(run + [AckArrives(ack)] + [SendReturns(1)] + [AckResumes(1)], Settle(1), settling,
          OneWorker(r, Waiting, [], map[], answered[4 := Acked(ack)], 6, log));
    LogsOf(r, answered[4 := Acked(ack)], 6, log);
  }

  lemma LogsOf(r: ReqId, outcome: map<Id, Outcome>, n: Id, log: seq<Item>)
    ensures var s := OneWorker(r, Waiting, [], map[], outcome, n, log); s.sent == log && s.outcome == outcome
  {
  }

  lemma AckStep(r: ReqId, item: Item, f: Id, outcome: map<Id, Outcome>, n: Id, log: seq<Item>, ack: Ack)
    requires ack.req == r && f !in outcome
    ensures Leads(OneWorker(r, Sending(item, f), [], map[r := f], outcome, n, log), AckArrives(ack),
                  OneWorker(r, Sending(item, f), [], map[], outcome[f := Acked(ack)], n, log))
  {
    hide Inv, SettleOnce;
    assert map[r := f] - {r} == map[];
    Settles(r, Sending(item, f), map[], outcome, n, log, f, Acked(ack));
  }

  lemma AnsweredStep(r: ReqId, item: Item, f: Id, outcome: map<Id, Outcome>, n: Id, log: seq<Item>, ack: Ack)
    requires f in outcome && outcome[f] == Acked(ack)
    ensures Leads(OneWorker(r, AwaitingAck(item, f), [], map[], outcome, n, log), AckResumes(1),
                  OneWorker(r, Settling(item, Acked(ack)), [], map[], outcome, n, log))
  {
    hide Inv, WithPhase;
    Moves(r, AwaitingAck(item, f), Settling(item, Acked(ack)), map[], outcome, n, log);
  }
}

/** The reply protocol of the WeCom WebSocket client (wecom_ai_bot_api/ws_client.py) as a state machine:
    one queue and one worker task per request id, one ACK future per frame in flight. A step is what the
    event loop runs between two waits; every interleaving of the steps is a run. The module has the steps
    and the invariant every one of them keeps, proved one kind of update at a time; what follows for whole
    runs is in ReplyGuarantees and ReplyDelivery. */
module ReplyProtocol {
  import opened Common

  type ReqId = string

  /** The identity of a future, a queue or a task object. */
  type Id = nat

  datatype Frame = Frame(cmd: string, req: ReqId, body: string)
  datatype Item = Item(frame: Frame, future: Id)
  datatype Ack = Ack(req: ReqId, errcode: int)
  datatype Outcome = Acked(ack: Ack) | NoAck | Raised | Cancelled

  /** Where `_reply_queue_worker` waits: for its first turn, for an item, after the idle timer fired, in
      `send_str`, for the ACK, after the ACK timer fired, or for the logger before it settles the reply. */
  datatype Phase =
    | NotStarted
    | Waiting
    | IdleFired
    | Sending(item: Item, ack: Id)
    | AwaitingAck(item: Item, ack: Id)
    | AckTimedOut(item: Item, ack: Id)
    | Settling(item: Item, outcome: Outcome)
    | Done

  datatype Task = Task(req: ReqId, queue: Option<Id>, phase: Phase, cancelled: bool)

  /** `abandoned` are the reply futures a cancelled worker was busy with, `enqueued`, `taken` and `sent`
      the items put in a queue, handed to `_send_and_wait_ack` and written to the socket so far, and
      `settled` counts the settlements of each future. */
  datatype State = State(
    running: bool,
    wsOpen: bool,
    pendingAcks: map<ReqId, Id>,
    replyQueues: map<ReqId, Id>,
    replyWorkers: map<ReqId, Id>,
    queues: map<Id, seq<Item>>,
    tasks: map<Id, Task>,
    outcome: map<Id, Outcome>,
    nextId: Id,
    enqueued: seq<Item>,
    taken: seq<Item>,
    sent: seq<Item>,
    abandoned: set<Id>,
    settled: multiset<Id>)

  const INITIAL := State(false, false, map[], map[], map[], map[], map[], map[], 0, [], [], [], {}, multiset{})

  datatype Step =
    | Connect
    | SocketOpens
    | SocketCloses
    | Disconnect
    | ClearPending
    | SendReply(frame: Frame)
    | CallerCancels(future: Id)
    | AckArrives(ack: Ack)
    | Start(task: Id)
    | Take(task: Id)
    | IdleFires(task: Id)
    | Leave(task: Id)
    | SendReturns(task: Id)
    | SendRaises(task: Id, timeout: bool)
    | AckTimer(task: Id)
    | AckResumes(task: Id)
    | Settle(task: Id)
    | CancelDelivered(task: Id)

  predicate Live(task: Task) { !task.phase.Done? }

  function Held(task: Task): Option<Item> {
    match task.phase
    case Sending(item, _) => Some(item)
    case AwaitingAck(item, _) => Some(item)
    case AckTimedOut(item, _) => Some(item)
    case Settling(item, _) => Some(item)
    case _ => None
  }

  // ---------------------------------------------------------------- the steps

  function WithPhase(s: State, t: Id, phase: Phase): State
    requires t in s.tasks
  {
    s.(tasks := s.tasks[t := s.tasks[t].(phase := phase)])
  }

  /** `if not future.done(): future.set_result(...)`, or `set_exception`, or `cancel`. */
  function SettleOnce(s: State, future: Id, outcome: Outcome): (r: State)
    ensures r.tasks == s.tasks
  {
    if future in s.outcome then s
    else s.(outcome := s.outcome[future := outcome], settled := s.settled + multiset{future})
  }

  /** The `finally` of the worker. */
  function Exited(s: State, t: Id): State
    requires t in s.tasks
  {
    var req := s.tasks[t].req;
    WithPhase(s, t, Done).(replyQueues := s.replyQueues - {req}, replyWorkers := s.replyWorkers - {req})
  }

  /** `while self._running`. */
  function LoopHead(s: State, t: Id): State
    requires t in s.tasks
  {
    if s.running then WithPhase(s, t, Waiting) else Exited(s, t)
  }

  /** `_send_reply` up to its wait; without an open socket it returns None at once. */
  function Enqueue(s: State, frame: Frame): State
    requires frame.req in s.replyQueues ==> s.replyQueues[frame.req] in s.queues
  {
    if !s.wsOpen then s
    else Joined(if frame.req in s.replyQueues then s else Opened(s, frame.req), frame)
  }

  /** A frame joins the queue of its request, with a new reply future. */
  function Joined(s: State, frame: Frame): State
    requires frame.req in s.replyQueues && s.replyQueues[frame.req] in s.queues
  {
    var item, q := Item(frame, s.nextId), s.replyQueues[frame.req];
    s.(queues := s.queues[q := s.queues[q] + [item]], nextId := s.nextId + 1, enqueued := s.enqueued + [item])
  }

  /** A new queue and its worker task. */
  function Opened(s: State, req: ReqId): State {
    s.(replyQueues := s.replyQueues[req := s.nextId], queues := s.queues[s.nextId := []],
       replyWorkers := s.replyWorkers[req := s.nextId + 1],
       tasks := s.tasks[s.nextId + 1 := Task(req, None, NotStarted, false)], nextId := s.nextId + 2)
  }

  function Started(s: State, t: Id): State
    requires t in s.tasks && s.tasks[t].req in s.replyQueues
  {
    var w := s.tasks[t];
    LoopHead(s.(tasks := s.tasks[t := w.(queue := Some(s.replyQueues[w.req]))]), t)
  }

  function Dequeued(s: State, q: Id): State
    requires q in s.queues && s.queues[q] != []
  {
    s.(queues := s.queues[q := s.queues[q][1..]], taken := s.taken + [s.queues[q][0]])
  }

  function AckRegistered(s: State, req: ReqId): State {
    s.(pendingAcks := s.pendingAcks[req := s.nextId], nextId := s.nextId + 1)
  }

  /** `_send_frame` writes only to an open socket. */
  function Written(s: State, t: Id, item: Item, ack: Id): State
    requires t in s.tasks
  {
    if s.wsOpen then WithPhase(s.(sent := s.sent + [item]), t, Sending(item, ack)) else WithPhase(s, t, AwaitingAck(item, ack))
  }

  /** The worker takes an item, registers a new ACK future and writes the frame if the socket is open. */
  function TakeItem(s: State, t: Id): State
    requires t in s.tasks && s.tasks[t].queue.Some? && s.tasks[t].queue.value in s.queues
    requires s.queues[s.tasks[t].queue.value] != []
  {
    var q := s.tasks[t].queue.value;
    var item := s.queues[q][0];
    DequeuedTasks(s, q);
    Written(AckRegistered(Dequeued(s, q), item.frame.req), t, item, s.nextId)
  }

  lemma DequeuedTasks(s: State, q: Id)
    requires q in s.queues && s.queues[q] != []
    ensures Dequeued(s, q).tasks == s.tasks && Dequeued(s, q).nextId == s.nextId && Dequeued(s, q).wsOpen == s.wsOpen
  {
  }

  lemma AckRegisteredTasks(s: State, req: ReqId)
    ensures AckRegistered(s, req).tasks == s.tasks && AckRegistered(s, req).wsOpen == s.wsOpen
  {
  }

  function WithoutPending(s: State, req: ReqId): State { s.(pendingAcks := s.pendingAcks - {req}) }

  /** Awaiting a failed future raises. */
  function Awaited(o: Outcome): Outcome { if o.Acked? then o else Raised }

  function Acknowledged(s: State, ack: Ack): State {
    if ack.req in s.pendingAcks
    then SettleOnce(WithoutPending(s, ack.req), s.pendingAcks[ack.req], Acked(ack))
    else s
  }

  function Cleared(s: State): State {
    var open := s.pendingAcks.Values - s.outcome.Keys;
    s.(pendingAcks := map[], outcome := s.outcome + map f | f in open :: Raised, settled := s.settled + multiset(open))
  }

  /** `disconnect` stops the loops and cancels every registered worker that is not done. */
  function Stopped(s: State): State {
    s.(running := false,
       tasks := map t | t in s.tasks ::
         if t in s.replyWorkers.Values && Live(s.tasks[t]) then s.tasks[t].(cancelled := true) else s.tasks[t])
  }

  /** A task cancelled before its first turn never enters its body, so its `finally` does not run. */
  function Interrupted(s: State, t: Id): State
    requires t in s.tasks
  {
    var w := s.tasks[t];
    if w.phase.NotStarted? then WithPhase(s, t, Done)
    else
      var s' := if w.phase.AwaitingAck? then SettleOnce(s, w.phase.ack, Cancelled) else s;
      Exited(s', t).(abandoned := s.abandoned + (if Held(w).Some? then {Held(w).value.future} else {}))
  }

  function Resumed(s: State, t: Id): State
    requires t in s.tasks
  {
    var w := s.tasks[t];
    match w.phase
    case AwaitingAck(item, ack) =>
      if ack in s.outcome then WithPhase(s, t, Settling(item, Awaited(s.outcome[ack]))) else s
    case AckTimedOut(item, _) => WithPhase(WithoutPending(s, item.frame.req), t, Settling(item, NoAck))
    case _ => s
  }

  function SendFailed(s: State, t: Id, timeout: bool): State
    requires t in s.tasks && s.tasks[t].phase.Sending?
  {
    var item := s.tasks[t].phase.item;
    if timeout then WithPhase(WithoutPending(s, item.frame.req), t, Settling(item, NoAck))
    else WithPhase(s, t, Settling(item, Raised))
  }

  function SendReturned(s: State, t: Id): State
    requires t in s.tasks && s.tasks[t].phase.Sending?
  {
    var p := s.tasks[t].phase;
    WithPhase(s, t, AwaitingAck(p.item, p.ack))
  }

  function AckTimerFired(s: State, t: Id): State
    requires t in s.tasks && s.tasks[t].phase.AwaitingAck?
  {
    var p := s.tasks[t].phase;
    WithPhase(SettleOnce(s, p.ack, Cancelled), t, AckTimedOut(p.item, p.ack))
  }

  function ReplySettled(s: State, t: Id): State
    requires t in s.tasks && s.tasks[t].phase.Settling?
  {
    var p := s.tasks[t].phase;
    LoopHead(SettleOnce(s, p.item.future, p.outcome), t)
  }

  ghost predicate Enabled(s: State, step: Step) {
    match step
    case CallerCancels(future) => exists x :: x in s.enqueued && x.future == future
    case Start(t) => t in s.tasks && s.tasks[t].phase.NotStarted? && !s.tasks[t].cancelled
    case Take(t) => t in s.tasks && s.tasks[t].phase.Waiting? && s.tasks[t].queue.Some?
                    && s.tasks[t].queue.value in s.queues && s.queues[s.tasks[t].queue.value] != []
    case IdleFires(t) => t in s.tasks && s.tasks[t].phase.Waiting?
    case Leave(t) => t in s.tasks && s.tasks[t].phase.IdleFired?
    case SendReturns(t) => t in s.tasks && s.tasks[t].phase.Sending?
    case SendRaises(t, _) => t in s.tasks && s.tasks[t].phase.Sending?
    case AckTimer(t) => t in s.tasks && s.tasks[t].phase.AwaitingAck?
    case AckResumes(t) =>
      t in s.tasks && (s.tasks[t].phase.AckTimedOut? || (s.tasks[t].phase.AwaitingAck? && s.tasks[t].phase.ack in s.outcome))
    case Settle(t) => t in s.tasks && s.tasks[t].phase.Settling?
    case CancelDelivered(t) => t in s.tasks && Live(s.tasks[t]) && s.tasks[t].cancelled
    case _ => true
  }

  ghost function Apply(s: State, step: Step): State
    requires Inv(s) && Enabled(s, step)
  {
    RegisteredQueues(s);
    hide Inv, Stopped, Cleared, Enqueue, SettleOnce, Acknowledged, Started, TakeItem, Exited, SendFailed, Resumed, LoopHead, Interrupted,
         Live, WithPhase, SendReturned, AckTimerFired, ReplySettled;
    match step
    case Connect => s.(running := true)
    case SocketOpens => s.(wsOpen := true)
    case SocketCloses => s.(wsOpen := false)
    case Disconnect => Stopped(s)
    case ClearPending => Cleared(s)
    case SendReply(frame) => Enqueue(s, frame)
    case CallerCancels(future) => SettleOnce(s, future, Cancelled)
    case AckArrives(ack) => Acknowledged(s, ack)
    case Start(t) => Started(s, t)
    case Take(t) => TakeItem(s, t)
    case IdleFires(t) => WithPhase(s, t, IdleFired)
    case Leave(t) => Exited(s, t)
    case SendReturns(t) => SendReturned(s, t)
    case SendRaises(t, timeout) => SendFailed(s, t, timeout)
    case AckTimer(t) => AckTimerFired(s, t)
    case AckResumes(t) => Resumed(s, t)
    case Settle(t) => ReplySettled(s, t)
    case CancelDelivered(t) => Interrupted(s, t)
  }

  // ---------------------------------------------------------------- what every step keeps

  /** A live worker is the registered one of its request and reads the registered queue. */
  ghost predicate Registered(queueOf: map<ReqId, Id>, workerOf: map<ReqId, Id>, queues: set<Id>, tasks: map<Id, Task>) {
    queueOf.Keys == workerOf.Keys
    && (forall r | r in workerOf :: workerOf[r] in tasks && tasks[workerOf[r]].req == r)
    && (forall r | r in queueOf :: queueOf[r] in queues)
    && (forall r, r' | r in queueOf && r' in queueOf && queueOf[r] == queueOf[r'] :: r == r')
    && (forall t | t in tasks && Live(tasks[t]) :: RegisteredTask(queueOf, workerOf, t, tasks[t]))
  }

  ghost predicate RegisteredTask(queueOf: map<ReqId, Id>, workerOf: map<ReqId, Id>, t: Id, w: Task) {
    w.req in workerOf && workerOf[w.req] == t && w.req in queueOf
    && w.queue == if w.phase.NotStarted? then None else Some(queueOf[w.req])
  }

  ghost predicate Below(ids: set<Id>, n: Id) { forall i | i in ids :: i < n }

  /** Reply futures are numbered below `n`, and none of them is an ACK future. */
  ghost predicate Apart(pending: map<ReqId, Id>, enqueued: seq<Item>, n: Id) {
    (forall x | x in enqueued :: x.future < n)
    && (forall r | r in pending :: pending[r] < n && NotAReply(pending[r], enqueued))
  }

  ghost predicate NotAReply(f: Id, enqueued: seq<Item>) { forall x | x in enqueued :: x.future != f }

  /** In the order of enqueueing, for each request. */
  ghost predicate Ordered(log: seq<Item>) {
    forall i, j :: 0 <= i < j < |log| && log[i].frame.req == log[j].frame.req ==> log[i].future < log[j].future
  }

  ghost predicate Increasing(log: seq<Item>) { forall i, j :: 0 <= i < j < |log| ==> log[i].future < log[j].future }

  ghost predicate LogsInOrder(enqueued: seq<Item>, taken: seq<Item>, sent: seq<Item>) {
    Increasing(enqueued) && Ordered(taken) && Ordered(sent)
    && (forall x | x in sent :: x in taken)
    && (forall x | x in taken :: x in enqueued)
  }

  /** What waits in a request's queue comes after everything taken for that request. */
  ghost predicate QueuesInOrder(queueOf: map<ReqId, Id>, queues: map<Id, seq<Item>>, enqueued: seq<Item>, taken: seq<Item>) {
    forall r | r in queueOf :: queueOf[r] in queues && QueueInOrder(r, queues[queueOf[r]], enqueued, taken)
  }

  ghost predicate QueueInOrder(r: ReqId, q: seq<Item>, enqueued: seq<Item>, taken: seq<Item>) {
    Ordered(q)
    && (forall x | x in q :: x.frame.req == r && x in enqueued)
    && forall x, y | x in q && y in taken && y.frame.req == r :: y.future < x.future
  }

  ghost predicate WorkersAgree(tasks: map<Id, Task>, taken: seq<Item>, enqueued: seq<Item>, pending: map<ReqId, Id>,
                               outcome: map<Id, Outcome>, n: Id) {
    forall t | t in tasks && Live(tasks[t]) ::
      HeldAgrees(tasks[t], taken) && AckAgrees(tasks[t], enqueued, pending, outcome, n)
  }

  ghost predicate HeldAgrees(w: Task, taken: seq<Item>) {
    Held(w).Some? ==> Held(w).value in taken && Held(w).value.frame.req == w.req
  }

  /** An ACK for the request would settle the future its worker waits for, if nothing did before. */
  ghost predicate AckAgrees(w: Task, enqueued: seq<Item>, pending: map<ReqId, Id>, outcome: map<Id, Outcome>, n: Id) {
    (w.phase.Sending? || w.phase.AwaitingAck? ==>
       (w.phase.ack in outcome || (w.req in pending && pending[w.req] == w.phase.ack))
       && w.phase.ack < n && NotAReply(w.phase.ack, enqueued)
       && (forall r | r in pending && pending[r] == w.phase.ack :: r == w.req)
       && (w.phase.ack in outcome ==> OwnAnswer(outcome[w.phase.ack], w.req)))
    && (w.phase.Settling? ==> OwnAnswer(w.phase.outcome, w.req))
  }

  /** An answer carries the id of the request it answers. */
  ghost predicate OwnAnswer(o: Outcome, req: ReqId) { o.Acked? ==> o.ack.req == req }

  ghost predicate Busy(x: Item, workerOf: map<ReqId, Id>, tasks: map<Id, Task>) {
    var r := x.frame.req;
    r in workerOf && workerOf[r] in tasks && Held(tasks[workerOf[r]]) == Some(x)
  }

  /** A taken item is settled, being worked on, or was abandoned. */
  ghost predicate Accounted(taken: seq<Item>, outcome: map<Id, Outcome>, abandoned: set<Id>, workerOf: map<ReqId, Id>, tasks: map<Id, Task>) {
    forall x | x in taken :: x.future in outcome || x.future in abandoned || Busy(x, workerOf, tasks)
  }

  ghost predicate Answered(enqueued: seq<Item>, outcome: map<Id, Outcome>) {
    forall x | x in enqueued && x.future in outcome :: OwnAnswer(outcome[x.future], x.frame.req)
  }

  ghost predicate Inv(s: State) {
    Registered(s.replyQueues, s.replyWorkers, s.queues.Keys, s.tasks)
    && Below(s.tasks.Keys, s.nextId) && Below(s.queues.Keys, s.nextId) && Below(s.outcome.Keys, s.nextId)
    && Apart(s.pendingAcks, s.enqueued, s.nextId)
    && LogsInOrder(s.enqueued, s.taken, s.sent)
    && QueuesInOrder(s.replyQueues, s.queues, s.enqueued, s.taken)
    && WorkersAgree(s.tasks, s.taken, s.enqueued, s.pendingAcks, s.outcome, s.nextId)
    && Accounted(s.taken, s.outcome, s.abandoned, s.replyWorkers, s.tasks)
    && Answered(s.enqueued, s.outcome)
    && s.settled == multiset(s.outcome.Keys)
  }

  lemma RegisteredQueues(s: State)
    requires Inv(s)
    ensures forall r | r in s.replyQueues :: s.replyQueues[r] in s.queues
    ensures forall r, r' | r in s.replyQueues && r' in s.replyQueues && s.replyQueues[r] == s.replyQueues[r'] :: r == r'
    ensures forall t | t in s.tasks && !s.tasks[t].phase.Done? :: s.tasks[t].req in s.replyQueues
  {
    hide Below, Apart, LogsInOrder, QueuesInOrder, WorkersAgree, Accounted, Answered;
  }

  // ---------------------------------------------------------------- one kind of update at a time

  ghost predicate Started?(w: Task) { Live(w) && !w.phase.NotStarted? }

  /** The worker `t` moves to `phase`: what it has to bring along. */
  ghost predicate MayMove(s: State, t: Id, phase: Phase) {
    t in s.tasks && Started?(s.tasks[t])
    && var w' := s.tasks[t].(phase := phase);
       Started?(w') && HeldAgrees(w', s.taken) && AckAgrees(w', s.enqueued, s.pendingAcks, s.outcome, s.nextId)
       && Released(s, s.tasks[t], w')
  }

  /** An item the worker no longer holds is settled or abandoned. */
  ghost predicate Released(s: State, w: Task, w': Task) {
    Held(w).Some? && Held(w') != Held(w) ==> Held(w).value.future in s.outcome || Held(w).value.future in s.abandoned
  }

  lemma AccountedMoved(s: State, t: Id, w': Task)
    requires Accounted(s.taken, s.outcome, s.abandoned, s.replyWorkers, s.tasks)
    requires t in s.tasks && Released(s, s.tasks[t], w')
    ensures Accounted(s.taken, s.outcome, s.abandoned, s.replyWorkers, s.tasks[t := w'])
  {
    var tasks' := s.tasks[t := w'];
    forall x | x in s.taken
      ensures x.future in s.outcome || x.future in s.abandoned || Busy(x, s.replyWorkers, tasks')
    {
      hide Held;
      if Busy(x, s.replyWorkers, s.tasks) && s.replyWorkers[x.frame.req] != t {
        assert Busy(x, s.replyWorkers, tasks');
      }
    }
  }

  lemma PhaseKeeps(s: State, t: Id, phase: Phase)
    requires Inv(s) && MayMove(s, t, phase)
    ensures Inv(WithPhase(s, t, phase))
  {
    hide Below, Apart, LogsInOrder, QueuesInOrder, Accounted, Answered, HeldAgrees, AckAgrees, Released, Held, Registered;
    var w' := s.tasks[t].(phase := phase);
    AccountedMoved(s, t, w');
    assert s.tasks[t := w'].Keys == s.tasks.Keys;
    PhaseRegistered(s, t, phase);
  }

  lemma ExitedKeeps(s: State, t: Id)
    requires Inv(s) && t in s.tasks && Started?(s.tasks[t]) && Released(s, s.tasks[t], s.tasks[t].(phase := Done))
    ensures Inv(Exited(s, t))
  {
    hide Below, Apart, LogsInOrder, Answered, Accounted, Released, Held, Registered, QueuesInOrder, WorkersAgree;
    var w := s.tasks[t];
    var tasks' := s.tasks[t := w.(phase := Done)];
    assert tasks'.Keys == s.tasks.Keys;
    ExitRegistered(s.replyQueues, s.replyWorkers, s.queues.Keys, s.tasks, t);
    AccountedMoved(s, t, w.(phase := Done));
    AccountedUnregistered(s, t);
    assert QueuesInOrder(s.replyQueues - {w.req}, s.queues, s.enqueued, s.taken) by {
      QueuesUnregistered(s.replyQueues, s.queues, s.enqueued, s.taken, w.req);
    }
    WorkerGone(s, t);
  }

  lemma ExitRegistered(queueOf: map<ReqId, Id>, workerOf: map<ReqId, Id>, queues: set<Id>, tasks: map<Id, Task>, t: Id)
    requires Registered(queueOf, workerOf, queues, tasks) && t in tasks && Live(tasks[t])
    ensures tasks[t].req in workerOf && workerOf[tasks[t].req] == t
    ensures Registered(queueOf - {tasks[t].req}, workerOf - {tasks[t].req}, queues, tasks[t := tasks[t].(phase := Done)])
  {
    assert RegisteredTask(queueOf, workerOf, t, tasks[t]);
    forall i | i in tasks && i != t && Live(tasks[i])
      ensures RegisteredTask(queueOf - {tasks[t].req}, workerOf - {tasks[t].req}, i, tasks[i])
    {
      assert RegisteredTask(queueOf, workerOf, i, tasks[i]);
    }
  }

  lemma QueuesUnregistered(queueOf: map<ReqId, Id>, queues: map<Id, seq<Item>>, enqueued: seq<Item>, taken: seq<Item>, r: ReqId)
    requires QueuesInOrder(queueOf, queues, enqueued, taken)
    ensures QueuesInOrder(queueOf - {r}, queues, enqueued, taken)
  {
    hide QueueInOrder;
  }

  lemma WorkerGone(s: State, t: Id)
    requires WorkersAgree(s.tasks, s.taken, s.enqueued, s.pendingAcks, s.outcome, s.nextId) && t in s.tasks
    ensures WorkersAgree(s.tasks[t := s.tasks[t].(phase := Done)], s.taken, s.enqueued, s.pendingAcks, s.outcome, s.nextId)
  {
    hide HeldAgrees, AckAgrees;
  }

  lemma AccountedUnregistered(s: State, t: Id)
    requires t in s.tasks && Accounted(s.taken, s.outcome, s.abandoned, s.replyWorkers, s.tasks[t := s.tasks[t].(phase := Done)])
    requires s.tasks[t].req in s.replyWorkers && s.replyWorkers[s.tasks[t].req] == t
    ensures Accounted(s.taken, s.outcome, s.abandoned, s.replyWorkers - {s.tasks[t].req}, s.tasks[t := s.tasks[t].(phase := Done)])
  {
    var tasks' := s.tasks[t := s.tasks[t].(phase := Done)];
    var workers' := s.replyWorkers - {s.tasks[t].req};
    forall x | x in s.taken && Busy(x, s.replyWorkers, tasks')
      ensures Busy(x, workers', tasks')
    {
    }
  }

  /** Settling `f`: an ACK future of a request with that request's ACK, a reply with its own answer. */
  ghost predicate MaySettle(s: State, f: Id, o: Outcome) {
    f < s.nextId
    && (forall x | x in s.enqueued && x.future == f :: OwnAnswer(o, x.frame.req))
    && (forall t | t in s.tasks && InFlight(s.tasks[t]) && s.tasks[t].phase.ack == f :: OwnAnswer(o, s.tasks[t].req))
  }

  ghost predicate InFlight(w: Task) { w.phase.Sending? || w.phase.AwaitingAck? }

  lemma SettleKeeps(s: State, f: Id, o: Outcome)
    requires Inv(s) && MaySettle(s, f, o)
    ensures Inv(SettleOnce(s, f, o)) && SettleOnce(s, f, o).outcome.Keys == s.outcome.Keys + {f}
  {
    hide Registered, Apart, LogsInOrder, QueuesInOrder, WorkersAgree, Accounted, Answered, Below;
    var s' := SettleOnce(s, f, o);
    if f !in s.outcome {
      assert s'.outcome.Keys == s.outcome.Keys + {f};
      hide MaySettle;
      SettledIds(s, f);
      WorkersStillAgree(s, f, o);
      AccountedStill(s, s'.outcome, s.abandoned);
      AnsweredStill(s, f, o);
    }
  }

  lemma SettledIds(s: State, f: Id)
    requires Below(s.outcome.Keys, s.nextId) && f < s.nextId && f !in s.outcome && s.settled == multiset(s.outcome.Keys)
    ensures Below(s.outcome.Keys + {f}, s.nextId) && s.settled + multiset{f} == multiset(s.outcome.Keys + {f})
  {
    DisjointUnion(s.outcome.Keys, {f});
  }

  lemma AccountedStill(s: State, outcome': map<Id, Outcome>, abandoned': set<Id>)
    requires Accounted(s.taken, s.outcome, s.abandoned, s.replyWorkers, s.tasks)
    requires s.outcome.Keys <= outcome'.Keys && s.abandoned <= abandoned'
    ensures Accounted(s.taken, outcome', abandoned', s.replyWorkers, s.tasks)
  {
    hide Busy;
  }

  lemma AnsweredStill(s: State, f: Id, o: Outcome)
    requires Answered(s.enqueued, s.outcome) && MaySettle(s, f, o)
    ensures Answered(s.enqueued, s.outcome[f := o])
  {
    hide OwnAnswer;
  }

  lemma WorkersStillAgree(s: State, f: Id, o: Outcome)
    requires WorkersAgree(s.tasks, s.taken, s.enqueued, s.pendingAcks, s.outcome, s.nextId) && MaySettle(s, f, o)
    ensures WorkersAgree(s.tasks, s.taken, s.enqueued, s.pendingAcks, s.outcome[f := o], s.nextId)
  {
    hide HeldAgrees, AckAgrees, OwnAnswer;
    forall t | t in s.tasks && Live(s.tasks[t])
      ensures AckAgrees(s.tasks[t], s.enqueued, s.pendingAcks, s.outcome[f := o], s.nextId)
    {
      AckStillAgrees(s, s.tasks[t], f, o);
    }
  }

  lemma AckStillAgrees(s: State, w: Task, f: Id, o: Outcome)
    requires AckAgrees(w, s.enqueued, s.pendingAcks, s.outcome, s.nextId)
    requires InFlight(w) && w.phase.ack == f ==> OwnAnswer(o, w.req)
    ensures AckAgrees(w, s.enqueued, s.pendingAcks, s.outcome[f := o], s.nextId)
  {
    hide OwnAnswer, NotAReply;
  }

  lemma WithoutPendingKeeps(s: State, req: ReqId)
    requires Inv(s)
    requires forall t | t in s.tasks && InFlight(s.tasks[t]) && s.tasks[t].req == req :: s.tasks[t].phase.ack in s.outcome
    ensures Inv(WithoutPending(s, req))
  {
    hide Registered, LogsInOrder, QueuesInOrder, Accounted, Answered, HeldAgrees, AckAgrees, Below;
    forall t | t in s.tasks && Live(s.tasks[t])
      ensures AckAgrees(s.tasks[t], s.enqueued, s.pendingAcks - {req}, s.outcome, s.nextId)
    {
      AckFewerPending(s, s.tasks[t], req);
    }
  }

  lemma AckFewerPending(s: State, w: Task, req: ReqId)
    requires AckAgrees(w, s.enqueued, s.pendingAcks, s.outcome, s.nextId)
    requires InFlight(w) && w.req == req ==> w.phase.ack in s.outcome
    ensures AckAgrees(w, s.enqueued, s.pendingAcks - {req}, s.outcome, s.nextId)
  {
    hide OwnAnswer, NotAReply;
  }

  // ---------------------------------------------------------------- the steps keep the invariant

  lemma FlagsKeep(s: State, running: bool, wsOpen: bool)
    requires Inv(s)
    ensures Inv(s.(running := running, wsOpen := wsOpen))
  {
    hide Registered, Below, Apart, LogsInOrder, QueuesInOrder, WorkersAgree, Accounted, Answered;
  }

  lemma ClearedKeeps(s: State)
    requires Inv(s)
    ensures Inv(Cleared(s))
  {
    hide Registered, LogsInOrder, QueuesInOrder, WorkersAgree, Accounted, Answered, Below, Apart;
    var s' := Cleared(s);
    assert s'.outcome.Keys >= s.outcome.Keys && s'.settled == multiset(s'.outcome.Keys) && Below(s'.outcome.Keys, s.nextId) by {
      ClearedOutcome(s);
    }
    assert Apart(map[], s.enqueued, s.nextId) by { ApartEmpty(s.pendingAcks, s.enqueued, s.nextId); }
    AccountedStill(s, s'.outcome, s.abandoned);
    ClearedAnswers(s);
    ClearedWorkers(s);
  }

  lemma ClearedOutcome(s: State)
    requires Apart(s.pendingAcks, s.enqueued, s.nextId) && Below(s.outcome.Keys, s.nextId) && s.settled == multiset(s.outcome.Keys)
    ensures var s' := Cleared(s);
            s'.outcome.Keys >= s.outcome.Keys && s'.settled == multiset(s'.outcome.Keys) && Below(s'.outcome.Keys, s.nextId)
  {
    hide NotAReply, Below, Apart;
    var open := s.pendingAcks.Values - s.outcome.Keys;
    assert Cleared(s).outcome.Keys == s.outcome.Keys + open;
    DisjointUnion(s.outcome.Keys, open);
    PendingBelow(s);
  }

  lemma PendingBelow(s: State)
    requires Apart(s.pendingAcks, s.enqueued, s.nextId) && Below(s.outcome.Keys, s.nextId)
    ensures Below(s.outcome.Keys + (s.pendingAcks.Values - s.outcome.Keys), s.nextId)
  {
    hide NotAReply;
  }

  lemma DisjointUnion(a: set<Id>, b: set<Id>)
    requires a !! b
    ensures multiset(a) + multiset(b) == multiset(a + b)
  {
  }

  lemma ApartEmpty(pending: map<ReqId, Id>, enqueued: seq<Item>, n: Id)
    requires Apart(pending, enqueued, n)
    ensures Apart(map[], enqueued, n)
  {
  }

  lemma ClearedAnswers(s: State)
    requires Answered(s.enqueued, s.outcome)
    ensures Answered(s.enqueued, Cleared(s).outcome)
  {
  }

  lemma ClearedWorkers(s: State)
    requires WorkersAgree(s.tasks, s.taken, s.enqueued, s.pendingAcks, s.outcome, s.nextId)
    ensures WorkersAgree(s.tasks, s.taken, s.enqueued, map[], Cleared(s).outcome, s.nextId)
  {
    hide HeldAgrees, NotAReply;
  }

  lemma StoppedKeeps(s: State)
    requires Inv(s)
    ensures Inv(Stopped(s))
  {
    hide Below, Apart, LogsInOrder, QueuesInOrder, Answered, WorkersAgree, Accounted, Registered;
    var s' := Stopped(s);
    assert s'.tasks.Keys == s.tasks.Keys;
    FlaggedKeeps(s, s'.tasks);
  }

  lemma FlaggedKeeps(s: State, tasks': map<Id, Task>)
    requires Inv(s) && tasks'.Keys == s.tasks.Keys
    requires forall t | t in s.tasks :: tasks'[t] == s.tasks[t].(cancelled := tasks'[t].cancelled)
    ensures Registered(s.replyQueues, s.replyWorkers, s.queues.Keys, tasks')
    ensures WorkersAgree(tasks', s.taken, s.enqueued, s.pendingAcks, s.outcome, s.nextId)
    ensures Accounted(s.taken, s.outcome, s.abandoned, s.replyWorkers, tasks')
  {
    hide Below, Apart, LogsInOrder, QueuesInOrder, Answered;
  }

  lemma OpenedKeeps(s: State, req: ReqId)
    requires Inv(s) && req !in s.replyQueues
    ensures Inv(Opened(s, req))
  {
    hide Apart, LogsInOrder, Answered, WorkersAgree, Accounted, Registered, QueuesInOrder, Below;
    var n := s.nextId;
    OpenedIds(s, req);
    OpenedRegistered(s, req);
    OpenedQueues(s, req);
    assert s.replyQueues.Keys == s.replyWorkers.Keys by { RegisteredKeys(s); }
    OpenedAccounted(s, req);
    ApartLater(s.pendingAcks, s.enqueued, n, n + 2);
    OpenedWorkers(s, req);
  }

  lemma RegisteredKeys(s: State)
    requires Registered(s.replyQueues, s.replyWorkers, s.queues.Keys, s.tasks)
    ensures s.replyQueues.Keys == s.replyWorkers.Keys
  {
  }

  lemma OpenedIds(s: State, req: ReqId)
    requires Below(s.tasks.Keys, s.nextId) && Below(s.queues.Keys, s.nextId) && Below(s.outcome.Keys, s.nextId)
    ensures var s' := Opened(s, req);
            Below(s'.tasks.Keys, s'.nextId) && Below(s'.queues.Keys, s'.nextId) && Below(s'.outcome.Keys, s'.nextId)
  {
  }

  lemma ApartLater(pending: map<ReqId, Id>, enqueued: seq<Item>, n: Id, m: Id)
    requires Apart(pending, enqueued, n) && n <= m
    ensures Apart(pending, enqueued, m)
  {
    hide NotAReply;
  }

  lemma OpenedRegistered(s: State, req: ReqId)
    requires Registered(s.replyQueues, s.replyWorkers, s.queues.Keys, s.tasks) && req !in s.replyQueues
    requires Below(s.tasks.Keys, s.nextId) && Below(s.queues.Keys, s.nextId)
    ensures var s' := Opened(s, req); Registered(s'.replyQueues, s'.replyWorkers, s'.queues.Keys, s'.tasks)
  {
    var s' := Opened(s, req);
    assert RegisteredTask(s'.replyQueues, s'.replyWorkers, s.nextId + 1, s'.tasks[s.nextId + 1]);
    forall t | t in s.tasks && Live(s.tasks[t])
      ensures RegisteredTask(s'.replyQueues, s'.replyWorkers, t, s.tasks[t])
    {
      assert RegisteredTask(s.replyQueues, s.replyWorkers, t, s.tasks[t]);
    }
  }

  lemma OpenedQueues(s: State, req: ReqId)
    requires QueuesInOrder(s.replyQueues, s.queues, s.enqueued, s.taken) && Below(s.queues.Keys, s.nextId)
    ensures var s' := Opened(s, req); QueuesInOrder(s'.replyQueues, s'.queues, s'.enqueued, s'.taken)
  {
    assert QueueInOrder(req, [], s.enqueued, s.taken);
    hide QueueInOrder;
  }

  lemma OpenedAccounted(s: State, req: ReqId)
    requires Accounted(s.taken, s.outcome, s.abandoned, s.replyWorkers, s.tasks) && req !in s.replyWorkers
    requires Below(s.tasks.Keys, s.nextId)
    ensures var s' := Opened(s, req); Accounted(s.taken, s.outcome, s.abandoned, s'.replyWorkers, s'.tasks)
  {
    var s' := Opened(s, req);
    forall x | x in s.taken && Busy(x, s.replyWorkers, s.tasks)
      ensures Busy(x, s'.replyWorkers, s'.tasks)
    {
    }
  }

  lemma OpenedWorkers(s: State, req: ReqId)
    requires WorkersAgree(s.tasks, s.taken, s.enqueued, s.pendingAcks, s.outcome, s.nextId) && Below(s.tasks.Keys, s.nextId)
    ensures var s' := Opened(s, req); WorkersAgree(s'.tasks, s.taken, s.enqueued, s.pendingAcks, s.outcome, s'.nextId)
  {
    hide OwnAnswer, NotAReply, HeldAgrees;
    var s' := Opened(s, req);
    assert HeldAgrees(s'.tasks[s.nextId + 1], s.taken) by { NothingHeld(s'.tasks[s.nextId + 1], s.taken); }
    forall t | t in s.tasks && Live(s.tasks[t])
      ensures AckAgrees(s.tasks[t], s.enqueued, s.pendingAcks, s.outcome, s'.nextId)
    {
      assert AckAgrees(s.tasks[t], s.enqueued, s.pendingAcks, s.outcome, s.nextId);
    }
  }

  lemma NothingHeld(w: Task, taken: seq<Item>)
    requires Held(w).None?
    ensures HeldAgrees(w, taken)
  {
  }

  lemma JoinedKeeps(s: State, frame: Frame)
    requires Inv(s) && frame.req in s.replyQueues && s.replyQueues[frame.req] in s.queues
    ensures Inv(Joined(s, frame))
  {
    hide Apart, LogsInOrder, Answered, WorkersAgree, Accounted, Registered, QueuesInOrder, Below;
    var s' := Joined(s, frame);
    assert s'.queues.Keys == s.queues.Keys;
    JoinedIds(s, frame);
    JoinedLogs(s, frame);
    RegisteredQueues(s);
    JoinedQueues(s, frame);
    JoinedWorkers(s, frame);
  }

  lemma JoinedIds(s: State, frame: Frame)
    requires Below(s.tasks.Keys, s.nextId) && Below(s.queues.Keys, s.nextId) && Below(s.outcome.Keys, s.nextId)
    requires Apart(s.pendingAcks, s.enqueued, s.nextId) && Answered(s.enqueued, s.outcome)
    ensures var n, e := s.nextId + 1, s.enqueued + [Item(frame, s.nextId)];
            Below(s.tasks.Keys, n) && Below(s.queues.Keys, n) && Below(s.outcome.Keys, n)
            && Apart(s.pendingAcks, e, n) && Answered(e, s.outcome)
  {
    hide OwnAnswer;
  }

  lemma JoinedLogs(s: State, frame: Frame)
    requires LogsInOrder(s.enqueued, s.taken, s.sent) && Apart(s.pendingAcks, s.enqueued, s.nextId)
    ensures LogsInOrder(s.enqueued + [Item(frame, s.nextId)], s.taken, s.sent)
  {
    hide NotAReply, Ordered;
  }

  lemma OrderedAppend(log: seq<Item>, item: Item)
    requires Ordered(log) && forall x | x in log && x.frame.req == item.frame.req :: x.future < item.future
    ensures Ordered(log + [item])
  {
  }

  lemma JoinedQueues(s: State, frame: Frame)
    requires QueuesInOrder(s.replyQueues, s.queues, s.enqueued, s.taken) && Apart(s.pendingAcks, s.enqueued, s.nextId)
    requires LogsInOrder(s.enqueued, s.taken, s.sent)
    requires frame.req in s.replyQueues && s.replyQueues[frame.req] in s.queues
    requires forall r, r' | r in s.replyQueues && r' in s.replyQueues && s.replyQueues[r] == s.replyQueues[r'] :: r == r'
    ensures var s' := Joined(s, frame); QueuesInOrder(s'.replyQueues, s'.queues, s'.enqueued, s'.taken)
  {
    hide NotAReply, Ordered, QueueInOrder;
    var s', item := Joined(s, frame), Item(frame, s.nextId);
    forall r | r in s.replyQueues
      ensures QueueInOrder(r, s'.queues[s.replyQueues[r]], s'.enqueued, s.taken)
    {
      var q := s.queues[s.replyQueues[r]];
      QueueMember(r, q, s.enqueued, s.taken, item);
      if r == frame.req {
        QueueJoined(q, s.enqueued, s.taken, item);
      }
    }
  }

  lemma QueueMember(r: ReqId, q: seq<Item>, enqueued: seq<Item>, taken: seq<Item>, item: Item)
    requires QueueInOrder(r, q, enqueued, taken)
    ensures QueueInOrder(r, q, enqueued + [item], taken)
  {
    hide Ordered;
  }

  lemma QueueJoined(q: seq<Item>, enqueued: seq<Item>, taken: seq<Item>, item: Item)
    requires QueueInOrder(item.frame.req, q, enqueued, taken)
    requires forall x | x in enqueued :: x.future < item.future
    requires forall x | x in taken :: x in enqueued
    ensures QueueInOrder(item.frame.req, q + [item], enqueued + [item], taken)
  {
    OrderedAppend(q, item);
  }

  lemma JoinedWorkers(s: State, frame: Frame)
    requires WorkersAgree(s.tasks, s.taken, s.enqueued, s.pendingAcks, s.outcome, s.nextId)
    ensures WorkersAgree(s.tasks, s.taken, s.enqueued + [Item(frame, s.nextId)], s.pendingAcks, s.outcome, s.nextId + 1)
  {
    hide OwnAnswer, HeldAgrees;
    forall t | t in s.tasks && Live(s.tasks[t])
      ensures AckAgrees(s.tasks[t], s.enqueued + [Item(frame, s.nextId)], s.pendingAcks, s.outcome, s.nextId + 1)
    {
      assert AckAgrees(s.tasks[t], s.enqueued, s.pendingAcks, s.outcome, s.nextId);
    }
  }

  lemma EnqueueKeeps(s: State, frame: Frame)
    requires Inv(s) && (frame.req in s.replyQueues ==> s.replyQueues[frame.req] in s.queues)
    ensures Inv(Enqueue(s, frame))
  {
    hide Inv, Joined;
    if s.wsOpen {
      if frame.req !in s.replyQueues { OpenedKeeps(s, frame.req); }
      JoinedKeeps(if frame.req in s.replyQueues then s else Opened(s, frame.req), frame);
    }
  }

  lemma StartedKeeps(s: State, t: Id)
    requires Inv(s) && t in s.tasks && s.tasks[t].phase.NotStarted? && s.tasks[t].req in s.replyQueues
    ensures Inv(Started(s, t))
  {
    hide Apart, LogsInOrder, Answered, WorkersAgree, Accounted, Registered, QueuesInOrder, Below;
    var w := s.tasks[t];
    var w' := w.(queue := Some(s.replyQueues[w.req]), phase := Waiting);
    var s1 := s.(tasks := s.tasks[t := w']);
    assert s1.tasks.Keys == s.tasks.Keys;
    StartRegistered(s, t);
    AccountedMoved(s, t, w');
    StartWorkers(s, t, w');
    assert Inv(s1);
    if !s.running {
      hide Inv;
      ExitedKeeps(s1, t);
    }
    StartedIs(s, t, s1);
  }

  lemma StartedIs(s: State, t: Id, s1: State)
    requires t in s.tasks && s.tasks[t].req in s.replyQueues
    requires s1 == s.(tasks := s.tasks[t := s.tasks[t].(queue := Some(s.replyQueues[s.tasks[t].req]), phase := Waiting)])
    ensures Started(s, t) == if s.running then s1 else Exited(s1, t)
  {
  }

  lemma StartRegistered(s: State, t: Id)
    requires Registered(s.replyQueues, s.replyWorkers, s.queues.Keys, s.tasks)
    requires t in s.tasks && s.tasks[t].phase.NotStarted? && s.tasks[t].req in s.replyQueues
    ensures var w := s.tasks[t];
            Registered(s.replyQueues, s.replyWorkers, s.queues.Keys, s.tasks[t := w.(queue := Some(s.replyQueues[w.req]), phase := Waiting)])
  {
    assert RegisteredTask(s.replyQueues, s.replyWorkers, t, s.tasks[t]);
  }

  lemma StartWorkers(s: State, t: Id, w': Task)
    requires WorkersAgree(s.tasks, s.taken, s.enqueued, s.pendingAcks, s.outcome, s.nextId) && w'.phase.Waiting?
    ensures WorkersAgree(s.tasks[t := w'], s.taken, s.enqueued, s.pendingAcks, s.outcome, s.nextId)
  {
    hide OwnAnswer, NotAReply;
    assert HeldAgrees(w', s.taken) && AckAgrees(w', s.enqueued, s.pendingAcks, s.outcome, s.nextId);
    hide HeldAgrees, AckAgrees;
  }

  lemma TakeKeeps(s: State, t: Id)
    requires Inv(s) && Enabled(s, Take(t))
    ensures Inv(TakeItem(s, t))
  {
    hide Apart, LogsInOrder, Answered, WorkersAgree, Accounted, Registered, QueuesInOrder, Below, Held, QueueInOrder;
    var s', w := TakeItem(s, t), s.tasks[t];
    var w', item := s'.tasks[t], s.queues[w.queue.value][0];
    assert s'.tasks.Keys == s.tasks.Keys && s'.queues.Keys == s.queues.Keys;
    TakenQueue(s, t);
    TakenIds(s, w.req);
    TakenLogs(s, w.req, s.queues[w.queue.value]);
    TakenQueues(s, w.req, s.queues[w.queue.value]);
    PhaseRegistered(s, t, w'.phase);
    TakenWorkers(s, t, w');
    TakerHolds(s, t);
    TakenAccounted(s, t, item, w');
  }

  lemma TakenQueue(s: State, t: Id)
    requires Inv(s) && Enabled(s, Take(t))
    ensures var w := s.tasks[t];
            w.req in s.replyQueues && w.queue == Some(s.replyQueues[w.req]) && w.req in s.replyWorkers && s.replyWorkers[w.req] == t
            && QueueInOrder(w.req, s.queues[w.queue.value], s.enqueued, s.taken)
            && s.queues[w.queue.value][0].frame.req == w.req
  {
    hide Apart, LogsInOrder, Answered, WorkersAgree, Accounted, Below, Ordered;
    assert RegisteredTask(s.replyQueues, s.replyWorkers, t, s.tasks[t]);
  }

  lemma TakerHolds(s: State, t: Id)
    requires Enabled(s, Take(t))
    ensures Held(s.tasks[t]).None? && Held(TakeItem(s, t).tasks[t]) == Some(s.queues[s.tasks[t].queue.value][0])
  {
  }

  lemma TakenIds(s: State, req: ReqId)
    requires Below(s.tasks.Keys, s.nextId) && Below(s.queues.Keys, s.nextId) && Below(s.outcome.Keys, s.nextId)
    requires Apart(s.pendingAcks, s.enqueued, s.nextId)
    ensures var n := s.nextId + 1;
            Below(s.tasks.Keys, n) && Below(s.queues.Keys, n) && Below(s.outcome.Keys, n)
            && Apart(s.pendingAcks[req := s.nextId], s.enqueued, n)
  {
  }

  lemma TakenLogs(s: State, req: ReqId, q: seq<Item>)
    requires LogsInOrder(s.enqueued, s.taken, s.sent) && QueueInOrder(req, q, s.enqueued, s.taken) && q != []
    ensures LogsInOrder(s.enqueued, s.taken + [q[0]], s.sent) && LogsInOrder(s.enqueued, s.taken + [q[0]], s.sent + [q[0]])
  {
    hide Ordered;
    OrderedAppend(s.taken, q[0]);
    OrderedAppend(s.sent, q[0]);
  }

  lemma TakenQueues(s: State, req: ReqId, q: seq<Item>)
    requires Registered(s.replyQueues, s.replyWorkers, s.queues.Keys, s.tasks)
    requires QueuesInOrder(s.replyQueues, s.queues, s.enqueued, s.taken)
    requires req in s.replyQueues && q == s.queues[s.replyQueues[req]] && q != [] && q[0].frame.req == req
    ensures QueuesInOrder(s.replyQueues, s.queues[s.replyQueues[req] := q[1..]], s.enqueued, s.taken + [q[0]])
  {
    hide QueueInOrder, RegisteredTask;
    forall r | r in s.replyQueues
      ensures QueueInOrder(r, if r == req then q[1..] else s.queues[s.replyQueues[r]], s.enqueued, s.taken + [q[0]])
    {
      if r == req { QueueTail(r, q, s.enqueued, s.taken); }
      else { OtherQueue(r, s.queues[s.replyQueues[r]], s.enqueued, s.taken, q[0]); }
    }
  }

  lemma QueueTail(r: ReqId, q: seq<Item>, enqueued: seq<Item>, taken: seq<Item>)
    requires QueueInOrder(r, q, enqueued, taken) && q != []
    ensures QueueInOrder(r, q[1..], enqueued, taken + [q[0]])
  {
  }

  lemma OtherQueue(r: ReqId, q: seq<Item>, enqueued: seq<Item>, taken: seq<Item>, item: Item)
    requires QueueInOrder(r, q, enqueued, taken) && item.frame.req != r
    ensures QueueInOrder(r, q, enqueued, taken + [item])
  {
    hide Ordered;
  }

  lemma PhaseRegistered(s: State, t: Id, phase: Phase)
    requires Registered(s.replyQueues, s.replyWorkers, s.queues.Keys, s.tasks)
    requires t in s.tasks && Started?(s.tasks[t]) && Started?(s.tasks[t].(phase := phase))
    ensures Registered(s.replyQueues, s.replyWorkers, s.queues.Keys, s.tasks[t := s.tasks[t].(phase := phase)])
  {
    assert RegisteredTask(s.replyQueues, s.replyWorkers, t, s.tasks[t]);
  }

  lemma TakenWorkers(s: State, t: Id, w': Task)
    requires Inv(s) && Enabled(s, Take(t)) && w' == TakeItem(s, t).tasks[t]
    ensures var s' := TakeItem(s, t);
            WorkersAgree(s'.tasks, s'.taken, s.enqueued, s'.pendingAcks, s.outcome, s'.nextId)
  {
    hide LogsInOrder, Answered, Accounted, QueuesInOrder, QueueInOrder, HeldAgrees, AckAgrees, Apart, Registered, Below;
    var s' := TakeItem(s, t);
    TakenQueue(s, t);
    TakerAgrees(s, t, w');
    forall i | i in s.tasks && i != t && Live(s.tasks[i])
      ensures HeldAgrees(s.tasks[i], s'.taken) && AckAgrees(s.tasks[i], s.enqueued, s'.pendingAcks, s.outcome, s'.nextId)
    {
      OnlyWorker(s, t, i);
      OtherAgrees(s, s.tasks[i], s.tasks[t].req, s'.taken);
    }
  }

  lemma TakerAgrees(s: State, t: Id, w': Task)
    requires Inv(s) && Enabled(s, Take(t)) && w' == TakeItem(s, t).tasks[t]
    requires s.queues[s.tasks[t].queue.value][0].frame.req == w'.req
    ensures var s' := TakeItem(s, t);
            HeldAgrees(w', s'.taken) && AckAgrees(w', s.enqueued, s'.pendingAcks, s.outcome, s'.nextId)
  {
    hide LogsInOrder, Answered, Accounted, QueuesInOrder, WorkersAgree, Registered;
  }

  lemma OnlyWorker(s: State, t: Id, i: Id)
    requires Registered(s.replyQueues, s.replyWorkers, s.queues.Keys, s.tasks)
    requires t in s.tasks && i in s.tasks && Live(s.tasks[t]) && Live(s.tasks[i])
    ensures s.tasks[t].req == s.tasks[i].req ==> t == i
  {
    assert RegisteredTask(s.replyQueues, s.replyWorkers, t, s.tasks[t]);
    assert RegisteredTask(s.replyQueues, s.replyWorkers, i, s.tasks[i]);
  }

  lemma OtherAgrees(s: State, w: Task, req: ReqId, taken': seq<Item>)
    requires HeldAgrees(w, s.taken) && AckAgrees(w, s.enqueued, s.pendingAcks, s.outcome, s.nextId)
    requires w.req != req && s.taken <= taken'
    ensures HeldAgrees(w, taken') && AckAgrees(w, s.enqueued, s.pendingAcks[req := s.nextId], s.outcome, s.nextId + 1)
  {
    hide OwnAnswer, NotAReply;
  }

  lemma TakenAccounted(s: State, t: Id, item: Item, w': Task)
    requires Accounted(s.taken, s.outcome, s.abandoned, s.replyWorkers, s.tasks)
    requires t in s.tasks && Held(s.tasks[t]).None? && Held(w') == Some(item)
    requires item.frame.req in s.replyWorkers && s.replyWorkers[item.frame.req] == t
    ensures Accounted(s.taken + [item], s.outcome, s.abandoned, s.replyWorkers, s.tasks[t := w'])
  {
    AccountedMoved(s, t, w');
    assert Busy(item, s.replyWorkers, s.tasks[t := w']);
    hide Busy;
  }

  lemma LoopHeadKeeps(s: State, t: Id)
    requires Inv(s) && t in s.tasks && Started?(s.tasks[t])
    requires Held(s.tasks[t]).Some? ==> Held(s.tasks[t]).value.future in s.outcome
    ensures Inv(LoopHead(s, t))
  {
    hide Inv;
    if s.running { PhaseKeeps(s, t, Waiting); } else { ExitedKeeps(s, t); }
  }

  lemma AcknowledgedKeeps(s: State, ack: Ack)
    requires Inv(s)
    ensures Inv(Acknowledged(s, ack))
  {
    hide Inv, SettleOnce, WithoutPending;
    if ack.req in s.pendingAcks {
      var f := s.pendingAcks[ack.req];
      PendingMaySettle(s, ack);
      SettleKeeps(s, f, Acked(ack));
      var s' := SettleOnce(s, f, Acked(ack));
      PendingInFlight(s, s', ack.req);
      WithoutPendingKeeps(s', ack.req);
      SettleCommutes(s, ack.req, f, Acked(ack));
    }
  }

  lemma SettleCommutes(s: State, req: ReqId, f: Id, o: Outcome)
    ensures SettleOnce(WithoutPending(s, req), f, o) == WithoutPending(SettleOnce(s, f, o), req)
  {
  }

  lemma PendingInFlight(s: State, s': State, req: ReqId)
    requires Inv(s) && s'.tasks == s.tasks && s'.outcome.Keys >= s.outcome.Keys
    requires req in s.pendingAcks ==> s.pendingAcks[req] in s'.outcome
    ensures forall t | t in s.tasks && InFlight(s.tasks[t]) && s.tasks[t].req == req :: s.tasks[t].phase.ack in s'.outcome
  {
    hide Inv;
    forall t | t in s.tasks && InFlight(s.tasks[t]) && s.tasks[t].req == req
      ensures s.tasks[t].phase.ack in s'.outcome
    {
      InFlightPending(s, t);
    }
  }

  lemma InFlightPending(s: State, t: Id)
    requires Inv(s) && t in s.tasks && InFlight(s.tasks[t])
    ensures var w := s.tasks[t];
            && (w.phase.ack in s.outcome || (w.req in s.pendingAcks && s.pendingAcks[w.req] == w.phase.ack))
            && w.phase.ack < s.nextId && NotAReply(w.phase.ack, s.enqueued)
            && w.phase.item in s.taken && w.phase.item.frame.req == w.req
            && (w.phase.ack in s.outcome ==> OwnAnswer(s.outcome[w.phase.ack], w.req))
            && forall r | r in s.pendingAcks && s.pendingAcks[r] == w.phase.ack :: r == w.req
  {
    hide Registered, Below, Apart, LogsInOrder, QueuesInOrder, Accounted, Answered, NotAReply, OwnAnswer;
    assert HeldAgrees(s.tasks[t], s.taken) && AckAgrees(s.tasks[t], s.enqueued, s.pendingAcks, s.outcome, s.nextId);
  }

  lemma PendingMaySettle(s: State, ack: Ack)
    requires Inv(s) && ack.req in s.pendingAcks
    ensures MaySettle(s, s.pendingAcks[ack.req], Acked(ack))
  {
    hide Registered, Below, LogsInOrder, QueuesInOrder, Accounted, Answered, WorkersAgree;
    var f := s.pendingAcks[ack.req];
    assert f < s.nextId && NotAReply(f, s.enqueued);
    forall t | t in s.tasks && InFlight(s.tasks[t]) && s.tasks[t].phase.ack == f
      ensures OwnAnswer(Acked(ack), s.tasks[t].req)
    {
      InFlightPending(s, t);
    }
  }

  /** Settlements that carry no ACK. */
  lemma MaySettleSilently(s: State, f: Id, o: Outcome)
    requires f < s.nextId && !o.Acked?
    ensures MaySettle(s, f, o)
  {
  }

  lemma SendReturnedKeeps(s: State, t: Id)
    requires Inv(s) && t in s.tasks && s.tasks[t].phase.Sending?
    ensures Inv(SendReturned(s, t))
  {
    hide Inv;
    var p := s.tasks[t].phase;
    InFlightPending(s, t);
    PhaseKeeps(s, t, AwaitingAck(p.item, p.ack));
  }

  lemma AckTimerKeeps(s: State, t: Id)
    requires Inv(s) && t in s.tasks && s.tasks[t].phase.AwaitingAck?
    ensures Inv(AckTimerFired(s, t))
  {
    hide Inv;
    var p := s.tasks[t].phase;
    InFlightPending(s, t);
    MaySettleSilently(s, p.ack, Cancelled);
    SettleKeeps(s, p.ack, Cancelled);
    PhaseKeeps(SettleOnce(s, p.ack, Cancelled), t, AckTimedOut(p.item, p.ack));
  }

  lemma ResumedKeeps(s: State, t: Id)
    requires Inv(s) && t in s.tasks
    requires s.tasks[t].phase.AckTimedOut? || (s.tasks[t].phase.AwaitingAck? && s.tasks[t].phase.ack in s.outcome)
    ensures Inv(Resumed(s, t))
  {
    hide Inv;
    var w := s.tasks[t];
    WorkerHeld(s, t);
    if w.phase.AwaitingAck? {
      InFlightPending(s, t);
      PhaseKeeps(s, t, Settling(w.phase.item, Awaited(s.outcome[w.phase.ack])));
    } else {
      NoOtherInFlight(s, t);
      WithoutPendingKeeps(s, w.req);
      PhaseKeeps(WithoutPending(s, w.req), t, Settling(w.phase.item, NoAck));
    }
  }

  lemma WorkerHeld(s: State, t: Id)
    requires Inv(s) && t in s.tasks && Live(s.tasks[t]) && Held(s.tasks[t]).Some?
    ensures var w := s.tasks[t]; Held(w).value in s.taken && Held(w).value.frame.req == w.req
    ensures var w := s.tasks[t]; w.phase.Settling? ==> OwnAnswer(w.phase.outcome, w.req)
    ensures Held(s.tasks[t]).value.future < s.nextId
  {
    hide Registered, Below, QueuesInOrder, Accounted, Answered, NotAReply, OwnAnswer, Ordered;
    assert HeldAgrees(s.tasks[t], s.taken) && AckAgrees(s.tasks[t], s.enqueued, s.pendingAcks, s.outcome, s.nextId);
  }

  lemma NoOtherInFlight(s: State, t: Id)
    requires Inv(s) && t in s.tasks && Live(s.tasks[t]) && !InFlight(s.tasks[t])
    ensures forall i | i in s.tasks && InFlight(s.tasks[i]) :: s.tasks[i].req != s.tasks[t].req
  {
    hide Registered, Below, Apart, LogsInOrder, QueuesInOrder, Accounted, Answered, WorkersAgree;
    forall i | i in s.tasks && InFlight(s.tasks[i])
      ensures s.tasks[i].req != s.tasks[t].req
    {
      OnlyWorker(s, t, i);
    }
  }

  lemma SendFailedKeeps(s: State, t: Id, timeout: bool)
    requires Inv(s) && t in s.tasks && s.tasks[t].phase.Sending?
    ensures Inv(SendFailed(s, t, timeout))
  {
    hide Inv, WithPhase, MayMove;
    var w := s.tasks[t];
    var o := if timeout then NoAck else Raised;
    FailedSendMoves(s, t, o);
    PhaseKeeps(s, t, Settling(w.phase.item, o));
    if timeout {
      SettlingPopsKeeps(WithPhase(s, t, Settling(w.phase.item, NoAck)), t, w.phase.item.frame.req);
      PendingApart(s, w.phase.item.frame.req, t, Settling(w.phase.item, NoAck));
    }
  }

  lemma FailedSendMoves(s: State, t: Id, o: Outcome)
    requires Inv(s) && t in s.tasks && s.tasks[t].phase.Sending? && !o.Acked?
    ensures var p := Settling(s.tasks[t].phase.item, o);
            MayMove(s, t, p) && t in WithPhase(s, t, p).tasks && WithPhase(s, t, p).tasks[t] == s.tasks[t].(phase := p)
    ensures s.tasks[t].phase.item.frame.req == s.tasks[t].req
  {
    hide Inv;
    WorkerHeld(s, t);
  }

  lemma SettlingPopsKeeps(s: State, t: Id, req: ReqId)
    requires Inv(s) && t in s.tasks && s.tasks[t].phase.Settling? && s.tasks[t].req == req
    ensures Inv(WithoutPending(s, req))
  {
    hide Inv;
    NoOtherInFlight(s, t);
    WithoutPendingKeeps(s, req);
  }

  lemma SettledKeeps(s: State, t: Id)
    requires Inv(s) && t in s.tasks && s.tasks[t].phase.Settling?
    ensures Inv(ReplySettled(s, t))
  {
    hide Inv;
    var p := s.tasks[t].phase;
    WorkerHeld(s, t);
    ReplyMaySettle(s, p.item, p.outcome);
    SettleKeeps(s, p.item.future, p.outcome);
    LoopHeadKeeps(SettleOnce(s, p.item.future, p.outcome), t);
  }

  lemma ReplyMaySettle(s: State, item: Item, o: Outcome)
    requires Inv(s) && item in s.taken && OwnAnswer(o, item.frame.req)
    ensures MaySettle(s, item.future, o)
  {
    hide Registered, Below, QueuesInOrder, Accounted, Answered, OwnAnswer, WorkersAgree;
    forall x | x in s.enqueued && x.future == item.future
      ensures x == item
    {
      SameItem(s.enqueued, x, item);
    }
    forall t | t in s.tasks && InFlight(s.tasks[t])
      ensures s.tasks[t].phase.ack != item.future
    {
      InFlightPending(s, t);
    }
  }

  lemma SameItem(log: seq<Item>, x: Item, y: Item)
    requires Increasing(log) && x in log && y in log && x.future == y.future
    ensures x == y
  {
    var i :| 0 <= i < |log| && log[i] == x;
    var j :| 0 <= j < |log| && log[j] == y;
    assert i == j;
  }

  lemma CallerCancelKeeps(s: State, f: Id)
    requires Inv(s) && Enabled(s, CallerCancels(f))
    ensures Inv(SettleOnce(s, f, Cancelled))
  {
    hide Inv;
    ReplyNumbered(s, f);
    MaySettleSilently(s, f, Cancelled);
    SettleKeeps(s, f, Cancelled);
  }

  lemma ReplyNumbered(s: State, f: Id)
    requires Inv(s) && exists x :: x in s.enqueued && x.future == f
    ensures f < s.nextId
  {
    hide Registered, Below, LogsInOrder, QueuesInOrder, Accounted, Answered, WorkersAgree, NotAReply;
  }

  lemma AbandonedKeeps(s: State, gone: set<Id>)
    requires Inv(s)
    ensures Inv(s.(abandoned := s.abandoned + gone))
  {
    hide Registered, Below, Apart, LogsInOrder, QueuesInOrder, Accounted, Answered, WorkersAgree;
    AccountedStill(s, s.outcome, s.abandoned + gone);
  }

  lemma DeadOnArrivalKeeps(s: State, t: Id)
    requires Inv(s) && t in s.tasks && s.tasks[t].phase.NotStarted?
    ensures Inv(WithPhase(s, t, Done))
  {
    hide Below, Apart, LogsInOrder, QueuesInOrder, Accounted, Answered, WorkersAgree;
    var w' := s.tasks[t].(phase := Done);
    assert s.tasks[t := w'].Keys == s.tasks.Keys;
    AccountedMoved(s, t, w');
    WorkerGone(s, t);
  }

  lemma InterruptedKeeps(s: State, t: Id)
    requires Inv(s) && t in s.tasks && Live(s.tasks[t])
    ensures Inv(Interrupted(s, t))
  {
    hide Inv, Exited, WithPhase, MaySettle;
    var w := s.tasks[t];
    if w.phase.NotStarted? {
      DeadOnArrivalKeeps(s, t);
    } else {
      var gone := if Held(w).Some? then {Held(w).value.future} else {};
      if w.phase.AwaitingAck? {
        InFlightPending(s, t);
        MaySettleSilently(s, w.phase.ack, Cancelled);
        SettleKeeps(s, w.phase.ack, Cancelled);
        AbandonedExitKeeps(SettleOnce(s, w.phase.ack, Cancelled), t, gone);
      } else {
        AbandonedExitKeeps(s, t, gone);
      }
    }
  }

  lemma AbandonedExitKeeps(s: State, t: Id, gone: set<Id>)
    requires Inv(s) && t in s.tasks && Started?(s.tasks[t])
    requires Held(s.tasks[t]).Some? ==> Held(s.tasks[t]).value.future in gone
    ensures Inv(Exited(s, t).(abandoned := s.abandoned + gone))
  {
    hide Inv;
    AbandonedKeeps(s, gone);
    ExitedKeeps(s.(abandoned := s.abandoned + gone), t);
  }

  /** Every step keeps the invariant. */
  lemma InvKept(s: State, step: Step)
    requires Inv(s) && Enabled(s, step)
    ensures Inv(Apply(s, step))
  {
    hide Inv, Stopped, Cleared, Enqueue, SettleOnce, Acknowledged, Started, TakeItem, WithPhase, Exited, SendFailed, Resumed,
         LoopHead, Interrupted, SendReturned, AckTimerFired, ReplySettled;
    RegisteredQueues(s);
    match step
    case Connect => FlagsKeep(s, true, s.wsOpen);
    case SocketOpens => FlagsKeep(s, s.running, true);
    case SocketCloses => FlagsKeep(s, s.running, false);
    case Disconnect => StoppedKeeps(s);
    case ClearPending => ClearedKeeps(s);
    case SendReply(frame) => EnqueueKeeps(s, frame);
    case CallerCancels(future) => CallerCancelKeeps(s, future);
    case AckArrives(ack) => AcknowledgedKeeps(s, ack);
    case Start(t) => StartedKeeps(s, t);
    case Take(t) => TakeKeeps(s, t);
    case IdleFires(t) => PhaseKeeps(s, t, IdleFired);
    case Leave(t) => ExitedKeeps(s, t);
    case SendReturns(t) => SendReturnedKeeps(s, t);
    case SendRaises(t, timeout) => SendFailedKeeps(s, t, timeout);
    case AckTimer(t) => AckTimerKeeps(s, t);
    case AckResumes(t) => ResumedKeeps(s, t);
    case Settle(t) => SettledKeeps(s, t);
    case CancelDelivered(t) => InterruptedKeeps(s, t);
  }

  lemma OpenedQueue(s: State, req: ReqId)
    ensures var s' := Opened(s, req); req in s'.replyQueues && s'.replyQueues[req] in s'.queues && s'.wsOpen == s.wsOpen
  {
  }

  lemma JoinedId(s: State, frame: Frame)
    requires frame.req in s.replyQueues && s.replyQueues[frame.req] in s.queues
    ensures Joined(s, frame).nextId == s.nextId + 1
  {
  }

  lemma PendingApart(s: State, req: ReqId, t: Id, phase: Phase)
    requires t in s.tasks
    ensures WithoutPending(s, req).tasks == s.tasks
    ensures WithoutPending(WithPhase(s, t, phase), req) == WithPhase(WithoutPending(s, req), t, phase)
  {
  }

  /** The pending futures of `reqs` have been rejected. */
  function ClearedFor(s: State, reqs: set<ReqId>): State
    requires reqs <= s.pendingAcks.Keys
  {
    var open := OpenFutures(s, reqs);
    s.(outcome := Rejected(s.outcome, open), settled := s.settled + multiset(open))
  }

  function OpenFutures(s: State, reqs: set<ReqId>): set<Id>
    requires reqs <= s.pendingAcks.Keys
  {
    set r | r in reqs && s.pendingAcks[r] !in s.outcome :: s.pendingAcks[r]
  }

  function Rejected(outcome: map<Id, Outcome>, open: set<Id>): map<Id, Outcome> { outcome + map f | f in open :: Raised }

  lemma ClearedForMore(s: State, reqs: set<ReqId>, req: ReqId)
    requires reqs <= s.pendingAcks.Keys && req in s.pendingAcks && req !in reqs
    ensures ClearedFor(s, reqs + {req}) == SettleOnce(ClearedFor(s, reqs), s.pendingAcks[req], Raised)
  {
    hide Rejected, OpenFutures;
    OneMoreOpen(s, reqs, req);
    RejectOneMore(s.outcome, OpenFutures(s, reqs), s.pendingAcks[req]);
  }

  lemma OneMoreOpen(s: State, reqs: set<ReqId>, req: ReqId)
    requires reqs <= s.pendingAcks.Keys && req in s.pendingAcks
    ensures OpenFutures(s, reqs + {req}) == OpenFutures(s, reqs) + ({s.pendingAcks[req]} - s.outcome.Keys)
    ensures OpenFutures(s, reqs) !! s.outcome.Keys
  {
  }

  lemma RejectOneMore(outcome: map<Id, Outcome>, open: set<Id>, f: Id)
    requires open !! outcome.Keys
    ensures var o, open' := Rejected(outcome, open), open + ({f} - outcome.Keys);
            (f in o ==> open' == open)
            && (f !in o ==> Rejected(outcome, open') == o[f := Raised] && multiset(open') == multiset(open) + multiset{f})
  {
    if f !in Rejected(outcome, open) { DisjointUnion(open, {f}); }
  }

  lemma ClearedForNone(s: State)
    ensures ClearedFor(s, {}) == s
  {
    assert OpenFutures(s, {}) == {};
    assert Rejected(s.outcome, {}) == s.outcome;
  }

  lemma ClearedForAll(s: State)
    ensures ClearedFor(s, s.pendingAcks.Keys).(pendingAcks := map[]) == Cleared(s)
  {
    assert OpenFutures(s, s.pendingAcks.Keys) == s.pendingAcks.Values - s.outcome.Keys;
  }

  lemma ExitedApart(s: State, t: Id, gone: set<Id>)
    requires t in s.tasks
    ensures Exited(s.(abandoned := s.abandoned + gone), t) == Exited(s, t).(abandoned := s.abandoned + gone)
  {
  }

  /** `disconnect` has got as far as cancelling the workers `ts`. */
  function StoppedFor(s: State, ts: set<Id>): (r: State)
    ensures r.tasks.Keys == s.tasks.Keys && r.replyWorkers == s.replyWorkers
  {
    s.(running := false,
       tasks := map t | t in s.tasks :: if t in ts && Live(s.tasks[t]) then s.tasks[t].(cancelled := true) else s.tasks[t])
  }

  lemma StoppedForMore(s: State, ts: set<Id>, t: Id)
    requires t !in ts
    ensures var c := StoppedFor(s, ts);
            StoppedFor(s, ts + {t}) ==
            if t in c.tasks && Live(c.tasks[t]) then c.(tasks := c.tasks[t := c.tasks[t].(cancelled := true)]) else c
  {
    var c, c' := StoppedFor(s, ts), StoppedFor(s, ts + {t});
    assert c'.tasks == if t in c.tasks && Live(c.tasks[t]) then c.tasks[t := c.tasks[t].(cancelled := true)] else c.tasks;
  }

  lemma StoppedForEnds(s: State)
    ensures StoppedFor(s, {}) == s.(running := false) && StoppedFor(s, s.replyWorkers.Values) == Stopped(s)
  {
    assert StoppedFor(s, {}).tasks == s.tasks;
  }

  lemma StoppedForSame(s: State, ts: set<Id>)
    ensures StoppedFor(s.(running := false), ts) == StoppedFor(s, ts)
  {
  }
}

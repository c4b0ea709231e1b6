/** The reply side of `WecomBotWsClient` (wecom_ai_bot_api/ws_client.py) with the fields it updates in
    place. A coroutine is cut at its waits, one method for each piece; futures, queues and tasks are kept
    in tables under their identity. Each method does to the fields what the step of the same name does to
    the state in ReplyProtocol, and so keeps its invariant. */
module ReplyClient {
  import opened Common
  import P = ReplyProtocol

  class WsReplies {
    var running: bool
    var wsOpen: bool
    var pendingAcks: map<P.ReqId, P.Id>
    var replyQueues: map<P.ReqId, P.Id>
    var replyWorkers: map<P.ReqId, P.Id>
    var queues: map<P.Id, seq<P.Item>>
    var tasks: map<P.Id, P.Task>
    var outcome: map<P.Id, P.Outcome>
    var nextId: P.Id
    ghost var enqueued: seq<P.Item>
    ghost var taken: seq<P.Item>
    ghost var sent: seq<P.Item>
    ghost var abandoned: set<P.Id>
    ghost var settled: multiset<P.Id>

    ghost function Abs(): P.State
      reads this
    {
      P.State(running, wsOpen, pendingAcks, replyQueues, replyWorkers, queues, tasks, outcome, nextId,
              enqueued, taken, sent, abandoned, settled)
    }

    ghost predicate Valid()
      reads this
    {
      P.Inv(Abs())
    }

    constructor ()
      ensures Valid() && Abs() == P.INITIAL
    {
      running, wsOpen, nextId := false, false, 0;
      pendingAcks, replyQueues, replyWorkers, queues, tasks, outcome := map[], map[], map[], map[], map[], map[];
      enqueued, taken, sent, abandoned, settled := [], [], [], {}, multiset{};
    }

    /** `if not future.done(): future.set_...(outcome)`. */
    method SettleOnce(future: P.Id, o: P.Outcome)
      modifies `outcome, `settled
      ensures Abs() == P.SettleOnce(old(Abs()), future, o)
    {
      if future !in outcome {
        outcome := outcome[future := o];
        settled := settled + multiset{future};
      }
    }

    method SetPhase(t: P.Id, phase: P.Phase)
      requires t in tasks
      modifies `tasks
      ensures Abs() == P.WithPhase(old(Abs()), t, phase)
    {
      tasks := tasks[t := tasks[t].(phase := phase)];
    }

    /** `_pending_acks.pop(req_id, None)`. */
    method PopPending(req: P.ReqId)
      modifies `pendingAcks
      ensures Abs() == P.WithoutPending(old(Abs()), req)
    {
      pendingAcks := pendingAcks - {req};
    }

    method OpenQueue(req: P.ReqId)
      modifies `queues, `replyQueues, `replyWorkers, `tasks, `nextId
      ensures Abs() == P.Opened(old(Abs()), req)
    {
      var queue, worker := nextId, nextId + 1;
      queues := queues[queue := []];
      replyQueues := replyQueues[req := queue];
      tasks := tasks[worker := P.Task(req, None, P.NotStarted, false)];
      replyWorkers := replyWorkers[req := worker];
      nextId := nextId + 2;
    }

    method Put(frame: P.Frame) returns (future: P.Id)
      requires frame.req in replyQueues && replyQueues[frame.req] in queues
      modifies `queues, `nextId, `enqueued
      ensures Abs() == P.Joined(old(Abs()), frame) && future == old(nextId)
    {
      future := nextId;
      nextId := nextId + 1;
      var queue := replyQueues[frame.req];
      queues := queues[queue := queues[queue] + [P.Item(frame, future)]];
      enqueued := enqueued + [P.Item(frame, future)];
    }

    /** `_send_reply` up to `await future`; without a future it returned None. */
    method SendReply(frame: P.Frame) returns (future: Option<P.Id>)
      requires Valid()
      modifies this
      ensures Valid() && Abs() == P.Enqueue(old(Abs()), frame)
      ensures future == if old(wsOpen) then Some(nextId - 1) else None
    {
      hide P.Inv, P.Opened, P.Joined;
      P.RegisteredQueues(Abs());
      P.EnqueueKeeps(Abs(), frame);
      if !wsOpen { return None; }
      if frame.req !in replyQueues {
        P.OpenedQueue(Abs(), frame.req);
        OpenQueue(frame.req);
      }
      P.JoinedId(Abs(), frame);
      var f := Put(frame);
      return Some(f);
    }

    /** The `finally` of the worker. */
    method Exit(t: P.Id)
      requires t in tasks
      modifies `tasks, `replyQueues, `replyWorkers
      ensures Abs() == P.Exited(old(Abs()), t)
    {
      var req := tasks[t].req;
      replyQueues := replyQueues - {req};
      replyWorkers := replyWorkers - {req};
      tasks := tasks[t := tasks[t].(phase := P.Done)];
    }

    /** `while self._running`, and then the wait for an item. */
    method LoopHead(t: P.Id)
      requires t in tasks
      modifies `tasks, `replyQueues, `replyWorkers
      ensures Abs() == P.LoopHead(old(Abs()), t)
    {
      if running {
        tasks := tasks[t := tasks[t].(phase := P.Waiting)];
      } else {
        Exit(t);
      }
    }

    /** The first turn of `_reply_queue_worker`. */
    method Start(t: P.Id)
      requires Valid() && t in tasks && tasks[t].phase.NotStarted?
      modifies this
      ensures Valid() && Abs() == P.Started(old(Abs()), t)
    {
      hide P.Inv, P.LoopHead;
      P.RegisteredQueues(Abs());
      P.StartedKeeps(Abs(), t);
      tasks := tasks[t := tasks[t].(queue := Some(replyQueues[tasks[t].req]))];
      LoopHead(t);
    }

    /** `queue.get()`. */
    method Get(q: P.Id) returns (item: P.Item)
      requires q in queues && queues[q] != []
      modifies `queues, `taken
      ensures Abs() == P.Dequeued(old(Abs()), q) && item == old(queues)[q][0]
    {
      item := queues[q][0];
      queues := queues[q := queues[q][1..]];
      taken := taken + [item];
    }

    method RegisterAck(req: P.ReqId) returns (ack: P.Id)
      modifies `pendingAcks, `nextId
      ensures Abs() == P.AckRegistered(old(Abs()), req) && ack == old(nextId)
    {
      ack := nextId;
      nextId := nextId + 1;
      pendingAcks := pendingAcks[req := ack];
    }

    /** `_send_frame`: without an open socket nothing is written and nothing is awaited. */
    method Write(t: P.Id, item: P.Item, ack: P.Id) returns (written: Option<P.Frame>)
      requires t in tasks
      modifies `sent, `tasks
      ensures Abs() == P.Written(old(Abs()), t, item, ack)
      ensures written == if wsOpen then Some(item.frame) else None
    {
      if wsOpen {
        sent := sent + [item];
        SetPhase(t, P.Sending(item, ack));
        return Some(item.frame);
      }
      SetPhase(t, P.AwaitingAck(item, ack));
      return None;
    }

    /** The worker got an item: `_send_and_wait_ack` up to its first wait. */
    method Take(t: P.Id) returns (written: Option<P.Frame>)
      requires Valid() && P.Enabled(Abs(), P.Take(t))
      modifies this
      ensures Valid() && Abs() == P.TakeItem(old(Abs()), t)
      ensures written == if wsOpen then Some(old(queues)[old(tasks)[t].queue.value][0].frame) else None
    {
      hide P.Inv, P.Dequeued, P.AckRegistered, P.Written;
      P.TakeKeeps(Abs(), t);
      P.DequeuedTasks(Abs(), tasks[t].queue.value);
      var item := Get(tasks[t].queue.value);
      P.AckRegisteredTasks(Abs(), item.frame.req);
      var ack := RegisterAck(item.frame.req);
      written := Write(t, item, ack);
    }

    method IdleFires(t: P.Id)
      requires Valid() && t in tasks && tasks[t].phase.Waiting?
      modifies this
      ensures Valid() && Abs() == P.WithPhase(old(Abs()), t, P.IdleFired)
    {
      hide P.Inv;
      P.PhaseKeeps(Abs(), t, P.IdleFired);
      tasks := tasks[t := tasks[t].(phase := P.IdleFired)];
    }

    method Leave(t: P.Id)
      requires Valid() && t in tasks && tasks[t].phase.IdleFired?
      modifies this
      ensures Valid() && Abs() == P.Exited(old(Abs()), t)
    {
      hide P.Inv, P.Exited;
      P.ExitedKeeps(Abs(), t);
      Exit(t);
    }

    method SendReturns(t: P.Id)
      requires Valid() && t in tasks && tasks[t].phase.Sending?
      modifies this
      ensures Valid() && Abs() == P.SendReturned(old(Abs()), t)
    {
      hide P.Inv;
      P.SendReturnedKeeps(Abs(), t);
      var phase := tasks[t].phase;
      tasks := tasks[t := tasks[t].(phase := P.AwaitingAck(phase.item, phase.ack))];
    }

    /** `send_str` raised: a TimeoutError is caught like an ACK timeout, anything else reaches the worker. */
    method SendRaises(t: P.Id, timeout: bool)
      requires Valid() && t in tasks && tasks[t].phase.Sending?
      modifies this
      ensures Valid() && Abs() == P.SendFailed(old(Abs()), t, timeout)
    {
      hide P.Inv;
      P.SendFailedKeeps(Abs(), t, timeout);
      hide P.WithPhase, P.WithoutPending;
      P.PendingApart(Abs(), tasks[t].phase.item.frame.req, t, P.Settling(tasks[t].phase.item, P.NoAck));
      var item := tasks[t].phase.item;
      if timeout {
        PopPending(item.frame.req);
        SetPhase(t, P.Settling(item, P.NoAck));
      } else {
        SetPhase(t, P.Settling(item, P.Raised));
      }
    }

    method AckTimer(t: P.Id)
      requires Valid() && t in tasks && tasks[t].phase.AwaitingAck?
      modifies this
      ensures Valid() && Abs() == P.AckTimerFired(old(Abs()), t)
    {
      hide P.Inv, P.SettleOnce;
      P.AckTimerKeeps(Abs(), t);
      var phase := tasks[t].phase;
      SettleOnce(phase.ack, P.Cancelled);
      tasks := tasks[t := tasks[t].(phase := P.AckTimedOut(phase.item, phase.ack))];
    }

    /** The wait for the ACK is over; the logger may be called next. */
    method AckResumes(t: P.Id)
      requires Valid() && P.Enabled(Abs(), P.AckResumes(t))
      modifies this
      ensures Valid() && Abs() == P.Resumed(old(Abs()), t)
    {
      hide P.Inv;
      P.ResumedKeeps(Abs(), t);
      hide P.WithPhase, P.WithoutPending;
      P.PendingApart(Abs(), tasks[t].phase.item.frame.req, t, P.Settling(tasks[t].phase.item, P.NoAck));
      var phase := tasks[t].phase;
      if phase.AckTimedOut? {
        PopPending(phase.item.frame.req);
        SetPhase(t, P.Settling(phase.item, P.NoAck));
      } else {
        var answer := if outcome[phase.ack].Acked? then outcome[phase.ack] else P.Raised;
        SetPhase(t, P.Settling(phase.item, answer));
      }
    }

    /** The worker settles the reply and goes round its loop. */
    method Settle(t: P.Id)
      requires Valid() && t in tasks && tasks[t].phase.Settling?
      modifies this
      ensures Valid() && Abs() == P.ReplySettled(old(Abs()), t)
    {
      hide P.Inv, P.LoopHead;
      P.SettledKeeps(Abs(), t);
      var phase := tasks[t].phase;
      SettleOnce(phase.item.future, phase.outcome);
      LoopHead(t);
    }

    method CancelDelivered(t: P.Id)
      requires Valid() && t in tasks && P.Live(tasks[t])
      modifies this
      ensures Valid() && Abs() == P.Interrupted(old(Abs()), t)
    {
      hide P.Inv, P.SettleOnce, P.Exited, P.WithPhase, P.Held;
      P.InterruptedKeeps(Abs(), t);
      if tasks[t].phase.NotStarted? { SetPhase(t, P.Done); } else { Interrupt(t); }
    }

    /** The CancelledError goes through `_send_and_wait_ack` and is caught by the worker. */
    method Interrupt(t: P.Id)
      requires t in tasks && !tasks[t].phase.NotStarted?
      modifies this
      ensures Abs() == P.Interrupted(old(Abs()), t)
    {
      hide P.SettleOnce, P.Exited, P.WithPhase, P.Held;
      var phase := tasks[t].phase;
      ghost var held := P.Held(tasks[t]);
      if phase.AwaitingAck? { SettleOnce(phase.ack, P.Cancelled); }
      ghost var gone := if held.Some? then {held.value.future} else {};
      P.ExitedApart(Abs(), t, gone);
      Abandon(gone);
      Exit(t);
    }

    ghost method Abandon(futures: set<P.Id>)
      modifies `abandoned
      ensures Abs() == old(Abs()).(abandoned := old(abandoned) + futures)
    {
      abandoned := abandoned + futures;
    }

    /** `_handle_frame` for a frame without a command. */
    method HandleAck(ack: P.Ack)
      requires Valid()
      modifies this
      ensures Valid() && Abs() == P.Acknowledged(old(Abs()), ack)
    {
      hide P.Inv, P.SettleOnce;
      P.AcknowledgedKeeps(Abs(), ack);
      if ack.req in pendingAcks {
        var future := pendingAcks[ack.req];
        pendingAcks := pendingAcks - {ack.req};
        SettleOnce(future, P.Acked(ack));
      }
    }

    /** `_clear_pending_acks`. */
    method ClearPendingAcks()
      requires Valid()
      modifies this
      ensures Valid() && Abs() == P.Cleared(old(Abs()))
    {
      hide P.Inv, P.Cleared, P.ClearedFor;
      P.ClearedKeeps(Abs());
      P.ClearedForAll(Abs());
      RejectAll();
      pendingAcks := map[];
    }

    method RejectAll()
      modifies `outcome, `settled
      ensures Abs() == P.ClearedFor(old(Abs()), pendingAcks.Keys)
    {
      hide P.ClearedFor, P.SettleOnce, Abs;
      ghost var s := Abs();
      var todo := pendingAcks.Keys;
      ghost var done: set<P.ReqId> := {};
      P.ClearedForNone(s);
      AbsPending();
      while todo != {}
        invariant done == pendingAcks.Keys - todo && todo <= pendingAcks.Keys
        invariant Abs() == P.ClearedFor(s, done)
        decreases |todo|
      {
        var req :| req in todo;
        P.ClearedForMore(s, done, req);
        SettleOnce(pendingAcks[req], P.Raised);
        todo, done := todo - {req}, done + {req};
      }
      assert done == pendingAcks.Keys;
    }

    lemma AbsPending()
      ensures Abs().pendingAcks == pendingAcks && Abs().replyWorkers == replyWorkers && Abs().tasks == tasks
    {
    }

    /** The first, uninterrupted part of `disconnect`. */
    method Disconnect()
      requires Valid()
      modifies this
      ensures Valid() && Abs() == P.Stopped(old(Abs()))
    {
      hide P.Inv, P.Stopped, P.StoppedFor;
      P.StoppedKeeps(Abs());
      P.StoppedForEnds(Abs());
      running := false;
      P.StoppedForSame(old(Abs()), replyWorkers.Values);
      CancelWorkers();
    }

    method CancelWorkers()
      requires !running
      modifies `tasks
      ensures Abs() == P.StoppedFor(old(Abs()), replyWorkers.Values)
    {
      hide P.StoppedFor, Abs;
      ghost var s := Abs();
      var todo := replyWorkers.Values;
      ghost var done: set<P.Id> := {};
      AbsRunning();
      P.StoppedForEnds(s);
      while todo != {}
        invariant done == replyWorkers.Values - todo && todo <= replyWorkers.Values
        invariant Abs() == P.StoppedFor(s, done)
        decreases |todo|
      {
        var t :| t in todo;
        P.StoppedForMore(s, done, t);
        AbsPending();
        if t in tasks && !tasks[t].phase.Done? { CancelTask(t); }
        todo, done := todo - {t}, done + {t};
      }
      assert done == replyWorkers.Values;
    }

    lemma AbsRunning()
      ensures Abs().running == running
    {
    }

    /** `task.cancel()`: the error is delivered when the task runs next. */
    method CancelTask(t: P.Id)
      requires t in tasks
      modifies `tasks
      ensures Abs() == old(Abs()).(tasks := old(tasks)[t := old(tasks)[t].(cancelled := true)])
    {
      tasks := tasks[t := tasks[t].(cancelled := true)];
    }

    method SetSocket(open: bool)
      requires Valid()
      modifies this
      ensures Valid() && Abs() == old(Abs()).(wsOpen := open)
    {
      hide P.Inv;
      P.FlagsKeep(Abs(), running, open);
      wsOpen := open;
    }

    method Connect()
      requires Valid()
      modifies this
      ensures Valid() && Abs() == old(Abs()).(running := true)
    {
      hide P.Inv;
      P.FlagsKeep(Abs(), true, wsOpen);
      running := true;
    }

    method CallerCancels(future: P.Id)
      requires Valid() && P.Enabled(Abs(), P.CallerCancels(future))
      modifies this
      ensures Valid() && Abs() == P.SettleOnce(old(Abs()), future, P.Cancelled)
    {
      hide P.Inv, P.SettleOnce;
      P.CallerCancelKeeps(Abs(), future);
      SettleOnce(future, P.Cancelled);
    }
  }
}

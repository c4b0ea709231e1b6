/** What the caller of a reply gets: the ACK, nothing after a timeout, an error when the connection is
    lost or the send fails. */
module ReplyOutcomes {
  import opened Common
  import opened ReplyProtocol
  import opened ReplyGuarantees

  /** A worker waits for the ACK of `item`, nobody has answered it, and its caller still waits. */
  ghost predicate Waits(s: State, t: Id, item: Item, ack: Id) {
    Inv(s) && t in s.tasks && s.tasks[t].phase == AwaitingAck(item, ack) && ack !in s.outcome && item.future !in s.outcome
  }

  ghost predicate Sends(s: State, t: Id, item: Item, ack: Id) {
    Inv(s) && t in s.tasks && s.tasks[t].phase == Sending(item, ack) && item.future !in s.outcome
  }

  /** After the steps the reply of the item is settled with `o`. */
  ghost predicate Gives(s: State, steps: seq<Step>, item: Item, o: Outcome) {
    Inv(s) && Enabling(s, steps) && item.future in After(s, steps).outcome && After(s, steps).outcome[item.future] == o
  }

  /** The connection is lost while the worker waits: the caller gets the error. */
  lemma LostConnectionIsRaised(s: State, t: Id, item: Item, ack: Id)
    requires Waits(s, t, item, ack)
    ensures Gives(s, [ClearPending] + ([AckResumes(t)] + [Settle(t)]), item, Raised)
  {
    hide Inv, Enabling, After;
    var s1 := Apply(s, ClearPending);
    ClearedAck(s, t, item, ack);
    InvKept(s, ClearPending);
    AnswerGoesOn(s1, t, item, ack);
    FirstStep(s, ClearPending, [AckResumes(t)] + [Settle(t)]);
  }

  /** The ACK timer fires: the caller gets None, and the request has no pending ACK left. */
  lemma TimeoutIsNothing(s: State, t: Id, item: Item, ack: Id)
    requires Waits(s, t, item, ack)
    ensures Gives(s, [AckTimer(t)] + ([AckResumes(t)] + [Settle(t)]), item, NoAck)
    ensures item.frame.req !in After(s, [AckTimer(t)] + ([AckResumes(t)] + [Settle(t)])).pendingAcks
  {
    hide Inv, Enabling, After;
    var s1 := Apply(s, AckTimer(t));
    TimerFired(s, t, item, ack);
    InvKept(s, AckTimer(t));
    var s2 := Apply(s1, AckResumes(t));
    NothingComes(s1, t, item, ack);
    InvKept(s1, AckResumes(t));
    SettlesWith(s2, t, item, NoAck);
    FirstStep(s1, AckResumes(t), [Settle(t)]);
    FirstStep(s, AckTimer(t), [AckResumes(t)] + [Settle(t)]);
  }

  /** The ACK of the request arrives: the caller gets it, whatever its error code. */
  lemma AckIsHandedOn(s: State, t: Id, item: Item, ack: Id, a: Ack)
    requires Waits(s, t, item, ack) && a.req == item.frame.req
    ensures Gives(s, [AckArrives(a)] + ([AckResumes(t)] + [Settle(t)]), item, Acked(a))
  {
    hide Inv, Enabling, After;
    var s1 := Apply(s, AckArrives(a));
    AckSettles(s, t, item, ack, a);
    InvKept(s, AckArrives(a));
    AnswerGoesOn(s1, t, item, ack);
    FirstStep(s, AckArrives(a), [AckResumes(t)] + [Settle(t)]);
  }

  /** The send raises: a timeout counts as no ACK and removes the pending one, any other error goes to the
      caller and leaves it. */
  lemma FailedSendIsRaised(s: State, t: Id, item: Item, ack: Id, timeout: bool)
    requires Sends(s, t, item, ack)
    ensures Gives(s, [SendRaises(t, timeout)] + [Settle(t)], item, if timeout then NoAck else Raised)
    ensures After(s, [SendRaises(t, timeout)] + [Settle(t)]).pendingAcks ==
            if timeout then s.pendingAcks - {item.frame.req} else s.pendingAcks
  {
    hide Inv, Enabling, After;
    var o := if timeout then NoAck else Raised;
    var s1 := Apply(s, SendRaises(t, timeout));
    SendFailedWith(s, t, item, ack, timeout);
    InvKept(s, SendRaises(t, timeout));
    SettlesWith(s1, t, item, o);
    FirstStep(s, SendRaises(t, timeout), [Settle(t)]);
  }

  /** An answered worker hands on the ACK, or raises for a future that was rejected or cancelled. */
  lemma AnswerGoesOn(s: State, t: Id, item: Item, ack: Id)
    requires Inv(s) && t in s.tasks && s.tasks[t].phase == AwaitingAck(item, ack) && ack in s.outcome && item.future !in s.outcome
    ensures Gives(s, [AckResumes(t)] + [Settle(t)], item, if s.outcome[ack].Acked? then s.outcome[ack] else Raised)
  {
    hide Inv, Enabling, After;
    var o := if s.outcome[ack].Acked? then s.outcome[ack] else Raised;
    var s1 := Apply(s, AckResumes(t));
    AnswerSeen(s, t, item, ack);
    InvKept(s, AckResumes(t));
    SettlesWith(s1, t, item, o);
    FirstStep(s, AckResumes(t), [Settle(t)]);
  }

  // ---------------------------------------------------------------- the single steps

  lemma ItemIsReply(s: State, t: Id, item: Item)
    requires Inv(s) && t in s.tasks && Held(s.tasks[t]) == Some(item)
    ensures item in s.enqueued && item.frame.req == s.tasks[t].req && forall r | r in s.pendingAcks :: s.pendingAcks[r] != item.future
  {
    hide Registered, Below, QueuesInOrder, Accounted, Answered, AckAgrees, Ordered, Increasing;
    assert HeldAgrees(s.tasks[t], s.taken);
  }

  lemma PendingIsOurs(s: State, t: Id, item: Item, ack: Id)
    requires Waits(s, t, item, ack)
    ensures item.frame.req in s.pendingAcks && s.pendingAcks[item.frame.req] == ack
  {
    hide Registered, Below, QueuesInOrder, Accounted, Answered, LogsInOrder, Apart, OwnAnswer, NotAReply;
    assert HeldAgrees(s.tasks[t], s.taken) && AckAgrees(s.tasks[t], s.enqueued, s.pendingAcks, s.outcome, s.nextId);
  }

  lemma ClearedAck(s: State, t: Id, item: Item, ack: Id)
    requires Waits(s, t, item, ack)
    ensures var s1 := Apply(s, ClearPending);
            s1.tasks == s.tasks && ack in s1.outcome && s1.outcome[ack] == Raised && item.future !in s1.outcome
  {
    PendingIsOurs(s, t, item, ack);
    ItemIsReply(s, t, item);
    hide Inv;
    assert ack in s.pendingAcks.Values - s.outcome.Keys;
  }

  lemma AckSettles(s: State, t: Id, item: Item, ack: Id, a: Ack)
    requires Waits(s, t, item, ack) && a.req == item.frame.req
    ensures var s1 := Apply(s, AckArrives(a));
            s1.tasks == s.tasks && ack in s1.outcome && s1.outcome[ack] == Acked(a) && item.future !in s1.outcome
  {
    PendingIsOurs(s, t, item, ack);
    ItemIsReply(s, t, item);
    hide Inv;
  }

  lemma TimerFired(s: State, t: Id, item: Item, ack: Id)
    requires Waits(s, t, item, ack)
    ensures var s1 := Apply(s, AckTimer(t));
            t in s1.tasks && s1.tasks[t].phase == AckTimedOut(item, ack) && item.future !in s1.outcome
            && ack in s1.outcome && s1.outcome[ack] == Cancelled
  {
    PendingIsOurs(s, t, item, ack);
    ItemIsReply(s, t, item);
    hide Inv;
  }

  lemma NothingComes(s: State, t: Id, item: Item, ack: Id)
    requires Inv(s) && t in s.tasks && s.tasks[t].phase == AckTimedOut(item, ack) && item.future !in s.outcome
    ensures var s1 := Apply(s, AckResumes(t));
            t in s1.tasks && s1.tasks[t].phase == Settling(item, NoAck) && s1.outcome == s.outcome && item.frame.req !in s1.pendingAcks
  {
    hide Inv;
  }

  lemma AnswerSeen(s: State, t: Id, item: Item, ack: Id)
    requires Inv(s) && t in s.tasks && s.tasks[t].phase == AwaitingAck(item, ack) && ack in s.outcome
    ensures var s1 := Apply(s, AckResumes(t));
            t in s1.tasks && s1.outcome == s.outcome
            && s1.tasks[t].phase == Settling(item, if s.outcome[ack].Acked? then s.outcome[ack] else Raised)
  {
    hide Inv;
  }

  lemma SendFailedWith(s: State, t: Id, item: Item, ack: Id, timeout: bool)
    requires Sends(s, t, item, ack)
    ensures var s1 := Apply(s, SendRaises(t, timeout));
            t in s1.tasks && s1.tasks[t].phase == Settling(item, if timeout then NoAck else Raised) && s1.outcome == s.outcome
            && s1.pendingAcks == if timeout then s.pendingAcks - {item.frame.req} else s.pendingAcks
  {
    hide Inv;
  }

  lemma SettlesWith(s: State, t: Id, item: Item, o: Outcome)
    requires Inv(s) && t in s.tasks && s.tasks[t].phase == Settling(item, o) && item.future !in s.outcome
    ensures Gives(s, [Settle(t)], item, o) && After(s, [Settle(t)]).pendingAcks == s.pendingAcks
  {
    hide Inv, Enabling, After;
    OneStep(s, Settle(t));
  }

  // ---------------------------------------------------------------- disconnect

  /** `disconnect` stops the loops and cancels every worker that is not done, and nobody else. */
  lemma DisconnectCancelsAll(s: State)
    requires Inv(s)
    ensures var s' := Apply(s, Disconnect);
            !s'.running && s'.tasks.Keys == s.tasks.Keys
            && (forall t | t in s.tasks && !s.tasks[t].phase.Done? :: s'.tasks[t] == s.tasks[t].(cancelled := true))
            && (forall t | t in s.tasks && s.tasks[t].phase.Done? :: s'.tasks[t] == s.tasks[t])
            && s' == s.(running := false, tasks := s'.tasks)
  {
    hide Below, Apart, LogsInOrder, QueuesInOrder, WorkersAgree, Accounted, Answered;
    forall t | t in s.tasks && Live(s.tasks[t])
      ensures t in s.replyWorkers.Values
    {
      assert RegisteredTask(s.replyQueues, s.replyWorkers, t, s.tasks[t]);
    }
  }

  /** A caller that gives up gets the cancellation, unless its reply was settled before. */
  lemma CallerGetsCancellation(s: State, f: Id)
    requires Inv(s) && Enabled(s, CallerCancels(f))
    ensures var s' := Apply(s, CallerCancels(f));
            s' == s.(outcome := s'.outcome, settled := s'.settled)
            && s'.outcome == if f in s.outcome then s.outcome else s.outcome[f := Cancelled]
  {
    hide Inv;
  }
}

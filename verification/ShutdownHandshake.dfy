/** The shutdown handshake between the launcher (LauncherProcessManager.cs) and packaged backends
    (packaging/server/entrypoint.py) over two files. */
module ShutdownHandshake {
  import opened Common

  // A step is one file operation or one uninterrupted piece of a process; processes interleave at will.
  // Several backends may run, process ids may be reused, and files may be left over from earlier runs.

  /** The parsed request file; a file that cannot be read or parsed counts as EMPTY. */
  datatype Request = Request(action: string, reason: string, requestId: string, sessionId: string, pid: Option<int>)

  const EMPTY := Request("", "", "", "", None)

  datatype Ack = Ack(requestId: string, sessionId: string, pid: int)

  /** `watch_early_shutdown_requests` between two file operations. */
  datatype Watcher =
    | Idle
    | Read(request: Request)
    | Writing(request: Request)
    | Replaced(request: Request)
    | Finished
    | Failed

  datatype App = Making | Running | Returned

  /** `answered` is the request a backend acknowledged; `early` the event of `packaged_main`. */
  datatype Backend = Backend(session: string, pid: int, alive: bool, watcher: Watcher, answered: Option<Request>,
                             early: bool, app: App, forwarding: bool, appRequested: bool)

  datatype StopPhase = Captured | Serialized | AckDeleted | Waiting | Accepted | TimedOut

  /** One call of `StopAsync`: the process id it captured and the request it wrote. */
  datatype Stop = Stop(pid: int, request: Option<Request>, phase: StopPhase)

  datatype StartPhase = Down | ArchivingRequest | ArchivingAck | Spawning

  /** `issued` are all requests the launcher serialized; `oldSessions` and `stale` are the sessions and the
      requests there were before the launcher. */
  datatype State = State(
    requestFile: Option<Request>,
    ackFile: Option<Ack>,
    backends: map<nat, Backend>,
    session: Option<string>,
    ownedPid: Option<int>,
    starting: StartPhase,
    stops: map<nat, Stop>,
    issued: set<Request>,
    usedIds: set<string>,
    usedSessions: set<string>,
    oldSessions: set<string>,
    stale: set<Request>)

  datatype Step =
    | Start(session: string)
    | ArchiveRequest
    | ArchiveAck
    | Spawn(backend: nat, pid: int)
    | StartFails
    | StopBegins(call: nat)
    | Serialize(call: nat, reason: string, requestId: string)
    | DeleteAck(call: nat)
    | Place(call: nat)
    | Poll(call: nat)
    | TimeOut(call: nat)
    | StopEnds(call: nat)
    | ReadRequest(backend: nat, readable: bool)
    | Unlink(backend: nat)
    | Acknowledge(backend: nat)
    | AcknowledgeFails(backend: nat)
    | SetEvent(backend: nat)
    | AppMade(backend: nat)
    | AppFails(backend: nat)
    | Forward(backend: nat)
    | RunReturns(backend: nat)
    | Dies(backend: nat)

  // ---------------------------------------------------------------- the checks

  /** What a backend does with a request it has consumed. */
  predicate Accepts(b: Backend, q: Request) {
    q.action == "shutdown" && (b.session != "" ==> q.requestId != "" && q.sessionId == b.session && q.pid == Some(b.pid))
  }

  /** The acknowledgement `WaitForShutdownAcknowledgementAsync` waits for. */
  predicate Matches(ack: Option<Ack>, requestId: string, session: Option<string>, pid: int) {
    ack.Some? && ack.value.requestId == requestId && session == Some(ack.value.sessionId) && ack.value.pid == pid
  }

  /** The watcher is between two of its rounds, so the event loop can run something else. */
  predicate AtRest(b: Backend) { b.alive && (b.watcher.Idle? || b.watcher.Finished? || b.watcher.Failed?) }

  // ---------------------------------------------------------------- the steps

  predicate Enabled(s: State, step: Step) {
    match step
    case Start(session) => s.starting == Down && s.ownedPid.None? && session != "" && session !in s.usedSessions
    case ArchiveRequest => s.starting == ArchivingRequest
    case ArchiveAck => s.starting == ArchivingAck
    case Spawn(b, _) => s.starting == Spawning && s.session.Some? && b !in s.backends
    case StartFails => s.starting == Spawning
    case StopBegins(k) => s.ownedPid.Some? && k !in s.stops
    case Serialize(k, _, requestId) =>
      k in s.stops && s.stops[k].phase == Captured && s.session.Some? && requestId != "" && requestId !in s.usedIds
    case DeleteAck(k) => k in s.stops && s.stops[k].phase == Serialized
    case Place(k) => k in s.stops && s.stops[k].phase == AckDeleted && s.stops[k].request.Some?
    case Poll(k) => k in s.stops && s.stops[k].phase == Waiting && s.stops[k].request.Some?
    case TimeOut(k) => k in s.stops && s.stops[k].phase == Waiting
    case StopEnds(k) => k in s.stops && (s.stops[k].phase == Captured || s.stops[k].phase == Accepted || s.stops[k].phase == TimedOut)
    case ReadRequest(b, _) =>
      b in s.backends && s.backends[b].alive && s.backends[b].watcher.Idle? && !s.backends[b].early
      && s.backends[b].app != Returned && s.requestFile.Some?
    case Unlink(b) => b in s.backends && s.backends[b].alive && s.backends[b].watcher.Read?
    case Acknowledge(b) => b in s.backends && s.backends[b].alive && s.backends[b].watcher.Writing?
    case AcknowledgeFails(b) => b in s.backends && s.backends[b].alive && s.backends[b].watcher.Writing?
    case SetEvent(b) => b in s.backends && s.backends[b].alive && s.backends[b].watcher.Replaced?
    case AppMade(b) => b in s.backends && AtRest(s.backends[b]) && s.backends[b].app == Making
    case AppFails(b) => b in s.backends && AtRest(s.backends[b]) && s.backends[b].app == Making
    case Forward(b) => b in s.backends && AtRest(s.backends[b]) && s.backends[b].forwarding && s.backends[b].early
                       && s.backends[b].app == Running
    case RunReturns(b) => b in s.backends && AtRest(s.backends[b]) && s.backends[b].app == Running
    case Dies(b) => b in s.backends
  }

  function WithStop(s: State, k: nat, phase: StopPhase): State
    requires k in s.stops
  {
    s.(stops := s.stops[k := s.stops[k].(phase := phase)])
  }

  function WithBackend(s: State, b: nat, backend: Backend): State { s.(backends := s.backends[b := backend]) }

  function NewBackend(session: string, pid: int): Backend {
    Backend(session, pid, true, Idle, None, false, Making, false, false)
  }

  /** `make_app` returned: the forwarder is started, and an event set before is handed on at once. */
  function Made(b: Backend): Backend { b.(app := Running, forwarding := true, appRequested := b.appRequested || b.early) }

  function Apply(s: State, step: Step): State
    requires Enabled(s, step)
  {
    match step
    case Start(session) => s.(session := Some(session), usedSessions := s.usedSessions + {session}, starting := ArchivingRequest)
    case ArchiveRequest => s.(requestFile := None, starting := ArchivingAck)
    case ArchiveAck => s.(ackFile := None, starting := Spawning)
    case Spawn(b, pid) => WithBackend(s, b, NewBackend(s.session.value, pid)).(ownedPid := Some(pid), starting := Down)
    case StartFails => s.(starting := Down)
    case StopBegins(k) => s.(stops := s.stops[k := Stop(s.ownedPid.value, None, Captured)])
    case Serialize(k, reason, requestId) =>
      var q := Request("shutdown", reason, requestId, s.session.value, s.ownedPid);
      s.(stops := s.stops[k := s.stops[k].(request := Some(q), phase := Serialized)],
         issued := s.issued + {q}, usedIds := s.usedIds + {requestId})
    case DeleteAck(k) => WithStop(s, k, AckDeleted).(ackFile := None)
    case Place(k) => WithStop(s, k, Waiting).(requestFile := s.stops[k].request)
    case Poll(k) =>
      var stop := s.stops[k];
      if Matches(s.ackFile, stop.request.value.requestId, s.session, stop.pid) then WithStop(s, k, Accepted) else s
    case TimeOut(k) => WithStop(s, k, TimedOut)
    case StopEnds(k) => s.(ownedPid := None)
    case ReadRequest(b, readable) =>
      WithBackend(s, b, s.backends[b].(watcher := Read(if readable then s.requestFile.value else EMPTY)))
    case Unlink(b) =>
      var backend := s.backends[b];
      var q := backend.watcher.request;
      WithBackend(s, b, backend.(watcher := if Accepts(backend, q) then Writing(q) else Idle)).(requestFile := None)
    case Acknowledge(b) =>
      var backend := s.backends[b];
      var q := backend.watcher.request;
      WithBackend(s, b, backend.(watcher := Replaced(q), answered := Some(q))).(
        ackFile := Some(Ack(q.requestId, backend.session, backend.pid)))
    case AcknowledgeFails(b) => WithBackend(s, b, s.backends[b].(watcher := Failed))
    case SetEvent(b) => WithBackend(s, b, s.backends[b].(watcher := Finished, early := true))
    case AppMade(b) => WithBackend(s, b, Made(s.backends[b]))
    case AppFails(b) => WithBackend(s, b, s.backends[b].(app := Returned))
    case Forward(b) => WithBackend(s, b, s.backends[b].(forwarding := false, appRequested := true))
    case RunReturns(b) => WithBackend(s, b, s.backends[b].(app := Returned, forwarding := false))
    case Dies(b) => WithBackend(s, b, s.backends[b].(alive := false))
  }

  // ---------------------------------------------------------------- what every step keeps

  /** Anything may be left over from before: files, requests, and backends at any point of their own
      handshakes. Only the ids of all this are taken. */
  ghost predicate Initial(s: State) {
    (s.requestFile.Some? ==> Known(s.requestFile.value, {}, s.stale))
    && s.session.None? && s.ownedPid.None? && s.starting == Down && s.stops == map[] && s.issued == {}
    && s.usedSessions == s.oldSessions && StaleUsed(s.stale, s.usedIds, s.oldSessions) && AckUsed(s.ackFile, s.usedIds)
    && forall b | b in s.backends :: s.backends[b].session in s.oldSessions && BackendAgrees(s.backends[b], {}, s.stale)
  }

  ghost predicate StaleUsed(stale: set<Request>, usedIds: set<string>, oldSessions: set<string>) {
    forall q | q in stale :: q.requestId in usedIds && q.sessionId in oldSessions
  }

  /** Two backends of this launcher's sessions never share the session, and a starting one is alone. */
  ghost predicate SessionsApart(backends: map<nat, Backend>, session: Option<string>, starting: StartPhase,
                                usedSessions: set<string>, oldSessions: set<string>) {
    oldSessions <= usedSessions
    && (forall b | b in backends :: backends[b].session in usedSessions)
    && (forall b, c | b in backends && c in backends && backends[b].session == backends[c].session :: b == c || backends[b].session in oldSessions)
    && (session.Some? ==> session.value != "" && session.value in usedSessions && session.value !in oldSessions)
    && (starting != Down ==> session.Some? && forall b | b in backends :: backends[b].session != session.value)
  }

  /** A request id names one issued request, and none that was there before. */
  ghost predicate IdsApart(issued: set<Request>, usedIds: set<string>, stale: set<Request>) {
    (forall q | q in issued :: q.requestId in usedIds && q.requestId != "")
    && (forall q, r | q in issued && r in stale :: q.requestId != r.requestId)
    && (forall q, r | q in issued && r in issued && q.requestId == r.requestId :: q == r)
  }

  ghost predicate Known(q: Request, issued: set<Request>, stale: set<Request>) { q in issued || q in stale || q == EMPTY }

  /** A request names a session of this launcher; with a process id it was written when that session's
      backend was there. */
  ghost predicate Addressed(issued: set<Request>, backends: map<nat, Backend>, usedSessions: set<string>) {
    forall q | q in issued :: q.sessionId in usedSessions && (q.pid.Some? ==> HasSession(backends, q.sessionId))
  }

  ghost predicate HasSession(backends: map<nat, Backend>, session: string) { exists b :: b in backends && backends[b].session == session }

  /** While the launcher owns a process it is not starting one, and the session's backend is there. */
  ghost predicate Owned(ownedPid: Option<int>, starting: StartPhase, session: Option<string>, backends: map<nat, Backend>) {
    ownedPid.Some? ==> starting == Down && session.Some? && HasSession(backends, session.value)
  }

  /** No two calls wrote the same request. */
  ghost predicate StopsApart(stops: map<nat, Stop>) {
    forall k, j | k in stops && j in stops && stops[k].request.Some? && stops[k].request == stops[j].request :: k == j
  }

  ghost predicate RequestsKnown(file: Option<Request>, stops: map<nat, Stop>, issued: set<Request>, stale: set<Request>) {
    (file.Some? ==> Known(file.value, issued, stale))
    && forall k | k in stops && stops[k].request.Some? :: stops[k].request.value in issued
  }

  /** What a backend has done so far follows from the request it holds or has answered. */
  ghost predicate BackendAgrees(b: Backend, issued: set<Request>, stale: set<Request>) {
    (b.watcher.Read? ==> Known(b.watcher.request, issued, stale))
    && (b.watcher.Writing? || b.watcher.Replaced? ==> Known(b.watcher.request, issued, stale) && Accepts(b, b.watcher.request))
    && (b.answered.Some? <==> b.watcher.Replaced? || b.watcher.Finished?)
    && (b.watcher.Replaced? ==> b.answered == Some(b.watcher.request))
    && (b.answered.Some? ==> Known(b.answered.value, issued, stale) && Accepts(b, b.answered.value))
    && (b.early <==> b.watcher.Finished?)
    && (b.appRequested ==> b.early)
    && (b.app == Running ==> b.appRequested || b.forwarding)
  }

  ghost predicate BackendsAgree(backends: map<nat, Backend>, issued: set<Request>, stale: set<Request>) {
    forall b | b in backends :: BackendAgrees(backends[b], issued, stale)
  }

  ghost predicate Answers(b: Backend, ack: Ack) {
    b.session == ack.sessionId && b.pid == ack.pid && b.answered.Some? && b.answered.value.requestId == ack.requestId
  }

  /** An acknowledgement of an issued request was written by the backend it names. */
  ghost predicate AckGenuine(ack: Option<Ack>, backends: map<nat, Backend>, issued: set<Request>) {
    ack.Some? && (exists q :: q in issued && q.requestId == ack.value.requestId)
    ==> exists b :: b in backends && Answers(backends[b], ack.value)
  }

  ghost predicate AckUsed(ack: Option<Ack>, usedIds: set<string>) { ack.Some? ==> ack.value.requestId in usedIds }

  ghost predicate Inv(s: State) {
    SessionsApart(s.backends, s.session, s.starting, s.usedSessions, s.oldSessions)
    && IdsApart(s.issued, s.usedIds, s.stale)
    && RequestsKnown(s.requestFile, s.stops, s.issued, s.stale)
    && BackendsAgree(s.backends, s.issued, s.stale)
    && AckGenuine(s.ackFile, s.backends, s.issued) && AckUsed(s.ackFile, s.usedIds)
    && StaleUsed(s.stale, s.usedIds, s.oldSessions)
    && Addressed(s.issued, s.backends, s.usedSessions) && Owned(s.ownedPid, s.starting, s.session, s.backends) && StopsApart(s.stops)
  }

  lemma InitialAgrees(s: State)
    requires Initial(s)
    ensures Inv(s)
  {
    hide BackendAgrees, Known;
  }

  /** A backend moves on without touching its session, process id or answer. */
  ghost predicate SameAnswer(b: Backend, b': Backend) {
    b'.session == b.session && b'.pid == b.pid && (b.answered.Some? ==> b'.answered == b.answered)
  }

  lemma BackendKeeps(s: State, b: nat, b': Backend)
    requires Inv(s) && b in s.backends && SameAnswer(s.backends[b], b') && BackendAgrees(b', s.issued, s.stale)
    ensures Inv(WithBackend(s, b, b'))
  {
    hide IdsApart, RequestsKnown, BackendAgrees, AckGenuine, SessionsApart, AckUsed, Addressed, Owned, StopsApart, StaleUsed;
    SessionsKept(s, b, b');
    AckKept(s, b, b');
    SessionStays(s, b, b');
  }

  lemma SessionsKept(s: State, b: nat, b': Backend)
    requires SessionsApart(s.backends, s.session, s.starting, s.usedSessions, s.oldSessions)
    requires b in s.backends && b'.session == s.backends[b].session
    ensures SessionsApart(s.backends[b := b'], s.session, s.starting, s.usedSessions, s.oldSessions)
  {
  }

  lemma SessionStays(s: State, b: nat, b': Backend)
    requires Addressed(s.issued, s.backends, s.usedSessions) && Owned(s.ownedPid, s.starting, s.session, s.backends)
    requires b in s.backends ==> b'.session == s.backends[b].session
    ensures Addressed(s.issued, s.backends[b := b'], s.usedSessions) && Owned(s.ownedPid, s.starting, s.session, s.backends[b := b'])
  {
    forall session | HasSession(s.backends, session)
      ensures HasSession(s.backends[b := b'], session)
    {
      var c :| c in s.backends && s.backends[c].session == session;
      assert c in s.backends[b := b'] && s.backends[b := b'][c].session == session;
    }
  }

  lemma AckKept(s: State, b: nat, b': Backend)
    requires AckGenuine(s.ackFile, s.backends, s.issued) && b in s.backends && SameAnswer(s.backends[b], b')
    ensures AckGenuine(s.ackFile, s.backends[b := b'], s.issued)
  {
    if s.ackFile.Some? && exists q :: q in s.issued && q.requestId == s.ackFile.value.requestId {
      var c :| c in s.backends && Answers(s.backends[c], s.ackFile.value);
      assert Answers(s.backends[b := b'][c], s.ackFile.value);
    }
  }

  lemma SpawnKeeps(s: State, b: nat, pid: int)
    requires Inv(s) && Enabled(s, Spawn(b, pid))
    ensures Inv(Apply(s, Spawn(b, pid)))
  {
    hide IdsApart, RequestsKnown, AckGenuine, AckUsed, BackendAgrees, SessionsApart, Addressed, StopsApart, StaleUsed;
    var b' := NewBackend(s.session.value, pid);
    NewBackendFits(s, b, pid);
    SpawnedAck(s, b, b');
    SessionStays(s, b, b');
    assert s.backends[b := b'][b].session == s.session.value;
  }

  lemma NewBackendFits(s: State, b: nat, pid: int)
    requires SessionsApart(s.backends, s.session, s.starting, s.usedSessions, s.oldSessions) && s.starting == Spawning && s.session.Some?
    ensures SessionsApart(s.backends[b := NewBackend(s.session.value, pid)], s.session, Down, s.usedSessions, s.oldSessions)
    ensures BackendAgrees(NewBackend(s.session.value, pid), s.issued, s.stale)
  {
  }

  lemma SpawnedAck(s: State, b: nat, b': Backend)
    requires AckGenuine(s.ackFile, s.backends, s.issued) && b !in s.backends
    ensures AckGenuine(s.ackFile, s.backends[b := b'], s.issued)
  {
    hide Answers;
    if s.ackFile.Some? && exists q :: q in s.issued && q.requestId == s.ackFile.value.requestId {
      var c :| c in s.backends && Answers(s.backends[c], s.ackFile.value);
      assert Answers(s.backends[b := b'][c], s.ackFile.value);
    }
  }

  lemma SerializeKeeps(s: State, k: nat, reason: string, requestId: string)
    requires Inv(s) && Enabled(s, Serialize(k, reason, requestId))
    ensures Inv(Apply(s, Serialize(k, reason, requestId)))
  {
    hide SessionsApart, BackendAgrees, AckGenuine, IdsApart, RequestsKnown, BackendsAgree, Addressed, Owned, StopsApart, StaleUsed;
    var s' := Apply(s, Serialize(k, reason, requestId));
    var q := s'.stops[k].request.value;
    assert s'.stops[k].request == Some(q);
    IssuedApart(s, q);
    IssuedKnown(s, k, q, s'.stops);
    IssuedBackends(s, q);
    IssuedAck(s, q);
    IssuedAddressed(s, q);
    assert AckUsed(s.ackFile, s.usedIds + {q.requestId});
  }

  lemma IssuedAddressed(s: State, q: Request)
    requires Addressed(s.issued, s.backends, s.usedSessions) && Owned(s.ownedPid, s.starting, s.session, s.backends)
    requires SessionsApart(s.backends, s.session, s.starting, s.usedSessions, s.oldSessions)
    requires s.session == Some(q.sessionId) && q.pid == s.ownedPid
    ensures Addressed(s.issued + {q}, s.backends, s.usedSessions)
  {
    hide HasSession;
  }

  lemma IssuedApart(s: State, q: Request)
    requires IdsApart(s.issued, s.usedIds, s.stale) && q.requestId != "" && q.requestId !in s.usedIds
    requires StaleUsed(s.stale, s.usedIds, s.oldSessions)
    ensures q !in s.issued && IdsApart(s.issued + {q}, s.usedIds + {q.requestId}, s.stale)
    ensures StaleUsed(s.stale, s.usedIds + {q.requestId}, s.oldSessions)
  {
  }

  /** The request is new, so no other call has it. */
  lemma IssuedKnown(s: State, k: nat, q: Request, stops': map<nat, Stop>)
    requires StopsApart(s.stops) && RequestsKnown(s.requestFile, s.stops, s.issued, s.stale) && q !in s.issued
    requires k in s.stops && stops'.Keys == s.stops.Keys && stops'[k].request == Some(q)
    requires forall i | i in s.stops && i != k :: stops'[i] == s.stops[i]
    ensures RequestsKnown(s.requestFile, stops', s.issued + {q}, s.stale) && StopsApart(stops')
  {
  }

  lemma IssuedBackends(s: State, q: Request)
    requires BackendsAgree(s.backends, s.issued, s.stale)
    ensures BackendsAgree(s.backends, s.issued + {q}, s.stale)
  {
    forall b | b in s.backends
      ensures BackendAgrees(s.backends[b], s.issued + {q}, s.stale)
    {
      assert BackendAgrees(s.backends[b], s.issued, s.stale);
      hide Accepts;
    }
  }

  lemma IssuedAck(s: State, q: Request)
    requires AckGenuine(s.ackFile, s.backends, s.issued) && AckUsed(s.ackFile, s.usedIds) && q.requestId !in s.usedIds
    ensures AckGenuine(s.ackFile, s.backends, s.issued + {q})
  {
    hide Answers;
  }

  lemma AcknowledgeKeeps(s: State, b: nat)
    requires Inv(s) && Enabled(s, Acknowledge(b))
    ensures Inv(Apply(s, Acknowledge(b)))
  {
    hide SessionsApart, RequestsKnown, AckGenuine, BackendAgrees, Addressed, Owned, StopsApart, StaleUsed, IdsApart;
    var w := s.backends[b];
    var q := w.watcher.request;
    var b' := w.(watcher := Replaced(q), answered := Some(q));
    var s' := Apply(s, Acknowledge(b));
    SessionsKept(s, b, b');
    SessionStays(s, b, b');
    AcknowledgedBackend(s, b);
    assert AckGenuine(s'.ackFile, s'.backends, s'.issued) by {
      assert Answers(s'.backends[b], s'.ackFile.value);
      WitnessedAck(s', b);
    }
  }

  lemma WitnessedAck(s: State, b: nat)
    requires b in s.backends && s.ackFile.Some? && Answers(s.backends[b], s.ackFile.value)
    ensures AckGenuine(s.ackFile, s.backends, s.issued)
  {
  }

  lemma AcknowledgedBackend(s: State, b: nat)
    requires Inv(s) && Enabled(s, Acknowledge(b))
    ensures var q := s.backends[b].watcher.request;
            BackendAgrees(s.backends[b].(watcher := Replaced(q), answered := Some(q)), s.issued, s.stale)
            && q.requestId in s.usedIds && q != EMPTY
  {
    hide SessionsApart, AckGenuine, Addressed, Owned, StopsApart, RequestsKnown;
    assert BackendAgrees(s.backends[b], s.issued, s.stale);
  }

  /** Every step keeps the invariant. */
  lemma InvKept(s: State, step: Step)
    requires Inv(s) && Enabled(s, step)
    ensures Inv(Apply(s, step))
  {
    match step
    case Spawn(b, pid) => SpawnKeeps(s, b, pid);
    case Serialize(k, reason, requestId) => SerializeKeeps(s, k, reason, requestId);
    case Acknowledge(b) => AcknowledgeKeeps(s, b);
    case ReadRequest(_, _) => WatcherKeeps(s, step);
    case Unlink(_) => WatcherKeeps(s, step);
    case AcknowledgeFails(_) => WatcherKeeps(s, step);
    case SetEvent(_) => WatcherKeeps(s, step);
    case AppMade(_) => AppKeeps(s, step);
    case AppFails(_) => AppKeeps(s, step);
    case Forward(_) => AppKeeps(s, step);
    case RunReturns(_) => AppKeeps(s, step);
    case Dies(_) => AppKeeps(s, step);
    case _ => LauncherKeeps(s, step);
  }

  lemma WatcherKeeps(s: State, step: Step)
    requires Inv(s) && Enabled(s, step) && (step.ReadRequest? || step.Unlink? || step.AcknowledgeFails? || step.SetEvent?)
    ensures Inv(Apply(s, step))
  {
    hide SessionsApart, AckGenuine, IdsApart, Addressed, Owned, StopsApart, StaleUsed;
    var b := step.backend;
    var b' := Apply(s, step).backends[b];
    assert BackendAgrees(s.backends[b], s.issued, s.stale);
    assert BackendAgrees(b', s.issued, s.stale);
    hide BackendAgrees, Inv;
    BackendKeeps(s, b, b');
    if step.Unlink? { FileGone(WithBackend(s, b, b')); }
  }

  lemma FileGone(s: State)
    requires Inv(s)
    ensures Inv(s.(requestFile := None))
  {
    hide SessionsApart, AckGenuine, IdsApart, BackendsAgree, Addressed, Owned, StopsApart, StaleUsed;
  }

  lemma AppKeeps(s: State, step: Step)
    requires Inv(s) && Enabled(s, step)
    requires step.AppMade? || step.AppFails? || step.Forward? || step.RunReturns? || step.Dies?
    ensures Inv(Apply(s, step))
  {
    hide SessionsApart, AckGenuine, IdsApart, Addressed, Owned, StopsApart, StaleUsed;
    var b := step.backend;
    var b' := Apply(s, step).backends[b];
    assert BackendAgrees(s.backends[b], s.issued, s.stale);
    assert BackendAgrees(b', s.issued, s.stale);
    hide BackendAgrees, Inv;
    BackendKeeps(s, b, b');
  }

  lemma LauncherKeeps(s: State, step: Step)
    requires Inv(s) && Enabled(s, step)
    requires step.Start? || step.ArchiveRequest? || step.ArchiveAck? || step.StartFails? || step.StopBegins? || step.DeleteAck?
             || step.Place? || step.Poll? || step.TimeOut? || step.StopEnds?
    ensures Inv(Apply(s, step))
  {
    hide IdsApart, BackendsAgree, Matches, HasSession, StaleUsed;
    var s' := Apply(s, step);
    assert SessionsApart(s'.backends, s'.session, s'.starting, s'.usedSessions, s'.oldSessions);
    assert Addressed(s'.issued, s'.backends, s'.usedSessions) && Owned(s'.ownedPid, s'.starting, s'.session, s'.backends);
    hide SessionsApart, Addressed, Owned;
    assert RequestsKnown(s'.requestFile, s'.stops, s'.issued, s'.stale) && StopsApart(s'.stops);
    hide RequestsKnown, StopsApart;
    assert AckGenuine(s'.ackFile, s'.backends, s'.issued);
  }

  // ---------------------------------------------------------------- what the handshake guarantees

  ghost predicate Enabling(s: State, steps: seq<Step>)
    decreases |steps|
  {
    steps == [] || (Enabled(s, steps[0]) && Enabling(Apply(s, steps[0]), steps[1..]))
  }

  ghost function After(s: State, steps: seq<Step>): State
    requires Enabling(s, steps)
    decreases |steps|
  {
    if steps == [] then s else After(Apply(s, steps[0]), steps[1..])
  }

  lemma {:induction false} InvAlways(s: State, steps: seq<Step>)
    requires Inv(s) && Enabling(s, steps)
    ensures Inv(After(s, steps))
    decreases |steps|
  {
    hide Inv, Enabled, Apply;
    if steps != [] {
      InvKept(s, steps[0]);
      InvAlways(Apply(s, steps[0]), steps[1..]);
    }
  }

  /** When the launcher's wait accepts an acknowledgement, the one backend of that session, which has that
      process id, acknowledged exactly the request this call wrote, and it has set its shutdown event or
      does so in its next step. */
  lemma AcceptedMeansStopping(start: State, steps: seq<Step>, k: nat) returns (b: nat)
    requires Initial(start) && Enabling(start, steps)
    requires Enabled(After(start, steps), Poll(k))
    requires Apply(After(start, steps), Poll(k)).stops[k].phase == Accepted
    ensures var s := After(start, steps);
            b in s.backends
            && s.session == Some(s.backends[b].session) && s.backends[b].pid == s.stops[k].pid
            && (forall c | c in s.backends && s.session == Some(s.backends[c].session) :: c == b)
            && s.backends[b].answered == s.stops[k].request
            && (s.backends[b].early || (s.backends[b].watcher.Replaced? && s.backends[b].watcher.request == s.stops[k].request.value))
  {
    hide Initial, Enabling, After, IdsApart, RequestsKnown, BackendAgrees, SessionsApart, AckUsed, Known, Accepts;
    InitialAgrees(start);
    InvAlways(start, steps);
    var s := After(start, steps);
    var q := s.stops[k].request.value;
    assert q in s.issued by { StopIssued(s, k); }
    b :| b in s.backends && Answers(s.backends[b], s.ackFile.value);
    AnsweredIssued(s, b, q);
    OnlyBackend(s, b);
  }

  lemma StopIssued(s: State, k: nat)
    requires RequestsKnown(s.requestFile, s.stops, s.issued, s.stale) && k in s.stops && s.stops[k].request.Some?
    ensures s.stops[k].request.value in s.issued
  {
  }

  lemma AnsweredIssued(s: State, b: nat, q: Request)
    requires Inv(s) && q in s.issued && b in s.backends && s.backends[b].answered.Some?
    requires s.backends[b].answered.value.requestId == q.requestId
    ensures s.backends[b].answered == Some(q)
    ensures s.backends[b].early || (s.backends[b].watcher.Replaced? && s.backends[b].watcher.request == q)
  {
    hide SessionsApart, AckGenuine, RequestsKnown;
    assert BackendAgrees(s.backends[b], s.issued, s.stale);
  }

  lemma OnlyBackend(s: State, b: nat)
    requires SessionsApart(s.backends, s.session, s.starting, s.usedSessions, s.oldSessions)
    requires b in s.backends && s.session == Some(s.backends[b].session)
    ensures forall c | c in s.backends && s.session == Some(s.backends[c].session) :: c == b
  {
  }

  /** A backend with a session id stops over the control file only for a shutdown request with its own
      session and process id; one started by this launcher only for a request this launcher wrote. */
  lemma NeverStoppedForAnother(start: State, steps: seq<Step>, b: nat)
    requires Initial(start) && Enabling(start, steps)
    requires var s := After(start, steps);
             b in s.backends && s.backends[b].session != "" && (s.backends[b].early || s.backends[b].appRequested)
    ensures var s := After(start, steps);
            var q := s.backends[b].answered;
            q.Some? && q.value.action == "shutdown" && q.value.sessionId == s.backends[b].session
            && q.value.pid == Some(s.backends[b].pid)
            && (q.value in s.issued || q.value in s.stale)
            && (s.backends[b].session !in s.oldSessions ==> q.value in s.issued)
  {
    hide Initial, Enabling, After, SessionsApart, AckGenuine, RequestsKnown, IdsApart;
    InitialAgrees(start);
    InvAlways(start, steps);
    assert BackendAgrees(After(start, steps).backends[b], After(start, steps).issued, After(start, steps).stale);
  }

  /** Unless `run` has returned, an event that is set reaches the application: as soon as `make_app`
      returns, or it has already, or in the forwarder's next turn. */
  lemma RequestReachesApp(start: State, steps: seq<Step>, b: nat)
    requires Initial(start) && Enabling(start, steps)
    requires var s := After(start, steps);
             b in s.backends && AtRest(s.backends[b]) && s.backends[b].early && s.backends[b].app != Returned
    ensures var s := After(start, steps);
            if s.backends[b].app == Making then Enabled(s, AppMade(b)) && Apply(s, AppMade(b)).backends[b].appRequested
            else s.backends[b].appRequested || (Enabled(s, Forward(b)) && Apply(s, Forward(b)).backends[b].appRequested)
  {
    hide Initial, Enabling, After, SessionsApart, AckGenuine, RequestsKnown, IdsApart, Accepts, Known;
    InitialAgrees(start);
    InvAlways(start, steps);
    assert BackendAgrees(After(start, steps).backends[b], After(start, steps).issued, After(start, steps).stale);
  }

  /** Reading and removing the request file: with a session the backend goes on only for its own session, its
      process id and a request id, without one for every shutdown request; what it does not take is lost. */
  lemma ReadAndRemoved(s: State, b: nat, readable: bool)
    requires Enabled(s, ReadRequest(b, readable))
    ensures var s1 := Apply(s, ReadRequest(b, readable));
            var w, q := s.backends[b], s.requestFile.value;
            Enabled(s1, Unlink(b))
            && var s2 := Apply(s1, Unlink(b));
               s2.requestFile == None
               && s2.backends[b].watcher == if readable && q.action == "shutdown"
                                               && (w.session == "" || (q.requestId != "" && q.sessionId == w.session && q.pid == Some(w.pid)))
                                            then Writing(q) else Idle
  {
  }

  /** A start removes both files before it spawns the backend. */
  lemma StartEmptiesFiles(s: State, session: string)
    requires Enabled(s, Start(session))
    ensures var s1 := Apply(s, Start(session));
            Enabled(s1, ArchiveRequest) && Enabled(Apply(s1, ArchiveRequest), ArchiveAck)
            && var s3 := Apply(Apply(s1, ArchiveRequest), ArchiveAck);
               s3 == s.(requestFile := None, ackFile := None, session := Some(session), usedSessions := s.usedSessions + {session},
                        starting := Spawning)
  {
  }

  // ---------------------------------------------------------------- the two loops

  /** What the rounds of the watcher find in the file, one entry each, up to the one it accepts. */
  ghost predicate FirstAccepted(b: Backend, rounds: seq<Option<Request>>, i: nat) {
    i < |rounds| && rounds[i].Some? && Accepts(b, rounds[i].value)
    && forall j :: 0 <= j < i && rounds[j].Some? ==> !Accepts(b, rounds[j].value)
  }

  /** `watch_early_shutdown_requests`: it sets the event in the first round that finds a request it
      accepts, having acknowledged that request and no other, and removed every file it found. */
  method WatchEarlyShutdownRequests(b: Backend, rounds: seq<Option<Request>>)
    returns (early: bool, acks: seq<Ack>, consumed: seq<Request>, round: nat)
    ensures early ==> round > 0 && FirstAccepted(b, rounds, round - 1)
                      && acks == [Ack(rounds[round - 1].value.requestId, b.session, b.pid)]
    ensures !early ==> round == |rounds| && acks == [] && forall i :: 0 <= i < |rounds| && rounds[i].Some? ==> !Accepts(b, rounds[i].value)
    ensures round <= |rounds| && consumed == Found(rounds[..round])
  {
    early, acks, consumed, round := false, [], [], 0;
    while !early && round < |rounds|
      invariant round <= |rounds| && consumed == Found(rounds[..round])
      invariant early ==> round > 0 && FirstAccepted(b, rounds, round - 1)
                          && acks == [Ack(rounds[round - 1].value.requestId, b.session, b.pid)]
      invariant !early ==> acks == [] && forall i :: 0 <= i < round && rounds[i].Some? ==> !Accepts(b, rounds[i].value)
      decreases |rounds| - round
    {
      assert rounds[..round + 1][..round] == rounds[..round];
      if rounds[round].Some? {
        var payload := rounds[round].value;
        consumed := consumed + [payload];
        if payload.action == "shutdown"
           && !(b.session != "" && (payload.requestId == "" || payload.sessionId != b.session || payload.pid != Some(b.pid))) {
          acks := acks + [Ack(payload.requestId, b.session, b.pid)];
          early := true;
        }
      }
      round := round + 1;
    }
    assert rounds[..|rounds|] == rounds;
  }

  ghost function Found(rounds: seq<Option<Request>>): seq<Request> {
    if rounds == [] then []
    else Found(rounds[..|rounds| - 1]) + if rounds[|rounds| - 1].Some? then [rounds[|rounds| - 1].value] else []
  }

  /** `WaitForShutdownAcknowledgementAsync` over the polls before its deadline. */
  method WaitForAcknowledgement(polls: seq<Option<Ack>>, requestId: string, session: Option<string>, pid: int) returns (accepted: bool)
    ensures accepted <==> exists i :: 0 <= i < |polls| && Matches(polls[i], requestId, session, pid)
  {
    for i := 0 to |polls|
      invariant forall j :: 0 <= j < i ==> !Matches(polls[j], requestId, session, pid)
    {
      if polls[i].Some? {
        var ack := polls[i].value;
        if ack.requestId == requestId && session == Some(ack.sessionId) && ack.pid == pid {
          assert Matches(polls[i], requestId, session, pid);
          return true;
        }
      }
    }
    return false;
  }

  // ---------------------------------------------------------------- exactly when a request can be answered

  /** The call `k` of `StopAsync` waits for the acknowledgement of its request. */
  predicate WaitingCall(s: State, k: nat) { k in s.stops && s.stops[k].phase == Waiting && s.stops[k].request.Some? }

  /** The addressed backend is alive and holds the request of the call, or is about to find it in the file. */
  predicate Reader(s: State, k: nat, b: nat)
    requires WaitingCall(s, k) && b in s.backends
  {
    var q, w := s.stops[k].request.value, s.backends[b];
    w.alive && s.session == Some(w.session) && w.pid == s.stops[k].pid && Accepts(w, q)
    && (w.watcher == Read(q) || w.watcher == Writing(q)
        || (w.watcher.Idle? && !w.early && w.app != Returned && s.requestFile == Some(q)))
  }

  /** The acknowledgement is in its file, or its backend can still write it. */
  ghost predicate Answerable(s: State, k: nat)
    requires WaitingCall(s, k)
  {
    Matches(s.ackFile, s.stops[k].request.value.requestId, s.session, s.stops[k].pid)
    || exists b :: b in s.backends && Reader(s, k, b)
  }

  /** The next poll of the call accepts. */
  predicate AcceptsNow(s: State, k: nat) {
    WaitingCall(s, k) && Matches(s.ackFile, s.stops[k].request.value.requestId, s.session, s.stops[k].pid)
  }

  predicate PollAccepts(s: State, k: nat) { Enabled(s, Poll(k)) && Apply(s, Poll(k)).stops[k].phase == Accepted }

  /** Some continuation ends in a poll that accepts. */
  ghost predicate CanBeAccepted(s: State, k: nat) {
    exists steps: seq<Step> :: Enabling(s, steps) && PollAccepts(After(s, steps), k)
  }

  lemma AcceptsNowPolls(s: State, k: nat)
    ensures AcceptsNow(s, k) <==> PollAccepts(s, k)
  {
  }

  /** The call timed out, or waits for what can no longer come. */
  ghost predicate Hopeless(s: State, k: nat) {
    k in s.stops && s.stops[k].request.Some?
    && (s.stops[k].phase == TimedOut || (s.stops[k].phase == Waiting && !Answerable(s, k)))
  }

  /** An issued request is known by its id. */
  lemma SameRequest(s: State, q: Request, r: Request)
    requires IdsApart(s.issued, s.usedIds, s.stale) && q in s.issued && Known(r, s.issued, s.stale) && r.requestId == q.requestId
    ensures r == q
  {
  }

  /** No step makes a reader of the request out of another backend. */
  lemma ReaderBefore(s: State, step: Step, k: nat, b: nat)
    requires Inv(s) && WaitingCall(s, k) && Enabled(s, step) && WaitingCall(Apply(s, step), k)
    requires b in Apply(s, step).backends && Reader(Apply(s, step), k, b)
    ensures b in s.backends && Reader(s, k, b)
  {
    hide BackendAgrees, AckGenuine, IdsApart, Matches, StaleUsed, HasSession, Known;
    var q := s.stops[k].request.value;
    assert q in s.issued by { StopIssued(s, k); }
    match step
    case Start(_) =>
    case Spawn(c, _) => if b == c { SessionTaken(s, q); }
    case Place(j) =>
      assert s.stops[j].request == Some(q) ==> j == k;
    case _ =>
  }

  /** The session of a request that has a process id has its backend, so no second one is started. */
  lemma SessionTaken(s: State, q: Request)
    requires Inv(s) && q in s.issued && s.starting == Spawning
    ensures q.pid.Some? ==> s.session != Some(q.sessionId)
  {
    hide BackendAgrees, AckGenuine, IdsApart, Matches, StaleUsed, Known, RequestsKnown;
  }

  /** An acknowledgement that matches after a step matched before, or was just written by a reader. */
  lemma MatchBefore(s: State, step: Step, k: nat)
    requires Inv(s) && WaitingCall(s, k) && Enabled(s, step) && AcceptsNow(Apply(s, step), k)
    ensures Answerable(s, k)
  {
    hide Inv, Accepts;
    if step.Acknowledge? {
      AcknowledgedByReader(s, step.backend, k);
    } else if step.Start? {
      NewSessionMatchesNothing(s, step.session, k);
    }
  }

  lemma AcknowledgedByReader(s: State, b: nat, k: nat)
    requires Inv(s) && WaitingCall(s, k) && Enabled(s, Acknowledge(b)) && AcceptsNow(Apply(s, Acknowledge(b)), k)
    ensures Reader(s, k, b)
  {
    hide SessionsApart, AckGenuine, IdsApart, StaleUsed, Addressed, Owned, StopsApart;
    assert BackendAgrees(s.backends[b], s.issued, s.stale);
    SameRequest(s, s.stops[k].request.value, s.backends[b].watcher.request);
  }

  lemma NewSessionMatchesNothing(s: State, session: string, k: nat)
    requires Inv(s) && WaitingCall(s, k) && session !in s.usedSessions
    ensures !Matches(s.ackFile, s.stops[k].request.value.requestId, Some(session), s.stops[k].pid)
  {
    hide BackendsAgree, IdsApart, StaleUsed, Addressed, Owned, StopsApart;
    var q := s.stops[k].request.value;
    assert q in s.issued;
  }

  lemma HopelessStays(s: State, step: Step, k: nat)
    requires Inv(s) && Enabled(s, step) && Hopeless(s, k)
    ensures Hopeless(Apply(s, step), k)
  {
    hide Inv, Reader, Matches;
    var s' := Apply(s, step);
    CallKept(s, step, k);
    if s'.stops[k].phase == Waiting {
      if AcceptsNow(s', k) { MatchBefore(s, step, k); }
      forall b | b in s'.backends
        ensures !Reader(s', k, b)
      {
        if Reader(s', k, b) { ReaderBefore(s, step, k, b); }
      }
    }
  }

  /** A call keeps its request, and one that timed out is over. */
  lemma CallKept(s: State, step: Step, k: nat)
    requires Enabled(s, step) && Hopeless(s, k)
    ensures var s' := Apply(s, step);
            k in s'.stops && s'.stops[k].request == s.stops[k].request
            && (s'.stops[k].phase == TimedOut || (s'.stops[k].phase == Waiting && s.stops[k].phase == Waiting))
  {
    hide Accepts, Reader;
  }

  lemma {:induction false} HopelessForever(s: State, steps: seq<Step>, k: nat)
    requires Inv(s) && Enabling(s, steps) && Hopeless(s, k)
    ensures !AcceptsNow(After(s, steps), k)
    decreases |steps|
  {
    hide Inv, Enabled, Apply;
    if steps != [] {
      hide Hopeless;
      InvKept(s, steps[0]);
      HopelessStays(s, steps[0], k);
      HopelessForever(Apply(s, steps[0]), steps[1..], k);
    }
  }

  lemma OneMore(s: State, step: Step, rest: seq<Step>)
    requires Enabled(s, step)
    ensures Enabling(Apply(s, step), rest) ==>
              Enabling(s, [step] + rest) && After(s, [step] + rest) == After(Apply(s, step), rest)
  {
    hide Enabled, Apply;
    assert ([step] + rest)[1..] == rest;
  }

  /** A reader that is left to run answers. */
  lemma {:induction false} ReaderAnswers(s: State, k: nat, b: nat) returns (steps: seq<Step>)
    requires Inv(s) && WaitingCall(s, k) && b in s.backends && Reader(s, k, b)
    ensures Enabling(s, steps) && AcceptsNow(After(s, steps), k)
    decreases if s.backends[b].watcher.Idle? then 2 else if s.backends[b].watcher.Read? then 1 else 0
  {
    hide Inv, Enabling, After;
    var w := s.backends[b].watcher;
    var step := if w.Idle? then ReadRequest(b, true) else if w.Read? then Unlink(b) else Acknowledge(b);
    var s' := Apply(s, step);
    var rest: seq<Step> := [];
    if w.Writing? {
      NoSteps(s');
    } else {
      InvKept(s, step);
      rest := ReaderAnswers(s', k, b);
    }
    OneMore(s, step, rest);
    steps := [step] + rest;
  }

  lemma NoSteps(s: State)
    ensures Enabling(s, []) && After(s, []) == s
  {
  }

  /** The exact condition, for every state: some continuation makes the launcher accept the request of a
      waiting call if and only if the matching acknowledgement is in the file, or a live backend of the
      launcher's session and the call's process id holds the request or is about to read it. */
  lemma AcceptedIffAnswerable(s: State, k: nat)
    requires Inv(s) && WaitingCall(s, k)
    ensures CanBeAccepted(s, k) <==> Answerable(s, k)
  {
    hide Inv, Enabling, After, Reader, Matches, PollAccepts;
    if Answerable(s, k) {
      NoSteps(s);
      AcceptsNowPolls(s, k);
      if !AcceptsNow(s, k) {
        var b :| b in s.backends && Reader(s, k, b);
        var steps := ReaderAnswers(s, k, b);
        AcceptsNowPolls(After(s, steps), k);
      }
    } else {
      forall steps: seq<Step> | Enabling(s, steps)
        ensures !PollAccepts(After(s, steps), k)
      {
        HopelessForever(s, steps, k);
        AcceptsNowPolls(After(s, steps), k);
      }
    }
  }

  // ---------------------------------------------------------------- who reads the file decides

  /** The reader of the file takes the request away. If no one else had read it and no acknowledgement of
      it is there, the launcher can accept it from then on exactly if the file was readable and its reader
      is the backend the request is for. */
  lemma ReaderDecides(s: State, k: nat, c: nat, readable: bool)
    requires Inv(s) && WaitingCall(s, k) && s.requestFile == s.stops[k].request && Enabled(s, ReadRequest(c, readable))
    requires !AcceptsNow(s, k)
    requires forall b | b in s.backends && (s.backends[b].watcher.Read? || s.backends[b].watcher.Writing?) ::
               s.backends[b].watcher.request != s.stops[k].request.value
    ensures Enabled(Apply(s, ReadRequest(c, readable)), Unlink(c))
    ensures var s' := Apply(Apply(s, ReadRequest(c, readable)), Unlink(c));
            WaitingCall(s', k)
            && (CanBeAccepted(s', k) <==> readable && Accepts(s.backends[c], s.stops[k].request.value)
                                          && s.session == Some(s.backends[c].session) && s.backends[c].pid == s.stops[k].pid)
  {
    hide Inv, Matches, CanBeAccepted;
    var q, w := s.stops[k].request.value, s.backends[c];
    InvKept(s, ReadRequest(c, readable));
    var s1 := Apply(s, ReadRequest(c, readable));
    InvKept(s1, Unlink(c));
    var s' := Apply(s1, Unlink(c));
    AcceptedIffAnswerable(s', k);
    assert q != EMPTY by { IssuedNotEmpty(s, k); }
    if readable && Accepts(w, q) && s.session == Some(w.session) && w.pid == s.stops[k].pid {
      assert Reader(s', k, c);
    }
  }

  lemma IssuedNotEmpty(s: State, k: nat)
    requires Inv(s) && WaitingCall(s, k)
    ensures s.stops[k].request.value != EMPTY
  {
    hide SessionsApart, BackendsAgree, AckGenuine, StaleUsed, Addressed, Owned, StopsApart;
  }

  /** From the start of a session to a request in the file. */
  function PlacingSteps(session: string, b: nat, pid: int, k: nat, reason: string, requestId: string): seq<Step> {
    [Start(session), ArchiveRequest, ArchiveAck, Spawn(b, pid), StopBegins(k), Serialize(k, reason, requestId), DeleteAck(k), Place(k)]
  }

  /** A run from any leftovers: the launcher starts a backend and asks it to stop, and the backend `c`
      reads the file first. The launcher can still accept exactly if that is the new backend and its read
      succeeds; a left-over backend, with another session or with none, or a failing read lose the request. */
  lemma FirstReaderDecides(start: State, session: string, b: nat, pid: int, k: nat, reason: string, requestId: string,
                                              c: nat, readable: bool)
    returns (s: State)
    requires Initial(start) && session != "" && session !in start.usedSessions && b !in start.backends
    requires requestId != "" && requestId !in start.usedIds
    requires c == b || (c in start.backends && start.backends[c].alive && start.backends[c].watcher.Idle? && !start.backends[c].early
                        && start.backends[c].app != Returned)
    ensures var steps := PlacingSteps(session, b, pid, k, reason, requestId) + [ReadRequest(c, readable), Unlink(c)];
            Enabling(start, steps) && s == After(start, steps) && WaitingCall(s, k) && (CanBeAccepted(s, k) <==> c == b && readable)
  {
    hide Initial, Inv, Enabling, After, CanBeAccepted;
    var placing := PlacingSteps(session, b, pid, k, reason, requestId);
    var s0 := PlacedRequest(start, session, b, pid, k, reason, requestId);
    InitialAgrees(start);
    InvAlways(start, placing);
    LeftoversApart(start, requestId, session);
    ReaderDecides(s0, k, c, readable);
    var s1 := Apply(s0, ReadRequest(c, readable));
    s := Apply(s1, Unlink(c));
    NoSteps(s);
    OneMore(s1, Unlink(c), []);
    OneMore(s0, ReadRequest(c, readable), [Unlink(c)] + []);
    var reading := [ReadRequest(c, readable)] + ([Unlink(c)] + []);
    RunsTogether(start, placing, reading);
    assert placing + reading == placing + [ReadRequest(c, readable), Unlink(c)];
  }

  lemma PlacedRequest(start: State, session: string, b: nat, pid: int, k: nat, reason: string, requestId: string)
    returns (s: State)
    requires Initial(start) && session != "" && session !in start.usedSessions && b !in start.backends
    requires requestId != "" && requestId !in start.usedIds
    ensures Enabling(start, PlacingSteps(session, b, pid, k, reason, requestId))
    ensures s == After(start, PlacingSteps(session, b, pid, k, reason, requestId))
    ensures var q := Request("shutdown", reason, requestId, session, Some(pid));
            s == start.(requestFile := Some(q), ackFile := None, backends := start.backends[b := NewBackend(session, pid)],
                        session := Some(session), ownedPid := Some(pid), starting := Down, stops := map[k := Stop(pid, Some(q), Waiting)],
                        issued := {q}, usedIds := start.usedIds + {requestId}, usedSessions := start.usedSessions + {session})
  {
    hide Enabling, After;
    var s3 := start.(requestFile := None, ackFile := None, session := Some(session),
                     usedSessions := start.usedSessions + {session}, starting := Spawning);
    var s4 := Apply(s3, Spawn(b, pid));
    s := StopPlaced(s4, k, reason, requestId);
    var stop := StopSteps(k, reason, requestId);
    OneMore(s3, Spawn(b, pid), stop);
    Archived(start, session, [Spawn(b, pid)] + stop);
    assert [Start(session), ArchiveRequest, ArchiveAck] + ([Spawn(b, pid)] + stop) == PlacingSteps(session, b, pid, k, reason, requestId);
    assert {} + {Request("shutdown", reason, requestId, session, Some(pid))} == {Request("shutdown", reason, requestId, session, Some(pid))};
  }

  function StopSteps(k: nat, reason: string, requestId: string): seq<Step> {
    [StopBegins(k), Serialize(k, reason, requestId), DeleteAck(k), Place(k)]
  }

  lemma StopPlaced(s: State, k: nat, reason: string, requestId: string) returns (s': State)
    requires s.session.Some? && s.ownedPid.Some? && s.stops == map[] && requestId != "" && requestId !in s.usedIds
    ensures Enabling(s, StopSteps(k, reason, requestId)) && s' == After(s, StopSteps(k, reason, requestId))
    ensures var q := Request("shutdown", reason, requestId, s.session.value, s.ownedPid);
            s' == s.(requestFile := Some(q), ackFile := None, stops := map[k := Stop(s.ownedPid.value, Some(q), Waiting)],
                     issued := s.issued + {q}, usedIds := s.usedIds + {requestId})
  {
    hide Enabling, After;
    var pid := s.ownedPid.value;
    var q := Request("shutdown", reason, requestId, s.session.value, s.ownedPid);
    var s1 := Apply(s, StopBegins(k));
    assert s1.stops == map[k := Stop(pid, None, Captured)];
    var s2 := Apply(s1, Serialize(k, reason, requestId));
    assert s2.stops == map[k := Stop(pid, Some(q), Serialized)];
    var s3 := Apply(s2, DeleteAck(k));
    assert s3.stops == map[k := Stop(pid, Some(q), AckDeleted)];
    s' := Apply(s3, Place(k));
    assert s'.stops == map[k := Stop(pid, Some(q), Waiting)];
    NoSteps(s');
    OneMore(s3, Place(k), []);
    OneMore(s2, DeleteAck(k), [Place(k)] + []);
    OneMore(s1, Serialize(k, reason, requestId), [DeleteAck(k)] + ([Place(k)] + []));
    OneMore(s, StopBegins(k), [Serialize(k, reason, requestId)] + ([DeleteAck(k)] + ([Place(k)] + [])));
    assert [StopBegins(k)] + ([Serialize(k, reason, requestId)] + ([DeleteAck(k)] + ([Place(k)] + []))) == StopSteps(k, reason, requestId);
  }

  lemma Archived(start: State, session: string, rest: seq<Step>)
    requires Enabled(start, Start(session))
    requires Enabling(start.(requestFile := None, ackFile := None, session := Some(session),
                             usedSessions := start.usedSessions + {session}, starting := Spawning), rest)
    ensures var s3 := start.(requestFile := None, ackFile := None, session := Some(session),
                             usedSessions := start.usedSessions + {session}, starting := Spawning);
            Enabling(start, [Start(session), ArchiveRequest, ArchiveAck] + rest)
            && After(start, [Start(session), ArchiveRequest, ArchiveAck] + rest) == After(s3, rest)
  {
    hide Enabling, After;
    var s1 := Apply(start, Start(session));
    var s2 := Apply(s1, ArchiveRequest);
    OneMore(s2, ArchiveAck, rest);
    OneMore(s1, ArchiveRequest, [ArchiveAck] + rest);
    OneMore(start, Start(session), [ArchiveRequest] + ([ArchiveAck] + rest));
    assert [Start(session)] + ([ArchiveRequest] + ([ArchiveAck] + rest)) == [Start(session), ArchiveRequest, ArchiveAck] + rest;
  }

  lemma {:induction false} RunsTogether(s: State, a: seq<Step>, b: seq<Step>)
    requires Enabling(s, a) && Enabling(After(s, a), b)
    ensures Enabling(s, a + b) && After(s, a + b) == After(After(s, a), b)
    decreases |a|
  {
    hide Enabled, Apply;
    if a == [] {
      assert a + b == b;
    } else {
      RunsTogether(Apply(s, a[0]), a[1..], b);
      assert [a[0]] + (a[1..] + b) == a + b;
      OneMore(s, a[0], a[1..] + b);
    }
  }

  /** What is left over has neither the new session nor a request with the new id. */
  lemma LeftoversApart(start: State, requestId: string, session: string)
    requires Initial(start) && requestId != "" && requestId !in start.usedIds && session !in start.usedSessions
    ensures forall c | c in start.backends :: start.backends[c].session != session
    ensures forall c | c in start.backends && (start.backends[c].watcher.Read? || start.backends[c].watcher.Writing?) ::
              start.backends[c].watcher.request.requestId != requestId
  {
    forall c | c in start.backends
      ensures start.backends[c].session != session
      ensures start.backends[c].watcher.Read? || start.backends[c].watcher.Writing? ==>
                start.backends[c].watcher.request.requestId != requestId
    {
      assert BackendAgrees(start.backends[c], {}, start.stale);
      hide Accepts;
    }
  }
}

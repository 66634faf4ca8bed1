/** The lifecycle of a disposable worker process: started on demand, asked one request at a time, stopped when idle or
    when it can no longer be trusted. What the process and the clock do is given with each call. */
module Supervisor {
  import opened Prelude
  import opened Canonical

  datatype Message =
    | HandshakeRequest
    | HandshakeResponse(protocolVersion: nat)
    | WorkerFailure(message: string)
    | OtherMessage(tag: string)

  datatype Envelope = Envelope(protocolVersion: nat, requestId: string, message: Message)

  datatype SupervisorError =
    | StartFailed
    | FrameFailed
    | InvalidResponse
    | TimedOut(timeout: nat)
    | Exited
    | RequestIdMismatch(expected: string, received: string)
    | DuplicateRequestId(requestId: string)
    | IncompatibleProtocol(found: nat)
    | WorkerReported(report: string)
    | InvalidHandshake

  /** What waiting for a response gives. `Undecodable` is an envelope that arrives whole and makes no sense;
      `Disconnected` means that the reading thread is gone, at the end of the stream or with a panic. */
  datatype Reply = Received(envelope: Envelope) | Undecodable | BadFrame | Disconnected | Silence

  /** What happens around one request. */
  datatype World = World(
    now: nat, exited: bool, startable: bool, encodable: bool, writable: bool, sentAt: nat, reply: Reply,
    answeredAt: nat)

  datatype Running = Running(process: nat, requestIds: set<string>, lastActivity: nat)

  /** What a process was used for and how its use ended. Processes are numbered as they are started. */
  datatype Event =
    | Started(process: nat)
    | Wrote(process: nat, requestId: string)
    | Answered(process: nat, requestId: string)
    | Silent(process: nat)
    | Mismatched(process: nat)
    | Stopped(process: nat)
    | Gone(process: nat)

  datatype State = State(running: Option<Running>, starts: nat, trace: seq<Event>)

  datatype Limits = Limits(idleTimeout: nat, requestTimeout: nat)

  const Initial: State := State(None, 0, [])

  // The specification.

  function Note(s: State, e: Event): State {
    s.(trace := s.trace + [e])
  }

  function Halt(s: State): State {
    match s.running
    case None => s
    case Some(r) => Note(s, Stopped(r.process)).(running := None)
  }

  predicate Expired(s: State, now: nat, limits: Limits) {
    s.running.Some? && now >= s.running.value.lastActivity + limits.idleTimeout
  }

  function Reap(s: State, now: nat, limits: Limits): State {
    if Expired(s, now, limits) then Halt(s) else s
  }

  function Discard(s: State, exited: bool): State {
    if s.running.Some? && exited then Note(s, Gone(s.running.value.process)).(running := None) else s
  }

  function Ensure(s: State, w: World): State {
    var d := Discard(s, w.exited);
    if d.running.Some? || !w.startable then d
    else Note(d, Started(d.starts)).(running := Some(Running(d.starts, {}, w.now)), starts := d.starts + 1)
  }

  function Use(s: State, id: string): State
    requires s.running.Some?
  {
    s.(running := Some(s.running.value.(requestIds := s.running.value.requestIds + {id})))
  }

  function Sent(s: State, id: string, at: nat): State
    requires s.running.Some?
  {
    Note(s, Wrote(s.running.value.process, id)).(running := Some(s.running.value.(lastActivity := at)))
  }

  function LeastOf(a: nat, b: nat): nat {
    if a <= b then a else b
  }

  function Heard(s: State, request: Envelope, timeout: nat, w: World): (State, Result<Envelope, SupervisorError>)
    requires s.running.Some?
  {
    var process := s.running.value.process;
    match w.reply
    case BadFrame => (Halt(s), Err(FrameFailed))
    case Disconnected => (Halt(s), Err(Exited))
    case Silence => (Halt(Note(s, Silent(process))), Err(TimedOut(timeout)))
    case Undecodable => (s, Err(InvalidResponse))
    case Received(e) =>
      if e.protocolVersion != WORKER_PROTOCOL_VERSION then (Halt(s), Err(IncompatibleProtocol(e.protocolVersion)))
      else if e.requestId != request.requestId then
        (Halt(Note(s, Mismatched(process))), Err(RequestIdMismatch(request.requestId, e.requestId)))
      else
        match e.message
        case WorkerFailure(m) => (Note(s, Answered(process, e.requestId)), Err(WorkerReported(m)))
        case _ =>
          (Note(s, Answered(process, e.requestId)).(running := Some(s.running.value.(lastActivity := w.answeredAt))),
           Ok(e))
  }

  function Requested(s: State, request: Envelope, timeout: nat, w: World, limits: Limits)
    : (State, Result<Envelope, SupervisorError>)
  {
    if request.protocolVersion != WORKER_PROTOCOL_VERSION then (s, Err(IncompatibleProtocol(request.protocolVersion)))
    else
      var ready := Ensure(Reap(s, w.now, limits), w);
      var id := request.requestId;
      if ready.running.None? then (ready, Err(StartFailed))
      else if id in ready.running.value.requestIds then (ready, Err(DuplicateRequestId(id)))
      else if !w.encodable then (Use(ready, id), Err(InvalidResponse))
      else if !w.writable then (Note(Use(ready, id), Wrote(ready.running.value.process, id)), Err(FrameFailed))
      else Heard(Sent(Use(ready, id), id, w.sentAt), request, LeastOf(timeout, limits.requestTimeout), w)
  }

  function Greeted(s: State, requestId: string, w: World, limits: Limits): (State, Result<nat, SupervisorError>) {
    var request := Envelope(WORKER_PROTOCOL_VERSION, requestId, HandshakeRequest);
    var (after, response) := Requested(s, request, limits.requestTimeout, w, limits);
    match response
    case Err(e) => (after, Err(e))
    case Ok(e) =>
      if !e.message.HandshakeResponse? then (after, Err(InvalidHandshake))
      else if e.message.protocolVersion != WORKER_PROTOCOL_VERSION then
        (Halt(after), Err(IncompatibleProtocol(e.message.protocolVersion)))
      else (after, Ok(e.message.protocolVersion))
  }

  // The supervisor.

  class WorkerSupervisor {
    const limits: Limits
    var running: Option<Running>
    var starts: nat
    ghost var trace: seq<Event>

    ghost function Now(): State
      reads this
    {
      State(running, starts, trace)
    }

    constructor (launch: Limits)
      ensures Now() == Initial && limits == launch
    {
      limits := launch;
      running := None;
      starts := 0;
      trace := [];
    }

    method Stop()
      modifies this
      ensures Now() == Halt(old(Now()))
    {
      if running.Some? {
        trace := trace + [Stopped(running.value.process)];
        running := None;
      }
    }

    method ReapIdle(now: nat) returns (expired: bool)
      modifies this
      ensures Now() == Reap(old(Now()), now, limits)
      ensures expired == Expired(old(Now()), now, limits)
    {
      expired := running.Some? && now >= running.value.lastActivity + limits.idleTimeout;
      if expired {
        Stop();
      }
    }

    method DiscardExited(exited: bool)
      modifies this
      ensures Now() == Discard(old(Now()), exited)
    {
      if running.Some? && exited {
        trace := trace + [Gone(running.value.process)];
        running := None;
      }
    }

    method IsRunning(exited: bool) returns (r: bool)
      modifies this
      ensures Now() == Discard(old(Now()), exited) && r == running.Some?
    {
      DiscardExited(exited);
      r := running.Some?;
    }

    method EnsureRunning(w: World) returns (ok: bool)
      modifies this
      ensures Now() == Ensure(old(Now()), w) && ok == running.Some?
    {
      DiscardExited(w.exited);
      if running.Some? {
        return true;
      }
      if !w.startable {
        return false;
      }
      trace := trace + [Started(starts)];
      running := Some(Running(starts, {}, w.now));
      starts := starts + 1;
      ok := true;
    }

    method RequestWithTimeout(request: Envelope, timeout: nat, w: World) returns (r: Result<Envelope, SupervisorError>)
      modifies this
      ensures (Now(), r) == Requested(old(Now()), request, timeout, w, limits)
    {
      if request.protocolVersion != WORKER_PROTOCOL_VERSION {
        return Err(IncompatibleProtocol(request.protocolVersion));
      }
      var expired := ReapIdle(w.now);
      var ok := EnsureRunning(w);
      if !ok {
        return Err(StartFailed);
      }
      var id := request.requestId;
      var worker := running.value;
      if id in worker.requestIds {
        return Err(DuplicateRequestId(id));
      }
      running := Some(worker.(requestIds := worker.requestIds + {id}));
      if !w.encodable {
        return Err(InvalidResponse);
      }
      trace := trace + [Wrote(worker.process, id)];
      if !w.writable {
        return Err(FrameFailed);
      }
      running := Some(running.value.(lastActivity := w.sentAt));
      match w.reply
      case BadFrame =>
        Stop();
        return Err(FrameFailed);
      case Disconnected =>
        Stop();
        return Err(Exited);
      case Silence =>
        trace := trace + [Silent(worker.process)];
        Stop();
        return Err(TimedOut(LeastOf(timeout, limits.requestTimeout)));
      case Undecodable =>
        return Err(InvalidResponse);
      case Received(e) =>
        if e.protocolVersion != WORKER_PROTOCOL_VERSION {
          Stop();
          return Err(IncompatibleProtocol(e.protocolVersion));
        }
        if e.requestId != id {
          trace := trace + [Mismatched(worker.process)];
          Stop();
          return Err(RequestIdMismatch(id, e.requestId));
        }
        trace := trace + [Answered(worker.process, e.requestId)];
        if e.message.WorkerFailure? {
          return Err(WorkerReported(e.message.message));
        }
        running := Some(running.value.(lastActivity := w.answeredAt));
        r := Ok(e);
    }

    method Handshake(requestId: string, w: World) returns (r: Result<nat, SupervisorError>)
      modifies this
      ensures (Now(), r) == Greeted(old(Now()), requestId, w, limits)
    {
      var response := RequestWithTimeout(Envelope(WORKER_PROTOCOL_VERSION, requestId, HandshakeRequest),
                                         limits.requestTimeout, w);
      if response.Err? {
        return Err(response.error);
      }
      if !response.value.message.HandshakeResponse? {
        return Err(InvalidHandshake);
      }
      var found := response.value.message.protocolVersion;
      if found != WORKER_PROTOCOL_VERSION {
        Stop();
        return Err(IncompatibleProtocol(found));
      }
      r := Ok(found);
    }
  }

  // What every run keeps.

  datatype Call =
    | Request(request: Envelope, timeout: nat, world: World)
    | Handshake(requestId: string, world: World)
    | ReapIdle(now: nat)
    | IsRunning(exited: bool)
    | Stop

  function After(s: State, c: Call, limits: Limits): State {
    match c
    case Request(request, timeout, w) => Requested(s, request, timeout, w, limits).0
    case Handshake(id, w) => Greeted(s, id, w, limits).0
    case ReapIdle(now) => Reap(s, now, limits)
    case IsRunning(exited) => Discard(s, exited)
    case Stop => Halt(s)
  }

  function Run(s: State, calls: seq<Call>, limits: Limits): State
    decreases |calls|
  {
    if calls == [] then s else Run(After(s, calls[0], limits), calls[1..], limits)
  }

  predicate Ends(e: Event) {
    e.Silent? || e.Mismatched? || e.Stopped? || e.Gone?
  }

  /** Events that put a process to use; being stopped is not one. */
  predicate Uses(e: Event) {
    e.Started? || e.Wrote? || e.Answered?
  }

  predicate NoReuse(trace: seq<Event>) {
    forall i, j :: 0 <= i < j < |trace| && Ends(trace[i]) && Uses(trace[j]) ==> trace[i].process != trace[j].process
  }

  predicate NoRepeat(trace: seq<Event>) {
    forall i, j :: 0 <= i < j < |trace| && trace[i].Wrote? ==> trace[i] != trace[j]
  }

  predicate Follows(trace: seq<Event>, j: nat)
    requires j < |trace|
  {
    trace[j].Answered? ==> 0 < j && trace[j - 1] == Wrote(trace[j].process, trace[j].requestId)
  }

  predicate AnswersFollow(trace: seq<Event>) {
    forall j :: 0 <= j < |trace| ==> Follows(trace, j)
  }

  /** A process is put to use only while it is the newest one. */
  predicate OnlyNewest(trace: seq<Event>) {
    forall i, j :: 0 <= i < j < |trace| && trace[i].Started? && Uses(trace[j]) ==> trace[i].process <= trace[j].process
  }

  predicate Accounted(s: State) {
    && (forall e :: e in s.trace ==> e.process < s.starts)
    && (s.running.Some? ==>
         && s.running.value.process + 1 == s.starts
         && (forall e :: e in s.trace && Ends(e) ==> e.process != s.running.value.process)
         && (forall e :: e in s.trace && e.Wrote? && e.process == s.running.value.process ==>
              e.requestId in s.running.value.requestIds))
  }

  predicate Safe(s: State) {
    NoReuse(s.trace) && NoRepeat(s.trace) && AnswersFollow(s.trace) && OnlyNewest(s.trace) && Accounted(s)
  }

  lemma NoReuseAppend(trace: seq<Event>, e: Event)
    requires NoReuse(trace)
    requires Uses(e) ==> forall x :: x in trace && Ends(x) ==> x.process != e.process
    ensures NoReuse(trace + [e])
  {
  }

  lemma NoRepeatAppend(trace: seq<Event>, e: Event)
    requires NoRepeat(trace) && (e.Wrote? ==> e !in trace)
    ensures NoRepeat(trace + [e])
  {
  }

  lemma AnswersFollowAppend(trace: seq<Event>, e: Event)
    requires AnswersFollow(trace)
    requires e.Answered? ==> trace != [] && trace[|trace| - 1] == Wrote(e.process, e.requestId)
    ensures AnswersFollow(trace + [e])
  {
    forall j | 0 <= j < |trace + [e]| ensures Follows(trace + [e], j) {
      if j < |trace| { assert Follows(trace, j); }
    }
  }

  lemma OnlyNewestAppend(trace: seq<Event>, e: Event)
    requires OnlyNewest(trace)
    requires Uses(e) ==> forall x :: x in trace ==> x.process <= e.process
    ensures OnlyNewest(trace + [e])
  {
  }

  lemma EndKeeps(s: State, e: Event)
    requires Safe(s) && Ends(e) && e.process < s.starts
    ensures Safe(Note(s, e).(running := None))
  {
    hide NoReuse, NoRepeat, AnswersFollow, OnlyNewest;
    NoReuseAppend(s.trace, e);
    NoRepeatAppend(s.trace, e);
    AnswersFollowAppend(s.trace, e);
    OnlyNewestAppend(s.trace, e);
  }

  lemma HaltKeeps(s: State)
    requires Safe(s)
    ensures Safe(Halt(s))
  {
    hide NoReuse, NoRepeat, AnswersFollow, OnlyNewest;
    if s.running.Some? {
      EndKeeps(s, Stopped(s.running.value.process));
    }
  }

  lemma DiscardKeeps(s: State, exited: bool)
    requires Safe(s)
    ensures Safe(Discard(s, exited))
  {
    hide NoReuse, NoRepeat, AnswersFollow, OnlyNewest;
    if s.running.Some? && exited {
      EndKeeps(s, Gone(s.running.value.process));
    }
  }

  lemma EnsureKeeps(s: State, w: World)
    requires Safe(s)
    ensures Safe(Ensure(s, w))
  {
    DiscardKeeps(s, w.exited);
    StartKeeps(Discard(s, w.exited), w.now);
  }

  lemma StartKeeps(s: State, now: nat)
    requires Safe(s)
    ensures Safe(Note(s, Started(s.starts)).(running := Some(Running(s.starts, {}, now)), starts := s.starts + 1))
  {
    AnswersFollowAppend(s.trace, Started(s.starts));
  }

  lemma UseKeeps(s: State, id: string)
    requires Safe(s) && s.running.Some?
    ensures Safe(Use(s, id))
  {
    hide NoReuse, NoRepeat, AnswersFollow, OnlyNewest;
  }

  /** An id new to its process is written. */
  lemma WriteKeeps(s: State, id: string, at: nat)
    requires Safe(s) && s.running.Some? && id !in s.running.value.requestIds
    ensures Safe(Sent(Use(s, id), id, at))
    ensures Safe(Note(Use(s, id), Wrote(s.running.value.process, id)))
  {
    var t := Note(Use(s, id), Wrote(s.running.value.process, id));
    assert Safe(t) by {
      NewWrite(s, id);
    }
    hide NoReuse, NoRepeat, AnswersFollow, OnlyNewest;
  }

  lemma NewWrite(s: State, id: string)
    requires Safe(s) && s.running.Some? && id !in s.running.value.requestIds
    ensures Safe(Note(Use(s, id), Wrote(s.running.value.process, id)))
  {
    hide NoReuse, NoRepeat, AnswersFollow, OnlyNewest;
    var e := Wrote(s.running.value.process, id);
    NoReuseAppend(s.trace, e);
    NoRepeatAppend(s.trace, e);
    AnswersFollowAppend(s.trace, e);
    OnlyNewestAppend(s.trace, e);
  }

  lemma AnswerKeeps(s: State, id: string)
    requires Safe(s) && s.running.Some?
    requires s.trace != [] && s.trace[|s.trace| - 1] == Wrote(s.running.value.process, id)
    ensures Safe(Note(s, Answered(s.running.value.process, id)))
  {
    hide NoReuse, NoRepeat, AnswersFollow, OnlyNewest;
    var e := Answered(s.running.value.process, id);
    NoReuseAppend(s.trace, e);
    NoRepeatAppend(s.trace, e);
    AnswersFollowAppend(s.trace, e);
    OnlyNewestAppend(s.trace, e);
  }

  lemma ReplyKeeps(s: State, request: Envelope, timeout: nat, w: World)
    requires Safe(s) && s.running.Some?
    requires s.trace != [] && s.trace[|s.trace| - 1] == Wrote(s.running.value.process, request.requestId)
    ensures Safe(Heard(s, request, timeout, w).0)
  {
    hide NoReuse, NoRepeat, AnswersFollow, OnlyNewest;
    var p := s.running.value.process;
    HaltKeeps(s);
    EndKeeps(s, Silent(p));
    EndKeeps(s, Mismatched(p));
    AnswerKeeps(s, request.requestId);
    EndTwice(s, Silent(p));
    EndTwice(s, Mismatched(p));
  }

  lemma EndTwice(s: State, e: Event)
    requires Safe(s) && s.running.Some? && Ends(e) && e.process == s.running.value.process
    ensures Safe(Halt(Note(s, e)))
  {
    EndKeeps(s, e);
    EndKeeps(Note(s, e).(running := None), Stopped(e.process));
  }

  lemma RequestKeeps(s: State, request: Envelope, timeout: nat, w: World, limits: Limits)
    requires Safe(s)
    ensures Safe(Requested(s, request, timeout, w, limits).0)
  {
    hide Safe, Ensure, Reap, Heard;
    if request.protocolVersion == WORKER_PROTOCOL_VERSION {
      var ready, id := Ensure(Reap(s, w.now, limits), w), request.requestId;
      ReapKeeps(s, w.now, limits);
      EnsureKeeps(Reap(s, w.now, limits), w);
      if ready.running.Some? && id !in ready.running.value.requestIds {
        UseKeeps(ready, id);
        WriteKeeps(ready, id, w.sentAt);
        ReplyKeeps(Sent(Use(ready, id), id, w.sentAt), request, LeastOf(timeout, limits.requestTimeout), w);
      }
    }
  }

  lemma ReapKeeps(s: State, now: nat, limits: Limits)
    requires Safe(s)
    ensures Safe(Reap(s, now, limits))
  {
    hide Safe;
    HaltKeeps(s);
  }

  lemma AfterKeeps(s: State, c: Call, limits: Limits)
    requires Safe(s)
    ensures Safe(After(s, c, limits))
  {
    hide Safe, Requested;
    match c
    case Request(request, timeout, w) => RequestKeeps(s, request, timeout, w, limits);
    case Handshake(id, w) =>
      var request := Envelope(WORKER_PROTOCOL_VERSION, id, HandshakeRequest);
      RequestKeeps(s, request, limits.requestTimeout, w, limits);
      HaltKeeps(Requested(s, request, limits.requestTimeout, w, limits).0);
    case ReapIdle(now) => ReapKeeps(s, now, limits);
    case IsRunning(exited) => DiscardKeeps(s, exited);
    case Stop => HaltKeeps(s);
  }

  /** Over every run of requests, handshakes, timeouts, exits and reaping: a process that was silent, answered out of
      turn, was stopped or died is never used again; no id is written twice to one process; and an accepted answer is
      the very next thing after its own request. */
  lemma {:induction false} EveryRunSafe(s: State, calls: seq<Call>, limits: Limits)
    requires Safe(s)
    ensures Safe(Run(s, calls, limits))
    decreases |calls|
  {
    hide Safe, After;
    if calls != [] {
      AfterKeeps(s, calls[0], limits);
      EveryRunSafe(After(s, calls[0], limits), calls[1..], limits);
    }
  }

  lemma InitialSafe()
    ensures Safe(Initial)
  {
  }

  // What one call says about the calls before and after it.

  lemma ReturnedAnswers(s: State, request: Envelope, timeout: nat, w: World, limits: Limits)
    ensures var (after, r) := Requested(s, request, timeout, w, limits);
      r.Ok? ==>
        && r.value.requestId == request.requestId && r.value.protocolVersion == WORKER_PROTOCOL_VERSION
        && after.running.Some? && |after.trace| >= 2
        && after.trace[|after.trace| - 2..] == [Wrote(after.running.value.process, request.requestId),
                                                Answered(after.running.value.process, request.requestId)]
  {
  }

  /** In every run from the start, a returned envelope has the id of its request and answers the very request just
      written: nothing happened in between, the id had never been written to that process, and the process has never
      been silent, mismatched, stopped or gone. */
  lemma AnswerInRun(calls: seq<Call>, request: Envelope, timeout: nat, w: World, limits: Limits)
    ensures var (after, r) := Requested(Run(Initial, calls, limits), request, timeout, w, limits);
      r.Ok? ==>
        && r.value.requestId == request.requestId && after.running.Some? && |after.trace| >= 2
        && var process, earlier := after.running.value.process, after.trace[..|after.trace| - 2];
        && after.trace == earlier + [Wrote(process, request.requestId), Answered(process, request.requestId)]
        && Wrote(process, request.requestId) !in earlier
        && forall e :: e in after.trace && Ends(e) ==> e.process != process
  {
    hide Run, Requested, NoReuse, AnswersFollow, OnlyNewest;
    var s := Run(Initial, calls, limits);
    InitialSafe();
    EveryRunSafe(Initial, calls, limits);
    RequestKeeps(s, request, timeout, w, limits);
    ReturnedAnswers(s, request, timeout, w, limits);
    var (after, r) := Requested(s, request, timeout, w, limits);
    if r.Ok? {
      var n := |after.trace| - 2;
      assert after.trace == after.trace[..n] + after.trace[n..];
      assert after.trace[n] == after.trace[n..][0];
    }
  }

  /** The answers after which a process is stopped: silence, an exit, a frame that breaks off, or an envelope of another
      request or another protocol. A write that failed is not one. */
  predicate Distrusts(e: SupervisorError, w: World) {
    || e.TimedOut? || e.Exited? || e.RequestIdMismatch? || e.IncompatibleProtocol?
    || (e.FrameFailed? && w.writable)
  }

  lemma StoppedExactly(s: State, request: Envelope, timeout: nat, w: World, limits: Limits)
    requires request.protocolVersion == WORKER_PROTOCOL_VERSION
    ensures var (after, r) := Requested(s, request, timeout, w, limits);
      && (r.Err? ==> (after.running.None? <==> r.error.StartFailed? || Distrusts(r.error, w)))
      && (r.Err? && Distrusts(r.error, w) ==>
            after.trace != [] && after.trace[|after.trace| - 1].Stopped? &&
            (w.encodable && w.writable))
      && (r.Err? && !r.error.StartFailed? && !Distrusts(r.error, w) ==>
            request.requestId in after.running.value.requestIds)
  {
  }

  predicate Extends(trace: seq<Event>, later: seq<Event>, k: nat) {
    && |trace| <= |later| && later[..|trace|] == trace
    && forall i :: |trace| <= i < |later| ==> later[i].process >= k
  }

  predicate StartsFrom(s: State, k: nat) {
    s.starts >= k && (s.running.Some? ==> s.running.value.process >= k)
  }

  lemma RequestExtends(s: State, request: Envelope, timeout: nat, w: World, limits: Limits, k: nat)
    requires StartsFrom(s, k)
    ensures var after := Requested(s, request, timeout, w, limits).0;
      Extends(s.trace, after.trace, k) && StartsFrom(after, k)
  {
    hide Heard;
    if request.protocolVersion == WORKER_PROTOCOL_VERSION {
      var ready, id := Ensure(Reap(s, w.now, limits), w), request.requestId;
      assert Extends(s.trace, ready.trace, k) && StartsFrom(ready, k);
      if ready.running.Some? && id !in ready.running.value.requestIds && w.encodable && w.writable {
        HeardExtends(Sent(Use(ready, id), id, w.sentAt), request, LeastOf(timeout, limits.requestTimeout), w, k);
      }
    }
  }

  lemma HeardExtends(s: State, request: Envelope, timeout: nat, w: World, k: nat)
    requires StartsFrom(s, k) && s.running.Some?
    ensures var after := Heard(s, request, timeout, w).0;
      Extends(s.trace, after.trace, k) && StartsFrom(after, k)
  {
  }

  lemma AfterExtends(s: State, c: Call, limits: Limits, k: nat)
    requires StartsFrom(s, k)
    ensures Extends(s.trace, After(s, c, limits).trace, k) && StartsFrom(After(s, c, limits), k)
  {
    hide Requested;
    match c
    case Request(request, timeout, w) => RequestExtends(s, request, timeout, w, limits, k);
    case Handshake(id, w) =>
      RequestExtends(s, Envelope(WORKER_PROTOCOL_VERSION, id, HandshakeRequest), limits.requestTimeout, w, limits, k);
    case _ =>
  }

  /** Only processes numbered from `k` on are ever heard of again once no earlier one is running. */
  lemma {:induction false} RunExtends(s: State, calls: seq<Call>, limits: Limits, k: nat)
    requires StartsFrom(s, k)
    ensures Extends(s.trace, Run(s, calls, limits).trace, k)
    decreases |calls|
  {
    hide After;
    if calls != [] {
      AfterExtends(s, calls[0], limits, k);
      RunExtends(After(s, calls[0], limits), calls[1..], limits, k);
    }
  }

  /** In every run from the start, the process of a request that ended in distrust is stopped there and then, and
      nothing that happens later, in any calls at all, has to do with it or with any process before it. */
  lemma DistrustedNeverAgain(calls: seq<Call>, request: Envelope, timeout: nat, w: World, later: seq<Call>,
                             limits: Limits)
    requires request.protocolVersion == WORKER_PROTOCOL_VERSION
    ensures var (after, r) := Requested(Run(Initial, calls, limits), request, timeout, w, limits);
      r.Err? && Distrusts(r.error, w) ==>
        && after.running.None? && after.trace != [] && after.trace[|after.trace| - 1].Stopped?
        && (forall e :: e in after.trace ==> e.process < after.starts)
        && Extends(after.trace, Run(after, later, limits).trace, after.starts)
  {
    hide Run, Requested, NoReuse, NoRepeat, AnswersFollow, OnlyNewest;
    var s := Run(Initial, calls, limits);
    InitialSafe();
    EveryRunSafe(Initial, calls, limits);
    RequestKeeps(s, request, timeout, w, limits);
    StoppedExactly(s, request, timeout, w, limits);
    var (after, r) := Requested(s, request, timeout, w, limits);
    if r.Err? && Distrusts(r.error, w) {
      RunExtends(after, later, limits, after.starts);
    }
  }

  /** A request that fails without distrust (an envelope that makes no sense, a failed write, an error the worker
      reports, a repeated id) leaves its process running with the id used up. The next request goes to the same process
      unless that is idle or gone by then: under the same id it is refused and changes nothing, under an id never used
      there it is written. */
  lemma ForgivenRunsOn(s: State, request: Envelope, timeout: nat, w: World, next: Envelope, timeout': nat, w': World,
                       limits: Limits)
    requires request.protocolVersion == next.protocolVersion == WORKER_PROTOCOL_VERSION
    ensures var (after, r) := Requested(s, request, timeout, w, limits);
      r.Err? && !r.error.StartFailed? && !Distrusts(r.error, w) ==>
        && after.running.Some?
        && (!Expired(after, w'.now, limits) && !w'.exited ==>
              var (last, r') := Requested(after, next, timeout', w', limits);
              && (next.requestId == request.requestId ==>
                r' == Err(DuplicateRequestId(next.requestId)) && last == after)
              && (next.requestId !in after.running.value.requestIds && w'.encodable ==>
                    |last.trace| > |after.trace| &&
                    last.trace[|after.trace|] == Wrote(after.running.value.process, next.requestId)))
  {
    StoppedExactly(s, request, timeout, w, limits);
    var (after, r) := Requested(s, request, timeout, w, limits);
    if r.Err? && !r.error.StartFailed? && !Distrusts(r.error, w) && !Expired(after, w'.now, limits) && !w'.exited {
      GoesToRunning(after, next, timeout', w', limits);
    }
  }

  lemma GoesToRunning(s: State, request: Envelope, timeout: nat, w: World, limits: Limits)
    requires request.protocolVersion == WORKER_PROTOCOL_VERSION
    requires s.running.Some? && !Expired(s, w.now, limits) && !w.exited
    ensures var (after, r) := Requested(s, request, timeout, w, limits);
      if request.requestId in s.running.value.requestIds
      then r == Err(DuplicateRequestId(request.requestId)) && after == s
      else w.encodable ==>
        |after.trace| > |s.trace| && after.trace[|s.trace|] == Wrote(s.running.value.process, request.requestId)
  {
  }
}

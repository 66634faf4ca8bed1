/** What a caller of the supervisor is told, and what it finds afterwards, by what the process and the clock did. */
module SupervisorOutcome {
  import opened Prelude
  import opened Canonical
  import opened Supervisor

  /** The process runs still and has not been idle for the timeout. */
  predicate Alive(s: State, w: World, limits: Limits) {
    s.running.Some? && !w.exited && w.now < s.running.value.lastActivity + limits.idleTimeout
  }

  /** There is a process to write the request to, which has not had its id yet. */
  predicate Ready(s: State, request: Envelope, w: World, limits: Limits) {
    && request.protocolVersion == 3
    && if Alive(s, w, limits) then request.requestId !in s.running.value.requestIds else w.startable
  }

  predicate Reaches(s: State, request: Envelope, w: World, limits: Limits) {
    Ready(s, request, w, limits) && w.encodable && w.writable
  }

  predicate Answers(e: Envelope, request: Envelope) {
    e.protocolVersion == 3 && e.requestId == request.requestId
  }

  /** A request is answered exactly when it reaches a process and the reply is an envelope of this protocol and this
      request that reports no failure. Every error tells what failed first. */
  lemma ToldExactly(s: State, request: Envelope, timeout: nat, w: World, limits: Limits, e: Envelope, n: nat,
                    text: string)
    ensures var r := Requested(s, request, timeout, w, limits).1;
      && (r == Ok(e) <==>
            && Reaches(s, request, w, limits) && w.reply == Received(e) && Answers(e, request)
            && !e.message.WorkerFailure?)
      && (r == Err(WorkerReported(text)) <==>
            && Reaches(s, request, w, limits) && w.reply.Received? && Answers(w.reply.envelope, request)
            && w.reply.envelope.message == WorkerFailure(text))
      && (r == Err(StartFailed) <==> request.protocolVersion == 3 && !Alive(s, w, limits) && !w.startable)
      && (r == Err(DuplicateRequestId(text)) <==>
            && request.protocolVersion == 3 && text == request.requestId && Alive(s, w, limits)
            && text in s.running.value.requestIds)
      && (r == Err(InvalidResponse) <==>
            Ready(s, request, w, limits) && (!w.encodable || (w.writable && w.reply.Undecodable?)))
      && (r == Err(FrameFailed) <==>
            Ready(s, request, w, limits) && w.encodable && (!w.writable || w.reply.BadFrame?))
      && (r == Err(Exited) <==> Reaches(s, request, w, limits) && w.reply.Disconnected?)
      && (r == Err(TimedOut(n)) <==>
            && Reaches(s, request, w, limits) && w.reply.Silence?
            && n <= timeout && n <= limits.requestTimeout && (n == timeout || n == limits.requestTimeout))
      && (r == Err(IncompatibleProtocol(n)) <==>
            || (request.protocolVersion != 3 && n == request.protocolVersion)
            || (Reaches(s, request, w, limits) && w.reply.Received? && w.reply.envelope.protocolVersion == n != 3))
      && (r == Err(RequestIdMismatch(request.requestId, text)) <==>
            && Reaches(s, request, w, limits) && w.reply.Received? && w.reply.envelope.protocolVersion == 3
            && w.reply.envelope.requestId == text != request.requestId)
  {
  }

  /** The process that a request goes to: the one that is alive, or else the next one started. */
  function ProcessFor(s: State, w: World, limits: Limits): nat {
    if Alive(s, w, limits) then s.running.value.process else s.starts
  }

  /** What is no envelope for the request: silence, an end, a broken frame, or one of another protocol or request. */
  predicate Distrusted(reply: Reply, request: Envelope) {
    reply.BadFrame? || reply.Disconnected? || reply.Silence? || (reply.Received? && !Answers(reply.envelope, request))
  }

  /** A request leaves no process running exactly when there was none and none could be started, or when its reply was
      not to be trusted; a reply that only cannot be decoded, and a request that cannot be written, stop nothing. */
  lemma StoppedExactly(s: State, request: Envelope, timeout: nat, w: World, limits: Limits)
    requires request.protocolVersion == 3
    ensures Requested(s, request, timeout, w, limits).0.running.None? <==>
      || (!Alive(s, w, limits) && !w.startable)
      || (Reaches(s, request, w, limits) && Distrusted(w.reply, request))
  {
  }

  /** A request of another protocol changes nothing. Any other starts a process exactly when none is alive. One that has
      gone to a process uses up its id there; the clock of idleness starts at the answer, or when there was none that
      was accepted, at the request, or when that could not be written, where it was. */
  lemma RequestLeaves(s: State, request: Envelope, timeout: nat, w: World, limits: Limits)
    ensures var (after, r) := Requested(s, request, timeout, w, limits);
      && (request.protocolVersion != 3 ==> after == s)
      && (request.protocolVersion == 3 ==>
            after.starts == s.starts + if !Alive(s, w, limits) && w.startable then 1 else 0)
      && (Ready(s, request, w, limits) && after.running.Some? ==>
            var before := if Alive(s, w, limits) then s.running.value else Running(s.starts, {}, w.now);
            after.running.value == Running(
              ProcessFor(s, w, limits), before.requestIds + {request.requestId},
              if r.Ok? then w.answeredAt else if w.encodable && w.writable then w.sentAt else before.lastActivity))
      && (r.Err? && r.error.DuplicateRequestId? ==> after == s)
  {
  }

  /** Reaping stops the process exactly when it has been idle for the timeout. */
  lemma ReapedExactly(s: State, now: nat, limits: Limits)
    ensures if s.running.Some? && s.running.value.lastActivity + limits.idleTimeout <= now
            then Reap(s, now, limits) == State(None, s.starts, s.trace + [Stopped(s.running.value.process)])
            else Reap(s, now, limits) == s
  {
  }

  /** A handshake succeeds exactly when it is answered by a handshake of this protocol, and a worker of another protocol
      is stopped. */
  lemma GreetedExactly(s: State, requestId: string, w: World, limits: Limits, n: nat)
    ensures var request := Envelope(3, requestId, HandshakeRequest);
      var (after, r) := Greeted(s, requestId, w, limits);
      && (r == Ok(n) <==>
            && n == 3 && Reaches(s, request, w, limits) && w.reply.Received? && Answers(w.reply.envelope, request)
            && w.reply.envelope.message == HandshakeResponse(3))
      && (r == Err(InvalidHandshake) <==>
            && Reaches(s, request, w, limits) && w.reply.Received? && Answers(w.reply.envelope, request)
            && !w.reply.envelope.message.WorkerFailure? && !w.reply.envelope.message.HandshakeResponse?)
      && (Reaches(s, request, w, limits) && w.reply.Received? && Answers(w.reply.envelope, request)
          && w.reply.envelope.message.HandshakeResponse? && w.reply.envelope.message.protocolVersion != 3 ==>
            r == Err(IncompatibleProtocol(w.reply.envelope.message.protocolVersion)) && after.running.None?)
  {
  }
}

/**
 The device-code exchange of `worker/copilot-device-flow.ts`. The owner runs its turns one at a time on one stored record;
 requests to the provider run between the turns, answer late or never, and are lost with the process.

 A fence is a stored attempt whose request may have been sent. `fence`, `fences`, `ids`, `dispatches` and `admitted` are
 history that no operation reads, but for the assumption that a new attempt's random identifier was never used before.
 */
module DeviceFlow {
  import opened Basics

  const BEGIN_MS: int := 30000

  datatype Phase = BeginUnknown | PollUnknown | Pending | Committed | Cancelled | Expired | Denied | Unknown | Failed

  datatype Attempt = Attempt(id: string, intent: string, actor: string, key: string, domain: string, generation: nat, lineage: string,
                             phase: Phase, expiresAt: int, nextPollAt: int, intervalMs: int, authorized: bool, fence: nat)

  /** The stored owner; `usable` is false for another provider's, a disabled or a revoked one. */
  datatype Record = Record(generation: nat, lineage: string, key: string, usable: bool, attempt: Option<Attempt>)

  /** A decoded answer. */
  datatype Answer =
    | Authorization(expiresInMs: int, intervalMs: int)
    | StillPending(slowDown: bool, providerMs: int)
    | Authorized
    | AccessDenied
    | ExpiredAnswer
    | FailedAnswer

  datatype Exchange = Exchange(attempt: Attempt, startedAt: int, aborted: bool, answer: Option<Answer>, settled: bool)

  datatype Dispatch = Dispatch(id: string, at: int, intervalMs: int, expiresAt: int, poll: bool)

  /** Exchanges are named by the fence they were started for. */
  datatype State = State(record: Option<Record>, inFlight: Option<nat>, exchanges: map<nat, Exchange>, clock: int,
                         fences: nat, ids: set<string>, dispatches: seq<Dispatch>, admitted: seq<nat>)

  predicate Active(p: Phase) {
    p.BeginUnknown? || p.PollUnknown?
  }

  predicate Terminal(p: Phase) {
    !Active(p) && !p.Pending?
  }

  function Ended(a: Attempt, p: Phase): Attempt {
    a.(phase := p, authorized := false)
  }

  predicate Owns(r: Record, a: Attempt) {
    r.generation == a.generation && r.lineage == a.lineage && r.key == a.key && r.usable
  }

  // ----- Turns

  datatype BeginInput = BeginInput(intent: string, actor: string, key: string, domain: string, replacing: Option<string>, expectedGeneration: nat)

  /** What a turn draws from outside: fresh names, whether the owner accepts, whether the request is still wanted. */
  datatype Draw = Draw(id: string, lineage: string, accepted: bool, started: bool, startedAt: int)

  datatype Step =
    | Begin(begin: BeginInput, draw: Draw)
    | Poll(actor: string, key: string, attemptId: string, pollDraw: Draw)
    | Status(actor: string, key: string, attemptId: string)
    | Cancel(actor: string, key: string, attemptId: string)
    | Respond(fence: nat, answer: Answer)
    | Settle(fence: nat, qualified: bool, installed: bool)
    | Abandon(fence: nat, attemptId: string)
    | Retire(fence: nat)
    | Abort(fence: nat)
    | Invalidate
    | Replace(lineage: string, usable: bool, drop: bool)
    | Crash

  function Put(s: State, a: Attempt): State
    requires s.record.Some?
  {
    s.(record := Some(s.record.value.(attempt := Some(a))))
  }

  /** `operation.stop` of an exchange. */
  function Stop(s: State, fence: nat): State {
    if fence in s.exchanges then s.(exchanges := s.exchanges[fence := s.exchanges[fence].(aborted := true)]) else s
  }

  function StopInFlight(s: State): State {
    if s.inFlight.Some? then Stop(s, s.inFlight.value) else s
  }

  /** `start`: the request goes out, unless the attempt has expired meanwhile. */
  function Start(s: State, a: Attempt, d: Draw): State {
    if !d.started || d.startedAt >= a.expiresAt then s
    else
      s.(inFlight := Some(a.fence), exchanges := s.exchanges[a.fence := Exchange(a, d.startedAt, false, None, false)],
         dispatches := s.dispatches + [Dispatch(a.id, d.startedAt, a.intervalMs, a.expiresAt, a.phase.PollUnknown?)], clock := d.startedAt)
  }

  /** `recover`: a fence nobody is working on, or a code that ran out, is given up. */
  function Recover(s: State, a: Attempt): State
    requires s.record.Some?
  {
    if !Owns(s.record.value, a) then s
    else if Active(a.phase) && !Working(s, a) then Put(s, Ended(a, Unknown))
    else if a.phase.Pending? && s.clock >= a.expiresAt then Put(s, Ended(a, Expired))
    else s
  }

  /** An exchange for this attempt is in flight and has not been stopped. */
  predicate Working(s: State, a: Attempt) {
    s.inFlight.Some? && s.inFlight.value in s.exchanges && s.exchanges[s.inFlight.value].attempt.id == a.id && !s.exchanges[s.inFlight.value].aborted
  }

  predicate MayReplace(s: State, b: BeginInput) {
    if s.record.None? || s.record.value.attempt.None? then b.replacing.None?
    else
      var r, a := s.record.value, s.record.value.attempt.value;
      && b.replacing == Some(a.id) && a.actor == b.actor && !Active(a.phase) && !a.phase.Pending?
      && !(a.phase.Unknown? && r.generation == a.generation)
  }

  function BeginTurn(s: State, b: BeginInput, d: Draw): State {
    if s.record.Some? && s.record.value.attempt.Some? && s.record.value.attempt.value.intent == b.intent then
      var a := s.record.value.attempt.value;
      if a.actor != b.actor || a.key != b.key || a.domain != b.domain then s else Recover(s, a)
    else if !MayReplace(s, b) || !d.accepted || d.id in s.ids || (if s.record.Some? then s.record.value.generation else 0) != b.expectedGeneration then s
    else
      var generation := b.expectedGeneration + 1;
      var a := Attempt(d.id, b.intent, b.actor, b.key, b.domain, generation, d.lineage, BeginUnknown, s.clock + BEGIN_MS, 0, 5000, false, s.fences);
      Start(s.(record := Some(Record(generation, d.lineage, b.key, true, Some(a))), fences := s.fences + 1, ids := s.ids + {d.id}), a, d)
  }

  /** The attempt a later command is about, if it may be. */
  predicate Named(s: State, actor: string, key: string, attemptId: string) {
    && s.record.Some? && s.record.value.attempt.Some?
    && var a := s.record.value.attempt.value; a.id == attemptId && a.actor == actor && a.key == key && Owns(s.record.value, a)
  }

  function PollTurn(s: State, actor: string, key: string, attemptId: string, d: Draw): State {
    if !Named(s, actor, key, attemptId) then s
    else
      var a := s.record.value.attempt.value;
      if !a.phase.Pending? then Recover(s, a)
      else if s.clock >= a.expiresAt then Put(s, Ended(a, Expired))
      else if s.clock < a.nextPollAt || !d.accepted then s
      else
        var a' := a.(phase := PollUnknown, fence := s.fences);
        Start(Put(s.(fences := s.fences + 1), a'), a', d)
  }

  function CancelTurn(s: State, actor: string, key: string, attemptId: string): State {
    if !Named(s, actor, key, attemptId) || s.record.value.attempt.value.phase.Committed? then s
    else Put(StopInFlight(s), Ended(s.record.value.attempt.value, Cancelled))
  }

  function Max(a: int, b: int): int { if a < b then b else a }
  function Min(a: int, b: int): int { if a < b then a else b }

  /** The interval a pending answer leaves: slowing down adds five seconds, or what the provider asks. */
  function NextInterval(current: int, slowDown: bool, providerMs: int): int {
    if slowDown then Max(Min(MAX_SAFE, current + 5000), providerMs) else current
  }

  /** The answers a request can decode to. */
  predicate Fits(a: Attempt, answer: Answer) {
    if a.phase.BeginUnknown? then answer.Authorization? && answer.expiresInMs > 0 && answer.intervalMs >= 1000 else !answer.Authorization?
  }

  /** The attempt an answer leads to; None when the turn fails. A token is installed by the owner, which may refuse. */
  function Outcome(a: Attempt, startedAt: int, answer: Answer, now: int, installed: bool): Option<Attempt> {
    if now >= a.expiresAt then Some(Ended(a, Expired))
    else match answer
      case Authorization(expiresInMs, intervalMs) =>
        if startedAt + expiresInMs > MAX_SAFE || now + intervalMs > MAX_SAFE || startedAt + expiresInMs <= now then None
        else Some(a.(phase := Pending, authorized := true, expiresAt := startedAt + expiresInMs, nextPollAt := now + intervalMs, intervalMs := intervalMs))
      case StillPending(slowDown, providerMs) =>
        var interval := NextInterval(a.intervalMs, slowDown, providerMs);
        if now + interval > MAX_SAFE then None else Some(a.(phase := Pending, intervalMs := interval, nextPollAt := now + interval))
      case Authorized =>
        if !installed || !a.phase.PollUnknown? then None else Some(Ended(a, Committed).(generation := a.generation + 1))
      case AccessDenied => Some(Ended(a, Denied))
      case ExpiredAnswer => Some(Ended(a, Expired))
      case FailedAnswer => Some(Ended(a, Failed))
  }

  /** The stored attempt is still, by identifier and phase, the one the exchange was started for. */
  predicate StillFenced(s: State, e: Exchange) {
    && s.record.Some? && s.record.value.attempt.Some?
    && s.record.value.attempt.value.id == e.attempt.id && s.record.value.attempt.value.phase == e.attempt.phase
    && Owns(s.record.value, e.attempt)
  }

  function SettleTurn(s: State, fence: nat, qualified: bool, installed: bool): State {
    if fence !in s.exchanges || s.exchanges[fence].settled || s.exchanges[fence].answer.None? then s
    else
      var e := s.exchanges[fence];
      var s1 := s.(exchanges := s.exchanges[fence := e.(settled := true)]);
      if !qualified || e.aborted || !StillFenced(s, e) then s1
      else
        var after := Outcome(e.attempt, e.startedAt, e.answer.value, s.clock, installed);
        if after.None? then s1
        else
          s1.(record := Some(s.record.value.(generation := if after.value.phase.Committed? then s.record.value.generation + 1 else s.record.value.generation,
                                             attempt := after)),
              admitted := s.admitted + [fence])
  }

  /** The turn after a failure: an attempt left uncertain is given up. The caller is the one that started `attemptId`. */
  function AbandonTurn(s: State, fence: nat, attemptId: string): State {
    var s1 := Stop(s, fence);
    if s.record.None? || s.record.value.attempt.None? then s1
    else
      var a := s.record.value.attempt.value;
      if a.id != attemptId || !Owns(s.record.value, a) || !Active(a.phase) then s1 else Put(s1, Ended(a, Unknown))
  }

  function InvalidateTurn(s: State): State {
    var s1 := StopInFlight(s);
    if s.record.None? || s.record.value.attempt.None? then s1
    else
      var a := s.record.value.attempt.value;
      if a.phase.Pending? || Active(a.phase) || a.phase.Unknown? then Put(s1, Ended(a, Cancelled)) else s1
  }

  /** A generic change of the credential, which invalidates first. */
  function ReplaceTurn(s: State, lineage: string, usable: bool, drop: bool): State {
    var s1 := InvalidateTurn(s);
    if s1.record.None? then s1
    else
      var r := s1.record.value;
      s1.(record := Some(Record(r.generation + 1, lineage, r.key, usable, if drop then None else r.attempt)))
  }

  function Next(s: State, step: Step): State {
    match step
    case Begin(b, d) => BeginTurn(s, b, d)
    case Poll(actor, key, id, d) => PollTurn(s, actor, key, id, d)
    case Status(actor, key, id) => if Named(s, actor, key, id) then Recover(s, s.record.value.attempt.value) else s
    case Cancel(actor, key, id) => CancelTurn(s, actor, key, id)
    case Respond(fence, answer) =>
      if fence in s.exchanges && s.exchanges[fence].answer.None? && !s.exchanges[fence].aborted && Fits(s.exchanges[fence].attempt, answer)
      then s.(exchanges := s.exchanges[fence := s.exchanges[fence].(answer := Some(answer))]) else s
    case Settle(fence, qualified, installed) => SettleTurn(s, fence, qualified, installed)
    case Abandon(fence, id) => AbandonTurn(s, fence, id)
    case Retire(fence) => if s.inFlight == Some(fence) then s.(inFlight := None) else s
    case Abort(fence) => Stop(s, fence)
    case Invalidate => InvalidateTurn(s)
    case Replace(lineage, usable, drop) => ReplaceTurn(s, lineage, usable, drop)
    case Crash => s.(inFlight := None, exchanges := map[])
  }

  /** A step at a time no earlier than the last one; a request goes out no earlier than its turn began. */
  predicate Timely(s: State, step: Step, now: int) {
    s.clock <= now && (step.Begin? ==> now <= step.draw.startedAt) && (step.Poll? ==> now <= step.pollDraw.startedAt)
  }

  function StepAt(s: State, step: Step, now: int): State {
    Next(s.(clock := now), step)
  }
}

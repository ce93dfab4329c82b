/**
 The turns of `CopilotDeviceFlow` in `worker/copilot-device-flow.ts` as methods on the stored record, the exchange in
 flight and the exchanges still running. Each method is one step of `DeviceFlow`.
 */
module DeviceOwner {
  import opened Basics
  import opened DeviceFlow
  import opened DeviceLaws

  class Flow {
    var record: Option<Record>
    var inFlight: Option<nat>
    var exchanges: map<nat, Exchange>
    var fences: nat
    ghost var clock: int
    ghost var ids: set<string>
    ghost var dispatches: seq<Dispatch>
    ghost var admitted: seq<nat>

    ghost function State(): State
      reads this
    {
      DeviceFlow.State(record, inFlight, exchanges, clock, fences, ids, dispatches, admitted)
    }

    constructor (ghost now: nat)
      ensures State() == Initial(now) && Inv(State())
    {
      record, inFlight, exchanges, fences, clock, ids, dispatches, admitted := None, None, map[], 0, now, {}, [], [];
    }

    method SaveAttempt(a: Attempt)
      requires record.Some?
      modifies this`record
      ensures record == Some(old(record).value.(attempt := Some(a)))
    {
      record := Some(record.value.(attempt := Some(a)));
    }

    method StopExchange(fence: nat)
      modifies this`exchanges
      ensures exchanges == DeviceFlow.Stop(old(State()), fence).exchanges
    {
      if fence in exchanges { exchanges := exchanges[fence := exchanges[fence].(aborted := true)]; }
    }

    method StopCurrent()
      modifies this`exchanges
      ensures exchanges == StopInFlight(old(State())).exchanges
    {
      if inFlight.Some? { StopExchange(inFlight.value); }
    }

    /** `start`: registers the exchange before the request is sent. */
    method StartExchange(a: Attempt, d: Draw)
      modifies this`inFlight, this`exchanges, this`dispatches, this`clock
      ensures State() == DeviceFlow.Start(old(State()), a, d)
    {
      if !d.started || d.startedAt >= a.expiresAt { return; }
      inFlight := Some(a.fence);
      exchanges := exchanges[a.fence := Exchange(a, d.startedAt, false, None, false)];
      dispatches := dispatches + [Dispatch(a.id, d.startedAt, a.intervalMs, a.expiresAt, a.phase.PollUnknown?)];
      clock := d.startedAt;
    }

    method RecoverAttempt(a: Attempt, now: int)
      requires record.Some? && now == clock
      modifies this`record
      ensures State() == Recover(old(State()), a)
    {
      if !Owns(record.value, a) { return; }
      if Active(a.phase) && !(inFlight.Some? && inFlight.value in exchanges && exchanges[inFlight.value].attempt.id == a.id && !exchanges[inFlight.value].aborted) {
        SaveAttempt(Ended(a, Unknown));
      } else if a.phase.Pending? && now >= a.expiresAt {
        SaveAttempt(Ended(a, Expired));
      }
    }

    /** The reserving turn of a begin; the owner's fresh identifier was never used before. */
    method BeginTurn(b: BeginInput, d: Draw, now: int)
      requires Inv(State()) && Timely(State(), Begin(b, d), now) && d.id !in ids
      modifies this
      ensures State() == StepAt(old(State()), Begin(b, d), now) && Inv(State())
    {
      hide Inv, Recover, Start;
      StepKeeps(State(), Begin(b, d), now);
      clock := now;
      var attempt := if record.Some? then record.value.attempt else None;
      if attempt.Some? && attempt.value.intent == b.intent {
        var a := attempt.value;
        if a.actor != b.actor || a.key != b.key || a.domain != b.domain { return; }
        RecoverAttempt(a, now);
        return;
      }
      if attempt.Some? {
        var a := attempt.value;
        if b.replacing != Some(a.id) || a.actor != b.actor || a.phase in {Pending, BeginUnknown, PollUnknown}
           || (a.phase.Unknown? && record.value.generation == a.generation) { return; }
      }
      if attempt.None? && b.replacing.Some? { return; }
      if !d.accepted || (if record.Some? then record.value.generation else 0) != b.expectedGeneration { return; }
      var generation := b.expectedGeneration + 1;
      var a := Attempt(d.id, b.intent, b.actor, b.key, b.domain, generation, d.lineage, BeginUnknown, now + BEGIN_MS, 0, 5000, false, fences);
      record, fences := Some(Record(generation, d.lineage, b.key, true, Some(a))), fences + 1;
      ids := ids + {d.id};
      StartExchange(a, d);
    }

    /** The reserving turn of a poll. */
    method PollTurn(actor: string, key: string, attemptId: string, d: Draw, now: int)
      requires Inv(State()) && Timely(State(), Poll(actor, key, attemptId, d), now)
      modifies this
      ensures State() == StepAt(old(State()), Poll(actor, key, attemptId, d), now) && Inv(State())
    {
      hide Inv, Recover, Start;
      StepKeeps(State(), Poll(actor, key, attemptId, d), now);
      clock := now;
      if record.None? || record.value.attempt.None? { return; }
      var a := record.value.attempt.value;
      if a.id != attemptId || a.actor != actor || a.key != key || !Owns(record.value, a) { return; }
      if !a.phase.Pending? { RecoverAttempt(a, now); return; }
      if now >= a.expiresAt { SaveAttempt(Ended(a, Expired)); return; }
      if now < a.nextPollAt || !d.accepted { return; }
      a := a.(phase := PollUnknown, fence := fences);
      fences := fences + 1;
      SaveAttempt(a);
      StartExchange(a, d);
    }

    method StatusTurn(actor: string, key: string, attemptId: string, now: int)
      requires Inv(State()) && clock <= now
      modifies this
      ensures State() == StepAt(old(State()), Status(actor, key, attemptId), now) && Inv(State())
    {
      hide Inv, Recover;
      StepKeeps(State(), Status(actor, key, attemptId), now);
      clock := now;
      if record.None? || record.value.attempt.None? { return; }
      var a := record.value.attempt.value;
      if a.id != attemptId || a.actor != actor || a.key != key || !Owns(record.value, a) { return; }
      RecoverAttempt(a, now);
    }

    method CancelTurn(actor: string, key: string, attemptId: string, now: int)
      requires Inv(State()) && clock <= now
      modifies this
      ensures State() == StepAt(old(State()), Cancel(actor, key, attemptId), now) && Inv(State())
    {
      hide Inv;
      StepKeeps(State(), Cancel(actor, key, attemptId), now);
      clock := now;
      if record.None? || record.value.attempt.None? { return; }
      var a := record.value.attempt.value;
      if a.id != attemptId || a.actor != actor || a.key != key || !Owns(record.value, a) { return; }
      if !a.phase.Committed? {
        StopCurrent();
        SaveAttempt(Ended(a, Cancelled));
      }
    }

    /** The settling turn of an exchange whose answer has arrived. */
    method SettleTurn(fence: nat, qualified: bool, installed: bool, now: int)
      requires Inv(State()) && clock <= now
      requires fence in exchanges && !exchanges[fence].settled && exchanges[fence].answer.Some?
      modifies this
      ensures State() == StepAt(old(State()), Settle(fence, qualified, installed), now) && Inv(State())
    {
      hide Inv, Outcome;
      StepKeeps(State(), Settle(fence, qualified, installed), now);
      clock := now;
      var e := exchanges[fence];
      exchanges := exchanges[fence := e.(settled := true)];
      if !qualified || e.aborted { return; }
      if record.None? || record.value.attempt.None? { return; }
      var current := record.value;
      if current.attempt.value.id != e.attempt.id || current.attempt.value.phase != e.attempt.phase || !Owns(current, e.attempt) { return; }
      var after := Answered(e.attempt, e.startedAt, e.answer.value, now, installed);
      if after.None? { return; }
      if after.value.phase.Committed? { current := current.(generation := current.generation + 1); }
      record := Some(current.(attempt := after));
      admitted := admitted + [fence];
    }

    /** What the settling turn makes of an answer. */
    method Answered(a: Attempt, startedAt: int, answer: Answer, now: int, installed: bool) returns (r: Option<Attempt>)
      ensures r == Outcome(a, startedAt, answer, now, installed)
    {
      if now >= a.expiresAt { return Some(Ended(a, Expired)); }
      match answer
      case Authorization(expiresInMs, intervalMs) =>
        var expiresAt, nextPollAt := startedAt + expiresInMs, now + intervalMs;
        if expiresAt > MAX_SAFE || nextPollAt > MAX_SAFE || expiresAt <= now { return None; }
        r := Some(a.(phase := Pending, authorized := true, expiresAt := expiresAt, nextPollAt := nextPollAt, intervalMs := intervalMs));
      case StillPending(slowDown, providerMs) =>
        var interval := NextInterval(a.intervalMs, slowDown, providerMs);
        if now + interval > MAX_SAFE { return None; }
        r := Some(a.(phase := Pending, intervalMs := interval, nextPollAt := now + interval));
      case Authorized =>
        if !installed || !a.phase.PollUnknown? { return None; }
        r := Some(Ended(a, Committed).(generation := a.generation + 1));
      case AccessDenied => r := Some(Ended(a, Denied));
      case ExpiredAnswer => r := Some(Ended(a, Expired));
      case FailedAnswer => r := Some(Ended(a, Failed));
    }

    /** The turn that follows a failed exchange or a failed settlement. */
    method AbandonTurn(fence: nat, attemptId: string, now: int)
      requires Inv(State()) && clock <= now
      modifies this
      ensures State() == StepAt(old(State()), Abandon(fence, attemptId), now) && Inv(State())
    {
      hide Inv;
      StepKeeps(State(), Abandon(fence, attemptId), now);
      clock := now;
      StopExchange(fence);
      if record.None? || record.value.attempt.None? { return; }
      var present := record.value.attempt.value;
      if present.id != attemptId || !Owns(record.value, present) { return; }
      if Active(present.phase) { SaveAttempt(Ended(present, Unknown)); }
    }

    method InvalidateTurn(now: int)
      requires Inv(State()) && clock <= now
      modifies this
      ensures State() == StepAt(old(State()), Invalidate, now) && Inv(State())
    {
      hide Inv;
      StepKeeps(State(), Invalidate, now);
      clock := now;
      StopCurrent();
      if record.None? || record.value.attempt.None? { return; }
      var a := record.value.attempt.value;
      if a.phase in {Pending, BeginUnknown, PollUnknown, Unknown} { SaveAttempt(Ended(a, Cancelled)); }
    }
  }
}

/**
 Safety of the device-code exchange over every run: late answers, cancellation, invalidation and loss of the process
 included.
 */
module DeviceLaws {
  import opened Basics
  import opened DeviceFlow

  // ----- The invariant

  predicate HasAttempt(s: State) {
    s.record.Some? && s.record.value.attempt.Some?
  }

  function Stored(s: State): Attempt
    requires HasAttempt(s)
  {
    s.record.value.attempt.value
  }

  ghost predicate ExchangesOk(s: State) {
    forall f :: f in s.exchanges ==>
      var e := s.exchanges[f];
      && e.attempt.fence == f < s.fences && Active(e.attempt.phase) && e.attempt.id in s.ids
      && (e.answer.Some? ==> Fits(e.attempt, e.answer.value))
  }

  /** The stored attempt is the latest fence, and only its own exchange can still answer for it. */
  ghost predicate AttemptOk(s: State) {
    HasAttempt(s) ==>
      var a := Stored(s);
      && a.id in s.ids && a.fence + 1 == s.fences && 1000 <= a.intervalMs <= MAX_SAFE
      && (a.phase.Pending? ==> forall f :: f in s.exchanges && s.exchanges[f].attempt.id == a.id ==> s.exchanges[f].settled)
      && (Active(a.phase) ==>
            forall f :: f in s.exchanges && s.exchanges[f].attempt.id == a.id && !s.exchanges[f].settled ==> s.exchanges[f].attempt == a)
  }

  ghost predicate DispatchesOk(s: State) {
    && (forall i :: 0 <= i < |s.dispatches| ==>
          s.dispatches[i].at <= s.clock && s.dispatches[i].id in s.ids && s.dispatches[i].at < s.dispatches[i].expiresAt)
    && (HasAttempt(s) && !Terminal(Stored(s).phase) ==>
          forall i :: 0 <= i < |s.dispatches| && s.dispatches[i].id == Stored(s).id ==>
            && (s.dispatches[i].poll ==> !Stored(s).phase.BeginUnknown? && s.dispatches[i].intervalMs <= Stored(s).intervalMs)
            && (Stored(s).phase.Pending? ==> s.dispatches[i].at + Stored(s).intervalMs <= Stored(s).nextPollAt))
  }

  /** Polls of an attempt come at least the interval in force after anything sent before, and the interval never falls. */
  ghost predicate Spaced(q: seq<Dispatch>) {
    forall i, j :: 0 <= i < j < |q| && q[i].id == q[j].id ==>
      q[j].poll && q[i].at + q[j].intervalMs <= q[j].at && (q[i].poll ==> q[i].intervalMs <= q[j].intervalMs)
  }

  /** Answers are admitted in the order of their fences, at most one for each. */
  ghost predicate AdmittedOk(s: State) {
    && (forall i, j :: 0 <= i < j < |s.admitted| ==> s.admitted[i] < s.admitted[j])
    && (forall i :: 0 <= i < |s.admitted| ==> s.admitted[i] < s.fences && (HasAttempt(s) && Active(Stored(s).phase) ==> s.admitted[i] < Stored(s).fence))
  }

  ghost predicate Inv(s: State) {
    s.clock >= 0 && ExchangesOk(s) && AttemptOk(s) && DispatchesOk(s) && Spaced(s.dispatches) && AdmittedOk(s)
  }

  // ----- What turns keep

  /** The attempt ends; nothing else changes but stopped exchanges. */
  lemma EndKeeps(s: State, p: Phase)
    requires Inv(s) && HasAttempt(s) && Terminal(p)
    ensures Inv(Put(s, Ended(Stored(s), p)))
  {}

  lemma StopKeeps(s: State, fence: nat)
    requires Inv(s)
    ensures Inv(Stop(s, fence)) && Stop(s, fence).record == s.record && Stop(s, fence).ids == s.ids
  {}

  lemma TimeKeeps(s: State, now: int)
    requires Inv(s) && s.clock <= now
    ensures Inv(s.(clock := now))
  {}

  lemma RecoverKeeps(s: State)
    requires Inv(s) && HasAttempt(s)
    ensures Inv(Recover(s, Stored(s)))
  {
    hide Inv;
    EndKeeps(s, Unknown);
    EndKeeps(s, Expired);
  }

  /** A new fence, before its request goes out. */
  predicate Fenced(s: State, a: Attempt) {
    && HasAttempt(s) && Stored(s) == a && Active(a.phase)
    && (forall f :: f in s.exchanges ==> f != a.fence && (s.exchanges[f].attempt.id == a.id ==> s.exchanges[f].settled))
  }

  lemma StartKeeps(s: State, a: Attempt, d: Draw)
    requires Inv(s) && Fenced(s, a) && s.clock <= d.startedAt
    requires forall i :: 0 <= i < |s.dispatches| && s.dispatches[i].id == a.id ==> a.phase.PollUnknown? && s.dispatches[i].at + a.intervalMs <= d.startedAt
    ensures Inv(Start(s, a, d))
  {
    var s' := Start(s, a, d);
    if s' != s {
      var q := s'.dispatches;
      forall i, j | 0 <= i < j < |q| && q[i].id == q[j].id
        ensures q[j].poll && q[i].at + q[j].intervalMs <= q[j].at && (q[i].poll ==> q[i].intervalMs <= q[j].intervalMs)
      {
        assert q[i] == s.dispatches[i];
        assert j < |s.dispatches| ==> q[j] == s.dispatches[j];
      }
    }
  }

  lemma BeginKeeps(s: State, b: BeginInput, d: Draw)
    requires Inv(s) && s.clock <= d.startedAt
    ensures Inv(BeginTurn(s, b, d))
  {
    hide Recover, Start;
    if s.record.Some? && s.record.value.attempt.Some? && s.record.value.attempt.value.intent == b.intent {
      RecoverKeeps(s);
    } else {
      var generation := b.expectedGeneration + 1;
      var a := Attempt(d.id, b.intent, b.actor, b.key, b.domain, generation, d.lineage, BeginUnknown, s.clock + BEGIN_MS, 0, 5000, false, s.fences);
      var s1 := s.(record := Some(Record(generation, d.lineage, b.key, true, Some(a))), fences := s.fences + 1, ids := s.ids + {d.id});
      if d.id !in s.ids {
        assert Inv(s1);
        StartKeeps(s1, a, d);
      }
    }
  }

  lemma PollKeeps(s: State, actor: string, key: string, id: string, d: Draw)
    requires Inv(s) && s.clock <= d.startedAt
    ensures Inv(PollTurn(s, actor, key, id, d))
  {
    hide Recover, Start;
    if Named(s, actor, key, id) {
      var a := Stored(s);
      RecoverKeeps(s);
      EndKeeps(s, Expired);
      if a.phase.Pending? && a.nextPollAt <= s.clock < a.expiresAt {
        var a' := a.(phase := PollUnknown, fence := s.fences);
        var s1 := Put(s.(fences := s.fences + 1), a');
        assert Inv(s1);
        StartKeeps(s1, a', d);
      }
    }
  }

  /** A result is admitted only into the very fence it was asked for. */
  lemma AdmitsOwnFence(s: State, fence: nat)
    requires Inv(s) && fence in s.exchanges && !s.exchanges[fence].settled && StillFenced(s, s.exchanges[fence])
    ensures Stored(s) == s.exchanges[fence].attempt && Stored(s).fence == fence
  {}

  lemma SettleKeeps(s: State, fence: nat, qualified: bool, installed: bool)
    requires Inv(s)
    ensures Inv(SettleTurn(s, fence, qualified, installed))
  {
    hide Outcome;
    var s' := SettleTurn(s, fence, qualified, installed);
    if fence in s.exchanges && !s.exchanges[fence].settled && s.exchanges[fence].answer.Some? {
      var e := s.exchanges[fence];
      var s1 := s.(exchanges := s.exchanges[fence := e.(settled := true)]);
      assert Inv(s1);
      var after := Outcome(e.attempt, e.startedAt, e.answer.value, s.clock, installed);
      if qualified && !e.aborted && StillFenced(s, e) && after.Some? {
        AdmitsOwnFence(s, fence);
        OutcomeShape(e.attempt, e.startedAt, e.answer.value, s.clock, installed);
        AdmitKeeps(s, s1, fence, after.value);
      }
    }
  }

  lemma OutcomeShape(a: Attempt, startedAt: int, answer: Answer, now: int, installed: bool)
    requires Active(a.phase) && Fits(a, answer) && Outcome(a, startedAt, answer, now, installed).Some?
    requires 1000 <= a.intervalMs <= MAX_SAFE && now >= 0
    ensures var a' := Outcome(a, startedAt, answer, now, installed).value;
            && a'.id == a.id && a'.fence == a.fence && !Active(a'.phase) && 1000 <= a'.intervalMs <= MAX_SAFE
            && (a'.phase.Pending? ==> a'.nextPollAt == now + a'.intervalMs && (a.phase.PollUnknown? ==> a.intervalMs <= a'.intervalMs))
            && (a.phase.PollUnknown? ==> a.intervalMs <= a'.intervalMs)
            && a'.key == a.key && a'.actor == a.actor && a'.lineage == a.lineage && a'.domain == a.domain
            && (a'.authorized ==> a'.phase.Pending?)
            && (a'.phase.Committed? <==> now < a.expiresAt && answer.Authorized? && installed && a.phase.PollUnknown?)
            && (a'.phase.Committed? ==> a'.generation == a.generation + 1) && (!a'.phase.Committed? ==> a'.generation == a.generation)
            && (a'.phase.Pending? ==> now < a.expiresAt && now < a'.expiresAt && (answer.Authorization? || answer.StillPending?))
            && (now >= a.expiresAt ==> a'.phase.Expired?)
            && a'.expiresAt == (if now < a.expiresAt && answer.Authorization? then startedAt + answer.expiresInMs else a.expiresAt)
            && (now < a.expiresAt ==>
                  && (answer.Authorization? || answer.StillPending? <==> a'.phase.Pending?) && (answer.AccessDenied? <==> a'.phase.Denied?)
                  && (answer.ExpiredAnswer? <==> a'.phase.Expired?) && (answer.FailedAnswer? <==> a'.phase.Failed?)
                  && (answer.Authorization? ==> a'.intervalMs == answer.intervalMs)
                  && (answer.StillPending? && !answer.slowDown ==> a'.intervalMs == a.intervalMs))
  {}

  lemma AdmitKeeps(s: State, s1: State, fence: nat, a': Attempt)
    requires Inv(s) && Inv(s1) && fence in s.exchanges && !s.exchanges[fence].settled && StillFenced(s, s.exchanges[fence])
    requires s1 == s.(exchanges := s.exchanges[fence := s.exchanges[fence].(settled := true)])
    requires var a := s.exchanges[fence].attempt;
             && a'.id == a.id && a'.fence == a.fence && !Active(a'.phase) && 1000 <= a'.intervalMs <= MAX_SAFE
             && (a'.phase.Pending? ==> a'.nextPollAt == s.clock + a'.intervalMs)
             && (a.phase.PollUnknown? ==> a.intervalMs <= a'.intervalMs)
    ensures forall r: Record :: Inv(s1.(record := Some(r.(attempt := Some(a'))), admitted := s.admitted + [fence]))
  {
    AdmitsOwnFence(s, fence);
    forall r: Record ensures Inv(s1.(record := Some(r.(attempt := Some(a'))), admitted := s.admitted + [fence])) {
      var s' := s1.(record := Some(r.(attempt := Some(a'))), admitted := s.admitted + [fence]);
      assert AttemptOk(s');
      assert AdmittedOk(s');
    }
  }

  lemma OtherKeeps(s: State, step: Step)
    requires Inv(s) && !step.Begin? && !step.Poll? && !step.Settle?
    ensures Inv(Next(s, step))
  {
    hide Inv, Recover, Stop;
    match step
    case Status(actor, key, id) => if Named(s, actor, key, id) { RecoverKeeps(s); }
    case Cancel(actor, key, id) => StopEndKeeps(s, s.inFlight, Cancelled);
    case Respond(fence, answer) => RespondKeeps(s, fence, answer);
    case Abandon(fence, id) => StopEndKeeps(s, Some(fence), Unknown);
    case Retire(fence) => RetireKeeps(s);
    case Abort(fence) => StopKeeps(s, fence);
    case Invalidate => InvalidateKeeps(s);
    case Replace(lineage, usable, drop) =>
      InvalidateKeeps(s);
      ReplaceKeeps(InvalidateTurn(s), lineage, usable, drop);
    case Crash => CrashKeeps(s);
  }

  lemma StopEndKeeps(s: State, fence: Option<nat>, p: Phase)
    requires Inv(s) && Terminal(p)
    ensures var s1 := if fence.Some? then Stop(s, fence.value) else s;
            && Inv(s1) && s1.record == s.record && (HasAttempt(s) ==> Inv(Put(s1, Ended(Stored(s), p))))
  {
    hide Inv, Stop;
    var s1 := if fence.Some? then Stop(s, fence.value) else s;
    if fence.Some? { StopKeeps(s, fence.value); }
    if HasAttempt(s) { EndKeeps(s1, p); }
  }

  lemma InvalidateKeeps(s: State)
    requires Inv(s)
    ensures Inv(InvalidateTurn(s)) && (HasAttempt(InvalidateTurn(s)) ==> Terminal(Stored(InvalidateTurn(s)).phase))
  {
    hide Inv, Stop;
    StopEndKeeps(s, s.inFlight, Cancelled);
  }

  lemma ReplaceKeeps(s: State, lineage: string, usable: bool, drop: bool)
    requires Inv(s) && (HasAttempt(s) ==> Terminal(Stored(s).phase))
    ensures s.record.Some? ==>
              var r := s.record.value;
              Inv(s.(record := Some(Record(r.generation + 1, lineage, r.key, usable, if drop then None else r.attempt))))
  {}

  lemma RespondKeeps(s: State, fence: nat, answer: Answer)
    requires Inv(s)
    ensures Inv(Next(s, Respond(fence, answer)))
  {}

  lemma RetireKeeps(s: State)
    requires Inv(s)
    ensures Inv(s.(inFlight := None))
  {}

  lemma CrashKeeps(s: State)
    requires Inv(s)
    ensures Inv(s.(inFlight := None, exchanges := map[]))
  {}

  /** Every step keeps the invariant. */
  lemma StepKeeps(s: State, step: Step, now: int)
    requires Inv(s) && Timely(s, step, now)
    ensures Inv(StepAt(s, step, now))
  {
    hide Inv, BeginTurn, PollTurn, SettleTurn;
    TimeKeeps(s, now);
    var s1 := s.(clock := now);
    match step
    case Begin(b, d) => BeginKeeps(s1, b, d);
    case Poll(actor, key, id, d) => PollKeeps(s1, actor, key, id, d);
    case Settle(fence, qualified, installed) => SettleKeeps(s1, fence, qualified, installed);
    case _ => OtherKeeps(s1, step);
  }

  // ----- Terminal attempts

  /** The attempt `id` is over: replaced, or in a terminal phase, and committed only if `committed`. */
  predicate Over(s: State, id: string, committed: bool) {
    id in s.ids && (HasAttempt(s) && Stored(s).id == id ==> Terminal(Stored(s).phase) && (Stored(s).phase.Committed? ==> committed))
  }

  /** A terminal attempt never becomes pending, polling or committed again. */
  lemma OverStays(s: State, step: Step, now: int, id: string, committed: bool)
    requires Inv(s) && Over(s, id, committed)
    ensures Over(StepAt(s, step, now), id, committed)
  {
    hide ExchangesOk, AttemptOk, DispatchesOk, Spaced, AdmittedOk, Next, BeginTurn, PollTurn, SettleTurn;
    var s1 := s.(clock := now);
    NextIs(s1, step);
    match step
    case Begin(b, d) => OverBegin(s1, b, d, id, committed);
    case Poll(actor, key, attemptId, d) => OverPoll(s1, actor, key, attemptId, d, id, committed);
    case Settle(fence, qualified, installed) =>
      SettledElsewhere(s1, fence, qualified, installed);
      if fence in s.exchanges { OverSettle(s, s1, fence, qualified, installed, id, committed); }
    case _ => OtherShape(s1, step);
  }

  lemma OverBegin(s: State, b: BeginInput, d: Draw, id: string, committed: bool)
    requires Over(s, id, committed)
    ensures Over(BeginTurn(s, b, d), id, committed)
  {}

  lemma OverPoll(s: State, actor: string, key: string, attemptId: string, d: Draw, id: string, committed: bool)
    requires Over(s, id, committed)
    ensures Over(PollTurn(s, actor, key, attemptId, d), id, committed)
  {}

  lemma OverSettle(s: State, s1: State, fence: nat, qualified: bool, installed: bool, id: string, committed: bool)
    requires Inv(s) && s1 == s.(clock := s1.clock) && Over(s1, id, committed) && fence in s.exchanges
    ensures Over(SettleTurn(s1, fence, qualified, installed), id, committed)
  {
    hide DispatchesOk, Spaced, AdmittedOk, Outcome;
    assert Active(s.exchanges[fence].attempt.phase);
    SettledElsewhere(s1, fence, qualified, installed);
  }

  /** Settling replaces only the attempt that is still in the phase of the exchange. */
  lemma SettledElsewhere(s: State, fence: nat, qualified: bool, installed: bool)
    ensures SettleTurn(s, fence, qualified, installed).ids == s.ids && (fence !in s.exchanges ==> SettleTurn(s, fence, qualified, installed) == s)
    ensures SettleTurn(s, fence, qualified, installed).record != s.record ==>
              fence in s.exchanges && HasAttempt(s) && Stored(s).id == s.exchanges[fence].attempt.id && Stored(s).phase == s.exchanges[fence].attempt.phase
              && HasAttempt(SettleTurn(s, fence, qualified, installed)) && Stored(SettleTurn(s, fence, qualified, installed)).id == Stored(s).id
  {}

  // ----- Runs

  datatype Timed = Timed(step: Step, at: int)

  /** The state after a run; steps that are not timely do not happen. */
  ghost function Run(s: State, trace: seq<Timed>): State
    decreases |trace|
  {
    if trace == [] then s
    else
      var mid, last := Run(s, trace[..|trace| - 1]), trace[|trace| - 1];
      if Timely(mid, last.step, last.at) then StepAt(mid, last.step, last.at) else mid
  }

  function Initial(clock: nat): State {
    State(None, None, map[], clock, 0, {}, [], [])
  }

  lemma {:induction false} RunKeeps(s: State, trace: seq<Timed>)
    requires Inv(s)
    ensures Inv(Run(s, trace))
    decreases |trace|
  {
    hide Inv, StepAt, Timely;
    if trace != [] {
      var mid, last := Run(s, trace[..|trace| - 1]), trace[|trace| - 1];
      RunKeeps(s, trace[..|trace| - 1]);
      if Timely(mid, last.step, last.at) { StepKeeps(mid, last.step, last.at); }
    }
  }

  /** From the start on, each fence admits at most one answer, in order. */
  lemma FencesAdmitOnce(clock: nat, trace: seq<Timed>, i: nat, j: nat)
    requires i < j < |Run(Initial(clock), trace).admitted|
    ensures Run(Initial(clock), trace).admitted[i] < Run(Initial(clock), trace).admitted[j]
  {
    hide Run;
    RunKeeps(Initial(clock), trace);
  }

  /** Polls of one attempt keep the interval in force, and nothing is sent at or after its expiry. */
  lemma PollsAreSpaced(clock: nat, trace: seq<Timed>, i: nat, j: nat)
    requires i < j < |Run(Initial(clock), trace).dispatches|
    ensures var q := Run(Initial(clock), trace).dispatches;
            && q[i].at < q[i].expiresAt && q[j].at < q[j].expiresAt
            && (q[i].id == q[j].id ==> q[j].poll && q[i].at + q[j].intervalMs <= q[j].at && (q[i].poll ==> q[i].intervalMs <= q[j].intervalMs))
  {
    hide Run;
    RunKeeps(Initial(clock), trace);
  }

  lemma {:induction false} TerminalForever(s: State, trace: seq<Timed>, id: string, committed: bool)
    requires Inv(s) && Over(s, id, committed)
    ensures Over(Run(s, trace), id, committed)
    decreases |trace|
  {
    hide Inv, StepAt, Timely, Over;
    if trace != [] {
      var mid, last := Run(s, trace[..|trace| - 1]), trace[|trace| - 1];
      TerminalForever(s, trace[..|trace| - 1], id, committed);
      RunKeeps(s, trace[..|trace| - 1]);
      if Timely(mid, last.step, last.at) { OverStays(mid, last.step, last.at, id, committed); }
    }
  }

  /** A token is installed only from the poll fence that asked for it, before its code expires. */
  lemma CommitsFromOwnPoll(s: State, step: Step, now: int)
    requires Inv(s) && Timely(s, step, now)
    requires HasAttempt(StepAt(s, step, now)) && Stored(StepAt(s, step, now)).phase.Committed?
    requires !(HasAttempt(s) && Stored(s).phase.Committed?)
    ensures step.Settle? && step.fence in s.exchanges && s.exchanges[step.fence].answer == Some(Authorized)
    ensures HasAttempt(s) && Stored(s).phase.PollUnknown? && Stored(s) == s.exchanges[step.fence].attempt && now < Stored(s).expiresAt
    ensures StepAt(s, step, now).record.value.generation == s.record.value.generation + 1
  {
    hide DispatchesOk, Spaced, AdmittedOk;
    if step.Settle? && step.fence in s.exchanges && !s.exchanges[step.fence].settled && StillFenced(s.(clock := now), s.exchanges[step.fence]) {
      TimeKeeps(s, now);
      AdmitsOwnFence(s, step.fence);
    }
  }

  // ----- Slowing down

  /** From the `n`-th dispatch on, nothing is sent for `id` before `at` or at a shorter interval. */
  ghost predicate Heeds(s: State, id: string, n: nat, at: int, interval: int) {
    && id in s.ids && n <= |s.dispatches|
    && (forall j :: n <= j < |s.dispatches| && s.dispatches[j].id == id ==> s.dispatches[j].at >= at && s.dispatches[j].intervalMs >= interval)
    && (HasAttempt(s) && Stored(s).id == id && !Terminal(Stored(s).phase) ==>
          && !Stored(s).phase.BeginUnknown? && Stored(s).intervalMs >= interval
          && (Stored(s).phase.Pending? ==> Stored(s).nextPollAt >= at) && (Stored(s).phase.PollUnknown? ==> s.clock >= at))
  }

  lemma HeedsSettle(s: State, fence: nat, qualified: bool, installed: bool, id: string, n: nat, at: int, interval: int)
    requires Inv(s) && Heeds(s, id, n, at, interval)
    ensures Heeds(SettleTurn(s, fence, qualified, installed), id, n, at, interval)
  {
    hide DispatchesOk, Spaced, AdmittedOk, Outcome;
    if fence in s.exchanges && !s.exchanges[fence].settled && s.exchanges[fence].answer.Some? && StillFenced(s, s.exchanges[fence]) {
      var e := s.exchanges[fence];
      AdmitsOwnFence(s, fence);
      if Outcome(e.attempt, e.startedAt, e.answer.value, s.clock, installed).Some? {
        OutcomeShape(e.attempt, e.startedAt, e.answer.value, s.clock, installed);
      }
    }
  }

  lemma HeedsStep(s: State, step: Step, now: int, id: string, n: nat, at: int, interval: int)
    requires Inv(s) && Timely(s, step, now) && Heeds(s, id, n, at, interval)
    ensures Heeds(StepAt(s, step, now), id, n, at, interval)
  {
    hide Inv, SettleTurn, BeginTurn, PollTurn, Next;
    TimeKeeps(s, now);
    var s1 := s.(clock := now);
    NextIs(s1, step);
    match step
    case Begin(b, d) => HeedsBegin(s1, b, d, id, n, at, interval);
    case Poll(actor, key, attemptId, d) => HeedsPoll(s1, actor, key, attemptId, d, id, n, at, interval);
    case Settle(fence, qualified, installed) => HeedsSettle(s1, fence, qualified, installed, id, n, at, interval);
    case _ => OtherShape(s1, step);
  }

  lemma NextIs(s: State, step: Step)
    ensures step.Begin? ==> Next(s, step) == BeginTurn(s, step.begin, step.draw)
    ensures step.Poll? ==> Next(s, step) == PollTurn(s, step.actor, step.key, step.attemptId, step.pollDraw)
    ensures step.Settle? ==> Next(s, step) == SettleTurn(s, step.fence, step.qualified, step.installed)
  {
    hide BeginTurn, PollTurn, SettleTurn;
  }

  /** The other steps send nothing, and keep the stored attempt or end it. */
  lemma OtherShape(s: State, step: Step)
    requires !step.Begin? && !step.Poll? && !step.Settle?
    ensures var s' := Next(s, step);
            && s'.dispatches == s.dispatches && s'.ids == s.ids && s'.clock == s.clock
            && (HasAttempt(s') ==> HasAttempt(s) && Stored(s').id == Stored(s).id && (Stored(s') == Stored(s) || (Terminal(Stored(s').phase) && !Stored(s').phase.Committed?)))
  {
    hide BeginTurn, PollTurn, SettleTurn, Recover, StopInFlight, Stop;
    StopShape(s);
    if step.Abandon? || step.Abort? { StoppedShape(s, step.fence); }
    if step.Status? && HasAttempt(s) { RecoverShape(s); }
  }

  lemma StoppedShape(s: State, fence: nat)
    ensures Stop(s, fence) == s.(exchanges := Stop(s, fence).exchanges)
  {}

  lemma StopShape(s: State)
    ensures StopInFlight(s) == s.(exchanges := StopInFlight(s).exchanges)
  {}

  lemma RecoverShape(s: State)
    requires HasAttempt(s)
    ensures Recover(s, Stored(s)) == s || Recover(s, Stored(s)) == Put(s, Ended(Stored(s), Unknown)) || Recover(s, Stored(s)) == Put(s, Ended(Stored(s), Expired))
  {}

  lemma HeedsBegin(s: State, b: BeginInput, d: Draw, id: string, n: nat, at: int, interval: int)
    requires Heeds(s, id, n, at, interval)
    ensures Heeds(BeginTurn(s, b, d), id, n, at, interval)
  {}

  lemma HeedsPoll(s: State, actor: string, key: string, attemptId: string, d: Draw, id: string, n: nat, at: int, interval: int)
    requires Heeds(s, id, n, at, interval) && s.clock <= d.startedAt
    ensures Heeds(PollTurn(s, actor, key, attemptId, d), id, n, at, interval)
  {}

  lemma {:induction false} HeedsRun(s: State, trace: seq<Timed>, id: string, n: nat, at: int, interval: int)
    requires Inv(s) && Heeds(s, id, n, at, interval)
    ensures Heeds(Run(s, trace), id, n, at, interval)
    decreases |trace|
  {
    hide Inv, StepAt, Timely, Heeds;
    if trace != [] {
      var mid, last := Run(s, trace[..|trace| - 1]), trace[|trace| - 1];
      HeedsRun(s, trace[..|trace| - 1], id, n, at, interval);
      RunKeeps(s, trace[..|trace| - 1]);
      if Timely(mid, last.step, last.at) { HeedsStep(mid, last.step, last.at, id, n, at, interval); }
    }
  }

  /** After an answer that asks to slow down, whatever happens, every later poll of the attempt comes at least five seconds more
      than the old interval after it, and so does every poll after that. */
  lemma SlowDownIsHeeded(s: State, fence: nat, installed: bool, now: int, trace: seq<Timed>, j: nat)
    requires Inv(s) && s.clock <= now && fence in s.exchanges && s.exchanges[fence].answer.Some?
    requires s.exchanges[fence].answer.value.StillPending? && s.exchanges[fence].answer.value.slowDown
    requires var s1 := StepAt(s, Settle(fence, true, installed), now);
             s1.admitted != s.admitted && |s1.dispatches| <= j < |Run(s1, trace).dispatches|
    ensures var d, a := Run(StepAt(s, Settle(fence, true, installed), now), trace).dispatches[j], s.exchanges[fence].attempt;
            d.id == a.id ==> d.at >= now + Min(MAX_SAFE, a.intervalMs + 5000) && d.intervalMs >= Min(MAX_SAFE, a.intervalMs + 5000)
  {
    hide Run, ExchangesOk, DispatchesOk, Spaced, AdmittedOk;
    var s1 := StepAt(s, Settle(fence, true, installed), now);
    var a := s.exchanges[fence].attempt;
    var interval := Min(MAX_SAFE, a.intervalMs + 5000);
    StepKeeps(s, Settle(fence, true, installed), now);
    KnownId(s, fence);
    assert Heeds(s1, a.id, |s1.dispatches|, now + interval, interval);
    HeedsRun(s1, trace, a.id, |s1.dispatches|, now + interval, interval);
  }

  lemma KnownId(s: State, fence: nat)
    requires Inv(s) && fence in s.exchanges
    ensures s.exchanges[fence].attempt.id in s.ids
  {}

  // ----- Whose attempt it is

  /** Nobody but the one who began an attempt, naming it and its key, can poll, read or cancel it, or begin another in its place. */
  lemma OnlyItsActor(s: State, step: Step)
    requires HasAttempt(s)
    requires var a := Stored(s);
             || (step.Poll? && (step.actor != a.actor || step.key != a.key || step.attemptId != a.id))
             || (step.Status? && (step.actor != a.actor || step.key != a.key || step.attemptId != a.id))
             || (step.Cancel? && (step.actor != a.actor || step.key != a.key || step.attemptId != a.id))
             || (step.Begin? && step.begin.actor != a.actor)
    ensures Next(s, step) == s
  {
    hide Recover, Start;
  }

  /** An answer whose caller is no longer qualified, or whose exchange was stopped, leaves the record as it was. */
  lemma UnqualifiedIsNothing(s: State, fence: nat, qualified: bool, installed: bool)
    requires !qualified || (fence in s.exchanges && s.exchanges[fence].aborted)
    ensures SettleTurn(s, fence, qualified, installed).record == s.record
  {
    hide Outcome;
  }

  /** An attempt gives way to another only when it is over, and not while it may have been authorized for the same generation; whoever
      began it names it. */
  lemma ReplacedWhenOver(s: State, b: BeginInput, d: Draw)
    requires HasAttempt(s) && d.id != Stored(s).id && HasAttempt(BeginTurn(s, b, d)) && Stored(BeginTurn(s, b, d)).id != Stored(s).id
    ensures Terminal(Stored(s).phase) && !(Stored(s).phase.Unknown? && s.record.value.generation == Stored(s).generation)
    ensures b.replacing == Some(Stored(s).id) && b.actor == Stored(s).actor && b.intent != Stored(s).intent && b.expectedGeneration == s.record.value.generation
    ensures var a := Stored(BeginTurn(s, b, d)); a.phase.BeginUnknown? && a.actor == b.actor && a.key == b.key && a.generation == s.record.value.generation + 1
  {
    hide Owns, Working;
  }
}

/**
 The ledger's own words over every run of the background table: what a leg holds is what the ledger answered to its
 reservation, so that requests go out only on budgets it allowed, and nothing settles without it that it did not refuse.
 */
module BackgroundLedger {
  import opened Basics
  import opened BackgroundRecords
  import opened BackgroundLaws
  import opened BackgroundRuns

  // ----- The answers a leg stands for

  /** A leg of the job `id`, or of the upload nested in it. */
  datatype Slot = Slot(id: string, upload: bool, leg: nat)

  /** The ledger's answers to the reservation of a leg, and whether it has acknowledged its settlement. */
  datatype Said = Said(answers: seq<bool>, settled: bool)

  const NOTHING := Said([], false)

  /** What a leg claims the ledger said. */
  function Word(l: Leg): Said {
    Said(if l.reserve.Accepted? then [true] else if l.reserve.Denied? then [false] else [], l.acknowledged)
  }

  function Words(r: Record, leg: nat): Option<Said> {
    if r.state.Live? && leg < |r.state.work.legs| then Some(Word(r.state.work.legs[leg])) else None
  }

  /** What a row says of a leg, while that part of it lives. */
  function Heard(r: Record, upload: bool, leg: nat): Option<Said> {
    if !upload then Words(r, leg) else if r.input.Some? then Words(r.input.value.upload, leg) else None
  }

  /** The answer an operation brings for a leg. */
  function Told(op: RowOp, upload: bool, leg: nat): seq<bool> {
    if op.Reserved? && op.upload == upload && op.leg == leg then [op.allowed] else []
  }

  /** The operation brings the acknowledgement of a leg's settlement. */
  predicate Settles(op: RowOp, upload: bool, leg: nat) {
    op.Acknowledge? && op.upload == upload && op.sink == Ledger(leg) && op.settlement.Settled?
  }

  /** `after` is what was said `before`, and what the operation brings. */
  predicate Follows(before: Said, op: RowOp, upload: bool, leg: nat, after: Said) {
    after.answers == before.answers + Told(op, upload, leg) && (after.settled ==> before.settled || Settles(op, upload, leg))
  }

  /** If the part still lives it did before, and its legs have the same words. */
  predicate SameWords(p: Record, p': Record) {
    p'.state.Live? ==>
      && p.state.Live? && |p'.state.work.legs| == |p.state.work.legs|
      && forall i :: 0 <= i < |p.state.work.legs| ==>
           p'.state.work.legs[i].reserve == p.state.work.legs[i].reserve && p'.state.work.legs[i].acknowledged == p.state.work.legs[i].acknowledged
  }

  predicate Silent(r: Record, r': Record) {
    SameWords(r, r') && (r.input.Some? <==> r'.input.Some?) && (r.input.Some? ==> SameWords(r.input.value.upload, r'.input.value.upload))
  }

  lemma SilentHeard(r: Record, r': Record, upload: bool, leg: nat)
    requires Silent(r, r') && Heard(r', upload, leg).Some?
    ensures Heard(r, upload, leg) == Heard(r', upload, leg)
  {}

  // ----- Operations

  lemma FreezeSilent(bill: Pricing, r: Record, o: Outcome, now: Time)
    requires Sound(r) && r.state.Live? && r.state.work.event.None?
    ensures Silent(r, FreezeJob(bill, r, o, now))
  {}

  lemma FreezeOpSilent(bill: Pricing, r: Record, o: Outcome, upload: bool, now: Time)
    requires Sound(r) && FreezeOp(bill, r, o, upload, now).Ok?
    ensures Silent(r, FreezeOp(bill, r, o, upload, now).value)
  {
    hide FreezeJob;
    if !upload && !Frozen(r) { FreezeSilent(bill, r, o, now); }
  }

  lemma AcknowledgeTells(r: Record, op: RowOp, now: Time, upload: bool, leg: nat)
    requires op.Acknowledge? && AcknowledgeOp(r, op, now).Ok? && Heard(AcknowledgeOp(r, op, now).value, upload, leg).Some?
    ensures Heard(r, upload, leg).Some? && Follows(Heard(r, upload, leg).value, op, upload, leg, Heard(AcknowledgeOp(r, op, now).value, upload, leg).value)
  {
    hide Settlements, Paid;
  }

  lemma ClaimSilent(bill: Pricing, r: Record, manual: bool, now: Time)
    requires Sound(r) && ClaimOp(bill, r, manual, now).Ok?
    ensures Silent(r, ClaimOp(bill, r, manual, now).value)
  {
    hide FreezeJob, Sound;
    if r.state.Live? && now < r.sum.replayUntil && (r.state.phase.Admitting? || (r.state.work.event.None? && now >= r.sum.observeUntil)) {
      if r.state.phase.Admitting? { UnfrozenIfAdmitting(r); }
      var noted := r.(sum := r.sum.(lastError := if r.state.phase.Admitting? then AdmissionLost else ObservationExpired));
      Annotated(r, noted);
      FreezeKeeps(bill, noted, Outcome(now, None, "provider_error", r.state.work.egress, None), now);
      FreezeSilent(bill, noted, Outcome(now, None, "provider_error", r.state.work.egress, None), now);
    }
  }

  lemma ObserveSilent(bill: Pricing, r: Record, op: RowOp, now: Time)
    requires Sound(r) && op.Observe? && ObserveOp(bill, r, op, now).Ok?
    ensures Silent(r, ObserveOp(bill, r, op, now).value)
  {
    hide FreezeJob, Sound;
    var r' := ObserveOp(bill, r, op, now).value;
    if r' != r {
      var m := r.sum.managed.value;
      var lossy := op.loss.Some?;
      var noted := if lossy then r.(sum := r.sum.(lastError := ObservationUnavailable, managed := Some(m.(observationLoss := op.loss))))
                   else r.(sum := r.sum.(managed := Some(m.(terminal := Some(op.status)))));
      Annotated(r, noted);
      FreezeSilent(bill, noted, Outcome(now, Some(op.statusCode), if !lossy && op.status == "succeeded" then "success" else "provider_error", true, None), now);
    }
  }

  lemma InputSilent(bill: Pricing, r: Record, op: RowOp, now: Time)
    requires Sound(r) && (op.ClaimUpload? || op.BindUpload? || op.ClaimCreate?) && Apply(bill, r, op, now).Ok?
    ensures Silent(r, Apply(bill, r, op, now).value)
  {
    hide Sound, FreezeOne;
    if op.BindUpload? { BindSilent(bill, r, op.binding, op.imageId, now); }
  }

  lemma BindSilent(bill: Pricing, r: Record, b: Binding, imageId: string, now: Time)
    requires Sound(r) && BindUploadOp(bill, r, b, imageId, now).Ok?
    ensures Silent(r, BindUploadOp(bill, r, b, imageId, now).value)
  {
    hide ImageId;
  }

  /** No other operation speaks for the ledger. */
  lemma OthersSilent(bill: Pricing, r: Record, op: RowOp, now: Time)
    requires Sound(r) && !op.BeginReserve? && !op.Reserved? && !op.Dispatched? && !op.Acknowledge? && Apply(bill, r, op, now).Ok?
    ensures Silent(r, Apply(bill, r, op, now).value)
  {
    hide Sound, FreezeOp, ObserveOp, AcknowledgeOp, ClaimOp, ClaimUploadOp, BindUploadOp, ClaimCreateOp;
    match op
    case Observe(_, _, _, _, _) => ObserveSilent(bill, r, op, now);
    case Freeze(outcome, upload) => FreezeOpSilent(bill, r, outcome, upload, now);
    case Claim(manual) => ClaimSilent(bill, r, manual, now);
    case ClaimUpload(_) => InputSilent(bill, r, op, now);
    case BindUpload(_, _) => InputSilent(bill, r, op, now);
    case ClaimCreate(_) => InputSilent(bill, r, op, now);
    case _ =>
  }

  lemma ReserveTells(r: Record, op: RowOp, now: Time, upload: bool, leg: nat)
    requires (op.BeginReserve? || op.Reserved? || op.Dispatched?) && ReserveOp(r, op, now).Ok? && Heard(ReserveOp(r, op, now).value, upload, leg).Some?
    ensures Heard(r, upload, leg).Some? && Follows(Heard(r, upload, leg).value, op, upload, leg, Heard(ReserveOp(r, op, now).value, upload, leg).value)
  {
    hide Settlements;
  }

  /** Every operation leaves a leg with the words it had and those it brings, if it brings any. */
  lemma ApplyTells(bill: Pricing, r: Record, op: RowOp, now: Time, upload: bool, leg: nat)
    requires Sound(r) && Apply(bill, r, op, now).Ok? && Heard(Apply(bill, r, op, now).value, upload, leg).Some?
    ensures Heard(r, upload, leg).Some? && Follows(Heard(r, upload, leg).value, op, upload, leg, Heard(Apply(bill, r, op, now).value, upload, leg).value)
  {
    hide Sound, Silent, Heard, ReserveOp, AcknowledgeOp;
    if op.BeginReserve? || op.Reserved? || op.Dispatched? {
      ReserveTells(r, op, now, upload, leg);
    } else if op.Acknowledge? {
      AcknowledgeTells(r, op, now, upload, leg);
    } else {
      OthersSilent(bill, r, op, now);
      SilentHeard(r, Apply(bill, r, op, now).value, upload, leg);
    }
  }

  // ----- Runs

  /** What the ledger has said of a leg after one more step, by the inputs of the step: nothing while there is no such job, and
      more with each answer and acknowledgement the table took. */
  ghost function AnswersAfter(bill: Pricing, s: Store, step: Timed, slot: Slot, given: Said): Said
    requires AllSound(s.table)
  {
    if slot.id !in s.table || !s.table[slot.id].JobRow? then NOTHING
    else if step.op.OnRow? && step.op.id == slot.id && TableAfter(bill, s.table, step.op, step.at).Ok?
    then Said(given.answers + Told(step.op.op, slot.upload, slot.leg), given.settled || Settles(step.op.op, slot.upload, slot.leg))
    else given
  }

  ghost function Answers(bill: Pricing, s: Store, trace: seq<Timed>, slot: Slot, given: Said): Said
    requires Inv(s) && Chronological(s.clock, trace)
    decreases |trace|
  {
    if trace == [] then given
    else
      StepKeeps(bill, s, trace[0].op, trace[0].at);
      Answers(bill, Step(bill, s, trace[0].op, trace[0].at), trace[1..], slot, AnswersAfter(bill, s, trace[0], slot, given))
  }

  /** The row, while it says anything of the leg, says what was answered. */
  ghost predicate Agrees(t: Table, slot: Slot, given: Said) {
    slot.id in t && t[slot.id].JobRow? && Heard(t[slot.id].job, slot.upload, slot.leg).Some? ==>
      var heard := Heard(t[slot.id].job, slot.upload, slot.leg).value;
      heard.answers == given.answers && (heard.settled ==> given.settled)
  }

  lemma {:induction false} ClaimRowsSilent(bill: Pricing, t: Table, picked: seq<string>, now: Time, slot: Slot, given: Said)
    requires AllSound(t) && Agrees(t, slot, given)
    ensures Agrees(ClaimRows(bill, t, picked, now), slot, given)
    decreases |picked|
  {
    hide Apply, Sound, Heard;
    if picked != [] && RowApply(bill, t, picked[0], Claim(false), now).Ok? {
      var t' := RowApply(bill, t, picked[0], Claim(false), now).value;
      RowKeepsSound(bill, t, picked[0], Claim(false), now);
      if picked[0] == slot.id && slot.id in t && t[slot.id].JobRow? && Heard(t'[slot.id].job, slot.upload, slot.leg).Some? {
        ApplyTells(bill, t[slot.id].job, Claim(false), now, slot.upload, slot.leg);
      }
      ClaimRowsSilent(bill, t', picked[1..], now, slot, given);
    }
  }

  lemma NewIsSilent(a: Admission, leg: nat)
    ensures Words(NewJob(a), leg).Some? ==> Words(NewJob(a), leg).value == NOTHING
  {}

  lemma AdmitAgrees(bill: Pricing, t: Table, op: Op, now: Time, slot: Slot, given: Said)
    requires AllSound(t) && (op.AdmitJob? || op.AllocateInput?) && TableAfter(bill, t, op, now).Ok? && Agrees(t, slot, given)
    ensures var before := slot.id in t && t[slot.id].JobRow?;
            Agrees(TableAfter(bill, t, op, now).value, slot, if before then given else NOTHING)
  {
    hide Heard, NewJob, Victim, ActiveIds, ManagedRetry, WithInput;
    var t' := TableAfter(bill, t, op, now).value;
    var id := op.admission.id;
    if slot.id == id && slot.id in t' && t'[slot.id].JobRow? {
      NewHeard(op, slot);
    }
  }

  lemma NewHeard(op: Op, slot: Slot)
    requires op.AdmitJob? || op.AllocateInput?
    ensures var job := if op.AdmitJob? then NewJob(op.admission) else WithInput(NewJob(op.admission), op.binding, NewUpload(op.admission, op.plan));
            Heard(job, slot.upload, slot.leg).Some? ==> Heard(job, slot.upload, slot.leg).value == NOTHING
  {
    hide NewJob, Words;
    NewIsSilent(op.admission, slot.leg);
    if op.AllocateInput? {
      var a := op.admission.(managed := None, facts := op.plan.facts, intents := op.plan.intents, reservedMicros := op.plan.reservedMicros);
      NewIsSilent(a, slot.leg);
      SameWork(NewJob(op.admission), op.binding, NewUpload(op.admission, op.plan), slot.leg);
    }
    NoInput(op.admission);
  }

  lemma SameWork(r: Record, b: Binding, u: Record, leg: nat)
    ensures Words(WithInput(r, b, u), leg) == Words(r, leg)
  {}

  lemma NoInput(a: Admission)
    ensures NewJob(a).input.None?
  {}

  lemma StepAgrees(bill: Pricing, s: Store, step: Timed, slot: Slot, given: Said)
    requires Inv(s) && s.clock <= step.at && Agrees(s.table, slot, given)
    ensures Agrees(Step(bill, s, step.op, step.at).table, slot, AnswersAfter(bill, s, step, slot, given))
  {
    hide Heard, Admit, Allocate, ClaimRows, Apply, Sound, UniqueKeys, UniqueAssets, Guarded, ActiveIds, Released;
    var op, now, t := step.op, step.at, s.table;
    if TableAfter(bill, t, op, now).Ok? {
      match op
      case AdmitJob(_, _) => AdmitAgrees(bill, t, op, now, slot, given);
      case AllocateInput(_, _, _, _, _) => AdmitAgrees(bill, t, op, now, slot, given);
      case ClaimDue(picked) => ClaimRowsSilent(bill, t, picked, now, slot, if slot.id in t && t[slot.id].JobRow? then given else NOTHING);
      case OnRow(id, rowOp) =>
        if id == slot.id && id in t && t[id].JobRow? && Heard(Apply(bill, t[id].job, rowOp, now).value, slot.upload, slot.leg).Some? {
          ApplyTells(bill, t[id].job, rowOp, now, slot.upload, slot.leg);
        }
      case _ =>
    }
  }

  /** In every reachable state a leg holds exactly the answers of the ledger, of which there is at most one. */
  lemma {:induction false} RunAgrees(bill: Pricing, s: Store, trace: seq<Timed>, slot: Slot, given: Said)
    requires Inv(s) && Chronological(s.clock, trace) && Agrees(s.table, slot, given)
    ensures Agrees(Run(bill, s, trace).table, slot, Answers(bill, s, trace, slot, given))
    decreases |trace|
  {
    hide TableAfter, Released, AllSound, UniqueKeys, UniqueAssets, AssetsOk, Guarded, ActiveIds, Spaced, Agrees, AnswersAfter;
    if trace != [] {
      StepKeeps(bill, s, trace[0].op, trace[0].at);
      StepAgrees(bill, s, trace[0], slot, given);
      RunAgrees(bill, Step(bill, s, trace[0].op, trace[0].at), trace[1..], slot, AnswersAfter(bill, s, trace[0], slot, given));
    }
  }

  /** The answers the ledger gave about a leg in a run from the empty table. */
  ghost function LedgerSaid(bill: Pricing, clock: Time, trace: seq<Timed>, slot: Slot): Said
    requires Chronological(clock, trace)
  {
    EmptyInv(clock);
    Answers(bill, Empty(clock), trace, slot, NOTHING)
  }

  lemma SaidIsHeard(bill: Pricing, clock: Time, trace: seq<Timed>, slot: Slot)
    requires Chronological(clock, trace)
    ensures Agrees(Reach(bill, clock, trace).table, slot, LedgerSaid(bill, clock, trace, slot))
  {
    hide Inv, Run, Answers;
    EmptyInv(clock);
    RunAgrees(bill, Empty(clock), trace, slot, NOTHING);
  }

  ghost predicate HasJob(bill: Pricing, clock: Time, trace: seq<Timed>, id: string)
    requires Chronological(clock, trace)
  {
    id in Reach(bill, clock, trace).table && Reach(bill, clock, trace).table[id].JobRow?
  }

  ghost function JobIn(bill: Pricing, clock: Time, trace: seq<Timed>, id: string): (r: Record)
    requires Chronological(clock, trace) && HasJob(bill, clock, trace, id)
    ensures Sound(r)
  {
    Reach(bill, clock, trace).table[id].job
  }

  /** After any run the generation request goes out only if the ledger allowed every leg, and refused none. */
  lemma ReleasedWhenAllowed(bill: Pricing, clock: Time, trace: seq<Timed>, id: string, now: Time, i: nat)
    requires Chronological(clock, trace) && HasJob(bill, clock, trace, id)
    requires Apply(bill, JobIn(bill, clock, trace, id), BeginEgress, now).Ok? && i < |JobIn(bill, clock, trace, id).state.work.legs|
    ensures LedgerSaid(bill, clock, trace, Slot(id, false, i)).answers == [true]
  {
    hide Reach, LedgerSaid, Sound;
    SaidIsHeard(bill, clock, trace, Slot(id, false, i));
    EgressIsPaidFor(bill, JobIn(bill, clock, trace, id), now);
  }

  /** The upload is claimed only if the ledger allowed every leg of the job and of the upload. */
  lemma UploadedWhenAllowed(bill: Pricing, clock: Time, trace: seq<Timed>, id: string, b: Binding, now: Time, upload: bool, i: nat)
    requires Chronological(clock, trace) && HasJob(bill, clock, trace, id)
    requires var r := JobIn(bill, clock, trace, id);
             Apply(bill, r, ClaimUpload(b), now).Ok? && i < |(if upload then r.input.value.upload else r).state.work.legs|
    ensures LedgerSaid(bill, clock, trace, Slot(id, upload, i)).answers == [true]
  {
    hide Reach, LedgerSaid, Sound;
    SaidIsHeard(bill, clock, trace, Slot(id, upload, i));
  }

  /** A leg is settled only if the ledger acknowledged that, or it was never sent, or it was sent once and refused. */
  lemma SettledByLedger(bill: Pricing, clock: Time, trace: seq<Timed>, id: string, upload: bool, i: nat)
    requires Chronological(clock, trace) && HasJob(bill, clock, trace, id)
    requires var r := JobIn(bill, clock, trace, id);
             && (upload ==> r.input.Some?)
             && var part := if upload then r.input.value.upload else r;
             part.state.Live? && i < |part.state.work.legs| && part.state.work.legs[i].settlement.Settled?
    ensures var r := JobIn(bill, clock, trace, id);
            var l := (if upload then r.input.value.upload else r).state.work.legs[i];
            var said := LedgerSaid(bill, clock, trace, Slot(id, upload, i));
            said.settled || (l.sends == 0 && said.answers == []) || (l.sends == 1 && said.answers == [false])
  {
    hide Reach, LedgerSaid;
    var r := JobIn(bill, clock, trace, id);
    SaidIsHeard(bill, clock, trace, Slot(id, upload, i));
    var part := if upload then r.input.value.upload else r;
    assert LegOk(part.state.work.legs[i]);
  }
}

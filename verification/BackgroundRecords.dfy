/**
 One row of the background job store of `worker/background-store.ts`: a job with its budget legs and, for image
 inputs, the upload job nested in it; or the tombstone it leaves. Every operation of the store that touches an
 existing row is a function from row to row here.
 */
module BackgroundRecords {
  import opened Basics

  type Time = int

  const OBSERVATION_MS: int := 60 * 60000
  const AUTO_RETRY_MS: int := 7 * 86400000
  const REPLAY_MS: int := 44 * 86400000

  datatype Error =
    | Invalid | Exists | Capacity | IdempotencyConflict | OwnerChanged | Missing | Closed | AdmissionExpired
    | DispatchClaimed | InputUnavailable | IdentityConflict | NotFinal | PublishedUnavailable | InvalidImage

  datatype Result<+T> = Ok(value: T) | Err(error: Error) {
    predicate IsFailure() { Err? }
    function PropagateFailure<U>(): Result<U> requires Err? { Err(error) }
    function Extract(): T requires Ok? { value }
  }

  // ----- Data

  datatype Reserve = Never | Sent | Accepted | Denied
  datatype Settlement = Pending | Settled | Absent | Disputed | Unsettled
  datatype Usage = Unreported | Stored | Duplicate | ExpiredByRetention | UsageUnavailable
  datatype LastError = NoError | AdmissionLost | ObservationUnavailable | ObservationExpired | AccountingUnavailable

  /** `sends` and `acknowledged` are history that no operation reads: how often the reservation request was
      released, and whether the ledger has acknowledged settlement. */
  datatype Leg = Leg(intent: string, reserve: Reserve, uncertain: bool, dispatched: bool, settlement: Settlement,
                     sends: nat, acknowledged: bool)

  /** What pricing depends on; `eventId` and `requestId` are its usage event's. */
  datatype Facts = Facts(eventId: string, requestId: string, details: string)

  datatype Outcome = Outcome(occurredAt: Time, statusCode: Option<int>, status: string, billable: bool, contentRef: Option<string>)

  datatype Price = Price(amount: int, basis: string)

  /** The pricing rule, `accountingReceipt` in the source: any function of the facts and the outcome. */
  type Pricing = (Facts, Outcome) -> Price

  datatype Event = Event(id: string, price: Price, outcome: Outcome, reservedMicros: int, intents: seq<string>)

  datatype Submission = NotSubmitted | SubmissionUnknown | Bound
  datatype Managed = Managed(protocol: string, provider: string, key: Option<string>, digest: string, policy: string,
                             submission: Submission, upstreamId: Option<string>, terminal: Option<string>,
                             observationLoss: Option<string>)

  datatype Summary = Summary(id: string, admittedAt: Time, observeUntil: Time, autoRetryUntil: Time, replayUntil: Time,
                             eventId: string, requestId: string, price: Option<Price>, usage: Usage,
                             settlements: seq<Settlement>, lastError: LastError, managed: Option<Managed>)

  datatype Phase = Admitting | Observing | Outbox
  datatype End = Complete | Expired

  datatype Work = Work(facts: Option<Facts>, legs: seq<Leg>, reservedMicros: int, responseId: Option<string>, egress: bool,
                       dispatchClaimed: bool, event: Option<Event>, nextAttemptAt: Time, attempts: nat, contentRef: Option<string>)

  datatype InputState = InputPending | DispatchUnknown | InputBound
  datatype Binding = Binding(jobId: string, expiresAt: Time, content: string)
  datatype Receipt = Receipt(binding: Binding, state: InputState, imageId: Option<string>, createClaimed: bool, upload: Record)

  datatype State = Live(phase: Phase, work: Work) | Dead(end: End)

  /** A live job or the tombstone it left. */
  datatype Record = Record(sum: Summary, state: State, input: Option<Receipt>) {
    function WithWork(w: Work): Record
      requires state.Live?
    {
      this.(state := Live(state.phase, w))
    }
  }

  datatype ManagedRequest = ManagedRequest(protocol: string, providerId: Option<string>, key: Option<string>, digest: string, wellFormed: bool)

  /** An admission; `tariffOk` is the outcome of the fixed-tariff and no-stream checks. */
  datatype Admission = Admission(id: string, admittedAt: Time, provider: string, policy: string, facts: Facts,
                                 intents: seq<string>, reservedMicros: int, managed: Option<ManagedRequest>, tariffOk: bool)

  // ----- New jobs and tombstones

  function NewLeg(intent: string): Leg {
    Leg(intent, Never, false, false, Pending, 0, false)
  }

  function NewJob(a: Admission): Record {
    Record(Summary(a.id, a.admittedAt, a.admittedAt + OBSERVATION_MS, a.admittedAt + AUTO_RETRY_MS, a.admittedAt + REPLAY_MS,
                a.facts.eventId, a.facts.requestId, None, Unreported, seq(|a.intents|, _ => Pending), NoError,
                if a.managed.None? then None
                else Some(Managed(a.managed.value.protocol, a.provider, a.managed.value.key, a.managed.value.digest, a.policy,
                                  NotSubmitted, None, None, None))),
        Live(Admitting, Work(Some(a.facts), seq(|a.intents|, i requires 0 <= i < |a.intents| => NewLeg(a.intents[i])), a.reservedMicros,
             None, false, false, None, a.admittedAt + 60000, 0, None)),
        None)
  }

  function Entomb(r: Record, end: End): Record
    requires r.state.Live?
  {
    r.(state := Dead(end))
  }

  // ----- What completion means

  function Settlements(legs: seq<Leg>): seq<Settlement> {
    seq(|legs|, i requires 0 <= i < |legs| => legs[i].settlement)
  }

  predicate AllSettled(s: seq<Settlement>) {
    forall i :: 0 <= i < |s| ==> s[i].Settled?
  }

  predicate Terminal(u: Usage) {
    u.Stored? || u.Duplicate? || u.ExpiredByRetention?
  }

  predicate Paid(s: Summary) {
    AllSettled(s.settlements) && Terminal(s.usage)
  }

  predicate IsComplete(r: Record) {
    r.state.Dead? && r.state.end.Complete?
  }

  // ----- Freezing

  function FrozenLeg(l: Leg): Leg {
    if l.reserve.Never? || (l.reserve.Denied? && !l.uncertain) then l.(settlement := Settled) else l
  }

  function FrozenLegs(legs: seq<Leg>): seq<Leg> {
    seq(|legs|, i requires 0 <= i < |legs| => FrozenLeg(legs[i]))
  }

  /** The receipt of one job, priced from its own facts, reservation and content. */
  function ReceiptOf(bill: Pricing, w: Work, outcome: Outcome): Event
    requires w.facts.Some?
  {
    var o := outcome.(contentRef := if outcome.contentRef.Some? then outcome.contentRef else w.contentRef);
    Event(w.facts.value.eventId, bill(w.facts.value, o), o, w.reservedMicros,
          seq(|w.legs|, i requires 0 <= i < |w.legs| => w.legs[i].intent))
  }

  predicate Frozen(r: Record) {
    r.state.Dead? || r.state.work.event.Some?
  }

  function FreezeOne(bill: Pricing, r: Record, outcome: Outcome, now: Time): Record
    requires r.state.Live? && r.state.work.event.None? && r.state.work.facts.Some?
  {
    var e := ReceiptOf(bill, r.state.work, outcome);
    var legs := FrozenLegs(r.state.work.legs);
    r.(sum := r.sum.(price := Some(e.price), settlements := Settlements(legs)),
       state := Live(Outbox, r.state.work.(event := Some(e), facts := None, responseId := None, legs := legs, nextAttemptAt := now)))
  }

  /** Freezing a job freezes a live, unfrozen upload with it. */
  function FreezeJob(bill: Pricing, r: Record, outcome: Outcome, now: Time): Record
    requires Sound(r) && r.state.Live? && r.state.work.event.None?
  {
    var f := FreezeOne(bill, r, outcome, now);
    if r.input.None? || Frozen(r.input.value.upload) then f
    else
      var receipt := r.input.value;
      f.(input := Some(receipt.(upload := FreezeOne(bill, receipt.upload, outcome.(billable := !receipt.state.InputPending?), now))))
  }

  // ----- The invariant of a row

  predicate LegOk(l: Leg) {
    && (l.reserve.Never? <==> l.sends == 0)
    && (l.uncertain <==> l.sends >= 2)
    && (l.dispatched ==> l.reserve.Accepted?)
    && (l.settlement.Settled? ==> l.acknowledged || l.sends == 0 || (l.sends == 1 && l.reserve.Denied?))
  }

  /** A job or tombstone on its own, whatever is nested in it. */
  predicate Base(r: Record) {
    && r.sum.observeUntil == r.sum.admittedAt + OBSERVATION_MS
    && r.sum.autoRetryUntil == r.sum.admittedAt + AUTO_RETRY_MS
    && r.sum.replayUntil == r.sum.admittedAt + REPLAY_MS
    && (r.state.Live? ==>
          && r.sum.settlements == Settlements(r.state.work.legs)
          && (forall i :: 0 <= i < |r.state.work.legs| ==> LegOk(r.state.work.legs[i]))
          && (r.state.work.facts.Some? <==> r.state.work.event.None?)
          && (r.state.phase.Outbox? <==> r.state.work.event.Some?)
          && (r.state.work.event.None? ==> r.sum.price.None? && r.sum.usage.Unreported? && r.state.work.facts.value.eventId == r.sum.eventId)
          && (r.state.work.event.None? ==> forall i :: 0 <= i < |r.state.work.legs| ==> r.state.work.legs[i].settlement.Pending?)
          && (r.state.work.event.Some? ==> r.sum.price == Some(r.state.work.event.value.price) && r.state.work.event.value.id == r.sum.eventId))
    && (IsComplete(r) ==> r.sum.price.Some?)
  }

  /** A nested upload: same job, no job of its own inside, and complete exactly when it is paid. */
  predicate UploadOk(r: Record, u: Record) {
    && Base(u) && u.input.None? && u.sum.managed.None?
    && u.sum.id == r.sum.id && u.sum.admittedAt == r.sum.admittedAt
    && (u.state.Dead? ==> u.state.end.Complete?)
    && (IsComplete(u) <==> Paid(u.sum))
  }

  predicate Sound(r: Record) {
    && Base(r)
    && (r.input.Some? ==> UploadOk(r, r.input.value.upload))
    && (r.state.Live? && r.input.Some? && Frozen(r) ==> Frozen(r.input.value.upload))
    && (IsComplete(r) <==> Paid(r.sum) && (r.input.Some? ==> IsComplete(r.input.value.upload)))
  }

  // ----- Operations on a row

  datatype Sink = Ledger(leg: nat) | UsageSink

  datatype RowOp =
    | BeginReserve(leg: nat, upload: bool)
    | Reserved(leg: nat, allowed: bool, upload: bool)
    | Dispatched(leg: nat, upload: bool)
    | BeginDispatch(contentRef: Option<string>)
    | BeginEgress
    | Identity(responseId: string)
    | Observe(upstreamId: string, status: string, statusCode: int, expected: Option<nat>, loss: Option<string>)
    | Freeze(outcome: Outcome, upload: bool)
    | Acknowledge(eventId: string, sink: Sink, settlement: Settlement, usage: Usage, upload: bool)
    | Claim(manual: bool)
    | Retry(error: LastError, attempt: nat)
    | ClaimUpload(binding: Binding)
    | BindUpload(binding: Binding, imageId: string)
    | ClaimCreate(binding: Binding)

  predicate StillAdmitting(r: Record, now: Time) {
    r.state.Live? && r.state.phase.Admitting? && now < r.sum.admittedAt + 60000
  }

  /** The checks of the source's `admitting`. */
  function AdmittingError(r: Record): Error {
    if r.state.Dead? then Closed else AdmissionExpired
  }

  /** The part of a row an operation works on: the job itself, or the upload nested in it. */
  function Target(r: Record, upload: bool, now: Time): Result<Record> {
    if !upload then (if StillAdmitting(r, now) then Ok(r) else Err(AdmittingError(r)))
    else if r.state.Dead? then Err(Closed)
    else if r.input.None? then Err(InputUnavailable)
    else
      var u := r.input.value.upload;
      if u.state.Dead? || !u.state.phase.Admitting? || u.state.work.event.Some? then Err(InputUnavailable) else Ok(u)
  }

  /** The source's `saveOperation`: put the part back. */
  function PutBack(r: Record, part: Record, upload: bool): Record
    requires upload ==> r.input.Some?
  {
    if upload then r.(input := Some(r.input.value.(upload := part))) else part
  }

  function WithLeg(r: Record, i: nat, l: Leg): Record
    requires r.state.Live? && i < |r.state.work.legs|
  {
    var legs := r.state.work.legs[i := l];
    r.(sum := r.sum.(settlements := Settlements(legs))).WithWork(r.state.work.(legs := legs))
  }

  function ReserveOp(r: Record, op: RowOp, now: Time): Result<Record>
    requires op.BeginReserve? || op.Reserved? || op.Dispatched?
  {
    var part :- Target(r, op.upload, now);
    if op.leg >= |part.state.work.legs| then Err(Invalid)
    else
      var l := part.state.work.legs[op.leg];
      if op.BeginReserve? then
        if l.reserve.Accepted? || l.reserve.Denied? then Err(Invalid)
        else Ok(PutBack(r, WithLeg(part, op.leg, l.(uncertain := l.uncertain || l.reserve.Sent?, reserve := Sent, sends := l.sends + 1)), op.upload))
      else if op.Reserved? then
        if !l.reserve.Sent? then Err(Invalid)
        else Ok(PutBack(r, WithLeg(part, op.leg, l.(reserve := if op.allowed then Accepted else Denied)), op.upload))
      else
        if !l.reserve.Accepted? then Err(Invalid)
        else Ok(PutBack(r, WithLeg(part, op.leg, l.(dispatched := true)), op.upload))
  }

  function DispatchOp(r: Record, contentRef: Option<string>, input: bool, now: Time): Result<Record> {
    if !StillAdmitting(r, now) then Err(AdmittingError(r))
    else if r.input.Some? && !input then Err(InputUnavailable)
    else if r.state.work.dispatchClaimed then Err(DispatchClaimed)
    else Ok(r.WithWork(r.state.work.(dispatchClaimed := true, contentRef := contentRef)))
  }

  function EgressOp(r: Record, now: Time): Result<Record> {
    if !StillAdmitting(r, now) then Err(AdmittingError(r))
    else if r.sum.managed.Some? && !r.state.work.dispatchClaimed then Err(Invalid)
    else if exists i :: 0 <= i < |r.state.work.legs| && !(r.state.work.legs[i].reserve.Accepted? && r.state.work.legs[i].dispatched) then Err(Invalid)
    else
      Ok(r.(state := Live(Observing, r.state.work.(egress := true, nextAttemptAt := now + 5000)),
            sum := r.sum.(managed := if r.sum.managed.None? then None else Some(r.sum.managed.value.(submission := SubmissionUnknown)))))
  }

  predicate Digit(c: char) {
    '0' <= c <= '9'
  }

  /** The identifiers a provider gives to generations. */
  predicate NativeId(s: string) {
    0 < |s| <= 128 && forall i :: 0 <= i < |s| ==> 'a' <= s[i] <= 'z' || 'A' <= s[i] <= 'Z' || Digit(s[i]) || s[i] == '_' || s[i] == '-'
  }

  /** The size of a text in UTF-8. */
  function EncodedSize(s: string): nat {
    if s == "" then 0
    else (if s[0] as int < 0x80 then 1 else if s[0] as int < 0x800 then 2 else if s[0] as int < 0x1_0000 then 3 else 4) + EncodedSize(s[1..])
  }

  function Decimal(s: string): nat
    requires forall i :: 0 <= i < |s| ==> Digit(s[i])
  {
    if s == "" then 0
    else
      var last := s[|s| - 1];
      assert Digit(last);
      Decimal(s[..|s| - 1]) * 10 + (last as int - '0' as int)
  }

  /** The identifiers of uploaded images: positive decimal numbers without leading zeros, exact as doubles. */
  predicate ImageId(s: string) {
    0 < |s| <= 16 && s[0] != '0' && (forall i :: 0 <= i < |s| ==> Digit(s[i])) && Decimal(s) <= MAX_SAFE
  }

  function IdentityOp(r: Record, responseId: string, now: Time): Result<Record> {
    if r.state.Dead? then Err(Closed)
    else if r.state.work.event.Some? || now >= r.sum.observeUntil then Ok(r)
    else if !r.state.phase.Observing? || responseId == "" || EncodedSize(responseId) > 256 then Err(Invalid)
    else if r.state.work.responseId.Some? && r.state.work.responseId.value != responseId then Err(IdentityConflict)
    else if r.sum.managed.Some? && !NativeId(responseId) then Err(Invalid)
    else
      Ok(r.(sum := r.sum.(managed := if r.sum.managed.None? then None
                                     else Some(r.sum.managed.value.(upstreamId := Some(responseId), submission := Bound))),
            state := Live(r.state.phase, r.state.work.(responseId := Some(responseId),
                            nextAttemptAt := if r.state.work.nextAttemptAt < now + 5000 then r.state.work.nextAttemptAt else now + 5000))))
  }

  predicate ObservedStatus(s: string) {
    s in {"starting", "processing", "succeeded", "failed", "canceled", "aborted"}
  }

  function ObserveOp(bill: Pricing, r: Record, op: RowOp, now: Time): Result<Record>
    requires Sound(r) && op.Observe?
  {
    if r.state.Dead? || r.state.work.event.Some? || (op.expected.Some? && r.state.work.attempts != op.expected.value) || now >= r.sum.observeUntil then Ok(r)
    else if r.sum.managed.None? || !r.sum.managed.value.submission.Bound? || r.state.work.responseId != Some(op.upstreamId)
            || !ObservedStatus(op.status)
            || !(200 <= op.statusCode < 300 || (op.status == "failed" && op.statusCode == 422)) then Err(Invalid)
    else if op.loss.Some? then
      if op.loss.value !in {"expired_or_unknown", "deleted", "canceled_or_deleted"} || op.status != "processing" then Err(Invalid)
      else
        Ok(FreezeJob(bill, r.(sum := r.sum.(lastError := ObservationUnavailable, managed := Some(r.sum.managed.value.(observationLoss := op.loss)))),
                     Outcome(now, Some(op.statusCode), "provider_error", true, None), now))
    else if op.status == "starting" || op.status == "processing" then Ok(r)
    else
      Ok(FreezeJob(bill, r.(sum := r.sum.(managed := Some(r.sum.managed.value.(terminal := Some(op.status))))),
                   Outcome(now, Some(op.statusCode), if op.status == "succeeded" then "success" else "provider_error", true, None), now))
  }

  /** Freezing the nested upload alone; the job around it may be half way through its own freeze. */
  function FreezeUpload(bill: Pricing, r: Record, outcome: Outcome, now: Time): Result<Record>
    requires r.input.Some? ==> Base(r.input.value.upload)
  {
    if r.input.None? then Err(Missing)
    else if Frozen(r.input.value.upload) then Ok(r)
    else if r.state.Dead? then Err(Closed)
    else Ok(PutBack(r, FreezeOne(bill, r.input.value.upload, outcome, now), true))
  }

  function FreezeOp(bill: Pricing, r: Record, outcome: Outcome, upload: bool, now: Time): Result<Record>
    requires Sound(r)
  {
    if upload then FreezeUpload(bill, r, outcome, now)
    else if Frozen(r) then Ok(r)
    else Ok(FreezeJob(bill, r, outcome, now))
  }

  /** One acknowledgement applied to a live, frozen part; None when the sink is already final. */
  function Acked(p: Record, sink: Sink, settlement: Settlement, usage: Usage): Result<Option<Record>>
    requires p.state.Live?
  {
    match sink
    case UsageSink =>
      if Terminal(p.sum.usage) then Ok(None)
      else if usage.Unreported? then Err(Invalid)
      else Ok(Some(p.(sum := p.sum.(usage := usage))))
    case Ledger(i) =>
      if i >= |p.state.work.legs| || settlement.Pending? then Err(Invalid)
      else if p.state.work.legs[i].settlement.Settled? then Ok(None)
      else Ok(Some(WithLeg(p, i, p.state.work.legs[i].(settlement := settlement, acknowledged := p.state.work.legs[i].acknowledged || settlement.Settled?))))
  }

  function CloseIfPaid(r: Record): Record
    requires r.state.Live?
  {
    if Paid(r.sum) && (r.input.Some? ==> r.input.value.upload.state.Dead?) then Entomb(r, Complete) else r
  }

  function AcknowledgeOp(r: Record, op: RowOp, now: Time): Result<Record>
    requires op.Acknowledge?
  {
    if op.upload && r.input.None? then Err(Missing)
    else
      var p := if op.upload then r.input.value.upload else r;
      if p.state.Dead? || p.state.work.event.None? || p.state.work.event.value.id != op.eventId || now >= p.sum.replayUntil then Ok(r)
      else
        var acked :- Acked(p, op.sink, op.settlement, op.usage);
        if acked.None? then Ok(r)
        else if !op.upload then Ok(CloseIfPaid(acked.value))
        else if r.state.Dead? then Err(Closed)
        else
          var part := CloseIfPaid(acked.value);
          var put := PutBack(r, part, true);
          Ok(if part.state.Dead? && r.state.work.event.Some? then CloseIfPaid(put) else put)
  }

  function ClaimOp(bill: Pricing, r: Record, manual: bool, now: Time): Result<Record>
    requires Sound(r)
  {
    if r.state.Dead? then Ok(r)
    else if manual && r.state.work.event.None? then Err(NotFinal)
    else if now >= r.sum.replayUntil then Ok(Entomb(r, Expired))
    else
      var lost := r.state.phase.Admitting? || (r.state.work.event.None? && now >= r.sum.observeUntil);
      var j := if !lost then r
               else FreezeJob(bill, r.(sum := r.sum.(lastError := if r.state.phase.Admitting? then AdmissionLost else ObservationExpired)),
                              Outcome(now, None, "provider_error", r.state.work.egress, None), now);
      if now >= j.sum.autoRetryUntil && !manual then Ok(j.WithWork(j.state.work.(nextAttemptAt := j.sum.autoRetryUntil)))
      else Ok(j.WithWork(j.state.work.(attempts := j.state.work.attempts + 1, nextAttemptAt := now + 30000)))
  }

  function Min(a: int, b: int): int {
    if a < b then a else b
  }

  function Power2(n: nat): int {
    if n == 0 then 1 else 2 * Power2(n - 1)
  }

  function RetryOp(r: Record, error: LastError, attempt: nat, now: Time): Record {
    if r.state.Dead? || r.state.work.attempts != attempt then r
    else
      var backoff := 5000 * Power2(if r.state.work.attempts < 10 then r.state.work.attempts else 10);
      var delay := if r.state.work.event.Some? then Min(3600000, backoff) else if error != NoError then Min(30000, backoff) else 5000;
      r.(sum := r.sum.(lastError := error)).WithWork(r.state.work.(nextAttemptAt := now + delay))
  }

  predicate InputLive(r: Record, b: Binding, now: Time) {
    StillAdmitting(r, now) && r.input.Some? && r.sum.id == b.jobId && r.input.value.binding == b && now < b.expiresAt
  }

  predicate AllAccepted(legs: seq<Leg>) {
    forall i :: 0 <= i < |legs| ==> legs[i].reserve.Accepted?
  }

  function ClaimUploadOp(r: Record, b: Binding, now: Time): Result<Record> {
    if !StillAdmitting(r, now) then Err(AdmittingError(r))
    else if !InputLive(r, b, now) then Err(InputUnavailable)
    else
      var receipt := r.input.value;
      var u := receipt.upload;
      if u.state.Dead? || !receipt.state.InputPending? || u.state.work.event.Some? || r.state.work.event.Some?
         || !AllAccepted(r.state.work.legs) || !AllAccepted(u.state.work.legs) then Err(InputUnavailable)
      else Ok(r.(input := Some(receipt.(state := DispatchUnknown, upload := u.WithWork(u.state.work.(egress := true))))))
  }

  function BindUploadOp(bill: Pricing, r: Record, b: Binding, imageId: string, now: Time): Result<Record>
    requires Sound(r)
  {
    if !StillAdmitting(r, now) then Err(AdmittingError(r))
    else if !InputLive(r, b, now) then Err(InputUnavailable)
    else
      var receipt := r.input.value;
      if receipt.state.InputPending? || receipt.createClaimed || (receipt.imageId.Some? && receipt.imageId.value != imageId)
      then Err(InputUnavailable)
      else if !ImageId(imageId) then Err(InvalidImage)
      else
        FreezeOp(bill, r.(input := Some(receipt.(imageId := Some(imageId), state := InputBound))),
                 Outcome(now, Some(200), "success", true, None), true, now)
  }

  function ClaimCreateOp(r: Record, b: Binding, now: Time): Result<Record> {
    if !StillAdmitting(r, now) then Err(AdmittingError(r))
    else if !InputLive(r, b, now) then Err(InputUnavailable)
    else
      var receipt := r.input.value;
      if !receipt.state.InputBound? || receipt.imageId.None? || receipt.createClaimed || r.state.work.dispatchClaimed then Err(InputUnavailable)
      else DispatchOp(r.(input := Some(receipt.(createClaimed := true))), None, true, now)
  }

  function Apply(bill: Pricing, r: Record, op: RowOp, now: Time): Result<Record>
    requires Sound(r)
  {
    match op
    case BeginDispatch(contentRef) => DispatchOp(r, contentRef, false, now)
    case BeginEgress => EgressOp(r, now)
    case Identity(responseId) => IdentityOp(r, responseId, now)
    case Observe(_, _, _, _, _) => ObserveOp(bill, r, op, now)
    case Freeze(outcome, upload) => FreezeOp(bill, r, outcome, upload, now)
    case Acknowledge(_, _, _, _, _) => AcknowledgeOp(r, op, now)
    case Claim(manual) => ClaimOp(bill, r, manual, now)
    case Retry(error, attempt) => Ok(RetryOp(r, error, attempt, now))
    case ClaimUpload(b) => ClaimUploadOp(r, b, now)
    case BindUpload(b, imageId) => BindUploadOp(bill, r, b, imageId, now)
    case ClaimCreate(b) => ClaimCreateOp(r, b, now)
    case _ => ReserveOp(r, op, now)
  }
}

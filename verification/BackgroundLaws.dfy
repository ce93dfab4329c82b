/**
 What every operation keeps of a background job: the row stays sound and only moves forward.
 */
module BackgroundLaws {
  import opened Basics
  import opened BackgroundRecords

  // ----- Forward movement

  function Rank(r: Record): nat {
    if r.state.Dead? then 3
    else match r.state.phase
      case Admitting => 0
      case Observing => 1
      case Outbox => 2
  }

  predicate SameManaged(m: Option<Managed>, m': Option<Managed>) {
    && (m.None? <==> m'.None?)
    && (m.Some? ==>
          && m'.value.protocol == m.value.protocol && m'.value.provider == m.value.provider && m'.value.key == m.value.key
          && m'.value.digest == m.value.digest && m'.value.policy == m.value.policy)
  }

  predicate SameIdentity(s: Summary, s': Summary) {
    && s'.id == s.id && s'.admittedAt == s.admittedAt && s'.observeUntil == s.observeUntil
    && s'.autoRetryUntil == s.autoRetryUntil && s'.replayUntil == s.replayUntil
    && s'.eventId == s.eventId && s'.requestId == s.requestId && SameManaged(s.managed, s'.managed)
  }

  predicate LegAdvances(l: Leg, l': Leg) {
    && l'.intent == l.intent && l.sends <= l'.sends && (l.acknowledged ==> l'.acknowledged)
    && (l.settlement.Settled? ==> l'.settlement.Settled?)
    && (l.reserve.Accepted? || l.reserve.Denied? ==> l'.reserve == l.reserve && l'.sends == l.sends)
    && (l.uncertain ==> l'.uncertain) && (l.dispatched ==> l'.dispatched)
  }

  predicate LegsAdvance(a: seq<Leg>, b: seq<Leg>) {
    |a| == |b| && forall i :: 0 <= i < |a| ==> LegAdvances(a[i], b[i])
  }

  /** One job or tombstone, whatever is nested in it: identity fixed, phase rank up, and once frozen the receipt,
      amount and basis never change. */
  predicate Forward(r: Record, r': Record) {
    && SameIdentity(r.sum, r'.sum) && Rank(r) <= Rank(r')
    && (Frozen(r) ==> r'.sum.price == r.sum.price)
    && (r.state.Dead? ==> r'.state.Dead? && r'.sum == r.sum && r'.state.end == r.state.end)
    && (r.state.Live? && r'.state.Live? ==>
          && (Frozen(r) ==> r'.state.work.event == r.state.work.event)
          && (r.state.work.egress ==> r'.state.work.egress) && (r.state.work.dispatchClaimed ==> r'.state.work.dispatchClaimed)
          && r.state.work.attempts <= r'.state.work.attempts && LegsAdvance(r.state.work.legs, r'.state.work.legs))
  }

  function InputRank(s: InputState): nat {
    match s
    case InputPending => 0
    case DispatchUnknown => 1
    case InputBound => 2
  }

  /** An input keeps its binding; its upload and its creation are claimed for good, and its image is set once. */
  predicate ReceiptForward(a: Receipt, b: Receipt) {
    && b.binding == a.binding && InputRank(a.state) <= InputRank(b.state)
    && (a.createClaimed ==> b.createClaimed) && (a.imageId.Some? ==> b.imageId == a.imageId)
  }

  predicate Advances(r: Record, r': Record) {
    && Forward(r, r')
    && (r.input.None? <==> r'.input.None?)
    && (r.input.Some? ==> Forward(r.input.value.upload, r'.input.value.upload) && ReceiptForward(r.input.value, r'.input.value))
  }

  lemma ForwardTransitive(a: Record, b: Record, c: Record)
    requires Forward(a, b) && Forward(b, c)
    ensures Forward(a, c)
  {}

  lemma AdvancesTransitive(a: Record, b: Record, c: Record)
    requires Advances(a, b) && Advances(b, c)
    ensures Advances(a, c)
  {
    hide Forward;
    ForwardTransitive(a, b, c);
    if a.input.Some? {
      ForwardTransitive(a.input.value.upload, b.input.value.upload, c.input.value.upload);
    }
  }

  lemma Reflexive(r: Record)
    ensures Forward(r, r) && Advances(r, r)
  {}

  // ----- New rows

  lemma NewIsSound(a: Admission)
    ensures Sound(NewJob(a)) && !Frozen(NewJob(a)) && NewJob(a).input.None?
  {
    assert Settlements(NewJob(a).state.work.legs) == NewJob(a).sum.settlements;
  }

  /** A new job: unsent legs for its intents, an hour to observe, a week of automatic retries and 44 days of replay. */
  lemma NewMeans(a: Admission)
    ensures var r := NewJob(a);
            && r.sum.id == a.id && r.state.Live? && r.state.phase.Admitting? && r.state.work.facts == Some(a.facts) && r.state.work.reservedMicros == a.reservedMicros
            && |r.state.work.legs| == |a.intents| && (forall i :: 0 <= i < |a.intents| ==> r.state.work.legs[i] == NewLeg(a.intents[i]))
            && r.sum.observeUntil == a.admittedAt + 3600000 && r.sum.autoRetryUntil == a.admittedAt + 604800000 && r.sum.replayUntil == a.admittedAt + 3801600000
            && (a.managed.Some? <==> r.sum.managed.Some?)
            && (a.managed.Some? ==>
                  && r.sum.managed.value.key == a.managed.value.key && r.sum.managed.value.digest == a.managed.value.digest
                  && r.sum.managed.value.policy == a.policy && r.sum.managed.value.provider == a.provider && r.sum.managed.value.submission.NotSubmitted?)
  {}

  // ----- Parts

  lemma FreezeOneKeeps(bill: Pricing, r: Record, o: Outcome, now: Time)
    requires Base(r) && r.state.Live? && r.state.work.event.None?
    ensures var f := FreezeOne(bill, r, o, now);
            && Base(f) && Forward(r, f) && Frozen(f) && f.state.Live? && !Paid(f.sum)
            && f.input == r.input && f.sum.managed == r.sum.managed
  {}

  lemma WithLegKeeps(r: Record, i: nat, l: Leg)
    requires Base(r) && r.state.Live? && i < |r.state.work.legs| && LegOk(l) && LegAdvances(r.state.work.legs[i], l)
    requires r.state.work.event.None? ==> l.settlement.Pending?
    ensures var q := WithLeg(r, i, l);
            Base(q) && Forward(r, q) && q.state.Live? && q.input == r.input && q.sum.managed == r.sum.managed && (Frozen(q) <==> Frozen(r))
  {}

  /** Replacing the upload of a live row keeps it sound, if the row is not thereby paid for in full. */
  lemma PutUploadKeeps(r: Record, u: Record)
    requires Sound(r) && r.state.Live? && r.input.Some? && UploadOk(r, u) && Forward(r.input.value.upload, u)
    requires Frozen(r.input.value.upload) ==> Frozen(u)
    requires !(Paid(r.sum) && IsComplete(u))
    ensures Sound(PutBack(r, u, true)) && Advances(r, PutBack(r, u, true))
  {
    hide Base, Forward;
    Reflexive(r);
    SameBase(r, PutBack(r, u, true));
  }

  lemma FrozenStays(a: Record, b: Record)
    requires Base(a) && Base(b) && Forward(a, b) && Frozen(a)
    ensures Frozen(b)
  {}

  // ----- Operations

  lemma ReserveKeeps(r: Record, op: RowOp, now: Time)
    requires Sound(r) && (op.BeginReserve? || op.Reserved? || op.Dispatched?) && ReserveOp(r, op, now).Ok?
    ensures Sound(ReserveOp(r, op, now).value) && Advances(r, ReserveOp(r, op, now).value)
  {
    hide Base, Forward;
    var part := Target(r, op.upload, now).value;
    if !op.upload { UnfrozenIfAdmitting(r); }
    LegStep(part, op);
    var q := ReservedPart(part, op);
    if op.upload {
      NotPaidYet(part);
      NotPaidYet(q);
      PutUploadKeeps(r, q);
    } else {
      NotPaidYet(q);
      Reflexive(r);
      if r.input.Some? { Reflexive(r.input.value.upload); }
    }
  }

  function ReservedPart(p: Record, op: RowOp): Record
    requires p.state.Live? && (op.BeginReserve? || op.Reserved? || op.Dispatched?) && op.leg < |p.state.work.legs|
  {
    var l := p.state.work.legs[op.leg];
    WithLeg(p, op.leg,
            if op.BeginReserve? then l.(uncertain := l.uncertain || l.reserve.Sent?, reserve := Sent, sends := l.sends + 1)
            else if op.Reserved? then l.(reserve := if op.allowed then Accepted else Denied)
            else l.(dispatched := true))
  }

  lemma LegStep(p: Record, op: RowOp)
    requires Base(p) && p.state.Live? && p.state.work.event.None? && (op.BeginReserve? || op.Reserved? || op.Dispatched?) && op.leg < |p.state.work.legs|
    requires op.BeginReserve? ==> !p.state.work.legs[op.leg].reserve.Accepted? && !p.state.work.legs[op.leg].reserve.Denied?
    requires op.Reserved? ==> p.state.work.legs[op.leg].reserve.Sent?
    requires op.Dispatched? ==> p.state.work.legs[op.leg].reserve.Accepted?
    ensures var q := ReservedPart(p, op);
            && Base(q) && Forward(p, q) && q.state.Live? && !Frozen(q) && q.input == p.input && q.sum.managed == p.sum.managed
            && q.sum.id == p.sum.id && q.sum.admittedAt == p.sum.admittedAt
  {
    hide Base;
    PendingLeg(p, op.leg);
    var l := p.state.work.legs[op.leg];
    var l' := ReservedPart(p, op).state.work.legs[op.leg];
    WithLegKeeps(p, op.leg, l');
  }

  lemma PendingLeg(p: Record, i: nat)
    requires Base(p) && p.state.Live? && p.state.work.event.None? && i < |p.state.work.legs|
    ensures p.state.work.legs[i].settlement.Pending? && LegOk(p.state.work.legs[i])
  {}

  /** Nothing unfrozen is paid. */
  lemma NotPaidYet(r: Record)
    requires Base(r) && !Frozen(r)
    ensures !Paid(r.sum)
  {}

  lemma FreezeKeeps(bill: Pricing, r: Record, o: Outcome, now: Time)
    requires Sound(r) && r.state.Live? && r.state.work.event.None?
    ensures Sound(FreezeJob(bill, r, o, now)) && Advances(r, FreezeJob(bill, r, o, now)) && FreezeJob(bill, r, o, now).state.Live?
    ensures Frozen(FreezeJob(bill, r, o, now)) && !Paid(FreezeJob(bill, r, o, now).sum)
  {
    hide Base, Forward, FreezeOne;
    FactsThere(r);
    FreezeOneKeeps(bill, r, o, now);
    if r.input.Some? {
      var receipt := r.input.value;
      Reflexive(receipt.upload);
      if !Frozen(receipt.upload) {
        FactsThere(receipt.upload);
        FreezeOneKeeps(bill, receipt.upload, o.(billable := !receipt.state.InputPending?), now);
        SameIds(receipt.upload, FreezeOne(bill, receipt.upload, o.(billable := !receipt.state.InputPending?), now));
      }
    }
    var f := FreezeOne(bill, r, o, now);
    SameIds(r, f);
    SameBase(f, FreezeJob(bill, r, o, now));
    ForwardTransitive(r, f, FreezeJob(bill, r, o, now));
  }

  lemma FactsThere(r: Record)
    requires Base(r) && !Frozen(r)
    ensures r.state.work.facts.Some?
  {}

  lemma SameIds(r: Record, r': Record)
    requires Forward(r, r')
    ensures r'.sum.id == r.sum.id && r'.sum.admittedAt == r.sum.admittedAt
  {}

  /** Changes of the managed state and the last error that precede a freeze. */
  lemma Annotated(r: Record, r': Record)
    requires Sound(r) && r.state.Live? && r' == r.(sum := r'.sum)
    requires r'.sum == r.sum.(lastError := r'.sum.lastError, managed := r'.sum.managed) && SameManaged(r.sum.managed, r'.sum.managed)
    ensures Sound(r') && Advances(r, r')
  {
    Reflexive(r);
  }

  lemma ObserveKeeps(bill: Pricing, r: Record, op: RowOp, now: Time)
    requires Sound(r) && op.Observe? && ObserveOp(bill, r, op, now).Ok?
    ensures Sound(ObserveOp(bill, r, op, now).value) && Advances(r, ObserveOp(bill, r, op, now).value)
  {
    hide Sound, Advances, FreezeJob;
    Reflexive(r);
    if ObserveOp(bill, r, op, now).value != r {
      var m := r.sum.managed.value;
      var lossy := op.loss.Some?;
      var noted := if lossy then r.(sum := r.sum.(lastError := ObservationUnavailable, managed := Some(m.(observationLoss := op.loss))))
                   else r.(sum := r.sum.(managed := Some(m.(terminal := Some(op.status)))));
      var o := Outcome(now, Some(op.statusCode), if !lossy && op.status == "succeeded" then "success" else "provider_error", true, None);
      Annotated(r, noted);
      FreezeKeeps(bill, noted, o, now);
      AdvancesTransitive(r, noted, FreezeJob(bill, noted, o, now));
    }
  }

  lemma ClaimKeeps(bill: Pricing, r: Record, manual: bool, now: Time)
    requires Sound(r) && ClaimOp(bill, r, manual, now).Ok?
    ensures Sound(ClaimOp(bill, r, manual, now).value) && Advances(r, ClaimOp(bill, r, manual, now).value)
  {
    hide Sound, Advances, FreezeJob;
    Reflexive(r);
    if r.state.Live? {
      if now >= r.sum.replayUntil {
        ExpireKeeps(r);
      } else {
        var lost := r.state.phase.Admitting? || (r.state.work.event.None? && now >= r.sum.observeUntil);
        var j := r;
        if lost {
          if r.state.phase.Admitting? { UnfrozenIfAdmitting(r); }
          var noted := r.(sum := r.sum.(lastError := if r.state.phase.Admitting? then AdmissionLost else ObservationExpired));
          var o := Outcome(now, None, "provider_error", r.state.work.egress, None);
          Annotated(r, noted);
          FreezeKeeps(bill, noted, o, now);
          j := FreezeJob(bill, noted, o, now);
          AdvancesTransitive(r, noted, j);
        }
        var last := if now >= j.sum.autoRetryUntil && !manual then j.WithWork(j.state.work.(nextAttemptAt := j.sum.autoRetryUntil))
                    else j.WithWork(j.state.work.(attempts := j.state.work.attempts + 1, nextAttemptAt := now + 30000));
        assert ClaimOp(bill, r, manual, now) == Ok(last);
        Rescheduled(j, last);
        AdvancesTransitive(r, j, last);
      }
    }
  }

  lemma UnfrozenIfAdmitting(r: Record)
    requires Sound(r) && r.state.Live? && r.state.phase.Admitting?
    ensures r.state.work.event.None?
  {}

  lemma ExpireKeeps(r: Record)
    requires Sound(r) && r.state.Live?
    ensures Sound(Entomb(r, Expired)) && Advances(r, Entomb(r, Expired))
  {
    Reflexive(r);
  }

  /** Changes of scheduling fields only. */
  lemma Rescheduled(r: Record, r': Record)
    requires Sound(r) && r.state.Live? && r'.state.Live?
    requires r' == r.(sum := r.sum.(lastError := r'.sum.lastError)).WithWork(
                     r.state.work.(nextAttemptAt := r'.state.work.nextAttemptAt, attempts := r'.state.work.attempts))
    requires r.state.work.attempts <= r'.state.work.attempts
    ensures Sound(r') && Advances(r, r')
  {
    Reflexive(r);
  }

  lemma AckedKeeps(p: Record, sink: Sink, settlement: Settlement, usage: Usage)
    requires Base(p) && p.state.Live? && p.state.work.event.Some? && Acked(p, sink, settlement, usage).Ok? && Acked(p, sink, settlement, usage).value.Some?
    ensures var q := Acked(p, sink, settlement, usage).value.value;
            Base(q) && Forward(p, q) && q.state.Live? && Frozen(q) && q.input == p.input && q.sum.managed == p.sum.managed
  {
    if sink.Ledger? {
      var l := p.state.work.legs[sink.leg];
      WithLegKeeps(p, sink.leg, l.(settlement := settlement, acknowledged := l.acknowledged || settlement.Settled?));
    }
  }

  lemma EntombKeeps(q: Record)
    requires Base(q) && q.state.Live? && Frozen(q)
    ensures Base(Entomb(q, Complete)) && Forward(q, Entomb(q, Complete))
  {}

  lemma AcknowledgeKeeps(r: Record, op: RowOp, now: Time)
    requires Sound(r) && op.Acknowledge? && AcknowledgeOp(r, op, now).Ok?
    ensures Sound(AcknowledgeOp(r, op, now).value) && Advances(r, AcknowledgeOp(r, op, now).value)
  {
    hide Base, Forward, Acked, Paid;
    Reflexive(r);
    var p := if op.upload then r.input.value.upload else r;
    if p.state.Live? && p.state.work.event.Some? && p.state.work.event.value.id == op.eventId && now < p.sum.replayUntil
       && Acked(p, op.sink, op.settlement, op.usage).value.Some? {
      AckedKeeps(p, op.sink, op.settlement, op.usage);
      var q := Acked(p, op.sink, op.settlement, op.usage).value.value;
      EntombKeeps(q);
      SameIds(p, q);
      if op.upload {
        ForwardTransitive(p, q, Entomb(q, Complete));
        UploadAcknowledged(r, q);
      } else {
        ForwardTransitive(p, q, Entomb(q, Complete));
        JobAcknowledged(r, q);
      }
    }
  }

  lemma JobAcknowledged(r: Record, q: Record)
    requires Sound(r) && r.state.Live? && Frozen(r) && q.state.Live? && Base(q) && Forward(r, q) && Frozen(q) && q.input == r.input
    ensures Sound(CloseIfPaid(q)) && Advances(r, CloseIfPaid(q))
  {
    hide Base, Forward, Paid;
    EntombKeeps(q);
    ForwardTransitive(r, q, Entomb(q, Complete));
    SameIds(r, q);
    if r.input.Some? { Reflexive(r.input.value.upload); }
  }

  lemma UploadAcknowledged(r: Record, q: Record)
    requires Sound(r) && r.state.Live? && r.input.Some? && r.input.value.upload.state.Live? && Frozen(r.input.value.upload)
    requires q.state.Live? && Base(q) && Forward(r.input.value.upload, q) && Frozen(q) && q.input.None? && q.sum.managed.None?
    ensures var part := CloseIfPaid(q);
            var put := PutBack(r, part, true);
            var last := if part.state.Dead? && r.state.work.event.Some? then CloseIfPaid(put) else put;
            Sound(last) && Advances(r, last)
  {
    hide Base, Forward, Paid;
    var u := r.input.value.upload;
    var part := CloseIfPaid(q);
    EntombKeeps(q);
    ForwardTransitive(u, q, Entomb(q, Complete));
    SameIds(u, q);
    var put := PutBack(r, part, true);
    Reflexive(r);
    SameBase(r, put);
    if part.state.Dead? && r.state.work.event.Some? {
      if Paid(r.sum) {
        EntombKeeps(put);
        ForwardTransitive(r, put, Entomb(put, Complete));
      }
    } else if !Frozen(r) {
      NotPaidYet(r);
    }
  }

  lemma SameBase(r: Record, r': Record)
    requires r.state.Live? && r' == r.(input := r'.input)
    ensures Base(r') == Base(r) && Forward(r, r')
  {
    Reflexive(r);
  }

  lemma FreezeOpKeeps(bill: Pricing, r: Record, o: Outcome, upload: bool, now: Time)
    requires Sound(r) && FreezeOp(bill, r, o, upload, now).Ok?
    ensures Sound(FreezeOp(bill, r, o, upload, now).value) && Advances(r, FreezeOp(bill, r, o, upload, now).value)
  {
    hide Base, Forward, FreezeOne;
    Reflexive(r);
    if upload {
      var u := r.input.value.upload;
      if !Frozen(u) {
        FactsThere(u);
        FreezeOneKeeps(bill, u, o, now);
        SameIds(u, FreezeOne(bill, u, o, now));
        NotPaidYet(u);
        PutUploadKeeps(r, FreezeOne(bill, u, o, now));
      }
    } else if !Frozen(r) {
      FreezeKeeps(bill, r, o, now);
    }
  }

  /** Changes of an unfrozen admitting row that touch neither money nor identity. */
  lemma Marked(r: Record, r': Record)
    requires Sound(r) && r.state.Live? && r'.state.Live? && r.state.work.event.None? && Rank(r) <= Rank(r') < 2
    requires r'.sum == r.sum.(managed := r'.sum.managed) && SameManaged(r.sum.managed, r'.sum.managed)
    requires r'.state.work == r.state.work.(egress := r'.state.work.egress, dispatchClaimed := r'.state.work.dispatchClaimed, contentRef := r'.state.work.contentRef,
                                responseId := r'.state.work.responseId, nextAttemptAt := r'.state.work.nextAttemptAt)
    requires (r.state.work.egress ==> r'.state.work.egress) && (r.state.work.dispatchClaimed ==> r'.state.work.dispatchClaimed)
    requires r.input.None? <==> r'.input.None?
    requires r.input.Some? ==>
               && ReceiptForward(r.input.value, r'.input.value)
               && UploadOk(r, r'.input.value.upload) && Forward(r.input.value.upload, r'.input.value.upload)
    ensures Sound(r') && Advances(r, r')
  {
    Reflexive(r);
  }

  lemma InputKeeps(bill: Pricing, r: Record, op: RowOp, now: Time)
    requires Sound(r) && (op.ClaimUpload? || op.BindUpload? || op.ClaimCreate?) && Apply(bill, r, op, now).Ok?
    ensures Sound(Apply(bill, r, op, now).value) && Advances(r, Apply(bill, r, op, now).value)
  {
    hide Base, Forward, FreezeOp;
    var receipt := r.input.value;
    UnfrozenIfAdmitting(r);
    Reflexive(receipt.upload);
    match op
    case ClaimUpload(b) =>
      var u := receipt.upload;
      var u' := u.WithWork(u.state.work.(egress := true));
      EgressMark(u, u');
      Marked(r, ClaimUploadOp(r, b, now).value);
    case BindUpload(b, imageId) =>
      var bound := r.(input := Some(receipt.(imageId := Some(imageId), state := InputBound)));
      var o := Outcome(now, Some(200), "success", true, None);
      Marked(r, bound);
      FreezeOpKeeps(bill, bound, o, true, now);
      AdvancesTransitive(r, bound, FreezeOp(bill, bound, o, true, now).value);
    case ClaimCreate(b) =>
      Marked(r, ClaimCreateOp(r, b, now).value);
  }

  lemma EgressMark(u: Record, u': Record)
    requires Base(u) && u.state.Live? && u.input.None? && u' == u.WithWork(u.state.work.(egress := true))
    ensures Base(u') && Forward(u, u')
  {
    Reflexive(u);
  }

  /** Every operation keeps a row sound and moves it forward. */
  lemma Preserves(bill: Pricing, r: Record, op: RowOp, now: Time)
    requires Sound(r) && Apply(bill, r, op, now).Ok?
    ensures Sound(Apply(bill, r, op, now).value) && Advances(r, Apply(bill, r, op, now).value)
  {
    hide Sound, Advances, FreezeOp, ObserveOp, AcknowledgeOp, ClaimOp, ReserveOp, ClaimUploadOp, BindUploadOp, ClaimCreateOp;
    Reflexive(r);
    match op
    case BeginDispatch(contentRef) => PlainKeeps(bill, r, op, now);
    case BeginEgress => PlainKeeps(bill, r, op, now);
    case Identity(responseId) => PlainKeeps(bill, r, op, now);
    case Observe(_, _, _, _, _) => ObserveKeeps(bill, r, op, now);
    case Freeze(outcome, upload) => FreezeOpKeeps(bill, r, outcome, upload, now);
    case Acknowledge(_, _, _, _, _) => AcknowledgeKeeps(r, op, now);
    case Claim(manual) => ClaimKeeps(bill, r, manual, now);
    case Retry(error, attempt) => if RetryOp(r, error, attempt, now) != r { Rescheduled(r, RetryOp(r, error, attempt, now)); }
    case BeginReserve(_, _) => ReserveKeeps(r, op, now);
    case Reserved(_, _, _) => ReserveKeeps(r, op, now);
    case Dispatched(_, _) => ReserveKeeps(r, op, now);
    case ClaimUpload(_) => InputKeeps(bill, r, op, now);
    case BindUpload(_, _) => InputKeeps(bill, r, op, now);
    case ClaimCreate(_) => InputKeeps(bill, r, op, now);
  }

  lemma PlainKeeps(bill: Pricing, r: Record, op: RowOp, now: Time)
    requires Sound(r) && (op.BeginDispatch? || op.BeginEgress? || op.Identity?) && Apply(bill, r, op, now).Ok?
    ensures Sound(Apply(bill, r, op, now).value) && Advances(r, Apply(bill, r, op, now).value)
  {
    Reflexive(r);
    var r' := Apply(bill, r, op, now).value;
    if r' != r {
      if r.state.phase.Admitting? { UnfrozenIfAdmitting(r); }
      if r.input.Some? { Reflexive(r.input.value.upload); }
      Marked(r, r');
    }
  }

  // ----- Once and for all

  /** The request is released only with every leg reserved and dispatched, and the dispatch claimed for a managed job. */
  lemma EgressIsPaidFor(bill: Pricing, r: Record, now: Time)
    requires Sound(r) && Apply(bill, r, BeginEgress, now).Ok?
    ensures forall i :: 0 <= i < |r.state.work.legs| ==> r.state.work.legs[i].reserve.Accepted? && r.state.work.legs[i].dispatched && r.state.work.legs[i].sends >= 1
    ensures r.sum.managed.Some? ==> r.state.work.dispatchClaimed
  {
    forall i | 0 <= i < |r.state.work.legs| ensures r.state.work.legs[i].sends >= 1 {
      assert LegOk(r.state.work.legs[i]);
    }
  }

  predicate SameClaim(op: RowOp, op': RowOp) {
    || (op.BeginEgress? && op'.BeginEgress?)
    || ((op.BeginDispatch? || op.ClaimCreate?) && (op'.BeginDispatch? || op'.ClaimCreate?))
    || (op.ClaimUpload? && op'.ClaimUpload?)
  }

  /** A dispatch, a release, an upload and a creation are each claimed at most once in the life of a row: after one
      succeeds, no row that follows grants it again, at any time. */
  lemma ClaimedOnce(bill: Pricing, r: Record, op: RowOp, now: Time, later: Record, op': RowOp, after: Time)
    requires Sound(r) && Sound(later) && SameClaim(op, op')
    requires Apply(bill, r, op, now).Ok? && Advances(Apply(bill, r, op, now).value, later)
    ensures Apply(bill, later, op', after).Err?
  {
    hide Sound, LegsAdvance, SameIdentity;
  }

  /** What a live part knows of its provider's job. */
  function KnownId(r: Record): Option<string> {
    if r.state.Live? && r.state.work.event.None? then r.state.work.responseId else None
  }

  /** The upstream identity is set by the one operation that names it, and never changes until the job is frozen. */
  lemma IdentityIsFixed(bill: Pricing, r: Record, op: RowOp, now: Time)
    requires Sound(r) && Apply(bill, r, op, now).Ok? && !Frozen(r) && !Frozen(Apply(bill, r, op, now).value)
    ensures KnownId(r).Some? ==> KnownId(Apply(bill, r, op, now).value) == KnownId(r)
    ensures KnownId(r).None? && KnownId(Apply(bill, r, op, now).value).Some? ==> op.Identity? && KnownId(Apply(bill, r, op, now).value) == Some(op.responseId)
    ensures op.Identity? && now < r.sum.observeUntil ==> KnownId(Apply(bill, r, op, now).value) == Some(op.responseId)
  {
    hide Sound, FreezeOne, Settlements, Paid, EncodedSize, NativeId, ImageId;
    if op.Observe? && ObserveOp(bill, r, op, now).value != r { ObserveFreezes(bill, r, op, now); }
    if op.Claim? { ClaimFreezes(bill, r, op.manual, now); }
    if op.Freeze? && !op.upload { FreezeKeeps(bill, r, op.outcome, now); }
  }

  lemma ClaimFreezes(bill: Pricing, r: Record, manual: bool, now: Time)
    requires Sound(r) && ClaimOp(bill, r, manual, now).Ok? && !Frozen(r) && !Frozen(ClaimOp(bill, r, manual, now).value)
    ensures var w := ClaimOp(bill, r, manual, now).value.state.work; w.responseId == r.state.work.responseId && w.contentRef == r.state.work.contentRef
  {
    hide Sound, FreezeJob;
    if r.state.phase.Admitting? || now >= r.sum.observeUntil {
      var noted := r.(sum := r.sum.(lastError := if r.state.phase.Admitting? then AdmissionLost else ObservationExpired));
      Annotated(r, noted);
      FreezeKeeps(bill, noted, Outcome(now, None, "provider_error", r.state.work.egress, None), now);
    }
  }

  /** The outcome on a receipt. */
  function Receipted(r: Record): Option<Outcome> {
    if r.state.Live? && r.state.work.event.Some? then Some(r.state.work.event.value.outcome) else None
  }

  /** A terminal observation freezes the job: successful exactly when the provider says so and the job was not lost. */
  lemma ObserveFreezes(bill: Pricing, r: Record, op: RowOp, now: Time)
    requires Sound(r) && op.Observe? && ObserveOp(bill, r, op, now).Ok? && ObserveOp(bill, r, op, now).value != r
    ensures var o := Receipted(ObserveOp(bill, r, op, now).value);
            && o.Some? && o.value.statusCode == Some(op.statusCode) && o.value.occurredAt == now && o.value.billable
            && (o.value.status == "success" <==> op.status == "succeeded" && op.loss.None?) && (o.value.status != "success" ==> o.value.status == "provider_error")
  {
    hide FrozenLegs, Settlements, Base;
  }

  /** A job that is lost is billed exactly when its request had been released, and its upload when that had been claimed. */
  lemma LossIsBilled(bill: Pricing, r: Record, manual: bool, now: Time)
    requires Sound(r) && !Frozen(r) && ClaimOp(bill, r, manual, now).Ok?
    ensures var r' := ClaimOp(bill, r, manual, now).value;
            && (Receipted(r').Some? ==> (Receipted(r').value.billable <==> r.state.work.egress) && Receipted(r').value.status == "provider_error")
            && (r.input.Some? && !Frozen(r.input.value.upload) && Receipted(r').Some? ==>
                  && r'.input.Some? && Receipted(r'.input.value.upload).Some?
                  && (Receipted(r'.input.value.upload).value.billable <==> !r.input.value.state.InputPending?))
  {
    hide FrozenLegs, Settlements;
  }

  // ----- Inputs, receipts and content

  /** An input goes through upload, binding and creation in this order, for its own binding and before that expires. */
  lemma InputInOrder(bill: Pricing, r: Record, op: RowOp, now: Time)
    requires Sound(r) && (op.ClaimUpload? || op.BindUpload? || op.ClaimCreate?) && Apply(bill, r, op, now).Ok?
    ensures r.input.Some? && r.input.value.binding == op.binding && op.binding.jobId == r.sum.id && now < op.binding.expiresAt
    ensures var before, after := r.input.value, Apply(bill, r, op, now).value.input;
            && after.Some?
            && (op.ClaimUpload? ==> before.state.InputPending? && after.value.state.DispatchUnknown?)
            && (op.BindUpload? ==> !before.state.InputPending? && after.value.state.InputBound? && after.value.imageId == Some(op.imageId) && Frozen(after.value.upload))
            && (op.ClaimCreate? ==> before.state.InputBound? && before.imageId.Some? && !before.createClaimed && after.value.createClaimed)
  {
    hide Sound, ImageId, AllAccepted, FrozenLegs, Settlements;
  }

  /** A receipt is priced from the job's own facts and says what was reserved, for which intents, and which content was claimed. */
  lemma ReceiptIsOwn(bill: Pricing, r: Record, outcome: Outcome, now: Time)
    requires Sound(r) && !Frozen(r)
    ensures var e, w := FreezeJob(bill, r, outcome, now).state.work.event, r.state.work;
            && e.Some? && w.facts.Some? && e.value.id == r.sum.eventId && e.value.price == bill(w.facts.value, e.value.outcome)
            && FreezeJob(bill, r, outcome, now).sum.price == Some(e.value.price)
            && e.value.reservedMicros == w.reservedMicros && |e.value.intents| == |w.legs| && (forall i :: 0 <= i < |w.legs| ==> e.value.intents[i] == w.legs[i].intent)
            && e.value.outcome == outcome.(contentRef := e.value.outcome.contentRef)
            && e.value.outcome.contentRef == (if outcome.contentRef.Some? then outcome.contentRef else w.contentRef)
  {
    hide FrozenLegs, Settlements;
  }

  /** The content claimed with the dispatch is kept until the job is frozen. */
  lemma ContentIsKept(bill: Pricing, r: Record, op: RowOp, now: Time)
    requires Sound(r) && Apply(bill, r, op, now).Ok? && !Frozen(r) && !Frozen(Apply(bill, r, op, now).value)
    ensures Apply(bill, r, op, now).value.state.work.contentRef == if op.BeginDispatch? then op.contentRef else if op.ClaimCreate? then None else r.state.work.contentRef
  {
    hide Sound, FreezeOne, Settlements, Paid, EncodedSize, NativeId, ImageId;
    if op.Observe? && ObserveOp(bill, r, op, now).value != r { ObserveFreezes(bill, r, op, now); }
    if op.Claim? { ClaimFreezes(bill, r, op.manual, now); }
    if op.Freeze? && !op.upload { FreezeKeeps(bill, r, op.outcome, now); }
  }
}

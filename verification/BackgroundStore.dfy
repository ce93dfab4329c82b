/**
 `BackgroundStore` of `worker/background-store.ts` in its own form: a table of rows that methods read, change a copy
 of, and save back, sometimes more than once in a call. Each call performs exactly one step of `BackgroundRuns`, so
 what holds over every run there holds over every sequence of calls here.
 */
module BackgroundStore {
  import opened Basics
  import opened BackgroundRecords
  import opened BackgroundLaws
  import opened BackgroundRuns

  const CLAIM_LIMIT: nat := 4

  function JobAt(t: Table, id: string): Option<Record> {
    if id in t && t[id].JobRow? then Some(t[id].job) else None
  }

  // ----- When a row is due

  /** The `next_action_ms` column, which every save recomputes. */
  function NextAction(r: Record): Option<Time> {
    if r.state.Dead? then None
    else
      var w := r.state.work;
      var last := if w.event.None? then Min(r.sum.replayUntil, r.sum.observeUntil) else r.sum.replayUntil;
      if w.nextAttemptAt >= r.sum.autoRetryUntil then Some(last)
      else Some(Min(last, if w.event.None? && w.responseId.None? && r.state.phase.Observing? then r.sum.observeUntil else w.nextAttemptAt))
  }

  predicate Due(row: Row, now: Time) {
    row.JobRow? && NextAction(row.job).Some? && NextAction(row.job).value <= now
  }

  /** The answer of the query for due rows, in order of their due times; ties in any order. */
  ghost predicate Picked(t: Table, now: Time, picked: seq<string>) {
    && |picked| <= CLAIM_LIMIT
    && (forall i, j :: 0 <= i < j < |picked| ==> picked[i] != picked[j])
    && (forall i :: 0 <= i < |picked| ==> picked[i] in t && Due(t[picked[i]], now))
    && (forall i, j :: 0 <= i < j < |picked| ==> NextAction(t[picked[i]].job).value <= NextAction(t[picked[j]].job).value)
    && (forall id, i :: id in t && Due(t[id], now) && id !in picked && 0 <= i < |picked| ==>
          NextAction(t[picked[i]].job).value <= NextAction(t[id].job).value)
    && (|picked| < CLAIM_LIMIT ==> forall id :: id in t && Due(t[id], now) ==> id in picked)
  }

  /** No live row sleeps past its replay deadline, nor an unfrozen one past its observation deadline. */
  lemma NeverSleepsIn(r: Record)
    requires Sound(r) && r.state.Live?
    ensures NextAction(r).Some? && NextAction(r).value <= r.sum.replayUntil
    ensures !Frozen(r) ==> NextAction(r).value <= r.sum.observeUntil
  {}

  /** A retry under the current attempt waits at least five seconds, at most half a minute while the job is observed and at
      most an hour afterwards, and changes nothing but the schedule and the error. */
  lemma RetrySchedule(r: Record, error: LastError, now: Time)
    requires r.state.Live?
    ensures var next := RetryOp(r, error, r.state.work.attempts, now);
            && next.state.Live? && now + 5000 <= next.state.work.nextAttemptAt <= now + (if Frozen(r) then 3600000 else 30000)
            && (!Frozen(r) && error == NoError ==> next.state.work.nextAttemptAt == now + 5000)
            && next == r.(sum := r.sum.(lastError := error)).WithWork(r.state.work.(nextAttemptAt := next.state.work.nextAttemptAt))
    ensures forall attempt: nat :: attempt != r.state.work.attempts ==> RetryOp(r, error, attempt, now) == r
  {
    PowerPositive(if r.state.work.attempts < 10 then r.state.work.attempts else 10);
  }

  lemma {:induction false} PowerPositive(n: nat)
    ensures Power2(n) >= 1
  {
    if n > 0 { PowerPositive(n - 1); }
  }

  /** A claim always moves the row's due time past the present, so no row can be claimed twice at one instant. */
  lemma ClaimMovesOn(bill: Pricing, r: Record, now: Time)
    requires Sound(r)
    ensures ClaimOp(bill, r, false, now).Ok?
    ensures !Due(JobRow(ClaimOp(bill, r, false, now).value), now)
  {
    hide FreezeOne;
    if r.state.Live? && now < r.sum.replayUntil {
      if r.state.phase.Admitting? { UnfrozenIfAdmitting(r); }
      if r.state.phase.Admitting? || (r.state.work.event.None? && now >= r.sum.observeUntil) {
        var noted := r.(sum := r.sum.(lastError := if r.state.phase.Admitting? then AdmissionLost else ObservationExpired));
        var o := Outcome(now, None, "provider_error", r.state.work.egress, None);
        Annotated(r, noted);
        FreezeKeeps(bill, noted, o, now);
      }
    }
  }

  /** Claiming the picked rows removes exactly them from the rows due now. */
  lemma {:induction false} ClaimDrains(bill: Pricing, t: Table, picked: seq<string>, now: Time, id: string)
    requires AllSound(t) && id in t
    requires forall i, j :: 0 <= i < j < |picked| ==> picked[i] != picked[j]
    requires forall i :: 0 <= i < |picked| ==> picked[i] in t && t[picked[i]].JobRow?
    ensures id in ClaimRows(bill, t, picked, now)
    ensures Due(ClaimRows(bill, t, picked, now)[id], now) <==> Due(t[id], now) && id !in picked
    ensures id !in picked ==> ClaimRows(bill, t, picked, now)[id] == t[id]
    decreases |picked|
  {
    hide Due, ClaimOp, Sound;
    if picked != [] {
      var head := picked[0];
      ClaimMovesOn(bill, t[head].job, now);
      RowKeepsSound(bill, t, head, Claim(false), now);
      var t1 := RowApply(bill, t, head, Claim(false), now).value;
      ClaimDrains(bill, t1, picked[1..], now, id);
      assert picked == [head] + picked[1..];
    }
  }

  // ----- The table

  /** The job, or the upload nested in it. */
  function PartAt(rows: Table, id: string, upload: bool): Option<Record> {
    var job := JobAt(rows, id);
    if job.None? || !upload then job else if job.value.input.None? then None else Some(job.value.input.value.upload)
  }

  function IntentAt(rows: Table, id: string, upload: bool, leg: nat): Option<string> {
    var part := PartAt(rows, id, upload);
    if part.None? || part.value.state.Dead? || leg >= |part.value.state.work.legs| then None else Some(part.value.state.work.legs[leg].intent)
  }

  ghost predicate Answers<S, T>(expected: Result<S>, r: Result<T>) {
    (expected.Ok? <==> r.Ok?) && (r.Err? ==> r.error == expected.error)
  }

  lemma InvSound(s: Store)
    requires Inv(s)
    ensures AllSound(s.table)
  {}

  lemma RowIds(t: Table, id: string)
    requires AllSound(t)
    ensures JobAt(t, id).Some? ==> Sound(JobAt(t, id).value) && JobAt(t, id).value.sum.id == id
    ensures JobAt(t, id).Some? && JobAt(t, id).value.input.Some? ==>
              JobAt(t, id).value.input.value.upload.sum.id == id && Base(JobAt(t, id).value.input.value.upload)
  {}

  lemma SoundBase(r: Record)
    requires Sound(r)
    ensures Base(r)
  {}

  lemma FactsWhenUnfrozen(r: Record)
    requires Base(r)
    ensures !Frozen(r) ==> r.state.work.facts.Some?
  {}

  lemma SoundUpload(r: Record)
    requires Sound(r)
    ensures r.input.Some? ==> r.input.value.upload.sum.id == r.sum.id && Base(r.input.value.upload)
  {}

  /** A claim hands the row to the collector. */
  predicate Worked(r: Record, manual: bool, now: Time) {
    r.state.Live? && now < r.sum.replayUntil && (manual || now < r.sum.autoRetryUntil)
  }

  /** The rows a claim hands out, as the claim left them. */
  function Handed(t: Table, t': Table, picked: seq<string>, now: Time): seq<Record>
    requires forall i :: 0 <= i < |picked| ==> picked[i] in t && t[picked[i]].JobRow? && picked[i] in t' && t'[picked[i]].JobRow?
  {
    if picked == [] then []
    else
      var n := |picked| - 1;
      Handed(t, t', picked[..n], now) + if Worked(t[picked[n]].job, false, now) then [t'[picked[n]].job] else []
  }

  lemma {:induction false} WorkFrame(t: Table, a: Table, b: Table, picked: seq<string>, now: Time)
    requires forall i :: 0 <= i < |picked| ==> picked[i] in t && t[picked[i]].JobRow? && picked[i] in a && a[picked[i]].JobRow?
    requires forall i :: 0 <= i < |picked| ==> picked[i] in b && a[picked[i]] == b[picked[i]]
    ensures Handed(t, a, picked, now) == Handed(t, b, picked, now)
  {
    if picked != [] { WorkFrame(t, a, b, picked[..|picked| - 1], now); }
  }

  /** Manual recovery never touches an unfrozen job. */
  lemma ManualIsFrozen(bill: Pricing, r: Record, now: Time)
    requires Sound(r) && ClaimOp(bill, r, true, now).Ok?
    ensures Frozen(r) && Frozen(ClaimOp(bill, r, true, now).value)
  {}

  lemma PickedJobs(t: Table, now: Time, picked: seq<string>)
    requires Picked(t, now, picked)
    ensures forall i :: 0 <= i < |picked| ==> picked[i] in t && t[picked[i]].JobRow?
    ensures forall i, j :: 0 <= i < j < |picked| ==> picked[i] != picked[j]
  {}

  lemma ClaimNone(bill: Pricing, t: Table, picked: seq<string>, now: Time)
    requires AllSound(t) && picked == []
    ensures ClaimRows(bill, t, picked, now) == t
  {}

  /** One row of a claim. */
  lemma ClaimHead(bill: Pricing, t: Table, picked: seq<string>, k: nat, now: Time)
    requires AllSound(t) && k < |picked| && JobAt(t, picked[k]).Some?
    ensures var after := ClaimOp(bill, t[picked[k]].job, false, now);
            && after.Ok? && AllSound(t[picked[k] := JobRow(after.value)]) && after.value.sum.id == picked[k]
            && ClaimRows(bill, t[picked[k] := JobRow(after.value)], picked[k + 1..], now) == ClaimRows(bill, t, picked[k..], now)
  {
    hide ClaimOp, Sound, Due;
    var id := picked[k];
    ClaimMovesOn(bill, t[id].job, now);
    RowKeepsSound(bill, t, id, Claim(false), now);
    assert picked[k..] == [id] + picked[k + 1..];
  }

  lemma OlderOrders(t: Table, a: string, b: string, c: string)
    requires a in t && b in t && c in t && t[a].JobRow? && t[b].JobRow? && t[c].JobRow?
    ensures a == b || Older(t, a, b) || Older(t, b, a)
    ensures Older(t, a, b) && Older(t, b, c) ==> Older(t, a, c)
  {
    BelowOrders(a, b, c);
  }

  /** An eviction finds a row whenever there is an evictable one. */
  lemma OldestExists(t: Table, now: Time, id: string)
    requires id in t && Evictable(t[id], now)
    ensures exists v :: Victim(t, now, v)
  {
    var all := set x | x in t && Evictable(t[x], now);
    assert id in all;
    var v := OldestOf(t, all);
    assert Victim(t, now, v);
  }

  /** The older of a set's oldest row and one more row is the oldest of them all. */
  lemma OlderOfTwo(t: Table, rest: set<string>, w: string, more: string) returns (v: string)
    requires more in t && t[more].JobRow? && more !in rest && w in rest && forall x :: x in rest ==> x in t && t[x].JobRow?
    requires forall x :: x in rest && x != w ==> Older(t, w, x)
    ensures (v == w || v == more) && forall x :: (x in rest || x == more) && x != v ==> Older(t, v, x)
  {
    hide Older;
    OlderOrders(t, more, w, w);
    v := if Older(t, w, more) then w else more;
    forall x | x in rest && x != v ensures Older(t, v, x) { OlderOrders(t, more, w, x); }
  }

  lemma {:induction false} OldestOf(t: Table, ids: set<string>) returns (v: string)
    requires ids != {} && forall x :: x in ids ==> x in t && t[x].JobRow?
    ensures v in ids && forall x :: x in ids && x != v ==> Older(t, v, x)
    decreases |ids|
  {
    v :| v in ids;
    var rest := ids - {v};
    if rest != {} {
      var w := OldestOf(t, rest);
      v := OlderOfTwo(t, rest, w, v);
    }
  }

  lemma NewId(a: Admission)
    ensures NewJob(a).sum.id == a.id
  {}

  lemma InputId(r: Record, b: Binding, u: Record)
    ensures WithInput(r, b, u).sum == r.sum
  {}

  /** Only one row carries a digest. */
  lemma InvAssetIds(s: Store)
    requires Inv(s)
    ensures AssetsOk(s.table)
  {}

  lemma OwnAsset(t: Table, id: string)
    requires AssetsOk(t) && id in t && t[id].AssetRow?
    ensures t[id].asset.binding.id == id
  {}

  lemma SameAsset(t: Table, id: string, b: AssetBinding)
    requires UniqueAssets(t) && id in t && AssetMatches(t[id], b.digest)
    ensures (exists x :: x in t && AssetMatches(t[x], b.digest) && t[x].asset.binding == b) <==> t[id].asset.binding == b
  {}

  lemma InvKeys(s: Store, now: Time)
    requires Inv(s) && s.clock <= now
    ensures UniqueKeys(s.table, now)
  {
    hide AllSound, Guarded, Spaced;
    TimePasses(s.table, s.clock, now);
  }

  class JobTable {
    const bill: Pricing
    var rows: Table
    ghost var clock: Time
    ghost var grants: seq<Grant>

    ghost function State(): Store
      reads this
    {
      Store(rows, clock, grants)
    }

    ghost predicate Valid()
      reads this
    {
      Inv(State())
    }

    constructor (bill: Pricing, ghost now: Time)
      ensures Valid() && State() == Empty(now) && this.bill == bill
    {
      this.bill := bill;
      rows, clock, grants := map[], now, [];
      new;
      EmptyInv(now);
    }

    /** The store after an operation, and how the operation is answered, in the run model. */
    ghost function Stepped(op: Op, now: Time): Store
      requires Valid()
      reads this
    {
      Step(bill, State(), op, now)
    }

    ghost function Answered(op: Op, now: Time): Result<Table>
      requires Valid()
      reads this
    {
      TableAfter(bill, rows, op, now)
    }

    /** Where the call takes the history; the table itself is for the caller to change. */
    ghost method Enter(op: Op, now: Time)
      requires Valid() && clock <= now
      modifies this`clock, this`grants
      ensures Inv(Step(bill, old(State()), op, now))
      ensures Store(rows, clock, grants) == Step(bill, old(State()), op, now).(table := rows)
    {
      StepKeeps(bill, State(), op, now);
      grants := grants + Released(bill, State(), op, now);
      clock := now;
    }

    // ----- Reading and saving rows

    method Get(id: string) returns (r: Option<Record>)
      ensures r == JobAt(rows, id)
    {
      r := if id in rows && rows[id].JobRow? then Some(rows[id].job) else None;
    }

    method Job(id: string) returns (r: Result<Record>)
      ensures r == match JobAt(rows, id)
                   case None => Err(Missing)
                   case Some(record) => if record.state.Live? then Ok(record) else Err(Closed)
    {
      var record := Get(id);
      r := if record.None? then Err(Missing) else if record.value.state.Dead? then Err(Closed) else Ok(record.value);
    }

    method Admitting(id: string, now: Time) returns (r: Result<Record>)
      ensures JobAt(rows, id).None? ==> r == Err(Missing)
      ensures JobAt(rows, id).Some? ==> r == Target(JobAt(rows, id).value, false, now)
    {
      r := Job(id);
      if r.Ok? && (!r.value.state.phase.Admitting? || now >= r.value.sum.admittedAt + 60000) { r := Err(AdmissionExpired); }
    }

    method Upload(id: string, ghost now: Time) returns (r: Result<Record>)
      ensures JobAt(rows, id).None? ==> r == Err(Missing)
      ensures JobAt(rows, id).Some? ==> r == Target(JobAt(rows, id).value, true, now)
    {
      r := Job(id);
      if r.Ok? {
        if r.value.input.None? { return Err(InputUnavailable); }
        var u := r.value.input.value.upload;
        if u.state.Dead? || !u.state.phase.Admitting? || u.state.work.event.Some? { return Err(InputUnavailable); }
        r := Ok(u);
      }
    }

    method Save(record: Record)
      modifies this`rows
      ensures rows == old(rows)[record.sum.id := JobRow(record)]
    {
      rows := rows[record.sum.id := JobRow(record)];
    }

    /** Puts a changed part back into a freshly read row. */
    method SaveOperation(part: Record, upload: bool) returns (r: Result<()>)
      requires upload ==> JobAt(rows, part.sum.id).Some? && JobAt(rows, part.sum.id).value.input.Some?
      requires upload ==> JobAt(rows, part.sum.id).value.sum.id == part.sum.id
      modifies this`rows
      ensures !upload ==> r.Ok? && rows == old(rows)[part.sum.id := JobRow(part)]
      ensures upload ==>
                var record := JobAt(old(rows), part.sum.id).value;
                if record.state.Dead? then r == Err(Closed) && rows == old(rows)
                else r.Ok? && rows == old(rows)[part.sum.id := JobRow(PutBack(record, part, true))]
    {
      if !upload { Save(part); return Ok(()); }
      var job := Job(part.sum.id);
      if job.Err? { return Err(job.error); }
      Save(job.value.(input := Some(job.value.input.value.(upload := part))));
      r := Ok(());
    }

    // ----- Reservations

    /** The job still being admitted, or its upload. */
    method PartOf(id: string, upload: bool, now: Time) returns (r: Result<Record>)
      ensures JobAt(rows, id).None? ==> r == Err(Missing)
      ensures JobAt(rows, id).Some? ==> r == Target(JobAt(rows, id).value, upload, now)
    {
      if upload { r := Upload(id, now); } else { r := Admitting(id, now); }
    }

    method BeginReserve(id: string, index: nat, upload: bool, now: Time) returns (r: Result<string>)
      requires Valid() && clock <= now
      modifies this
      ensures Valid() && State() == old(Stepped(OnRow(id, RowOp.BeginReserve(index, upload)), now))
      ensures Answers(old(Answered(OnRow(id, RowOp.BeginReserve(index, upload)), now)), r)
      ensures r.Ok? ==> IntentAt(rows, id, upload, index) == Some(r.value)
    {
      hide Inv, AllSound, Sound, Settlements, Released;
      hide DispatchOp, EgressOp, IdentityOp, ObserveOp, FreezeOp, AcknowledgeOp, ClaimOp, RetryOp, ClaimUploadOp, BindUploadOp, ClaimCreateOp;
      Enter(OnRow(id, RowOp.BeginReserve(index, upload)), now);
      InvSound(old(State()));
      RowIds(rows, id);
      var part := PartOf(id, upload, now);
      if part.Err? { return Err(part.error); }
      if index >= |part.value.state.work.legs| { return Err(Invalid); }
      var leg := part.value.state.work.legs[index];
      if leg.reserve.Accepted? || leg.reserve.Denied? { return Err(Invalid); }
      if leg.reserve.Sent? { leg := leg.(uncertain := true); }
      leg := leg.(reserve := Sent, sends := leg.sends + 1);
      var saved := SaveOperation(WithLeg(part.value, index, leg), upload);
      r := Ok(leg.intent);
    }

    method Reserved(id: string, index: nat, allowed: bool, upload: bool, now: Time) returns (r: Result<()>)
      requires Valid() && clock <= now
      modifies this
      ensures Valid() && State() == old(Stepped(OnRow(id, RowOp.Reserved(index, allowed, upload)), now))
      ensures Answers(old(Answered(OnRow(id, RowOp.Reserved(index, allowed, upload)), now)), r)
    {
      hide Inv, AllSound, Sound, Settlements, Released;
      Enter(OnRow(id, RowOp.Reserved(index, allowed, upload)), now);
      InvSound(old(State()));
      RowIds(rows, id);
      var part := PartOf(id, upload, now);
      if part.Err? { return Err(part.error); }
      if index >= |part.value.state.work.legs| || !part.value.state.work.legs[index].reserve.Sent? { return Err(Invalid); }
      var leg := part.value.state.work.legs[index].(reserve := if allowed then Accepted else Denied);
      r := SaveOperation(WithLeg(part.value, index, leg), upload);
    }

    method Dispatched(id: string, index: nat, upload: bool, now: Time) returns (r: Result<()>)
      requires Valid() && clock <= now
      modifies this
      ensures Valid() && State() == old(Stepped(OnRow(id, RowOp.Dispatched(index, upload)), now))
      ensures Answers(old(Answered(OnRow(id, RowOp.Dispatched(index, upload)), now)), r)
    {
      hide Inv, AllSound, Sound, Settlements, Released;
      Enter(OnRow(id, RowOp.Dispatched(index, upload)), now);
      InvSound(old(State()));
      RowIds(rows, id);
      var part := PartOf(id, upload, now);
      if part.Err? { return Err(part.error); }
      if index >= |part.value.state.work.legs| || !part.value.state.work.legs[index].reserve.Accepted? { return Err(Invalid); }
      r := SaveOperation(WithLeg(part.value, index, part.value.state.work.legs[index].(dispatched := true)), upload);
    }

    // ----- Dispatch, egress and identity

    method BeginDispatch(id: string, contentRef: Option<string>, now: Time) returns (r: Result<Record>)
      requires Valid() && clock <= now
      modifies this
      ensures Valid() && State() == old(Stepped(OnRow(id, RowOp.BeginDispatch(contentRef)), now))
      ensures Answers(old(Answered(OnRow(id, RowOp.BeginDispatch(contentRef)), now)), r)
      ensures r.Ok? ==> JobAt(rows, id) == Some(r.value)
    {
      hide Inv, AllSound, Sound, Released;
      Enter(OnRow(id, RowOp.BeginDispatch(contentRef)), now);
      InvSound(old(State()));
      RowIds(rows, id);
      r := ClaimDispatch(id, contentRef, false, now);
    }

    /** `beginDispatch`, shared with the creation that follows an upload. */
    method ClaimDispatch(id: string, contentRef: Option<string>, input: bool, now: Time) returns (r: Result<Record>)
      requires JobAt(rows, id).Some? ==> JobAt(rows, id).value.sum.id == id
      modifies this`rows
      ensures JobAt(old(rows), id).None? ==> r == Err(Missing)
      ensures JobAt(old(rows), id).Some? ==> r == DispatchOp(JobAt(old(rows), id).value, contentRef, input, now)
      ensures rows == if r.Ok? then old(rows)[id := JobRow(r.value)] else old(rows)
    {
      r := Admitting(id, now);
      if r.Err? { return; }
      var job := r.value;
      if job.input.Some? && !input { return Err(InputUnavailable); }
      if job.state.work.dispatchClaimed { return Err(DispatchClaimed); }
      job := job.WithWork(job.state.work.(dispatchClaimed := true, contentRef := contentRef));
      Save(job);
      r := Ok(job);
    }

    method BeginEgress(id: string, now: Time) returns (r: Result<Record>)
      requires Valid() && clock <= now
      modifies this
      ensures Valid() && State() == old(Stepped(OnRow(id, RowOp.BeginEgress), now))
      ensures Answers(old(Answered(OnRow(id, RowOp.BeginEgress), now)), r)
      ensures r.Ok? ==> JobAt(rows, id) == Some(r.value)
    {
      hide Inv, AllSound, Sound, Released;
      Enter(OnRow(id, RowOp.BeginEgress), now);
      InvSound(old(State()));
      RowIds(rows, id);
      r := Admitting(id, now);
      if r.Err? { return; }
      var job := r.value;
      if job.sum.managed.Some? && !job.state.work.dispatchClaimed { return Err(Invalid); }
      if exists i :: 0 <= i < |job.state.work.legs| && !(job.state.work.legs[i].reserve.Accepted? && job.state.work.legs[i].dispatched) { return Err(Invalid); }
      job := job.(state := Live(Observing, job.state.work.(egress := true, nextAttemptAt := now + 5000)));
      if job.sum.managed.Some? {
        job := job.(sum := job.sum.(managed := Some(job.sum.managed.value.(submission := SubmissionUnknown))));
      }
      Save(job);
      r := Ok(job);
    }

    method Identity(id: string, responseId: string, now: Time) returns (r: Result<()>)
      requires Valid() && clock <= now
      modifies this
      ensures Valid() && State() == old(Stepped(OnRow(id, RowOp.Identity(responseId)), now))
      ensures Answers(old(Answered(OnRow(id, RowOp.Identity(responseId)), now)), r)
    {
      hide Inv, AllSound, Sound, Released;
      Enter(OnRow(id, RowOp.Identity(responseId)), now);
      InvSound(old(State()));
      RowIds(rows, id);
      var found := Job(id);
      if found.Err? { return Err(found.error); }
      var job := found.value;
      assert rows == rows[id := JobRow(job)];
      if job.state.work.event.Some? || now >= job.sum.observeUntil { return Ok(()); }
      if !job.state.phase.Observing? || responseId == "" || EncodedSize(responseId) > 256 { return Err(Invalid); }
      if job.state.work.responseId.Some? && job.state.work.responseId.value != responseId { return Err(IdentityConflict); }
      if job.sum.managed.Some? {
        if !NativeId(responseId) { return Err(Invalid); }
        job := job.(sum := job.sum.(managed := Some(job.sum.managed.value.(upstreamId := Some(responseId), submission := Bound))));
      }
      Save(job.WithWork(job.state.work.(responseId := Some(responseId), nextAttemptAt := Min(job.state.work.nextAttemptAt, now + 5000))));
      r := Ok(());
    }

    // ----- Freezing, with the nested save and re-read

    /** `freeze`: a job with an unfrozen upload is saved, its upload frozen in place, and the upload read back. */
    method FreezeAt(id: string, outcome: Outcome, upload: bool, now: Time) returns (r: Result<Record>)
      requires JobAt(rows, id).Some? ==>
                 var job := JobAt(rows, id).value;
                 && job.sum.id == id && (!upload ==> Sound(job))
                 && (job.input.Some? ==> Base(job.input.value.upload) && job.input.value.upload.sum.id == id)
      modifies this`rows
      ensures JobAt(old(rows), id).None? ==> r == Err(Missing) && rows == old(rows)
      ensures JobAt(old(rows), id).Some? ==>
                var job := JobAt(old(rows), id).value;
                var f := if upload then FreezeUpload(bill, job, outcome, now) else FreezeOp(bill, job, outcome, false, now);
                && Answers(f, r) && rows == (if f.Ok? then old(rows)[id := JobRow(f.value)] else old(rows))
                && (f.Ok? && !upload ==> r.value == f.value)
                && (f.Ok? && upload ==> f.value.input.Some? && r.value == f.value.input.value.upload)
      decreases if upload then 0 else 1
    {
      hide Sound, Base, Settlements, FrozenLegs, ReceiptOf;
      var current := Get(id);
      if current.None? || (upload && current.value.input.None?) { return Err(Missing); }
      var job := if upload then current.value.input.value.upload else current.value;
      if !upload { SoundBase(job); }
      FactsWhenUnfrozen(job);
      if Frozen(job) {
        assert rows == rows[id := JobRow(current.value)];
        return Ok(job);
      }
      var event := ReceiptOf(bill, job.state.work, outcome);
      var legs := FrozenLegs(job.state.work.legs);
      job := job.(sum := job.sum.(price := Some(event.price), settlements := Settlements(legs)),
                  state := Live(Outbox, job.state.work.(event := Some(event), facts := None, responseId := None, legs := legs, nextAttemptAt := now)));
      if !upload && job.input.Some? {
        var receipt := job.input.value;
        if receipt.upload.state.Live? && receipt.upload.state.work.event.None? {
          Save(job);
          var child := FreezeAt(id, outcome.(billable := !receipt.state.InputPending?), true, now);
          var again := Get(id);
          job := job.(input := again.value.input);
        }
      }
      var saved := SaveOperation(job, upload);
      if saved.Err? { return Err(saved.error); }
      r := Ok(job);
    }

    method Freeze(id: string, outcome: Outcome, upload: bool, now: Time) returns (r: Result<Record>)
      requires Valid() && clock <= now
      modifies this
      ensures Valid() && State() == old(Stepped(OnRow(id, RowOp.Freeze(outcome, upload)), now))
      ensures Answers(old(Answered(OnRow(id, RowOp.Freeze(outcome, upload)), now)), r)
      ensures r.Ok? ==> PartAt(rows, id, upload) == Some(r.value)
    {
      hide Inv, AllSound, Sound, Released, FreezeUpload;
      Enter(OnRow(id, RowOp.Freeze(outcome, upload)), now);
      InvSound(old(State()));
      RowIds(rows, id);
      r := FreezeAt(id, outcome, upload, now);
    }

    /** Saves a note about an unfrozen job, then freezes the row it has just saved. */
    method SaveAndFreeze(noted: Record, outcome: Outcome, now: Time) returns (frozen: Record)
      requires Sound(noted) && noted.state.Live? && noted.state.work.event.None?
      modifies this`rows
      ensures frozen == FreezeJob(bill, noted, outcome, now)
      ensures rows == old(rows)[noted.sum.id := JobRow(frozen)]
    {
      hide Sound, FreezeJob;
      var id := noted.sum.id;
      Save(noted);
      SoundUpload(noted);
      var r := FreezeAt(id, outcome, false, now);
      assert rows == old(rows)[id := rows[id]];
      frozen := r.value;
    }

    method ObserveManaged(id: string, upstreamId: string, status: string, statusCode: int, expected: Option<nat>, loss: Option<string>, now: Time)
        returns (r: Result<()>)
      requires Valid() && clock <= now
      modifies this
      ensures Valid() && State() == old(Stepped(OnRow(id, Observe(upstreamId, status, statusCode, expected, loss)), now))
      ensures Answers(old(Answered(OnRow(id, Observe(upstreamId, status, statusCode, expected, loss)), now)), r)
    {
      hide Inv, AllSound, Sound, Released, FreezeJob, Advances;
      hide DispatchOp, EgressOp, IdentityOp, FreezeOp, AcknowledgeOp, ClaimOp, RetryOp, ClaimUploadOp, BindUploadOp, ClaimCreateOp, ReserveOp;
      Enter(OnRow(id, Observe(upstreamId, status, statusCode, expected, loss)), now);
      InvSound(old(State()));
      RowIds(rows, id);
      var found := Get(id);
      if found.None? { return Ok(()); }
      var current := found.value;
      assert rows == rows[id := JobRow(current)];
      if current.state.Dead? || current.state.work.event.Some? || (expected.Some? && current.state.work.attempts != expected.value)
         || now >= current.sum.observeUntil { return Ok(()); }
      if current.sum.managed.None? || !current.sum.managed.value.submission.Bound? || current.state.work.responseId != Some(upstreamId)
         || !ObservedStatus(status) || !(200 <= statusCode < 300 || (status == "failed" && statusCode == 422)) { return Err(Invalid); }
      if loss.Some? {
        if loss.value !in {"expired_or_unknown", "deleted", "canceled_or_deleted"} || status != "processing" { return Err(Invalid); }
        current := current.(sum := current.sum.(managed := Some(current.sum.managed.value.(observationLoss := loss)), lastError := ObservationUnavailable));
      } else {
        if status == "starting" || status == "processing" { return Ok(()); }
        current := current.(sum := current.sum.(managed := Some(current.sum.managed.value.(terminal := Some(status)))));
      }
      Annotated(found.value, current);
      var frozen := SaveAndFreeze(current, Outcome(now, Some(statusCode), if status == "succeeded" then "success" else "provider_error", true, None), now);
      r := Ok(());
    }

    // ----- Acknowledgements

    /** The acknowledged sink of a part, unless it is final already. */
    method MarkAcknowledged(job: Record, sink: Sink, settlement: Settlement, usage: Usage) returns (r: Result<Option<Record>>)
      requires job.state.Live?
      ensures r == Acked(job, sink, settlement, usage)
      ensures r.Ok? && r.value.Some? ==> r.value.value.state.Live? && r.value.value.input == job.input && r.value.value.sum.id == job.sum.id
    {
      match sink
      case UsageSink =>
        if Terminal(job.sum.usage) { return Ok(None); }
        if usage.Unreported? { return Err(Invalid); }
        r := Ok(Some(job.(sum := job.sum.(usage := usage))));
      case Ledger(i) =>
        if i >= |job.state.work.legs| || settlement.Pending? { return Err(Invalid); }
        var leg := job.state.work.legs[i];
        if leg.settlement.Settled? { return Ok(None); }
        r := Ok(Some(WithLeg(job, i, leg.(settlement := settlement, acknowledged := leg.acknowledged || settlement.Settled?))));
    }

    method Acknowledge(id: string, eventId: string, sink: Sink, settlement: Settlement, usage: Usage, upload: bool, now: Time) returns (r: Result<()>)
      requires Valid() && clock <= now
      modifies this
      ensures Valid() && State() == old(Stepped(OnRow(id, RowOp.Acknowledge(eventId, sink, settlement, usage, upload)), now))
      ensures Answers(old(Answered(OnRow(id, RowOp.Acknowledge(eventId, sink, settlement, usage, upload)), now)), r)
    {
      hide Inv, AllSound, Sound, Released, Settlements, Acked, Paid;
      hide DispatchOp, EgressOp, IdentityOp, ObserveOp, FreezeOp, ClaimOp, RetryOp, ClaimUploadOp, BindUploadOp, ClaimCreateOp, ReserveOp;
      Enter(OnRow(id, RowOp.Acknowledge(eventId, sink, settlement, usage, upload)), now);
      InvSound(old(State()));
      RowIds(rows, id);
      var found := Get(id);
      if found.None? || (upload && found.value.input.None?) { return Err(Missing); }
      assert rows == rows[id := JobRow(found.value)];
      var job := if upload then found.value.input.value.upload else found.value;
      if job.state.Dead? || job.state.work.event.None? || job.state.work.event.value.id != eventId || now >= job.sum.replayUntil { return Ok(()); }
      var marked := MarkAcknowledged(job, sink, settlement, usage);
      if marked.Err? { return Err(marked.error); }
      if marked.value.None? { return Ok(()); }
      job := marked.value.value;
      assert !upload ==> job.input == found.value.input;
      var done := Paid(job.sum) && (job.input.None? || job.input.value.upload.state.Dead?);
      r := SaveOperation(if done then Entomb(job, Complete) else job, upload);
      if r.Ok? && upload && done {
        var parent := Get(id);
        if parent.Some? && parent.value.state.Live? && parent.value.state.work.event.Some? && Paid(parent.value.sum) {
          Save(Entomb(parent.value, Complete));
        }
      }
      assert rows == old(rows)[id := rows[id]];
    }

    // ----- Claims and retries

    /** One turn of the loop of `claim`; the row to work on, if any. */
    method ClaimOne(record: Record, manual: bool, now: Time) returns (r: Result<Option<Record>>)
      requires Sound(record) && JobAt(rows, record.sum.id) == Some(record)
      modifies this`rows
      ensures var after := ClaimOp(bill, record, manual, now);
              && Answers(after, r)
              && rows == (if after.Ok? then old(rows)[record.sum.id := JobRow(after.value)] else old(rows))
              && (r.Ok? ==> r.value == if Worked(record, manual, now) then Some(after.value) else None)
    {
      hide Sound, FreezeJob;
      var id := record.sum.id;
      assert rows == rows[id := JobRow(record)];
      if record.state.Dead? { return Ok(None); }
      var job := record;
      if manual && job.state.work.event.None? { return Err(NotFinal); }
      if now >= job.sum.replayUntil { Save(Entomb(job, Expired)); return Ok(None); }
      if job.state.phase.Admitting? || (job.state.work.event.None? && now >= job.sum.observeUntil) {
        if job.state.phase.Admitting? { UnfrozenIfAdmitting(job); }
        job := job.(sum := job.sum.(lastError := if job.state.phase.Admitting? then AdmissionLost else ObservationExpired));
        Annotated(record, job);
        FreezeKeeps(bill, job, Outcome(now, None, "provider_error", job.state.work.egress, None), now);
        job := SaveAndFreeze(job, Outcome(now, None, "provider_error", job.state.work.egress, None), now);
      }
      if now >= job.sum.autoRetryUntil && !manual {
        job := job.WithWork(job.state.work.(nextAttemptAt := job.sum.autoRetryUntil));
        Save(job);
        r := Ok(None);
      } else {
        job := job.WithWork(job.state.work.(attempts := job.state.work.attempts + 1, nextAttemptAt := now + 30000));
        Save(job);
        r := Ok(Some(job));
      }
      assert rows == old(rows)[id := rows[id]];
    }

    /** Manual recovery of one job. */
    method ClaimManual(id: string, now: Time) returns (r: Result<Option<Record>>)
      requires Valid() && clock <= now
      modifies this
      ensures Valid() && State() == old(Stepped(OnRow(id, Claim(true)), now))
      ensures Answers(old(Answered(OnRow(id, Claim(true)), now)), r)
      ensures r.Ok? && r.value.Some? ==> JobAt(rows, id) == r.value && Frozen(r.value.value)
    {
      hide Inv, AllSound, Sound, Released, ClaimOp;
      Enter(OnRow(id, Claim(true)), now);
      InvSound(old(State()));
      RowIds(rows, id);
      var found := Get(id);
      if found.None? { return Ok(None); }
      r := ClaimOne(found.value, true, now);
      if r.Ok? { ManualIsFrozen(bill, found.value, now); }
    }

    /** The alarm's claim of the rows its query picked. Exactly they are due no more; the returned ones are to be worked on. */
    method ClaimDue(picked: seq<string>, now: Time) returns (work: seq<Record>)
      requires Valid() && clock <= now && Picked(rows, now, picked)
      modifies this
      ensures Valid() && State() == old(Stepped(Op.ClaimDue(picked), now))
      ensures forall id :: id in rows && Due(rows[id], now) <==> id in old(rows) && Due(old(rows)[id], now) && id !in picked
      ensures forall i :: 0 <= i < |picked| ==> picked[i] in rows && rows[picked[i]].JobRow?
      ensures work == Handed(old(rows), rows, picked, now)
    {
      hide Inv, AllSound, Sound, Released, ClaimOp, Due, Worked, Picked, ClaimRows, Handed;
      Enter(Op.ClaimDue(picked), now);
      InvSound(old(State()));
      PickedJobs(rows, now, picked);
      work := ClaimEach(picked, now);
      forall id | id in old(rows) ensures Due(rows[id], now) <==> Due(old(rows)[id], now) && id !in picked {
        ClaimDrains(bill, old(rows), picked, now, id);
      }
    }

    /** The loop of `claim` over the picked rows. */
    method ClaimEach(picked: seq<string>, now: Time) returns (work: seq<Record>)
      requires AllSound(rows)
      requires forall i :: 0 <= i < |picked| ==> picked[i] in rows && rows[picked[i]].JobRow?
      requires forall i, j :: 0 <= i < j < |picked| ==> picked[i] != picked[j]
      modifies this`rows
      ensures rows == ClaimRows(bill, old(rows), picked, now) && rows.Keys == old(rows).Keys
      ensures forall i :: 0 <= i < |picked| ==> picked[i] in rows && rows[picked[i]].JobRow?
      ensures work == Handed(old(rows), rows, picked, now)
    {
      hide AllSound, Sound, ClaimOp, Worked, ClaimRows;
      work := [];
      assert picked[0..] == picked;
      for k := 0 to |picked|
        invariant AllSound(rows) && ClaimRows(bill, rows, picked[k..], now) == ClaimRows(bill, old(rows), picked, now)
        invariant rows.Keys == old(rows).Keys
        invariant forall j :: k <= j < |picked| ==> rows[picked[j]] == old(rows)[picked[j]]
        invariant forall j :: 0 <= j < |picked| ==> picked[j] in rows && rows[picked[j]].JobRow?
        invariant work == Handed(old(rows), rows, picked[..k], now)
      {
        var id := picked[k];
        RowIds(rows, id);
        ClaimHead(bill, rows, picked, k, now);
        assert picked[..k + 1] == picked[..k] + [id] && id !in picked[..k];
        ghost var before := rows;
        var r := ClaimOne(rows[id].job, false, now);
        WorkFrame(old(rows), before, rows, picked[..k], now);
        if r.value.Some? { work := work + [r.value.value]; }
      }
      ClaimNone(bill, rows, picked[|picked|..], now);
      assert picked[..|picked|] == picked;
    }

    method Retry(id: string, error: LastError, attempt: nat, now: Time)
      requires Valid() && clock <= now
      modifies this
      ensures Valid() && State() == old(Stepped(OnRow(id, RowOp.Retry(error, attempt)), now))
    {
      hide Inv, AllSound, Sound, Released;
      hide DispatchOp, EgressOp, IdentityOp, ObserveOp, FreezeOp, AcknowledgeOp, ClaimOp, ClaimUploadOp, BindUploadOp, ClaimCreateOp, ReserveOp;
      Enter(OnRow(id, RowOp.Retry(error, attempt)), now);
      InvSound(old(State()));
      RowIds(rows, id);
      var found := Get(id);
      if found.None? { return; }
      var record := found.value;
      assert rows == rows[id := JobRow(record)];
      if record.state.Dead? || record.state.work.attempts != attempt { return; }
      record := record.(sum := record.sum.(lastError := error));
      var backoff := 5000 * Power2(if record.state.work.attempts < 10 then record.state.work.attempts else 10);
      var delay := if record.state.work.event.Some? then Min(3600000, backoff) else if error != NoError then Min(30000, backoff) else 5000;
      Save(record.WithWork(record.state.work.(nextAttemptAt := now + delay)));
    }

    // ----- Admission

    /** The row that answers for a repeated request; the invariant leaves at most one. */
    method ManagedRetry(m: ManagedRequest, policy: string, now: Time) returns (r: Result<Option<Record>>)
      requires UniqueKeys(rows, now)
      ensures r == BackgroundRuns.ManagedRetry(rows, m, policy, now)
      ensures r.Ok? && RequestKey(m).Some? ==> (r.value.Some? <==> Held(rows, RequestKey(m).value, now))
    {
      if !m.wellFormed { return Err(Invalid); }
      if m.key.None? { return Ok(None); }
      var k := RequestKey(m).value;
      if id :| id in rows && Holds(rows[id], k, now) {
        assert id == Holder(rows, k, now);
        var job := rows[id].job;
        if job.sum.managed.value.digest != m.digest { return Err(IdempotencyConflict); }
        if job.sum.managed.value.policy != policy { return Err(OwnerChanged); }
        return Ok(Some(job));
      }
      r := Ok(None);
    }

    /** Room for one row: a full table gives up its oldest evictable row, or refuses. */
    method MakeRoom(now: Time) returns (ok: bool, ghost victim: string)
      modifies this`rows
      ensures BackgroundRuns.MakeRoom(old(rows), now, victim) == if ok then Ok(rows) else Err(Capacity)
      ensures !ok ==> rows == old(rows)
      ensures !ok && |ActiveIds(rows)| < ACTIVE_LIMIT ==> forall id :: id in rows ==> !Evictable(rows[id], now)
    {
      hide Evictable, Older, ActiveIds;
      victim := "";
      if |ActiveIds(rows)| >= ACTIVE_LIMIT { return false, victim; }
      if |rows| >= CAPACITY {
        if v :| v in rows && Victim(rows, now, v) {
          victim := v;
          rows := rows - {v};
        } else {
          if id :| id in rows && Evictable(rows[id], now) { OldestExists(rows, now, id); }
          return false, victim;
        }
      }
      ok := true;
    }

    /** `admit` without the history. */
    method AdmitRow(a: Admission, now: Time) returns (r: Result<Record>, ghost victim: string)
      requires UniqueKeys(rows, now)
      modifies this`rows
      ensures Answers(BackgroundRuns.Admit(old(rows), a, now, victim), r)
      ensures rows == if r.Ok? then BackgroundRuns.Admit(old(rows), a, now, victim).value else old(rows)
      ensures r.Ok? ==> r.value == NewJob(a)
    {
      hide UniqueKeys, Held, BackgroundRuns.MakeRoom, ActiveIds, BackgroundRuns.ManagedRetry, NewJob;
      victim := "";
      if !JobId(a.id) || now - a.admittedAt > 60000 || a.admittedAt - now > 60000 { return Err(Invalid), victim; }
      if a.managed.Some? {
        if !ManagedOk(a) { return Err(Invalid), victim; }
        var existing := ManagedRetry(a.managed.value, a.policy, now);
        if existing.Err? { return Err(existing.error), victim; }
        if existing.value.Some? { return Err(Exists), victim; }
      }
      var prior := Get(a.id);
      if prior.Some? { return Err(Exists), victim; }
      var job := NewJob(a);
      var room;
      room, victim := MakeRoom(now);
      if !room { return Err(Capacity), victim; }
      ghost var cleared := rows;
      Save(job);
      assert BackgroundRuns.MakeRoom(old(rows), now, victim) == Ok(cleared) && job.sum.id == a.id by { NewId(a); }
      r := Ok(job);
    }

    method Admit(a: Admission, now: Time) returns (r: Result<Record>, ghost victim: string)
      requires Valid() && clock <= now
      modifies this
      ensures Valid() && State() == old(Stepped(AdmitJob(a, victim), now))
      ensures Answers(old(Answered(AdmitJob(a, victim), now)), r)
      ensures r.Ok? ==> r.value == NewJob(a)
    {
      hide Inv, AllSound, UniqueKeys, BackgroundRuns.Admit;
      InvSound(old(State()));
      InvKeys(old(State()), now);
      r, victim := AdmitRow(a, now);
      EnterAdmit(old(State()), AdmitJob(a, victim), now);
    }

    /** The ghost part of an admission, once its victim is known. */
    ghost method EnterAdmit(before: Store, op: Op, now: Time)
      requires Inv(before) && before.clock <= now && before.grants == grants && !op.OnRow?
      requires rows == Step(bill, before, op, now).table
      modifies this`clock
      ensures Valid() && State() == Step(bill, before, op, now)
    {
      hide Inv, TableAfter;
      StepKeeps(bill, before, op, now);
      InvSound(before);
      assert before.grants + Released(bill, before, op, now) == before.grants;
      clock := now;
    }

    /** Repeating a managed admission answers with the job of the first; only the first creates one. */
    method AdmitManaged(a: Admission, now: Time) returns (r: Result<(bool, Record)>, ghost victim: string)
      requires Valid() && clock <= now
      modifies this
      ensures Valid() && (a.managed.Some? ==> State() == old(Stepped(AdmitJob(a, victim), now)))
      ensures a.managed.None? ==> r == Err(Invalid) && rows == old(rows)
      ensures r.Ok? && !r.value.0 ==> rows == old(rows) && JobAt(rows, r.value.1.sum.id) == Some(r.value.1)
                                      && BackgroundRuns.ManagedRetry(rows, a.managed.value, a.policy, now) == Ok(Some(r.value.1))
      ensures r.Ok? && r.value.0 ==> old(Answered(AdmitJob(a, victim), now)).Ok? && r.value.1 == NewJob(a)
    {
      hide Inv, AllSound, UniqueKeys, Held;
      InvSound(old(State()));
      InvKeys(old(State()), now);
      victim := "";
      if a.managed.None? { return Err(Invalid), victim; }
      if !ManagedOk(a) {
        EnterAdmit(old(State()), AdmitJob(a, victim), now);
        return Err(Invalid), victim;
      }
      var existing := ManagedRetry(a.managed.value, a.policy, now);
      if existing.Err? || existing.value.Some? {
        EnterAdmit(old(State()), AdmitJob(a, victim), now);
        if existing.Err? { return Err(existing.error), victim; }
        return Ok((false, existing.value.value)), victim;
      }
      var created;
      created, victim := Admit(a, now);
      r := if created.Ok? then Ok((true, created.value)) else Err(created.error);
    }

    // ----- Input uploads

    method AllocateInput(a: Admission, b: Binding, plan: UploadPlan, valid: bool, now: Time) returns (r: Result<Record>, ghost victim: string)
      requires Valid() && clock <= now
      modifies this
      ensures Valid() && State() == old(Stepped(Op.AllocateInput(a, b, plan, valid, victim), now))
      ensures Answers(old(Answered(Op.AllocateInput(a, b, plan, valid, victim), now)), r)
      ensures r.Ok? ==> JobAt(rows, a.id) == Some(r.value)
    {
      hide Inv, AllSound, UniqueKeys, BackgroundRuns.Admit, NewJob, WithInput;
      InvSound(old(State()));
      InvKeys(old(State()), now);
      victim := "";
      var prior := Get(a.id);
      if !valid || prior.Some? {
        EnterAdmit(old(State()), Op.AllocateInput(a, b, plan, valid, victim), now);
        return Err(InputUnavailable), victim;
      }
      r, victim := AdmitRow(a, now);
      if r.Ok? {
        var job := WithInput(r.value, b, NewUpload(a, plan));
        assert job.sum.id == a.id by { NewId(a); InputId(r.value, b, NewUpload(a, plan)); }
        Save(job);
        r := Ok(job);
      }
      EnterAdmit(old(State()), Op.AllocateInput(a, b, plan, valid, victim), now);
    }

    method ClaimInputUpload(b: Binding, now: Time) returns (r: Result<Record>)
      requires Valid() && clock <= now
      modifies this
      ensures Valid() && State() == old(Stepped(OnRow(b.jobId, ClaimUpload(b)), now))
      ensures Answers(old(Answered(OnRow(b.jobId, ClaimUpload(b)), now)), r)
      ensures r.Ok? ==> PartAt(rows, b.jobId, true) == Some(r.value)
    {
      hide Inv, AllSound, Sound, Released, AllAccepted;
      Enter(OnRow(b.jobId, ClaimUpload(b)), now);
      InvSound(old(State()));
      RowIds(rows, b.jobId);
      r := Admitting(b.jobId, now);
      if r.Err? { return; }
      var job := r.value;
      if !InputLive(job, b, now) { return Err(InputUnavailable); }
      var receipt := job.input.value;
      var upload := receipt.upload;
      if upload.state.Dead? || !receipt.state.InputPending? || upload.state.work.event.Some? || job.state.work.event.Some?
         || !AllAccepted(job.state.work.legs) || !AllAccepted(upload.state.work.legs) { return Err(InputUnavailable); }
      upload := upload.WithWork(upload.state.work.(egress := true));
      Save(job.(input := Some(receipt.(state := DispatchUnknown, upload := upload))));
      r := Ok(upload);
    }

    method BindInputUpload(b: Binding, imageId: string, now: Time) returns (r: Result<()>)
      requires Valid() && clock <= now
      modifies this
      ensures Valid() && State() == old(Stepped(OnRow(b.jobId, BindUpload(b, imageId)), now))
      ensures Answers(old(Answered(OnRow(b.jobId, BindUpload(b, imageId)), now)), r)
    {
      hide Inv, AllSound, Sound, Base, Released, FreezeOne;
      hide DispatchOp, EgressOp, IdentityOp, ObserveOp, AcknowledgeOp, ClaimOp, RetryOp, ClaimUploadOp, ClaimCreateOp, ReserveOp;
      Enter(OnRow(b.jobId, BindUpload(b, imageId)), now);
      InvSound(old(State()));
      RowIds(rows, b.jobId);
      var found := Admitting(b.jobId, now);
      if found.Err? { return Err(found.error); }
      var job := found.value;
      if !InputLive(job, b, now) { return Err(InputUnavailable); }
      var receipt := job.input.value;
      if receipt.state.InputPending? || receipt.createClaimed || (receipt.imageId.Some? && receipt.imageId.value != imageId) {
        return Err(InputUnavailable);
      }
      if !ImageId(imageId) { return Err(InvalidImage); }
      job := job.(input := Some(receipt.(imageId := Some(imageId), state := InputBound)));
      Save(job);
      var frozen := FreezeAt(b.jobId, Outcome(now, Some(200), "success", true, None), true, now);
      assert rows == old(rows)[b.jobId := rows[b.jobId]];
      r := Ok(());
    }

    method ClaimInputCreate(b: Binding, now: Time) returns (r: Result<Record>)
      requires Valid() && clock <= now
      modifies this
      ensures Valid() && State() == old(Stepped(OnRow(b.jobId, ClaimCreate(b)), now))
      ensures Answers(old(Answered(OnRow(b.jobId, ClaimCreate(b)), now)), r)
      ensures r.Ok? ==> JobAt(rows, b.jobId) == Some(r.value)
    {
      hide Inv, AllSound, Sound, Released;
      Enter(OnRow(b.jobId, ClaimCreate(b)), now);
      InvSound(old(State()));
      RowIds(rows, b.jobId);
      r := Admitting(b.jobId, now);
      if r.Err? { return; }
      var job := r.value;
      if !InputLive(job, b, now) { return Err(InputUnavailable); }
      var receipt := job.input.value;
      if !receipt.state.InputBound? || receipt.imageId.None? || receipt.createClaimed || job.state.work.dispatchClaimed { return Err(InputUnavailable); }
      job := job.(input := Some(receipt.(createClaimed := true)));
      Save(job);
      r := ClaimDispatch(job.sum.id, None, true, now);
      assert rows == old(rows)[b.jobId := rows[b.jobId]];
    }

    // ----- Published inputs

    method AllocatePublishedInput(b: AssetBinding, now: Time) returns (r: Result<Asset>)
      requires Valid() && clock <= now
      modifies this
      ensures Valid() && State() == old(Stepped(AllocateAsset(b), now))
      ensures Answers(old(Answered(AllocateAsset(b), now)), r)
      ensures r.Ok? ==> b.id in rows && rows[b.id] == AssetRow(r.value)
    {
      hide Inv, Released, AllSound, UniqueAssets, AssetsOk;
      InvAssetIds(State());
      Enter(AllocateAsset(b), now);
      InvSound(old(State()));
      if !AssetLive(b, now) || !AssetId(b.id) { return Err(PublishedUnavailable); }
      if id :| id in rows && AssetMatches(rows[id], b.digest) {
        SameAsset(rows, id, b);
        OwnAsset(rows, id);
        return if rows[id].asset.binding == b then Ok(rows[id].asset) else Err(PublishedUnavailable);
      }
      if b.id in rows { return Err(PublishedUnavailable); }
      if |rows| >= CAPACITY { return Err(Capacity); }
      var receipt := Asset(b, AssetPending, None, None);
      rows := rows[b.id := AssetRow(receipt)];
      r := Ok(receipt);
    }

    method ClaimPublishedInputPublication(b: AssetBinding, now: Time) returns (r: Result<Asset>)
      requires Valid() && clock <= now
      modifies this
      ensures Valid() && State() == old(Stepped(OnAsset(b, Publish), now))
      ensures Answers(old(Answered(OnAsset(b, Publish), now)), r)
      ensures r.Ok? ==> b.id in rows && rows[b.id] == AssetRow(r.value)
    {
      hide Inv, Released, AllSound;
      Enter(OnAsset(b, Publish), now);
      InvSound(old(State()));
      r := PublishedInput(b, now);
      if r.Err? { return; }
      var receipt := r.value;
      if !receipt.state.AssetPending? { return Err(PublishedUnavailable); }
      receipt := receipt.(state := PublicationUnknown);
      rows := rows[b.id := AssetRow(receipt)];
      r := Ok(receipt);
    }

    method BindPublishedInputObject(b: AssetBinding, item: string, now: Time) returns (r: Result<Asset>)
      requires Valid() && clock <= now
      modifies this
      ensures Valid() && State() == old(Stepped(OnAsset(b, BindObject(item)), now))
      ensures Answers(old(Answered(OnAsset(b, BindObject(item)), now)), r)
      ensures r.Ok? ==> b.id in rows && rows[b.id] == AssetRow(r.value)
    {
      hide Inv, Released, AllSound;
      Enter(OnAsset(b, BindObject(item)), now);
      InvSound(old(State()));
      r := PublishedInput(b, now);
      if r.Err? { return; }
      var receipt := r.value;
      if receipt.state.Published? && receipt.stored == Some(item) {
        assert rows == rows[b.id := AssetRow(receipt)];
        return;
      }
      if !receipt.state.PublicationUnknown? || receipt.stored.Some? { return Err(PublishedUnavailable); }
      receipt := receipt.(stored := Some(item), state := Published);
      rows := rows[b.id := AssetRow(receipt)];
      r := Ok(receipt);
    }

    method ClaimPublishedInputForward(b: AssetBinding, attempt: string, now: Time) returns (r: Result<Asset>)
      requires Valid() && clock <= now
      modifies this
      ensures Valid() && State() == old(Stepped(OnAsset(b, Forward(attempt)), now))
      ensures Answers(old(Answered(OnAsset(b, Forward(attempt)), now)), r)
      ensures r.Ok? ==> b.id in rows && rows[b.id] == AssetRow(r.value)
    {
      hide Inv, Released, AllSound;
      Enter(OnAsset(b, Forward(attempt)), now);
      InvSound(old(State()));
      r := PublishedInput(b, now);
      if r.Err? { return; }
      var receipt := r.value;
      if !receipt.state.Published? || receipt.stored.None? || receipt.attempt.Some? { return Err(PublishedUnavailable); }
      receipt := receipt.(attempt := Some(attempt), state := ForwardingUnknown);
      rows := rows[b.id := AssetRow(receipt)];
      r := Ok(receipt);
    }

    /** The live published input with exactly this binding. */
    method PublishedInput(b: AssetBinding, now: Time) returns (r: Result<Asset>)
      ensures r.Ok? ==> b.id in rows && rows[b.id] == AssetRow(r.value) && r.value.binding == b && AssetLive(b, now)
      ensures r.Err? ==> r.error == PublishedUnavailable
      ensures r.Err? ==> b.id !in rows || rows[b.id].JobRow? || rows[b.id].asset.binding != b || !AssetLive(b, now)
    {
      if b.id in rows && rows[b.id].AssetRow? && AssetLive(rows[b.id].asset.binding, now) && rows[b.id].asset.binding == b {
        return Ok(rows[b.id].asset);
      }
      r := Err(PublishedUnavailable);
    }
  }
}

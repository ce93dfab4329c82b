/**
 The background table and its runs: admission with idempotency keys, capacity and eviction, the operations on rows,
 and the published-input rows that share the table. The clock never goes back; everything else is arbitrary.

 `grants` is history: each release of a generation request for a job that carries an idempotency key.
 */
module BackgroundRuns {
  import opened Basics
  import opened BackgroundRecords
  import opened BackgroundLaws

  const ACTIVE_LIMIT: nat := 16
  const CAPACITY: nat := 64

  // ----- Rows

  datatype AssetState = AssetPending | PublicationUnknown | Published | ForwardingUnknown
  datatype AssetBinding = AssetBinding(id: string, digest: string, allocatedAt: Time, expiresAt: Time, content: string)
  datatype Asset = Asset(binding: AssetBinding, state: AssetState, stored: Option<string>, attempt: Option<string>)

  datatype Row = JobRow(job: Record) | AssetRow(asset: Asset)

  type Table = map<string, Row>

  datatype Key = Key(protocol: string, provider: string, key: string)

  function KeyOf(m: Option<Managed>): Option<Key> {
    if m.None? || m.value.key.None? then None else Some(Key(m.value.protocol, m.value.provider, m.value.key.value))
  }

  predicate JobId(id: string) { |id| == 35 && id[..3] == "bg_" }
  predicate AssetId(id: string) { |id| == 38 && id[..6] == "asset_" }

  /** A row that answers for `k`: its replay deadline is in the future. */
  predicate Holds(row: Row, k: Key, now: Time) {
    row.JobRow? && KeyOf(row.job.sum.managed) == Some(k) && row.job.sum.replayUntil > now
  }

  predicate Held(t: Table, k: Key, now: Time) {
    exists id :: id in t && Holds(t[id], k, now)
  }

  ghost function Holder(t: Table, k: Key, now: Time): (id: string)
    requires Held(t, k, now)
    ensures id in t && Holds(t[id], k, now)
  {
    var id :| id in t && Holds(t[id], k, now);
    id
  }

  predicate Active(row: Row) {
    row.JobRow? && row.job.state.Live? && !row.job.state.phase.Outbox?
  }

  function ActiveIds(t: Table): set<string> {
    set id | id in t && Active(t[id])
  }

  // ----- Admission

  function RequestKey(m: ManagedRequest): Option<Key> {
    if m.key.None? then None
    else Some(Key(m.protocol, if m.providerId.Some? then m.providerId.value else "replicate", m.key.value))
  }

  /** The source's `managedRetry`: the row that already answers for this request, if any. */
  ghost function ManagedRetry(t: Table, m: ManagedRequest, policy: string, now: Time): Result<Option<Record>> {
    if !m.wellFormed then Err(Invalid)
    else if RequestKey(m).None? || !Held(t, RequestKey(m).value, now) then Ok(None)
    else
      var job := t[Holder(t, RequestKey(m).value, now)].job;
      if job.sum.managed.value.digest != m.digest then Err(IdempotencyConflict)
      else if job.sum.managed.value.policy != policy then Err(OwnerChanged)
      else Ok(Some(job))
  }

  /** A repeated request is answered with a job of the same key, content and policy that is still inside its window. */
  lemma RepeatIsSame(t: Table, m: ManagedRequest, policy: string, now: Time)
    requires ManagedRetry(t, m, policy, now).Ok? && ManagedRetry(t, m, policy, now).value.Some?
    ensures var job := ManagedRetry(t, m, policy, now).value.value;
            && job.sum.managed.Some? && KeyOf(job.sum.managed) == RequestKey(m) && job.sum.replayUntil > now
            && job.sum.managed.value.digest == m.digest && job.sum.managed.value.policy == policy
            && exists id :: id in t && t[id] == JobRow(job)
  {
    var id := Holder(t, RequestKey(m).value, now);
    assert t[id] == JobRow(t[id].job);
  }

  predicate ManagedOk(a: Admission) {
    a.managed.Some? ==>
      && a.managed.value.wellFormed && a.tariffOk
      && (if a.managed.value.providerId.Some? then a.managed.value.providerId.value else "replicate") == a.provider
  }

  /** Tombstones that no longer guard a replay window. */
  predicate Evictable(row: Row, now: Time) {
    row.JobRow? && row.job.state.Dead? && (row.job.sum.managed.None? || row.job.sum.replayUntil <= now)
  }

  predicate Older(t: Table, a: string, b: string)
    requires a in t && b in t && t[a].JobRow? && t[b].JobRow?
  {
    var x, y := t[a].job.sum.admittedAt, t[b].job.sum.admittedAt;
    x < y || (x == y && Below(a, b))
  }

  /** The row an eviction removes: the oldest evictable one. */
  predicate Victim(t: Table, now: Time, id: string) {
    && id in t && Evictable(t[id], now)
    && forall other :: other in t && Evictable(t[other], now) && other != id ==> Older(t, id, other)
  }

  /** Room for one more row, evicting `victim` when the table is full. */
  ghost function MakeRoom(t: Table, now: Time, victim: string): Result<Table> {
    if |ActiveIds(t)| >= ACTIVE_LIMIT then Err(Capacity)
    else if |t| < CAPACITY then Ok(t)
    else if !Victim(t, now, victim) then Err(Capacity)
    else Ok(t - {victim})
  }

  ghost function Admit(t: Table, a: Admission, now: Time, victim: string): Result<Table> {
    if !JobId(a.id) || now - a.admittedAt > 60000 || a.admittedAt - now > 60000 || !ManagedOk(a) then Err(Invalid)
    else
      var prior :- if a.managed.None? then Ok(None) else ManagedRetry(t, a.managed.value, a.policy, now);
      if prior.Some? || (a.id in t && t[a.id].JobRow?) then Err(Exists)
      else
        var room :- MakeRoom(t, now, victim);
        Ok(room[a.id := JobRow(NewJob(a))])
  }

  /** What an admission has passed, and what it leaves: the new job, and every other row but an evicted one as it was. */
  lemma AdmittedMeans(t: Table, a: Admission, now: Time, victim: string)
    requires Admit(t, a, now, victim).Ok?
    ensures JobId(a.id) && -60000 <= now - a.admittedAt <= 60000 && !(a.id in t && t[a.id].JobRow?) && |ActiveIds(t)| < 16
    ensures a.managed.Some? ==>
              && a.managed.value.wellFormed && a.tariffOk && a.provider == (if a.managed.value.providerId.Some? then a.managed.value.providerId.value else "replicate")
              && (RequestKey(a.managed.value).Some? ==> !Held(t, RequestKey(a.managed.value).value, now))
    ensures var t' := Admit(t, a, now, victim).value;
            && a.id in t' && t'[a.id] == JobRow(NewJob(a))
            && (forall id :: id in t && id != a.id && !(|t| >= 64 && id == victim) ==> id in t' && t'[id] == t[id])
            && (forall id :: id in t' && id != a.id ==> id in t)
  {
    hide ActiveIds, NewJob, Victim, Held;
  }

  datatype UploadPlan = UploadPlan(facts: Facts, intents: seq<string>, reservedMicros: int)

  function NewUpload(a: Admission, plan: UploadPlan): Record {
    NewJob(a.(managed := None, facts := plan.facts, intents := plan.intents, reservedMicros := plan.reservedMicros))
  }

  function WithInput(r: Record, b: Binding, u: Record): Record {
    r.(input := Some(Receipt(b, InputPending, None, false, u)))
  }

  /** The source's `allocateInput`; `valid` is the outcome of its allocation checks. */
  ghost function Allocate(t: Table, a: Admission, b: Binding, plan: UploadPlan, valid: bool, now: Time, victim: string): Result<Table> {
    if !valid || (a.id in t && t[a.id].JobRow?) then Err(InputUnavailable)
    else
      var t' :- Admit(t, a, now, victim);
      Ok(t'[a.id := JobRow(WithInput(NewJob(a), b, NewUpload(a, plan)))])
  }

  // ----- Published inputs

  predicate AssetMatches(row: Row, digest: string) {
    row.AssetRow? && row.asset.binding.digest == digest
  }

  /** `expiresAt` is the earlier of the binding's own end and that of its issuer's proof. */
  predicate AssetLive(b: AssetBinding, now: Time) {
    b.allocatedAt <= now < b.expiresAt
  }

  ghost function AssetAllocate(t: Table, b: AssetBinding, now: Time): Result<Table> {
    if !AssetLive(b, now) || !AssetId(b.id) then Err(PublishedUnavailable)
    else if exists id :: id in t && AssetMatches(t[id], b.digest) then
      (if exists id :: id in t && AssetMatches(t[id], b.digest) && t[id].asset.binding == b then Ok(t) else Err(PublishedUnavailable))
    else if b.id in t then Err(PublishedUnavailable)
    else if |t| >= CAPACITY then Err(Capacity)
    else Ok(t[b.id := AssetRow(Asset(b, AssetPending, None, None))])
  }

  datatype AssetOp = Publish | BindObject(stored: string) | Forward(attempt: string)

  function AssetApply(s: Asset, op: AssetOp): Result<Asset> {
    match op
    case Publish =>
      if s.state.AssetPending? then Ok(s.(state := PublicationUnknown)) else Err(PublishedUnavailable)
    case BindObject(o) =>
      if s.state.Published? && s.stored == Some(o) then Ok(s)
      else if !s.state.PublicationUnknown? || s.stored.Some? then Err(PublishedUnavailable)
      else Ok(s.(stored := Some(o), state := Published))
    case Forward(a) =>
      if s.state.Published? && s.stored.Some? && s.attempt.None? then Ok(s.(attempt := Some(a), state := ForwardingUnknown))
      else Err(PublishedUnavailable)
  }

  /** A published input goes through publication, binding and one forward in this order. */
  lemma AssetInOrder(s: Asset, op: AssetOp)
    requires AssetApply(s, op).Ok?
    ensures var s' := AssetApply(s, op).value;
            && s'.binding == s.binding
            && (op.Publish? ==> s.state.AssetPending? && s'.state.PublicationUnknown?)
            && (op.BindObject? ==> s'.state.Published? && s'.stored == Some(op.stored) && (s.stored.None? ==> s.state.PublicationUnknown?))
            && (op.Forward? ==> s.state.Published? && s.stored.Some? && s.attempt.None? && s'.state.ForwardingUnknown? && s'.attempt == Some(op.attempt))
  {}

  ghost function AssetStep(t: Table, b: AssetBinding, op: AssetOp, now: Time): Result<Table> {
    if b.id !in t || !t[b.id].AssetRow? || !AssetLive(t[b.id].asset.binding, now) || t[b.id].asset.binding != b then Err(PublishedUnavailable)
    else
      var s :- AssetApply(t[b.id].asset, op);
      Ok(t[b.id := AssetRow(s)])
  }

  function AssetRank(s: AssetState): nat {
    match s
    case AssetPending => 0
    case PublicationUnknown => 1
    case Published => 2
    case ForwardingUnknown => 3
  }

  /** A published input only moves forward, and its object and attempt are set once. */
  predicate AssetAdvances(a: Asset, b: Asset) {
    && b.binding == a.binding && AssetRank(a.state) <= AssetRank(b.state)
    && (a.stored.Some? ==> b.stored == a.stored) && (a.attempt.Some? ==> b.attempt == a.attempt)
  }

  // ----- Steps

  datatype Grant = Grant(key: Key, id: string, replayUntil: Time, at: Time)

  datatype Store = Store(table: Table, clock: Time, grants: seq<Grant>)

  datatype Op =
    | AdmitJob(admission: Admission, victim: string)
    | AllocateInput(admission: Admission, binding: Binding, plan: UploadPlan, valid: bool, victim: string)
    | OnRow(id: string, op: RowOp)
    | ClaimDue(picked: seq<string>)
    | AllocateAsset(asset: AssetBinding)
    | OnAsset(asset: AssetBinding, assetOp: AssetOp)

  ghost predicate AllSound(t: Table) {
    forall id :: id in t && t[id].JobRow? ==> Sound(t[id].job) && t[id].job.sum.id == id && JobId(id)
  }

  ghost function RowApply(bill: Pricing, t: Table, id: string, op: RowOp, now: Time): Result<Table>
    requires AllSound(t)
  {
    if id !in t || !t[id].JobRow? then (if op.Claim? || op.Observe? || op.Retry? then Ok(t) else Err(Missing))
    else
      var r :- Apply(bill, t[id].job, op, now);
      Ok(t[id := JobRow(r)])
  }

  lemma RowKeepsSound(bill: Pricing, t: Table, id: string, op: RowOp, now: Time)
    requires AllSound(t) && RowApply(bill, t, id, op, now).Ok?
    ensures AllSound(RowApply(bill, t, id, op, now).value)
  {
    hide Apply, Sound, Advances;
    if id in t && t[id].JobRow? {
      Preserves(bill, t[id].job, op, now);
      AdvancesId(t[id].job, Apply(bill, t[id].job, op, now).value);
    }
  }

  lemma AdvancesId(r: Record, r': Record)
    requires Advances(r, r')
    ensures r'.sum.id == r.sum.id && r'.sum.replayUntil == r.sum.replayUntil && KeyOf(r'.sum.managed) == KeyOf(r.sum.managed)
    ensures Rank(r) <= Rank(r') && (r.state.Dead? ==> r'.state.Dead?)
  {}

  /** The source's `claim` without an identifier: each picked row in turn. */
  ghost function ClaimRows(bill: Pricing, t: Table, picked: seq<string>, now: Time): Table
    requires AllSound(t)
    decreases |picked|
  {
    if picked == [] then t
    else
      var r := RowApply(bill, t, picked[0], Claim(false), now);
      if r.Err? then t
      else
        RowKeepsSound(bill, t, picked[0], Claim(false), now);
        ClaimRows(bill, r.value, picked[1..], now)
  }

  /** The history entry of a step: a generation request is released exactly when `beginEgress` succeeds. */
  ghost function Released(bill: Pricing, s: Store, op: Op, now: Time): seq<Grant>
    requires AllSound(s.table)
  {
    if op.OnRow? && op.op.BeginEgress? && op.id in s.table && s.table[op.id].JobRow?
       && Apply(bill, s.table[op.id].job, BeginEgress, now).Ok? && KeyOf(s.table[op.id].job.sum.managed).Some?
    then [Grant(KeyOf(s.table[op.id].job.sum.managed).value, op.id, s.table[op.id].job.sum.replayUntil, now)]
    else []
  }

  ghost function TableAfter(bill: Pricing, t: Table, op: Op, now: Time): Result<Table>
    requires AllSound(t)
  {
    match op
    case AdmitJob(a, victim) => Admit(t, a, now, victim)
    case AllocateInput(a, b, plan, valid, victim) => Allocate(t, a, b, plan, valid, now, victim)
    case OnRow(id, rowOp) => RowApply(bill, t, id, rowOp, now)
    case ClaimDue(picked) => Ok(ClaimRows(bill, t, picked, now))
    case AllocateAsset(b) => AssetAllocate(t, b, now)
    case OnAsset(b, assetOp) => AssetStep(t, b, assetOp, now)
  }

  /** A refused operation changes nothing but the clock. */
  ghost function Step(bill: Pricing, s: Store, op: Op, now: Time): Store
    requires AllSound(s.table)
  {
    var t := TableAfter(bill, s.table, op, now);
    Store(if t.Ok? then t.value else s.table, now, s.grants + Released(bill, s, op, now))
  }

  // ----- The invariant of the store

  ghost predicate UniqueKeys(t: Table, now: Time) {
    forall a, b, k :: a in t && b in t && Holds(t[a], k, now) && Holds(t[b], k, now) ==> a == b
  }

  ghost predicate UniqueAssets(t: Table) {
    forall a, b, d :: a in t && b in t && AssetMatches(t[a], d) && AssetMatches(t[b], d) ==> a == b
  }

  ghost predicate AssetsOk(t: Table) {
    forall id :: id in t && t[id].AssetRow? ==> t[id].asset.binding.id == id && AssetId(id)
  }

  /** A released key stays guarded by a row that can never release again, until its replay deadline. */
  ghost predicate Guarded(t: Table, now: Time, g: Grant) {
    now < g.replayUntil ==> g.id in t && Holds(t[g.id], g.key, now) && t[g.id].job.sum.replayUntil == g.replayUntil && Rank(t[g.id].job) >= 1
  }

  ghost predicate Spaced(grants: seq<Grant>) {
    forall i, j :: 0 <= i < j < |grants| && grants[i].key == grants[j].key ==> grants[j].at >= grants[i].replayUntil
  }

  ghost predicate Inv(s: Store) {
    && AllSound(s.table) && AssetsOk(s.table)
    && UniqueKeys(s.table, s.clock) && UniqueAssets(s.table)
    && |s.table| <= CAPACITY && |ActiveIds(s.table)| <= ACTIVE_LIMIT
    && (forall i :: 0 <= i < |s.grants| ==> Guarded(s.table, s.clock, s.grants[i]))
    && Spaced(s.grants)
  }

  /** Rows may leave the table only when nothing needs them, and rows that stay move forward. */
  ghost predicate Evolves(t: Table, t': Table, now: Time) {
    && (forall id :: id in t && id in t' && t[id].JobRow? ==> t'[id].JobRow? && Advances(t[id].job, t'[id].job))
    && (forall id :: id in t && id in t' && t[id].AssetRow? ==> t'[id].AssetRow? && AssetAdvances(t[id].asset, t'[id].asset))
    && (forall id :: id in t && id !in t' ==> Evictable(t[id], now))
  }

  lemma EvolvesTransitive(a: Table, b: Table, c: Table, now: Time)
    requires Evolves(a, b, now) && Evolves(b, c, now) && b.Keys == c.Keys
    ensures Evolves(a, c, now)
  {
    hide Advances, Evictable;
    forall id | id in a && id in c && a[id].JobRow? ensures c[id].JobRow? && Advances(a[id].job, c[id].job) {
      assert id in b;
      AdvancesTransitive(a[id].job, b[id].job, c[id].job);
    }
  }

  lemma EvolvesSame(t: Table, now: Time)
    ensures Evolves(t, t, now)
  {
    forall id | id in t && t[id].JobRow? ensures Advances(t[id].job, t[id].job) { Reflexive(t[id].job); }
  }

  // ----- Each step evolves the table

  lemma RowEvolves(bill: Pricing, t: Table, id: string, op: RowOp, now: Time)
    requires AllSound(t) && RowApply(bill, t, id, op, now).Ok?
    ensures var t' := RowApply(bill, t, id, op, now).value;
            Evolves(t, t', now) && t'.Keys == t.Keys && AllSound(t')
  {
    hide Apply, Sound, Advances;
    RowKeepsSound(bill, t, id, op, now);
    EvolvesSame(t, now);
    if id in t && t[id].JobRow? {
      Preserves(bill, t[id].job, op, now);
      assert t[id := JobRow(Apply(bill, t[id].job, op, now).value)].Keys == t.Keys;
    }
  }

  lemma {:induction false} ClaimEvolves(bill: Pricing, t: Table, picked: seq<string>, now: Time)
    requires AllSound(t)
    ensures var t' := ClaimRows(bill, t, picked, now);
            Evolves(t, t', now) && t'.Keys == t.Keys && AllSound(t')
    decreases |picked|
  {
    hide Evolves, AllSound, RowApply;
    EvolvesSame(t, now);
    if picked != [] {
      var r := RowApply(bill, t, picked[0], Claim(false), now);
      if r.Ok? {
        RowEvolves(bill, t, picked[0], Claim(false), now);
        ClaimEvolves(bill, r.value, picked[1..], now);
        EvolvesTransitive(t, r.value, ClaimRows(bill, r.value, picked[1..], now), now);
      }
    }
  }

  /** An admission adds one unused identifier, after removing at most one evictable row. */
  lemma AdmitShape(t: Table, a: Admission, now: Time, victim: string) returns (room: Table)
    requires AssetsOk(t) && |t| <= CAPACITY && Admit(t, a, now, victim).Ok?
    ensures Admit(t, a, now, victim).value == room[a.id := JobRow(NewJob(a))] && a.id !in t && JobId(a.id)
    ensures (room == t || (Victim(t, now, victim) && room == t - {victim})) && |room| < CAPACITY && |ActiveIds(t)| < ACTIVE_LIMIT
    ensures RequestKeyOf(a).Some? ==> !Held(t, RequestKeyOf(a).value, now)
  {
    hide Victim, Held, Active, NewJob;
    room := MakeRoom(t, now, victim).value;
    if |t| >= CAPACITY {
      VictimIn(t, now, victim);
      assert (t - {victim}).Keys == t.Keys - {victim};
      assert |t.Keys - {victim}| == |t.Keys| - 1;
      assert |t| == |t.Keys| && |room| == |room.Keys|;
    }
  }

  lemma VictimIn(t: Table, now: Time, victim: string)
    requires Victim(t, now, victim)
    ensures victim in t && Evictable(t[victim], now)
  {}

  /** The key the new row will hold. */
  function RequestKeyOf(a: Admission): Option<Key> {
    if a.managed.None? then None else RequestKey(a.managed.value)
  }

  lemma NewKey(a: Admission)
    requires ManagedOk(a)
    ensures KeyOf(NewJob(a).sum.managed) == RequestKeyOf(a)
  {}

  /** The row an admission puts in place: the new job, or the new job with its upload. */
  lemma NewRowOk(a: Admission, b: Binding, plan: UploadPlan)
    requires JobId(a.id)
    ensures Sound(NewJob(a)) && NewJob(a).sum.id == a.id
    ensures var r := WithInput(NewJob(a), b, NewUpload(a, plan));
            Sound(r) && r.sum == NewJob(a).sum && r.state == NewJob(a).state
  {
    hide Settlements;
    NewIsSound(a);
    NewIsSound(a.(managed := None, facts := plan.facts, intents := plan.intents, reservedMicros := plan.reservedMicros));
    NotPaidYet(NewUpload(a, plan));
    NotPaidYet(NewJob(a));
  }

  /** A table with a new row for an unused identifier evolves from the old one and stays in order. */
  lemma AddRow(t: Table, room: Table, victim: string, id: string, r: Record, now: Time, clock: Time)
    requires AllSound(t) && AssetsOk(t) && UniqueKeys(t, clock) && UniqueAssets(t) && clock <= now
    requires (room == t || (Victim(t, now, victim) && room == t - {victim})) && |room| < CAPACITY && |ActiveIds(t)| < ACTIVE_LIMIT
    requires id !in t && JobId(id) && Sound(r) && r.sum.id == id
    requires KeyOf(r.sum.managed).Some? ==> !Held(t, KeyOf(r.sum.managed).value, now)
    ensures var t' := room[id := JobRow(r)];
            && Evolves(t, t', now) && AllSound(t') && AssetsOk(t') && UniqueKeys(t', now) && UniqueAssets(t')
            && |t'| <= CAPACITY && |ActiveIds(t')| <= ACTIVE_LIMIT
  {
    hide Victim, Evolves, AllSound, UniqueKeys, UniqueAssets, AssetsOk, ActiveIds, Held;
    if room != t { VictimIn(t, now, victim); }
    AddKeys(t, room, id, r, now, clock);
    AddedEvolves(t, room, id, JobRow(r), now);
    AddedJobOk(t, room, id, r);
    AddedSize(t, room, id, JobRow(r));
  }

  /** The rest of the table is untouched by a new row. */
  lemma AddedEvolves(t: Table, room: Table, id: string, row: Row, now: Time)
    requires id !in t && room.Keys <= t.Keys && forall x :: x in room ==> room[x] == t[x]
    requires forall x :: x in t && x !in room ==> Evictable(t[x], now)
    ensures Evolves(t, room[id := row], now)
  {
    hide Advances;
    EvolvesSame(t, now);
  }

  lemma AddedJobOk(t: Table, room: Table, id: string, r: Record)
    requires AllSound(t) && AssetsOk(t) && UniqueAssets(t)
    requires room.Keys <= t.Keys && forall x :: x in room ==> room[x] == t[x]
    requires id !in t && JobId(id) && Sound(r) && r.sum.id == id
    ensures var t' := room[id := JobRow(r)]; AllSound(t') && AssetsOk(t') && UniqueAssets(t')
  {
    hide Sound, JobId, AssetId;
    var t' := room[id := JobRow(r)];
    forall a, b, d | a in t' && b in t' && AssetMatches(t'[a], d) && AssetMatches(t'[b], d) ensures a == b {
      assert AssetMatches(t[a], d) && AssetMatches(t[b], d);
    }
  }

  lemma AddedSize(t: Table, room: Table, id: string, row: Row)
    requires id !in t && room.Keys <= t.Keys && forall x :: x in room ==> room[x] == t[x]
    ensures |room[id := row]| == |room| + 1 && |ActiveIds(room[id := row])| <= |ActiveIds(t)| + 1
    ensures !Active(row) ==> |ActiveIds(room[id := row])| <= |ActiveIds(t)|
  {
    hide Active;
    var t' := room[id := row];
    assert t'.Keys == room.Keys + {id};
    assert |t'| == |t'.Keys| == |room.Keys| + 1;
    assert ActiveIds(t') <= ActiveIds(t) + {id};
    SubsetSize(ActiveIds(t'), ActiveIds(t) + {id});
    if !Active(row) { SubsetSize(ActiveIds(t'), ActiveIds(t)); }
  }

  lemma AddKeys(t: Table, room: Table, id: string, r: Record, now: Time, clock: Time)
    requires UniqueKeys(t, clock) && clock <= now && id !in t
    requires room.Keys <= t.Keys && forall x :: x in room ==> room[x] == t[x]
    requires KeyOf(r.sum.managed).Some? ==> !Held(t, KeyOf(r.sum.managed).value, now)
    ensures UniqueKeys(room[id := JobRow(r)], now)
  {
    var t' := room[id := JobRow(r)];
    forall a, b, k | a in t' && b in t' && Holds(t'[a], k, now) && Holds(t'[b], k, now) ensures a == b {
      assert a != id ==> Holds(t[a], k, now) && Holds(t[a], k, clock);
      assert b != id ==> Holds(t[b], k, now) && Holds(t[b], k, clock);
    }
  }

  /** Steps that keep the set of rows. */
  lemma SameRows(t: Table, t': Table, now: Time, clock: Time)
    requires Evolves(t, t', now) && t'.Keys == t.Keys && AllSound(t') && clock <= now
    requires AssetsOk(t) && UniqueKeys(t, clock) && UniqueAssets(t) && |t| <= CAPACITY && |ActiveIds(t)| <= ACTIVE_LIMIT
    ensures AssetsOk(t') && UniqueKeys(t', now) && UniqueAssets(t') && |t'| <= CAPACITY && |ActiveIds(t')| <= ACTIVE_LIMIT
  {
    hide Sound, Advances;
    assert |t| == |t.Keys| && |t'| == |t'.Keys|;
    forall id | id in t && t[id].JobRow?
      ensures forall k :: Holds(t'[id], k, now) ==> Holds(t[id], k, clock)
      ensures Active(t'[id]) ==> Active(t[id])
    {
      AdvancesId(t[id].job, t'[id].job);
    }
    forall a, b, k | a in t' && b in t' && Holds(t'[a], k, now) && Holds(t'[b], k, now) ensures a == b {
      assert Holds(t[a], k, clock) && Holds(t[b], k, clock);
    }
    forall a, b, d | a in t' && b in t' && AssetMatches(t'[a], d) && AssetMatches(t'[b], d) ensures a == b {
      assert AssetMatches(t[a], d) && AssetMatches(t[b], d);
    }
    assert ActiveIds(t') <= ActiveIds(t);
    SubsetSize(ActiveIds(t'), ActiveIds(t));
  }

  lemma AssetEvolves(t: Table, b: AssetBinding, op: AssetOp, now: Time)
    requires AllSound(t) && AssetStep(t, b, op, now).Ok?
    ensures var t' := AssetStep(t, b, op, now).value;
            Evolves(t, t', now) && t'.Keys == t.Keys && AllSound(t')
  {
    hide Sound, Advances;
    EvolvesSame(t, now);
    assert t[b.id := AssetRow(AssetApply(t[b.id].asset, op).value)].Keys == t.Keys;
  }

  lemma AddAsset(t: Table, b: AssetBinding, now: Time, clock: Time)
    requires AllSound(t) && AssetsOk(t) && UniqueKeys(t, clock) && UniqueAssets(t) && clock <= now
    requires |t| <= CAPACITY && |ActiveIds(t)| <= ACTIVE_LIMIT && AssetAllocate(t, b, now).Ok?
    ensures var t' := AssetAllocate(t, b, now).value;
            && Evolves(t, t', now) && AllSound(t') && AssetsOk(t') && UniqueKeys(t', now) && UniqueAssets(t')
            && |t'| <= CAPACITY && |ActiveIds(t')| <= ACTIVE_LIMIT
  {
    hide Evolves, AllSound, UniqueKeys, AssetsOk, UniqueAssets, ActiveIds;
    EvolvesSame(t, now);
    var t' := AssetAllocate(t, b, now).value;
    if t' == t {
      SameRows(t, t, now, clock);
    } else {
      AddedEvolves(t, t, b.id, t'[b.id], now);
      AddedSize(t, t, b.id, t'[b.id]);
      AddedAssetOk(t, b, now, clock);
    }
  }

  lemma AddedAssetOk(t: Table, b: AssetBinding, now: Time, clock: Time)
    requires AllSound(t) && AssetsOk(t) && UniqueKeys(t, clock) && UniqueAssets(t) && clock <= now
    requires AssetAllocate(t, b, now).Ok? && AssetAllocate(t, b, now).value != t
    ensures var t' := AssetAllocate(t, b, now).value; AllSound(t') && AssetsOk(t') && UniqueKeys(t', now) && UniqueAssets(t')
  {
    hide Sound, JobId;
    var t' := AssetAllocate(t, b, now).value;
    forall x, y, k | x in t' && y in t' && Holds(t'[x], k, now) && Holds(t'[y], k, now) ensures x == y {
      assert Holds(t[x], k, clock) && Holds(t[y], k, clock);
    }
    forall x, y, d | x in t' && y in t' && AssetMatches(t'[x], d) && AssetMatches(t'[y], d) ensures x == y {
      assert x in t ==> AssetMatches(t[x], d);
      assert y in t ==> AssetMatches(t[y], d);
    }
  }

  lemma AdmitKeeps(bill: Pricing, t: Table, op: Op, now: Time, clock: Time)
    requires op.AdmitJob?
    requires AllSound(t) && AssetsOk(t) && UniqueKeys(t, clock) && UniqueAssets(t) && clock <= now
    requires |t| <= CAPACITY && |ActiveIds(t)| <= ACTIVE_LIMIT && TableAfter(bill, t, op, now).Ok?
    ensures var t' := TableAfter(bill, t, op, now).value;
            && Evolves(t, t', now) && AllSound(t') && AssetsOk(t') && UniqueKeys(t', now) && UniqueAssets(t')
            && |t'| <= CAPACITY && |ActiveIds(t')| <= ACTIVE_LIMIT
  {
    hide AllSound, UniqueKeys, UniqueAssets, AssetsOk, Evolves, ActiveIds, Admit, NewJob;
    var a := op.admission;
    var room := AdmitShape(t, a, now, op.victim);
    AdmittedOk(t, a, now, op.victim);
    NewKey(a);
    NewRowOk(a, Binding("", 0, ""), UploadPlan(a.facts, [], 0));
    AddRow(t, room, op.victim, a.id, NewJob(a), now, clock);
  }

  lemma AllocateKeeps(bill: Pricing, t: Table, op: Op, now: Time, clock: Time)
    requires op.AllocateInput?
    requires AllSound(t) && AssetsOk(t) && UniqueKeys(t, clock) && UniqueAssets(t) && clock <= now
    requires |t| <= CAPACITY && |ActiveIds(t)| <= ACTIVE_LIMIT && TableAfter(bill, t, op, now).Ok?
    ensures var t' := TableAfter(bill, t, op, now).value;
            && Evolves(t, t', now) && AllSound(t') && AssetsOk(t') && UniqueKeys(t', now) && UniqueAssets(t')
            && |t'| <= CAPACITY && |ActiveIds(t')| <= ACTIVE_LIMIT
  {
    hide AllSound, UniqueKeys, UniqueAssets, AssetsOk, Evolves, ActiveIds, Admit, Allocate, NewJob, WithInput, NewUpload;
    AllocateAdmits(t, op, now);
    var a := op.admission;
    var room := AdmitShape(t, a, now, op.victim);
    AdmittedOk(t, a, now, op.victim);
    NewKey(a);
    NewRowOk(a, op.binding, op.plan);
    var r := WithInput(NewJob(a), op.binding, NewUpload(a, op.plan));
    AddRow(t, room, op.victim, a.id, r, now, clock);
    AllocateIs(t, op, now, room);
  }

  lemma AllocateAdmits(t: Table, op: Op, now: Time)
    requires op.AllocateInput? && Allocate(t, op.admission, op.binding, op.plan, op.valid, now, op.victim).Ok?
    ensures Admit(t, op.admission, now, op.victim).Ok?
  {
    hide Admit, NewJob, WithInput, NewUpload;
  }

  lemma AllocateIs(t: Table, op: Op, now: Time, room: Table)
    requires op.AllocateInput? && Allocate(t, op.admission, op.binding, op.plan, op.valid, now, op.victim).Ok?
    requires Admit(t, op.admission, now, op.victim) == Ok(room[op.admission.id := JobRow(NewJob(op.admission))])
    ensures Allocate(t, op.admission, op.binding, op.plan, op.valid, now, op.victim).value ==
              room[op.admission.id := JobRow(WithInput(NewJob(op.admission), op.binding, NewUpload(op.admission, op.plan)))]
  {
    hide Admit, NewJob, WithInput, NewUpload;
  }

  /** Every table a step can reach is in order, and evolves from the one before. */
  lemma TableKeeps(bill: Pricing, t: Table, op: Op, now: Time, clock: Time)
    requires AllSound(t) && AssetsOk(t) && UniqueKeys(t, clock) && UniqueAssets(t) && clock <= now
    requires |t| <= CAPACITY && |ActiveIds(t)| <= ACTIVE_LIMIT && TableAfter(bill, t, op, now).Ok?
    ensures var t' := TableAfter(bill, t, op, now).value;
            && Evolves(t, t', now) && AllSound(t') && AssetsOk(t') && UniqueKeys(t', now) && UniqueAssets(t')
            && |t'| <= CAPACITY && |ActiveIds(t')| <= ACTIVE_LIMIT
  {
    hide AllSound, UniqueKeys, UniqueAssets, AssetsOk, Evolves, RowApply, ClaimRows, AssetAllocate, AssetStep, ActiveIds, Admit, NewJob, WithInput, NewUpload;
    match op
    case AdmitJob(a, victim) => AdmitKeeps(bill, t, op, now, clock);
    case AllocateInput(a, b, plan, valid, victim) => AllocateKeeps(bill, t, op, now, clock);
    case OnRow(id, rowOp) =>
      RowEvolves(bill, t, id, rowOp, now);
      SameRows(t, RowApply(bill, t, id, rowOp, now).value, now, clock);
    case ClaimDue(picked) =>
      ClaimEvolves(bill, t, picked, now);
      SameRows(t, ClaimRows(bill, t, picked, now), now, clock);
    case AllocateAsset(b) =>
      AddAsset(t, b, now, clock);
    case OnAsset(b, assetOp) =>
      AssetEvolves(t, b, assetOp, now);
      SameRows(t, AssetStep(t, b, assetOp, now).value, now, clock);
  }

  lemma AdmittedOk(t: Table, a: Admission, now: Time, victim: string)
    requires Admit(t, a, now, victim).Ok?
    ensures ManagedOk(a)
  {}

  lemma TimePasses(t: Table, clock: Time, now: Time)
    requires UniqueKeys(t, clock) && clock <= now
    ensures UniqueKeys(t, now)
  {
    forall a, b, k | a in t && b in t && Holds(t[a], k, now) && Holds(t[b], k, now) ensures a == b {
      assert Holds(t[a], k, clock) && Holds(t[b], k, clock);
    }
  }

  /** A guard survives any evolution of the table before its deadline. */
  lemma GuardSurvives(t: Table, t': Table, clock: Time, now: Time, g: Grant)
    requires Guarded(t, clock, g) && Evolves(t, t', now) && clock <= now
    ensures Guarded(t', now, g)
  {
    hide Advances;
    if now < g.replayUntil {
      assert Holds(t[g.id], g.key, clock);
      assert !Evictable(t[g.id], now);
      AdvancesId(t[g.id].job, t'[g.id].job);
    }
  }

  /** `beginEgress` succeeds only on an admitting row, and leaves it observing. */
  lemma EgressRank(bill: Pricing, r: Record, now: Time)
    requires Sound(r) && Apply(bill, r, BeginEgress, now).Ok?
    ensures Rank(r) == 0 && now < r.sum.replayUntil && Rank(Apply(bill, r, BeginEgress, now).value) == 1
  {}

  /** Nobody who released this key before is still inside the replay window. */
  lemma NoEarlierGrant(bill: Pricing, s: Store, id: string, now: Time, i: nat)
    requires Inv(s) && s.clock <= now && i < |s.grants| && id in s.table && s.table[id].JobRow?
    requires Apply(bill, s.table[id].job, BeginEgress, now).Ok? && KeyOf(s.table[id].job.sum.managed) == Some(s.grants[i].key)
    ensures now >= s.grants[i].replayUntil
  {
    hide Apply, Sound;
    var g, r := s.grants[i], s.table[id].job;
    EgressRank(bill, r, now);
    assert Guarded(s.table, s.clock, g);
    assert now < g.replayUntil ==> g.id in s.table && Holds(s.table[g.id], g.key, s.clock) && Holds(s.table[id], g.key, s.clock);
  }

  /** Every step keeps the invariant of the store. */
  lemma StepKeeps(bill: Pricing, s: Store, op: Op, now: Time)
    requires Inv(s) && s.clock <= now
    ensures Inv(Step(bill, s, op, now)) && Evolves(s.table, Step(bill, s, op, now).table, now)
  {
    hide AllSound, UniqueKeys, UniqueAssets, AssetsOk, Evolves, Guarded, TableAfter, ActiveIds, Released;
    var s' := Step(bill, s, op, now);
    TimePasses(s.table, s.clock, now);
    EvolvesSame(s.table, now);
    if TableAfter(bill, s.table, op, now).Ok? {
      TableKeeps(bill, s.table, op, now, s.clock);
    }
    forall i | 0 <= i < |s.grants| ensures Guarded(s'.table, now, s.grants[i]) {
      GuardSurvives(s.table, s'.table, s.clock, now, s.grants[i]);
    }
    var more := Released(bill, s, op, now);
    ReleasedOk(bill, s, op, now);
    forall i | 0 <= i < |s'.grants| ensures Guarded(s'.table, now, s'.grants[i]) {
      assert s'.grants[i] == if i < |s.grants| then s.grants[i] else more[i - |s.grants|];
    }
    forall i, j | 0 <= i < j < |s'.grants| && s'.grants[i].key == s'.grants[j].key ensures s'.grants[j].at >= s'.grants[i].replayUntil {
      assert s'.grants[i] == s.grants[i];
    }
  }

  /** At most one release per step; it is guarded at once, and later than every window of its key. */
  lemma ReleasedOk(bill: Pricing, s: Store, op: Op, now: Time)
    requires Inv(s) && s.clock <= now
    ensures var more := Released(bill, s, op, now);
            && |more| <= 1
            && (|more| == 1 ==>
                  && Guarded(Step(bill, s, op, now).table, now, more[0])
                  && forall i :: 0 <= i < |s.grants| && s.grants[i].key == more[0].key ==> more[0].at >= s.grants[i].replayUntil)
  {
    hide Apply, Sound, UniqueKeys, UniqueAssets, AssetsOk;
    if Released(bill, s, op, now) != [] {
      var id, r := op.id, s.table[op.id].job;
      EgressRank(bill, r, now);
      Preserves(bill, r, BeginEgress, now);
      AdvancesId(r, Apply(bill, r, BeginEgress, now).value);
      forall i | 0 <= i < |s.grants| && s.grants[i].key == KeyOf(r.sum.managed).value ensures now >= s.grants[i].replayUntil {
        NoEarlierGrant(bill, s, id, now, i);
      }
    }
  }

  // ----- Runs

  datatype Timed = Timed(op: Op, at: Time)

  predicate Chronological(clock: Time, trace: seq<Timed>)
    decreases |trace|
  {
    trace == [] || (clock <= trace[0].at && Chronological(trace[0].at, trace[1..]))
  }

  ghost function Run(bill: Pricing, s: Store, trace: seq<Timed>): (s': Store)
    requires Inv(s) && Chronological(s.clock, trace)
    ensures Inv(s')
    decreases |trace|
  {
    if trace == [] then s
    else
      StepKeeps(bill, s, trace[0].op, trace[0].at);
      Run(bill, Step(bill, s, trace[0].op, trace[0].at), trace[1..])
  }

  function Empty(clock: Time): Store {
    Store(map[], clock, [])
  }

  lemma EmptyInv(clock: Time)
    ensures Inv(Empty(clock))
  {
    assert ActiveIds(map[]) == {};
  }

  /** The state after any run from an empty table. */
  ghost function Reach(bill: Pricing, clock: Time, trace: seq<Timed>): (s: Store)
    requires Chronological(clock, trace)
    ensures Inv(s)
  {
    EmptyInv(clock);
    Run(bill, Empty(clock), trace)
  }

  /** In every run, two releases of the same key are at least a replay window apart. */
  lemma OneReleasePerWindow(bill: Pricing, clock: Time, trace: seq<Timed>, i: nat, j: nat)
    requires Chronological(clock, trace)
    requires i < j < |Reach(bill, clock, trace).grants|
    ensures var gs := Reach(bill, clock, trace).grants;
            gs[i].key == gs[j].key ==> gs[j].at >= gs[i].replayUntil
  {
    hide AllSound, UniqueKeys, Guarded;
    assert Spaced(Reach(bill, clock, trace).grants);
  }

  /** In every reachable state a key has at most one row inside its replay window, and the table is bounded. */
  lemma ReachableTables(bill: Pricing, clock: Time, trace: seq<Timed>, a: string, b: string, k: Key)
    requires Chronological(clock, trace)
    ensures var s := Reach(bill, clock, trace);
            && (a in s.table && b in s.table && Holds(s.table[a], k, s.clock) && Holds(s.table[b], k, s.clock) ==> a == b)
            && |s.table| <= CAPACITY && |ActiveIds(s.table)| <= ACTIVE_LIMIT
  {
    hide AllSound, Guarded;
  }

  /** The row `id` is in the table before and after every step of the run. */
  ghost predicate Stays(bill: Pricing, s: Store, trace: seq<Timed>, id: string)
    requires Inv(s) && Chronological(s.clock, trace)
    decreases |trace|
  {
    if trace == [] then id in s.table && s.table[id].JobRow?
    else
      StepKeeps(bill, s, trace[0].op, trace[0].at);
      id in s.table && s.table[id].JobRow? && Stays(bill, Step(bill, s, trace[0].op, trace[0].at), trace[1..], id)
  }

  /** Over any run a job's row only moves forward: phase rank, receipt, amount and basis, legs and upload. */
  lemma {:induction false} JobsMoveForward(bill: Pricing, s: Store, trace: seq<Timed>, id: string)
    requires Inv(s) && Chronological(s.clock, trace) && Stays(bill, s, trace, id)
    ensures var s' := Run(bill, s, trace);
            && id in s'.table && s'.table[id].JobRow? && Advances(s.table[id].job, s'.table[id].job) && Sound(s'.table[id].job)
            && (Frozen(s.table[id].job) ==> Frozen(s'.table[id].job))
    decreases |trace|
  {
    hide Advances, TableAfter, Released, Sound, Guarded, UniqueKeys, UniqueAssets;
    Reflexive(s.table[id].job);
    if trace != [] {
      StepKeeps(bill, s, trace[0].op, trace[0].at);
      var s1 := Step(bill, s, trace[0].op, trace[0].at);
      JobsMoveForward(bill, s1, trace[1..], id);
      AdvancesTransitive(s.table[id].job, s1.table[id].job, Run(bill, s, trace).table[id].job);
      StaysFrozen(s.table[id].job, s1.table[id].job);
    }
  }

  lemma StaysFrozen(r: Record, r': Record)
    requires Sound(r) && Sound(r') && Advances(r, r')
    ensures Frozen(r) ==> Frozen(r')
  {
    if Frozen(r) { FrozenStays(r, r'); }
  }

  /** A row disappears only when its window is over or it never carried a key. */
  lemma RowsLeaveLate(bill: Pricing, s: Store, op: Op, now: Time, id: string)
    requires Inv(s) && s.clock <= now && id in s.table && id !in Step(bill, s, op, now).table
    ensures s.table[id].JobRow? && s.table[id].job.state.Dead?
    ensures s.table[id].job.sum.managed.Some? ==> s.table[id].job.sum.replayUntil <= now
  {
    hide Step, Advances, Inv;
    StepKeeps(bill, s, op, now);
    assert Evictable(s.table[id], now);
  }

  /** In every reachable row: complete exactly when paid in full, never a frozen job with an unfrozen upload,
      and no leg settled on trust. */
  lemma ReachableRows(bill: Pricing, clock: Time, trace: seq<Timed>, id: string)
    requires Chronological(clock, trace)
    requires id in Reach(bill, clock, trace).table && Reach(bill, clock, trace).table[id].JobRow?
    ensures var r := Reach(bill, clock, trace).table[id].job;
            && (IsComplete(r) <==> Paid(r.sum) && (r.input.Some? ==> Paid(r.input.value.upload.sum)))
            && (r.state.Live? && Frozen(r) && r.input.Some? ==> Frozen(r.input.value.upload))
            && (r.state.Live? ==> (r.state.work.facts.None? <==> r.state.work.event.Some?))
            && (r.state.Live? ==> forall i :: 0 <= i < |r.state.work.legs| && r.state.work.legs[i].settlement.Settled? ==>
                  var l := r.state.work.legs[i];
                  l.acknowledged || l.sends == 0 || (l.sends == 1 && l.reserve.Denied?))
  {
    hide Reach, Guarded, UniqueKeys, UniqueAssets;
    var s := Reach(bill, clock, trace);
    assert Sound(s.table[id].job);
  }
}

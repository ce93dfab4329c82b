/**
 The continuation table of `worker/continuation-store.ts`: who owns a continuation, who produced it and what is known of
 it, with a row counter kept beside the rows.
 */
module Continuations {
  import opened Basics

  const RETENTION_MS: int := 30 * 24 * 60 * 60000
  const CAPACITY: nat := 1000000
  const SWEEP_LIMIT: nat := 256

  /** What the evidence column holds: nothing, text that is no evidence, or a producer's claim, pending until it knows. */
  datatype Proof = NoProof | Garbled | Claimed(producer: string, knowledge: Option<string>)

  datatype Row = Row(owner: string, expiresAt: int, proof: Proof, job: Option<string>, closed: bool, streaming: bool)
  type Rows = map<string, Row>

  datatype Claim = Claim(key: string, producer: string)

  /** A registration whose fields are well formed. */
  datatype Registration = Registration(keys: seq<string>, owner: string, claim: Option<Claim>, job: Option<string>,
                                       closed: bool, retired: bool, streaming: bool)

  datatype Outcome = Refused | Conflict | ProducerConflict | Full | Stored | Qualified | Unavailable

  /** The row of a key, unless it has expired. */
  function Live(rows: Rows, key: string, now: int): Option<Row> {
    if key in rows && rows[key].expiresAt > now then Some(rows[key]) else None
  }

  predicate Distinct(keys: seq<string>) {
    forall i, j :: 0 <= i < j < |keys| ==> keys[i] != keys[j]
  }

  /** One or two different keys, the claim about one of them, and a job only with a claim. */
  predicate WellFormed(r: Registration) {
    && 1 <= |r.keys| <= 2 && Distinct(r.keys)
    && (r.claim.Some? ==> r.claim.value.key in r.keys)
    && (r.job.Some? ==> r.claim.Some?)
  }

  predicate Claims(r: Registration, key: string) {
    r.claim.Some? && r.claim.value.key == key
  }

  predicate ClaimFits(r: Registration, key: string, proof: Proof) {
    proof.NoProof? || (Claims(r, key) && proof.Claimed? && proof.producer == r.claim.value.producer)
  }

  /** A retired job registers only on its own row; without a job it registers only where there is no row. */
  predicate RetiredElsewhere(row: Option<Row>, job: Option<string>) {
    if row.None? then job.Some? else job.None? || row.value.job != job
  }

  /** The checks that come before any change. */
  function Objection(rows: Rows, r: Registration, now: int): Option<Outcome> {
    if r.retired && (r.claim.None? || RetiredElsewhere(Live(rows, r.claim.value.key, now), r.job)) then Some(ProducerConflict)
    else if exists i :: 0 <= i < |r.keys| && Live(rows, r.keys[i], now).Some? && Live(rows, r.keys[i], now).value.owner != r.owner then Some(Conflict)
    else if exists i :: 0 <= i < |r.keys| && Claims(r, r.keys[i]) && Live(rows, r.keys[i], now).Some? && Live(rows, r.keys[i], now).value.job != r.job then Some(ProducerConflict)
    else if exists i :: 0 <= i < |r.keys| && Live(rows, r.keys[i], now).Some? && !ClaimFits(r, r.keys[i], Live(rows, r.keys[i], now).value.proof) then Some(ProducerConflict)
    else None
  }

  /** The rows an expiry sweep removes: the earliest expired ones, at most so many. */
  predicate Sweep(rows: Rows, now: int, swept: set<string>) {
    && |swept| <= SWEEP_LIMIT
    && (forall k :: k in swept ==> k in rows && rows[k].expiresAt <= now)
    && (forall k, j :: k in swept && j in rows && j !in swept && rows[j].expiresAt <= now ==> rows[k].expiresAt <= rows[j].expiresAt)
    && (|swept| < SWEEP_LIMIT ==> forall j :: j in rows && rows[j].expiresAt <= now ==> j in swept)
  }

  function Missing(rows: Rows, keys: seq<string>, now: int): seq<string> {
    if keys == [] then [] else (if Live(rows, keys[0], now).None? then [keys[0]] else []) + Missing(rows, keys[1..], now)
  }

  function NewRow(r: Registration, key: string, now: int): Row {
    Row(r.owner, now + RETENTION_MS, if Claims(r, key) then Claimed(r.claim.value.producer, None) else NoProof,
        if Claims(r, key) then r.job else None, r.closed && Claims(r, key), r.streaming && Claims(r, key))
  }

  function Insert(rows: Rows, r: Registration, keys: seq<string>, now: int): Rows {
    if keys == [] then rows else Insert(rows, r, keys[..|keys| - 1], now)[keys[|keys| - 1] := NewRow(r, keys[|keys| - 1], now)]
  }

  function CloseJob(rows: Rows, job: string): Rows {
    map k | k in rows :: if rows[k].job == Some(job) then rows[k].(closed := true) else rows[k]
  }

  /** The rows without those of the given keys that have expired. */
  function Forget(rows: Rows, keys: seq<string>, now: int): Rows {
    map k | k in rows && !(k in keys && rows[k].expiresAt <= now) :: rows[k]
  }

  function Cleared(rows: Rows, r: Registration, swept: set<string>, now: int): Rows {
    Forget(rows, r.keys, now) - swept
  }

  function Register(rows: Rows, r: Registration, swept: set<string>, now: int): (Rows, Outcome) {
    if Objection(rows, r, now).Some? then (rows, Objection(rows, r, now).value)
    else
      var cleared := Cleared(rows, r, swept, now);
      var missing := Missing(rows, r.keys, now);
      if |cleared| + |missing| > CAPACITY then (cleared, Full)
      else
        var stored := Insert(cleared, r, missing, now);
        (if r.closed && r.job.Some? then CloseJob(stored, r.job.value) else stored, Stored)
  }

  function Qualify(rows: Rows, claim: Claim, owner: string, knowledge: string, now: int): (Rows, Outcome) {
    var row := Live(rows, claim.key, now);
    if row.None? then (rows, Unavailable)
    else if row.value.owner != owner then (rows, Conflict)
    else if !row.value.proof.Claimed? || row.value.proof.producer != claim.producer then (rows, ProducerConflict)
    else if row.value.proof.knowledge.Some? then (rows, if row.value.proof.knowledge.value == knowledge then Qualified else ProducerConflict)
    else (rows[claim.key := row.value.(proof := Claimed(claim.producer, Some(knowledge)))], Qualified)
  }

  // ----- What a live row keeps

  /** Owner, producer, lifetime and job are fixed; evidence becomes final once; closing is for good. */
  predicate Keeps(a: Row, b: Row) {
    && b.owner == a.owner && b.expiresAt == a.expiresAt && b.job == a.job && b.streaming == a.streaming && (a.closed ==> b.closed)
    && (a.proof.Claimed? ==> b.proof.Claimed? && b.proof.producer == a.proof.producer && (a.proof.knowledge.Some? ==> b.proof == a.proof))
    && (!a.proof.Claimed? ==> b.proof == a.proof)
  }

  /** Rows that have not expired are all still there, and keep what they must. */
  ghost predicate Lasting(rows: Rows, rows': Rows, now: int) {
    forall k :: k in rows && rows[k].expiresAt > now ==> k in rows' && Keeps(rows[k], rows'[k])
  }

  datatype Op =
    | DoRegister(registration: Registration, swept: set<string>)
    | DoQualify(claim: Claim, owner: string, knowledge: string)
    | DoClose(job: string)
    | DoExpire(swept: set<string>)

  /** The sweep an operation makes is one the query could have made. */
  ghost predicate Possible(rows: Rows, op: Op, now: int) {
    match op
    case DoRegister(r, swept) => WellFormed(r) && Sweep(Forget(rows, r.keys, now), now, swept)
    case DoExpire(swept) => Sweep(rows, now, swept)
    case _ => true
  }

  function After(rows: Rows, op: Op, now: int): Rows {
    match op
    case DoRegister(r, swept) => Register(rows, r, swept, now).0
    case DoQualify(claim, owner, knowledge) => Qualify(rows, claim, owner, knowledge, now).0
    case DoClose(job) => CloseJob(rows, job)
    case DoExpire(swept) => rows - swept
  }

  lemma {:induction false} MissingMeans(rows: Rows, keys: seq<string>, now: int)
    requires Distinct(keys)
    ensures var m := Missing(rows, keys, now);
            && |m| <= |keys| && Distinct(m) && (forall k :: k in m <==> k in keys && Live(rows, k, now).None?)
  {
    if keys != [] {
      assert keys == [keys[0]] + keys[1..];
      MissingMeans(rows, keys[1..], now);
    }
  }

  lemma {:induction false} InsertMeans(rows: Rows, r: Registration, keys: seq<string>, now: int)
    requires Distinct(keys) && forall k :: k in keys ==> k !in rows
    ensures var after := Insert(rows, r, keys, now);
            && (forall k :: k in after <==> k in rows || k in keys) && |after| == |rows| + |keys|
            && (forall k :: k in rows ==> after[k] == rows[k]) && (forall k :: k in keys ==> after[k] == NewRow(r, k, now))
  {
    hide NewRow;
    if keys != [] {
      var n := |keys| - 1;
      var last := keys[n];
      assert keys == keys[..n] + [last] && last !in keys[..n];
      InsertMeans(rows, r, keys[..n], now);
      Added(Insert(rows, r, keys[..n], now), last, NewRow(r, last, now));
    }
  }

  lemma Added(rows: Rows, key: string, row: Row)
    requires key !in rows
    ensures |rows[key := row]| == |rows| + 1
  {
    assert rows[key := row].Keys == rows.Keys + {key};
    assert |rows| == |rows.Keys| && |rows[key := row]| == |rows[key := row].Keys|;
  }

  /** After the expired rows of its keys are gone, what a registration misses is not in the table. */
  lemma MissingIsGone(rows: Rows, r: Registration, swept: set<string>, now: int)
    requires WellFormed(r)
    ensures var cleared := Cleared(rows, r, swept, now);
            forall k :: k in Missing(rows, r.keys, now) ==> k !in cleared
  {
    MissingMeans(rows, r.keys, now);
  }

  lemma RegisterLasting(rows: Rows, r: Registration, swept: set<string>, now: int)
    requires WellFormed(r) && Sweep(Forget(rows, r.keys, now), now, swept)
    ensures Lasting(rows, Register(rows, r, swept, now).0, now)
    ensures |rows| <= CAPACITY ==> |Register(rows, r, swept, now).0| <= CAPACITY
  {
    hide Objection, NewRow, Lasting, Sweep, Insert, CloseJob, Forget, Cleared, Missing, WellFormed, Live, Keeps, Claims, ClaimFits, Distinct;
    var cleared, missing := Cleared(rows, r, swept, now), Missing(rows, r.keys, now);
    LastingSelf(rows, now);
    ClearedLasting(rows, r, swept, now);
    StoredLasting(rows, r, swept, now);
    if r.job.Some? { CloseKeeps(rows, Insert(cleared, r, missing, now), r.job.value, now); }
  }

  lemma LastingSelf(rows: Rows, now: int)
    ensures Lasting(rows, rows, now)
  {}

  lemma ClearedLasting(rows: Rows, r: Registration, swept: set<string>, now: int)
    requires Sweep(Forget(rows, r.keys, now), now, swept)
    ensures var cleared := Cleared(rows, r, swept, now);
            Lasting(rows, cleared, now) && |cleared| <= |rows|
  {
    var cleared := Cleared(rows, r, swept, now);
    SubsetSize(cleared.Keys, rows.Keys);
    assert |cleared| == |cleared.Keys| && |rows| == |rows.Keys|;
  }

  lemma ClearedSame(rows: Rows, r: Registration, swept: set<string>, now: int, k: string)
    requires Sweep(Forget(rows, r.keys, now), now, swept) && k in rows && rows[k].expiresAt > now
    ensures k in Cleared(rows, r, swept, now) && Cleared(rows, r, swept, now)[k] == rows[k]
  {}

  lemma StoredLasting(rows: Rows, r: Registration, swept: set<string>, now: int)
    requires WellFormed(r) && Sweep(Forget(rows, r.keys, now), now, swept)
    ensures var cleared, missing := Cleared(rows, r, swept, now), Missing(rows, r.keys, now);
            Lasting(rows, Insert(cleared, r, missing, now), now) && |Insert(cleared, r, missing, now)| == |cleared| + |missing|
  {
    hide NewRow, Forget, Sweep, Missing, Insert, Cleared;
    var cleared, missing := Cleared(rows, r, swept, now), Missing(rows, r.keys, now);
    MissingMeans(rows, r.keys, now);
    MissingIsGone(rows, r, swept, now);
    InsertMeans(cleared, r, missing, now);
    forall k | k in rows && rows[k].expiresAt > now ensures k in cleared && cleared[k] == rows[k] { ClearedSame(rows, r, swept, now, k); }
  }

  lemma CloseKeeps(rows: Rows, stored: Rows, job: string, now: int)
    requires Lasting(rows, stored, now)
    ensures Lasting(rows, CloseJob(stored, job), now) && |CloseJob(stored, job)| == |stored|
  {
    assert CloseJob(stored, job).Keys == stored.Keys;
    assert |CloseJob(stored, job)| == |CloseJob(stored, job).Keys| && |stored| == |stored.Keys|;
  }

  /** Every operation keeps live rows and the capacity. */
  lemma StepLasting(rows: Rows, op: Op, now: int)
    requires Possible(rows, op, now) && |rows| <= CAPACITY
    ensures Lasting(rows, After(rows, op, now), now) && |After(rows, op, now)| <= CAPACITY
  {
    match op
    case DoRegister(r, swept) => RegisterLasting(rows, r, swept, now);
    case DoQualify(claim, owner, knowledge) =>
      var after := After(rows, op, now);
      assert after.Keys == rows.Keys;
      assert |after| == |after.Keys| && |rows| == |rows.Keys|;
    case DoClose(job) =>
      assert CloseJob(rows, job).Keys == rows.Keys;
      assert |CloseJob(rows, job)| == |CloseJob(rows, job).Keys| && |rows| == |rows.Keys|;
    case DoExpire(swept) => SubsetSize((rows - swept).Keys, rows.Keys);
  }

  /** Evidence becomes final only for the owner and the producer of its row, and the answer tells whether it is final as asked. */
  lemma QualifiedByOwner(rows: Rows, claim: Claim, owner: string, knowledge: string, now: int)
    ensures var (after, outcome), row := Qualify(rows, claim, owner, knowledge, now), Live(rows, claim.key, now);
            && (after != rows ==>
                  && row.Some? && row.value.owner == owner && row.value.proof == Claimed(claim.producer, None)
                  && after == rows[claim.key := row.value.(proof := Claimed(claim.producer, Some(knowledge)))])
            && (outcome.Qualified? <==>
                  && row.Some? && row.value.owner == owner && Live(after, claim.key, now).Some?
                  && Live(after, claim.key, now).value.proof == Claimed(claim.producer, Some(knowledge)))
  {}

  /** In any step: what becomes known of a living row was told by a qualification from its owner and producer. */
  lemma KnownFromOwner(rows: Rows, op: Op, now: int, key: string)
    requires Possible(rows, op, now) && |rows| <= CAPACITY && Live(rows, key, now).Some? && rows[key].proof.Claimed? && rows[key].proof.knowledge.None?
    ensures key in After(rows, op, now) && After(rows, op, now)[key].proof.Claimed?
    ensures var p := After(rows, op, now)[key].proof;
            p.knowledge.Some? ==> op == DoQualify(Claim(key, rows[key].proof.producer), rows[key].owner, p.knowledge.value)
  {
    StepLasting(rows, op, now);
    if op.DoRegister? { RegisterTells(rows, op.registration, op.swept, now, key); }
  }

  lemma RegisterTells(rows: Rows, r: Registration, swept: set<string>, now: int, key: string)
    requires WellFormed(r) && Sweep(Forget(rows, r.keys, now), now, swept) && Live(rows, key, now).Some?
    ensures var after := Register(rows, r, swept, now).0; key in after && after[key].proof == rows[key].proof
  {
    hide Insert, Missing, Sweep, NewRow, Objection;
    MissingMeans(rows, r.keys, now);
    MissingIsGone(rows, r, swept, now);
    InsertMeans(Cleared(rows, r, swept, now), r, Missing(rows, r.keys, now), now);
    ClearedSame(rows, r, swept, now, key);
  }

  /** A row as a registration makes it. */
  predicate IsNew(r: Registration, key: string, now: int, row: Row) {
    && row.expiresAt == now + RETENTION_MS
    && if Claims(r, key) then row.proof == Claimed(r.claim.value.producer, None) && row.job == r.job && row.streaming == r.streaming && (r.closed ==> row.closed)
       else row.proof.NoProof? && row.job.None? && !row.streaming && !row.closed
  }

  lemma NewIsNew(stored: Rows, r: Registration, key: string, now: int)
    requires key in stored && stored[key] == NewRow(r, key, now)
    ensures IsNew(r, key, now, (if r.closed && r.job.Some? then CloseJob(stored, r.job.value) else stored)[key])
  {}

  /** What is stored resolves: every key of a stored registration has a live row of its owner, and the claimed one, where
      it has evidence, is its producer's. */
  lemma StoredResolves(rows: Rows, r: Registration, swept: set<string>, now: int, key: string)
    requires WellFormed(r) && Sweep(Forget(rows, r.keys, now), now, swept) && key in r.keys
    requires Register(rows, r, swept, now).1.Stored?
    ensures var row := Live(Register(rows, r, swept, now).0, key, now);
            && row.Some? && row.value.owner == r.owner
            && (row.value.proof.Claimed? ==> r.claim == Some(Claim(key, row.value.proof.producer)))
            && (Claims(r, key) ==> row.value.job == r.job)
            && (Live(rows, key, now).None? ==> IsNew(r, key, now, row.value))
            && (Live(rows, key, now).Some? ==> Keeps(Live(rows, key, now).value, row.value))
  {
    hide Register, Sweep, Keeps, WellFormed, Live, Forget;
    if Live(rows, key, now).Some? { StoredKept(rows, r, swept, now, key); } else { StoredNew(rows, r, swept, now, key); }
  }

  lemma StoredKept(rows: Rows, r: Registration, swept: set<string>, now: int, key: string)
    requires WellFormed(r) && Sweep(Forget(rows, r.keys, now), now, swept) && key in r.keys && Live(rows, key, now).Some?
    requires Register(rows, r, swept, now).1.Stored?
    ensures var row := Live(Register(rows, r, swept, now).0, key, now);
            && row.Some? && row.value.owner == r.owner && Keeps(Live(rows, key, now).value, row.value)
            && (row.value.proof.Claimed? ==> r.claim == Some(Claim(key, row.value.proof.producer))) && (Claims(r, key) ==> row.value.job == r.job)
  {
    hide Sweep, Insert, Missing, CloseJob, NewRow, Forget, Cleared;
    NoObjection(rows, r, now, key);
    RegisterLasting(rows, r, swept, now);
  }

  lemma StoredNew(rows: Rows, r: Registration, swept: set<string>, now: int, key: string)
    requires WellFormed(r) && Sweep(Forget(rows, r.keys, now), now, swept) && key in r.keys && Live(rows, key, now).None?
    requires Register(rows, r, swept, now).1.Stored?
    ensures var row := Live(Register(rows, r, swept, now).0, key, now);
            row.Some? && row.value.owner == r.owner && IsNew(r, key, now, row.value)
  {
    hide Sweep, Insert, Missing, CloseJob, Forget, Cleared, IsNew;
    var cleared, missing := Cleared(rows, r, swept, now), Missing(rows, r.keys, now);
    MissingMeans(rows, r.keys, now);
    MissingIsGone(rows, r, swept, now);
    InsertMeans(cleared, r, missing, now);
    var stored := Insert(cleared, r, missing, now);
    assert key in missing && stored[key] == NewRow(r, key, now);
    ClosedRow(stored, r, key);
    NewIsNew(stored, r, key, now);
    NewLives(r, key, now);
    assert Register(rows, r, swept, now).0 == if r.closed && r.job.Some? then CloseJob(stored, r.job.value) else stored;
  }

  lemma NewLives(r: Registration, key: string, now: int)
    ensures NewRow(r, key, now).owner == r.owner && NewRow(r, key, now).expiresAt > now
  {}

  /** A retired job registers only where its own row lives, and without a job only where no row does. */
  lemma RetiredRegisters(rows: Rows, r: Registration, swept: set<string>, now: int)
    requires r.retired && Register(rows, r, swept, now).1.Stored?
    ensures r.claim.Some? && if r.job.Some? then Live(rows, r.claim.value.key, now).Some? && Live(rows, r.claim.value.key, now).value.job == r.job
                             else Live(rows, r.claim.value.key, now).None?
  {}

  /** Closing the job of a registration changes nothing else of a row. */
  lemma ClosedRow(stored: Rows, r: Registration, key: string)
    ensures r.job.Some? ==>
              var closed := CloseJob(stored, r.job.value);
              (key in closed <==> key in stored) && (key in stored ==> closed[key] == stored[key].(closed := closed[key].closed) && (stored[key].closed ==> closed[key].closed))
  {}

  /** A live row that a registration does not object to is its owner's and its producer's. */
  lemma NoObjection(rows: Rows, r: Registration, now: int, key: string)
    requires Objection(rows, r, now).None? && key in r.keys && Live(rows, key, now).Some?
    ensures Live(rows, key, now).value.owner == r.owner && ClaimFits(r, key, Live(rows, key, now).value.proof)
    ensures Claims(r, key) ==> Live(rows, key, now).value.job == r.job
  {
    var i :| 0 <= i < |r.keys| && r.keys[i] == key;
  }

  // ----- Runs

  datatype Timed = Timed(op: Op, at: int)

  /** The table after a run; operations that are impossible or out of time do not happen. */
  ghost function Run(rows: Rows, clock: int, trace: seq<Timed>): (Rows, int)
    decreases |trace|
  {
    if trace == [] then (rows, clock)
    else
      var before, t := Run(rows, clock, trace[..|trace| - 1]), trace[|trace| - 1];
      if before.1 <= t.at && Possible(before.0, t.op, t.at) then (After(before.0, t.op, t.at), t.at) else before
  }

  /** Until it expires, no run takes a continuation away or changes its owner, its producer or what it is known to be. */
  lemma {:induction false} OwnedUntilExpiry(rows: Rows, clock: int, trace: seq<Timed>, key: string)
    requires |rows| <= CAPACITY && key in rows && rows[key].expiresAt > Run(rows, clock, trace).1
    ensures |Run(rows, clock, trace).0| <= CAPACITY && clock <= Run(rows, clock, trace).1
    ensures key in Run(rows, clock, trace).0 && Keeps(rows[key], Run(rows, clock, trace).0[key])
    decreases |trace|
  {
    hide After, Possible, Keeps;
    if trace == [] {
      KeepsSelf(rows[key]);
    } else {
      var before, t := Run(rows, clock, trace[..|trace| - 1]), trace[|trace| - 1];
      OwnedUntilExpiry(rows, clock, trace[..|trace| - 1], key);
      if before.1 <= t.at && Possible(before.0, t.op, t.at) {
        StepLasting(before.0, t.op, t.at);
        assert before.0[key].expiresAt == rows[key].expiresAt by { SameExpiry(rows[key], before.0[key]); }
        KeepsOn(rows[key], before.0[key], After(before.0, t.op, t.at)[key]);
      }
    }
  }

  lemma KeepsSelf(a: Row)
    ensures Keeps(a, a)
  {}

  lemma SameExpiry(a: Row, b: Row)
    requires Keeps(a, b)
    ensures a.expiresAt == b.expiresAt
  {}

  lemma KeepsOn(a: Row, b: Row, c: Row)
    requires Keeps(a, b) && Keeps(b, c)
    ensures Keeps(a, c)
  {}
}

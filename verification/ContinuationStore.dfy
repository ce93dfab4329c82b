/**
 `HttpContinuationStore` of `worker/continuation-store.ts` and the `CompactionWitnessStore` inside it: two tables, each with
 a counter row that the methods adjust by hand. The counters always equal the number of rows.
 */
module ContinuationStore {
  import opened Basics
  import opened Continuations
  import W = Witnesses

  class Store {
    var rows: Rows
    var count: nat
    var witnesses: W.Rows
    var witnessCount: nat

    ghost predicate Valid()
      reads this
    {
      && count == |rows| <= CAPACITY
      && witnessCount == |witnesses| <= W.CAPACITY && W.Sound(witnesses)
    }

    constructor ()
      ensures Valid() && rows == map[] && witnesses == map[]
    {
      rows, count, witnesses, witnessCount := map[], 0, map[], 0;
    }

    // ----- Continuations

    /** Deletes rows that are there, and lowers the counter by as many. */
    method DeleteRows(keys: set<string>)
      requires count == |rows| && forall k :: k in keys ==> k in rows
      modifies this`rows, this`count
      ensures rows == old(rows) - keys && count == |rows|
    {
      assert (rows - keys).Keys == rows.Keys - keys;
      assert |rows.Keys - keys| == |rows.Keys| - |keys| by { Removed(rows.Keys, keys); }
      assert |rows| == |rows.Keys| && |rows - keys| == |(rows - keys).Keys|;
      rows := rows - keys;
      if keys != {} { count := count - |keys|; }
    }

    /** The sweep of `expire` on this table; `swept` is what its query selects. */
    method SweepRows(now: int, swept: set<string>)
      requires count == |rows| && Sweep(rows, now, swept)
      modifies this`rows, this`count
      ensures rows == old(rows) - swept && count == |rows|
    {
      DeleteRows(swept);
    }

    method Expire(now: int, swept: set<string>, witnessSwept: set<W.Key>)
      requires Valid() && Sweep(rows, now, swept) && W.Sweep(witnesses, now, witnessSwept)
      modifies this
      ensures Valid() && rows == After(old(rows), DoExpire(swept), now) && witnesses == W.After(old(witnesses), W.DoExpire(witnessSwept), now)
    {
      StepLasting(rows, DoExpire(swept), now);
      W.StepFollows(witnesses, W.DoExpire(witnessSwept), now);
      SweepWitnesses(now, witnessSwept);
      SweepRows(now, swept);
    }

    method Resolve(key: string, now: int) returns (row: Option<Row>)
      ensures row == Live(rows, key, now)
    {
      row := if key in rows && rows[key].expiresAt > now then Some(rows[key]) else None;
    }

    method CloseBackground(job: string)
      requires Valid()
      modifies this`rows
      ensures Valid() && rows == After(old(rows), DoClose(job), 0)
    {
      StepLasting(rows, DoClose(job), 0);
      assert CloseJob(rows, job).Keys == rows.Keys;
      assert |CloseJob(rows, job)| == |CloseJob(rows, job).Keys| && |rows| == |rows.Keys|;
      rows := map k | k in rows :: if rows[k].job == Some(job) then rows[k].(closed := true) else rows[k];
    }

    method QualifyClaim(claim: Claim, owner: string, knowledge: string, now: int) returns (outcome: Outcome)
      requires Valid()
      modifies this`rows
      ensures Valid() && (rows, outcome) == Qualify(old(rows), claim, owner, knowledge, now)
    {
      StepLasting(rows, DoQualify(claim, owner, knowledge), now);
      var row := Resolve(claim.key, now);
      if row.None? { return Unavailable; }
      if row.value.owner != owner { return Conflict; }
      if !row.value.proof.Claimed? || row.value.proof.producer != claim.producer { return ProducerConflict; }
      if row.value.proof.knowledge.Some? {
        return if row.value.proof.knowledge.value == knowledge then Qualified else ProducerConflict;
      }
      ghost var before := rows;
      rows := rows[claim.key := row.value.(proof := Claimed(claim.producer, Some(knowledge)))];
      assert rows.Keys == before.Keys;
      assert |rows| == |rows.Keys| && |before| == |before.Keys|;
      outcome := Qualified;
    }

    /** Deletes the expired rows of the given keys one by one. */
    method ForgetExpired(keys: seq<string>, now: int)
      requires count == |rows| && Distinct(keys)
      modifies this`rows, this`count
      ensures rows == Forget(old(rows), keys, now) && count == |rows|
    {
      assert rows == Forget(rows, [], now);
      assert keys[..0] == [];
      for i := 0 to |keys|
        invariant rows == Forget(old(rows), keys[..i], now) && count == |rows|
      {
        assert keys[..i + 1] == keys[..i] + [keys[i]];
        if keys[i] in rows && rows[keys[i]].expiresAt <= now { DeleteRows({keys[i]}); }
      }
      assert keys[..|keys|] == keys;
    }

    /** Inserts the rows a registration misses, one by one, before the counter is raised. */
    method InsertRows(r: Registration, missing: seq<string>, now: int)
      requires forall k :: k in missing ==> k !in rows
      modifies this`rows
      ensures rows == Insert(old(rows), r, missing, now)
    {
      hide NewRow;
      assert missing[..0] == [];
      for i := 0 to |missing|
        invariant rows == Insert(old(rows), r, missing[..i], now)
      {
        assert missing[..i + 1][..i] == missing[..i];
        rows := rows[missing[i] := NewRow(r, missing[i], now)];
      }
      assert missing[..|missing|] == missing;
    }

    /** The cleanup of a registration: the expired rows of its keys, then the sweeps of both tables. */
    method ClearFor(r: Registration, swept: set<string>, witnessSwept: set<W.Key>, now: int)
      requires Valid() && Distinct(r.keys) && Sweep(Forget(rows, r.keys, now), now, swept) && W.Sweep(witnesses, now, witnessSwept)
      modifies this
      ensures rows == Cleared(old(rows), r, swept, now) && count == |rows|
      ensures witnesses == old(witnesses) - witnessSwept && witnessCount == |witnesses| <= W.CAPACITY && W.Sound(witnesses)
    {
      hide Forget, Sweep, W.Sweep, W.Sound;
      W.SweptFollows(witnesses, witnessSwept, now);
      ForgetExpired(r.keys, now);
      SweepWitnesses(now, witnessSwept);
      SweepRows(now, swept);
    }

    /** Stores the rows a registration misses and closes its job, when there is room. */
    method StoreMissing(r: Registration, missing: seq<string>, now: int) returns (outcome: Outcome)
      requires count == |rows| && Distinct(missing) && forall k :: k in missing ==> k !in rows
      modifies this`rows, this`count
      ensures count == |rows|
      ensures outcome == if |old(rows)| + |missing| > CAPACITY then Full else Stored
      ensures outcome.Full? ==> rows == old(rows)
      ensures outcome.Stored? ==>
                var stored := Insert(old(rows), r, missing, now);
                rows == if r.closed && r.job.Some? then CloseJob(stored, r.job.value) else stored
    {
      hide Insert, CloseJob, NewRow, Lasting;
      if count + |missing| > CAPACITY { return Full; }
      InsertMeans(rows, r, missing, now);
      InsertRows(r, missing, now);
      if r.closed && r.job.Some? {
        LastingSelf(rows, now);
        CloseKeeps(rows, rows, r.job.value, now);
        rows := CloseJob(rows, r.job.value);
      }
      if missing != [] { count := count + |missing|; }
      outcome := Stored;
    }

    /** `swept` and `witnessSwept` are what the two expiry queries select after the keys' own expired rows are gone. */
    method RegisterKeys(raw: Registration, swept: set<string>, witnessSwept: set<W.Key>, now: int) returns (outcome: Outcome)
      requires Valid() && Sweep(Forget(rows, raw.keys, now), now, swept) && W.Sweep(witnesses, now, witnessSwept)
      modifies this
      ensures Valid()
      ensures !Proper(raw) ==> outcome == Refused && rows == old(rows) && witnesses == old(witnesses)
      ensures Proper(raw) ==> (rows, outcome) == Register(old(rows), Deduplicated(raw), swept, now)
      ensures witnesses == old(witnesses) || witnesses == old(witnesses) - witnessSwept
    {
      hide Objection, Forget, Cleared, Missing, Insert, Sweep, W.Sweep, W.Sound, CloseJob, WellFormed, NewRow, Lasting, W.Follows, Proper, Deduplicated, Distinct;
      if !Proper(raw) { return Refused; }
      var r := Deduplicated(raw);
      Deduplicates(rows, raw, now);
      StepLasting(rows, DoRegister(r, swept), now);
      var objection := Objection(rows, r, now);
      if objection.Some? { return objection.value; }
      var missing := Missing(rows, r.keys, now);
      MissingMeans(rows, r.keys, now);
      MissingIsGone(rows, r, swept, now);
      ClearFor(r, swept, witnessSwept, now);
      outcome := StoreMissing(r, missing, now);
    }

    // ----- Witnesses

    method SweepWitnesses(now: int, swept: set<W.Key>)
      requires witnessCount == |witnesses| && W.Sweep(witnesses, now, swept)
      modifies this`witnesses, this`witnessCount
      ensures witnesses == old(witnesses) - swept && witnessCount == |witnesses|
    {
      assert (witnesses - swept).Keys == witnesses.Keys - swept;
      assert |witnesses.Keys - swept| == |witnesses.Keys| - |swept| by { Removed(witnesses.Keys, swept); }
      assert |witnesses| == |witnesses.Keys| && |witnesses - swept| == |(witnesses - swept).Keys|;
      witnesses := witnesses - swept;
      if swept != {} { witnessCount := witnessCount - |swept|; }
    }

    /** A batch is stored whole or not at all. */
    method RegisterWitnesses(batch: seq<W.Witness>, swept: set<W.Key>, now: int) returns (outcome: W.Outcome)
      requires Valid() && W.Sweep(witnesses, now, swept)
      modifies this`witnesses, this`witnessCount
      ensures Valid()
      ensures !W.WellFormed(batch) ==> outcome.Refused? && witnesses == old(witnesses)
      ensures W.WellFormed(batch) ==> (witnesses, outcome) == W.Register(old(witnesses), batch, swept, now)
    {
      hide W.Sweep, W.Sound, W.Follows, W.InTime, W.Agrees, W.Missing, W.Insert, W.Distinct;
      if !W.WellFormed(batch) { return W.Refused; }
      W.StepFollows(witnesses, W.DoRegister(batch, swept), now);
      var inTime, agrees := CheckBatch(batch, now);
      if !inTime { return W.Unavailable; }
      if !agrees { return W.Conflict; }
      SweepWitnesses(now, swept);
      var missing := W.Missing(witnesses, batch);
      if witnessCount + |missing| > W.CAPACITY { return W.Full; }
      W.MissingMeans(witnesses, batch);
      forall i | 0 <= i < |missing| ensures missing[i].key !in witnesses { assert missing[i] in missing; }
      W.InsertSize(witnesses, missing);
      InsertWitnesses(missing);
      if missing != [] { witnessCount := witnessCount + |missing|; }
      outcome := W.Stored;
    }

    /** Whether every record of a batch is in time, and none contradicts a stored one. */
    method CheckBatch(batch: seq<W.Witness>, now: int) returns (inTime: bool, agrees: bool)
      ensures inTime == W.InTime(batch, now) && agrees == W.Agrees(witnesses, batch)
    {
      inTime, agrees := true, true;
      for i := 0 to |batch|
        invariant inTime == W.InTime(batch[..i], now) && agrees == W.Agrees(witnesses, batch[..i])
      {
        PrefixChecks(witnesses, batch, i, now);
        var value := batch[i];
        if value.createdAt > now || W.Expiry(value) <= now { inTime := false; }
        if value.key in witnesses && witnesses[value.key] != W.Row(value, W.Expiry(value)) { agrees := false; }
      }
      assert batch[..|batch|] == batch;
    }

    method InsertWitnesses(missing: seq<W.Witness>)
      modifies this`witnesses
      ensures witnesses == W.Insert(old(witnesses), missing)
    {
      assert missing[..0] == [];
      for i := 0 to |missing|
        invariant witnesses == W.Insert(old(witnesses), missing[..i])
      {
        assert missing[..i + 1][..i] == missing[..i];
        witnesses := witnesses[missing[i].key := W.Row(missing[i], W.Expiry(missing[i]))];
      }
      assert missing[..|missing|] == missing;
    }
  }

  /** The request as it may arrive: one or two keys, perhaps the same one twice. */
  predicate Proper(r: Registration) {
    1 <= |r.keys| <= 2 && (r.claim.Some? ==> r.claim.value.key in r.keys) && (r.job.Some? ==> r.claim.Some?)
  }

  function Deduplicated(r: Registration): Registration {
    if |r.keys| == 2 && r.keys[0] == r.keys[1] then r.(keys := [r.keys[0]]) else r
  }

  lemma Deduplicates(rows: Rows, r: Registration, now: int)
    requires Proper(r)
    ensures WellFormed(Deduplicated(r)) && Distinct(Deduplicated(r).keys)
    ensures Forget(rows, Deduplicated(r).keys, now) == Forget(rows, r.keys, now)
  {
    assert forall k :: k in Deduplicated(r).keys <==> k in r.keys;
  }

  lemma {:induction false} Removed<T>(all: set<T>, some: set<T>)
    requires some <= all
    ensures |all - some| == |all| - |some|
  {
    if some != {} {
      var x :| x in some;
      Removed(all - {x}, some - {x});
      assert all - {x} - (some - {x}) == all - some;
    }
  }

  lemma PrefixChecks(rows: W.Rows, batch: seq<W.Witness>, i: nat, now: int)
    requires i < |batch|
    ensures W.InTime(batch[..i + 1], now) <==> W.InTime(batch[..i], now) && batch[i].createdAt <= now < W.Expiry(batch[i])
    ensures W.Agrees(rows, batch[..i + 1]) <==> W.Agrees(rows, batch[..i]) && (batch[i].key in rows ==> rows[batch[i].key] == W.Row(batch[i], W.Expiry(batch[i])))
  {
    var a, b := batch[..i], batch[..i + 1];
    assert b[i] == batch[i] && forall j :: 0 <= j < i ==> a[j] == b[j];
  }
}

/**
 The compaction-witness table of `worker/compaction-witness-store.ts`: records whose lifetime is fixed by when they were
 made, registered in batches that are stored whole or not at all.
 */
module Witnesses {
  import opened Basics

  const RETENTION_MS: int := 30 * 24 * 60 * 60000
  const CAPACITY: nat := 100000
  const BATCH_LIMIT: nat := 16
  const SWEEP_LIMIT: nat := 256

  datatype Key = Key(item: string, digest: string)

  /** `body` is everything else a witness says: binding, knowledge, producer. */
  datatype Witness = Witness(key: Key, body: string, createdAt: int)
  datatype Row = Row(record: Witness, expiresAt: int)
  type Rows = map<Key, Row>

  datatype Outcome = Refused | Unavailable | Conflict | Full | Stored

  function Expiry(w: Witness): int {
    w.createdAt + RETENTION_MS
  }

  predicate Distinct(batch: seq<Witness>) {
    forall i, j :: 0 <= i < j < |batch| ==> batch[i].key != batch[j].key
  }

  predicate WellFormed(batch: seq<Witness>) {
    1 <= |batch| <= BATCH_LIMIT && Distinct(batch)
  }

  /** The rows an expiry sweep removes: the earliest expired ones, at most so many. */
  predicate Sweep(rows: Rows, now: int, swept: set<Key>) {
    && |swept| <= SWEEP_LIMIT
    && (forall k :: k in swept ==> k in rows && rows[k].expiresAt <= now)
    && (forall k, j :: k in swept && j in rows && j !in swept && rows[j].expiresAt <= now ==> rows[k].expiresAt <= rows[j].expiresAt)
    && (|swept| < SWEEP_LIMIT ==> forall j :: j in rows && rows[j].expiresAt <= now ==> j in swept)
  }

  function Missing(rows: Rows, batch: seq<Witness>): seq<Witness> {
    if batch == [] then []
    else
      var n := |batch| - 1;
      Missing(rows, batch[..n]) + if batch[n].key in rows then [] else [batch[n]]
  }

  function Insert(rows: Rows, batch: seq<Witness>): Rows {
    if batch == [] then rows
    else
      var n := |batch| - 1;
      Insert(rows, batch[..n])[batch[n].key := Row(batch[n], Expiry(batch[n]))]
  }

  predicate InTime(batch: seq<Witness>, now: int) {
    forall i :: 0 <= i < |batch| ==> batch[i].createdAt <= now < Expiry(batch[i])
  }

  predicate Agrees(rows: Rows, batch: seq<Witness>) {
    forall i :: 0 <= i < |batch| && batch[i].key in rows ==> rows[batch[i].key] == Row(batch[i], Expiry(batch[i]))
  }

  function Register(rows: Rows, batch: seq<Witness>, swept: set<Key>, now: int): (Rows, Outcome) {
    if !InTime(batch, now) then (rows, Unavailable)
    else if !Agrees(rows, batch) then (rows, Conflict)
    else
      var kept := rows - swept;
      var missing := Missing(kept, batch);
      if |kept| + |missing| > CAPACITY then (kept, Full) else (Insert(kept, missing), Stored)
  }

  /** What a key resolves to: its witness, while it lives. */
  function Resolve(rows: Rows, key: Key, now: int): Option<Witness> {
    if key in rows && rows[key].record.key == key && rows[key].expiresAt == Expiry(rows[key].record)
       && rows[key].record.createdAt <= now < rows[key].expiresAt
    then Some(rows[key].record) else None
  }

  // ----- Laws

  /** Each row is under its own key and lives as long as its witness says. */
  predicate Sound(rows: Rows) {
    forall k :: k in rows ==> rows[k].record.key == k && rows[k].expiresAt == Expiry(rows[k].record)
  }

  lemma {:induction false} MissingMeans(rows: Rows, batch: seq<Witness>)
    requires Distinct(batch)
    ensures var m := Missing(rows, batch);
            |m| <= |batch| && Distinct(m) && forall w :: w in m <==> w in batch && w.key !in rows
  {
    if batch != [] {
      var n := |batch| - 1;
      assert batch == batch[..n] + [batch[n]];
      MissingMeans(rows, batch[..n]);
      var m := Missing(rows, batch[..n]);
      forall i | 0 <= i < |m| ensures m[i].key != batch[n].key {
        assert m[i] in m;
        var j :| 0 <= j < n && batch[..n][j] == m[i];
        assert batch[j] == m[i];
      }
    }
  }

  predicate Names(batch: seq<Witness>, k: Key) {
    exists i :: 0 <= i < |batch| && batch[i].key == k
  }

  lemma {:induction false} InsertElsewhere(rows: Rows, batch: seq<Witness>, k: Key)
    requires !Names(batch, k)
    ensures var after := Insert(rows, batch); (k in after <==> k in rows) && (k in rows ==> after[k] == rows[k])
  {
    if batch != [] {
      var n := |batch| - 1;
      assert batch[n].key != k;
      assert forall i :: 0 <= i < n ==> batch[..n][i] == batch[i];
      InsertElsewhere(rows, batch[..n], k);
    }
  }

  lemma {:induction false} InsertHere(rows: Rows, batch: seq<Witness>, i: nat)
    requires Distinct(batch) && i < |batch|
    ensures var after := Insert(rows, batch); batch[i].key in after && after[batch[i].key] == Row(batch[i], Expiry(batch[i]))
  {
    var n := |batch| - 1;
    if i < n {
      assert batch[..n][i] == batch[i];
      InsertHere(rows, batch[..n], i);
    }
  }

  lemma {:induction false} InsertSize(rows: Rows, batch: seq<Witness>)
    requires Distinct(batch) && forall i :: 0 <= i < |batch| ==> batch[i].key !in rows
    ensures |Insert(rows, batch)| == |rows| + |batch|
  {
    hide Insert;
    if batch == [] {
      InsertStep(rows, batch);
    } else {
      var n := |batch| - 1;
      assert forall i :: 0 <= i < n ==> batch[..n][i] == batch[i];
      InsertSize(rows, batch[..n]);
      assert !Names(batch[..n], batch[n].key);
      InsertElsewhere(rows, batch[..n], batch[n].key);
      Added(Insert(rows, batch[..n]), batch[n].key, Row(batch[n], Expiry(batch[n])));
      InsertStep(rows, batch);
    }
  }

  lemma InsertStep(rows: Rows, batch: seq<Witness>)
    ensures Insert(rows, batch) == if batch == [] then rows
                                   else var n := |batch| - 1; Insert(rows, batch[..n])[batch[n].key := Row(batch[n], Expiry(batch[n]))]
  {}

  lemma Added(rows: Rows, key: Key, row: Row)
    requires key !in rows
    ensures |rows[key := row]| == |rows| + 1
  {
    assert rows[key := row].Keys == rows.Keys + {key};
    assert |rows| == |rows.Keys| && |rows[key := row]| == |rows[key := row].Keys|;
  }

  /** Live rows stay as they are; rows that appear are in time. */
  predicate Follows(rows: Rows, rows': Rows, now: int) {
    && (forall k :: k in rows && rows[k].expiresAt > now ==> k in rows' && rows'[k] == rows[k])
    && (forall k :: k in rows' && !(k in rows && rows[k] == rows'[k]) ==> rows'[k].record.createdAt <= now < rows'[k].expiresAt)
  }

  lemma RegisterFollows(rows: Rows, batch: seq<Witness>, swept: set<Key>, now: int)
    requires Sound(rows) && |rows| <= CAPACITY && WellFormed(batch) && Sweep(rows, now, swept)
    ensures var rows' := Register(rows, batch, swept, now).0;
            Sound(rows') && |rows'| <= CAPACITY && Follows(rows, rows', now)
  {
    hide Missing, Insert, Sweep, Sound, Follows, InTime, Agrees, Distinct;
    SweptFollows(rows, swept, now);
    FollowsSelf(rows, now);
    if InTime(batch, now) {
      var kept := rows - swept;
      MissingMeans(kept, batch);
      var missing := Missing(kept, batch);
      forall i | 0 <= i < |missing| ensures missing[i] in batch && missing[i].key !in kept { assert missing[i] in missing; }
      InsertSize(kept, missing);
      InsertedInTime(rows, swept, missing, batch, now);
    }
  }

  lemma FollowsSelf(rows: Rows, now: int)
    ensures Follows(rows, rows, now)
  {}

  lemma SweptFollows(rows: Rows, swept: set<Key>, now: int)
    requires Sound(rows) && Sweep(rows, now, swept)
    ensures Sound(rows - swept) && Follows(rows, rows - swept, now) && |rows - swept| <= |rows|
  {
    var kept := rows - swept;
    SubsetSize(kept.Keys, rows.Keys);
    assert |kept| == |kept.Keys| && |rows| == |rows.Keys|;
  }

  lemma InsertedInTime(rows: Rows, swept: set<Key>, missing: seq<Witness>, batch: seq<Witness>, now: int)
    requires Sound(rows) && Sweep(rows, now, swept) && InTime(batch, now) && Distinct(missing)
    requires forall i :: 0 <= i < |missing| ==> missing[i] in batch && missing[i].key !in rows - swept
    ensures Sound(Insert(rows - swept, missing)) && Follows(rows, Insert(rows - swept, missing), now)
  {
    hide Insert, Sweep, Distinct, Names, InTime;
    var kept := rows - swept;
    SweptFollows(rows, swept, now);
    InsertedSound(kept, missing, batch, now);
    forall k | k in rows && rows[k].expiresAt > now ensures k in Insert(kept, missing) && Insert(kept, missing)[k] == rows[k] {
      if Names(missing, k) { NamedMissing(kept, missing, k); } else { InsertElsewhere(kept, missing, k); }
    }
  }

  lemma InsertedSound(kept: Rows, missing: seq<Witness>, batch: seq<Witness>, now: int)
    requires Sound(kept) && InTime(batch, now) && Distinct(missing) && forall i :: 0 <= i < |missing| ==> missing[i] in batch
    ensures var after := Insert(kept, missing);
            && Sound(after)
            && forall k :: k in after && !(k in kept && kept[k] == after[k]) ==> after[k].record.createdAt <= now < after[k].expiresAt
  {
    hide Insert, Distinct, InTime;
    var after := Insert(kept, missing);
    forall k | k in after
      ensures after[k].record.key == k && after[k].expiresAt == Expiry(after[k].record)
      ensures !(k in kept && kept[k] == after[k]) ==> after[k].record.createdAt <= now < after[k].expiresAt
    {
      InsertedRow(kept, missing, batch, now, k);
    }
  }

  lemma NamedMissing(kept: Rows, missing: seq<Witness>, k: Key)
    requires Names(missing, k) && forall i :: 0 <= i < |missing| ==> missing[i].key !in kept
    ensures k !in kept
  {}

  lemma InsertedRow(kept: Rows, missing: seq<Witness>, batch: seq<Witness>, now: int, k: Key)
    requires Sound(kept) && InTime(batch, now) && Distinct(missing) && k in Insert(kept, missing)
    requires forall i :: 0 <= i < |missing| ==> missing[i] in batch
    ensures var row := Insert(kept, missing)[k];
            row.record.key == k && row.expiresAt == Expiry(row.record) && (!(k in kept && kept[k] == row) ==> row.record.createdAt <= now < row.expiresAt)
  {
    hide Insert, Distinct;
    if Names(missing, k) {
      var i :| 0 <= i < |missing| && missing[i].key == k;
      InsertHere(kept, missing, i);
      var j :| 0 <= j < |batch| && batch[j] == missing[i];
      assert batch[j].createdAt <= now < Expiry(batch[j]);
    } else {
      InsertElsewhere(kept, missing, k);
    }
  }

  /** A stored batch resolves, every record of it. */
  lemma StoredResolves(rows: Rows, batch: seq<Witness>, swept: set<Key>, now: int, i: nat)
    requires Sound(rows) && WellFormed(batch) && Sweep(rows, now, swept) && Register(rows, batch, swept, now).1.Stored? && i < |batch|
    ensures Resolve(Register(rows, batch, swept, now).0, batch[i].key, now) == Some(batch[i])
  {
    hide Missing, Insert, Distinct, Names;
    var kept := rows - swept;
    var missing := Missing(kept, batch);
    MissingMeans(kept, batch);
    if batch[i] in missing {
      var j :| 0 <= j < |missing| && missing[j] == batch[i];
      InsertHere(kept, missing, j);
    } else {
      forall j | 0 <= j < |missing| ensures missing[j].key !in kept { assert missing[j] in missing; }
      if Names(missing, batch[i].key) { NamedMissing(kept, missing, batch[i].key); } else { InsertElsewhere(kept, missing, batch[i].key); }
    }
  }

  // ----- Runs

  datatype Op = DoRegister(batch: seq<Witness>, swept: set<Key>) | DoExpire(swept: set<Key>)
  datatype Timed = Timed(op: Op, at: int)

  predicate Possible(rows: Rows, op: Op, now: int) {
    Sweep(rows, now, op.swept) && (op.DoRegister? ==> WellFormed(op.batch))
  }

  function After(rows: Rows, op: Op, now: int): Rows {
    if op.DoRegister? then Register(rows, op.batch, op.swept, now).0 else rows - op.swept
  }

  lemma StepFollows(rows: Rows, op: Op, now: int)
    requires Sound(rows) && |rows| <= CAPACITY && Possible(rows, op, now)
    ensures Sound(After(rows, op, now)) && |After(rows, op, now)| <= CAPACITY && Follows(rows, After(rows, op, now), now)
  {
    if op.DoRegister? {
      RegisterFollows(rows, op.batch, op.swept, now);
    } else {
      SubsetSize((rows - op.swept).Keys, rows.Keys);
      assert |rows| == |rows.Keys| && |rows - op.swept| == |(rows - op.swept).Keys|;
    }
  }

  ghost function Run(rows: Rows, clock: int, trace: seq<Timed>): (Rows, int)
    decreases |trace|
  {
    if trace == [] then (rows, clock)
    else
      var before, t := Run(rows, clock, trace[..|trace| - 1]), trace[|trace| - 1];
      if before.1 <= t.at && Possible(before.0, t.op, t.at) then (After(before.0, t.op, t.at), t.at) else before
  }

  lemma {:induction false} RunSound(rows: Rows, clock: int, trace: seq<Timed>)
    requires Sound(rows) && |rows| <= CAPACITY
    ensures Sound(Run(rows, clock, trace).0) && |Run(rows, clock, trace).0| <= CAPACITY && clock <= Run(rows, clock, trace).1
    decreases |trace|
  {
    hide After, Possible, Sound;
    if trace != [] {
      var before, t := Run(rows, clock, trace[..|trace| - 1]), trace[|trace| - 1];
      RunSound(rows, clock, trace[..|trace| - 1]);
      if before.1 <= t.at && Possible(before.0, t.op, t.at) { StepFollows(before.0, t.op, t.at); }
    }
  }

  /** A witness lives exactly as long as it was made to: its row stays until it expires, and is never extended. */
  lemma {:induction false} NeverExtended(rows: Rows, clock: int, trace: seq<Timed>, key: Key)
    requires Sound(rows) && |rows| <= CAPACITY && key in rows && Run(rows, clock, trace).1 < rows[key].expiresAt
    ensures key in Run(rows, clock, trace).0 && Run(rows, clock, trace).0[key] == rows[key]
    decreases |trace|
  {
    hide After, Possible, Sound;
    if trace != [] {
      var before, t := Run(rows, clock, trace[..|trace| - 1]), trace[|trace| - 1];
      RunSound(rows, clock, trace[..|trace| - 1]);
      if before.1 <= t.at && Possible(before.0, t.op, t.at) { StepFollows(before.0, t.op, t.at); }
      NeverExtended(rows, clock, trace[..|trace| - 1], key);
    }
  }

  /** Once its time is over and its row is gone, a witness never comes back. */
  lemma {:induction false} NeverResurrected(rows: Rows, clock: int, trace: seq<Timed>, w: Witness)
    requires Sound(rows) && |rows| <= CAPACITY && Expiry(w) <= clock && !(w.key in rows && rows[w.key].record == w)
    ensures var rows' := Run(rows, clock, trace).0; !(w.key in rows' && rows'[w.key].record == w)
    decreases |trace|
  {
    hide After, Possible;
    if trace != [] {
      var before, t := Run(rows, clock, trace[..|trace| - 1]), trace[|trace| - 1];
      RunSound(rows, clock, trace[..|trace| - 1]);
      NeverResurrected(rows, clock, trace[..|trace| - 1], w);
      if before.1 <= t.at && Possible(before.0, t.op, t.at) { StepFollows(before.0, t.op, t.at); }
    }
  }
}

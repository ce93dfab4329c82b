/**
 Laws of grant attachment over whole runs: capacity, fencing, abandonment and reattachment.
 */
module GrantLaws {
  import opened Basics
  import opened GrantPool

  // ----- The invariant

  /** A saved status belongs to a proposal, and never held a place in the pool. */
  predicate Saved(m: Member) {
    m.previous.Some? ==> m.status.Pending? && (m.previous.value.Paused? || m.previous.value.ReauthRequired?)
  }

  predicate AllSaved(m: Members) {
    forall slot :: slot in m ==> Saved(m[slot])
  }

  ghost predicate Bounded(m: Members) {
    forall scope, scopeId, provider :: |CountedIn(m, scope, scopeId, provider)| <= POOL_LIMIT
  }

  /** A proposal is pending only since the admission that raised the revision last. */
  ghost predicate Explained(s: Pool) {
    forall id :: HasPending(s.members, id) ==> id in s.last && s.last[id].Admission?
  }

  ghost predicate Inv(s: Pool) {
    AllSaved(s.members) && Bounded(s.members) && Explained(s)
  }

  // ----- Membership of one grant

  /** The members `id` has are the same in both. */
  predicate SameFor(a: Members, b: Members, id: Identity) {
    && (forall slot :: slot in a && slot.id == id ==> slot in b && b[slot] == a[slot])
    && (forall slot :: slot in b && slot.id == id ==> slot in a)
  }

  /** Only members of `id` differ. */
  predicate OnlyFor(a: Members, b: Members, id: Identity) {
    && (forall slot :: slot in a && slot.id != id ==> slot in b && b[slot] == a[slot])
    && (forall slot :: slot in b && slot.id != id ==> slot in a)
  }

  /** How a successful command changes the state: members of its grant only, with a bump whose cause is the command's. */
  predicate Shaped(s: Pool, s': Pool, id: Identity, admission: bool) {
    && OnlyFor(s.members, s'.members, id)
    && (s' != s ==>
          && id in s'.versions && id in s'.last
          && s' == Bump(s.(members := s'.members), id, s'.versions[id].generation, s'.last[id])
          && VersionOf(s, id).generation <= s'.versions[id].generation
          && (if admission then s'.last[id].Admission? else !HasPending(s'.members, id) && !s'.last[id].Admission?))
  }

  lemma AttemptShape(s: Pool, c: Command)
    requires AllSaved(s.members) && Attempt(s, c).Ok?
    ensures Shaped(s, Attempt(s, c).value, c.id, c.AdmitGrant?)
  {
    hide Shaped, AllSaved, Admit, Publish, Cancel;
    match c
    case AdmitGrant(id, input) => AdmitShape(s, id, input);
    case PublishGrant(id, input) => PublishShape(s, id, input);
    case CancelGrant(id, revision) => CancelShape(s, id, revision);
  }

  lemma AdmitShape(s: Pool, id: Identity, c: Mutation)
    requires Admit(s, id, c).Ok?
    ensures Shaped(s, Admit(s, id, c).value, id, true)
  {
    hide CountedIn;
  }

  lemma CancelShape(s: Pool, id: Identity, revision: nat)
    requires AllSaved(s.members) && Cancel(s, id, revision).Ok?
    ensures Shaped(s, Cancel(s, id, revision).value, id, false)
  {
    hide Restore, AllSaved;
    RestoreClears(s.members, id);
  }

  lemma PublishShape(s: Pool, id: Identity, c: Mutation)
    requires AllSaved(s.members) && Publish(s, id, c).Ok?
    ensures Shaped(s, Publish(s, id, c).value, id, false)
  {
    hide Restore, Settle, AllSaved, Agrees;
    RestoreClears(s.members, id);
    var m := if Restores(s, id, c) then Restore(s.members, id) else s.members;
    SettleClears(m, id, c.provider, c.status);
  }

  lemma RestoreClears(m: Members, id: Identity)
    requires AllSaved(m)
    ensures !HasPending(Restore(m, id), id) && OnlyFor(m, Restore(m, id), id) && AllSaved(Restore(m, id))
  {
    forall slot | slot in Restore(m, id) && slot.id == id ensures !Proposed(Restore(m, id)[slot]) {
      assert Saved(m[slot]);
    }
  }

  lemma SettleClears(m: Members, id: Identity, provider: Option<string>, status: Option<Status>)
    requires status.Some? ==> OwnerStatus(status.value)
    ensures !HasPending(Settle(m, id, provider, status), id) && OnlyFor(m, Settle(m, id, provider, status), id)
    ensures AllSaved(m) ==> AllSaved(Settle(m, id, provider, status))
  {}

  // ----- Capacity

  lemma RestoreBounded(m: Members, id: Identity)
    requires AllSaved(m) && Bounded(m)
    ensures Bounded(Restore(m, id))
  {
    forall scope, scopeId, provider ensures |CountedIn(Restore(m, id), scope, scopeId, provider)| <= POOL_LIMIT {
      forall slot | slot in CountedIn(Restore(m, id), scope, scopeId, provider) ensures slot in CountedIn(m, scope, scopeId, provider) {
        assert Saved(m[slot]);
      }
      SubsetSize(CountedIn(Restore(m, id), scope, scopeId, provider), CountedIn(m, scope, scopeId, provider));
    }
  }

  lemma SettleBounded(m: Members, id: Identity, provider: Option<string>, status: Option<Status>)
    requires Bounded(m) && (status.Some? ==> OwnerStatus(status.value))
    requires status == Some(Active) && MemberOf(m, id, provider).Some? ==> Counted(MemberOf(m, id, provider).value)
    ensures Bounded(Settle(m, id, provider, status))
  {
    forall scope, scopeId, p ensures |CountedIn(Settle(m, id, provider, status), scope, scopeId, p)| <= POOL_LIMIT {
      SubsetSize(CountedIn(Settle(m, id, provider, status), scope, scopeId, p), CountedIn(m, scope, scopeId, p));
    }
  }

  lemma AdmitBounded(m: Members, id: Identity, provider: string, active: bool)
    requires AllSaved(m) && Bounded(m) && AdmitRows(m, id, provider, active).Ok?
    ensures AllSaved(AdmitRows(m, id, provider, active).value) && Bounded(AdmitRows(m, id, provider, active).value)
  {
    var m' := AdmitRows(m, id, provider, active).value;
    if Slot(id, provider) in m { assert Saved(m[Slot(id, provider)]); }
    forall scope, scopeId, p ensures |CountedIn(m', scope, scopeId, p)| <= POOL_LIMIT {
      PoolAfterAdmission(m, id, provider, active, scope, scopeId, p);
    }
  }

  lemma PoolAfterAdmission(m: Members, id: Identity, provider: string, active: bool, scope: string, scopeId: string, p: string)
    requires |CountedIn(m, scope, scopeId, p)| <= POOL_LIMIT && AdmitRows(m, id, provider, active).Ok?
    ensures |CountedIn(AdmitRows(m, id, provider, active).value, scope, scopeId, p)| <= POOL_LIMIT
  {
    var m' := AdmitRows(m, id, provider, active).value;
    var before, after := CountedIn(m, scope, scopeId, p), CountedIn(m', scope, scopeId, p);
    if m' != m {
      var slot := Slot(id, provider);
      assert m' == m[slot := m'[slot]];
      if active && scope == id.scope && scopeId == id.scopeId && p == provider {
        assert after <= before + {slot};
        SubsetSize(after, before + {slot});
      } else {
        assert after <= before;
        SubsetSize(after, before);
      }
    }
  }

  lemma AttemptBounded(s: Pool, c: Command)
    requires AllSaved(s.members) && Bounded(s.members) && Attempt(s, c).Ok?
    ensures AllSaved(Attempt(s, c).value.members) && Bounded(Attempt(s, c).value.members)
  {
    hide Bounded, AllSaved, Restore, Settle, AdmitRows, CountedIn;
    match c
    case AdmitGrant(id, input) =>
      if input.provider.Some? && input.status.Some? { AdmitBounded(s.members, id, input.provider.value, input.status.value.Active?); }
    case PublishGrant(id, input) =>
      RestoreClears(s.members, id);
      RestoreBounded(s.members, id);
      var m := if Restores(s, id, input) then Restore(s.members, id) else s.members;
      SettleClears(m, id, input.provider, input.status);
      if Publish(s, id, input).value.members != m && Publish(s, id, input).value != s { SettleBounded(m, id, input.provider, input.status); }
    case CancelGrant(id, revision) =>
      RestoreClears(s.members, id);
      RestoreBounded(s.members, id);
  }

  // ----- Steps

  /** Every command keeps the invariant. */
  lemma StepKeeps(s: Pool, c: Command)
    requires Inv(s)
    ensures Inv(Step(s, c))
  {
    hide Bounded, AllSaved, Attempt;
    if Attempt(s, c).Ok? {
      AttemptShape(s, c);
      AttemptBounded(s, c);
      var s' := Attempt(s, c).value;
      forall id | HasPending(s'.members, id) ensures id in s'.last && s'.last[id].Admission? {
        if id != c.id { OtherPending(s.members, s'.members, c.id, id); }
      }
    }
  }

  lemma OtherPending(a: Members, b: Members, id: Identity, other: Identity)
    requires OnlyFor(a, b, id) && other != id
    ensures SameFor(a, b, other) && (HasPending(a, other) <==> HasPending(b, other))
  {}

  /** Versions only grow, and members change only together with the revision. */
  predicate Fenced(s: Pool, s': Pool, id: Identity) {
    && VersionOf(s, id).generation <= VersionOf(s', id).generation
    && VersionOf(s, id).revision <= VersionOf(s', id).revision
    && (VersionOf(s, id).revision == VersionOf(s', id).revision ==> SameFor(s.members, s'.members, id) && VersionOf(s, id) == VersionOf(s', id))
  }

  lemma StepFenced(s: Pool, c: Command, id: Identity)
    requires Inv(s)
    ensures Fenced(s, Step(s, c), id) && VersionOf(Step(s, c), id).revision <= VersionOf(s, id).revision + 1
    ensures id != c.id ==> SameFor(s.members, Step(s, c).members, id) && VersionOf(Step(s, c), id) == VersionOf(s, id)
  {
    hide Bounded, AllSaved, Attempt;
    if Attempt(s, c).Ok? {
      AttemptShape(s, c);
      if id != c.id { OtherPending(s.members, Attempt(s, c).value.members, c.id, id); }
    }
  }

  // ----- Runs

  ghost function Run(s: Pool, trace: seq<Command>): Pool
    decreases |trace|
  {
    if trace == [] then s else Step(Run(s, trace[..|trace| - 1]), trace[|trace| - 1])
  }

  /** Capacity, provenance and explanation hold after any commands whatsoever. */
  lemma {:induction false} RunKeeps(s: Pool, trace: seq<Command>)
    requires Inv(s)
    ensures Inv(Run(s, trace))
    decreases |trace|
  {
    hide Inv, Step;
    if trace != [] {
      RunKeeps(s, trace[..|trace| - 1]);
      StepKeeps(Run(s, trace[..|trace| - 1]), trace[|trace| - 1]);
    }
  }

  /** Over any run generation and revision never fall, and an unchanged revision means unchanged membership. */
  lemma {:induction false} RunFenced(s: Pool, trace: seq<Command>, id: Identity)
    requires Inv(s)
    ensures Fenced(s, Run(s, trace), id)
    decreases |trace|
  {
    hide Inv, Step;
    if trace != [] {
      RunFenced(s, trace[..|trace| - 1], id);
      RunKeeps(s, trace[..|trace| - 1]);
      StepFenced(Run(s, trace[..|trace| - 1]), trace[|trace| - 1], id);
    }
  }

  /** The limit on listing a pool's tokens hides none of them. */
  lemma LimitHidesNothing(s: Pool, trace: seq<Command>, scope: string, scopeId: string, provider: string, listed: seq<Slot>)
    requires Inv(s)
    requires forall slot :: slot in listed <==>
               var m := Run(s, trace).members;
               slot in m && slot.id.scope == scope && slot.id.scopeId == scopeId && slot.provider == provider && Selectable(m[slot])
    requires forall i, j :: 0 <= i < j < |listed| ==> listed[i] != listed[j]
    ensures |listed| <= POOL_LIMIT
  {
    hide Run;
    RunKeeps(s, trace);
    var m := Run(s, trace).members;
    var all := set slot | slot in listed;
    assert all <= CountedIn(m, scope, scopeId, provider);
    SubsetSize(all, CountedIn(m, scope, scopeId, provider));
    Distinct(listed);
  }

  lemma {:induction false} Distinct<T>(q: seq<T>)
    requires forall i, j :: 0 <= i < j < |q| ==> q[i] != q[j]
    ensures |set x | x in q| == |q|
  {
    if q != [] {
      var n := |q| - 1;
      Distinct(q[..n]);
      assert q == q[..n] + [q[n]];
      assert (set x | x in q) == (set x | x in q[..n]) + {q[n]};
    }
  }

  // ----- Abandonment

  lemma AdmitLeavesNoTrace(m: Members, id: Identity, provider: string, active: bool)
    requires AllSaved(m) && AdmitRows(m, id, provider, active).Ok?
    ensures Restore(AdmitRows(m, id, provider, active).value, id) == Restore(m, id)
  {
    var slot := Slot(id, provider);
    if slot in m { assert Saved(m[slot]); }
    var m' := AdmitRows(m, id, provider, active).value;
    forall x ensures x in Restore(m', id) <==> x in Restore(m, id) {}
  }

  /** Any number of admissions of a grant, with any providers and states, leave nothing behind but the revision. */
  lemma {:induction false} Abandonment(s: Pool, trace: seq<Command>, id: Identity, other: Identity)
    requires Inv(s) && forall i :: 0 <= i < |trace| ==> trace[i].AdmitGrant? && trace[i].id == id
    ensures var s' := Run(s, trace);
            && Restore(s'.members, id) == Restore(s.members, id)
            && VersionOf(s', id).generation == VersionOf(s, id).generation
            && (other != id ==> SameFor(s.members, s'.members, other) && VersionOf(s', other) == VersionOf(s, other))
    decreases |trace|
  {
    hide Inv, Restore, Step;
    if trace != [] {
      var n := |trace| - 1;
      var mid, c := Run(s, trace[..n]), trace[n];
      Abandonment(s, trace[..n], id, other);
      RunKeeps(s, trace[..n]);
      StepFenced(mid, c, other);
      InvSaved(mid);
      AdmissionLeavesNoTrace(mid, c);
    }
  }

  lemma AdmissionLeavesNoTrace(s: Pool, c: Command)
    requires AllSaved(s.members) && c.AdmitGrant?
    ensures Restore(Step(s, c).members, c.id) == Restore(s.members, c.id)
    ensures VersionOf(Step(s, c), c.id).generation == VersionOf(s, c.id).generation
  {
    hide Restore, AdmitRows, AllSaved;
    var p, st := c.mutation.provider, c.mutation.status;
    if Attempt(s, c).Ok? && p.Some? && st.Some? {
      AdmitLeavesNoTrace(s.members, c.id, p.value, st.value.Active?);
      assert Step(s, c).members == AdmitRows(s.members, c.id, p.value, st.value.Active?).value;
    }
  }

  lemma InvSaved(s: Pool)
    requires Inv(s)
    ensures AllSaved(s.members)
  {}

  // ----- Reattachment

  /** Nothing of the grant would remain if its proposals were abandoned. */
  predicate Detached(m: Members, id: Identity) {
    forall slot :: slot in m && slot.id == id ==> Proposed(m[slot]) && m[slot].previous.None?
  }

  /** Detached is exactly what abandoning leaves no member of. */
  lemma DetachedIsEmptyRestore(m: Members, id: Identity)
    ensures Detached(m, id) <==> forall slot :: slot in Restore(m, id) ==> slot.id != id
  {
    if !Detached(m, id) {
      var slot :| slot in m && slot.id == id && !(Proposed(m[slot]) && m[slot].previous.None?);
      assert slot in Restore(m, id);
    }
  }

  /** This command publishes the proposal that the last admission made, for a newer generation. */
  predicate Commits(s: Pool, c: Command, id: Identity) {
    && c.PublishGrant? && c.id == id && HasPending(s.members, id)
    && c.mutation.generation > VersionOf(s, id).generation
    && c.mutation.revision == VersionOf(s, id).revision && c.mutation.admissionRevision == Some(VersionOf(s, id).revision)
  }

  lemma DetachedStays(s: Pool, c: Command, id: Identity)
    requires Inv(s) && Detached(s.members, id) && !Detached(Step(s, c).members, id)
    ensures Commits(s, c, id)
  {
    hide Bounded;
    if id != c.id {
      StepFenced(s, c, id);
    } else if c.AdmitGrant? {
      AdmittedStays(s, c);
    } else {
      DetachedRestores(s.members, id);
    }
  }

  /** An admission of a detached grant leaves it detached. */
  lemma AdmittedStays(s: Pool, c: Command)
    requires Inv(s) && Detached(s.members, c.id) && c.AdmitGrant?
    ensures Detached(Step(s, c).members, c.id)
  {
    hide Bounded;
  }

  lemma DetachedRestores(m: Members, id: Identity)
    requires Detached(m, id)
    ensures forall slot :: slot in Restore(m, id) ==> slot.id != id
  {
    DetachedIsEmptyRestore(m, id);
  }

  /** Command `i` of the run is an admission of `id` that succeeded, and nothing raised the revision of `id` after it. */
  ghost predicate AdmittedLast(s: Pool, trace: seq<Command>, id: Identity, i: nat) {
    && i < |trace| && trace[i].AdmitGrant? && trace[i].id == id && Attempt(Run(s, trace[..i]), trace[i]).Ok?
    && VersionOf(Run(s, trace[..i + 1]), id) == VersionOf(Run(s, trace), id)
  }

  lemma {:induction false} PendingSinceAdmission(s: Pool, trace: seq<Command>, id: Identity) returns (i: nat)
    requires Inv(s) && !HasPending(s.members, id) && HasPending(Run(s, trace).members, id)
    ensures AdmittedLast(s, trace, id, i)
    decreases |trace|
  {
    hide Inv, HasPending;
    var n := |trace| - 1;
    var mid, c := Run(s, trace[..n]), trace[n];
    RunKeeps(s, trace[..n]);
    StepFenced(mid, c, id);
    assert trace[..n + 1] == trace;
    if VersionOf(Step(mid, c), id) == VersionOf(mid, id) {
      SamePending(mid.members, Step(mid, c).members, id);
      i := PendingSinceAdmission(s, trace[..n], id);
      assert trace[..n][..i] == trace[..i] && trace[..n][..i + 1] == trace[..i + 1];
    } else {
      BumpedByAdmission(mid, c, id);
      i := n;
    }
  }

  lemma SamePending(a: Members, b: Members, id: Identity)
    requires SameFor(a, b, id)
    ensures HasPending(a, id) <==> HasPending(b, id)
  {}

  lemma BumpedByAdmission(s: Pool, c: Command, id: Identity)
    requires Inv(s) && VersionOf(Step(s, c), id) != VersionOf(s, id) && HasPending(Step(s, c).members, id)
    ensures c.AdmitGrant? && c.id == id && Attempt(s, c).Ok?
  {
    hide Attempt, Bounded;
    StepFenced(s, c, id);
    if Attempt(s, c).Ok? { AttemptShape(s, c); }
  }

  /** A grant without members comes back only by an admission and, with nothing in between, the publication of a newer
      generation that quotes the revision of that admission. */
  lemma {:induction false} Reattachment(s: Pool, trace: seq<Command>, id: Identity) returns (i: nat, j: nat)
    requires Inv(s) && Detached(s.members, id) && !HasPending(s.members, id) && !Detached(Run(s, trace).members, id)
    ensures i < j < |trace| && AdmittedLast(s, trace[..j], id, i) && Commits(Run(s, trace[..j]), trace[j], id)
    decreases |trace|
  {
    hide Inv, Detached, Commits, HasPending, AdmittedLast;
    var n := |trace| - 1;
    RunKeeps(s, trace[..n]);
    var mid := Run(s, trace[..n]);
    if Detached(mid.members, id) {
      DetachedStays(mid, trace[n], id);
      assert HasPending(mid.members, id) by { CommitsPending(mid, trace[n], id); }
      i := PendingSinceAdmission(s, trace[..n], id);
      j := n;
      assert i < n by { AdmittedIndex(s, trace[..n], id, i); }
    } else {
      i, j := Reattachment(s, trace[..n], id);
      assert trace[..n][..j] == trace[..j];
    }
  }

  lemma CommitsPending(s: Pool, c: Command, id: Identity)
    requires Commits(s, c, id)
    ensures HasPending(s.members, id)
  {}

  lemma AdmittedIndex(s: Pool, trace: seq<Command>, id: Identity, i: nat)
    requires AdmittedLast(s, trace, id, i)
    ensures i < |trace|
  {}

  /** The `attached` flag of a snapshot is blind to a member hidden behind a proposal: a paused member is proposed as active,
      which lowers the flag, and it comes back without a newer generation. */
  lemma FlagReturns(id: Identity, provider: string)
    requires Segment(provider)
    ensures var paused := Pool(map[Slot(id, provider) := Member(Paused, None)], map[id := Version(1, 0)], map[]);
            var s := Step(paused, AdmitGrant(id, Mutation(1, 0, None, Some(provider), Some(Active))));
            var c := PublishGrant(id, Mutation(1, 1, None, None, Some(Paused)));
            && Inv(paused) && HasAttached(paused.members, id)
            && Inv(s) && !HasAttached(s.members, id)
            && HasAttached(Step(s, c).members, id) && !Commits(s, c, id)
  {
    var slot := Slot(id, provider);
    var paused := Pool(map[slot := Member(Paused, None)], map[id := Version(1, 0)], map[]);
    var c0 := AdmitGrant(id, Mutation(1, 0, None, Some(provider), Some(Active)));
    PausedInv(id, provider);
    StepKeeps(paused, c0);
    var s := Step(paused, c0);
    ProposedOverPaused(id, provider);
    assert slot in s.members && Proposed(s.members[slot]);
    RestoreClears(s.members, id);
    assert slot in Restore(s.members, id);
    RestoredByPublication(s, id);
  }

  lemma PausedInv(id: Identity, provider: string)
    ensures Inv(Pool(map[Slot(id, provider) := Member(Paused, None)], map[id := Version(1, 0)], map[]))
  {
    var m: Members := map[Slot(id, provider) := Member(Paused, None)];
    forall scope, scopeId, p ensures |CountedIn(m, scope, scopeId, p)| <= POOL_LIMIT {
      assert CountedIn(m, scope, scopeId, p) == {};
    }
  }

  lemma ProposedOverPaused(id: Identity, provider: string)
    requires Segment(provider)
    ensures var paused := Pool(map[Slot(id, provider) := Member(Paused, None)], map[id := Version(1, 0)], map[]);
            Step(paused, AdmitGrant(id, Mutation(1, 0, None, Some(provider), Some(Active)))) ==
              Pool(map[Slot(id, provider) := Member(Pending, Some(Paused))], map[id := Version(1, 1)], map[id := Admission])
  {
    var m: Members := map[Slot(id, provider) := Member(Paused, None)];
    assert CountedIn(m, id.scope, id.scopeId, provider) == {};
  }

  /** A publication of the same generation restores the proposals of a grant. */
  lemma RestoredByPublication(s: Pool, id: Identity)
    requires AllSaved(s.members) && HasPending(s.members, id) && VersionOf(s, id) == Version(1, 1)
    ensures Step(s, PublishGrant(id, Mutation(1, 1, None, None, Some(Paused)))).members == Restore(s.members, id)
  {
    hide Restore, HasPending, HasAttached;
    RestoreClears(s.members, id);
  }

  /** The flag can be trusted exactly when no proposal of the grant saves a previous status. */
  lemma FlagMeansDetached(s: Pool, id: Identity)
    requires Inv(s) && !HasAttached(s.members, id)
    requires VersionOf(s, id).generation < MAX_SAFE && VersionOf(s, id).revision < MAX_SAFE
    ensures (forall slot :: slot in s.members && slot.id == id ==> s.members[slot].previous.None?)
            <==> (forall c :: HasAttached(Step(s, c).members, id) ==> Commits(s, c, id))
  {
    hide Inv, Step, Commits;
    if forall slot :: slot in s.members && slot.id == id ==> s.members[slot].previous.None? {
      assert Detached(s.members, id);
      forall c | HasAttached(Step(s, c).members, id) ensures Commits(s, c, id) {
        assert !Detached(Step(s, c).members, id);
        DetachedStays(s, c, id);
      }
    } else {
      var c := UncommittedReturn(s, id);
      assert HasAttached(Step(s, c).members, id) && !Commits(s, c, id);
    }
  }

  lemma UncommittedReturn(s: Pool, id: Identity) returns (c: Command)
    requires Inv(s) && exists slot :: slot in s.members && slot.id == id && s.members[slot].previous.Some?
    requires VersionOf(s, id).generation < MAX_SAFE && VersionOf(s, id).revision < MAX_SAFE
    ensures HasAttached(Step(s, c).members, id) && !Commits(s, c, id)
  {
    hide Bounded, Explained;
    var v := VersionOf(s, id);
    c := PublishGrant(id, Mutation(v.generation, v.revision, None, None, Some(Paused)));
    var slot :| slot in s.members && slot.id == id && s.members[slot].previous.Some?;
    assert Saved(s.members[slot]);
    assert Proposed(s.members[slot]);
    RestoreClears(s.members, id);
    assert slot in Restore(s.members, id);
  }

  // ----- Grant keys name identities one to one

  function Join(parts: seq<string>): string
    requires |parts| > 0
  {
    if |parts| == 1 then parts[0] else parts[0] + "/" + Join(parts[1..])
  }

  lemma {:induction false} JoinSplit(s: string)
    ensures Join(Split(s)) == s
  {
    if s != "" {
      JoinSplit(s[1..]);
      var rest := Split(s[1..]);
      var parts := Split(s);
      if s[0] == '/' {
        assert parts[1..] == rest;
      } else if |rest| > 1 {
        assert parts[1..] == rest[1..];
      }
    }
  }

  predicate Unbroken(s: string) {
    forall i :: 0 <= i < |s| ==> s[i] != '/'
  }

  lemma {:induction false} SplitHead(a: string, rest: string)
    requires Unbroken(a)
    ensures Split(a) == [a] && Split(a + "/" + rest) == [a] + Split(rest)
  {
    if a == "" {
      assert "" + "/" + rest == "/" + rest && ("/" + rest)[1..] == rest;
    } else {
      SplitHead(a[1..], rest);
      assert (a + "/" + rest)[1..] == a[1..] + "/" + rest;
      assert [a[0]] + a[1..] == a;
    }
  }

  /** Every identity has a key, and no other key means it. */
  lemma KeysNameIdentities(id: Identity, key: string)
    ensures Named(id) ==> PoolIdentity(KeyOf(id)) == Ok(id)
    ensures PoolIdentity(key) == Ok(id) ==> Named(id) && KeyOf(id) == key
  {
    if Named(id) { KeyParses(id); }
    if PoolIdentity(key) == Ok(id) { ParsedKey(key); }
  }

  lemma SplitThree(a: string, b: string, c: string)
    requires Unbroken(a) && Unbroken(b) && Unbroken(c)
    ensures Split(a + "/" + b + "/" + c) == [a, b, c]
  {
    hide Split, Unbroken;
    SplitHead(c, "");
    SplitHead(b, c);
    SplitHead(a, b + "/" + c);
    assert a + "/" + b + "/" + c == a + "/" + (b + "/" + c);
  }

  lemma SplitFour(a: string, b: string, c: string, d: string)
    requires Unbroken(a) && Unbroken(b) && Unbroken(c) && Unbroken(d)
    ensures Split(a + "/" + b + "/" + c + "/" + d) == [a, b, c, d]
  {
    hide Split, Unbroken;
    SplitThree(b, c, d);
    SplitHead(a, b + "/" + c + "/" + d);
    assert a + "/" + b + "/" + c + "/" + d == a + "/" + (b + "/" + c + "/" + d);
  }

  lemma SegmentUnbroken(s: string)
    requires Segment(s)
    ensures Unbroken(s)
  {}

  lemma KeyParses(id: Identity)
    requires Named(id)
    ensures PoolIdentity(KeyOf(id)) == Ok(id)
  {
    hide Split, Segment, Unbroken, GrantKey;
    SegmentUnbroken(id.scopeId);
    SegmentUnbroken(id.token);
    Printable(id);
    assert Unbroken("oauth") && Unbroken("tenants") by { Words(); }
    if id.scope == "tenants" {
      SplitFour("oauth", "tenants", id.scopeId, id.token);
      assert KeyOf(id) == "oauth" + "/" + "tenants" + "/" + id.scopeId + "/" + id.token;
    } else {
      SplitThree("oauth", id.scopeId, id.token);
      assert KeyOf(id) == "oauth" + "/" + id.scopeId + "/" + id.token;
    }
  }

  lemma Words()
    ensures Unbroken("oauth") && Unbroken("tenants")
  {}

  lemma Printable(id: Identity)
    requires Named(id)
    ensures GrantKey(KeyOf(id))
  {
    var key := KeyOf(id);
    assert key[..6] == "oauth/";
  }

  lemma JoinThree(a: string, b: string, c: string)
    ensures Join([a, b, c]) == a + "/" + b + "/" + c
  {
    assert [a, b, c][1..] == [b, c] && [b, c][1..] == [c];
    assert Join([b, c]) == b + "/" + c;
    assert a + "/" + (b + "/" + c) == a + "/" + b + "/" + c;
  }

  lemma JoinFour(a: string, b: string, c: string, d: string)
    ensures Join([a, b, c, d]) == a + "/" + b + "/" + c + "/" + d
  {
    JoinThree(b, c, d);
    assert [a, b, c, d][1..] == [b, c, d];
    assert a + "/" + (b + "/" + c + "/" + d) == a + "/" + b + "/" + c + "/" + d;
  }

  lemma ParsedKey(key: string)
    requires PoolIdentity(key).Ok?
    ensures Named(PoolIdentity(key).value) && KeyOf(PoolIdentity(key).value) == key
  {
    hide Split, Segment, GrantKey, Join;
    var parts := Split(key);
    JoinSplit(key);
    FirstPart(key);
    if |parts| == 4 {
      assert parts == [parts[0], parts[1], parts[2], parts[3]];
      JoinFour(parts[0], parts[1], parts[2], parts[3]);
    } else {
      assert parts == [parts[0], parts[1], parts[2]];
      JoinThree(parts[0], parts[1], parts[2]);
    }
  }

  lemma FirstPart(key: string)
    requires GrantKey(key)
    ensures Split(key)[0] == "oauth"
  {
    assert key == "oauth" + "/" + key[6..] by { assert key[..6] == "oauth/"; }
    SplitHead("oauth", key[6..]);
  }

  // ----- What the fence means

  /** A command that passes the fence quotes the current revision and no older generation; it still passes after a run if
      and only if nothing has raised the revision since. */
  lemma QuotedOnce(s: Pool, id: Identity, c: Mutation, trace: seq<Command>)
    requires Inv(s) && Fence(s, id, c).Ok?
    ensures c.revision == VersionOf(s, id).revision && VersionOf(s, id).generation <= c.generation
    ensures Fence(Run(s, trace), id, c).Ok? <==> VersionOf(Run(s, trace), id).revision == VersionOf(s, id).revision
    ensures Fence(Run(s, trace), id, c).Ok? ==> SameFor(s.members, Run(s, trace).members, id)
  {
    hide Inv, Run, Segment;
    RunFenced(s, trace, id);
  }

  // ----- What a publication leaves

  /** A publication that succeeds leaves the grant at the generation it quotes, without proposals, and with the owner's state. */
  lemma PublicationMeans(s: Pool, id: Identity, c: Mutation)
    requires Publish(s, id, c).Ok?
    ensures var after := Publish(s, id, c).value;
            && VersionOf(after, id).generation == c.generation && !HasPending(after.members, id)
            && (c.status.None? ==> forall slot :: slot in after.members ==> slot.id != id)
            && (c.status.Some? && MemberOf(after.members, id, c.provider).Some? ==>
                  && MemberOf(after.members, id, c.provider).value.status == c.status.value
                  && forall slot :: slot in after.members && slot.id == id ==> slot.provider == c.provider.value)
  {}

  /** What an owner has had admitted it can publish next, for a newer generation, and that attaches the grant in the state published. */
  lemma AdmittedPublishes(s: Pool, id: Identity, c: Mutation, newer: nat, status: Status)
    requires Admit(s, id, c).Ok? && c.provider.Some? && c.status.Some? && OwnerStatus(status) && (status.Active? ==> c.status == Some(Active))
    requires c.generation < newer < MAX_SAFE && c.revision + 1 < MAX_SAFE
    ensures var s' := Admit(s, id, c).value;
            var p := Publish(s', id, Mutation(newer, c.revision + 1, Some(c.revision + 1), c.provider, Some(status)));
            p.Ok? && MemberOf(p.value.members, id, c.provider) == Some(Member(status, None))
  {
    hide CountedIn;
    var s' := Admit(s, id, c).value;
    assert Slot(id, c.provider.value) in s'.members;
  }

  /** The generation published last, by the inputs of the run: that of the last publication that succeeded. */
  ghost function LastPublished(s: Pool, trace: seq<Command>, id: Identity): nat {
    if trace == [] then VersionOf(s, id).generation
    else
      var n := |trace| - 1;
      if trace[n].PublishGrant? && trace[n].id == id && Attempt(Run(s, trace[..n]), trace[n]).Ok? then trace[n].mutation.generation
      else LastPublished(s, trace[..n], id)
  }

  lemma {:induction false} GenerationIsPublished(s: Pool, trace: seq<Command>, id: Identity)
    ensures VersionOf(Run(s, trace), id).generation == LastPublished(s, trace, id)
    decreases |trace|
  {
    hide Publish, AdmitRows, Restore;
    if trace != [] {
      var n := |trace| - 1;
      GenerationIsPublished(s, trace[..n], id);
      var c := trace[n];
      if c.PublishGrant? && Attempt(Run(s, trace[..n]), c).Ok? {
        PublicationMeans(Run(s, trace[..n]), c.id, c.mutation);
        PublicationElsewhere(Run(s, trace[..n]), c.id, c.mutation, id);
      }
    }
  }

  lemma PublicationElsewhere(s: Pool, id: Identity, c: Mutation, other: Identity)
    requires Publish(s, id, c).Ok?
    ensures other != id ==> VersionOf(Publish(s, id, c).value, other) == VersionOf(s, other)
  {}

  /** After any run an admission succeeds only for the generation published last, and a publication for none below it. */
  lemma PublicationFences(s: Pool, trace: seq<Command>, c: Command)
    requires !c.CancelGrant? && Attempt(Run(s, trace), c).Ok?
    ensures c.AdmitGrant? ==> c.mutation.generation == LastPublished(s, trace, c.id)
    ensures c.PublishGrant? ==> c.mutation.generation >= LastPublished(s, trace, c.id)
    ensures LastPublished(s, trace + [c], c.id) == c.mutation.generation
  {
    hide Conclude, AdmitRows, Restore;
    GenerationIsPublished(s, trace, c.id);
    assert (trace + [c])[..|trace|] == trace;
  }

  /** Once a generation has been published, nothing that quotes a lower one ever succeeds. */
  lemma {:induction false} NeverBelow(s: Pool, trace: seq<Command>, i: nat, j: nat)
    requires i < j < |trace| && trace[i].PublishGrant? && !trace[j].CancelGrant? && trace[i].id == trace[j].id
    requires Attempt(Run(s, trace[..i]), trace[i]).Ok? && Attempt(Run(s, trace[..j]), trace[j]).Ok?
    ensures trace[j].mutation.generation >= trace[i].mutation.generation
  {
    hide Attempt, Run;
    var id := trace[i].id;
    PublicationFences(s, trace[..i], trace[i]);
    PublicationFences(s, trace[..j], trace[j]);
    assert trace[..i] + [trace[i]] == trace[..i + 1];
    PublishedGrows(s, trace, id, i + 1, j);
  }

  lemma {:induction false} PublishedGrows(s: Pool, trace: seq<Command>, id: Identity, i: nat, j: nat)
    requires i <= j <= |trace|
    ensures LastPublished(s, trace[..i], id) <= LastPublished(s, trace[..j], id)
    decreases j - i
  {
    hide Attempt, Run;
    if i < j {
      PublishedGrows(s, trace, id, i, j - 1);
      assert trace[..j][..j - 1] == trace[..j - 1];
      var c := trace[j - 1];
      if c.PublishGrant? && c.id == id && Attempt(Run(s, trace[..j - 1]), c).Ok? { PublicationFences(s, trace[..j - 1], c); }
    }
  }
}

/**
 The attachment methods of the authority object of `worker/authority.ts`, statement by statement on its two tables.
 Each runs inside a transaction: when it fails, what it wrote before failing is undone.
 */
module GrantAuthority {
  import opened Basics
  import opened GrantPool
  import opened GrantLaws

  datatype Snapshot = Snapshot(generation: nat, revision: nat, pending: bool, attached: bool)
  datatype Verdict = IsDetached | IsAttached | Unattached | Unresolved | PendingCancelled

  function SnapshotOf(s: Pool, id: Identity): Snapshot {
    Snapshot(VersionOf(s, id).generation, VersionOf(s, id).revision, HasPending(s.members, id), HasAttached(s.members, id))
  }

  /** What a call answers: a snapshot of the state it leaves, or the error of the command. */
  predicate Replies(expected: Result<Pool>, id: Identity, r: Result<Snapshot>) {
    match expected
    case Ok(s) => r == Ok(SnapshotOf(s, id))
    case Err(e) => r == Err(e)
  }

  /** Restoring is an update of the rows with a saved status and a deletion of the proposals that are left. */
  lemma RestoreInTwo(m: Members, id: Identity)
    requires AllSaved(m)
    ensures var updated := map slot | slot in m :: if slot.id == id && Proposed(m[slot]) && m[slot].previous.Some? then Member(m[slot].previous.value, None) else m[slot];
            (map slot | slot in updated && !(slot.id == id && Proposed(updated[slot])) :: updated[slot]) == Restore(m, id)
  {
    forall slot | slot in m ensures Saved(m[slot]) {}
  }

  /** What a snapshot tells its reader: a pending proposal stems from the last bump, a grant with neither flag has no
      member, and without a pending proposal the attached flag is the truth. */
  lemma SnapshotMeans(s: Pool, id: Identity)
    requires Inv(s)
    ensures var r := SnapshotOf(s, id);
            && (r.pending ==> id in s.last && s.last[id].Admission?)
            && (!r.pending && !r.attached <==> forall slot :: slot in s.members ==> slot.id != id)
            && (!r.pending ==> (r.attached <==> !Detached(s.members, id)) && Restore(s.members, id) == s.members)
  {
    hide Bounded;
    if !HasPending(s.members, id) {
      forall slot | slot in s.members ensures slot in Restore(s.members, id) {
        assert slot.id == id ==> !Proposed(s.members[slot]);
      }
    }
  }

  lemma FenceIsVersion(s: Pool, id: Identity, c: Mutation)
    requires Fence(s, id, c).Ok?
    ensures Fence(s, id, c).value == VersionOf(s, id)
  {}

  lemma AgreesGone(m: Members, id: Identity, provider: Option<string>)
    ensures Agrees(m, id, provider, None) <==> !HasAttached(m, id)
  {}

  class Authority {
    var members: Members
    var versions: map<Identity, Version>
    ghost var last: map<Identity, Cause>

    ghost function State(): Pool
      reads this
    {
      Pool(members, versions, last)
    }

    constructor (members: Members)
      ensures this.members == members && versions == map[] && last == map[]
    {
      this.members, versions, last := members, map[], map[];
    }

    method GrantAttachment(id: Identity) returns (r: Snapshot)
      ensures r == SnapshotOf(State(), id)
    {
      var v := if id in versions then versions[id] else Version(0, 0);
      r := Snapshot(v.generation, v.revision, HasPending(members, id), HasAttached(members, id));
    }

    method AttachmentMutation(id: Identity, c: Mutation) returns (r: Result<Version>)
      ensures r == Fence(State(), id, c)
    {
      var v := if id in versions then versions[id] else Version(0, 0);
      if c.generation >= MAX_SAFE || c.revision >= MAX_SAFE { return Err(Invalid); }
      if c.admissionRevision.Some? && c.admissionRevision.value >= MAX_SAFE { return Err(Invalid); }
      if c.provider.Some? && !Segment(c.provider.value) { return Err(Invalid); }
      if c.status.Some? && !OwnerStatus(c.status.value) { return Err(Invalid); }
      if c.revision != v.revision || c.generation < v.generation { return Err(Changed); }
      r := Ok(v);
    }

    method StoreAttachmentVersion(id: Identity, generation: nat, revision: nat, ghost cause: Cause)
      modifies this`versions, this`last
      ensures versions == old(versions)[id := Version(generation, revision)] && last == old(last)[id := cause]
    {
      versions := versions[id := Version(generation, revision)];
      last := last[id := cause];
    }

    method AdmitGrantAttachment(key: string, c: Mutation) returns (r: Result<Snapshot>)
      requires Inv(State())
      modifies this
      ensures PoolIdentity(key).Err? ==> r == Err(Invalid) && State() == old(State())
      ensures PoolIdentity(key).Ok? ==>
                var id := PoolIdentity(key).value;
                State() == Step(old(State()), AdmitGrant(id, c)) && Replies(Admit(old(State()), id, c), id, r)
      ensures Inv(State())
    {
      hide Inv, HasPending, HasAttached, CountedIn;
      var parsed := PoolIdentity(key);
      if parsed.Err? { return Err(Invalid); }
      var id := parsed.value;
      StepKeeps(State(), AdmitGrant(id, c));
      var fence := AttachmentMutation(id, c);
      if fence.Err? { return Err(fence.error); }
      var current := fence.value;
      if c.generation != current.generation { return Err(Changed); }
      if c.provider.Some? && c.status.Some? {
        var slot := Slot(id, c.provider.value);
        var active := c.status.value.Active?;
        if slot !in members || (active && !(members[slot].status in {Active, Legacy, Pending})) {
          if active {
            var count := |CountedIn(members, id.scope, id.scopeId, c.provider.value)|;
            if count >= POOL_LIMIT { return Err(Full); }
          }
          var previous := if slot !in members then None
                          else if members[slot].status !in {Pending, PendingInactive} then Some(members[slot].status)
                          else members[slot].previous;
          members := members[slot := Member(if active then Pending else PendingInactive, previous)];
        }
      }
      StoreAttachmentVersion(id, current.generation, current.revision + 1, Admission);
      var snapshot := GrantAttachment(id);
      r := Ok(snapshot);
    }

    /** `restorePendingAttachment`: the update of the saved rows, then the deletion of the rest. */
    method RestorePendingAttachment(id: Identity)
      requires AllSaved(members)
      modifies this`members
      ensures members == Restore(old(members), id)
    {
      RestoreInTwo(members, id);
      members := map slot | slot in members ::
        if slot.id == id && Proposed(members[slot]) && members[slot].previous.Some? then Member(members[slot].previous.value, None) else members[slot];
      members := map slot | slot in members && !(slot.id == id && Proposed(members[slot])) :: members[slot];
    }

    /** The statements that write the owner's state over the members of a grant. */
    method WriteMembers(id: Identity, provider: Option<string>, status: Option<Status>)
      modifies this`members
      ensures members == Settle(old(members), id, provider, status)
      ensures status.Some? ==> (MemberOf(members, id, provider).Some? <==> MemberOf(old(members), id, provider).Some?)
      ensures status.None? ==> !HasAttached(members, id) && !HasPending(members, id)
    {
      hide HasAttached, HasPending, Settle;
      Settled(members, id, provider, status);
      if status.None? {
        members := map slot | slot in members && slot.id != id :: members[slot];
      } else if provider.Some? && Slot(id, provider.value) in members {
        members := members[Slot(id, provider.value) := Member(status.value, None)];
        members := map slot | slot in members && !(slot.id == id && slot.provider != provider.value) :: members[slot];
      } else {
        members := map slot | slot in members && !(slot.id == id && Proposed(members[slot])) :: members[slot];
      }
    }

    /** The body of the publication, before any undoing. */
    method PublishBody(id: Identity, c: Mutation) returns (r: Result<Snapshot>, verdict: Verdict)
      requires Inv(State())
      modifies this
      ensures Replies(Publish(old(State()), id, c), id, r)
      ensures r.Ok? ==> State() == Publish(old(State()), id, c).value
      ensures r.Ok? && c.status.Some? ==> (verdict.IsAttached? <==> MemberOf(members, id, c.provider).Some?)
      ensures r.Ok? && c.status.None? ==> verdict.IsDetached? && !HasAttached(members, id) && !HasPending(members, id)
    {
      hide Inv, HasPending, HasAttached, Restore, Settle, Fence, AllSaved, Agrees, Conclude;
      verdict := Unattached;
      InvSaved(State());
      var fence := AttachmentMutation(id, c);
      if fence.Err? { return Err(fence.error), verdict; }
      var current := fence.value;
      FenceIsVersion(State(), id, c);
      var restored := HasPending(members, id) && (c.admissionRevision != Some(current.revision) || c.generation == current.generation);
      assert restored == Restores(State(), id, c);
      if restored { RestorePendingAttachment(id); }
      r, verdict := ConcludeBody(id, c, current, restored);
    }

    /** The rest of the publication. */
    method ConcludeBody(id: Identity, c: Mutation, current: Version, restored: bool) returns (r: Result<Snapshot>, verdict: Verdict)
      requires current == VersionOf(State(), id)
      modifies this
      ensures Replies(Conclude(old(State()), restored, id, c, current), id, r)
      ensures r.Ok? ==> State() == Conclude(old(State()), restored, id, c, current).value
      ensures r.Ok? && c.status.Some? ==> (verdict.IsAttached? <==> MemberOf(members, id, c.provider).Some?)
      ensures r.Ok? && c.status.None? ==> verdict.IsDetached? && !HasAttached(members, id) && !HasPending(members, id)
    {
      hide HasPending, HasAttached, Settle, Agrees;
      var member := if c.provider.Some? && Slot(id, c.provider.value) in members then Some(members[Slot(id, c.provider.value)]) else None;
      verdict := if c.status.None? then IsDetached else if member.Some? then IsAttached else Unattached;
      if c.generation == current.generation && !HasPending(members, id) {
        if Agrees(members, id, c.provider, c.status) {
          AgreesGone(members, id, c.provider);
          if restored { StoreAttachmentVersion(id, c.generation, current.revision + 1, Publication); }
          var snapshot := GrantAttachment(id);
          return Ok(snapshot), verdict;
        }
        return Err(Changed), verdict;
      }
      if c.status == Some(Active) && member.Some? && !(member.value.status in {Active, Legacy, Pending}) { return Err(AdmissionRequired), verdict; }
      WriteMembers(id, c.provider, c.status);
      StoreAttachmentVersion(id, c.generation, current.revision + 1, Publication);
      var snapshot := GrantAttachment(id);
      r := Ok(snapshot);
    }

    method PublishGrantAttachment(key: string, c: Mutation) returns (r: Result<Snapshot>, verdict: Verdict)
      requires Inv(State())
      modifies this
      ensures PoolIdentity(key).Err? ==> r == Err(Invalid) && State() == old(State())
      ensures PoolIdentity(key).Ok? ==>
                var id := PoolIdentity(key).value;
                && State() == Step(old(State()), PublishGrant(id, c)) && Replies(Publish(old(State()), id, c), id, r)
                && (r.Ok? ==> VersionOf(State(), id).generation == c.generation && r.value.generation == c.generation)
      ensures Inv(State())
    {
      hide Inv, Publish;
      var parsed := PoolIdentity(key);
      if parsed.Err? { return Err(Invalid), Unattached; }
      StepKeeps(State(), PublishGrant(parsed.value, c));
      var membersBefore, versionsBefore := members, versions;
      ghost var lastBefore := last;
      r, verdict := PublishBody(parsed.value, c);
      if Publish(old(State()), parsed.value, c).Ok? { PublicationMeans(old(State()), parsed.value, c); }
      if r.Err? {
        members, versions := membersBefore, versionsBefore;
        last := lastBefore;
      }
    }

    method CancelPendingAttachment(key: string, revision: nat) returns (r: Result<Snapshot>, verdict: Verdict)
      requires Inv(State())
      modifies this
      ensures PoolIdentity(key).Err? ==> r == Err(Invalid) && State() == old(State())
      ensures PoolIdentity(key).Ok? ==>
                var id := PoolIdentity(key).value;
                && State() == Step(old(State()), CancelGrant(id, revision)) && Replies(Cancel(old(State()), id, revision), id, r)
                && (r.Ok? ==> (verdict.PendingCancelled? <==> r.value.generation == 0 && !r.value.attached))
      ensures Inv(State())
    {
      hide Inv, HasPending, HasAttached, Restore;
      verdict := Unresolved;
      var parsed := PoolIdentity(key);
      if parsed.Err? { return Err(Invalid), verdict; }
      var id := parsed.value;
      InvSaved(State());
      StepKeeps(State(), CancelGrant(id, revision));
      var current := GrantAttachment(id);
      if revision != current.revision { return Err(Changed), verdict; }
      if current.generation != 0 { return Ok(current), verdict; }
      if current.pending {
        RestorePendingAttachment(id);
        StoreAttachmentVersion(id, 0, current.revision + 1, Cancellation);
      }
      var updated := GrantAttachment(id);
      r, verdict := Ok(updated), if updated.attached then Unresolved else PendingCancelled;
    }
  }

  /** The three shapes a publication can leave, as its statements write them. */
  lemma Settled(m: Members, id: Identity, provider: Option<string>, status: Option<Status>)
    ensures status.None? ==> Settle(m, id, provider, status) == (map slot | slot in m && slot.id != id :: m[slot])
    ensures status.Some? && MemberOf(m, id, provider).Some? ==>
              var written := m[Slot(id, provider.value) := Member(status.value, None)];
              Settle(m, id, provider, status) == (map slot | slot in written && !(slot.id == id && slot.provider != provider.value) :: written[slot])
    ensures status.Some? && MemberOf(m, id, provider).None? ==>
              Settle(m, id, provider, status) == (map slot | slot in m && !(slot.id == id && Proposed(m[slot])) :: m[slot])
    ensures status.Some? ==> (MemberOf(Settle(m, id, provider, status), id, provider).Some? ==> MemberOf(m, id, provider).Some?)
    ensures status.Some? && MemberOf(m, id, provider).Some? ==> MemberOf(Settle(m, id, provider, status), id, provider).Some?
    ensures status.None? ==> !HasAttached(Settle(m, id, provider, status), id) && !HasPending(Settle(m, id, provider, status), id)
  {}
}

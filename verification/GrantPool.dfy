/**
 Membership of upstream grants in pools, as the authority object of `worker/authority.ts` keeps it: admission, publication
 and cancellation of a proposal under a fence of generation and revision.

 `last` is history that no operation reads: what raised a grant's revision last.
 */
module GrantPool {
  import opened Basics

  const POOL_LIMIT: nat := 32

  datatype Error = Invalid | Changed | AdmissionRequired | Full

  datatype Result<+T> = Ok(value: T) | Err(error: Error) {
    predicate IsFailure() { Err? }
    function PropagateFailure<U>(): Result<U> requires Err? { Err(error) }
    function Extract(): T requires Ok? { value }
  }

  datatype Identity = Identity(scope: string, scopeId: string, token: string)
  datatype Slot = Slot(id: Identity, provider: string)

  datatype Status = Legacy | Active | Paused | ReauthRequired | Pending | PendingInactive
  datatype Member = Member(status: Status, previous: Option<Status>)
  type Members = map<Slot, Member>

  datatype Cause = Admission | Publication | Cancellation
  datatype Version = Version(generation: nat, revision: nat)
  datatype Pool = Pool(members: Members, versions: map<Identity, Version>, last: map<Identity, Cause>)

  /** A command; `status` is the owner's state, absent when the grant is gone. */
  datatype Mutation = Mutation(generation: nat, revision: nat, admissionRevision: Option<nat>, provider: Option<string>, status: Option<Status>)

  predicate Proposed(m: Member) {
    m.status.Pending? || m.status.PendingInactive?
  }

  /** The states that take one of the places of a pool. */
  predicate Counted(m: Member) {
    m.status.Legacy? || m.status.Active? || m.status.Pending?
  }

  predicate Selectable(m: Member) {
    m.status.Legacy? || m.status.Active?
  }

  function VersionOf(s: Pool, id: Identity): Version {
    if id in s.versions then s.versions[id] else Version(0, 0)
  }

  predicate HasPending(m: Members, id: Identity) {
    exists slot :: slot in m && slot.id == id && Proposed(m[slot])
  }

  predicate HasAttached(m: Members, id: Identity) {
    exists slot :: slot in m && slot.id == id && !Proposed(m[slot])
  }

  function MemberOf(m: Members, id: Identity, provider: Option<string>): Option<Member> {
    if provider.Some? && Slot(id, provider.value) in m then Some(m[Slot(id, provider.value)]) else None
  }

  function CountedIn(m: Members, scope: string, scopeId: string, provider: string): set<Slot> {
    set slot | slot in m && slot.id.scope == scope && slot.id.scopeId == scopeId && slot.provider == provider && Counted(m[slot])
  }

  // ----- Operations

  predicate OwnerStatus(st: Status) {
    st.Active? || st.Paused? || st.ReauthRequired?
  }

  predicate Segment(s: string) {
    0 < |s| <= 256 && forall i :: 0 <= i < |s| ==> s[i] != '/' && s[i] >= ' ' && s[i] != '\U{7F}'
  }

  /** The checks every command passes first. */
  function Fence(s: Pool, id: Identity, c: Mutation): Result<Version> {
    var v := VersionOf(s, id);
    if c.generation >= MAX_SAFE || c.revision >= MAX_SAFE || (c.admissionRevision.Some? && c.admissionRevision.value >= MAX_SAFE)
       || (c.provider.Some? && !Segment(c.provider.value)) || (c.status.Some? && !OwnerStatus(c.status.value)) then Err(Invalid)
    else if c.revision != v.revision || c.generation < v.generation then Err(Changed)
    else Ok(v)
  }

  function Bump(s: Pool, id: Identity, generation: nat, cause: Cause): Pool {
    s.(versions := s.versions[id := Version(generation, VersionOf(s, id).revision + 1)], last := s.last[id := cause])
  }

  /** The proposal an admission puts in place of a member, and what it will fall back to. */
  function Proposal(member: Option<Member>, active: bool): Member {
    Member(if active then Pending else PendingInactive,
           if member.None? then None else if !Proposed(member.value) then Some(member.value.status) else member.value.previous)
  }

  predicate NeedsSlot(member: Option<Member>, active: bool) {
    member.None? || (active && !Counted(member.value))
  }

  function AdmitRows(m: Members, id: Identity, provider: string, active: bool): Result<Members> {
    var member := MemberOf(m, id, Some(provider));
    if !NeedsSlot(member, active) then Ok(m)
    else if active && |CountedIn(m, id.scope, id.scopeId, provider)| >= POOL_LIMIT then Err(Full)
    else Ok(m[Slot(id, provider) := Proposal(member, active)])
  }

  function Admit(s: Pool, id: Identity, c: Mutation): Result<Pool> {
    var v :- Fence(s, id, c);
    if c.generation != v.generation then Err(Changed)
    else
      var m :- if c.provider.Some? && c.status.Some? then AdmitRows(s.members, id, c.provider.value, c.status.value.Active?) else Ok(s.members);
      Ok(Bump(s.(members := m), id, v.generation, Admission))
  }

  /** Every proposal of a grant falls back to what it replaced. */
  function Restore(m: Members, id: Identity): Members {
    map slot | slot in m && !(slot.id == id && Proposed(m[slot]) && m[slot].previous.None?) ::
      if slot.id == id && Proposed(m[slot]) then Member(m[slot].previous.value, None) else m[slot]
  }

  /** The members of a grant once its owner's new state is published. */
  function Settle(m: Members, id: Identity, provider: Option<string>, status: Option<Status>): Members {
    if status.None? then map slot | slot in m && slot.id != id :: m[slot]
    else if MemberOf(m, id, provider).Some? then
      map slot | slot in m && (slot.id == id ==> slot.provider == provider.value) ::
        if slot.id == id then Member(status.value, None) else m[slot]
    else map slot | slot in m && !(slot.id == id && Proposed(m[slot])) :: m[slot]
  }

  predicate Adopts(s: Pool, id: Identity, c: Mutation) {
    c.admissionRevision == Some(VersionOf(s, id).revision) && c.generation != VersionOf(s, id).generation
  }

  /** The members of a grant already say what its owner says. */
  predicate Agrees(m: Members, id: Identity, provider: Option<string>, status: Option<Status>) {
    var member := MemberOf(m, id, provider);
    if status.None? then !HasAttached(m, id)
    else
      || member.None?
      || (member.value.status == status.value && forall slot :: slot in m && slot.id == id ==> Some(slot.provider) == provider)
  }

  predicate Restores(s: Pool, id: Identity, c: Mutation) {
    HasPending(s.members, id) && !Adopts(s, id, c)
  }

  function Publish(s: Pool, id: Identity, c: Mutation): Result<Pool> {
    var v :- Fence(s, id, c);
    var restored := Restores(s, id, c);
    Conclude(s.(members := if restored then Restore(s.members, id) else s.members), restored, id, c, v)
  }

  /** The rest of a publication, on members that may have been restored. */
  function Conclude(s: Pool, restored: bool, id: Identity, c: Mutation, v: Version): Result<Pool> {
    var member := MemberOf(s.members, id, c.provider);
    if c.generation == v.generation && !HasPending(s.members, id) then
      if Agrees(s.members, id, c.provider, c.status) then Ok(if restored then Bump(s, id, v.generation, Publication) else s)
      else Err(Changed)
    else if c.status == Some(Active) && member.Some? && !Counted(member.value) then Err(AdmissionRequired)
    else Ok(Bump(s.(members := Settle(s.members, id, c.provider, c.status)), id, c.generation, Publication))
  }

  function Cancel(s: Pool, id: Identity, revision: nat): Result<Pool> {
    var v := VersionOf(s, id);
    if revision != v.revision then Err(Changed)
    else if v.generation != 0 || !HasPending(s.members, id) then Ok(s)
    else Ok(Bump(s.(members := Restore(s.members, id)), id, 0, Cancellation))
  }

  datatype Command = AdmitGrant(id: Identity, mutation: Mutation) | PublishGrant(id: Identity, mutation: Mutation) | CancelGrant(id: Identity, revision: nat)

  function Attempt(s: Pool, c: Command): Result<Pool> {
    match c
    case AdmitGrant(id, input) => Admit(s, id, input)
    case PublishGrant(id, input) => Publish(s, id, input)
    case CancelGrant(id, revision) => Cancel(s, id, revision)
  }

  /** A command that fails leaves the state as it was. */
  function Step(s: Pool, c: Command): Pool {
    var r := Attempt(s, c);
    if r.Ok? then r.value else s
  }

  // ----- Grant keys

  function Split(s: string): (parts: seq<string>)
    ensures |parts| > 0
  {
    if s == "" then [""]
    else
      var rest := Split(s[1..]);
      if s[0] == '/' then [""] + rest else [[s[0]] + rest[0]] + rest[1..]
  }

  predicate GrantKey(key: string) {
    |key| <= 1024 && "oauth/" <= key && forall i :: 0 <= i < |key| ==> key[i] >= ' ' && key[i] != '\U{7F}'
  }

  function PoolIdentity(key: string): Result<Identity> {
    if !GrantKey(key) then Err(Invalid)
    else
      var parts := Split(key);
      if |parts| == 4 && parts[1] == "tenants" then
        if Segment(parts[2]) && Segment(parts[3]) then Ok(Identity("tenants", parts[2], parts[3])) else Err(Invalid)
      else if |parts| == 3 && parts[1] != "tenants" then
        if Segment(parts[1]) && Segment(parts[2]) then Ok(Identity("policies", parts[1], parts[2])) else Err(Invalid)
      else Err(Invalid)
  }

  /** The key that names an identity, as the listing of pending grants rebuilds it. */
  function KeyOf(id: Identity): string {
    if id.scope == "tenants" then "oauth/tenants/" + id.scopeId + "/" + id.token else "oauth/" + id.scopeId + "/" + id.token
  }

  predicate Named(id: Identity) {
    Segment(id.scopeId) && Segment(id.token) && (id.scope == "tenants" || (id.scope == "policies" && id.scopeId != "tenants"))
  }
}

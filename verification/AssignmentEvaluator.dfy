/**
 Group assignment by rules, `evaluateAssignments` of `worker/assignment-evaluator.ts`. `norm` stands for trimming and
 lower-casing; it is any idempotent function.

 Assignments are members of plain objects. A look-up there also finds what every object inherits, and writing the name of
 the prototype adds no member but replaces the prototype.
 */
module AssignmentEvaluator {
  import opened Basics

  type Norm = string -> string

  ghost predicate Idempotent(norm: Norm) {
    forall g :: norm(norm(g)) == norm(g)
  }

  datatype Kind = ExactEmail | EmailDomain | GithubOrg | GithubTeam
  datatype Rule = Rule(id: string, enabled: bool, kind: Kind, subject: string, groups: seq<string>, policies: nat, generated: string, revokeOnLoss: bool)
  datatype Evidence = Evidence(orgs: seq<string>, teams: seq<string>)
  datatype Entry = Entry(groups: seq<string>, revokeOnLoss: bool)

  /** Assignments by rule, in the order they were first made. */
  datatype Assignment = Assignment(id: string, entry: Entry)
  type Assignments = seq<Assignment>

  datatype RuleState = RuleState(revision: string, assignments: Assignments, updatedAt: string)
  datatype User = User(email: string, role: Option<string>, groups: seq<string>, state: Option<RuleState>)

  datatype Evaluation = Evaluation(changed: bool, user: User, matched: seq<string>, retained: seq<string>)

  // ----- Sorted groups

  predicate Sorted(s: seq<string>) {
    forall i, j :: 0 <= i < j < |s| ==> Below(s[i], s[j])
  }

  function Insert(s: seq<string>, g: string): seq<string> {
    if s == [] then [g]
    else if s[0] == g then s
    else if Below(g, s[0]) then [g] + s
    else [s[0]] + Insert(s[1..], g)
  }

  /** Normalized, without the empty group, without duplicates, in order. */
  function Normalize(norm: Norm, groups: seq<string>): seq<string> {
    if groups == [] then []
    else
      var rest := Normalize(norm, groups[..|groups| - 1]);
      var g := norm(groups[|groups| - 1]);
      if g == "" then rest else Insert(rest, g)
  }

  // ----- Matching

  datatype Match = Matches | NoMatch | Undecided

  /** The part of an address between its first and its second at-sign. */
  function Domain(email: string): Option<string> {
    if email == "" then None
    else if email[0] == '@' then Some(UpToAt(email[1..]))
    else Domain(email[1..])
  }

  function UpToAt(s: string): string {
    if s == "" || s[0] == '@' then "" else [s[0]] + UpToAt(s[1..])
  }

  function MatchOf(rule: Rule, email: string, evidence: Option<Evidence>): Match {
    if !rule.enabled then NoMatch
    else if rule.kind.ExactEmail? then if email == rule.subject then Matches else NoMatch
    else if rule.kind.EmailDomain? then if Domain(email) == Some(rule.subject) then Matches else NoMatch
    else if evidence.None? then Undecided
    else if rule.subject in (if rule.kind.GithubOrg? then evidence.value.orgs else evidence.value.teams) then Matches
    else NoMatch
  }

  function EntryOf(norm: Norm, rule: Rule): Entry {
    Entry(Normalize(norm, rule.groups + if rule.policies > 0 then [rule.generated] else []), rule.revokeOnLoss)
  }

  function Find(a: Assignments, id: string): Option<Entry> {
    if a == [] then None else if a[0].id == id then Some(a[0].entry) else Find(a[1..], id)
  }

  /** A rule that does not match asks for what it assigned before. */
  predicate Retaining(rule: Rule, email: string, evidence: Option<Evidence>) {
    var m := MatchOf(rule, email, evidence);
    m.Undecided? || (m.NoMatch? && rule.enabled && !rule.revokeOnLoss)
  }

  function Kept(rule: Rule, email: string, evidence: Option<Evidence>, previous: Assignments): Option<Entry> {
    if Retaining(rule, email, evidence) then Find(previous, rule.id) else None
  }

  /** What a rule assigns: its own groups when it matches, what it assigned before when that may stay. */
  function Assigned(norm: Norm, rule: Rule, email: string, evidence: Option<Evidence>, previous: Assignments): Option<Entry> {
    if rule.id == PROTO then None
    else if MatchOf(rule, email, evidence).Matches? then Some(EntryOf(norm, rule))
    else Kept(rule, email, evidence, previous)
  }

  /** Writing one assignment: in place when the rule has one, at the end otherwise. */
  function Write(a: Assignments, id: string, e: Entry): Assignments {
    if a == [] then [Assignment(id, e)]
    else if a[0].id == id then [Assignment(id, e)] + a[1..]
    else [a[0]] + Write(a[1..], id, e)
  }

  function AssignAll(norm: Norm, rules: seq<Rule>, email: string, evidence: Option<Evidence>, previous: Assignments): Assignments {
    if rules == [] then []
    else
      var n := |rules| - 1;
      var before := AssignAll(norm, rules[..n], email, evidence, previous);
      var e := Assigned(norm, rules[n], email, evidence, previous);
      if e.None? then before else Write(before, rules[n].id, e.value)
  }

  // ----- Objects

  const PROTO := "__proto__"

  /** The names every plain object inherits. */
  predicate Inherited(id: string) {
    id in {PROTO, "constructor", "hasOwnProperty", "isPrototypeOf", "propertyIsEnumerable", "toLocaleString", "toString", "valueOf",
           "__defineGetter__", "__defineSetter__", "__lookupGetter__", "__lookupSetter__"}
  }

  /** What a look-up finds: an entry, or what the object inherits under that name. */
  datatype Value = Own(entry: Entry) | Foreign
  datatype Member = Member(id: string, value: Value)

  /** An object: its own members, and the entry put in the place of its prototype, if any. */
  datatype Object = Object(members: seq<Member>, prototype: Option<Entry>)

  function LookUp(a: Assignments, id: string): Option<Value> {
    var own := Find(a, id);
    if own.Some? then Some(Own(own.value)) else if Inherited(id) then Some(Foreign) else None
  }

  function WriteMember(ms: seq<Member>, id: string, v: Value): seq<Member> {
    if ms == [] then [Member(id, v)]
    else if ms[0].id == id then [Member(id, v)] + ms[1..]
    else [ms[0]] + WriteMember(ms[1..], id, v)
  }

  /** Under the name of the prototype an entry replaces it; what is inherited there is the prototype itself. */
  function Put(o: Object, id: string, v: Value): Object {
    if id == PROTO then o.(prototype := if v.Own? then Some(v.entry) else None)
    else o.(members := WriteMember(o.members, id, v))
  }

  function Decided(norm: Norm, rule: Rule, email: string, evidence: Option<Evidence>, previous: Assignments): Option<Value> {
    if MatchOf(rule, email, evidence).Matches? then Some(Own(EntryOf(norm, rule)))
    else if Retaining(rule, email, evidence) then LookUp(previous, rule.id)
    else None
  }

  /** The object that the evaluation builds. */
  function Build(norm: Norm, rules: seq<Rule>, email: string, evidence: Option<Evidence>, previous: Assignments): Object {
    if rules == [] then Object([], None)
    else
      var n := |rules| - 1;
      var before := Build(norm, rules[..n], email, evidence, previous);
      var v := Decided(norm, rules[n], email, evidence, previous);
      if v.None? then before else Put(before, rules[n].id, v.value)
  }

  /** A member holds something inherited, which has no groups: reading them throws. */
  predicate Broken(ms: seq<Member>) {
    exists i :: 0 <= i < |ms| && ms[i].value.Foreign?
  }

  function Entries(ms: seq<Member>): Assignments
    requires !Broken(ms)
  {
    seq(|ms|, i requires 0 <= i < |ms| => Assignment(ms[i].id, ms[i].value.entry))
  }

  // ----- The evaluation

  function GroupsOf(a: Assignments): seq<string> {
    if a == [] then [] else a[0].entry.groups + GroupsOf(a[1..])
  }

  predicate Reserved(g: string) {
    "assignment." <= g
  }

  predicate IsManual(previous: Assignments, g: string) {
    g !in GroupsOf(previous) && !Reserved(g)
  }

  /** The groups somebody put by hand: neither assigned before nor under the reserved prefix. */
  function Manual(previous: Assignments, groups: seq<string>): seq<string> {
    if groups == [] then []
    else
      var n := |groups| - 1;
      Manual(previous, groups[..n]) + if IsManual(previous, groups[n]) then [groups[n]] else []
  }

  function Before(user: User): RuleState {
    if user.state.Some? then user.state.value else RuleState("", [], "")
  }

  function Ids(a: Assignments): seq<string> {
    seq(|a|, i requires 0 <= i < |a| => a[i].id)
  }

  predicate SameRevision(user: User, legacyRevision: string, revision: string) {
    Before(user).revision == legacyRevision || Before(user).revision == revision
  }

  /** The groups a full evaluation leaves. */
  function GroupsAfter(norm: Norm, user: User, rules: seq<Rule>, evidence: Option<Evidence>): seq<string> {
    var previous := Before(user).assignments;
    Normalize(norm, Manual(previous, user.groups) + GroupsOf(AssignAll(norm, rules, user.email, evidence, previous)))
  }

  /** The user once the assignments are known, and whether anything changed. */
  function Settled(norm: Norm, user: User, assignments: Assignments, legacyRevision: string, revision: string, now: string): (bool, User) {
    var groups := Normalize(norm, Manual(Before(user).assignments, user.groups) + GroupsOf(assignments));
    if SameRevision(user, legacyRevision, revision) && Before(user).assignments == assignments && Normalize(norm, user.groups) == groups then (false, user)
    else (true, User(user.email, Some(if user.role.Some? then user.role.value else "user"), groups, Some(RuleState(revision, assignments, now))))
  }

  function UserAfter(norm: Norm, user: User, rules: seq<Rule>, legacyRevision: string, revision: string, evidence: Option<Evidence>, now: string): (bool, User) {
    Settled(norm, user, AssignAll(norm, rules, user.email, evidence, Before(user).assignments), legacyRevision, revision, now)
  }

  /** An evaluation is skipped when the rules have not changed and it is not forced; nothing comes of one that throws. */
  function EvaluatedUser(norm: Norm, user: User, rules: seq<Rule>, legacyRevision: string, revision: string, evidence: Option<Evidence>, force: bool, now: string): Option<(bool, User)> {
    if !force && SameRevision(user, legacyRevision, revision) then Some((false, user))
    else
      var members := Build(norm, rules, user.email, evidence, Before(user).assignments).members;
      if Broken(members) then None else Some(Settled(norm, user, Entries(members), legacyRevision, revision, now))
  }

  // ----- What is stored

  function Deduped(groups: seq<string>): seq<string> {
    if groups == [] then []
    else
      var n := |groups| - 1;
      var rest := Deduped(groups[..n]);
      if groups[n] in rest then rest else rest + [groups[n]]
  }

  function Place(s: seq<string>, g: string): seq<string> {
    if s == [] then [g] else if Below(g, s[0]) then [g] + s else [s[0]] + Place(s[1..], g)
  }

  function Ordered(norm: Norm, groups: seq<string>): seq<string> {
    if groups == [] then []
    else
      var n := |groups| - 1;
      var g := norm(groups[n]);
      if g == "" then Ordered(norm, groups[..n]) else Place(Ordered(norm, groups[..n]), g)
  }

  /** `normalizeUser`: groups without duplicates, then normalized, without empty ones and in order; a role by default. */
  function Tidied(norm: Norm, user: User): User {
    user.(role := Some(if user.role.Some? then user.role.value else "user"), groups := Ordered(norm, Deduped(user.groups)))
  }
}

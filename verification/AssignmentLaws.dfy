/**
 What a forced evaluation of the assignment rules leaves, and when evaluating again changes nothing.
 */
module AssignmentLaws {
  import opened Basics
  import opened AssignmentEvaluator

  // ----- Normalized groups

  lemma {:induction false} InsertKeeps(s: seq<string>, g: string)
    requires Sorted(s)
    ensures Sorted(Insert(s, g)) && forall x :: x in Insert(s, g) <==> x in s || x == g
  {
    if s != [] && s[0] != g {
      assert s == [s[0]] + s[1..];
      if Below(g, s[0]) {
        forall i | 0 <= i < |s| ensures Below(g, s[i]) { BelowOrders(g, s[0], s[i]); }
      } else {
        InsertKeeps(s[1..], g);
        BelowOrders(g, s[0], s[0]);
        var rest := Insert(s[1..], g);
        forall j | 0 <= j < |rest| ensures Below(s[0], rest[j]) {
          assert rest[j] in rest;
          if rest[j] != g {
            var k :| 0 <= k < |s| - 1 && s[1..][k] == rest[j];
            assert s[k + 1] == rest[j];
          }
        }
      }
    }
  }

  /** The groups some raw group normalizes to. */
  predicate Covers(norm: Norm, groups: seq<string>, g: string) {
    g != "" && exists i :: 0 <= i < |groups| && norm(groups[i]) == g
  }

  lemma {:induction false} NormalizeMeans(norm: Norm, groups: seq<string>)
    ensures Sorted(Normalize(norm, groups)) && forall g :: g in Normalize(norm, groups) <==> Covers(norm, groups, g)
  {
    if groups != [] {
      var n := |groups| - 1;
      NormalizeMeans(norm, groups[..n]);
      InsertKeeps(Normalize(norm, groups[..n]), norm(groups[n]));
      forall g ensures Covers(norm, groups, g) <==> Covers(norm, groups[..n], g) || (g != "" && g == norm(groups[n])) {
        if Covers(norm, groups[..n], g) {
          var i :| 0 <= i < n && norm(groups[..n][i]) == g;
          assert norm(groups[i]) == g;
        }
        if Covers(norm, groups, g) && g != norm(groups[n]) {
          var i :| 0 <= i < |groups| && norm(groups[i]) == g;
          assert norm(groups[..n][i]) == g;
        }
      }
    }
  }

  lemma {:induction false} SortedUnique(a: seq<string>, b: seq<string>)
    requires Sorted(a) && Sorted(b) && forall g :: g in a <==> g in b
    ensures a == b
  {
    assert a != [] ==> a[0] in b;
    assert b != [] ==> b[0] in a;
    if a != [] && b != [] {
      assert a[0] in b && b[0] in a;
      BelowOrders(a[0], b[0], a[0]);
      assert a == [a[0]] + a[1..] && b == [b[0]] + b[1..];
      assert a[0] !in a[1..] && a[0] !in b[1..] by { BelowOrders(a[0], a[0], a[0]); }
      forall g ensures g in a[1..] <==> g in b[1..] {
        assert g in a <==> g == a[0] || g in a[1..];
        assert g in b <==> g == b[0] || g in b[1..];
      }
      SortedUnique(a[1..], b[1..]);
    }
  }

  lemma NormalizedIsStable(norm: Norm, groups: seq<string>)
    requires Idempotent(norm)
    ensures Normalize(norm, Normalize(norm, groups)) == Normalize(norm, groups)
    ensures forall g :: g in Normalize(norm, groups) ==> norm(g) == g && g != ""
  {
    var once := Normalize(norm, groups);
    NormalizeMeans(norm, groups);
    NormalizeMeans(norm, once);
    forall g | g in once ensures norm(g) == g && g != "" {
      var i :| 0 <= i < |groups| && norm(groups[i]) == g;
      assert norm(norm(groups[i])) == norm(groups[i]);
    }
    forall g ensures g in once <==> Covers(norm, once, g) {
      if g in once {
        var i :| 0 <= i < |once| && once[i] == g;
        assert norm(once[i]) == g;
      }
    }
    SortedUnique(once, Normalize(norm, once));
  }

  // ----- What it takes to match

  /** `n` is the place of the first at-sign. */
  predicate FirstAt(email: string, n: nat) {
    n < |email| && email[n] == '@' && forall i :: 0 <= i < n ==> email[i] != '@'
  }

  /** `d` is `s` up to its end or its first at-sign. */
  predicate UpTo(s: string, d: string) {
    d <= s && (d == s || s[|d|] == '@') && forall i :: 0 <= i < |d| ==> d[i] != '@'
  }

  /** The address is a part without at-sign, an at-sign, the domain, and then nothing or another at-sign. */
  predicate InDomain(email: string, domain: string) {
    exists n :: 0 <= n < |email| && FirstAt(email, n) && UpTo(email[n + 1..], domain)
  }

  /** An enabled rule applies: by the address, or by the evidence for organizations or for teams. */
  predicate Applies(rule: Rule, email: string, evidence: Option<Evidence>) {
    rule.enabled && match rule.kind
                    case ExactEmail => email == rule.subject
                    case EmailDomain => InDomain(email, rule.subject)
                    case GithubOrg => evidence.Some? && rule.subject in evidence.value.orgs
                    case GithubTeam => evidence.Some? && rule.subject in evidence.value.teams
  }

  lemma {:induction false} UpToAtMeans(s: string, d: string)
    ensures UpTo(s, d) <==> d == UpToAt(s)
  {
    if s != "" && s[0] != '@' {
      if d != "" && d[0] == s[0] {
        UpToAtMeans(s[1..], d[1..]);
        assert d == [d[0]] + d[1..] && s == [s[0]] + s[1..];
        assert UpTo(s, d) <==> UpTo(s[1..], d[1..]) by { assert forall i :: 1 <= i < |d| ==> d[i] == d[1..][i - 1]; }
      }
    }
  }

  lemma {:induction false} DomainIs(email: string)
    ensures forall n: nat :: FirstAt(email, n) ==> Domain(email) == Some(UpToAt(email[n + 1..]))
    ensures Domain(email).Some? ==> exists n: nat :: FirstAt(email, n)
  {
    if email != "" {
      if email[0] == '@' {
        assert FirstAt(email, 0);
      } else {
        var rest := email[1..];
        DomainIs(rest);
        forall n: nat | FirstAt(email, n) ensures n > 0 && FirstAt(rest, n - 1) && rest[n..] == email[n + 1..] {}
        if n: nat :| FirstAt(rest, n) { assert FirstAt(email, n + 1); }
      }
    }
  }

  lemma DomainMeans(email: string, domain: string)
    ensures Domain(email) == Some(domain) <==> InDomain(email, domain)
  {
    hide UpTo, UpToAt;
    DomainIs(email);
    if n: nat :| FirstAt(email, n) {
      UpToAtMeans(email[n + 1..], domain);
    }
    if InDomain(email, domain) {
      var n :| 0 <= n < |email| && FirstAt(email, n) && UpTo(email[n + 1..], domain);
      UpToAtMeans(email[n + 1..], domain);
    }
  }

  /** A rule matches exactly when it applies, and is undecided exactly when evidence is missing; a disabled rule is neither. */
  lemma MatchMeans(rule: Rule, email: string, evidence: Option<Evidence>)
    ensures MatchOf(rule, email, evidence).Matches? <==> Applies(rule, email, evidence)
    ensures MatchOf(rule, email, evidence).Undecided? <==> rule.enabled && (rule.kind.GithubOrg? || rule.kind.GithubTeam?) && evidence.None?
  {
    hide Domain, InDomain;
    DomainMeans(email, rule.subject);
  }

  // ----- Assignments of distinct rules

  predicate Distinct(rules: seq<Rule>) {
    forall i, j :: 0 <= i < j < |rules| ==> rules[i].id != rules[j].id
  }

  lemma {:induction false} WriteNew(a: Assignments, id: string, e: Entry)
    requires Find(a, id).None?
    ensures Write(a, id, e) == a + [Assignment(id, e)]
  {
    if a != [] {
      WriteNew(a[1..], id, e);
      assert a == [a[0]] + a[1..];
    }
  }

  lemma {:induction false} FindAppend(a: Assignments, b: Assignment, id: string)
    ensures Find(a + [b], id) == if Find(a, id).Some? then Find(a, id) else if b.id == id then Some(b.entry) else None
  {
    if a == [] {
      assert [] + [b] == [b] && [b][1..] == [];
    } else {
      assert (a + [b])[1..] == a[1..] + [b];
      FindAppend(a[1..], b, id);
    }
  }

  lemma {:induction false} GroupsAppend(a: Assignments, b: Assignment)
    ensures GroupsOf(a + [b]) == GroupsOf(a) + b.entry.groups
  {
    if a == [] {
      assert [] + [b] == [b] && [b][1..] == [];
    } else {
      assert (a + [b])[1..] == a[1..] + [b];
      GroupsAppend(a[1..], b);
    }
  }

  /** Each rule holds exactly what it assigns, and nothing else is there. */
  lemma {:induction false} AssignedExactly(norm: Norm, rules: seq<Rule>, email: string, evidence: Option<Evidence>, previous: Assignments)
    requires Distinct(rules)
    ensures var a := AssignAll(norm, rules, email, evidence, previous);
            && (forall i :: 0 <= i < |rules| ==> Find(a, rules[i].id) == Assigned(norm, rules[i], email, evidence, previous))
            && (forall id :: (forall i :: 0 <= i < |rules| ==> rules[i].id != id) ==> Find(a, id).None?)
  {
    hide Assigned;
    if rules != [] {
      var n := |rules| - 1;
      var before := rules[..n];
      AssignedExactly(norm, before, email, evidence, previous);
      var a := AssignAll(norm, before, email, evidence, previous);
      var e := Assigned(norm, rules[n], email, evidence, previous);
      assert forall i :: 0 <= i < n ==> before[i] == rules[i];
      assert Find(a, rules[n].id).None?;
      if e.Some? {
        WriteNew(a, rules[n].id, e.value);
        forall id ensures Find(a + [Assignment(rules[n].id, e.value)], id) == if Find(a, id).Some? then Find(a, id) else if rules[n].id == id then e else None {
          FindAppend(a, Assignment(rules[n].id, e.value), id);
        }
      }
    }
  }

  /** A rule of the list assigns this group. */
  predicate ByRule(norm: Norm, rules: seq<Rule>, email: string, evidence: Option<Evidence>, previous: Assignments, g: string) {
    exists i :: 0 <= i < |rules| && Assigned(norm, rules[i], email, evidence, previous).Some?
                && g in Assigned(norm, rules[i], email, evidence, previous).value.groups
  }

  lemma {:induction false} AssignedGroups(norm: Norm, rules: seq<Rule>, email: string, evidence: Option<Evidence>, previous: Assignments, g: string)
    requires Distinct(rules)
    ensures g in GroupsOf(AssignAll(norm, rules, email, evidence, previous)) <==> ByRule(norm, rules, email, evidence, previous, g)
  {
    hide Assigned;
    if rules != [] {
      var n := |rules| - 1;
      var before := rules[..n];
      AssignedGroups(norm, before, email, evidence, previous, g);
      AssignedExactly(norm, before, email, evidence, previous);
      assert forall i :: 0 <= i < n ==> before[i] == rules[i];
      var a := AssignAll(norm, before, email, evidence, previous);
      var e := Assigned(norm, rules[n], email, evidence, previous);
      if e.Some? {
        WriteNew(a, rules[n].id, e.value);
        GroupsAppend(a, Assignment(rules[n].id, e.value));
      }
      if ByRule(norm, before, email, evidence, previous, g) {
        var i :| 0 <= i < n && Assigned(norm, before[i], email, evidence, previous).Some? && g in Assigned(norm, before[i], email, evidence, previous).value.groups;
        assert before[i] == rules[i];
      }
    }
  }

  lemma {:induction false} ManualMeans(previous: Assignments, groups: seq<string>)
    ensures forall g :: g in Manual(previous, groups) <==> g in groups && IsManual(previous, g)
  {
    hide IsManual;
    if groups != [] {
      var n := |groups| - 1;
      ManualMeans(previous, groups[..n]);
      assert groups == groups[..n] + [groups[n]];
    }
  }

  lemma CoversConcat(norm: Norm, a: seq<string>, b: seq<string>, g: string)
    ensures Covers(norm, a + b, g) <==> Covers(norm, a, g) || Covers(norm, b, g)
  {
    var c := a + b;
    if Covers(norm, c, g) {
      var i :| 0 <= i < |c| && norm(c[i]) == g;
      if i < |a| { assert norm(a[i]) == g; } else { assert norm(b[i - |a|]) == g; }
    }
    if Covers(norm, a, g) {
      var i :| 0 <= i < |a| && norm(a[i]) == g;
      assert norm(c[i]) == g;
    }
    if Covers(norm, b, g) {
      var i :| 0 <= i < |b| && norm(b[i]) == g;
      assert norm(c[|a| + i]) == g;
    }
  }

  /** A full evaluation leaves exactly the groups put by hand and the groups of matched or retained rules. */
  lemma ForcedGroups(norm: Norm, user: User, rules: seq<Rule>, evidence: Option<Evidence>, g: string)
    requires Distinct(rules)
    ensures var previous := Before(user).assignments;
            g in GroupsAfter(norm, user, rules, evidence) <==>
              g != "" && exists raw :: norm(raw) == g && ((raw in user.groups && IsManual(previous, raw)) || ByRule(norm, rules, user.email, evidence, previous, raw))
  {
    hide IsManual, ByRule;
    var previous := Before(user).assignments;
    var manual, byRules := Manual(previous, user.groups), GroupsOf(AssignAll(norm, rules, user.email, evidence, previous));
    NormalizeMeans(norm, manual + byRules);
    ManualMeans(previous, user.groups);
    forall raw ensures raw in byRules <==> ByRule(norm, rules, user.email, evidence, previous, raw) {
      AssignedGroups(norm, rules, user.email, evidence, previous, raw);
    }
    if g in GroupsAfter(norm, user, rules, evidence) {
      var i :| 0 <= i < |manual + byRules| && norm((manual + byRules)[i]) == g;
      var raw := (manual + byRules)[i];
      assert raw in manual || raw in byRules;
    }
    if raw :| g != "" && norm(raw) == g && ((raw in user.groups && IsManual(previous, raw)) || ByRule(norm, rules, user.email, evidence, previous, raw)) {
      assert raw in manual + byRules;
      var i :| 0 <= i < |manual + byRules| && (manual + byRules)[i] == raw;
      assert Covers(norm, manual + byRules, g);
    }
  }

  /** Without evidence no enabled GitHub rule loses what it assigned, unless that stood under the name of the prototype. */
  lemma MissingEvidenceKeeps(norm: Norm, rules: seq<Rule>, email: string, previous: Assignments, i: nat)
    requires Distinct(rules) && i < |rules| && rules[i].enabled && (rules[i].kind.GithubOrg? || rules[i].kind.GithubTeam?)
    ensures Find(AssignAll(norm, rules, email, None, previous), rules[i].id) == Find(previous, rules[i].id) <==>
              rules[i].id != PROTO || Find(previous, PROTO).None?
  {
    AssignedExactly(norm, rules, email, None, previous);
  }

  /** A group the rule names, or the one generated for its policies. */
  predicate Names(rule: Rule, raw: string) {
    raw in rule.groups || (rule.policies > 0 && raw == rule.generated)
  }

  /** The normal forms of what the rule names, in order, under its own flag. */
  ghost predicate IsEntryOf(norm: Norm, rule: Rule, e: Entry) {
    && e.revokeOnLoss == rule.revokeOnLoss && Sorted(e.groups)
    && forall g :: g in e.groups <==> g != "" && exists raw :: Names(rule, raw) && norm(raw) == g
  }

  lemma EntryMeans(norm: Norm, rule: Rule)
    ensures IsEntryOf(norm, rule, EntryOf(norm, rule))
  {
    hide Normalize;
    var raws := rule.groups + if rule.policies > 0 then [rule.generated] else [];
    NormalizeMeans(norm, raws);
    forall g ensures Covers(norm, raws, g) <==> g != "" && exists raw :: Names(rule, raw) && norm(raw) == g {
      if raw :| Names(rule, raw) && norm(raw) == g {
        assert raw in raws;
        var i :| 0 <= i < |raws| && raws[i] == raw;
        assert norm(raws[i]) == g;
      }
      if Covers(norm, raws, g) {
        var i :| 0 <= i < |raws| && norm(raws[i]) == g;
        assert raws[i] in raws && Names(rule, raws[i]);
      }
    }
  }

  /** What becomes of one rule: its own groups if it applies, what it assigned before if it may keep that, else nothing. */
  lemma RuleOutcome(norm: Norm, rules: seq<Rule>, email: string, evidence: Option<Evidence>, previous: Assignments, i: nat)
    requires Distinct(rules) && i < |rules| && rules[i].id != PROTO
    ensures var rule, e := rules[i], Find(AssignAll(norm, rules, email, evidence, previous), rules[i].id);
            if Applies(rule, email, evidence) then e.Some? && IsEntryOf(norm, rule, e.value)
            else if rule.enabled && (!rule.revokeOnLoss || ((rule.kind.GithubOrg? || rule.kind.GithubTeam?) && evidence.None?)) then e == Find(previous, rule.id)
            else e.None?
  {
    hide EntryOf, MatchOf, Applies, IsEntryOf, AssignAll;
    AssignedExactly(norm, rules, email, evidence, previous);
    MatchMeans(rules[i], email, evidence);
    EntryMeans(norm, rules[i]);
    DisabledIsDecided(rules[i], email, evidence);
  }

  lemma DisabledIsDecided(rule: Rule, email: string, evidence: Option<Evidence>)
    ensures Applies(rule, email, evidence) || MatchOf(rule, email, evidence).Undecided? ==> rule.enabled
  {
    hide Domain, InDomain;
  }

  // ----- Inherited names

  /** A rule that asks for what it assigned before, never assigned anything, and finds something inherited. */
  predicate Misled(rule: Rule, email: string, evidence: Option<Evidence>, previous: Assignments) {
    Retaining(rule, email, evidence) && Find(previous, rule.id).None? && Inherited(rule.id)
  }

  /** A rule that puts something inherited among the assignments. */
  predicate Borrows(rule: Rule, email: string, evidence: Option<Evidence>, previous: Assignments) {
    Misled(rule, email, evidence, previous) && rule.id != PROTO
  }

  predicate SomeBorrows(rules: seq<Rule>, email: string, evidence: Option<Evidence>, previous: Assignments) {
    exists i :: 0 <= i < |rules| && Borrows(rules[i], email, evidence, previous)
  }

  function OwnMembers(a: Assignments): seq<Member> {
    seq(|a|, i requires 0 <= i < |a| => Member(a[i].id, Own(a[i].entry)))
  }

  lemma {:induction false} WriteOwn(a: Assignments, id: string, e: Entry)
    ensures WriteMember(OwnMembers(a), id, Own(e)) == OwnMembers(Write(a, id, e))
  {
    if a != [] {
      assert OwnMembers(a)[1..] == OwnMembers(a[1..]);
      WriteOwn(a[1..], id, e);
    }
  }

  /** Without such rules the object holds exactly the assignments; its prototype is replaced by the last rule of that name. */
  lemma {:induction false} BuildIs(norm: Norm, rules: seq<Rule>, email: string, evidence: Option<Evidence>, previous: Assignments)
    requires !SomeBorrows(rules, email, evidence, previous)
    ensures var o := Build(norm, rules, email, evidence, previous);
            && o.members == OwnMembers(AssignAll(norm, rules, email, evidence, previous))
            && !Broken(o.members) && Entries(o.members) == AssignAll(norm, rules, email, evidence, previous)
  {
    hide Retaining, Inherited, EntryOf, MatchOf;
    if rules != [] {
      var n := |rules| - 1;
      var a := AssignAll(norm, rules[..n], email, evidence, previous);
      assert !Borrows(rules[n], email, evidence, previous);
      assert forall i :: 0 <= i < n ==> rules[..n][i] == rules[i];
      BuildIs(norm, rules[..n], email, evidence, previous);
      var e := Assigned(norm, rules[n], email, evidence, previous);
      if e.Some? { WriteOwn(a, rules[n].id, e.value); }
    }
  }

  lemma {:induction false} WriteKeeps(ms: seq<Member>, id: string, v: Value, other: string)
    ensures Member(id, v) in WriteMember(ms, id, v)
    ensures other != id && Member(other, Foreign) in ms ==> Member(other, Foreign) in WriteMember(ms, id, v)
  {
    if ms != [] && ms[0].id != id {
      WriteKeeps(ms[1..], id, v, other);
      assert ms == [ms[0]] + ms[1..];
    } else if ms != [] {
      assert ms == [ms[0]] + ms[1..];
    }
  }

  /** With distinct rules what one of them borrows stays. */
  lemma {:induction false} BorrowedStays(norm: Norm, rules: seq<Rule>, email: string, evidence: Option<Evidence>, previous: Assignments, i: nat)
    requires Distinct(rules) && i < |rules| && Borrows(rules[i], email, evidence, previous)
    ensures Member(rules[i].id, Foreign) in Build(norm, rules, email, evidence, previous).members
  {
    hide Inherited, EntryOf;
    var n := |rules| - 1;
    var before := Build(norm, rules[..n], email, evidence, previous).members;
    var v := Decided(norm, rules[n], email, evidence, previous);
    if i < n {
      assert rules[..n][i] == rules[i];
      BorrowedStays(norm, rules[..n], email, evidence, previous, i);
    }
    if v.Some? { WriteKeeps(before, rules[n].id, v.value, rules[i].id); }
  }

  /** An evaluation throws exactly when a rule borrows; otherwise it leaves what the laws here speak of. */
  lemma EvaluationReturns(norm: Norm, user: User, rules: seq<Rule>, legacyRevision: string, revision: string, evidence: Option<Evidence>, force: bool, now: string)
    requires Distinct(rules) && (force || !SameRevision(user, legacyRevision, revision))
    ensures EvaluatedUser(norm, user, rules, legacyRevision, revision, evidence, force, now) ==
              if SomeBorrows(rules, user.email, evidence, Before(user).assignments) then None
              else Some(UserAfter(norm, user, rules, legacyRevision, revision, evidence, now))
  {
    hide Build, Settled, AssignAll, Borrows;
    var previous := Before(user).assignments;
    if SomeBorrows(rules, user.email, evidence, previous) {
      var i :| 0 <= i < |rules| && Borrows(rules[i], user.email, evidence, previous);
      BorrowedStays(norm, rules, user.email, evidence, previous, i);
    } else {
      BuildIs(norm, rules, user.email, evidence, previous);
    }
  }

  /** A matched rule is kept exactly when its name is not that of the prototype; rules with ordinary names never borrow. */
  lemma MatchedIsKept(norm: Norm, rules: seq<Rule>, email: string, evidence: Option<Evidence>, previous: Assignments, i: nat)
    requires Distinct(rules) && i < |rules| && MatchOf(rules[i], email, evidence).Matches?
    ensures Find(AssignAll(norm, rules, email, evidence, previous), rules[i].id) == Some(EntryOf(norm, rules[i])) <==> rules[i].id != PROTO
    ensures !Inherited(rules[i].id) ==> !Borrows(rules[i], email, evidence, previous)
  {
    hide EntryOf, MatchOf;
    AssignedExactly(norm, rules, email, evidence, previous);
  }

  /** A matched rule under the name of the prototype: its groups are not in the result, and the object has another prototype. */
  lemma ProtoIsLost(norm: Norm, groups: seq<string>, now: string)
    ensures var rule := Rule(PROTO, true, ExactEmail, "a@b", groups, 0, "", false);
            var user := User("a@b", None, [], None);
            && MatchOf(rule, user.email, None).Matches?
            && EvaluatedUser(norm, user, [rule], "r", "r", None, true, now) == Some((true, User("a@b", Some("user"), [], Some(RuleState("r", [], now)))))
            && Build(norm, [rule], user.email, None, []) == Object([], Some(EntryOf(norm, rule)))
  {
    var rule := Rule(PROTO, true, ExactEmail, "a@b", groups, 0, "", false);
    assert [rule][..0] == [];
    assert Build(norm, [], "a@b", None, []) == Object([], None);
    assert Normalize(norm, []) == [] && Manual([], []) == [] && GroupsOf([]) == [];
  }

  /** A GitHub rule named like an inherited function, without evidence and without an earlier assignment: the evaluation throws. */
  lemma BorrowThrows(norm: Norm, subject: string, groups: seq<string>, user: User, now: string)
    requires user.state.None?
    ensures var rule := Rule("constructor", true, GithubOrg, subject, groups, 0, "", true);
            EvaluatedUser(norm, user, [rule], "r", "r", None, true, now).None?
  {
    var rule := Rule("constructor", true, GithubOrg, subject, groups, 0, "", true);
    assert Borrows(rule, user.email, None, []);
    assert [rule][0] == rule;
    EvaluationReturns(norm, user, [rule], "r", "r", None, true, now);
  }

  // ----- What is stored

  lemma {:induction false} DedupedSorted(s: seq<string>)
    requires Sorted(s)
    ensures Deduped(s) == s
  {
    if s != [] {
      var n := |s| - 1;
      DedupedSorted(s[..n]);
      if s[n] in s[..n] {
        var i :| 0 <= i < n && s[..n][i] == s[n];
        assert Below(s[i], s[n]);
        BelowOrders(s[n], s[n], s[n]);
      }
      assert s == s[..n] + [s[n]];
    }
  }

  lemma {:induction false} PlaceLast(s: seq<string>, g: string)
    requires forall i :: 0 <= i < |s| ==> Below(s[i], g)
    ensures Place(s, g) == s + [g]
  {
    if s != [] {
      BelowOrders(s[0], g, s[0]);
      PlaceLast(s[1..], g);
      assert s == [s[0]] + s[1..];
    }
  }

  lemma {:induction false} OrderedSorted(norm: Norm, s: seq<string>)
    requires Sorted(s) && forall i :: 0 <= i < |s| ==> norm(s[i]) == s[i] && s[i] != ""
    ensures Ordered(norm, s) == s
  {
    if s != [] {
      var n := |s| - 1;
      OrderedSorted(norm, s[..n]);
      PlaceLast(s[..n], s[n]);
      assert s == s[..n] + [s[n]];
    }
  }

  /** A changed user is stored as it was evaluated. */
  lemma StoredAsEvaluated(norm: Norm, user: User, rules: seq<Rule>, legacyRevision: string, revision: string, evidence: Option<Evidence>, force: bool, now: string)
    requires Idempotent(norm)
    requires var r := EvaluatedUser(norm, user, rules, legacyRevision, revision, evidence, force, now); r.Some? && r.value.0
    ensures var after := EvaluatedUser(norm, user, rules, legacyRevision, revision, evidence, force, now).value.1; Tidied(norm, after) == after
  {
    hide Normalize, Build, Entries, Ordered, Deduped;
    var members := Build(norm, rules, user.email, evidence, Before(user).assignments).members;
    var raw := Manual(Before(user).assignments, user.groups) + GroupsOf(Entries(members));
    NormalizeMeans(norm, raw);
    NormalizedIsStable(norm, raw);
    DedupedSorted(Normalize(norm, raw));
    assert forall i :: 0 <= i < |Normalize(norm, raw)| ==> Normalize(norm, raw)[i] in Normalize(norm, raw);
    OrderedSorted(norm, Normalize(norm, raw));
  }

  // ----- Evaluating again

  lemma {:induction false} SameAssigned(norm: Norm, rules: seq<Rule>, email: string, evidence: Option<Evidence>, a: Assignments, b: Assignments)
    requires forall i :: 0 <= i < |rules| ==> Assigned(norm, rules[i], email, evidence, a) == Assigned(norm, rules[i], email, evidence, b)
    ensures AssignAll(norm, rules, email, evidence, a) == AssignAll(norm, rules, email, evidence, b)
  {
    hide Assigned;
    if rules != [] {
      var n := |rules| - 1;
      assert forall i :: 0 <= i < n ==> rules[..n][i] == rules[i];
      SameAssigned(norm, rules[..n], email, evidence, a, b);
    }
  }

  lemma AssignAgain(norm: Norm, rules: seq<Rule>, email: string, evidence: Option<Evidence>, previous: Assignments)
    requires Distinct(rules)
    ensures var a := AssignAll(norm, rules, email, evidence, previous); AssignAll(norm, rules, email, evidence, a) == a
  {
    hide AssignAll, MatchOf;
    var a := AssignAll(norm, rules, email, evidence, previous);
    AssignedExactly(norm, rules, email, evidence, previous);
    SameAssigned(norm, rules, email, evidence, previous, a);
  }

  /** A group kept as put by hand that normalizes to a reserved one no rule assigns. */
  predicate Stray(norm: Norm, user: User, rules: seq<Rule>, evidence: Option<Evidence>) {
    var previous := Before(user).assignments;
    exists i :: 0 <= i < |user.groups| && IsManual(previous, user.groups[i]) && Reserved(norm(user.groups[i]))
                && norm(user.groups[i]) !in Normalize(norm, GroupsOf(AssignAll(norm, rules, user.email, evidence, previous)))
  }

  /** Evaluating the result again, with the same rules and evidence, reports a change exactly when there is a stray group. */
  lemma EvaluateAgain(norm: Norm, user: User, rules: seq<Rule>, legacyRevision: string, revision: string, evidence: Option<Evidence>, now: string, later: string)
    requires Idempotent(norm) && Distinct(rules)
    requires UserAfter(norm, user, rules, legacyRevision, revision, evidence, now).0
    ensures var after := UserAfter(norm, user, rules, legacyRevision, revision, evidence, now).1;
            UserAfter(norm, after, rules, legacyRevision, revision, evidence, later).0 <==> Stray(norm, user, rules, evidence)
  {
    hide AssignAll, Normalize, Manual, GroupsOf, Stray, Idempotent;
    var previous := Before(user).assignments;
    var a := AssignAll(norm, rules, user.email, evidence, previous);
    var groups := GroupsAfter(norm, user, rules, evidence);
    AssignAgain(norm, rules, user.email, evidence, previous);
    NormalizedIsStable(norm, Manual(previous, user.groups) + GroupsOf(a));
    GroupsAgain(norm, user, rules, evidence);
  }

  /** A group of the first evaluation that only a stray group accounts for. */
  predicate Lost(norm: Norm, first: seq<string>, byRules: seq<string>, g: string) {
    Covers(norm, first, g) && !Covers(norm, byRules, g) && Reserved(g)
  }

  lemma StrayIsLost(norm: Norm, user: User, rules: seq<Rule>, evidence: Option<Evidence>) returns (g: string)
    requires Stray(norm, user, rules, evidence)
    ensures var previous := Before(user).assignments;
            Lost(norm, Manual(previous, user.groups), GroupsOf(AssignAll(norm, rules, user.email, evidence, previous)), g)
  {
    hide AssignAll, GroupsOf, IsManual;
    var previous := Before(user).assignments;
    var first, byRules := Manual(previous, user.groups), GroupsOf(AssignAll(norm, rules, user.email, evidence, previous));
    var i :| 0 <= i < |user.groups| && IsManual(previous, user.groups[i]) && Reserved(norm(user.groups[i])) && norm(user.groups[i]) !in Normalize(norm, byRules);
    g := norm(user.groups[i]);
    NormalizeMeans(norm, byRules);
    ManualMeans(previous, user.groups);
    assert user.groups[i] in first;
    var j :| 0 <= j < |first| && first[j] == user.groups[i];
    assert Covers(norm, first, g);
  }

  lemma LostIsStray(norm: Norm, user: User, rules: seq<Rule>, evidence: Option<Evidence>, g: string)
    requires var previous := Before(user).assignments;
             Lost(norm, Manual(previous, user.groups), GroupsOf(AssignAll(norm, rules, user.email, evidence, previous)), g)
    ensures Stray(norm, user, rules, evidence)
  {
    hide AssignAll, GroupsOf, IsManual;
    var previous := Before(user).assignments;
    var first, byRules := Manual(previous, user.groups), GroupsOf(AssignAll(norm, rules, user.email, evidence, previous));
    NormalizeMeans(norm, byRules);
    ManualMeans(previous, user.groups);
    var j :| 0 <= j < |first| && norm(first[j]) == g;
    assert first[j] in first && first[j] in user.groups;
    var i :| 0 <= i < |user.groups| && user.groups[i] == first[j];
    assert IsManual(previous, user.groups[i]) && norm(user.groups[i]) == g;
  }

  lemma KeptByHand(norm: Norm, a: Assignments, groups: seq<string>, g: string)
    requires forall x :: x in groups ==> norm(x) == x && x != ""
    ensures Covers(norm, Manual(a, groups), g) <==> g in groups && IsManual(a, g)
  {
    hide IsManual;
    ManualMeans(a, groups);
    var kept := Manual(a, groups);
    if Covers(norm, kept, g) {
      var i :| 0 <= i < |kept| && norm(kept[i]) == g;
      assert kept[i] in kept;
    }
    if g in groups && IsManual(a, g) {
      assert g in kept;
      var i :| 0 <= i < |kept| && kept[i] == g;
      assert norm(kept[i]) == g;
    }
  }

  /** A second evaluation loses exactly the lost groups. */
  lemma AgainMeans(norm: Norm, a: Assignments, first: seq<string>, g: string)
    requires Idempotent(norm)
    ensures var groups := Normalize(norm, first + GroupsOf(a));
            g in Normalize(norm, Manual(a, groups) + GroupsOf(a)) <==> g in groups && !Lost(norm, first, GroupsOf(a), g)
  {
    hide GroupsOf, Normalize, Manual, Idempotent;
    var byRules := GroupsOf(a);
    var groups := Normalize(norm, first + byRules);
    NormalizedIsStable(norm, first + byRules);
    NormalizeMeans(norm, first + byRules);
    NormalizeMeans(norm, Manual(a, groups) + byRules);
    CoversConcat(norm, first, byRules, g);
    CoversConcat(norm, Manual(a, groups), byRules, g);
    KeptByHand(norm, a, groups, g);
    if g in groups && g in byRules {
      var i :| 0 <= i < |byRules| && byRules[i] == g;
      assert norm(byRules[i]) == g;
    }
  }

  /** The groups of a second evaluation are those of the first, unless there is a stray one. */
  lemma GroupsAgain(norm: Norm, user: User, rules: seq<Rule>, evidence: Option<Evidence>)
    requires Idempotent(norm)
    ensures var previous := Before(user).assignments;
            var a := AssignAll(norm, rules, user.email, evidence, previous);
            var groups := GroupsAfter(norm, user, rules, evidence);
            Normalize(norm, Manual(a, groups) + GroupsOf(a)) != groups <==> Stray(norm, user, rules, evidence)
  {
    hide AssignAll, Idempotent, Manual, GroupsOf, Normalize, Stray, Lost;
    var previous := Before(user).assignments;
    var a := AssignAll(norm, rules, user.email, evidence, previous);
    var first := Manual(previous, user.groups);
    var groups := Normalize(norm, first + GroupsOf(a));
    var again := Normalize(norm, Manual(a, groups) + GroupsOf(a));
    forall g ensures g in again <==> g in groups && !Lost(norm, first, GroupsOf(a), g) {
      AgainMeans(norm, a, first, g);
    }
    NormalizeMeans(norm, first + GroupsOf(a));
    NormalizeMeans(norm, Manual(a, groups) + GroupsOf(a));
    if Stray(norm, user, rules, evidence) {
      var g := StrayIsLost(norm, user, rules, evidence);
      assert g in groups by { LostWasThere(norm, first, GroupsOf(a), g); }
      assert g !in again;
    } else {
      forall g ensures g in groups <==> g in again {
        if Lost(norm, first, GroupsOf(a), g) { LostIsStray(norm, user, rules, evidence, g); }
      }
      SortedUnique(groups, again);
    }
  }

  lemma LostWasThere(norm: Norm, first: seq<string>, byRules: seq<string>, g: string)
    requires Lost(norm, first, byRules, g)
    ensures g in Normalize(norm, first + byRules)
  {
    NormalizeMeans(norm, first + byRules);
    CoversConcat(norm, first, byRules, g);
  }

  /** Users in normal form have no stray groups. */
  lemma NormalUsersSettle(norm: Norm, user: User, rules: seq<Rule>, evidence: Option<Evidence>)
    requires forall i :: 0 <= i < |user.groups| ==> norm(user.groups[i]) == user.groups[i]
    ensures !Stray(norm, user, rules, evidence)
  {
    hide AssignAll, Normalize, GroupsOf;
  }

  /** A user whose group is only reserved once normalized: the second evaluation reports a change. */
  lemma StrayExists(norm: Norm, revision: string, now: string, later: string)
    requires Idempotent(norm) && norm("Assignment.x") == "assignment.x"
    ensures var user := User("", None, ["Assignment.x"], None);
            var first := UserAfter(norm, user, [], revision, revision, None, now);
            revision != "" ==> Stray(norm, user, [], None) && first.0 && UserAfter(norm, first.1, [], revision, revision, None, later).0
  {
    var user := User("", None, ["Assignment.x"], None);
    StrayUser(norm);
    if revision != "" {
      assert !SameRevision(user, revision, revision);
      EvaluateAgain(norm, user, [], revision, revision, None, now, later);
    }
  }

  lemma StrayUser(norm: Norm)
    requires norm("Assignment.x") == "assignment.x"
    ensures Stray(norm, User("", None, ["Assignment.x"], None), [], None)
  {
    var user := User("", None, ["Assignment.x"], None);
    assert Before(user).assignments == [] && user.groups[0] == "Assignment.x";
    assert Normalize(norm, []) == [];
    assert IsManual([], "Assignment.x") by { assert "Assignment.x"[0] != "assignment."[0]; }
    assert Reserved("assignment.x") by { assert "assignment.x"[..11] == "assignment."; }
  }
}

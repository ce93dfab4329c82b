/**
 The plans as the program runs them: `assignmentSequencePlan` and `assignmentMapPlan` of `worker/assignment-source.ts`, and the
 loops of `planAssignmentEvaluation` in `worker/assignment-evaluator.ts` that feed them.

 A normalized string is given by its text; how lower-casing finds it, scalar by scalar, is not modelled.
 */
module PlanMeter {
  import opened Basics
  import opened JsonText
  import opened JsonMeter
  import opened Meter
  import opened AssignmentEvaluator
  import opened AssignmentLaws
  import opened Plans
  import opened AssignmentPlans

  /** The counters once a bracket pair is open. */
  function Opening(c: Counts): Counts {
    c.Value().Container().Add(2, 2)
  }

  /** The program counts the brackets before the value and the container. */
  lemma OpeningOrder(c: Counts)
    ensures c.Add(2, 2).Value().Container() == Opening(c)
  {}

  lemma OpeningIsSmall(c: Counts)
    requires c.text <= 8 && c.bytes <= 8 && c.values <= 8 && c.containers <= 8 && c.members <= 8 && c.entries <= 8 && c.units <= 8
    ensures Opening(c).Within(SOURCE_LIMIT) && Opening(c).entries == c.entries
  {}

  // ----- Lists

  lemma EntryGrows(v: Js, first: bool, c: Counts)
    requires Plain(v)
    ensures c.Entry().AtMost(CommaCost(first, c.Entry())) && CommaCost(first, c.Entry()).AtMost(EntryCost(v, first, c))
  {
    hide Cost, ItemText;
    ItemIsText(v, CommaCost(first, c.Entry()));
  }

  /** The entry counter tells the first entry from the others. */
  lemma FirstEntry(vs: seq<Js>, c: Counts)
    requires AllPlain(vs) && c.entries == 0
    ensures ListCost(vs, true, c).entries > 0 <==> vs != []
  {
    hide ListCost, EntryCost;
    ListStep(vs, true, c);
    if vs != [] {
      EntryGrows(vs[0], true, c);
      ListGrows(vs[1..], false, EntryCost(vs[0], true, c));
    }
  }

  class SequencePlan {
    const meter: JsonCounter
    ghost const base: Counts
    ghost const start: Counts
    ghost var planned: seq<Js>

    ghost predicate Valid()
      reads this, meter
    {
      && AllPlain(planned) && meter.maximum == SOURCE_LIMIT
      && meter.counts == ListCost(planned, true, start) && meter.counts.Within(SOURCE_LIMIT) && start.entries == 0
      && forall i :: 0 <= i < |planned| ==> Local(planned[i], 1)
    }

    constructor ()
      ensures Valid() && planned == [] && fresh(meter) && start == Opening(base) && base == ZERO
    {
      hide Opening, ListCost, Counts.Add, Counts.Value, Counts.Container, Counts.Within;
      meter := new JsonCounter(SOURCE_LIMIT);
      base, start, planned := ZERO, Opening(ZERO), [];
      new;
      OpeningOrder(ZERO);
      OpeningIsSmall(ZERO);
      ListStep([], true, start);
      var e := meter.Add(2, 2);
      meter.counts := meter.counts.Value().Container();
    }

    /** The counting in front of every occurrence. */
    method Entry() returns (e: Status)
      requires Valid()
      modifies meter
      ensures var c := CommaCost(planned == [], old(meter.counts).Entry());
              if e == Fine then meter.counts == c && c.Within(SOURCE_LIMIT) else e == Limit && !c.Within(SOURCE_LIMIT)
    {
      hide ListCost;
      FirstEntry(planned, start);
      meter.counts := meter.counts.Entry();
      if meter.counts.entries + meter.counts.members > 32768 { return Limit; }
      e := Fine;
      if meter.counts.entries > 1 { e := meter.Add(1, 1); }
    }

    /** One occurrence: refused exactly when the list of all occurrences would be. */
    method AddItem(v: Js) returns (e: Status)
      requires Valid() && Typed(v)
      modifies this, meter
      ensures Plain(v) ==> (e == Fine <==> Local(v, 1) && AllPlain(old(planned) + [v]) && ListCost(old(planned) + [v], true, start).Within(SOURCE_LIMIT))
      ensures e == Fine ==> Valid() && planned == old(planned) + [v]
    {
      hide ListCost, Cost, Local, Plain, Typed;
      ghost var c := meter.counts;
      if Plain(v) {
        ListAppend(planned, v, true, start);
        EntryGrows(v, planned == [], c);
      }
      e := Entry();
      if e != Fine { return; }
      e := meter.MeterItem(v, 1);
      if e == Fine { planned := planned + [v]; }
    }

    /** One normalized string. */
    method Normalized(text: Text) returns (e: Status)
      requires Valid() && Narrow(text)
      modifies this, meter
      ensures e == Fine <==> |text| <= COMPLETE_LIMIT && AllPlain(old(planned) + [Str(text)]) && ListCost(old(planned) + [Str(text)], true, start).Within(SOURCE_LIMIT)
      ensures e == Fine ==> Valid() && planned == old(planned) + [Str(text)]
    {
      hide ListCost, StringCost;
      ghost var c := meter.counts;
      ListAppend(planned, Str(text), true, start);
      EntryGrows(Str(text), planned == [], c);
      e := Entry();
      if e != Fine { return; }
      TextGrows(text, meter.counts.Value());
      meter.counts := meter.counts.Value();
      if meter.counts.values > 65536 { return Limit; }
      e := meter.MeterString(text, false);
      if e == Fine { planned := planned + [Str(text)]; }
    }

    /** All of some groups, normalized. */
    method NormalizedAll(units: Encoding, norm: Norm, gs: seq<string>) returns (e: Status)
      requires Valid() && Encodes(units)
      modifies this, meter
      ensures e == Fine ==> Valid() && planned == old(planned) + Strings(units, Normals(norm, gs))
    {
      hide ListCost;
      assert planned + Strings(units, Normals(norm, gs[..0])) == planned;
      for k := 0 to |gs|
        invariant Valid() && planned == old(planned) + Strings(units, Normals(norm, gs[..k]))
      {
        e := Normalized(units(norm(gs[k])));
        if e != Fine { return; }
        assert Strings(units, Normals(norm, gs[..k + 1])) == Strings(units, Normals(norm, gs[..k])) + [Str(units(norm(gs[k])))];
      }
      assert gs[..|gs|] == gs;
      e := Fine;
    }
  }

  // ----- Maps

  /** The counters on the way through one matched rule: key, object, key of the groups, list, groups, key of the flag, flag. */
  function MatchedCost(key: Text, groups: seq<Js>, revoke: bool, first: bool, c: Counts): Counts
    requires AllPlain(groups)
  {
    var atGroups := StringCost(GROUPS, Opening(StringCost(key, CommaCost(first, c.Member())).Add(1, 1)).Member()).Add(1, 1);
    FieldCost(REVOKE, Bool(revoke), false, ListCost(groups, true, Opening(atGroups)))
  }

  class MapPlan {
    const meter: JsonCounter
    ghost const base: Counts
    ghost const start: Counts
    var count: nat
    ghost var planned: seq<Named>

    ghost predicate Valid()
      reads this, meter
    {
      && AllNamed(planned) && meter.maximum == SOURCE_LIMIT && count == |planned|
      && meter.counts == MapCost(planned, true, start) && meter.counts.Within(SOURCE_LIMIT)
      && forall i :: 0 <= i < |planned| ==> |planned[i].key| <= 1024 && Local(planned[i].js, 1)
    }

    constructor ()
      ensures Valid() && planned == [] && fresh(meter) && start == Opening(base) && base == ZERO
    {
      hide Opening, MapCost, Counts.Add, Counts.Value, Counts.Container, Counts.Within;
      meter := new JsonCounter(SOURCE_LIMIT);
      base, start, planned, count := ZERO, Opening(ZERO), [], 0;
      new;
      OpeningOrder(ZERO);
      OpeningIsSmall(ZERO);
      MapStep([], true, start);
      var e := meter.Add(2, 2);
      meter.counts := meter.counts.Value().Container();
    }

    method Member(name: Text) returns (e: Status)
      requires meter.maximum == SOURCE_LIMIT && meter.counts.Within(SOURCE_LIMIT)
      modifies meter
      ensures var c := StringCost(name, old(meter.counts).Member()).Add(1, 1);
              if e == Fine then |name| <= 1024 && meter.counts == c && c.Within(SOURCE_LIMIT) else e == Limit && (|name| > 1024 || !c.Within(SOURCE_LIMIT))
    {
      hide StringCost;
      TextGrows(name, meter.counts.Member());
      meter.counts := meter.counts.Member();
      if meter.counts.members + meter.counts.entries > 32768 { return Limit; }
      e := meter.MeterString(name, true);
      if e != Fine { return; }
      e := meter.Add(1, 1);
    }

    method Begin(id: Text) returns (e: Status)
      requires Valid()
      modifies this`count, meter
      ensures count == old(count) + 1
      ensures var c := StringCost(id, CommaCost(planned == [], old(meter.counts).Member())).Add(1, 1);
              if e == Fine then |id| <= 1024 && meter.counts == c && c.Within(SOURCE_LIMIT) else e == Limit && (|id| > 1024 || !c.Within(SOURCE_LIMIT))
    {
      hide StringCost, MapCost;
      ghost var c1 := CommaCost(planned == [], meter.counts.Member());
      TextGrows(id, c1);
      count := count + 1;
      if count > 1 {
        e := meter.Add(1, 1);
        if e != Fine { return; }
        assert meter.counts.Member() == c1;
      }
      e := Member(id);
    }

    method Container() returns (e: Status)
      requires meter.maximum == SOURCE_LIMIT && meter.counts.Within(SOURCE_LIMIT)
      modifies meter
      ensures var c := Opening(old(meter.counts));
              if e == Fine then meter.counts == c && c.Within(SOURCE_LIMIT) else e == Limit && !c.Within(SOURCE_LIMIT)
    {
      meter.counts := meter.counts.Value();
      if meter.counts.values > 65536 { return Limit; }
      meter.counts := meter.counts.Container();
      if meter.counts.containers > 16384 { return Limit; }
      e := meter.Add(2, 2);
    }

    /** One retained entry: refused exactly when the map of all occurrences would be. */
    method Retained(id: Text, entry: Js) returns (e: Status)
      requires Valid() && Narrow(id) && Typed(entry) && !entry.Omitted?
      modifies this, meter
      ensures e == Fine ==> Valid() && planned == old(planned) + [Named(id, entry)]
      ensures Plain(entry) ==>
                (e == Fine <==> |id| <= 1024 && Local(entry, 1) && AllNamed(old(planned) + [Named(id, entry)])
                                && MapCost(old(planned) + [Named(id, entry)], true, start).Within(SOURCE_LIMIT))
    {
      hide MapCost, StringCost, Cost, Local, Plain, Typed;
      ghost var first, c := planned == [], meter.counts;
      if Plain(entry) {
        assert [Named(id, entry)][0] == Named(id, entry);
        MapAppend(planned, Named(id, entry), true, start);
        ItemIsText(entry, StringCost(id, CommaCost(first, c.Member())).Add(1, 1));
      }
      e := Begin(id);
      if e != Fine { return; }
      e := meter.MeterItem(entry, 1);
      if e == Fine { planned := planned + [Named(id, entry)]; }
    }

    /** A retained entry that is something inherited: it is metered, the prototype as an empty object and
        a function as nothing, and then its groups cannot be read. */
    method Borrowed(id: Text, found: Js) returns (e: Status)
      requires Valid() && Typed(found)
      modifies this, meter
    {
      e := Begin(id);
      if e == Fine { e := meter.MeterItem(found, 1); }
    }

    /** One group of a matched rule. */
    method Group(text: Text, first: bool) returns (e: Status)
      requires meter.maximum == SOURCE_LIMIT && meter.counts.Within(SOURCE_LIMIT) && Narrow(text)
      modifies meter
      ensures var c := EntryCost(Str(text), first, old(meter.counts));
              if e == Fine then |text| <= COMPLETE_LIMIT && meter.counts == c && c.Within(SOURCE_LIMIT) else e == Limit && (|text| > COMPLETE_LIMIT || !c.Within(SOURCE_LIMIT))
    {
      hide StringCost;
      ghost var c := meter.counts;
      EntryGrows(Str(text), first, c);
      ghost var c1 := CommaCost(first, c.Entry()).Value();
      TextGrows(text, c1);
      meter.counts := meter.counts.Entry();
      if meter.counts.entries + meter.counts.members > 32768 { return Limit; }
      meter.counts := meter.counts.Value();
      if meter.counts.values > 65536 { return Limit; }
      if !first {
        e := meter.Add(1, 1);
        if e != Fine { return; }
      }
      assert meter.counts == c1;
      e := meter.MeterString(text, false);
    }

    /** All groups of a matched rule. */
    method Groups(units: Encoding, groups: seq<string>) returns (e: Status)
      requires meter.maximum == SOURCE_LIMIT && meter.counts.Within(SOURCE_LIMIT) && Encodes(units)
      modifies meter
      ensures AllPlain(Strings(units, groups))
      ensures var c := ListCost(Strings(units, groups), true, old(meter.counts));
              if e == Fine then ShortGroups(units, groups) && meter.counts == c && c.Within(SOURCE_LIMIT)
              else e == Limit && (!ShortGroups(units, groups) || !c.Within(SOURCE_LIMIT))
    {
      hide ListCost, EntryCost, StringCost;
      ghost var c := meter.counts;
      ghost var all := Strings(units, groups);
      StringsPlain(units, groups);
      ListStep([], true, c);
      assert Strings(units, groups[..0]) == [];
      for k := 0 to |groups|
        invariant meter.maximum == SOURCE_LIMIT && meter.counts.Within(SOURCE_LIMIT)
        invariant AllPlain(Strings(units, groups[..k])) && meter.counts == ListCost(Strings(units, groups[..k]), true, c)
        invariant forall i :: 0 <= i < k ==> |units(groups[i])| <= COMPLETE_LIMIT
      {
        ghost var before := Strings(units, groups[..k]);
        assert Strings(units, groups[..k + 1]) == before + [Str(units(groups[k]))] == all[..k + 1];
        StringsPlain(units, groups[..k + 1]);
        ListAppend(before, Str(units(groups[k])), true, c);
        PrefixBound(all, k + 1, c);
        e := Group(units(groups[k]), k == 0);
        if e != Fine { return; }
      }
      assert groups[..|groups|] == groups;
      e := Fine;
    }

    /** One matched rule: refused exactly when the map of all occurrences would be. */
    method Matched(units: Encoding, id: string, groups: seq<string>, revoke: bool) returns (e: Status)
      requires Valid() && Encodes(units)
      modifies this, meter
      ensures e == Fine ==> Valid() && planned == old(planned) + [AssignmentField(units, id, groups, revoke)]
      ensures e == Fine <==> |units(id)| <= 1024 && ShortGroups(units, groups) && AllNamed(old(planned) + [AssignmentField(units, id, groups, revoke)])
                             && MapCost(old(planned) + [AssignmentField(units, id, groups, revoke)], true, start).Within(SOURCE_LIMIT)
    {
      hide MapCost, StringCost, Strings, EntryJs, ListCost, Opening, FieldCost, ShortGroups, Encodes, Plain, Local;
      ghost var f := AssignmentField(units, id, groups, revoke);
      ghost var first, c := planned == [], meter.counts;
      FieldNamed(units, id, groups, revoke);
      MapAppend(planned, f, true, start);
      MatchedIs(units, id, groups, revoke, first, c);
      MatchedChain(units(id), Strings(units, groups), revoke, first, c);
      e := Begin(units(id));
      if e != Fine { return; }
      e := Container();
      if e != Fine { return; }
      e := Member(GROUPS);
      if e != Fine { return; }
      e := Container();
      if e != Fine { return; }
      e := Groups(units, groups);
      if e != Fine { return; }
      e := meter.Add(1, 1);
      if e != Fine { return; }
      e := Member(REVOKE);
      if e != Fine { return; }
      e := meter.MeterItem(Bool(revoke), 2);
      if e == Fine { planned := planned + [f]; }
    }
  }

  lemma FieldNamed(units: Encoding, id: string, groups: seq<string>, revoke: bool)
    requires Encodes(units)
    ensures AllNamed([AssignmentField(units, id, groups, revoke)]) && AllPlain(Strings(units, groups))
    ensures Plain(EntryJs(units, groups, revoke)) && (Local(EntryJs(units, groups, revoke), 1) <==> ShortGroups(units, groups))
    ensures Typed(Bool(revoke)) && Plain(Bool(revoke)) && Local(Bool(revoke), 2) && |GROUPS| <= 1024 && |REVOKE| <= 1024
  {
    hide EntryJs, Strings;
    StringsPlain(units, groups);
    EntryPlain(units, groups, revoke);
    EntryLocal(units, Entry(groups, revoke), 1);
    NotOmitted(units, Entry(groups, revoke));
  }

  lemma PrefixBound(vs: seq<Js>, k: nat, c: Counts)
    requires AllPlain(vs) && k <= |vs|
    ensures AllPlain(vs[..k]) && ListCost(vs[..k], true, c).AtMost(ListCost(vs, true, c))
  {
    hide ListCost, Plain;
    assert vs == vs[..k] + vs[k..];
    assert multiset(vs) == multiset(vs[..k]) + multiset(vs[k..]);
    ListBound(vs[..k], vs, true, c);
  }

  /** The member of a matched rule costs what the plan counts for it. */
  lemma MatchedIs(units: Encoding, id: string, groups: seq<string>, revoke: bool, first: bool, c: Counts)
    requires Encodes(units)
    ensures AllPlain(Strings(units, groups)) && Plain(EntryJs(units, groups, revoke))
    ensures FieldCost(units(id), EntryJs(units, groups, revoke), first, c) == MatchedCost(units(id), Strings(units, groups), revoke, first, c)
  {
    hide Cost, StringCost, ListCost, Strings, EntryJs;
    EntryCostIs(units, groups, revoke, StringCost(units(id), CommaCost(first, c.Member())).Add(1, 1));
  }

  /** On the way through a matched rule no counter falls. */
  lemma MatchedChain(key: Text, groups: seq<Js>, revoke: bool, first: bool, c: Counts)
    requires AllPlain(groups)
    ensures var c1 := StringCost(key, CommaCost(first, c.Member())).Add(1, 1);
            var c2 := StringCost(GROUPS, Opening(c1).Member()).Add(1, 1);
            var c3 := ListCost(groups, true, Opening(c2));
            var c4 := StringCost(REVOKE, c3.Add(1, 1).Member()).Add(1, 1);
            && c1.AtMost(Opening(c1)) && Opening(c1).AtMost(c2) && c2.AtMost(Opening(c2)) && Opening(c2).AtMost(c3)
            && c3.Add(1, 1).AtMost(c4) && c4.AtMost(Cost(Bool(revoke), c4))
            && Cost(Bool(revoke), c4) == MatchedCost(key, groups, revoke, first, c)
  {
    hide StringCost, ListCost;
    var c1 := StringCost(key, CommaCost(first, c.Member())).Add(1, 1);
    var c2 := StringCost(GROUPS, Opening(c1).Member()).Add(1, 1);
    var c3 := ListCost(groups, true, Opening(c2));
    TextGrows(GROUPS, Opening(c1).Member());
    ListGrows(groups, true, Opening(c2));
    TextGrows(REVOKE, c3.Add(1, 1).Member());
    assert CommaCost(false, c3.Member()) == c3.Add(1, 1).Member();
  }

  // ----- The plan of an evaluation

  lemma PlannedListFits(units: Encoding, gs: seq<string>, c: Counts, maximum: nat)
    requires Encodes(units) && AllPlain(Strings(units, gs)) && ListCost(Strings(units, gs), true, Opening(c)).Within(maximum)
    requires forall i :: 0 <= i < |Strings(units, gs)| ==> Local(Strings(units, gs)[i], 1)
    ensures Plain(ListJs(units, gs)) && Admits(ListJs(units, gs), 0, c, maximum)
  {
    hide ListCost, Cost, ListJs;
    ListJsCost(units, gs, c);
    forall g | g in gs ensures |units(g)| <= COMPLETE_LIMIT {
      var i :| 0 <= i < |gs| && gs[i] == g;
      assert Local(Strings(units, gs)[i], 1);
    }
  }

  lemma PlannedMapFits(units: Encoding, a: Assignments, c: Counts, maximum: nat)
    requires Encodes(units) && AllNamed(Serialized(units, a)) && MapCost(Serialized(units, a), true, Opening(c)).Within(maximum)
    requires forall i :: 0 <= i < |Serialized(units, a)| ==> |Serialized(units, a)[i].key| <= 1024 && Local(Serialized(units, a)[i].js, 1)
    ensures Plain(MapJs(units, a)) && Admits(MapJs(units, a), 0, c, maximum)
  {
    hide MapCost, Cost, MapJs, EntryJs, Local, Plain;
    MapJsCost(units, a, c);
    forall i | 0 <= i < |a| ensures |units(a[i].id)| <= 1024 && forall g :: g in a[i].entry.groups ==> |units(g)| <= COMPLETE_LIMIT {
      assert Serialized(units, a)[i] == AssignmentField(units, a[i].id, a[i].entry.groups, a[i].entry.revokeOnLoss);
      EntryLocal(units, a[i].entry, 1);
    }
  }

  lemma EntryTyped(units: Encoding, e: Entry)
    requires Encodes(units)
    ensures Typed(EntryJs(units, e.groups, e.revokeOnLoss)) && Plain(EntryJs(units, e.groups, e.revokeOnLoss)) && !EntryJs(units, e.groups, e.revokeOnLoss).Omitted?
  {
    hide Strings;
    EntryPlain(units, e.groups, e.revokeOnLoss);
    StringsPlain(units, e.groups);
    StringsTyped(units, e.groups);
    var last := Field(REVOKE, Data(Bool(e.revokeOnLoss)), NoField);
    assert TypedFields(last);
    assert Typed(Arr(ItemsOf(Strings(units, e.groups))));
    assert TypedFields(Field(GROUPS, Data(Arr(ItemsOf(Strings(units, e.groups)))), last));
  }

  lemma {:induction false} StringsTyped(units: Encoding, gs: seq<string>)
    requires Encodes(units)
    ensures TypedItems(ItemsOf(Strings(units, gs)))
  {
    if gs != [] {
      assert Strings(units, gs)[1..] == Strings(units, gs[1..]);
      StringsTyped(units, gs[1..]);
    }
  }

  /** The object as the meter sees it: with another prototype it is not a plain one. */
  function ObjectJs(units: Encoding, o: Object): Js
    requires !Broken(o.members)
  {
    if o.prototype.Some? then Js.Foreign else MapJs(units, Entries(o.members))
  }

  /** What two plans that pass, from the counters `c`, tell of the evaluation: it does not throw, its groups are admitted, and so are its assignments
      unless a rule has replaced the prototype of their object. */
  ghost predicate Suffices(norm: Norm, units: Encoding, user: User, rules: seq<Rule>, evidence: Option<Evidence>, c: Counts) {
    var previous := Before(user).assignments;
    var o := Build(norm, rules, user.email, evidence, previous);
    var groups := ListJs(units, GroupsAfter(norm, user, rules, evidence));
    && !Broken(o.members) && Entries(o.members) == AssignAll(norm, rules, user.email, evidence, previous)
    && Plain(groups) && Admits(groups, 0, c, SOURCE_LIMIT)
    && (Plain(ObjectJs(units, o)) <==> !Replaces(rules, user.email, evidence, previous))
    && (Plain(ObjectJs(units, o)) ==> Admits(ObjectJs(units, o), 0, c, SOURCE_LIMIT))
  }

  /** A rule puts an entry in the place of the prototype. */
  predicate Replaces(rules: seq<Rule>, email: string, evidence: Option<Evidence>, previous: Assignments) {
    exists i :: 0 <= i < |rules| && rules[i].id == PROTO && (MatchOf(rules[i], email, evidence).Matches? || Kept(rules[i], email, evidence, previous).Some?)
  }

  predicate SomeMisled(rules: seq<Rule>, email: string, evidence: Option<Evidence>, previous: Assignments) {
    exists i :: 0 <= i < |rules| && Misled(rules[i], email, evidence, previous)
  }

  /** The prospective map and list of groups are metered occurrence by occurrence; something inherited has no groups, so that
      the plan throws. If both plans pass, they suffice. */
  method PlanEvaluation(norm: Norm, units: Encoding, user: User, rules: seq<Rule>, evidence: Option<Evidence>) returns (e: Status, thrown: bool)
    requires Encodes(units) && Idempotent(norm)
    ensures thrown ==> SomeMisled(rules, user.email, evidence, Before(user).assignments)
    ensures e == Fine && !thrown ==> !SomeMisled(rules, user.email, evidence, Before(user).assignments)
    ensures e == Fine && !thrown ==> forall c: Counts :: c.Clean() ==> Suffices(norm, units, user, rules, evidence, c)
  {
    hide MapCost, ListCost, Opening, Encodes, Idempotent, GroupsAfter, MapJs, ListJs, AssignAll, Local, EntryJs, Misled, Suffices;
    hide Strings, Serialized, PlannedMap, PlannedGroups, AllOccurrences, Normals, Manual, AllPlain, AllNamed, RuleOccurrences, RuleField, Counts.Within;
    PlanEnds(norm, units, user, rules, evidence);
    var previous := if user.state.Some? then user.state.value.assignments else [];
    var combined := new SequencePlan();
    var next := new MapPlan();
    thrown := false;
    e := combined.NormalizedAll(units, norm, Manual(previous, user.groups));
    if e != Fine { return; }
    ghost var manual := Normals(norm, Manual(previous, user.groups));
    for k := 0 to |rules|
      invariant combined.Valid() && next.Valid() && fresh(combined) && fresh(next) && fresh(combined.meter) && fresh(next.meter)
      invariant !thrown && combined.meter != next.meter && forall i :: 0 <= i < k ==> !Misled(rules[i], user.email, evidence, previous)
      invariant combined.planned == Strings(units, manual + AllOccurrences(norm, rules[..k], user.email, evidence, previous))
      invariant next.planned == Serialized(units, PlannedMap(norm, rules[..k], user.email, evidence, previous))
    {
      PlanStep(norm, units, manual, rules, k, user.email, evidence, previous);
      e, thrown := PlanRule(norm, units, rules[k], user.email, evidence, previous, combined, next);
      if e != Fine || thrown { return; }
    }
    assert rules[..|rules|] == rules;
    PlansSuffice(norm, units, user, rules, evidence, combined.base);
    e := Fine;
  }

  /** Without misled rules the prototype is replaced exactly when a rule of that name puts an entry there. */
  lemma {:induction false} PrototypeIs(norm: Norm, rules: seq<Rule>, email: string, evidence: Option<Evidence>, previous: Assignments)
    requires !SomeMisled(rules, email, evidence, previous)
    ensures Build(norm, rules, email, evidence, previous).prototype.Some? <==> Replaces(rules, email, evidence, previous)
  {
    hide Retaining, MatchOf, EntryOf, Find, Inherited, WriteMember;
    if rules != [] {
      var n := |rules| - 1;
      assert forall i :: 0 <= i < n ==> rules[..n][i] == rules[i];
      PrototypeIs(norm, rules[..n], email, evidence, previous);
      assert !Misled(rules[n], email, evidence, previous);
      assert Inherited(PROTO) by { ProtoInherited(); }
      if Replaces(rules[..n], email, evidence, previous) {
        var i :| 0 <= i < n && rules[..n][i].id == PROTO && (MatchOf(rules[i], email, evidence).Matches? || Kept(rules[i], email, evidence, previous).Some?);
        assert Replaces(rules, email, evidence, previous);
      }
    }
  }

  lemma ProtoInherited()
    ensures Inherited(PROTO)
  {}

  lemma PlansSuffice(norm: Norm, units: Encoding, user: User, rules: seq<Rule>, evidence: Option<Evidence>, c: Counts)
    requires Encodes(units) && Idempotent(norm)
    requires ListFits(Strings(units, PlannedGroups(norm, user, rules, evidence)), Opening(c))
    requires MapFits(Serialized(units, PlannedMap(norm, rules, user.email, evidence, Before(user).assignments)), Opening(c))
    requires !SomeMisled(rules, user.email, evidence, Before(user).assignments)
    ensures Suffices(norm, units, user, rules, evidence, c)
  {
    hide ListCost, MapCost, Opening, Encodes, Idempotent, Admits, GroupsAfter, ListJs, MapJs, Local, PlannedGroups, PlannedMap, Strings, Serialized;
    hide AssignAll, Build, EntryJs, ListFits, MapFits, Misled, Replaces;
    var previous := Before(user).assignments;
    GroupsSuffice(norm, units, user, rules, evidence, c);
    MapSuffices(norm, units, rules, user.email, evidence, previous, c);
    BuildIs(norm, rules, user.email, evidence, previous);
    PrototypeIs(norm, rules, user.email, evidence, previous);
  }

  /** The plans before the first rule and after the last one. */
  lemma PlanEnds(norm: Norm, units: Encoding, user: User, rules: seq<Rule>, evidence: Option<Evidence>)
    ensures var previous := Before(user).assignments;
            var manual := Normals(norm, Manual(previous, user.groups));
            && [] + Strings(units, manual) == Strings(units, manual + AllOccurrences(norm, rules[..0], user.email, evidence, previous))
            && Serialized(units, PlannedMap(norm, rules[..0], user.email, evidence, previous)) == []
            && PlannedGroups(norm, user, rules, evidence) == manual + AllOccurrences(norm, rules, user.email, evidence, previous)
  {
    hide Normals, Manual, Strings;
    assert rules[..0] == [];
    var manual := Normals(norm, Manual(Before(user).assignments, user.groups));
    assert manual + [] == manual;
  }

  /** The meter of a plan has not refused. */
  ghost predicate ListFits(planned: seq<Js>, start: Counts) {
    && AllPlain(planned) && ListCost(planned, true, start).Within(SOURCE_LIMIT)
    && forall i :: 0 <= i < |planned| ==> Local(planned[i], 1)
  }

  ghost predicate MapFits(planned: seq<Named>, start: Counts) {
    && AllNamed(planned) && MapCost(planned, true, start).Within(SOURCE_LIMIT)
    && forall i :: 0 <= i < |planned| ==> |planned[i].key| <= 1024 && Local(planned[i].js, 1)
  }

  /** A plan of the groups that fits: the groups built are admitted. */
  lemma GroupsSuffice(norm: Norm, units: Encoding, user: User, rules: seq<Rule>, evidence: Option<Evidence>, c: Counts)
    requires Encodes(units) && Idempotent(norm)
    requires ListFits(Strings(units, PlannedGroups(norm, user, rules, evidence)), Opening(c))
    ensures var groups := ListJs(units, GroupsAfter(norm, user, rules, evidence)); Plain(groups) && Admits(groups, 0, c, SOURCE_LIMIT)
  {
    hide ListCost, Opening, Encodes, Idempotent, Admits, Plain, GroupsAfter, ListJs, Local, PlannedGroups, Strings;
    PlannedListFits(units, PlannedGroups(norm, user, rules, evidence), c, SOURCE_LIMIT);
    PlannedListAdmits(norm, units, user, rules, evidence, c, SOURCE_LIMIT);
  }

  /** A plan of the assignments that fits: the assignments built are admitted. */
  lemma MapSuffices(norm: Norm, units: Encoding, rules: seq<Rule>, email: string, evidence: Option<Evidence>, previous: Assignments, c: Counts)
    requires Encodes(units)
    requires MapFits(Serialized(units, PlannedMap(norm, rules, email, evidence, previous)), Opening(c))
    ensures var built := MapJs(units, AssignAll(norm, rules, email, evidence, previous)); Plain(built) && Admits(built, 0, c, SOURCE_LIMIT)
  {
    hide MapCost, Opening, Encodes, Admits, Plain, MapJs, AssignAll, Local, EntryJs, PlannedMap, Serialized;
    PlannedMapFits(units, PlannedMap(norm, rules, email, evidence, previous), c, SOURCE_LIMIT);
    PlannedMapAdmits(norm, units, rules, email, evidence, previous, c, SOURCE_LIMIT);
  }

  /** What one rule adds to the two plans. */
  ghost function RuleField(norm: Norm, units: Encoding, rule: Rule, email: string, evidence: Option<Evidence>, previous: Assignments): seq<Named> {
    var p := PlannedEntry(norm, rule, email, evidence, previous);
    if p.None? then [] else [AssignmentField(units, rule.id, p.value.groups, p.value.revokeOnLoss)]
  }

  lemma PlanStep(norm: Norm, units: Encoding, manual: seq<string>, rules: seq<Rule>, k: nat, email: string, evidence: Option<Evidence>, previous: Assignments)
    requires k < |rules|
    ensures Serialized(units, PlannedMap(norm, rules[..k + 1], email, evidence, previous)) ==
              Serialized(units, PlannedMap(norm, rules[..k], email, evidence, previous)) + RuleField(norm, units, rules[k], email, evidence, previous)
    ensures Strings(units, manual + AllOccurrences(norm, rules[..k + 1], email, evidence, previous)) ==
              Strings(units, manual + AllOccurrences(norm, rules[..k], email, evidence, previous)) + Strings(units, RuleOccurrences(norm, rules[k], email, evidence, previous))
  {
    hide PlannedEntry, RuleOccurrences, EntryJs;
    assert rules[..k + 1][..k] == rules[..k];
  }

  method PlanRule(norm: Norm, units: Encoding, rule: Rule, email: string, evidence: Option<Evidence>, previous: Assignments, combined: SequencePlan, next: MapPlan)
      returns (e: Status, thrown: bool)
    requires Encodes(units) && combined.Valid() && next.Valid() && combined.meter != next.meter
    modifies combined, next, combined.meter, next.meter
    ensures thrown ==> Misled(rule, email, evidence, previous)
    ensures e == Fine && !thrown ==>
              && !Misled(rule, email, evidence, previous)
              && combined.Valid() && next.Valid()
              && combined.planned == old(combined.planned) + Strings(units, RuleOccurrences(norm, rule, email, evidence, previous))
              && next.planned == old(next.planned) + RuleField(norm, units, rule, email, evidence, previous)
  {
    hide MapCost, ListCost, Encodes, Local, Strings, EntryJs, MatchOf, Normals, Inherited;
    thrown := false;
    var outcome := MatchOf(rule, email, evidence);
    if outcome.Matches? {
      e := next.Matched(units, rule.id, Normals(norm, RuleGroups(rule)), rule.revokeOnLoss);
      if e != Fine { return; }
      e := combined.NormalizedAll(units, norm, RuleGroups(rule));
    } else if outcome.Undecided? || (outcome.NoMatch? && rule.enabled && !rule.revokeOnLoss) {
      var found := LookUp(previous, rule.id);
      if found.None? {
        NoStrings(units);
        return Fine, false;
      }
      if found.value.Foreign? {
        e := next.Borrowed(units(rule.id), if rule.id == PROTO then Obj(NoField) else Omitted);
        return e, e == Fine;
      }
      var kept := found.value.entry;
      EntryTyped(units, kept);
      UnitsNarrow(units, rule.id);
      e := next.Retained(units(rule.id), EntryJs(units, kept.groups, kept.revokeOnLoss));
      if e != Fine { return; }
      e := combined.NormalizedAll(units, norm, kept.groups);
    } else {
      NoStrings(units);
      e := Fine;
    }
  }

  lemma UnitsNarrow(units: Encoding, s: string)
    requires Encodes(units)
    ensures Narrow(units(s))
  {}

  lemma NoStrings(units: Encoding)
    ensures Strings(units, []) == []
  {}
}

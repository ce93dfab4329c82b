/**
 Why the plan of `planAssignmentEvaluation` in `worker/assignment-evaluator.ts` is enough: if the prospective map and the
 prospective list of groups are admitted, so are the assignments and the groups that the evaluation builds.

 `units` gives the UTF-16 text of a string.
 */
module AssignmentPlans {
  import opened Basics
  import opened JsonText
  import opened JsonMeter
  import opened AssignmentEvaluator
  import opened AssignmentLaws
  import opened Plans

  type Encoding = string -> Text

  ghost predicate Encodes(units: Encoding) {
    forall s :: Narrow(units(s))
  }

  /** The key "groups". */
  const GROUPS: Text := [103, 114, 111, 117, 112, 115]
  /** The key "revokeOnLoss". */
  const REVOKE: Text := [114, 101, 118, 111, 107, 101, 79, 110, 76, 111, 115, 115]

  // ----- Lists of strings

  function Strings(units: Encoding, gs: seq<string>): seq<Js> {
    seq(|gs|, i requires 0 <= i < |gs| => Str(units(gs[i])))
  }

  lemma StringsPlain(units: Encoding, gs: seq<string>)
    requires Encodes(units)
    ensures AllPlain(Strings(units, gs))
  {}

  lemma {:induction false} StringsWithin(units: Encoding, built: seq<string>, plan: seq<string>)
    requires multiset(built) <= multiset(plan)
    ensures multiset(Strings(units, built)) <= multiset(Strings(units, plan))
    decreases |built|
  {
    if built != [] {
      var x := built[0];
      var a, b := TakeOne(built, plan);
      StringsWithin(units, built[1..], a + b);
      var y := Str(units(x));
      assert Strings(units, built) == [] + [y] + Strings(units, built[1..]);
      assert Strings(units, plan) == Strings(units, a) + [y] + Strings(units, b);
      assert Strings(units, a + b) == Strings(units, a) + Strings(units, b);
      Counted(Strings(units, a), y, Strings(units, b));
      Counted([], y, Strings(units, built[1..]));
      assert [] + Strings(units, built[1..]) == Strings(units, built[1..]);
      OneMore(multiset(Strings(units, built)), multiset(Strings(units, built[1..])), multiset(Strings(units, plan)), multiset(Strings(units, a + b)), y);
    } else {
      assert Strings(units, built) == [];
    }
  }

  lemma OneMore<T>(m: multiset<T>, m': multiset<T>, n: multiset<T>, n': multiset<T>, x: T)
    requires m' <= n' && forall y :: m[y] == m'[y] + if y == x then 1 else 0
    requires forall y :: n[y] == n'[y] + if y == x then 1 else 0
    ensures m <= n
  {}

  /** Distinct strings that all occur in the plan are within it. */
  lemma {:induction false} SortedWithin(built: seq<string>, plan: seq<string>)
    requires Sorted(built) && forall g :: g in built ==> g in plan
    ensures multiset(built) <= multiset(plan)
  {
    forall g | g in multiset(built) ensures multiset(built)[g] <= multiset(plan)[g] {
      OnlyOnce(built, g);
      assert g in plan;
    }
  }

  lemma {:induction false} OnlyOnce(s: seq<string>, g: string)
    requires Sorted(s)
    ensures multiset(s)[g] <= 1
  {
    if s != [] {
      var n := |s| - 1;
      assert s == s[..n] + [s[n]];
      OnlyOnce(s[..n], g);
      assert multiset(s) == multiset(s[..n]) + multiset{s[n]};
      if g == s[n] && g in s[..n] {
        var i :| 0 <= i < n && s[..n][i] == g;
        assert Below(s[i], s[n]);
        BelowOrders(g, g, g);
      }
    }
  }

  function Normals(norm: Norm, gs: seq<string>): seq<string> {
    seq(|gs|, i requires 0 <= i < |gs| => norm(gs[i]))
  }

  lemma NormalizeWithin(norm: Norm, gs: seq<string>)
    ensures multiset(Normalize(norm, gs)) <= multiset(Normals(norm, gs))
  {
    NormalizeMeans(norm, gs);
    forall g | g in Normalize(norm, gs) ensures g in Normals(norm, gs) {
      var i :| 0 <= i < |gs| && norm(gs[i]) == g;
      assert Normals(norm, gs)[i] == g;
    }
    SortedWithin(Normalize(norm, gs), Normals(norm, gs));
  }

  // ----- Entries of the map

  function EntryJs(units: Encoding, groups: seq<string>, revoke: bool): Js {
    Obj(Field(GROUPS, Data(Arr(ItemsOf(Strings(units, groups)))), Field(REVOKE, Data(Bool(revoke)), NoField)))
  }

  lemma EntryPlain(units: Encoding, groups: seq<string>, revoke: bool)
    requires Encodes(units)
    ensures Plain(EntryJs(units, groups, revoke)) && Plain(Arr(ItemsOf(Strings(units, groups)))) && Plain(Bool(revoke))
  {
    StringsPlain(units, groups);
    ItemsPlain(Strings(units, groups));
  }

  lemma EntryCostIs(units: Encoding, groups: seq<string>, revoke: bool, c: Counts)
    requires Encodes(units)
    ensures AllPlain(Strings(units, groups)) && Plain(EntryJs(units, groups, revoke)) && Plain(Bool(revoke))
    ensures var c1 := StringCost(GROUPS, c.Value().Container().Add(2, 2).Member()).Add(1, 1).Value().Container().Add(2, 2);
            Cost(EntryJs(units, groups, revoke), c) == FieldCost(REVOKE, Bool(revoke), false, ListCost(Strings(units, groups), true, c1))
  {
    hide StringCost, ItemsCost, ItemsOf, Strings;
    EntryPlain(units, groups, revoke);
    StringsPlain(units, groups);
    var list := Arr(ItemsOf(Strings(units, groups)));
    var last := Field(REVOKE, Data(Bool(revoke)), NoField);
    var d := c.Value().Container().Add(2, 2);
    assert Cost(EntryJs(units, groups, revoke), c) == FieldsCost(Field(GROUPS, Data(list), last), true, d);
    var e := StringCost(GROUPS, d.Member()).Add(1, 1);
    assert CommaCost(true, d.Member()) == d.Member();
    assert FieldsCost(Field(GROUPS, Data(list), last), true, d) == FieldsCost(last, false, Cost(list, e));
    assert FieldsCost(last, false, Cost(list, e)) == FieldsCost(NoField, false, FieldCost(REVOKE, Bool(revoke), false, Cost(list, e)));
    assert Cost(list, e) == ListCost(Strings(units, groups), true, e.Value().Container().Add(2, 2));
  }

  /** An entry built from some of the planned groups costs at most the planned one. */
  lemma EntryBound(units: Encoding, built: seq<string>, plan: seq<string>, revoke: bool, c: Counts)
    requires Encodes(units) && multiset(built) <= multiset(plan)
    ensures Plain(EntryJs(units, built, revoke)) && Plain(EntryJs(units, plan, revoke))
    ensures Cost(EntryJs(units, built, revoke), c).AtMost(Cost(EntryJs(units, plan, revoke), c))
  {
    hide StringCost, ListCost, FieldCost, Cost, Strings;
    EntryCostIs(units, built, revoke, c);
    EntryCostIs(units, plan, revoke, c);
    StringsWithin(units, built, plan);
    var c1 := StringCost(GROUPS, c.Value().Container().Add(2, 2).Member()).Add(1, 1).Value().Container().Add(2, 2);
    ListBound(Strings(units, built), Strings(units, plan), true, c1);
    FieldsAlike(REVOKE, Bool(revoke), ListCost(Strings(units, built), true, c1), ListCost(Strings(units, plan), true, c1));
  }

  // ----- The map

  function AssignmentField(units: Encoding, id: string, groups: seq<string>, revoke: bool): Named {
    Named(units(id), EntryJs(units, groups, revoke))
  }

  /** The assignments as they are serialized. */
  function Serialized(units: Encoding, a: Assignments): seq<Named> {
    seq(|a|, i requires 0 <= i < |a| => AssignmentField(units, a[i].id, a[i].entry.groups, a[i].entry.revokeOnLoss))
  }

  lemma SerializedNamed(units: Encoding, a: Assignments)
    requires Encodes(units)
    ensures AllNamed(Serialized(units, a))
  {
    forall i | 0 <= i < |a| ensures Plain(Serialized(units, a)[i].js) {
      EntryPlain(units, a[i].entry.groups, a[i].entry.revokeOnLoss);
    }
  }

  /** The groups a rule names, its generated one included. */
  function RuleGroups(rule: Rule): seq<string> {
    rule.groups + if rule.policies > 0 then [rule.generated] else []
  }

  /** What the plan meters for one rule: all its groups when it matches, the earlier entry when that is retained. */
  function PlannedEntry(norm: Norm, rule: Rule, email: string, evidence: Option<Evidence>, previous: Assignments): Option<Entry> {
    if MatchOf(rule, email, evidence).Matches? then Some(Entry(Normals(norm, RuleGroups(rule)), rule.revokeOnLoss))
    else Kept(rule, email, evidence, previous)
  }

  /** Every occurrence the plan meters, repeated rules included. */
  function PlannedMap(norm: Norm, rules: seq<Rule>, email: string, evidence: Option<Evidence>, previous: Assignments): Assignments {
    if rules == [] then []
    else
      var n := |rules| - 1;
      var e := PlannedEntry(norm, rules[n], email, evidence, previous);
      PlannedMap(norm, rules[..n], email, evidence, previous) + if e.None? then [] else [Assignment(rules[n].id, e.value)]
  }

  /** A rule's entry is within what the plan meters for it. */
  lemma AssignedWithin(norm: Norm, rule: Rule, email: string, evidence: Option<Evidence>, previous: Assignments)
    ensures var e, p := Assigned(norm, rule, email, evidence, previous), PlannedEntry(norm, rule, email, evidence, previous);
            && (e.Some? ==> p.Some? && multiset(e.value.groups) <= multiset(p.value.groups) && e.value.revokeOnLoss == p.value.revokeOnLoss)
  {
    hide Normalize, MatchOf, Retaining;
    NormalizeWithin(norm, RuleGroups(rule));
  }

  /** Writing an assignment costs at most one more member. */
  lemma {:induction false} WriteBound(units: Encoding, a: Assignments, id: string, e: Entry, c: Counts)
    requires Encodes(units)
    ensures AllNamed(Serialized(units, a)) && AllNamed(Serialized(units, Write(a, id, e))) && Plain(EntryJs(units, e.groups, e.revokeOnLoss))
    ensures MapCost(Serialized(units, Write(a, id, e)), false, c).AtMost(
              FieldCost(units(id), EntryJs(units, e.groups, e.revokeOnLoss), false, MapCost(Serialized(units, a), false, c)))
    decreases |a|
  {
    hide MapCost, FieldCost, EntryJs;
    var w := Write(a, id, e);
    var f := AssignmentField(units, id, e.groups, e.revokeOnLoss);
    SerializedNamed(units, a);
    SerializedNamed(units, w);
    EntryPlain(units, e.groups, e.revokeOnLoss);
    MapStep(Serialized(units, a), false, c);
    MapStep(Serialized(units, w), false, c);
    if a == [] {
      assert Serialized(units, w)[1..] == [];
      MapStep([], false, FieldCost(f.key, f.js, false, c));
    } else {
      var g := AssignmentField(units, a[0].id, a[0].entry.groups, a[0].entry.revokeOnLoss);
      var rest := Serialized(units, a[1..]);
      EntryPlain(units, a[0].entry.groups, a[0].entry.revokeOnLoss);
      SerializedNamed(units, a[1..]);
      assert Serialized(units, a)[1..] == rest && Serialized(units, a)[0] == g;
      if a[0].id == id {
        assert Serialized(units, w)[1..] == rest && Serialized(units, w)[0] == f;
        MapCommutes(rest, f, FieldCost(g.key, g.js, false, c));
        FieldGrows(g.key, g.js, c);
        FieldsAlike(f.key, f.js, c, FieldCost(g.key, g.js, false, c));
        MapMonotone(rest, FieldCost(f.key, f.js, false, c), FieldCost(f.key, f.js, false, FieldCost(g.key, g.js, false, c)));
      } else {
        assert Serialized(units, w)[1..] == Serialized(units, Write(a[1..], id, e)) && Serialized(units, w)[0] == g;
        WriteBound(units, a[1..], id, e, FieldCost(g.key, g.js, false, c));
      }
    }
  }

  /** The map that is built costs at most the planned one. */
  lemma {:induction false} MapBound(norm: Norm, units: Encoding, rules: seq<Rule>, email: string, evidence: Option<Evidence>, previous: Assignments, c: Counts)
    requires Encodes(units)
    ensures var built, plan := AssignAll(norm, rules, email, evidence, previous), PlannedMap(norm, rules, email, evidence, previous);
            && AllNamed(Serialized(units, built)) && AllNamed(Serialized(units, plan)) && (plan == [] ==> built == [])
            && MapCost(Serialized(units, built), false, c).AtMost(MapCost(Serialized(units, plan), false, c))
    decreases |rules|
  {
    hide MapCost, FieldCost, EntryJs, Assigned, PlannedEntry, Write;
    SerializedNamed(units, AssignAll(norm, rules, email, evidence, previous));
    SerializedNamed(units, PlannedMap(norm, rules, email, evidence, previous));
    if rules != [] {
      var n := |rules| - 1;
      var before, planned := AssignAll(norm, rules[..n], email, evidence, previous), PlannedMap(norm, rules[..n], email, evidence, previous);
      var e, p := Assigned(norm, rules[n], email, evidence, previous), PlannedEntry(norm, rules[n], email, evidence, previous);
      MapBound(norm, units, rules[..n], email, evidence, previous, c);
      AssignedWithin(norm, rules[n], email, evidence, previous);
      if e.Some? {
        WriteBound(units, before, rules[n].id, e.value, c);
        OneMember(units, rules[n].id, e.value, p.value, MapCost(Serialized(units, before), false, c), MapCost(Serialized(units, planned), false, c));
      }
      if p.Some? {
        PlanMore(units, planned, rules[n].id, p.value, c);
        FieldGrows(units(rules[n].id), EntryJs(units, p.value.groups, p.value.revokeOnLoss), MapCost(Serialized(units, planned), false, c));
      }
      assert planned + [] == planned;
    }
  }

  /** The member a rule writes costs at most the one planned for it. */
  lemma OneMember(units: Encoding, id: string, e: Entry, p: Entry, c: Counts, d: Counts)
    requires Encodes(units) && multiset(e.groups) <= multiset(p.groups) && e.revokeOnLoss == p.revokeOnLoss && c.AtMost(d)
    ensures Plain(EntryJs(units, e.groups, e.revokeOnLoss)) && Plain(EntryJs(units, p.groups, p.revokeOnLoss))
    ensures FieldCost(units(id), EntryJs(units, e.groups, e.revokeOnLoss), false, c).AtMost(
              FieldCost(units(id), EntryJs(units, p.groups, p.revokeOnLoss), false, d))
  {
    hide EntryJs, Cost, StringCost, Plain;
    EntryPlain(units, e.groups, e.revokeOnLoss);
    EntryPlain(units, p.groups, p.revokeOnLoss);
    FieldsAlike(units(id), EntryJs(units, p.groups, p.revokeOnLoss), c, d);
    EntryBound(units, e.groups, p.groups, e.revokeOnLoss, StringCost(units(id), CommaCost(false, c.Member())).Add(1, 1));
  }

  lemma PlanMore(units: Encoding, planned: Assignments, id: string, p: Entry, c: Counts)
    requires Encodes(units)
    ensures AllNamed(Serialized(units, planned)) && AllNamed(Serialized(units, planned + [Assignment(id, p)])) && Plain(EntryJs(units, p.groups, p.revokeOnLoss))
    ensures MapCost(Serialized(units, planned + [Assignment(id, p)]), false, c) ==
              FieldCost(units(id), EntryJs(units, p.groups, p.revokeOnLoss), false, MapCost(Serialized(units, planned), false, c))
  {
    hide MapCost, FieldCost, EntryJs;
    var f := AssignmentField(units, id, p.groups, p.revokeOnLoss);
    EntryPlain(units, p.groups, p.revokeOnLoss);
    SerializedNamed(units, planned);
    SerializedNamed(units, [Assignment(id, p)]);
    assert Serialized(units, [Assignment(id, p)]) == [f];
    assert Serialized(units, planned + [Assignment(id, p)]) == Serialized(units, planned) + [f];
    MapAppend(Serialized(units, planned), f, false, c);
  }

  // ----- Strings and keys

  /** Identifiers and groups are short enough for the meter. */
  predicate Short(units: Encoding, a: Assignments) {
    forall i :: 0 <= i < |a| ==> |units(a[i].id)| <= 1024 && forall g :: g in a[i].entry.groups ==> |units(g)| <= COMPLETE_LIMIT
  }

  lemma {:induction false} ItemsLocal(units: Encoding, gs: seq<string>, depth: nat)
    requires Encodes(units)
    ensures PlainItems(ItemsOf(Strings(units, gs)))
    ensures LocalItems(ItemsOf(Strings(units, gs)), depth) <==> forall g :: g in gs ==> |units(g)| <= COMPLETE_LIMIT
    decreases |gs|
  {
    StringsPlain(units, gs);
    ItemsPlain(Strings(units, gs));
    if gs != [] {
      assert gs == [gs[0]] + gs[1..];
      assert Strings(units, gs)[1..] == Strings(units, gs[1..]);
      ItemsLocal(units, gs[1..], depth);
    }
  }

  lemma EntryLocal(units: Encoding, e: Entry, depth: nat)
    requires Encodes(units) && depth < 15
    ensures Plain(EntryJs(units, e.groups, e.revokeOnLoss))
    ensures Local(EntryJs(units, e.groups, e.revokeOnLoss), depth) <==> forall g :: g in e.groups ==> |units(g)| <= COMPLETE_LIMIT
  {
    hide ItemsOf, Strings;
    EntryPlain(units, e.groups, e.revokeOnLoss);
    ItemsLocal(units, e.groups, depth + 2);
    var list := Arr(ItemsOf(Strings(units, e.groups)));
    var last := Field(REVOKE, Data(Bool(e.revokeOnLoss)), NoField);
    assert Local(list, depth + 1) <==> LocalItems(list.items, depth + 2);
    assert LocalFields(NoField, depth + 1) && LocalFields(last, depth + 1);
    assert LocalFields(Field(GROUPS, Data(list), last), depth + 1) <==> Local(list, depth + 1);
  }

  lemma {:induction false} MapLocal(units: Encoding, a: Assignments)
    requires Encodes(units)
    ensures PlainFields(FieldsOf(Serialized(units, a)))
    ensures LocalFields(FieldsOf(Serialized(units, a)), 1) <==> Short(units, a)
    decreases |a|
  {
    hide EntryJs;
    SerializedNamed(units, a);
    FieldsPlain(Serialized(units, a));
    if a != [] {
      assert a == [a[0]] + a[1..];
      assert Serialized(units, a)[1..] == Serialized(units, a[1..]);
      EntryLocal(units, a[0].entry, 1);
      MapLocal(units, a[1..]);
      NotOmitted(units, a[0].entry);
      assert Short(units, a) <==> (|units(a[0].id)| <= 1024 && forall g :: g in a[0].entry.groups ==> |units(g)| <= COMPLETE_LIMIT) && Short(units, a[1..]) by {
        assert forall i :: 0 <= i < |a| - 1 ==> a[1..][i] == a[i + 1];
      }
    }
  }

  lemma NotOmitted(units: Encoding, e: Entry)
    ensures !EntryJs(units, e.groups, e.revokeOnLoss).Omitted?
  {}

  lemma {:induction false} ShortBuilt(norm: Norm, units: Encoding, rules: seq<Rule>, email: string, evidence: Option<Evidence>, previous: Assignments)
    requires Short(units, PlannedMap(norm, rules, email, evidence, previous))
    ensures Short(units, AssignAll(norm, rules, email, evidence, previous))
    decreases |rules|
  {
    hide Assigned, PlannedEntry;
    if rules != [] {
      var n := |rules| - 1;
      var planned := PlannedMap(norm, rules[..n], email, evidence, previous);
      var all := PlannedMap(norm, rules, email, evidence, previous);
      assert forall i :: 0 <= i < |planned| ==> all[i] == planned[i];
      ShortBuilt(norm, units, rules[..n], email, evidence, previous);
      AssignedWithin(norm, rules[n], email, evidence, previous);
      var e, p := Assigned(norm, rules[n], email, evidence, previous), PlannedEntry(norm, rules[n], email, evidence, previous);
      if e.Some? {
        assert all[|planned|] == Assignment(rules[n].id, p.value);
        forall g | g in e.value.groups ensures |units(g)| <= COMPLETE_LIMIT {
          assert g in multiset(e.value.groups);
          assert g in multiset(p.value.groups);
        }
        ShortWrite(units, AssignAll(norm, rules[..n], email, evidence, previous), rules[n].id, e.value);
      }
    }
  }

  lemma {:induction false} ShortWrite(units: Encoding, a: Assignments, id: string, e: Entry)
    requires Short(units, a) && |units(id)| <= 1024 && forall g :: g in e.groups ==> |units(g)| <= COMPLETE_LIMIT
    ensures Short(units, Write(a, id, e))
    decreases |a|
  {
    if a != [] {
      assert forall i :: 0 <= i < |a| - 1 ==> a[1..][i] == a[i + 1];
      if a[0].id != id { ShortWrite(units, a[1..], id, e); }
    }
  }

  // ----- The theorems

  function MapJs(units: Encoding, a: Assignments): Js {
    Obj(FieldsOf(Serialized(units, a)))
  }

  function ListJs(units: Encoding, gs: seq<string>): Js {
    Arr(ItemsOf(Strings(units, gs)))
  }

  lemma MapJsCost(units: Encoding, a: Assignments, c: Counts)
    requires Encodes(units)
    ensures Plain(MapJs(units, a)) && AllNamed(Serialized(units, a))
    ensures Cost(MapJs(units, a), c) == MapCost(Serialized(units, a), true, c.Value().Container().Add(2, 2))
    ensures Local(MapJs(units, a), 0) <==> Short(units, a)
  {
    hide Serialized, FieldsOf, Short;
    SerializedNamed(units, a);
    FieldsPlain(Serialized(units, a));
    MapLocal(units, a);
  }

  lemma SerializedSize(units: Encoding, a: Assignments)
    ensures |Serialized(units, a)| == |a|
  {}

  /** The saved comma makes no difference to the bound. */
  lemma FirstBound(built: seq<Named>, plan: seq<Named>, c: Counts)
    requires AllNamed(built) && AllNamed(plan) && (plan == [] ==> built == []) && MapCost(built, false, c).AtMost(MapCost(plan, false, c))
    ensures MapCost(built, true, c).AtMost(MapCost(plan, true, c))
  {
    hide MapCost;
    MapStep(built, true, c);
    if plan != [] {
      FirstSaves(plan, c);
      if built != [] {
        FirstSaves(built, c);
      } else {
        MapGrows(plan, c);
      }
    }
  }

  lemma MapGrows(fs: seq<Named>, c: Counts)
    requires AllNamed(fs)
    ensures c.AtMost(MapCost(fs, true, c))
  {
    hide Cost, ItemText, FieldsCost, FieldsText;
    FieldsPlain(fs);
    FieldsAreText(FieldsOf(fs), true, c);
  }

  /** If the planned map is admitted, so are the assignments that are built: checking them afterwards cannot fail. */
  lemma PlannedMapAdmits(norm: Norm, units: Encoding, rules: seq<Rule>, email: string, evidence: Option<Evidence>, previous: Assignments, c: Counts, maximum: nat)
    requires Encodes(units)
    ensures var built, plan := MapJs(units, AssignAll(norm, rules, email, evidence, previous)), MapJs(units, PlannedMap(norm, rules, email, evidence, previous));
            && Plain(built) && Plain(plan) && Cost(built, c).AtMost(Cost(plan, c))
            && (Admits(plan, 0, c, maximum) ==> Admits(built, 0, c, maximum))
  {
    hide AssignAll, PlannedMap, MapJs, Cost, Local, Serialized, MapCost;
    var a, p := AssignAll(norm, rules, email, evidence, previous), PlannedMap(norm, rules, email, evidence, previous);
    var d := c.Value().Container().Add(2, 2);
    MapJsCost(units, a, c);
    MapJsCost(units, p, c);
    MapBound(norm, units, rules, email, evidence, previous, d);
    assert |Serialized(units, a)| == |a| && |Serialized(units, p)| == |p| by { SerializedSize(units, a); SerializedSize(units, p); }
    FirstBound(Serialized(units, a), Serialized(units, p), d);
    if Short(units, p) { ShortBuilt(norm, units, rules, email, evidence, previous); }
  }

  // ----- The list of groups

  /** What the plan of the groups meters for one rule. */
  function RuleOccurrences(norm: Norm, rule: Rule, email: string, evidence: Option<Evidence>, previous: Assignments): seq<string> {
    if MatchOf(rule, email, evidence).Matches? then Normals(norm, RuleGroups(rule))
    else
      var e := Kept(rule, email, evidence, previous);
      if e.None? then [] else Normals(norm, e.value.groups)
  }

  function AllOccurrences(norm: Norm, rules: seq<Rule>, email: string, evidence: Option<Evidence>, previous: Assignments): seq<string> {
    if rules == [] then []
    else
      var n := |rules| - 1;
      AllOccurrences(norm, rules[..n], email, evidence, previous) + RuleOccurrences(norm, rules[n], email, evidence, previous)
  }

  /** Every occurrence of a group: those put by hand, then those of the rules. */
  function PlannedGroups(norm: Norm, user: User, rules: seq<Rule>, evidence: Option<Evidence>): seq<string> {
    var previous := Before(user).assignments;
    Normals(norm, Manual(previous, user.groups)) + AllOccurrences(norm, rules, user.email, evidence, previous)
  }

  lemma {:induction false} WriteGroups(a: Assignments, id: string, e: Entry, g: string)
    requires g in GroupsOf(Write(a, id, e))
    ensures g in GroupsOf(a) || g in e.groups
    decreases |a|
  {
    if a == [] {
      assert GroupsOf([Assignment(id, e)]) == e.groups + GroupsOf([]) by { assert [Assignment(id, e)][1..] == []; }
    } else if a[0].id == id {
      assert ([Assignment(id, e)] + a[1..])[1..] == a[1..];
    } else {
      assert ([a[0]] + Write(a[1..], id, e))[1..] == Write(a[1..], id, e);
      if g in GroupsOf(Write(a[1..], id, e)) { WriteGroups(a[1..], id, e, g); }
    }
  }

  lemma InNormals(norm: Norm, gs: seq<string>, g: string)
    requires g in gs
    ensures norm(g) in Normals(norm, gs)
  {
    var i :| 0 <= i < |gs| && gs[i] == g;
    assert Normals(norm, gs)[i] == norm(g);
  }

  lemma RuleOccurs(norm: Norm, rule: Rule, email: string, evidence: Option<Evidence>, previous: Assignments, g: string)
    requires Idempotent(norm) && Assigned(norm, rule, email, evidence, previous).Some? && g in Assigned(norm, rule, email, evidence, previous).value.groups
    ensures norm(g) in RuleOccurrences(norm, rule, email, evidence, previous)
  {
    hide MatchOf;
    if MatchOf(rule, email, evidence).Matches? {
      NormalizeMeans(norm, RuleGroups(rule));
      var i :| 0 <= i < |RuleGroups(rule)| && norm(RuleGroups(rule)[i]) == g;
      assert norm(norm(RuleGroups(rule)[i])) == norm(RuleGroups(rule)[i]);
      InNormals(norm, RuleGroups(rule), RuleGroups(rule)[i]);
    } else {
      InNormals(norm, Assigned(norm, rule, email, evidence, previous).value.groups, g);
    }
  }

  lemma {:induction false} AssignedOccurs(norm: Norm, rules: seq<Rule>, email: string, evidence: Option<Evidence>, previous: Assignments, g: string)
    requires Idempotent(norm) && g in GroupsOf(AssignAll(norm, rules, email, evidence, previous))
    ensures norm(g) in AllOccurrences(norm, rules, email, evidence, previous)
    decreases |rules|
  {
    hide Assigned, RuleOccurrences, Idempotent;
    if rules != [] {
      var n := |rules| - 1;
      var before := AssignAll(norm, rules[..n], email, evidence, previous);
      var e := Assigned(norm, rules[n], email, evidence, previous);
      if e.Some? { WriteGroups(before, rules[n].id, e.value, g); }
      if g in GroupsOf(before) {
        AssignedOccurs(norm, rules[..n], email, evidence, previous, g);
      } else {
        RuleOccurs(norm, rules[n], email, evidence, previous, g);
      }
    }
  }

  lemma GroupsWithin(norm: Norm, user: User, rules: seq<Rule>, evidence: Option<Evidence>)
    requires Idempotent(norm)
    ensures multiset(GroupsAfter(norm, user, rules, evidence)) <= multiset(PlannedGroups(norm, user, rules, evidence))
  {
    hide AssignAll, AllOccurrences, Idempotent, Manual, GroupsOf, Normals;
    var previous := Before(user).assignments;
    var manual, byRules := Manual(previous, user.groups), GroupsOf(AssignAll(norm, rules, user.email, evidence, previous));
    NormalizeMeans(norm, manual + byRules);
    forall g | g in GroupsAfter(norm, user, rules, evidence) ensures g in PlannedGroups(norm, user, rules, evidence) {
      var i :| 0 <= i < |manual + byRules| && norm((manual + byRules)[i]) == g;
      var raw := (manual + byRules)[i];
      if raw in manual {
        InNormals(norm, manual, raw);
      } else {
        AssignedOccurs(norm, rules, user.email, evidence, previous, raw);
      }
    }
    SortedWithin(GroupsAfter(norm, user, rules, evidence), PlannedGroups(norm, user, rules, evidence));
  }

  predicate ShortGroups(units: Encoding, gs: seq<string>) {
    forall g :: g in gs ==> |units(g)| <= COMPLETE_LIMIT
  }

  lemma ListJsCost(units: Encoding, gs: seq<string>, c: Counts)
    requires Encodes(units)
    ensures Plain(ListJs(units, gs)) && AllPlain(Strings(units, gs))
    ensures Cost(ListJs(units, gs), c) == ListCost(Strings(units, gs), true, c.Value().Container().Add(2, 2))
    ensures Local(ListJs(units, gs), 0) <==> ShortGroups(units, gs)
  {
    hide Strings, ItemsOf;
    StringsPlain(units, gs);
    ItemsPlain(Strings(units, gs));
    ItemsLocal(units, gs, 1);
  }

  /** If the planned list of groups is admitted, so is the list of groups that is built. */
  lemma PlannedListAdmits(norm: Norm, units: Encoding, user: User, rules: seq<Rule>, evidence: Option<Evidence>, c: Counts, maximum: nat)
    requires Encodes(units) && Idempotent(norm)
    ensures var built, plan := ListJs(units, GroupsAfter(norm, user, rules, evidence)), ListJs(units, PlannedGroups(norm, user, rules, evidence));
            && Plain(built) && Plain(plan) && Cost(built, c).AtMost(Cost(plan, c))
            && (Admits(plan, 0, c, maximum) ==> Admits(built, 0, c, maximum))
  {
    hide GroupsAfter, PlannedGroups, ListJs, Cost, Admits, Plain, Idempotent, Encodes;
    GroupsWithin(norm, user, rules, evidence);
    ListAdmits(units, GroupsAfter(norm, user, rules, evidence), PlannedGroups(norm, user, rules, evidence), c, maximum);
  }

  /** A list of some of the planned strings is admitted when the plan is. */
  lemma ListAdmits(units: Encoding, built: seq<string>, plan: seq<string>, c: Counts, maximum: nat)
    requires Encodes(units) && multiset(built) <= multiset(plan)
    ensures Plain(ListJs(units, built)) && Plain(ListJs(units, plan))
    ensures Cost(ListJs(units, built), c).AtMost(Cost(ListJs(units, plan), c))
    ensures Admits(ListJs(units, plan), 0, c, maximum) ==> Admits(ListJs(units, built), 0, c, maximum)
  {
    hide ListJs, Cost, Local, Strings, ListCost, Plain, Encodes, ShortGroups;
    ListJsCost(units, built, c);
    ListJsCost(units, plan, c);
    StringsWithin(units, built, plan);
    ListBound(Strings(units, built), Strings(units, plan), true, c.Value().Container().Add(2, 2));
    ShortSome(units, built, plan);
  }

  lemma ShortSome(units: Encoding, built: seq<string>, plan: seq<string>)
    requires multiset(built) <= multiset(plan)
    ensures ShortGroups(units, plan) ==> ShortGroups(units, built)
  {
    forall g | g in built ensures g in plan {
      assert g in multiset(built);
      assert g in multiset(plan);
    }
  }

  /** The two keys of a serialized entry. */
  lemma KeysSpelled()
    ensures GROUPS == seq(6, i requires 0 <= i < 6 => "groups"[i] as nat) && REVOKE == seq(12, i requires 0 <= i < 12 => "revokeOnLoss"[i] as nat)
  {}
}

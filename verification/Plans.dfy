/**
 The prospective plans of `worker/assignment-source.ts`: before the evaluator of assignments builds a list or a map, every
 occurrence that could go into it is metered. A list built from some of the occurrences, in any order, and a map whose
 later assignments replace earlier ones never cost more than the plan, in any counter.
 */
module Plans {
  import opened Basics
  import opened JsonText
  import opened Utf16
  import opened JsonMeter
  import opened AssignmentEvaluator
  import opened AssignmentLaws

  // ----- Costs only shift with the counters

  lemma {:induction false} BodyShifts(s: Text, c: Counts, d: Counts)
    ensures BodyCost(s, c.Plus(d)) == BodyCost(s, c).Plus(d)
    decreases |s|
  {
    hide UnitCost;
    if s != [] {
      if |s| > 1 && High(s[0]) && Low(s[1]) {
        assert c.Plus(d).Add(2, 4) == c.Add(2, 4).Plus(d);
        BodyShifts(s[2..], c.Add(2, 4), d);
      } else {
        var t, b := UnitCost(s[0]).0, UnitCost(s[0]).1;
        assert c.Plus(d).Add(t, b) == c.Add(t, b).Plus(d);
        BodyShifts(s[1..], c.Add(t, b), d);
      }
    }
  }

  lemma StringShifts(s: Text, c: Counts, d: Counts)
    ensures StringCost(s, c.Plus(d)) == StringCost(s, c).Plus(d)
  {
    hide BodyCost;
    assert c.Plus(d).Units(|s|).Add(2, 2) == c.Units(|s|).Add(2, 2).Plus(d);
    BodyShifts(s, c.Units(|s|).Add(2, 2), d);
  }

  lemma {:induction false} CostShifts(v: Js, c: Counts, d: Counts)
    requires Plain(v)
    ensures Cost(v, c.Plus(d)) == Cost(v, c).Plus(d)
    decreases v, 0
  {
    hide StringCost;
    match v
    case Str(us) =>
      assert c.Plus(d).Value() == c.Value().Plus(d);
      StringShifts(us, c.Value(), d);
    case Arr(items) =>
      assert c.Plus(d).Value().Container().Add(2, 2) == c.Value().Container().Add(2, 2).Plus(d);
      ItemsShift(items, true, c.Value().Container().Add(2, 2), d);
    case Obj(fields) =>
      assert c.Plus(d).Value().Container().Add(2, 2) == c.Value().Container().Add(2, 2).Plus(d);
      FieldsShift(fields, true, c.Value().Container().Add(2, 2), d);
    case _ =>
  }

  lemma {:induction false} ItemsShift(items: Items, first: bool, c: Counts, d: Counts)
    requires PlainItems(items)
    ensures ItemsCost(items, first, c.Plus(d)) == ItemsCost(items, first, c).Plus(d)
    decreases items
  {
    hide Cost;
    if items.Item? {
      var c1 := CommaCost(first, c.Entry());
      assert CommaCost(first, c.Plus(d).Entry()) == c1.Plus(d);
      CostShifts(items.slot.js, c1, d);
      ItemsShift(items.next, false, Cost(items.slot.js, c1), d);
    }
  }

  lemma {:induction false} FieldShifts(key: Text, v: Js, first: bool, c: Counts, d: Counts)
    requires Plain(v)
    ensures FieldCost(key, v, first, c.Plus(d)) == FieldCost(key, v, first, c).Plus(d)
    decreases v, 1
  {
    hide StringCost, Cost;
    var c1 := CommaCost(first, c.Member());
    assert CommaCost(first, c.Plus(d).Member()) == c1.Plus(d);
    StringShifts(key, c1, d);
    assert StringCost(key, c1).Plus(d).Add(1, 1) == StringCost(key, c1).Add(1, 1).Plus(d);
    CostShifts(v, StringCost(key, c1).Add(1, 1), d);
  }

  lemma {:induction false} FieldsShift(fields: Fields, first: bool, c: Counts, d: Counts)
    requires PlainFields(fields)
    ensures FieldsCost(fields, first, c.Plus(d)) == FieldsCost(fields, first, c).Plus(d)
    decreases fields
  {
    hide Cost, StringCost;
    if fields.Field? {
      if fields.slot.js.Omitted? {
        FieldsShift(fields.next, first, c, d);
      } else {
        FieldShifts(fields.key, fields.slot.js, first, c, d);
        FieldsShift(fields.next, false, FieldCost(fields.key, fields.slot.js, first, c), d);
      }
    }
  }

  /** A value adds the same to any counters. */
  lemma CostsAlike(v: Js, c: Counts, d: Counts)
    requires Plain(v)
    ensures Cost(v, c).Plus(d) == Cost(v, d).Plus(c)
  {
    hide Cost;
    CostShifts(v, c, d);
    CostShifts(v, d, c);
    assert c.Plus(d) == d.Plus(c);
  }

  /** And so does a member that follows another. */
  lemma FieldsAlike(key: Text, v: Js, c: Counts, d: Counts)
    requires Plain(v)
    ensures FieldCost(key, v, false, c).Plus(d) == FieldCost(key, v, false, d).Plus(c)
  {
    hide FieldCost;
    FieldShifts(key, v, false, c, d);
    FieldShifts(key, v, false, d, c);
    assert c.Plus(d) == d.Plus(c);
  }

  lemma TextGrows(s: Text, c: Counts)
    ensures c.AtMost(StringCost(s, c))
  {
    hide BodyCost;
    BodyGrows(s, c.Units(|s|).Add(2, 2));
  }

  lemma FieldGrows(key: Text, v: Js, c: Counts)
    requires Plain(v)
    ensures c.AtMost(FieldCost(key, v, false, c))
  {
    hide Cost, StringCost, ItemText;
    TextGrows(key, CommaCost(false, c.Member()));
    ItemIsText(v, StringCost(key, CommaCost(false, c.Member())).Add(1, 1));
  }

  // ----- Lists

  function ItemsOf(vs: seq<Js>): Items {
    if vs == [] then NoItem else Item(Data(vs[0]), ItemsOf(vs[1..]))
  }

  predicate AllPlain(vs: seq<Js>) {
    forall i :: 0 <= i < |vs| ==> Plain(vs[i])
  }

  lemma {:induction false} ItemsPlain(vs: seq<Js>)
    requires AllPlain(vs)
    ensures PlainItems(ItemsOf(vs))
  {
    if vs != [] { ItemsPlain(vs[1..]); }
  }

  /** The counters after the entries `vs`. */
  function ListCost(vs: seq<Js>, first: bool, c: Counts): Counts
    requires AllPlain(vs)
  {
    ItemsPlain(vs);
    ItemsCost(ItemsOf(vs), first, c)
  }

  function EntryCost(v: Js, first: bool, c: Counts): Counts
    requires Plain(v)
  {
    Cost(v, CommaCost(first, c.Entry()))
  }

  lemma ListStep(vs: seq<Js>, first: bool, c: Counts)
    requires AllPlain(vs)
    ensures ListCost(vs, first, c) == if vs == [] then c else ListCost(vs[1..], false, EntryCost(vs[0], first, c))
  {
    hide Cost;
    ItemsPlain(vs);
    if vs != [] { ItemsPlain(vs[1..]); }
  }

  lemma {:induction false} ListAppend(vs: seq<Js>, v: Js, first: bool, c: Counts)
    requires AllPlain(vs) && Plain(v)
    ensures ListCost(vs + [v], first, c) == EntryCost(v, first && vs == [], ListCost(vs, first, c))
    decreases |vs|
  {
    hide ListCost, EntryCost;
    ListStep(vs, first, c);
    ListStep(vs + [v], first, c);
    if vs == [] {
      assert [] + [v] == [v] && [v][1..] == [];
      ListStep([], false, EntryCost(v, first, c));
    } else {
      assert (vs + [v])[1..] == vs[1..] + [v];
      ListAppend(vs[1..], v, false, EntryCost(vs[0], first, c));
    }
  }

  /** Two neighbours may change places. */
  lemma EntriesSwap(x: Js, y: Js, first: bool, c: Counts)
    requires Plain(x) && Plain(y)
    ensures EntryCost(x, false, EntryCost(y, first, c)) == EntryCost(y, false, EntryCost(x, first, c))
  {
    hide Cost;
    var d := CommaCost(first, c.Entry());
    CostsAlike(x, CommaCost(false, Cost(y, d).Entry()), d);
    CostsAlike(y, CommaCost(false, Cost(x, d).Entry()), d);
  }

  /** Any entry may come first. */
  lemma {:induction false} EntryFirst(a: seq<Js>, x: Js, b: seq<Js>, first: bool, c: Counts)
    requires AllPlain(a) && Plain(x) && AllPlain(b)
    ensures AllPlain(a + [x] + b) && AllPlain(a + b)
    ensures ListCost(a + [x] + b, first, c) == ListCost(a + b, false, EntryCost(x, first, c))
    decreases |a|
  {
    hide ListCost, EntryCost, Plain;
    var all := a + [x] + b;
    ListStep(all, first, c);
    if a == [] {
      assert all[1..] == b && a + b == b && all[0] == x;
    } else {
      var y, rest := a[0], a[1..];
      assert all[0] == y && all[1..] == rest + [x] + b && (a + b)[1..] == rest + b && (a + b)[0] == y;
      EntryFirst(rest, x, b, false, EntryCost(y, first, c));
      EntriesSwap(x, y, first, c);
      ListStep(a + b, false, EntryCost(x, first, c));
    }
  }

  lemma ListGrows(vs: seq<Js>, first: bool, c: Counts)
    requires AllPlain(vs)
    ensures c.AtMost(ListCost(vs, first, c))
  {
    hide Cost, ItemText, ItemsCost, ItemsText;
    ItemsPlain(vs);
    ItemsAreText(ItemsOf(vs), first, c);
  }

  /** A list of some of the occurrences, in any order, costs at most the plan. */
  lemma {:induction false} ListBound(built: seq<Js>, plan: seq<Js>, first: bool, c: Counts)
    requires AllPlain(built) && AllPlain(plan) && multiset(built) <= multiset(plan)
    ensures ListCost(built, first, c).AtMost(ListCost(plan, first, c))
    decreases |built|
  {
    hide ListCost, EntryCost, Plain;
    ListStep(built, first, c);
    if built == [] {
      ListGrows(plan, first, c);
    } else {
      var x := built[0];
      var a, b := TakeOne(built, plan);
      PartsPlain(a, x, b);
      EntryFirst(a, x, b, first, c);
      ListBound(built[1..], a + b, false, EntryCost(x, first, c));
    }
  }

  lemma PartsPlain(a: seq<Js>, x: Js, b: seq<Js>)
    requires AllPlain(a + [x] + b)
    ensures AllPlain(a) && AllPlain(b) && Plain(x)
  {
    var all := a + [x] + b;
    assert forall i :: 0 <= i < |a| ==> all[i] == a[i];
    assert forall i :: 0 <= i < |b| ==> all[|a| + 1 + i] == b[i];
    assert all[|a|] == x;
  }

  /** The first of the values built is one of the occurrences; the others are among the rest. */
  lemma TakeOne<T>(built: seq<T>, plan: seq<T>) returns (a: seq<T>, b: seq<T>)
    requires built != [] && multiset(built) <= multiset(plan)
    ensures plan == a + [built[0]] + b && multiset(built[1..]) <= multiset(a + b)
  {
    var x := built[0];
    assert built == [x] + built[1..];
    assert x in multiset(built);
    var i :| 0 <= i < |plan| && plan[i] == x;
    a, b := plan[..i], plan[i + 1..];
    assert plan == a + [x] + b;
    Counted(a, x, b);
    Counted([], x, built[1..]);
    assert [] + [x] + built[1..] == built && [] + built[1..] == built[1..];
    OneLess(multiset(built), multiset(built[1..]), multiset(plan), multiset(a + b), x);
  }

  lemma OneLess<T>(m: multiset<T>, m': multiset<T>, n: multiset<T>, n': multiset<T>, x: T)
    requires m <= n && forall y :: m[y] == m'[y] + if y == x then 1 else 0
    requires forall y :: n[y] == n'[y] + if y == x then 1 else 0
    ensures m' <= n'
  {}

  lemma Counted<T>(a: seq<T>, x: T, b: seq<T>)
    ensures forall y :: multiset(a + [x] + b)[y] == multiset(a + b)[y] + if y == x then 1 else 0
  {
    assert multiset(a + [x] + b) == multiset(a) + multiset{x} + multiset(b);
    assert multiset(a + b) == multiset(a) + multiset(b);
  }

  // ----- Maps

  datatype Named = Named(key: Text, js: Js)

  function FieldsOf(fs: seq<Named>): Fields {
    if fs == [] then NoField else Field(fs[0].key, Data(fs[0].js), FieldsOf(fs[1..]))
  }

  predicate AllNamed(fs: seq<Named>) {
    forall i :: 0 <= i < |fs| ==> Narrow(fs[i].key) && Plain(fs[i].js) && !fs[i].js.Omitted?
  }

  lemma {:induction false} FieldsPlain(fs: seq<Named>)
    requires AllNamed(fs)
    ensures PlainFields(FieldsOf(fs))
  {
    if fs != [] { FieldsPlain(fs[1..]); }
  }

  /** The counters after the members `fs`. */
  function MapCost(fs: seq<Named>, first: bool, c: Counts): Counts
    requires AllNamed(fs)
  {
    FieldsPlain(fs);
    FieldsCost(FieldsOf(fs), first, c)
  }

  lemma MapStep(fs: seq<Named>, first: bool, c: Counts)
    requires AllNamed(fs)
    ensures MapCost(fs, first, c) == if fs == [] then c else MapCost(fs[1..], false, FieldCost(fs[0].key, fs[0].js, first, c))
  {
    hide Cost, StringCost;
    FieldsPlain(fs);
    if fs != [] { FieldsPlain(fs[1..]); }
  }

  lemma {:induction false} MapAppend(fs: seq<Named>, f: Named, first: bool, c: Counts)
    requires AllNamed(fs) && AllNamed([f])
    ensures AllNamed(fs + [f]) && Plain(f.js)
    ensures MapCost(fs + [f], first, c) == FieldCost(f.key, f.js, first && fs == [], MapCost(fs, first, c))
    decreases |fs|
  {
    hide MapCost, FieldCost, Plain;
    assert [f][0] == f;
    assert AllNamed(fs + [f]);
    MapStep(fs, first, c);
    MapStep(fs + [f], first, c);
    if fs == [] {
      assert [] + [f] == [f] && [f][1..] == [];
      MapStep([], false, FieldCost(f.key, f.js, first, c));
    } else {
      assert (fs + [f])[1..] == fs[1..] + [f];
      MapAppend(fs[1..], f, false, FieldCost(fs[0].key, fs[0].js, first, c));
    }
  }

  /** A member may be counted before or after others. */
  lemma {:induction false} MapCommutes(fs: seq<Named>, f: Named, c: Counts)
    requires AllNamed(fs) && Plain(f.js)
    ensures FieldCost(f.key, f.js, false, MapCost(fs, false, c)) == MapCost(fs, false, FieldCost(f.key, f.js, false, c))
    decreases |fs|
  {
    hide MapCost, FieldCost, Plain;
    MapStep(fs, false, c);
    MapStep(fs, false, FieldCost(f.key, f.js, false, c));
    if fs != [] {
      var g := fs[0];
      MapCommutes(fs[1..], f, FieldCost(g.key, g.js, false, c));
      FieldsAlike(f.key, f.js, FieldCost(g.key, g.js, false, c), c);
      FieldsAlike(g.key, g.js, FieldCost(f.key, f.js, false, c), c);
    }
  }

  lemma {:induction false} MapMonotone(fs: seq<Named>, c: Counts, d: Counts)
    requires AllNamed(fs) && c.AtMost(d)
    ensures MapCost(fs, false, c).AtMost(MapCost(fs, false, d))
    decreases |fs|
  {
    hide MapCost, FieldCost, Plain;
    MapStep(fs, false, c);
    MapStep(fs, false, d);
    if fs != [] {
      FieldsAlike(fs[0].key, fs[0].js, c, d);
      MapMonotone(fs[1..], FieldCost(fs[0].key, fs[0].js, false, c), FieldCost(fs[0].key, fs[0].js, false, d));
    }
  }

  /** The first member only saves a comma. */
  lemma FirstSaves(fs: seq<Named>, c: Counts)
    requires AllNamed(fs) && fs != []
    ensures MapCost(fs, true, c).Add(1, 1) == MapCost(fs, false, c)
  {
    hide Cost, StringCost, FieldsCost;
    FieldsPlain(fs);
    FieldsPlain(fs[1..]);
    var f := fs[0];
    var d := Counts(1, 1, 0, 0, 0, 0, 0);
    MapStep(fs, true, c);
    MapStep(fs, false, c);
    var c1 := FieldCost(f.key, f.js, true, c);
    FieldShifts(f.key, f.js, true, c, d);
    assert CommaCost(true, c.Plus(d).Member()) == CommaCost(false, c.Member());
    assert FieldCost(f.key, f.js, false, c) == c1.Plus(d);
    FieldsShift(FieldsOf(fs[1..]), false, c1, d);
    assert MapCost(fs, true, c).Plus(d) == MapCost(fs, true, c).Add(1, 1);
  }
}

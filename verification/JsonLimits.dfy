/**
 What the meter's limits mean: its counters and its local checks as facts about all values, keys and strings inside a value.
 */
module JsonLimits {
  import opened Basics
  import opened JsonText
  import opened JsonMeter
  import opened Utf16

  // ----- Everything inside a value

  function ValuesIn(v: Js): seq<Js>
    requires Plain(v)
  {
    [v] + match v
          case Arr(items) => ValuesInItems(items)
          case Obj(fields) => ValuesInFields(fields)
          case _ => []
  }

  function ValuesInItems(items: Items): seq<Js>
    requires PlainItems(items)
  {
    if items.NoItem? then [] else ValuesIn(items.slot.js) + ValuesInItems(items.next)
  }

  function ValuesInFields(fields: Fields): seq<Js>
    requires PlainFields(fields)
  {
    if fields.NoField? then []
    else (if fields.slot.js.Omitted? then [] else ValuesIn(fields.slot.js)) + ValuesInFields(fields.next)
  }

  /** The keys of the members that are written. */
  function KeysIn(v: Js): seq<Text>
    requires Plain(v)
  {
    match v
    case Arr(items) => KeysInItems(items)
    case Obj(fields) => KeysInFields(fields)
    case _ => []
  }

  function KeysInItems(items: Items): seq<Text>
    requires PlainItems(items)
  {
    if items.NoItem? then [] else KeysIn(items.slot.js) + KeysInItems(items.next)
  }

  function KeysInFields(fields: Fields): seq<Text>
    requires PlainFields(fields)
  {
    if fields.NoField? then []
    else (if fields.slot.js.Omitted? then [] else [fields.key] + KeysIn(fields.slot.js)) + KeysInFields(fields.next)
  }

  function DepthOf(v: Js): nat
    requires Plain(v)
  {
    match v
    case Arr(items) => 1 + DepthInItems(items)
    case Obj(fields) => 1 + DepthInFields(fields)
    case _ => 0
  }

  function DepthInItems(items: Items): nat
    requires PlainItems(items)
  {
    if items.NoItem? then 0 else Max(DepthOf(items.slot.js), DepthInItems(items.next))
  }

  function DepthInFields(fields: Fields): nat
    requires PlainFields(fields)
  {
    if fields.NoField? then 0
    else Max(if fields.slot.js.Omitted? then 0 else DepthOf(fields.slot.js), DepthInFields(fields.next))
  }

  function Containers(vs: seq<Js>): nat {
    if vs == [] then 0 else (if vs[0].Arr? || vs[0].Obj? then 1 else 0) + Containers(vs[1..])
  }

  function StringUnits(vs: seq<Js>): nat {
    if vs == [] then 0 else (if vs[0].Str? then |vs[0].units| else 0) + StringUnits(vs[1..])
  }

  function KeyUnits(keys: seq<Text>): nat {
    if keys == [] then 0 else |keys[0]| + KeyUnits(keys[1..])
  }

  lemma {:induction false} SumsConcat(a: seq<Js>, b: seq<Js>)
    ensures Containers(a + b) == Containers(a) + Containers(b) && StringUnits(a + b) == StringUnits(a) + StringUnits(b)
  {
    if a == [] {
      assert a + b == b;
    } else {
      SumsConcat(a[1..], b);
      assert (a + b)[1..] == a[1..] + b;
    }
  }

  lemma {:induction false} KeysConcat(a: seq<Text>, b: seq<Text>)
    ensures KeyUnits(a + b) == KeyUnits(a) + KeyUnits(b)
  {
    if a == [] {
      assert a + b == b;
    } else {
      KeysConcat(a[1..], b);
      assert (a + b)[1..] == a[1..] + b;
    }
  }

  // ----- The counters

  /** The counters grow by the numbers of these values and keys; `roots` of the values are neither entries nor members. */
  predicate Grows(c: Counts, c': Counts, vs: seq<Js>, keys: seq<Text>, roots: nat) {
    && c'.values == c.values + |vs| && c'.containers == c.containers + Containers(vs) && c'.members == c.members + |keys|
    && c'.members + c'.entries == c.members + c.entries + |vs| - roots
    && c'.units == c.units + StringUnits(vs) + KeyUnits(keys)
  }

  lemma Together(c: Counts, c1: Counts, c2: Counts, vs: seq<Js>, ks: seq<Text>, ws: seq<Js>, ls: seq<Text>)
    requires Grows(c, c1, vs, ks, 0) && Grows(c1, c2, ws, ls, 0)
    ensures Grows(c, c2, vs + ws, ks + ls, 0)
  {
    SumsConcat(vs, ws);
    KeysConcat(ks, ls);
  }

  lemma {:induction false} BodyKeeps(s: Text, c: Counts)
    ensures var d := BodyCost(s, c);
            d.values == c.values && d.containers == c.containers && d.members == c.members && d.entries == c.entries && d.units == c.units
    decreases |s|
  {
    hide UnitCost;
    if s != [] {
      if |s| > 1 && High(s[0]) && Low(s[1]) {
        BodyKeeps(s[2..], c.Add(2, 4));
      } else {
        BodyKeeps(s[1..], c.Add(UnitCost(s[0]).0, UnitCost(s[0]).1));
      }
    }
  }

  lemma {:induction false} CountsMean(v: Js, c: Counts)
    requires Plain(v)
    ensures Grows(c, Cost(v, c), ValuesIn(v), KeysIn(v), 1)
    decreases v
  {
    hide BodyCost, ItemsCost, FieldsCost, ValuesInItems, ValuesInFields, KeysInItems, KeysInFields;
    FirstSums(v, ValuesIn(v)[1..]);
    assert ValuesIn(v) == [v] + ValuesIn(v)[1..];
    match v
    case Str(us) => BodyKeeps(us, c.Value().Units(|us|).Add(2, 2));
    case Arr(items) => ItemsMean(items, true, c.Value().Container().Add(2, 2));
    case Obj(fields) => FieldsMean(fields, true, c.Value().Container().Add(2, 2));
    case _ =>
  }

  lemma FirstSums(v: Js, vs: seq<Js>)
    ensures Containers([v] + vs) == (if v.Arr? || v.Obj? then 1 else 0) + Containers(vs)
    ensures StringUnits([v] + vs) == (if v.Str? then |v.units| else 0) + StringUnits(vs)
    ensures Containers([]) == 0 && StringUnits([]) == 0 && KeyUnits([]) == 0
  {
    assert ([v] + vs)[1..] == vs;
  }

  lemma {:induction false} ItemsMean(items: Items, first: bool, c: Counts)
    requires PlainItems(items)
    ensures Grows(c, ItemsCost(items, first, c), ValuesInItems(items), KeysInItems(items), 0)
    decreases items
  {
    hide Cost, ValuesIn, KeysIn;
    if items.Item? {
      var v := items.slot.js;
      var c1 := Cost(v, CommaCost(first, c.Entry()));
      CountsMean(v, CommaCost(first, c.Entry()));
      ItemsMean(items.next, false, c1);
      Together(c, c1, ItemsCost(items.next, false, c1), ValuesIn(v), KeysIn(v), ValuesInItems(items.next), KeysInItems(items.next));
    }
  }

  lemma {:induction false} FieldsMean(fields: Fields, first: bool, c: Counts)
    requires PlainFields(fields)
    ensures Grows(c, FieldsCost(fields, first, c), ValuesInFields(fields), KeysInFields(fields), 0)
    decreases fields
  {
    hide Cost, ValuesIn, KeysIn, BodyCost;
    if fields.Field? {
      var v, next := fields.slot.js, fields.next;
      if v.Omitted? {
        FieldsMean(next, first, c);
        assert [] + ValuesInFields(next) == ValuesInFields(next) && [] + KeysInFields(next) == KeysInFields(next);
      } else {
        var c0 := StringCost(fields.key, CommaCost(first, c.Member())).Add(1, 1);
        var c1 := Cost(v, c0);
        BodyKeeps(fields.key, CommaCost(first, c.Member()).Units(|fields.key|).Add(2, 2));
        CountsMean(v, c0);
        FieldsMean(next, false, c1);
        KeysConcat([fields.key], KeysIn(v));
        Together(c, c1, FieldsCost(next, false, c1), ValuesIn(v), [fields.key] + KeysIn(v), ValuesInFields(next), KeysInFields(next));
      }
    }
  }

  // ----- Depth, strings and keys

  predicate StringsOk(vs: seq<Js>) {
    forall i :: 0 <= i < |vs| && vs[i].Str? ==> |vs[i].units| <= 1048576
  }

  predicate KeysOk(keys: seq<Text>) {
    forall i :: 0 <= i < |keys| ==> |keys[i]| <= 1024
  }

  lemma OkConcat(vs: seq<Js>, ws: seq<Js>, ks: seq<Text>, ls: seq<Text>)
    ensures StringsOk(vs + ws) <==> StringsOk(vs) && StringsOk(ws)
    ensures KeysOk(ks + ls) <==> KeysOk(ks) && KeysOk(ls)
  {
    if StringsOk(vs + ws) {
      assert forall i :: 0 <= i < |vs| ==> (vs + ws)[i] == vs[i];
      forall i | 0 <= i < |ws| && ws[i].Str? ensures |ws[i].units| <= 1048576 { assert (vs + ws)[|vs| + i] == ws[i]; }
    }
    if KeysOk(ks + ls) {
      assert forall i :: 0 <= i < |ks| ==> (ks + ls)[i] == ks[i];
      forall i | 0 <= i < |ls| ensures |ls[i]| <= 1024 { assert (ks + ls)[|ks| + i] == ls[i]; }
    }
  }

  lemma {:induction false} LocalMeans(v: Js, depth: nat)
    requires Plain(v)
    ensures Local(v, depth) && depth <= 16 <==> depth + DepthOf(v) <= 16 && StringsOk(ValuesIn(v)) && KeysOk(KeysIn(v))
    decreases v
  {
    hide StringsOk, KeysOk, LocalItems, LocalFields, ValuesInItems, ValuesInFields, KeysInItems, KeysInFields, DepthInItems, DepthInFields;
    var inside := ValuesIn(v)[1..];
    OkConcat([v], inside, [], KeysIn(v));
    assert ValuesIn(v) == [v] + inside;
    OneString(v);
    match v
    case Arr(items) => LocalItemsMean(items, depth + 1);
    case Obj(fields) => LocalFieldsMean(fields, depth + 1);
    case _ =>
  }

  lemma OneString(v: Js)
    ensures StringsOk([v]) <==> (v.Str? ==> |v.units| <= 1048576)
    ensures StringsOk([]) && KeysOk([])
  {
    assert [v][0] == v;
  }

  lemma {:induction false} LocalItemsMean(items: Items, depth: nat)
    requires PlainItems(items)
    ensures LocalItems(items, depth) && depth <= 16 <==> depth + DepthInItems(items) <= 16 && StringsOk(ValuesInItems(items)) && KeysOk(KeysInItems(items))
    decreases items
  {
    hide StringsOk, KeysOk, Local, ValuesIn, KeysIn, DepthOf;
    if items.Item? {
      LocalMeans(items.slot.js, depth);
      LocalItemsMean(items.next, depth);
      OkConcat(ValuesIn(items.slot.js), ValuesInItems(items.next), KeysIn(items.slot.js), KeysInItems(items.next));
    } else {
      OneString(Omitted);
    }
  }

  lemma {:induction false} LocalFieldsMean(fields: Fields, depth: nat)
    requires PlainFields(fields)
    ensures LocalFields(fields, depth) && depth <= 16 <==> depth + DepthInFields(fields) <= 16 && StringsOk(ValuesInFields(fields)) && KeysOk(KeysInFields(fields))
    decreases fields
  {
    hide StringsOk, Local, ValuesIn, KeysIn, DepthOf;
    if fields.Field? {
      var v, next := fields.slot.js, fields.next;
      LocalFieldsMean(next, depth);
      if v.Omitted? {
        assert [] + ValuesInFields(next) == ValuesInFields(next) && [] + KeysInFields(next) == KeysInFields(next);
      } else {
        LocalMeans(v, depth);
        OkConcat(ValuesIn(v), ValuesInFields(next), [fields.key], KeysIn(v));
        OkConcat([], [], [fields.key] + KeysIn(v), KeysInFields(next));
        assert [fields.key][0] == fields.key;
      }
    } else {
      OneString(Omitted);
    }
  }
}

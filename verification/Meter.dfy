/**
 The meter in its own form: one counts record, advanced while looping over characters, entries and members.
 */
module Meter {
  import opened Basics
  import opened JsonText
  import opened Utf16
  import opened JsonMeter
  import opened JsonReading

  datatype Status = Fine | Limit | Protocol

  /** Digits are ASCII and strings are UTF-16: what the language guarantees of any value. */
  predicate Typed(v: Js) {
    match v
    case Finite(ds) => forall i :: 0 <= i < |ds| ==> ds[i] < 128
    case Str(us) => Narrow(us)
    case Arr(items) => TypedItems(items)
    case Obj(fields) => TypedFields(fields)
    case _ => true
  }

  predicate TypedItems(items: Items) {
    items.Item? ==> (items.slot.Data? ==> Typed(items.slot.js)) && TypedItems(items.next)
  }

  predicate TypedFields(fields: Fields) {
    fields.Field? ==> Narrow(fields.key) && (fields.slot.Data? ==> Typed(fields.slot.js)) && TypedFields(fields.next)
  }

  class JsonCounter {
    const maximum: nat
    var counts: Counts

    constructor (maximum: nat)
      ensures this.maximum == maximum && counts == ZERO
    {
      this.maximum, counts := maximum, ZERO;
    }

    method Add(text: nat, bytes: nat) returns (e: Status)
      modifies this
      ensures counts == old(counts).Add(text, bytes)
      ensures e == if counts.text > maximum || counts.bytes > maximum then Limit else Fine
    {
      counts := counts.Add(text, bytes);
      e := if counts.text > maximum || counts.bytes > maximum then Limit else Fine;
    }

    /** The source's `string`. */
    method MeterString(us: Text, key: bool) returns (e: Status)
      requires counts.Within(maximum)
      modifies this
      ensures e == if |us| <= (if key then 1024 else COMPLETE_LIMIT) && StringCost(us, old(counts)).Within(maximum) then Fine else Limit
      ensures e == Fine ==> counts == StringCost(us, old(counts))
    {
      BodyGrows(us, counts.Units(|us|).Add(2, 2));
      if |us| > (if key then 1024 else COMPLETE_LIMIT) { return Limit; }
      counts := counts.Units(|us|);
      if counts.units > SOURCE_LIMIT { return Limit; }
      e := Add(2, 2);
      if e != Fine { return; }
      ghost var start := counts;
      var i := 0;
      assert us[0..] == us;
      while i < |us|
        invariant 0 <= i <= |us| && e == Fine && counts.Within(maximum) && BodyCost(us[i..], counts) == BodyCost(us, start)
      {
        hide UnitCost;
        var c := us[i];
        ghost var rest := us[i..];
        assert rest[0] == c && rest[1..] == us[i + 1..];
        if 0xd800 <= c <= 0xdbff && i + 1 < |us| && 0xdc00 <= us[i + 1] <= 0xdfff {
          assert rest[1] == us[i + 1] && rest[2..] == us[i + 2..];
          e := Add(2, 4);
          BodyGrows(rest[2..], counts);
          i := i + 1;
        } else {
          assert i + 1 < |us| ==> rest[1] == us[i + 1];
          var cost := UnitCost(c);
          e := Add(cost.0, cost.1);
          BodyGrows(rest[1..], counts);
        }
        if e != Fine { return; }
        i := i + 1;
      }
    }

    /** The source's `item`. */
    method MeterItem(v: Js, depth: nat) returns (e: Status)
      requires counts.Within(maximum) && Typed(v)
      modifies this
      ensures Plain(v) ==> e == if Admits(v, depth, old(counts), maximum) then Fine else Limit
      ensures Plain(v) && e == Fine ==> counts == Cost(v, old(counts))
      ensures e == Fine ==> Plain(v) && counts.Within(maximum)
      decreases v, 2
    {
      hide ItemText, StringCost, ItemsCost, FieldsCost, PlainItems, PlainFields, TypedItems, TypedFields;
      if Plain(v) { ItemIsText(v, counts); }
      ghost var c0 := counts;
      counts := counts.Value();
      if counts.values > 65536 {
        if Plain(v) { ValueGrows(v, c0); }
        return Limit;
      }
      match v
      case Str(us) => e := MeterString(us, false);
      case Bool(b) => if b { e := Add(4, 4); } else { e := Add(5, 5); }
      case Finite(ds) => e := Add(|ds|, |ds|);
      case Big => e := Limit;
      case Omitted => e := Add(4, 4);
      case Null => e := Add(4, 4);
      case NotFinite => e := Add(4, 4);
      case Foreign =>
        if depth >= 16 || counts.containers + 1 > 16384 { return Limit; }
        e := Protocol;
      case Arr(items) => e := MeterContainer(v, depth);
      case Obj(fields) => e := MeterContainer(v, depth);
    }

    /** An array or an object, once its own value has been counted. */
    method MeterContainer(v: Js, depth: nat) returns (e: Status)
      requires counts.Within(maximum) && Typed(v) && (v.Arr? || v.Obj?)
      modifies this
      ensures Plain(v) ==> e == if Local(v, depth) && Inner(v, old(counts)).Within(maximum) then Fine else Limit
      ensures e == Fine ==> Plain(v) && counts == Inner(v, old(counts)) && counts.Within(maximum)
      decreases v, 1
    {
      if Plain(v) { InnerGrows(v, counts); }
      if depth >= 16 || counts.containers + 1 > 16384 { return Limit; }
      counts := counts.Container();
      e := Add(2, 2);
      if e != Fine { return; }
      if v.Arr? {
        e := MeterItems(v.items, depth + 1);
      } else {
        e := MeterFields(v.fields, depth + 1);
      }
    }

    method MeterItems(items: Items, depth: nat) returns (e: Status)
      requires counts.Within(maximum) && TypedItems(items)
      modifies this
      ensures PlainItems(items) ==>
                e == if LocalItems(items, depth) && ItemsCost(items, true, old(counts)).Within(maximum) then Fine else Limit
      ensures e == Fine ==> PlainItems(items) && counts == ItemsCost(items, true, old(counts)) && counts.Within(maximum)
      decreases items, 0
    {
      ghost var c0 := counts;
      var first, rest := true, items;
      while rest.Item?
        invariant rest == items || rest < items
        invariant counts.Within(maximum) && TypedItems(rest) && (PlainItems(items) <==> PlainItems(rest))
        invariant PlainItems(items) ==>
                    && ItemsCost(rest, first, counts) == ItemsCost(items, true, c0)
                    && (LocalItems(rest, depth) <==> LocalItems(items, depth))
        decreases rest
      {
        if PlainItems(rest) { ItemsGrow(rest, first, counts); }
        counts := counts.Entry();
        if counts.entries + counts.members > 32768 { return Limit; }
        if !first {
          e := Add(1, 1);
          if e != Fine { return; }
        }
        if rest.slot.Accessor? { return Protocol; }
        e := MeterItem(rest.slot.js, depth);
        if e != Fine { return; }
        first, rest := false, rest.next;
      }
      e := Fine;
    }

    method MeterFields(fields: Fields, depth: nat) returns (e: Status)
      requires counts.Within(maximum) && TypedFields(fields)
      modifies this
      ensures PlainFields(fields) ==>
                e == if LocalFields(fields, depth) && FieldsCost(fields, true, old(counts)).Within(maximum) then Fine else Limit
      ensures e == Fine ==> PlainFields(fields) && counts == FieldsCost(fields, true, old(counts)) && counts.Within(maximum)
      decreases fields, 0
    {
      hide Cost, ItemText, StringCost, FieldsCost, FieldsText, FieldCost, Local;
      ghost var c0 := counts;
      var first, rest := true, fields;
      while rest.Field?
        invariant rest == fields || rest < fields
        invariant counts.Within(maximum) && TypedFields(rest) && (PlainFields(fields) <==> PlainFields(rest))
        invariant PlainFields(fields) ==>
                    && FieldsCost(rest, first, counts) == FieldsCost(fields, true, c0)
                    && (LocalFields(rest, depth) <==> LocalFields(fields, depth))
        decreases rest
      {
        if rest.slot.Accessor? { return Protocol; }
        if PlainFields(rest) { FieldsStep(rest, first, counts); }
        if !rest.slot.js.Omitted? {
          e := MeterField(rest.key, rest.slot.js, first, depth);
          if e != Fine { return; }
          first := false;
        }
        rest := rest.next;
      }
      if PlainFields(rest) { FieldsUnfold(rest, first, counts); }
      e := Fine;
    }

    /** One member that is not omitted. */
    method MeterField(key: Text, v: Js, first: bool, depth: nat) returns (e: Status)
      requires counts.Within(maximum) && Narrow(key) && Typed(v) && !v.Omitted?
      modifies this
      ensures Plain(v) ==> e == if |key| <= 1024 && Local(v, depth) && FieldCost(key, v, first, old(counts)).Within(maximum) then Fine else Limit
      ensures e == Fine ==> Plain(v) && counts == FieldCost(key, v, first, old(counts)) && counts.Within(maximum)
      decreases v, 3
    {
      hide Cost, StringCost, Local;
      if Plain(v) { FieldGrows(key, v, first, counts); }
      counts := counts.Member();
      if counts.members + counts.entries > 32768 { return Limit; }
      if !first {
        e := Add(1, 1);
        if e != Fine { return; }
      }
      e := MeterString(key, true);
      if e != Fine { return; }
      e := Add(1, 1);
      if e != Fine { return; }
      e := MeterItem(v, depth);
    }
  }

  function Inner(v: Js, c: Counts): Counts
    requires Plain(v) && (v.Arr? || v.Obj?)
  {
    var c1 := c.Container().Add(2, 2);
    if v.Arr? then ItemsCost(v.items, true, c1) else FieldsCost(v.fields, true, c1)
  }

  lemma ValueGrows(v: Js, c: Counts)
    requires Plain(v)
    ensures c.Value().AtMost(Cost(v, c))
  {
    var c1 := c.Value();
    match v
    case Str(us) => BodyGrows(us, c1.Units(|us|).Add(2, 2));
    case Arr(items) => ItemsAreText(items, true, c1.Container().Add(2, 2));
    case Obj(fields) => FieldsAreText(fields, true, c1.Container().Add(2, 2));
    case _ =>
  }

  lemma InnerGrows(v: Js, c: Counts)
    requires Plain(v) && (v.Arr? || v.Obj?)
    ensures c.Container().Add(2, 2).AtMost(Inner(v, c))
  {
    if v.Arr? {
      ItemsAreText(v.items, true, c.Container().Add(2, 2));
    } else {
      FieldsAreText(v.fields, true, c.Container().Add(2, 2));
    }
  }

  /** Each intermediate counter of an element is below the final one. */
  lemma ItemsGrow(items: Items, first: bool, c: Counts)
    requires PlainItems(items) && items.Item?
    ensures var c1 := CommaCost(first, c.Entry());
            var c2 := Cost(items.slot.js, c1);
            c.Entry().AtMost(c1) && c1.AtMost(c2) && c2.AtMost(ItemsCost(items, first, c))
  {
    var c1 := CommaCost(first, c.Entry());
    ItemIsText(items.slot.js, c1);
    ItemsAreText(items.next, false, Cost(items.slot.js, c1));
  }

  lemma FieldGrows(key: Text, v: Js, first: bool, c: Counts)
    requires Plain(v)
    ensures var c1 := CommaCost(first, c.Member());
            var c2 := StringCost(key, c1);
            var c3 := c2.Add(1, 1);
            c.Member().AtMost(c1) && c1.AtMost(c2) && c2.AtMost(c3) && c3.AtMost(FieldCost(key, v, first, c))
  {
    hide BodyCost, Cost, ItemText;
    var c1 := CommaCost(first, c.Member());
    BodyGrows(key, c1.Units(|key|).Add(2, 2));
    ItemIsText(v, StringCost(key, c1).Add(1, 1));
  }

  /** One member of the cost, which never falls afterwards. */
  lemma FieldsStep(fields: Fields, first: bool, c: Counts)
    requires PlainFields(fields) && fields.Field?
    ensures fields.slot.js.Omitted? ==> FieldsCost(fields, first, c) == FieldsCost(fields.next, first, c)
    ensures !fields.slot.js.Omitted? ==>
              var after := FieldCost(fields.key, fields.slot.js, first, c);
              FieldsCost(fields, first, c) == FieldsCost(fields.next, false, after) && after.AtMost(FieldsCost(fields, first, c))
  {
    hide Cost, ItemText, StringCost, FieldsCost, FieldsText;
    FieldsUnfold(fields, first, c);
    if !fields.slot.js.Omitted? { FieldsAreText(fields.next, false, FieldCost(fields.key, fields.slot.js, first, c)); }
  }

  function Maximum(stored: bool): nat {
    if stored then COMPLETE_LIMIT else SOURCE_LIMIT
  }

  ghost predicate Admitted(v: Js, stored: bool)
    requires Plain(v)
  {
    forall c: Counts :: c.Clean() ==> Admits(v, 0, c, Maximum(stored))
  }

  /** The text of the value, if it has one, is within the limit. */
  predicate Written(v: Js, stored: bool)
    requires Plain(v)
  {
    var text := Stringify(v);
    text.Some? ==> Narrow(text.value) && TextFits(text.value, Maximum(stored))
  }

  /** The source's `admitAssignmentJson`: for a value that has a text, admission is a verdict on that text and the tree. */
  method Admit(v: Js, stored: bool) returns (e: Status)
    requires Typed(v)
    ensures Plain(v) ==> e == if Admitted(v, stored) then Fine else Limit
    ensures e == Fine ==> Plain(v)
    ensures e == Fine ==> Written(v, stored)
  {
    hide Cost, Stringify, Local, TextFits, Narrow;
    var meter := new JsonCounter(Maximum(stored));
    e := meter.MeterItem(v, 0);
    if e == Fine && Stringify(v).Some? { SizeDecides(v, stored); }
  }

  /** The source's `assignmentJsonText`: the text, if it exists and is admitted before it is built. */
  method JsonTextOf(v: Js, stored: bool) returns (e: Status, text: Text)
    requires Typed(v)
    ensures e == Fine ==> Plain(v) && Stringify(v) == Some(text)
    ensures e == Fine ==> Narrow(text) && TextFits(text, Maximum(stored))
    ensures e == Fine && Numeric(v) ==> Reads(text, v)
    ensures Plain(v) ==> e == if v.Omitted? then Protocol else if Admitted(v, stored) then Fine else Limit
  {
    hide Cost, ItemText, Local, TextFits, Narrow, Numeric, Reads;
    text := [];
    e := Admit(v, stored);
    if v.Omitted? { OmittedIsAdmitted(v, Maximum(stored)); }
    if e != Fine { return; }
    var finished := Stringify(v);
    if finished.None? { return Protocol, []; }
    text := finished.value;
    if Numeric(v) { TextReads(v); }
  }
}

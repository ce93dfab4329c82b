/**
 The bounded validator of `worker/access-json.ts`: a recursive descent over UTF-16 code units that counts every
 occurrence before `JSON.parse` is allowed to run.

 The functions follow the source's closures, on what is left of the text instead of a cursor. `AccessValidator`
 has the cursor, the counters and the loops.
 */
module AccessJson {
  import opened Basics
  import opened JsonText

  /** The two ways the validator refuses: malformed text, or a limit of the profile. */
  datatype Result<+T> = Ok(value: T) | Invalid | Limit {
    predicate IsFailure() {
      !Ok?
    }

    function PropagateFailure<U>(): Result<U>
      requires !Ok?
    {
      if Limit? then Limit else Invalid
    }

    function Extract(): T
      requires Ok?
    {
      value
    }
  }

  datatype Profile =
    | Header | Payload | Jwks | Evidence | AuthorityUser | UserRecord | UserQuery | UserInit | AssignmentSource
    | PolicyCollection | PolicyPrincipals | PolicyBindings | PolicyIds | PolicySeeds | PolicyBindingReply
    | PolicyBindingRecord | PolicyReply

  datatype Limits = Limits(wire: nat, depth: nat, values: nat, containers: nat, members: nat, entries: nat, units: nat, string_: nat)

  const ASSIGNMENT_LIMITS := Limits(2097152, 16, 65536, 16384, 32768, 32768, 2097152, 1048576)
  const USER_LIMITS := Limits(2097152, 16, 16384, 4096, 8192, 8192, 2097152, 2097152)

  function LimitsOf(pr: Profile): Limits {
    match pr
    case Header => Limits(2048, 4, 64, 8, 32, 16, 2048, 2048)
    case Payload => Limits(8192, 8, 512, 64, 256, 128, 8192, 8192)
    case Jwks => Limits(262144, 8, 4096, 256, 2048, 1024, 65536, 4096)
    case Evidence => Limits(262144, 8, 4096, 256, 2048, 1024, 65536, 1024)
    case AuthorityUser => Limits(1048576, 16, 8192, 2048, 4096, 4096, 1048576, 1048576)
    case UserRecord => USER_LIMITS
    case UserQuery => USER_LIMITS
    case UserInit => USER_LIMITS
    case _ => ASSIGNMENT_LIMITS
  }

  predicate IsPolicy(pr: Profile) {
    pr.PolicyCollection? || pr.PolicyPrincipals? || pr.PolicyBindings? || pr.PolicyIds? || pr.PolicySeeds?
    || pr.PolicyBindingReply? || pr.PolicyBindingRecord? || pr.PolicyReply?
  }

  predicate IsUser(pr: Profile) {
    IsPolicy(pr) || pr.AuthorityUser? || pr.UserRecord? || pr.UserQuery? || pr.UserInit? || pr.AssignmentSource?
  }

  /** Where in a policy document the validator is. */
  datatype Position =
    | Nowhere | PrincipalsQuery | Seeds | PoliciesQuery | PolicyInit | BindingReply | Binding | PolicyReplyRoot
    | Principals | Bindings | Principal | Ids | PolicyEntries | Id | Seed | PolicyEntry

  function RootPosition(pr: Profile): Position {
    match pr
    case PolicyPrincipals => PrincipalsQuery
    case PolicyBindings => Seeds
    case PolicyIds => PoliciesQuery
    case PolicySeeds => PolicyInit
    case PolicyBindingReply => BindingReply
    case PolicyBindingRecord => Binding
    case PolicyReply => PolicyReplyRoot
    case _ => Nowhere
  }

  /** ASCII keys as code units. */
  function Ascii(s: string): Text {
    seq(|s|, i requires 0 <= i < |s| => s[i] as nat)
  }

  function MemberPosition(p: Position, child: Text): Position {
    if (p == PrincipalsQuery && child == Ascii("principals")) || (p == BindingReply && child == Ascii("missingPrincipals")) then Principals
    else if (p == BindingReply || p == Seed) && child == Ascii("bindings") then Bindings
    else if p == Seed && child == Ascii("principal") then Principal
    else if (p == PoliciesQuery && child == Ascii("policyIds")) || (p == PolicyReplyRoot && child == Ascii("missingPolicyIds")) then Ids
    else if (p == PolicyInit && child == Ascii("entries")) || (p == PolicyReplyRoot && child == Ascii("policies")) then PolicyEntries
    else if ((p == Principal || p == Binding) && child == Ascii("principalId"))
            || ((p == Binding || p == PolicyEntry) && child == Ascii("policyId")) then Id
    else Nowhere
  }

  function EntryPosition(p: Position): Position {
    match p
    case Principals => Principal
    case Seeds => Seed
    case Bindings => Binding
    case Ids => Id
    case PolicyEntries => PolicyEntry
    case PolicyInit => PolicyEntry
    case _ => Nowhere
  }

  /** The parameters of the source's `value` closure. */
  datatype Place = Place(depth: nat, key: Text, rootMember: bool, jwkRow: bool, insideJwk: bool, requestRow: bool,
                         rawEmail: bool, position: Position)

  function RootPlace(pr: Profile): Place {
    Place(0, [], false, false, false, false, false, RootPosition(pr))
  }

  function MemberPlace(pl: Place, child: Text): Place {
    Place(pl.depth + 1, child, pl.depth == 0, false, pl.insideJwk || pl.jwkRow, false,
          pl.requestRow && child == Ascii("email"), MemberPosition(pl.position, child))
  }

  predicate IsJwkRow(pr: Profile, pl: Place) {
    pr.Jwks? && pl.rootMember && pl.key == Ascii("keys")
  }

  predicate IsQueryEmail(pr: Profile, pl: Place) {
    pr.UserQuery? && pl.rootMember && pl.key == Ascii("emails")
  }

  predicate IsInitRow(pr: Profile, pl: Place) {
    pr.UserInit? && pl.depth == 0
  }

  function EntryPlace(pr: Profile, pl: Place): Place {
    Place(pl.depth + 1, pl.key, false, IsJwkRow(pr, pl), pl.insideJwk || pl.jwkRow, IsInitRow(pr, pl),
          IsQueryEmail(pr, pl), EntryPosition(pl.position))
  }

  /** Counters of particular arrays. */
  datatype Extra = Extra(rows: nat, audiences: nat, orgs: nat, teams: nat, occurrences: nat, principals: nat, bindings: nat) {
    predicate Ok() {
      rows <= 32 && audiences <= 32 && orgs <= 128 && teams <= 256 && occurrences <= 4096 && principals <= 1024 && bindings <= 4096
    }

    predicate AtMost(that: Extra) {
      && rows <= that.rows && audiences <= that.audiences && orgs <= that.orgs && teams <= that.teams
      && occurrences <= that.occurrences && principals <= that.principals && bindings <= that.bindings
    }
  }

  /** One more entry of the array at `pl`. */
  function CountEntry(pr: Profile, pl: Place, e: Extra): Extra {
    Extra(if IsJwkRow(pr, pl) then e.rows + 1 else e.rows,
          if pr.Payload? && pl.rootMember && pl.key == Ascii("aud") then e.audiences + 1 else e.audiences,
          if pr.Evidence? && pl.rootMember && pl.key == Ascii("orgs") then e.orgs + 1 else e.orgs,
          if pr.Evidence? && pl.rootMember && pl.key == Ascii("teams") then e.teams + 1 else e.teams,
          if IsQueryEmail(pr, pl) || IsInitRow(pr, pl) then e.occurrences + 1 else e.occurrences,
          if pl.position == Principals || pl.position == Seeds then e.principals + 1 else e.principals,
          if pl.position == Bindings then e.bindings + 1 else e.bindings)
  }

  predicate Within(pr: Profile, t: Tally) {
    var p := LimitsOf(pr);
    && t.values <= p.values && t.containers <= p.containers && t.members <= p.members
    && t.entries <= p.entries && t.units <= p.units
    && (pr.AssignmentSource? || IsPolicy(pr) ==> t.members + t.entries <= 32768)
  }

  // ----- Lexical parts

  function SkipSpace(s: Text): (rest: Text)
    ensures |rest| <= |s|
    decreases |s|
  {
    if s != [] && IsSpace(s[0]) then SkipSpace(s[1..]) else s
  }

  /** What limits one string: its length, the profile's units, and the decoded size of base64 key material. */
  datatype StringRule = StringRule(maximum: nat, unitLimit: nat, binary: Option<nat>)

  /** One string unit of the text, decoded, and what is left. */
  function TakeLetter(s: Text): (r: Result<(nat, Text)>)
    requires s != []
    ensures r.Ok? ==> |r.value.1| < |s|
  {
    if s[0] < 32 then Invalid
    else if s[0] != 92 then Ok((s[0], s[1..]))
    else if |s| < 2 then Invalid
    else if s[1] == 117 then
      if |s| < 6 || HexDigit(s[2]) < 0 || HexDigit(s[3]) < 0 || HexDigit(s[4]) < 0 || HexDigit(s[5]) < 0 then Invalid
      else Ok((((HexDigit(s[2]) * 16 + HexDigit(s[3])) * 16 + HexDigit(s[4])) * 16 + HexDigit(s[5]), s[6..]))
    else if ShortEscape(s[1]) < 0 then Invalid
    else Ok((ShortEscape(s[1]), s[2..]))
  }

  /** The number of '=' at the end. */
  function Padding(us: Text): (n: nat)
    ensures n <= |us|
  {
    if us == [] || us[|us| - 1] != 61 then 0 else 1 + Padding(us[..|us| - 1])
  }

  function Base64Cap(maximum: nat): nat {
    (maximum + 2) / 3 * 4
  }

  predicate StringFits(l: StringRule, us: Text, units: nat) {
    && |us| <= l.maximum && units + |us| <= l.unitLimit
    && (l.binary.Some? ==> |us| <= Base64Cap(l.binary.value) && (|us| - Padding(us)) * 3 / 4 <= l.binary.value)
  }

  /** The rest of a string whose units so far are `us`; the result has the text after the closing quote. */
  function Letters(l: StringRule, s: Text, us: Text, units: nat): (r: Result<(Text, Text)>)
    ensures r.Ok? ==> |r.value.0| < |s|
    decreases |s|
  {
    if s == [] then Invalid
    else if s[0] == 34 then
      if l.binary.Some? && (|us| - Padding(us)) * 3 / 4 > l.binary.value then Limit else Ok((s[1..], us))
    else
      var taken :- TakeLetter(s);
      if |us| + 1 > l.maximum || units + |us| + 1 > l.unitLimit then Limit
      else if l.binary.Some? && |us| + 1 > Base64Cap(l.binary.value) then Limit
      else Letters(l, taken.1, us + [taken.0], units)
  }

  /** A quoted string: the text after it and its decoded units. */
  function StringAt(l: StringRule, s: Text, units: nat): (r: Result<(Text, Text)>)
    ensures r.Ok? ==> |r.value.0| < |s|
  {
    if s == [] || s[0] != 34 then Invalid else Letters(l, s[1..], [], units)
  }

  /** Digits, of which the numeral may hold 64 characters in all; `used` counts those before. */
  function SkipDigits(s: Text, used: nat): (r: Result<(Text, nat)>)
    ensures r.Ok? ==> |r.value.0| <= |s| && r.value.1 == used + |s| - |r.value.0|
    decreases |s|
  {
    if s == [] || !IsDigit(s[0]) then Ok((s, used))
    else if used >= 64 then Limit
    else SkipDigits(s[1..], used + 1)
  }

  function WholeAt(s: Text, used: nat): (r: Result<(Text, nat)>)
    ensures r.Ok? ==> |r.value.0| <= |s| && r.value.1 == used + |s| - |r.value.0|
  {
    if s == [] then Invalid
    else if s[0] == 48 then Ok((s[1..], used + 1))
    else if !(49 <= s[0] <= 57) then Invalid
    else SkipDigits(s, used)
  }

  function FractionAt(s: Text, used: nat): (r: Result<(Text, nat)>)
    ensures r.Ok? ==> |r.value.0| <= |s| && r.value.1 == used + |s| - |r.value.0|
  {
    if s == [] || s[0] != 46 then Ok((s, used))
    else
      var r := SkipDigits(s[1..], used + 1);
      if r.Ok? && r.value.0 == s[1..] then Invalid else r
  }

  function PowerAt(s: Text, used: nat): (r: Result<(Text, nat)>)
    ensures r.Ok? ==> |r.value.0| <= |s| && r.value.1 == used + |s| - |r.value.0|
  {
    if s == [] || (s[0] != 101 && s[0] != 69) then Ok((s, used))
    else
      var n := if |s| > 1 && (s[1] == 43 || s[1] == 45) then 2 else 1;
      var r := SkipDigits(s[n..], used + n);
      if r.Ok? && r.value.0 == s[n..] then Invalid else r
  }

  function NumberAt(s: Text): (r: Result<Text>)
    ensures r.Ok? ==> |r.value| <= |s|
  {
    var sign := if s != [] && s[0] == 45 then 1 else 0;
    var whole :- WholeAt(s[sign..], sign);
    var fraction :- FractionAt(whole.0, whole.1);
    var power :- PowerAt(fraction.0, fraction.1);
    if power.1 > 64 then Limit else Ok(power.0)
  }

  function WordAt(s: Text): (r: Result<Text>)
    requires s != []
    ensures r.Ok? ==> |r.value| <= |s|
  {
    var w := (if s[0] == 116 then True else if s[0] == 102 then False else Null).Print();
    if w <= s then Ok(s[|w|..]) else Invalid
  }

  // ----- UTF-8 length of UTF-16 text

  predicate PairAt(s: Text, i: nat) {
    i + 1 < |s| && 0xd800 <= s[i] <= 0xdbff && 0xdc00 <= s[i + 1] <= 0xdfff
  }

  function Utf8Length(s: Text): nat
    decreases |s|
  {
    if s == [] then 0
    else if s[0] < 128 then 1 + Utf8Length(s[1..])
    else if s[0] < 2048 then 2 + Utf8Length(s[1..])
    else if PairAt(s, 0) then 4 + Utf8Length(s[2..])
    else 3 + Utf8Length(s[1..])
  }

  // ----- Values

  datatype St = St(count: Tally, extra: Extra)

  function KeyRule(pr: Profile): StringRule {
    StringRule(if IsUser(pr) then 1024 else 64, LimitsOf(pr).units, None)
  }

  function ValueRule(pr: Profile, pl: Place): StringRule {
    StringRule(
      if pl.rawEmail || pl.position == Id then 1024
      else if !pr.Evidence? && !IsUser(pr) && pl.key == Ascii("kid") then 256
      else if pr.Payload? && (pl.key == Ascii("iss") || pl.key == Ascii("sub") || pl.key == Ascii("aud")) then 1024
      else if (pr.Payload? || pr.Evidence?) && pl.key == Ascii("email") then 320
      else LimitsOf(pr).string_,
      LimitsOf(pr).units,
      if pl.insideJwk && pl.key == Ascii("n") then Some(1024)
      else if pl.insideJwk && pl.key == Ascii("e") then Some(8)
      else None)
  }

  function ValueAt(pr: Profile, s0: Text, st: St, pl: Place): (r: Result<(Text, St)>)
    ensures r.Ok? ==> |r.value.0| <= |s0|
    decreases |s0|, 2
  {
    var s := SkipSpace(s0);
    var t := st.count.Value();
    if t.values > LimitsOf(pr).values then Limit
    else
      var r := BodyAt(pr, s, st.(count := t), pl);
      if r.Ok? && pl.jwkRow && Utf8Length(s[..|s| - |r.value.0|]) > 8192 then Limit else r
  }

  function BodyAt(pr: Profile, s: Text, st: St, pl: Place): (r: Result<(Text, St)>)
    ensures r.Ok? ==> |r.value.0| <= |s|
    decreases |s|, 1
  {
    if s != [] && (s[0] == 123 || s[0] == 91) then
      if pl.depth >= LimitsOf(pr).depth || st.count.containers + 1 > LimitsOf(pr).containers then Limit
      else
        var st1 := st.(count := st.count.Container());
        var s1 := SkipSpace(s[1..]);
        if s1 != [] && s1[0] == s[0] + 2 then Ok((s1[1..], st1))
        else if s[0] == 123 then MembersAt(pr, s1, st1, pl)
        else ElementsAt(pr, s1, st1, pl)
    else if s != [] && s[0] == 34 then
      var read :- StringAt(ValueRule(pr, pl), s, st.count.units);
      Ok((read.0, st.(count := st.count.Units(|read.1|))))
    else if s != [] && (s[0] == 116 || s[0] == 102 || s[0] == 110) then
      var rest :- WordAt(s);
      Ok((rest, st))
    else
      var rest :- NumberAt(s);
      Ok((rest, st))
  }

  function MembersAt(pr: Profile, s: Text, st: St, pl: Place): (r: Result<(Text, St)>)
    ensures r.Ok? ==> |r.value.0| <= |s|
    decreases |s|, 3
  {
    var t := st.count.Member();
    if t.members > LimitsOf(pr).members || ((pr.AssignmentSource? || IsPolicy(pr)) && t.members + t.entries > 32768) then Limit
    else
      var key :- StringAt(KeyRule(pr), SkipSpace(s), t.units);
      var s2 := SkipSpace(key.0);
      if s2 == [] || s2[0] != 58 then Invalid
      else MemberValueAt(pr, s2[1..], st.(count := t.Units(|key.1|)), MemberPlace(pl, key.1), pl)
  }

  /** From a member's value to the end of the object. */
  function MemberValueAt(pr: Profile, s: Text, st: St, place: Place, pl: Place): (r: Result<(Text, St)>)
    ensures r.Ok? ==> |r.value.0| <= |s|
    decreases |s|, 3
  {
    var read :- ValueAt(pr, s, st, place);
    var rest := SkipSpace(read.0);
    if rest == [] then Invalid
    else if rest[0] == 125 then Ok((rest[1..], read.1))
    else if rest[0] != 44 then Invalid
    else MembersAt(pr, rest[1..], read.1, pl)
  }

  function ElementsAt(pr: Profile, s: Text, st: St, pl: Place): (r: Result<(Text, St)>)
    ensures r.Ok? ==> |r.value.0| <= |s|
    decreases |s|, 3
  {
    var t := st.count.Entry();
    var e := CountEntry(pr, pl, st.extra);
    if t.entries > LimitsOf(pr).entries || ((pr.AssignmentSource? || IsPolicy(pr)) && t.members + t.entries > 32768) || !e.Ok() then Limit
    else
      var read :- ValueAt(pr, s, St(t, e), EntryPlace(pr, pl));
      var s2 := SkipSpace(read.0);
      if s2 == [] then Invalid
      else if s2[0] == 93 then Ok((s2[1..], read.1))
      else if s2[0] != 44 then Invalid
      else ElementsAt(pr, s2[1..], read.1, pl)
  }

  const NO_EXTRA: Extra := Extra(0, 0, 0, 0, 0, 0, 0)

  predicate TakesSource(pr: Profile) {
    pr.UserRecord? || pr.AssignmentSource? || pr.PolicyCollection? || pr.PolicyBindingRecord?
  }

  /** The whole validation: the counts to hand back, cumulative over `source`. */
  function Validate(text: Text, pr: Profile, source: Option<Tally>): Result<Tally> {
    if source.Some? && !TakesSource(pr) then Invalid
    else if pr.Evidence? && |text| > 65536 then Limit
    else if |text| > LimitsOf(pr).wire || (!IsUser(pr) && Utf8Length(text) > LimitsOf(pr).wire) then Limit
    else
      var read :- ValueAt(pr, text, St(if source.Some? then source.value else NOTHING, NO_EXTRA), RootPlace(pr));
      if SkipSpace(read.0) != [] then Invalid else Ok(read.1.count)
  }
}

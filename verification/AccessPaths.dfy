/**
 What the profiles of `worker/access-json.ts` mean, on paths of the tree: which numbers bound the counts, which paths bound
 the strings and the rows found there, and which arrays have a bound of their own.
 */
module AccessPaths {
  import opened Basics
  import opened JsonText
  import opened AccessJson
  import opened AccessTheory

  // ----- Every occurrence of a tree and its path

  /** The value of a member, or an entry. */
  datatype Step = Under(key: Text) | Item
  type Path = seq<Step>
  datatype Node = Node(path: Path, value: Value)

  function U(key: string): Step {
    Under(Ascii(key))
  }

  /** The value at `p` and everything inside it, repeated members included. */
  function Nodes(v: Value, p: Path): seq<Node>
    requires v.Valid()
    decreases v, 1
  {
    [Node(p, v)] + Inside(v, p)
  }

  function Inside(v: Value, p: Path): seq<Node>
    requires v.Valid()
    decreases v, 0
  {
    match v
    case Array(_, es) => InElements(es, p)
    case Object(_, ms) => InMembers(ms, p)
    case _ => []
  }

  function InElements(es: Elements, p: Path): seq<Node>
    requires es.Valid()
    decreases es
  {
    if es.NoElement? then [] else Nodes(es.value, p + [Item]) + InElements(es.next, p)
  }

  function InMembers(ms: Members, p: Path): seq<Node>
    requires ms.Valid()
    decreases ms
  {
    if ms.NoMember? then [] else Nodes(ms.value, p + [Under(CharUnits(ms.key))]) + InMembers(ms.next, p)
  }

  // ----- The profiles in numbers

  /** The key of the innermost member around a path; entries go by the key of their array. */
  function LastKey(p: Path): Text {
    if p == [] then []
    else if p[|p| - 1].Under? then p[|p| - 1].key
    else LastKey(p[..|p| - 1])
  }

  function Row(): Path {
    [U("keys"), Item]
  }

  predicate InRow(pr: Profile, p: Path) {
    pr.Jwks? && |p| > 2 && p[..2] == Row()
  }

  /** Addresses in user requests and identifiers in policy documents. */
  function ShortPaths(pr: Profile): set<Path> {
    match pr
    case UserQuery => {[U("emails"), Item]}
    case UserInit => {[Item, U("email")]}
    case PolicyPrincipals => {[U("principals"), Item, U("principalId")]}
    case PolicyBindings => {[Item, U("principal"), U("principalId")], [Item, U("bindings"), Item, U("principalId")], [Item, U("bindings"), Item, U("policyId")]}
    case PolicyIds => {[U("policyIds"), Item]}
    case PolicySeeds => {[Item, U("policyId")], [U("entries"), Item, U("policyId")]}
    case PolicyBindingReply => {[U("missingPrincipals"), Item, U("principalId")], [U("bindings"), Item, U("principalId")], [U("bindings"), Item, U("policyId")]}
    case PolicyBindingRecord => {[U("principalId")], [U("policyId")]}
    case PolicyReply => {[U("missingPolicyIds"), Item], [U("policies"), Item, U("policyId")]}
    case _ => {}
  }

  function StringCap(pr: Profile, p: Path): nat {
    if p in ShortPaths(pr) then 1024
    else match pr
      case Header => if LastKey(p) == Ascii("kid") then 256 else 2048
      case Payload =>
        if LastKey(p) == Ascii("kid") then 256
        else if LastKey(p) == Ascii("iss") || LastKey(p) == Ascii("sub") || LastKey(p) == Ascii("aud") then 1024
        else if LastKey(p) == Ascii("email") then 320
        else 8192
      case Jwks => if LastKey(p) == Ascii("kid") then 256 else 4096
      case Evidence => if LastKey(p) == Ascii("email") then 320 else 1024
      case UserRecord => 2097152
      case UserQuery => 2097152
      case UserInit => 2097152
      case _ => 1048576
  }

  predicate LongKeys(pr: Profile) {
    !pr.Header? && !pr.Payload? && !pr.Jwks? && !pr.Evidence?
  }

  /** Base64 text that decodes to at most `maximum` bytes. */
  predicate Decodes(us: Text, maximum: nat) {
    |us| <= (maximum + 2) / 3 * 4 && (|us| - Padding(us)) * 3 / 4 <= maximum
  }

  predicate KeyOk(pr: Profile, p: Path) {
    p != [] && p[|p| - 1].Under? ==> |p[|p| - 1].key| <= if LongKeys(pr) then 1024 else 64
  }

  predicate ValueOk(pr: Profile, p: Path, v: Value)
    requires v.Valid()
  {
    && (pr.Jwks? && p == Row() ==> Utf8Length(v.Print()) <= 8192)
    && (v.Number? ==> |v.numeral.Print()| <= 64)
    && (v.String? ==>
          var us := CharUnits(v.chars);
          && |us| <= StringCap(pr, p)
          && (InRow(pr, p) && LastKey(p) == Ascii("n") ==> Decodes(us, 1024))
          && (InRow(pr, p) && LastKey(p) == Ascii("e") ==> Decodes(us, 8)))
  }

  predicate NodesOk(pr: Profile, ns: seq<Node>) {
    forall i :: 0 <= i < |ns| ==> ns[i].value.Valid() && KeyOk(pr, ns[i].path) && ValueOk(pr, ns[i].path, ns[i].value)
  }

  function Occurrences(ns: seq<Node>, p: Path): nat {
    if ns == [] then 0 else (if ns[0].path == p then 1 else 0) + Occurrences(ns[1..], p)
  }

  /** How many values may stand at particular paths. */
  predicate CapsOk(pr: Profile, ns: seq<Node>) {
    match pr
    case Jwks => Occurrences(ns, [U("keys"), Item]) <= 32
    case Payload => Occurrences(ns, [U("aud"), Item]) <= 32
    case Evidence => Occurrences(ns, [U("orgs"), Item]) <= 128 && Occurrences(ns, [U("teams"), Item]) <= 256
    case UserQuery => Occurrences(ns, [U("emails"), Item]) <= 4096
    case UserInit => Occurrences(ns, [Item]) <= 4096
    case PolicyPrincipals => Occurrences(ns, [U("principals"), Item]) <= 1024
    case PolicyBindings => Occurrences(ns, [Item]) <= 1024 && Occurrences(ns, [Item, U("bindings"), Item]) <= 4096
    case PolicyBindingReply => Occurrences(ns, [U("missingPrincipals"), Item]) <= 1024 && Occurrences(ns, [U("bindings"), Item]) <= 4096
    case _ => true
  }

  predicate TallyOk(pr: Profile, t: Tally) {
    match pr
    case Header => t.values <= 64 && t.containers <= 8 && t.members <= 32 && t.entries <= 16 && t.units <= 2048
    case Payload => t.values <= 512 && t.containers <= 64 && t.members <= 256 && t.entries <= 128 && t.units <= 8192
    case Jwks => t.values <= 4096 && t.containers <= 256 && t.members <= 2048 && t.entries <= 1024 && t.units <= 65536
    case Evidence => t.values <= 4096 && t.containers <= 256 && t.members <= 2048 && t.entries <= 1024 && t.units <= 65536
    case AuthorityUser => t.values <= 8192 && t.containers <= 2048 && t.members <= 4096 && t.entries <= 4096 && t.units <= 1048576
    case UserRecord => t.values <= 16384 && t.containers <= 4096 && t.members <= 8192 && t.entries <= 8192 && t.units <= 2097152
    case UserQuery => t.values <= 16384 && t.containers <= 4096 && t.members <= 8192 && t.entries <= 8192 && t.units <= 2097152
    case UserInit => t.values <= 16384 && t.containers <= 4096 && t.members <= 8192 && t.entries <= 8192 && t.units <= 2097152
    case _ => t.values <= 65536 && t.containers <= 16384 && t.members + t.entries <= 32768 && t.units <= 2097152
  }

  function DepthCap(pr: Profile): nat {
    if pr.Header? then 4 else if pr.Payload? || pr.Jwks? || pr.Evidence? then 8 else 16
  }

  predicate SizeMeets(pr: Profile, text: Text) {
    match pr
    case Header => |text| <= 2048 && Utf8Length(text) <= 2048
    case Payload => |text| <= 8192 && Utf8Length(text) <= 8192
    case Jwks => |text| <= 262144 && Utf8Length(text) <= 262144
    case Evidence => |text| <= 65536 && Utf8Length(text) <= 262144
    case AuthorityUser => |text| <= 1048576
    case _ => |text| <= 2097152
  }

  /** The tree, counted on top of `t`, is within everything its profile bounds. */
  predicate Meets(pr: Profile, t: Tally, v: Value)
    requires v.Valid()
  {
    TallyOk(pr, v.Count(t)) && v.Depth() <= DepthCap(pr) && NodesOk(pr, Nodes(v, [])) && CapsOk(pr, Inside(v, []))
  }

  // ----- The places of the validator

  function PlaceOf(pr: Profile, p: Path): Place {
    if p == [] then RootPlace(pr)
    else
      var around := PlaceOf(pr, p[..|p| - 1]);
      match p[|p| - 1]
      case Under(key) => MemberPlace(around, key)
      case Item => EntryPlace(pr, around)
  }

  function Up(p: Path): Path
    requires p != []
  {
    p[..|p| - 1]
  }

  function Last(p: Path): Step
    requires p != []
  {
    p[|p| - 1]
  }

  lemma PlaceStep(pr: Profile, p: Path)
    requires p != []
    ensures PlaceOf(pr, p) == if Last(p).Under? then MemberPlace(PlaceOf(pr, Up(p)), Last(p).key) else EntryPlace(pr, PlaceOf(pr, Up(p)))
  {}

  lemma PathIs(p: Path, q: Path, s: Step)
    requires p != []
    ensures p == q + [s] <==> Up(p) == q && Last(p) == s
  {
    assert p == Up(p) + [Last(p)];
  }

  lemma {:induction false} PlaceMeans(pr: Profile, p: Path)
    ensures var pl := PlaceOf(pr, p);
            pl.depth == |p| && pl.key == LastKey(p) && (pl.rootMember <==> |p| == 1 && p[0].Under?)
    decreases |p|
  {
    hide PlaceOf, MemberPosition, EntryPosition, IsJwkRow, IsQueryEmail, IsInitRow;
    if p != [] {
      PlaceMeans(pr, Up(p));
      PlaceStep(pr, p);
    } else {
      RootIs(pr);
    }
  }

  lemma RootIs(pr: Profile)
    ensures PlaceOf(pr, []) == RootPlace(pr)
  {}

  /** The arrays with rows of their own, by path. */
  lemma ArraysMean(pr: Profile, p: Path, key: string)
    ensures PlaceOf(pr, p).rootMember && PlaceOf(pr, p).key == Ascii(key) <==> p == [U(key)]
    ensures PlaceOf(pr, p).depth == 0 <==> p == []
  {
    hide PlaceOf;
    PlaceMeans(pr, p);
    if |p| == 1 { assert p == [p[0]]; }
  }

  /** Key rows and what is inside them. */
  lemma {:induction false} RowMeans(pr: Profile, p: Path)
    ensures (PlaceOf(pr, p).jwkRow <==> pr.Jwks? && p == Row()) && (PlaceOf(pr, p).insideJwk <==> InRow(pr, p))
    decreases |p|
  {
    hide PlaceOf, MemberPosition, EntryPosition, IsQueryEmail, IsInitRow, Ascii;
    if p != [] {
      RowMeans(pr, Up(p));
      PlaceStep(pr, p);
      ArraysMean(pr, Up(p), "keys");
      PathIs(p, [U("keys")], Item);
      assert [U("keys")] + [Item] == Row();
      assert InRow(pr, p) <==> InRow(pr, Up(p)) || (pr.Jwks? && Up(p) == Row()) by { RowInside(pr, p); }
    } else {
      RootIs(pr);
    }
  }

  lemma RowInside(pr: Profile, p: Path)
    requires p != []
    ensures InRow(pr, p) <==> InRow(pr, Up(p)) || (pr.Jwks? && Up(p) == Row())
  {
    if |p| > 3 { assert Up(p)[..2] == p[..2]; }
    if |p| == 3 { assert Up(p) == p[..2]; }
  }

  /** Addresses in user requests. */
  lemma EmailMeans(pr: Profile, p: Path)
    ensures PlaceOf(pr, p).requestRow <==> pr.UserInit? && p == [Item]
    ensures PlaceOf(pr, p).rawEmail <==> (pr.UserQuery? && p == [U("emails"), Item]) || (pr.UserInit? && p == [Item, U("email")])
  {
    hide PlaceOf, MemberPosition, EntryPosition, IsJwkRow, Ascii;
    if p != [] {
      PlaceStep(pr, p);
      ArraysMean(pr, Up(p), "emails");
      PathIs(p, [U("emails")], Item);
      PathIs(p, [], Item);
      PathIs(p, [Item], U("email"));
      assert [U("emails")] + [Item] == [U("emails"), Item] && [Item] + [U("email")] == [Item, U("email")] && [] + [Item] == [Item];
      if Up(p) != [] {
        PlaceStep(pr, Up(p));
        ArraysMean(pr, Up(Up(p)), "emails");
        PathIs(Up(p), [], Item);
      } else {
        RootIs(pr);
      }
    } else {
      RootIs(pr);
    }
  }

  // ----- Positions in policy documents

  function PositionOf(pr: Profile, p: Path): Position {
    PlaceOf(pr, p).position
  }

  lemma PositionStep(pr: Profile, p: Path)
    requires p != []
    ensures PositionOf(pr, p) == if Last(p).Under? then MemberPosition(PositionOf(pr, Up(p)), Last(p).key) else EntryPosition(PositionOf(pr, Up(p)))
  {
    hide PlaceOf, MemberPosition, EntryPosition;
    PlaceStep(pr, p);
  }

  predicate RootOnly(x: Position) {
    x in {PrincipalsQuery, Seeds, PoliciesQuery, PolicyInit, BindingReply, PolicyReplyRoot}
  }

  lemma AtRoot(pr: Profile, p: Path)
    ensures RootOnly(PositionOf(pr, p)) ==> p == []
    ensures p == [] ==> PositionOf(pr, p) == RootPosition(pr)
  {
    hide PlaceOf, Ascii;
    if p != [] { PositionStep(pr, p); } else { RootIs(pr); }
  }

  lemma KeysDiffer()
    ensures Ascii("missingPrincipals") != Ascii("bindings") && Ascii("missingPolicyIds") != Ascii("policies") && Ascii("principal") != Ascii("bindings")
  {
    assert |Ascii("missingPrincipals")| == 17 && |Ascii("bindings")| == 8 && |Ascii("missingPolicyIds")| == 16 && |Ascii("policies")| == 8;
    assert |Ascii("principal")| == 9;
  }

  /** A path of one step. */
  lemma OneStep(p: Path, s: Step)
    ensures p == [s] <==> p != [] && Up(p) == [] && Last(p) == s
  {
    if p != [] {
      PathIs(p, [], s);
      assert [] + [s] == [s];
    }
  }

  lemma FirstLevel(pr: Profile, p: Path)
    ensures PositionOf(pr, p) == Seed <==> pr.PolicyBindings? && p == [Item]
    ensures PositionOf(pr, p) == Principals <==> (pr.PolicyPrincipals? && p == [U("principals")]) || (pr.PolicyBindingReply? && p == [U("missingPrincipals")])
    ensures PositionOf(pr, p) == Ids <==> (pr.PolicyIds? && p == [U("policyIds")]) || (pr.PolicyReply? && p == [U("missingPolicyIds")])
    ensures PositionOf(pr, p) == PolicyEntries <==> (pr.PolicySeeds? && p == [U("entries")]) || (pr.PolicyReply? && p == [U("policies")])
  {
    hide PlaceOf, Ascii, PositionOf;
    KeysDiffer();
    AtRoot(pr, p);
    if p != [] {
      PositionStep(pr, p);
      AtRoot(pr, Up(p));
      OneStep(p, Last(p));
    }
  }

  lemma BindingsMean(pr: Profile, p: Path)
    ensures PositionOf(pr, p) == Bindings <==> (pr.PolicyBindingReply? && p == [U("bindings")]) || (pr.PolicyBindings? && p == [Item, U("bindings")])
  {
    hide PlaceOf, Ascii, PositionOf;
    KeysDiffer();
    AtRoot(pr, p);
    if p != [] {
      PositionStep(pr, p);
      AtRoot(pr, Up(p));
      FirstLevel(pr, Up(p));
      OneStep(p, Last(p));
      TwoSteps(p);
    }
  }

  lemma PrincipalMeans(pr: Profile, p: Path)
    ensures PositionOf(pr, p) == Principal <==>
              || (pr.PolicyPrincipals? && p == [U("principals"), Item]) || (pr.PolicyBindingReply? && p == [U("missingPrincipals"), Item])
              || (pr.PolicyBindings? && p == [Item, U("principal")])
  {
    hide PlaceOf, Ascii, PositionOf;
    KeysDiffer();
    AtRoot(pr, p);
    if p != [] {
      PositionStep(pr, p);
      FirstLevel(pr, Up(p));
      TwoSteps(p);
    }
  }

  lemma PolicyEntryMeans(pr: Profile, p: Path)
    ensures PositionOf(pr, p) == PolicyEntry <==>
              || (pr.PolicySeeds? && (p == [Item] || p == [U("entries"), Item])) || (pr.PolicyReply? && p == [U("policies"), Item])
  {
    hide PlaceOf, Ascii, PositionOf;
    AtRoot(pr, p);
    if p != [] {
      PositionStep(pr, p);
      AtRoot(pr, Up(p));
      FirstLevel(pr, Up(p));
      OneStep(p, Last(p));
      TwoSteps(p);
    }
  }

  lemma TwoSteps(p: Path)
    requires p != []
    ensures forall a :: Up(p) == [a] <==> p == [a, Last(p)]
  {
    forall a ensures Up(p) == [a] <==> p == [a, Last(p)] {
      PathIs(p, [a], Last(p));
      assert [a] + [Last(p)] == [a, Last(p)];
    }
  }

  lemma ThreeSteps(p: Path, a: Step, b: Step)
    requires p != []
    ensures Up(p) == [a, b] <==> p == [a, b, Last(p)]
  {
    PathIs(p, [a, b], Last(p));
    assert [a, b] + [Last(p)] == [a, b, Last(p)];
  }

  lemma FourSteps(p: Path, a: Step, b: Step, c: Step)
    requires p != []
    ensures Up(p) == [a, b, c] <==> p == [a, b, c, Last(p)]
  {
    PathIs(p, [a, b, c], Last(p));
    assert [a, b, c] + [Last(p)] == [a, b, c, Last(p)];
  }

  lemma BindingMeans(pr: Profile, p: Path)
    ensures PositionOf(pr, p) == Binding <==>
              || (pr.PolicyBindingRecord? && p == []) || (pr.PolicyBindingReply? && p == [U("bindings"), Item])
              || (pr.PolicyBindings? && p == [Item, U("bindings"), Item])
  {
    hide PlaceOf, Ascii, PositionOf;
    AtRoot(pr, p);
    if p != [] {
      PositionStep(pr, p);
      BindingsMean(pr, Up(p));
      TwoSteps(p);
      ThreeSteps(p, Item, U("bindings"));
    }
  }

  predicate ItemIdAt(pr: Profile, p: Path) {
    (pr.PolicyIds? && p == [U("policyIds"), Item]) || (pr.PolicyReply? && p == [U("missingPolicyIds"), Item])
  }

  predicate PrincipalIdAt(pr: Profile, p: Path) {
    || (pr.PolicyPrincipals? && p == [U("principals"), Item, U("principalId")])
    || (pr.PolicyBindings? && (p == [Item, U("principal"), U("principalId")] || p == [Item, U("bindings"), Item, U("principalId")]))
    || (pr.PolicyBindingReply? && (p == [U("missingPrincipals"), Item, U("principalId")] || p == [U("bindings"), Item, U("principalId")]))
    || (pr.PolicyBindingRecord? && p == [U("principalId")])
  }

  predicate PolicyIdAt(pr: Profile, p: Path) {
    || (pr.PolicyBindings? && p == [Item, U("bindings"), Item, U("policyId")])
    || (pr.PolicySeeds? && (p == [Item, U("policyId")] || p == [U("entries"), Item, U("policyId")]))
    || (pr.PolicyBindingReply? && p == [U("bindings"), Item, U("policyId")])
    || (pr.PolicyBindingRecord? && p == [U("policyId")])
    || (pr.PolicyReply? && p == [U("policies"), Item, U("policyId")])
  }

  lemma ShortIs(pr: Profile, p: Path)
    ensures IsPolicy(pr) && p in ShortPaths(pr) <==> ItemIdAt(pr, p) || PrincipalIdAt(pr, p) || PolicyIdAt(pr, p)
  {
    hide Ascii, U;
  }

  lemma ItemIds(pr: Profile, p: Path)
    ensures ItemIdAt(pr, p) <==> p != [] && Last(p) == Item && PositionOf(pr, Up(p)) == Ids
  {
    hide PlaceOf, Ascii, PositionOf;
    if p != [] {
      FirstLevel(pr, Up(p));
      TwoSteps(p);
    }
  }

  lemma PrincipalIds(pr: Profile, p: Path)
    ensures PrincipalIdAt(pr, p) <==> p != [] && Last(p) == U("principalId") && (PositionOf(pr, Up(p)) == Principal || PositionOf(pr, Up(p)) == Binding)
  {
    hide PlaceOf, Ascii, PositionOf, U;
    if p != [] {
      PrincipalMeans(pr, Up(p));
      BindingMeans(pr, Up(p));
      OneStep(p, Last(p));
      ThreeSteps(p, U("principals"), Item);
      ThreeSteps(p, U("missingPrincipals"), Item);
      ThreeSteps(p, U("bindings"), Item);
      ThreeSteps(p, Item, U("principal"));
      FourSteps(p, Item, U("bindings"), Item);
    }
  }

  lemma PolicyIdsAre(pr: Profile, p: Path)
    ensures PolicyIdAt(pr, p) <==> p != [] && Last(p) == U("policyId") && (PositionOf(pr, Up(p)) == Binding || PositionOf(pr, Up(p)) == PolicyEntry)
  {
    hide PlaceOf, Ascii, PositionOf, U;
    if p != [] {
      PolicyEntryMeans(pr, Up(p));
      BindingMeans(pr, Up(p));
      OneStep(p, Last(p));
      TwoSteps(p);
      ThreeSteps(p, U("bindings"), Item);
      ThreeSteps(p, U("entries"), Item);
      ThreeSteps(p, U("policies"), Item);
      FourSteps(p, Item, U("bindings"), Item);
    }
  }

  /** The identifiers of policy documents are exactly at the paths listed. */
  lemma IdMeans(pr: Profile, p: Path)
    ensures PositionOf(pr, p) == Id <==> IsPolicy(pr) && p in ShortPaths(pr)
  {
    hide PlaceOf, Ascii, PositionOf, U, ShortPaths, ItemIdAt, PrincipalIdAt, PolicyIdAt;
    ShortIs(pr, p);
    ItemIds(pr, p);
    PrincipalIds(pr, p);
    PolicyIdsAre(pr, p);
    AtRoot(pr, p);
    if p == [] {
      RootIsNoId(pr);
    } else {
      PositionStep(pr, p);
      IdComesFrom(PositionOf(pr, Up(p)), Last(p));
    }
  }

  lemma RootIsNoId(pr: Profile)
    ensures RootPosition(pr) != Id
  {}

  lemma IdComesFrom(around: Position, s: Step)
    ensures (if s.Under? then MemberPosition(around, s.key) else EntryPosition(around)) == Id <==>
              || (s == Item && around == Ids)
              || (s == U("principalId") && (around == Principal || around == Binding))
              || (s == U("policyId") && (around == Binding || around == PolicyEntry))
  {
    hide Ascii;
  }

  // ----- Strings, rows and keys

  lemma ShortMeans(pr: Profile, p: Path)
    ensures PlaceOf(pr, p).rawEmail || PlaceOf(pr, p).position == Id <==> p in ShortPaths(pr)
  {
    hide PlaceOf, Ascii, U;
    EmailMeans(pr, p);
    IdMeans(pr, p);
    assert PositionOf(pr, p) == PlaceOf(pr, p).position;
  }

  lemma RuleMeans(pr: Profile, p: Path, us: Text)
    ensures StringOk(ValueRule(pr, PlaceOf(pr, p)), us) <==>
              && |us| <= StringCap(pr, p)
              && (InRow(pr, p) && LastKey(p) == Ascii("n") ==> Decodes(us, 1024)) && (InRow(pr, p) && LastKey(p) == Ascii("e") ==> Decodes(us, 8))
  {
    hide PlaceOf, ShortPaths, InRow, Ascii, LastKey, Padding;
    PlaceMeans(pr, p);
    RowMeans(pr, p);
    ShortMeans(pr, p);
    assert Ascii("n") != Ascii("e") by { SingleKeys(); }
  }

  lemma SingleKeys()
    ensures Ascii("n") != Ascii("e")
  {
    assert Ascii("n")[0] == 110 && Ascii("e")[0] == 101;
  }

  lemma NodesConcat(pr: Profile, a: seq<Node>, b: seq<Node>)
    ensures NodesOk(pr, a + b) <==> NodesOk(pr, a) && NodesOk(pr, b)
  {
    hide KeyOk, ValueOk;
    assert forall i :: 0 <= i < |a| ==> (a + b)[i] == a[i];
    assert forall i :: 0 <= i < |b| ==> (a + b)[|a| + i] == b[i];
    if NodesOk(pr, a + b) {
      forall i | 0 <= i < |b| ensures b[i].value.Valid() && KeyOk(pr, b[i].path) && ValueOk(pr, b[i].path, b[i].value) { assert (a + b)[|a| + i] == b[i]; }
    }
  }

  lemma OneNode(pr: Profile, p: Path, v: Value)
    requires v.Valid()
    ensures NodesOk(pr, Nodes(v, p)) <==> KeyOk(pr, p) && ValueOk(pr, p, v) && NodesOk(pr, Inside(v, p))
  {
    hide KeyOk, ValueOk, Inside;
    NodesConcat(pr, [Node(p, v)], Inside(v, p));
    assert [Node(p, v)][0] == Node(p, v);
  }

  lemma NextPlace(pr: Profile, p: Path, s: Step)
    ensures PlaceOf(pr, p + [s]) == if s.Under? then MemberPlace(PlaceOf(pr, p), s.key) else EntryPlace(pr, PlaceOf(pr, p))
    ensures Last(p + [s]) == s
  {
    hide MemberPlace, EntryPlace;
    assert Up(p + [s]) == p;
    PlaceStep(pr, p + [s]);
  }

  lemma {:induction false} LocalMeans(pr: Profile, v: Value, p: Path)
    requires v.Valid()
    ensures Local(pr, PlaceOf(pr, p), v) <==> ValueOk(pr, p, v) && NodesOk(pr, Inside(v, p))
    decreases v
  {
    hide PlaceOf, NodesOk, StringOk, ValueRule, StringCap, Decodes, InRow, Row, LastKey, LocalElements, LocalMembers, InElements, InMembers;
    RowMeans(pr, p);
    match v
    case String(cs) =>
      NoNodes(pr);
      RuleMeans(pr, p, CharUnits(cs));
    case Array(_, es) => ElementsMean(pr, es, p);
    case Object(_, ms) => MembersMean(pr, ms, p);
    case Number(n) => NoNodes(pr);
    case Literal(w) => NoNodes(pr);
  }

  lemma NoNodes(pr: Profile)
    ensures NodesOk(pr, [])
  {}

  lemma {:induction false} ElementsMean(pr: Profile, es: Elements, p: Path)
    requires es.Valid()
    ensures LocalElements(pr, PlaceOf(pr, p), es) <==> NodesOk(pr, InElements(es, p))
    decreases es
  {
    hide PlaceOf, NodesOk, Local, ValueOk, Inside, EntryPlace;
    if es.Element? {
      NextPlace(pr, p, Item);
      LocalMeans(pr, es.value, p + [Item]);
      OneNode(pr, p + [Item], es.value);
      ElementsMean(pr, es.next, p);
      NodesConcat(pr, Nodes(es.value, p + [Item]), InElements(es.next, p));
    } else {
      NoNodes(pr);
    }
  }

  lemma {:induction false} MembersMean(pr: Profile, ms: Members, p: Path)
    requires ms.Valid()
    ensures LocalMembers(pr, PlaceOf(pr, p), ms) <==> NodesOk(pr, InMembers(ms, p))
    decreases ms
  {
    hide PlaceOf, NodesOk, Local, ValueOk, Inside, MemberPlace, CharUnits;
    if ms.Member? {
      var s := Under(CharUnits(ms.key));
      NextPlace(pr, p, s);
      LocalMeans(pr, ms.value, p + [s]);
      OneNode(pr, p + [s], ms.value);
      MembersMean(pr, ms.next, p);
      NodesConcat(pr, Nodes(ms.value, p + [s]), InMembers(ms.next, p));
    } else {
      NoNodes(pr);
    }
  }

  // ----- Particular arrays

  function One(b: bool): nat {
    if b then 1 else 0
  }

  function Sum(a: Extra, b: Extra): Extra {
    Extra(a.rows + b.rows, a.audiences + b.audiences, a.orgs + b.orgs, a.teams + b.teams, a.occurrences + b.occurrences,
          a.principals + b.principals, a.bindings + b.bindings)
  }

  /** What a value at this path adds to the counters. */
  function Mark(pr: Profile, p: Path): Extra {
    Extra(One(pr.Jwks? && p == [U("keys"), Item]), One(pr.Payload? && p == [U("aud"), Item]),
          One(pr.Evidence? && p == [U("orgs"), Item]), One(pr.Evidence? && p == [U("teams"), Item]),
          One((pr.UserQuery? && p == [U("emails"), Item]) || (pr.UserInit? && p == [Item])),
          One((pr.PolicyPrincipals? && p == [U("principals"), Item]) || (pr.PolicyBindings? && p == [Item]) || (pr.PolicyBindingReply? && p == [U("missingPrincipals"), Item])),
          One((pr.PolicyBindings? && p == [Item, U("bindings"), Item]) || (pr.PolicyBindingReply? && p == [U("bindings"), Item])))
  }

  function Marks(pr: Profile, ns: seq<Node>): Extra {
    if ns == [] then NO_EXTRA else Sum(Mark(pr, ns[0].path), Marks(pr, ns[1..]))
  }

  lemma {:induction false} MarksConcat(pr: Profile, a: seq<Node>, b: seq<Node>)
    ensures Marks(pr, a + b) == Sum(Marks(pr, a), Marks(pr, b))
  {
    hide Mark, Sum;
    if a == [] {
      assert a + b == b;
      SumZero(Marks(pr, b));
    } else {
      MarksConcat(pr, a[1..], b);
      assert (a + b)[1..] == a[1..] + b;
      SumAssoc(Mark(pr, a[0].path), Marks(pr, a[1..]), Marks(pr, b));
    }
  }

  lemma SumZero(a: Extra)
    ensures Sum(NO_EXTRA, a) == a == Sum(a, NO_EXTRA)
  {}

  lemma SumAssoc(a: Extra, b: Extra, c: Extra)
    ensures Sum(Sum(a, b), c) == Sum(a, Sum(b, c))
  {}

  lemma EntryCounts(pr: Profile, p: Path, e: Extra)
    ensures CountEntry(pr, PlaceOf(pr, p), e) == Sum(e, Mark(pr, p + [Item]))
  {
    hide PlaceOf, U;
    KeyedCounts(pr, p);
    PolicyCounts(pr, p);
  }

  /** The arrays counted by their key. */
  lemma KeyedCounts(pr: Profile, p: Path)
    ensures var pl, m := PlaceOf(pr, p), Mark(pr, p + [Item]);
            && m.rows == One(IsJwkRow(pr, pl)) && m.audiences == One(pr.Payload? && pl.rootMember && pl.key == Ascii("aud"))
            && m.orgs == One(pr.Evidence? && pl.rootMember && pl.key == Ascii("orgs")) && m.teams == One(pr.Evidence? && pl.rootMember && pl.key == Ascii("teams"))
            && m.occurrences == One(IsQueryEmail(pr, pl) || IsInitRow(pr, pl))
  {
    hide PlaceOf, Ascii;
    var q := p + [Item];
    assert Up(q) == p && Last(q) == Item;
    ArraysMean(pr, p, "keys");
    ArraysMean(pr, p, "aud");
    ArraysMean(pr, p, "orgs");
    ArraysMean(pr, p, "teams");
    ArraysMean(pr, p, "emails");
    OneStep(q, Item);
    TwoSteps(q);
  }

  /** The arrays counted by their position. */
  lemma PolicyCounts(pr: Profile, p: Path)
    ensures var pl, m := PlaceOf(pr, p), Mark(pr, p + [Item]);
            m.principals == One(pl.position == Principals || pl.position == Seeds) && m.bindings == One(pl.position == Bindings)
  {
    hide PlaceOf, Ascii;
    var q := p + [Item];
    assert Up(q) == p && Last(q) == Item && PositionOf(pr, p) == PlaceOf(pr, p).position;
    FirstLevel(pr, p);
    BindingsMean(pr, p);
    AtRoot(pr, p);
    OneStep(q, Item);
    TwoSteps(q);
    ThreeSteps(q, Item, U("bindings"));
  }

  lemma MemberCounts(pr: Profile, p: Path, key: Text)
    ensures Mark(pr, p + [Under(key)]) == NO_EXTRA
  {
    hide Ascii;
    var q := p + [Under(key)];
    assert q[|q| - 1] == Under(key);
  }

  lemma {:induction false} SpecialMeans(pr: Profile, v: Value, p: Path, e: Extra)
    requires v.Valid()
    ensures Special(pr, PlaceOf(pr, p), v, e) == Sum(e, Marks(pr, Inside(v, p)))
    decreases v
  {
    hide PlaceOf, Marks, Sum, SpecialElements, SpecialMembers, InElements, InMembers;
    match v
    case Array(_, es) => SpecialElementsMean(pr, es, p, e);
    case Object(_, ms) => SpecialMembersMean(pr, ms, p, e);
    case _ =>
      SumZero(e);
      NoMarks(pr);
  }

  lemma NoMarks(pr: Profile)
    ensures Marks(pr, []) == NO_EXTRA
  {}

  lemma FirstMark(pr: Profile, n: Node, ns: seq<Node>)
    ensures Marks(pr, [n] + ns) == Sum(Mark(pr, n.path), Marks(pr, ns))
  {
    hide Mark, Sum;
    assert ([n] + ns)[1..] == ns;
  }

  lemma {:induction false} SpecialElementsMean(pr: Profile, es: Elements, p: Path, e: Extra)
    requires es.Valid()
    ensures SpecialElements(pr, PlaceOf(pr, p), es, e) == Sum(e, Marks(pr, InElements(es, p)))
    decreases es
  {
    hide PlaceOf, Marks, Sum, Special, Inside, EntryPlace, CountEntry, Mark;
    if es.Element? {
      var q := p + [Item];
      var inside, next := Inside(es.value, q), InElements(es.next, p);
      NextPlace(pr, p, Item);
      EntryCounts(pr, p, e);
      SpecialMeans(pr, es.value, q, Sum(e, Mark(pr, q)));
      SpecialElementsMean(pr, es.next, p, Sum(Sum(e, Mark(pr, q)), Marks(pr, inside)));
      MarksConcat(pr, Nodes(es.value, q), next);
      FirstMark(pr, Node(q, es.value), inside);
      SumAssoc(e, Mark(pr, q), Marks(pr, inside));
      SumAssoc(e, Sum(Mark(pr, q), Marks(pr, inside)), Marks(pr, next));
    } else {
      SumZero(e);
      NoMarks(pr);
    }
  }

  lemma {:induction false} SpecialMembersMean(pr: Profile, ms: Members, p: Path, e: Extra)
    requires ms.Valid()
    ensures SpecialMembers(pr, PlaceOf(pr, p), ms, e) == Sum(e, Marks(pr, InMembers(ms, p)))
    decreases ms
  {
    hide PlaceOf, Marks, Sum, Special, Inside, MemberPlace, Mark, CharUnits;
    if ms.Member? {
      var q := p + [Under(CharUnits(ms.key))];
      var inside, next := Inside(ms.value, q), InMembers(ms.next, p);
      NextPlace(pr, p, Under(CharUnits(ms.key)));
      MemberCounts(pr, p, CharUnits(ms.key));
      SpecialMeans(pr, ms.value, q, e);
      SpecialMembersMean(pr, ms.next, p, Sum(e, Marks(pr, inside)));
      MarksConcat(pr, Nodes(ms.value, q), next);
      FirstMark(pr, Node(q, ms.value), inside);
      SumZero(Marks(pr, inside));
      SumAssoc(e, Marks(pr, inside), Marks(pr, next));
    } else {
      SumZero(e);
      NoMarks(pr);
    }
  }

  /** The path a counter counts under a profile, if any. */
  datatype Counter = RowsOf | AudiencesOf | OrgsOf | TeamsOf | OccurrencesOf | PrincipalsOf | BindingsOf

  function CountedPath(pr: Profile, c: Counter): Option<Path> {
    match c
    case RowsOf => if pr.Jwks? then Some([U("keys"), Item]) else None
    case AudiencesOf => if pr.Payload? then Some([U("aud"), Item]) else None
    case OrgsOf => if pr.Evidence? then Some([U("orgs"), Item]) else None
    case TeamsOf => if pr.Evidence? then Some([U("teams"), Item]) else None
    case OccurrencesOf => if pr.UserQuery? then Some([U("emails"), Item]) else if pr.UserInit? then Some([Item]) else None
    case PrincipalsOf =>
      if pr.PolicyPrincipals? then Some([U("principals"), Item])
      else if pr.PolicyBindings? then Some([Item])
      else if pr.PolicyBindingReply? then Some([U("missingPrincipals"), Item]) else None
    case BindingsOf =>
      if pr.PolicyBindings? then Some([Item, U("bindings"), Item]) else if pr.PolicyBindingReply? then Some([U("bindings"), Item]) else None
  }

  function Reading(e: Extra, c: Counter): nat {
    match c
    case RowsOf => e.rows
    case AudiencesOf => e.audiences
    case OrgsOf => e.orgs
    case TeamsOf => e.teams
    case OccurrencesOf => e.occurrences
    case PrincipalsOf => e.principals
    case BindingsOf => e.bindings
  }

  lemma MarkReads(pr: Profile, p: Path, c: Counter)
    ensures Reading(Mark(pr, p), c) == One(CountedPath(pr, c) == Some(p))
  {
    hide U;
  }

  lemma SumReads(a: Extra, b: Extra, c: Counter)
    ensures Reading(Sum(a, b), c) == Reading(a, c) + Reading(b, c) && Reading(NO_EXTRA, c) == 0
  {}

  lemma {:induction false} MarksAre(pr: Profile, ns: seq<Node>, c: Counter)
    ensures Reading(Marks(pr, ns), c) == if CountedPath(pr, c).Some? then Occurrences(ns, CountedPath(pr, c).value) else 0
  {
    hide Mark, Sum, Reading, CountedPath;
    SumReads(NO_EXTRA, NO_EXTRA, c);
    if ns != [] {
      MarksAre(pr, ns[1..], c);
      MarkReads(pr, ns[0].path, c);
      SumReads(Mark(pr, ns[0].path), Marks(pr, ns[1..]), c);
    }
  }

  lemma CapsMean(pr: Profile, ns: seq<Node>)
    ensures Marks(pr, ns).Ok() <==> CapsOk(pr, ns)
  {
    hide Marks, Occurrences, U, Ascii;
    MarksAre(pr, ns, RowsOf);
    MarksAre(pr, ns, AudiencesOf);
    MarksAre(pr, ns, OrgsOf);
    MarksAre(pr, ns, TeamsOf);
    MarksAre(pr, ns, OccurrencesOf);
    MarksAre(pr, ns, PrincipalsOf);
    MarksAre(pr, ns, BindingsOf);
  }

  // ----- The numbers

  lemma NumbersMean(pr: Profile, t: Tally, text: Text)
    ensures (Within(pr, t) <==> TallyOk(pr, t)) && LimitsOf(pr).depth == DepthCap(pr)
    ensures SizeMeets(pr, text) <==>
              (pr.Evidence? ==> |text| <= 65536) && |text| <= LimitsOf(pr).wire && (!IsUser(pr) ==> Utf8Length(text) <= LimitsOf(pr).wire)
  {
    hide Utf8Length;
  }

  /** A document fits its profile exactly when it meets everything the profile bounds. */
  lemma FitsMeans(pr: Profile, t: Tally, v: Value)
    requires v.Valid()
    ensures Fits(pr, St(t, NO_EXTRA), RootPlace(pr), v) <==> Meets(pr, t, v)
  {
    hide Local, Special, Marks, NodesOk, CapsOk, ValueOk, Inside, Within, TallyOk, LimitsOf, DepthCap, Sum;
    RootIs(pr);
    FitsIs(pr, St(t, NO_EXTRA), RootPlace(pr), v);
    LocalMeans(pr, v, []);
    OneNode(pr, [], v);
    SpecialMeans(pr, v, [], NO_EXTRA);
    SumZero(Marks(pr, Inside(v, [])));
    CapsMean(pr, Inside(v, []));
    NumbersMean(pr, v.Count(t), []);
  }

  /** What the padding of base64 text is. */
  lemma {:induction false} PaddingMeans(us: Text)
    ensures var n := Padding(us); (forall i :: |us| - n <= i < |us| ==> us[i] == 61) && (n < |us| ==> us[|us| - n - 1] != 61)
  {
    if us != [] && us[|us| - 1] == 61 { PaddingMeans(us[..|us| - 1]); }
  }
}

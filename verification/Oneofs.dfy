/** The allOf/oneOf/not encoding of oneof groups and what it accepts. */
module Oneofs {
  import opened Wrappers
  import opened JsonSchema
  import opened ProtoGraph

  /** Present and not null. */
  function SelectedSchema(name: string): Schema {
    EMPTY.(
      required := [name],
      negated := Some(EMPTY.(required := [name], properties := map[name := OfType(TNull)])))
  }

  function SelectedSchemas(names: seq<string>): (s: seq<Schema>)
    ensures |s| == |names|
    ensures forall i | 0 <= i < |s| :: s[i] == SelectedSchema(names[i])
  {
    seq(|names|, i requires 0 <= i < |names| => SelectedSchema(names[i]))
  }

  function AnyOf(branches: seq<Schema>): Schema {
    EMPTY.(anyOf := branches)
  }

  function Others(names: seq<string>, i: nat): seq<string>
    requires i < |names|
  {
    names[..i] + names[i + 1..]
  }

  /** Member `i` is selected and no other member is. */
  function OnlyBranch(names: seq<string>, i: nat): Schema
    requires i < |names|
  {
    var others := SelectedSchemas(Others(names, i));
    EMPTY.(allOf := [SelectedSchema(names[i])] + if |others| > 0 then [Not(AnyOf(others))] else [])
  }

  function NoneBranch(names: seq<string>): Schema {
    Not(AnyOf(SelectedSchemas(names)))
  }

  function OnlyBranches(names: seq<string>): (s: seq<Schema>)
    ensures |s| == |names|
    ensures forall i | 0 <= i < |s| :: s[i] == OnlyBranch(names, i)
  {
    seq(|names|, i requires 0 <= i < |names| => OnlyBranch(names, i))
  }

  function Branches(names: seq<string>, required: bool): (s: seq<Schema>)
    ensures required ==> s == OnlyBranches(names)
    ensures !required ==> |s| == |names| + 1 && s[0] == NoneBranch(names) && s[1..] == OnlyBranches(names)
  {
    (if required then [] else [NoneBranch(names)]) + OnlyBranches(names)
  }

  function GroupConstraint(names: seq<string>, required: bool): Schema {
    EMPTY.(oneOf := Branches(names, required))
  }

  /** The oneof names of `fields` in the order of their first members. */
  function GroupOrder(fields: seq<Field>): seq<string> {
    if fields == [] then []
    else
      var before := GroupOrder(fields[..|fields| - 1]);
      var last := fields[|fields| - 1];
      if last.oneof.None? || last.oneof.value in before then before else before + [last.oneof.value]
  }

  /** The JSON names of the members of a oneof, in field order. */
  function Members(fields: seq<Field>, oneof: string): seq<string> {
    if fields == [] then []
    else
      var last := fields[|fields| - 1];
      Members(fields[..|fields| - 1], oneof) + if last.oneof == Some(oneof) then [last.jsonName] else []
  }

  function OneofConstraints(m: Message): (s: seq<Schema>) {
    var order := GroupOrder(m.fields);
    seq(|order|, i requires 0 <= i < |order| =>
      GroupConstraint(Members(m.fields, order[i]), order[i] in m.requiredOneofs))
  }

  method GroupFields(fields: seq<Field>) returns (grouped: map<string, seq<string>>, order: seq<string>)
    ensures order == GroupOrder(fields)
    ensures forall o :: o in order <==> o in grouped
    ensures forall o | o in grouped :: grouped[o] == Members(fields, o)
  {
    grouped := map[];
    order := [];
    for i := 0 to |fields|
      invariant order == GroupOrder(fields[..i])
      invariant forall o :: o in order <==> o in grouped
      invariant forall o | o in grouped :: grouped[o] == Members(fields[..i], o)
      invariant forall o | o !in grouped :: Members(fields[..i], o) == []
    {
      var field := fields[i];
      assert fields[..i + 1][..i] == fields[..i];
      if field.oneof.Some? {
        var name := field.oneof.value;
        if name !in grouped {
          order := order + [name];
          grouped := grouped[name := []];
        }
        grouped := grouped[name := grouped[name] + [field.jsonName]];
      }
    }
    assert fields[..|fields|] == fields;
  }

  method GenerateOneofConstraints(m: Message) returns (constraints: seq<Schema>)
    ensures constraints == OneofConstraints(m)
  {
    var grouped, order := GroupFields(m.fields);
    constraints := [];
    for i := 0 to |order|
      invariant |constraints| == i
      invariant forall k | 0 <= k < i ::
                  constraints[k] == GroupConstraint(Members(m.fields, order[k]), order[k] in m.requiredOneofs)
    {
      assert order[i] in order;
      var constraint := GroupSchema(grouped[order[i]], order[i] in m.requiredOneofs);
      constraints := constraints + [constraint];
    }
  }

  method GroupSchema(names: seq<string>, required: bool) returns (constraint: Schema)
    ensures constraint == GroupConstraint(names, required)
  {
    var branches: seq<Schema> := [];
    if !required {
      branches := [NoneBranch(names)];
    }
    ghost var start := branches;
    for j := 0 to |names|
      invariant branches == start + OnlyBranches(names)[..j]
    {
      var branch := OnlyBranchSchema(names, j);
      branches := branches + [branch];
    }
    assert branches == Branches(names, required);
    constraint := EMPTY.(oneOf := branches);
  }

  /** The others among the first `k` names. */
  function OthersTo<T>(names: seq<T>, j: nat, k: nat): seq<T>
    requires j < |names| && k <= |names|
  {
    if k <= j then names[..k] else names[..j] + names[j + 1..k]
  }

  lemma OthersToStep<T>(names: seq<T>, j: nat, k: nat)
    requires j < |names| && k < |names|
    ensures OthersTo(names, j, k + 1) == OthersTo(names, j, k) + if k != j then [names[k]] else []
  {
  }

  lemma SelectedAppend(names: seq<string>, name: string)
    ensures SelectedSchemas(names + [name]) == SelectedSchemas(names) + [SelectedSchema(name)]
  {
  }

  method OnlyBranchSchema(names: seq<string>, j: nat) returns (branch: Schema)
    requires j < |names|
    ensures branch == OnlyBranch(names, j)
  {
    var otherSelections: seq<Schema> := [];
    for k := 0 to |names|
      invariant otherSelections == SelectedSchemas(OthersTo(names, j, k))
    {
      OthersToStep(names, j, k);
      if k != j {
        SelectedAppend(OthersTo(names, j, k), names[k]);
        otherSelections := otherSelections + [SelectedSchema(names[k])];
      }
    }
    assert OthersTo(names, j, |names|) == Others(names, j);
    branch := EMPTY.(allOf := [SelectedSchema(names[j])]);
    if |otherSelections| > 0 {
      branch := branch.(allOf := branch.allOf + [Not(AnyOf(otherSelections))]);
    }
  }

  lemma SelectedMeaning(doc: Document, hops: nat, name: string, v: Json)
    ensures Accepts(doc, hops, SelectedSchema(name), v) <==> IsSelected(name, v)
  {
    var s := SelectedSchema(name);
    var inner := s.negated.value;
    assert Accepts(doc, hops, inner, v) <==> ObjectAccepts(doc, hops, inner, v);
    if v.JObject? && name in v.fields {
      assert Accepts(doc, MaxHops(doc), inner.properties[name], v.fields[name]) <==> v.fields[name].JNull?;
    }
    assert Accepts(doc, hops, s, v) <==> ObjectAccepts(doc, hops, s, v) && NegatedAccepts(doc, hops, s, v);
  }

  predicate SomeSelected(names: seq<string>, v: Json) {
    exists i | 0 <= i < |names| :: IsSelected(names[i], v)
  }

  lemma NoneSelectedMeaning(doc: Document, hops: nat, names: seq<string>, v: Json)
    requires |names| > 0
    ensures Accepts(doc, hops, NoneBranch(names), v) <==> !SomeSelected(names, v)
  {
    var any := AnyOf(SelectedSchemas(names));
    forall i | 0 <= i < |names|
      ensures Accepts(doc, hops, any.anyOf[i], v) <==> IsSelected(names[i], v)
    {
      SelectedMeaning(doc, hops, names[i], v);
    }
    assert Accepts(doc, hops, any, v) <==> AnyOfAccepts(doc, hops, any, v);
    assert Accepts(doc, hops, NoneBranch(names), v) <==> !Accepts(doc, hops, any, v);
  }

  predicate SelectedAlone(names: seq<string>, i: nat, v: Json)
    requires i < |names|
  {
    IsSelected(names[i], v) && forall j | 0 <= j < |names| && j != i :: !IsSelected(names[j], v)
  }

  lemma OthersCover(names: seq<string>, i: nat, v: Json)
    requires i < |names|
    ensures SomeSelected(Others(names, i), v) <==> exists j | 0 <= j < |names| && j != i :: IsSelected(names[j], v)
  {
    var others := Others(names, i);
    forall j | 0 <= j < |names| && j != i
      ensures exists k | 0 <= k < |others| :: others[k] == names[j]
    {
      assert others[if j < i then j else j - 1] == names[j];
    }
    forall k | 0 <= k < |others|
      ensures exists j | 0 <= j < |names| && j != i :: others[k] == names[j]
    {
      assert others[k] == names[if k < i then k else k + 1];
    }
  }

  lemma OnlyBranchMeaning(doc: Document, hops: nat, names: seq<string>, i: nat, v: Json)
    requires i < |names|
    ensures Accepts(doc, hops, OnlyBranch(names, i), v) <==> SelectedAlone(names, i, v)
  {
    var s := OnlyBranch(names, i);
    assert Accepts(doc, hops, s, v) <==> AllOfAccepts(doc, hops, s, v);
    SelectedMeaning(doc, hops, names[i], v);
    assert s.allOf[0] == SelectedSchema(names[i]);
    OthersCover(names, i, v);
    if |names| > 1 {
      NoneSelectedMeaning(doc, hops, Others(names, i), v);
      assert s.allOf[1] == NoneBranch(Others(names, i));
    }
  }

  predicate AtMostOneSelected(names: seq<string>, v: Json) {
    forall i, j | 0 <= i < j < |names| :: !(IsSelected(names[i], v) && IsSelected(names[j], v))
  }

  /** What branch `b` of a group says: nothing is selected, or one member alone. */
  predicate BranchHolds(names: seq<string>, required: bool, b: nat, v: Json)
    requires b < |Branches(names, required)|
  {
    if required then SelectedAlone(names, b, v)
    else if b == 0 then !SomeSelected(names, v)
    else SelectedAlone(names, b - 1, v)
  }

  lemma NoneBranchMeaningOf(doc: Document, hops: nat, s: Schema, names: seq<string>, v: Json)
    requires |names| > 0 && s == NoneBranch(names)
    ensures Accepts(doc, hops, s, v) <==> !SomeSelected(names, v)
  {
    NoneSelectedMeaning(doc, hops, names, v);
  }

  lemma OnlyBranchMeaningOf(doc: Document, hops: nat, s: Schema, names: seq<string>, i: nat, v: Json)
    requires i < |names| && s == OnlyBranch(names, i)
    ensures Accepts(doc, hops, s, v) <==> SelectedAlone(names, i, v)
  {
    OnlyBranchMeaning(doc, hops, names, i, v);
  }

  lemma BranchAt(names: seq<string>, required: bool, b: nat)
    requires b < |Branches(names, required)|
    ensures !required && b == 0 ==> Branches(names, required)[b] == NoneBranch(names)
    ensures required ==> b < |names| && Branches(names, required)[b] == OnlyBranch(names, b)
    ensures !required && b > 0 ==> b - 1 < |names| && Branches(names, required)[b] == OnlyBranch(names, b - 1)
  {
  }

  lemma NoneBranchCase(doc: Document, hops: nat, names: seq<string>, v: Json)
    requires |names| > 0
    ensures Accepts(doc, hops, Branches(names, false)[0], v) <==> BranchHolds(names, false, 0, v)
  {
    BranchAt(names, false, 0);
    NoneBranchMeaningOf(doc, hops, Branches(names, false)[0], names, v);
  }

  lemma OnlyBranchCase(doc: Document, hops: nat, names: seq<string>, required: bool, b: nat, v: Json)
    requires b < |Branches(names, required)| && (required || b > 0)
    ensures Accepts(doc, hops, Branches(names, required)[b], v) <==> BranchHolds(names, required, b, v)
  {
    BranchAt(names, required, b);
    OnlyBranchMeaningOf(doc, hops, Branches(names, required)[b], names, if required then b else b - 1, v);
  }

  lemma BranchMeaning(doc: Document, hops: nat, names: seq<string>, required: bool, b: nat, v: Json)
    requires |names| > 0 && b < |Branches(names, required)|
    ensures Accepts(doc, hops, Branches(names, required)[b], v) <==> BranchHolds(names, required, b, v)
  {
    if !required && b == 0 {
      NoneBranchCase(doc, hops, names, v);
    } else {
      OnlyBranchCase(doc, hops, names, required, b, v);
    }
  }

  /** No value satisfies two branches of a group, so oneOf here is a plain disjunction. */
  lemma BranchesExclusive(doc: Document, hops: nat, names: seq<string>, required: bool, a: nat, b: nat, v: Json)
    requires |names| > 0
    requires a < |Branches(names, required)| && b < |Branches(names, required)| && a != b
    ensures !(Accepts(doc, hops, Branches(names, required)[a], v) && Accepts(doc, hops, Branches(names, required)[b], v))
  {
    BranchMeaning(doc, hops, names, required, a, v);
    BranchMeaning(doc, hops, names, required, b, v);
  }

  lemma SomeBranchHolds(names: seq<string>, required: bool, v: Json)
    requires |names| > 0
    ensures (exists b: nat | b < |Branches(names, required)| :: BranchHolds(names, required, b, v))
              <==> AtMostOneSelected(names, v) && (required ==> SomeSelected(names, v))
  {
    var shift := if required then 0 else 1;
    if AtMostOneSelected(names, v) && (required ==> SomeSelected(names, v)) {
      if SomeSelected(names, v) {
        var i :| 0 <= i < |names| && IsSelected(names[i], v);
        assert BranchHolds(names, required, i + shift, v);
      } else {
        assert BranchHolds(names, required, 0, v);
      }
    }
  }

  lemma OnlyOneOfMatters(doc: Document, hops: nat, branches: seq<Schema>, v: Json)
    ensures Accepts(doc, hops, EMPTY.(oneOf := branches), v) <==>
              OneOfAccepts(doc, hops, EMPTY.(oneOf := branches), v)
  {
  }

  function Verdicts(names: seq<string>, required: bool, v: Json): (verdicts: seq<bool>)
    ensures |verdicts| == |Branches(names, required)|
    ensures forall b | 0 <= b < |verdicts| :: verdicts[b] == BranchHolds(names, required, b, v)
  {
    seq(|Branches(names, required)|, b requires 0 <= b < |Branches(names, required)| => BranchHolds(names, required, b, v))
  }

  lemma HoldsExclusive(names: seq<string>, required: bool, a: nat, b: nat, v: Json)
    requires a < |Branches(names, required)| && b < |Branches(names, required)|
    requires BranchHolds(names, required, a, v) && BranchHolds(names, required, b, v)
    ensures a == b
  {
  }

  lemma VerdictsMeaning(names: seq<string>, required: bool, v: Json)
    requires |names| > 0
    ensures ExactlyOne(Verdicts(names, required, v)) <==> AtMostOneSelected(names, v) && (required ==> SomeSelected(names, v))
  {
    var verdicts := Verdicts(names, required, v);
    SomeBranchHolds(names, required, v);
    if b: nat :| b < |Branches(names, required)| && BranchHolds(names, required, b, v) {
      assert verdicts[b];
      forall j | 0 <= j < |verdicts| && j != b
        ensures !verdicts[j]
      {
        if verdicts[j] {
          HoldsExclusive(names, required, b, j, v);
        }
      }
    }
  }

  lemma GroupVerdicts(doc: Document, hops: nat, names: seq<string>, required: bool, v: Json)
    requires |names| > 0
    ensures OneOfVerdicts(doc, hops, GroupConstraint(names, required), v) == Verdicts(names, required, v)
  {
    var verdicts := OneOfVerdicts(doc, hops, GroupConstraint(names, required), v);
    forall b: nat | b < |verdicts|
      ensures verdicts[b] == Verdicts(names, required, v)[b]
    {
      BranchMeaning(doc, hops, names, required, b, v);
    }
  }

  /** A group accepts a value exactly when at most one member, and one if it is required, is selected. */
  lemma GroupMeaning(doc: Document, hops: nat, names: seq<string>, required: bool, v: Json)
    requires |names| > 0
    ensures Accepts(doc, hops, GroupConstraint(names, required), v) <==>
              AtMostOneSelected(names, v) && (required ==> SomeSelected(names, v))
  {
    OnlyOneOfMatters(doc, hops, Branches(names, required), v);
    GroupVerdicts(doc, hops, names, required, v);
    VerdictsMeaning(names, required, v);
  }

  lemma {:induction false} MembersExact(fields: seq<Field>, oneof: string)
    ensures forall n :: n in Members(fields, oneof) <==> exists f | f in fields :: f.oneof == Some(oneof) && f.jsonName == n
  {
    if fields != [] {
      var front, last := fields[..|fields| - 1], fields[|fields| - 1];
      MembersExact(front, oneof);
      assert fields == front + [last];
      assert forall f :: f in fields <==> f in front || f == last;
    }
  }

  lemma {:induction false} MembersDistinct(fields: seq<Field>, oneof: string)
    requires DistinctJsonNames(fields)
    ensures forall i, j | 0 <= i < j < |Members(fields, oneof)| :: Members(fields, oneof)[i] != Members(fields, oneof)[j]
  {
    if fields != [] {
      var front, last := fields[..|fields| - 1], fields[|fields| - 1];
      MembersDistinct(front, oneof);
      MembersExact(front, oneof);
      forall f | f in front
        ensures f.jsonName != last.jsonName
      {
        var i :| 0 <= i < |front| && front[i] == f;
        assert fields[i] == f;
      }
      assert last.jsonName !in Members(front, oneof);
    }
  }

  lemma {:induction false} GroupOrderExact(fields: seq<Field>)
    ensures forall o :: o in GroupOrder(fields) <==> exists f | f in fields :: f.oneof == Some(o)
  {
    if fields != [] {
      var front, last := fields[..|fields| - 1], fields[|fields| - 1];
      GroupOrderExact(front);
      assert fields == front + [last];
      assert forall f :: f in fields <==> f in front || f == last;
    }
  }

  predicate GroupRespected(m: Message, oneof: string, v: Json) {
    var names := Members(m.fields, oneof);
    AtMostOneSelected(names, v) && (oneof in m.requiredOneofs ==> SomeSelected(names, v))
  }

  lemma MemberField(fields: seq<Field>, o: string, name: string) returns (f: Field)
    requires name in Members(fields, o)
    ensures f in fields && f.oneof == Some(o) && f.jsonName == name
  {
    MembersExact(fields, o);
    f :| f in fields && f.oneof == Some(o) && f.jsonName == name;
  }

  lemma RespectedAtMost(m: Message, v: Json, o: string, i: nat, j: nat)
    requires DistinctJsonNames(m.fields) && OneofsRespected(m, v) && i < j < |Members(m.fields, o)|
    ensures !(IsSelected(Members(m.fields, o)[i], v) && IsSelected(Members(m.fields, o)[j], v))
  {
    var names := Members(m.fields, o);
    MembersDistinct(m.fields, o);
    var f := MemberField(m.fields, o, names[i]);
    var f' := MemberField(m.fields, o, names[j]);
  }

  lemma FieldIsMember(fields: seq<Field>, o: string, f: Field)
    requires f in fields && f.oneof == Some(o)
    ensures f.jsonName in Members(fields, o)
  {
    MembersExact(fields, o);
  }

  lemma RespectedSome(m: Message, v: Json, o: string)
    requires MemberSelected(m, o, v)
    ensures SomeSelected(Members(m.fields, o), v)
  {
    var f :| f in m.fields && f.oneof == Some(o) && IsSelected(f.jsonName, v);
    FieldIsMember(m.fields, o, f);
    var names := Members(m.fields, o);
    var i :| 0 <= i < |names| && names[i] == f.jsonName;
    assert IsSelected(names[i], v);
  }

  lemma RespectedGroup(m: Message, v: Json, o: string, f: Field)
    requires DistinctJsonNames(m.fields) && OneofsRespected(m, v) && f in m.fields && f.oneof == Some(o)
    ensures GroupRespected(m, o, v)
  {
    var names := Members(m.fields, o);
    forall i, j | 0 <= i < j < |names|
      ensures !(IsSelected(names[i], v) && IsSelected(names[j], v))
    {
      RespectedAtMost(m, v, o, i, j);
    }
    if o in m.requiredOneofs {
      assert HasMember(m, o);
      RespectedSome(m, v, o);
    }
  }

  lemma GroupExcludes(m: Message, v: Json, f: Field, f': Field)
    requires f in m.fields && f' in m.fields && f.oneof.Some? && f.oneof == f'.oneof && f.jsonName != f'.jsonName
    requires GroupRespected(m, f.oneof.value, v)
    ensures !(IsSelected(f.jsonName, v) && IsSelected(f'.jsonName, v))
  {
    MembersExact(m.fields, f.oneof.value);
    assert f.jsonName in Members(m.fields, f.oneof.value) && f'.jsonName in Members(m.fields, f.oneof.value);
  }

  lemma GroupSelects(m: Message, v: Json, o: string)
    requires SomeSelected(Members(m.fields, o), v)
    ensures MemberSelected(m, o, v)
  {
    var names := Members(m.fields, o);
    var i :| 0 <= i < |names| && IsSelected(names[i], v);
    var f := MemberField(m.fields, o, names[i]);
  }

  lemma GroupsRespected(m: Message, v: Json)
    requires DistinctJsonNames(m.fields)
    ensures OneofsRespected(m, v) <==> forall o | o in GroupOrder(m.fields) :: GroupRespected(m, o, v)
  {
    GroupOrderExact(m.fields);
    if OneofsRespected(m, v) {
      forall o | o in GroupOrder(m.fields)
        ensures GroupRespected(m, o, v)
      {
        var f :| f in m.fields && f.oneof == Some(o);
        RespectedGroup(m, v, o, f);
      }
    }
    if forall o | o in GroupOrder(m.fields) :: GroupRespected(m, o, v) {
      forall f, f' | f in m.fields && f' in m.fields && f.oneof.Some? && f.oneof == f'.oneof && f.jsonName != f'.jsonName {
        GroupExcludes(m, v, f, f');
      }
      forall o | o in m.requiredOneofs && HasMember(m, o)
        ensures MemberSelected(m, o, v)
      {
        assert GroupRespected(m, o, v);
        GroupSelects(m, v, o);
      }
    }
  }

  /** All constraints of a message together say exactly that its oneofs are respected. */
  lemma OneofConstraintsMeaning(doc: Document, hops: nat, m: Message, v: Json)
    requires DistinctJsonNames(m.fields)
    ensures (forall i | 0 <= i < |OneofConstraints(m)| :: Accepts(doc, hops, OneofConstraints(m)[i], v))
              <==> OneofsRespected(m, v)
  {
    var order := GroupOrder(m.fields);
    GroupsRespected(m, v);
    forall i | 0 <= i < |order|
      ensures Accepts(doc, hops, OneofConstraints(m)[i], v) <==> GroupRespected(m, order[i], v)
    {
      GroupOrderExact(m.fields);
      assert order[i] in order;
      var f :| f in m.fields && f.oneof == Some(order[i]);
      MembersExact(m.fields, order[i]);
      assert f.jsonName in Members(m.fields, order[i]);
      GroupMeaning(doc, hops, Members(m.fields, order[i]), order[i] in m.requiredOneofs, v);
    }
    assert forall o | o in order :: exists i | 0 <= i < |order| :: order[i] == o;
  }

  /** Null, like any value that is not an object, passes unless some oneof is required. */
  lemma NullPassesOneofs(doc: Document, hops: nat, m: Message, v: Json)
    requires DistinctJsonNames(m.fields) && !v.JObject?
    ensures (forall i | 0 <= i < |OneofConstraints(m)| :: Accepts(doc, hops, OneofConstraints(m)[i], v))
              <==> !HasRequiredOneof(m)
  {
    OneofConstraintsMeaning(doc, hops, m, v);
  }
}

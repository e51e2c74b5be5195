/**
 What the made-up examples are worth: they are right in all they say, a message has
 one exactly when it leads to something to show, and an example conforms to its
 message exactly when every frame in it shows what is required.
 */
module ExampleMeaning {
  import opened Wrappers
  import opened JsonSchema
  import opened ProtoGraph
  import opened Oneofs
  import opened Reachability
  import opened WellKnownTypes
  import opened ExampleValues

  // An example is right in all it says, though it may leave things out.

  /** Like KindConforms, but messages may lack required fields and enum values may be hidden. */
  predicate Plausible(g: Graph, k: Kind, v: Json)
    decreases v, 1
  {
    match k
    case KEnum(values) => v.JString? && exists e | e in values :: e.name == v.s
    case KMessage(name) =>
      (match WellKnownOf(name)
       case Some(t) => WellKnownConforms(t, v)
       case None => PlausibleMessage(g, name, v))
    case _ => KindConforms(g, false, k, v)
  }

  predicate PlausibleField(g: Graph, f: Field, v: Json)
    decreases v, 2
  {
    match f.shape
    case Singular => Plausible(g, f.kind, v)
    case Repeated => v.JArray? && forall i | 0 <= i < |v.items| :: Plausible(g, f.kind, v.items[i])
    case MapOf(entry) =>
      v.JObject? && |entry| == 2 && forall k | k in v.fields :: KeyConforms(entry[0], k) && Plausible(g, entry[1], v.fields[k])
  }

  /** Declared properties only, each plausible, and at most one member of each oneof. */
  predicate PlausibleMessage(g: Graph, name: string, v: Json)
    decreases v, 0
  {
    && name in g && v.JObject?
    && (forall k | k in v.fields :: k in JsonNames(g[name].fields))
    && (forall f | f in g[name].fields && f.jsonName in v.fields :: PlausibleField(g, f, v.fields[f.jsonName]))
    && OneMemberEach(g[name].fields, v.fields)
  }

  predicate OneMemberEach(fields: seq<Field>, properties: map<string, Json>) {
    forall f, f' | f in fields && f' in fields && f.oneof.Some? && f.oneof == f'.oneof
                   && f.jsonName in properties && f'.jsonName in properties :: f.jsonName == f'.jsonName
  }

  lemma {:induction false} NonZeroIn(values: seq<EnumValue>)
    ensures NonZero(values).Some? ==> NonZero(values).value in values && NonZero(values).value.number != 0
    ensures NonZero(values).None? ==> forall e | e in values :: e.number == 0
  {
    if values != [] {
      NonZeroIn(values[1..]);
    }
  }

  lemma DurationPlausible()
    ensures IsDuration("3600s")
  {
    assert "3600s"[..|"3600s"| - 1] == "3600";
  }

  lemma WellKnownPlausible(t: WellKnown)
    ensures WellKnownExamples(t) != []
    ensures forall v | v in WellKnownExamples(t) :: WellKnownConforms(t, v) && !v.JNull?
  {
    if t.DurationType? {
      DurationPlausible();
    }
  }

  lemma ScalarPlausible(g: Graph, k: Kind)
    requires !k.KMessage?
    ensures forall v | v in ScalarExamples(k) :: Plausible(g, k, v) && !v.JNull?
  {
    if k.KEnum? {
      NonZeroIn(k.values);
    }
  }

  lemma KeyIsFine(k: Kind)
    requires MapKeyExample(k) != ""
    ensures KeyConforms(k, MapKeyExample(k))
  {
  }

  lemma {:induction false} KindPlausible(g: Graph, seen: multiset<string>, k: Kind)
    requires WellFormed(g) && seen <= Room(g)
    ensures forall v | v in KindExamples(g, seen, k) :: Plausible(g, k, v) && !v.JNull?
    decreases Room(g) - seen, 1
  {
    if k.KMessage? {
      if IsWellKnown(k.name) {
        WellKnownPlausible(WellKnownOf(k.name).value);
      } else if k.name in g {
        MessagePlausible(g, seen, k.name);
      }
    } else {
      ScalarPlausible(g, k);
    }
  }

  lemma {:induction false} FieldPlausible(g: Graph, seen: multiset<string>, f: Field)
    requires WellFormed(g) && seen <= Room(g)
    ensures var v := FieldExample(g, seen, f); v.Some? ==> PlausibleField(g, f, v.value) && !v.value.JNull?
    decreases Room(g) - seen, 2
  {
    KindPlausible(g, seen, ValueKind(f));
    var values := KindExamples(g, seen, ValueKind(f));
    if values != [] {
      assert values[0] in values;
      if f.shape.MapOf? && HasMapKey(f.shape.entry) {
        KeyIsFine(f.shape.entry[0]);
      }
    }
  }

  /** Every example of a message is plausible, and within another frame of it shows required fields only. */
  lemma {:induction false} MessagePlausible(g: Graph, seen: multiset<string>, name: string)
    requires WellFormed(g) && name in g && seen <= Room(g)
    ensures var v := MessageExample(g, seen, name);
            v.Some? ==>
              && PlausibleMessage(g, name, v.value)
              && v.value.fields != map[]
              && (name in seen ==> forall f | f in g[name].fields && f.jsonName in v.value.fields :: IsRequired(f))
    decreases Room(g) - seen, 0
  {
    MessageExampleExact(g, seen, name);
    var fields, v := g[name].fields, MessageExample(g, seen, name);
    if v.Some? {
      FrameFits(g, seen, name);
      forall f | f in fields && f.jsonName in v.value.fields
        ensures PlausibleField(g, f, v.value.fields[f.jsonName]) && (name in seen ==> IsRequired(f))
      {
        var j :| 0 <= j < |fields| && fields[j] == f;
        FieldPlausible(g, seen + multiset{name}, f);
      }
      ShownOnce(fields, name in seen, v.value.fields);
    }
  }

  lemma ShownOnce(fields: seq<Field>, recursive: bool, properties: map<string, Json>)
    requires forall j | 0 <= j < |fields| && fields[j].jsonName in properties :: IsShown(fields, j, recursive)
    ensures OneMemberEach(fields, properties)
  {
    forall f, f' | f in fields && f' in fields && f.oneof.Some? && f.oneof == f'.oneof
                   && f.jsonName in properties && f'.jsonName in properties
      ensures f.jsonName == f'.jsonName
    {
      var i :| 0 <= i < |fields| && fields[i] == f;
      var j :| 0 <= j < |fields| && fields[j] == f';
      assert !(i < j) && !(j < i);
    }
  }

  // When a message has an example: it leads, by shown fields, to something to show.

  predicate IsPlain(k: Kind) {
    if k.KMessage? then IsWellKnown(k.name) else ScalarExamples(k) != []
  }

  predicate IsHolder(g: Graph, k: Kind) {
    k.KMessage? && !IsWellKnown(k.name) && k.name in g
  }

  predicate Carries(f: Field) {
    f.shape.MapOf? ==> HasMapKey(f.shape.entry)
  }

  /** The messages that the frame of each message shows fields of. */
  function Leads(g: Graph, seen: multiset<string>): map<string, set<string>> {
    map m | m in g :: LeadsFrom(g, seen, m)
  }

  function LeadsFrom(g: Graph, seen: multiset<string>, m: string): set<string>
    requires m in g
  {
    if seen[m] >= LIMIT then {}
    else
      set j | 0 <= j < |g[m].fields| && IsShown(g[m].fields, j, m in seen) && Carries(g[m].fields[j])
              && IsHolder(g, ValueKind(g[m].fields[j])) :: ValueKind(g[m].fields[j]).name
  }

  /** The frame of `m` shows a field that needs no further frame. */
  predicate ShowsPlain(g: Graph, seen: multiset<string>, m: string) {
    && m in g && seen[m] < LIMIT
    && exists j | 0 <= j < |g[m].fields| ::
         IsShown(g[m].fields, j, m in seen) && Carries(g[m].fields[j]) && IsPlain(ValueKind(g[m].fields[j]))
  }

  ghost predicate Fertile(g: Graph, seen: multiset<string>, name: string) {
    exists m :: Reach(Leads(g, seen), {name}, m) && ShowsPlain(g, seen, m)
  }

  ghost predicate FieldFertile(g: Graph, seen: multiset<string>, f: Field) {
    Carries(f) && var k := ValueKind(f); IsPlain(k) || (IsHolder(g, k) && Fertile(g, seen, k.name))
  }

  lemma FieldHasExample(g: Graph, seen: multiset<string>, f: Field)
    requires seen <= Room(g)
    ensures var k := ValueKind(f);
            FieldExample(g, seen, f).Some? <==>
              Carries(f) && (IsPlain(k) || (IsHolder(g, k) && MessageExample(g, seen, k.name).Some?))
  {
    var k := ValueKind(f);
    if k.KMessage? && IsWellKnown(k.name) {
      WellKnownPlausible(WellKnownOf(k.name).value);
    }
  }

  /** More open frames show fewer fields. */
  lemma LeadsShrink(g: Graph, seen: multiset<string>, name: string, a: string, b: string)
    requires Edge(Leads(g, seen + multiset{name}), a, b)
    ensures Edge(Leads(g, seen), a, b)
  {
  }

  lemma FertileShrinks(g: Graph, seen: multiset<string>, name: string, n: string)
    requires Fertile(g, seen + multiset{name}, n)
    ensures Fertile(g, seen, n)
  {
    var more, less := Leads(g, seen + multiset{name}), Leads(g, seen);
    var m :| Reach(more, {n}, m) && ShowsPlain(g, seen + multiset{name}, m);
    var p: seq<string> :| |p| > 0 && p[0] in {n} && p[|p| - 1] == m && IsPath(more, p);
    forall i, j | 0 <= i < j < |p| && j == i + 1
      ensures Edge(less, p[i], p[j])
    {
      LeadsShrink(g, seen, name, p[i], p[j]);
    }
    assert IsPath(less, p);
    assert Reach(less, {n}, m);
    assert ShowsPlain(g, seen, m);
  }

  lemma {:induction false} ExampleIsFertile(g: Graph, seen: multiset<string>, name: string)
    requires WellFormed(g) && name in g && seen <= Room(g) && MessageExample(g, seen, name).Some?
    ensures Fertile(g, seen, name)
    decreases Room(g) - seen
  {
    MessageExampleExact(g, seen, name);
    FrameFits(g, seen, name);
    var fields, inner := g[name].fields, seen + multiset{name};
    var key :| key in MessageExample(g, seen, name).value.fields;
    var f :| f in fields && f.jsonName == key;
    var j :| 0 <= j < |fields| && fields[j] == f;
    FieldHasExample(g, inner, f);
    ReachRoot(Leads(g, seen), {name}, name);
    if IsPlain(ValueKind(f)) {
      assert ShowsPlain(g, seen, name);
    } else {
      var n := ValueKind(f).name;
      ExampleIsFertile(g, inner, n);
      FertileShrinks(g, seen, name, n);
      var m :| Reach(Leads(g, seen), {n}, m) && ShowsPlain(g, seen, m);
      assert n in LeadsFrom(g, seen, name);
      assert Edge(Leads(g, seen), name, n);
      ReachStep(Leads(g, seen), {name}, name, n);
      ReachTransitive(Leads(g, seen), {name}, {n}, m);
    }
  }

  /** Away from `name`, one more open frame of it changes nothing. */
  lemma LeadsElsewhere(g: Graph, seen: multiset<string>, name: string, a: string, b: string)
    requires Edge(Leads(g, seen), a, b) && a != name
    ensures Edge(Leads(g, seen + multiset{name}), a, b)
  {
  }

  /** A path of shown fields to something plain gives its first message an example: take it without loops. */
  lemma {:induction false} PathGivesExample(g: Graph, seen: multiset<string>, p: seq<string>)
    requires WellFormed(g) && seen <= Room(g)
    requires |p| > 0 && IsPath(Leads(g, seen), p) && ShowsPlain(g, seen, p[|p| - 1])
    ensures p[0] in g && MessageExample(g, seen, p[0]).Some?
    decreases |p|
  {
    var name := p[0];
    if j :| 0 < j < |p| && p[j] == name {
      PathGivesExample(g, seen, p[j..]);
    } else if |p| == 1 {
      var j :| 0 <= j < |g[name].fields| && IsShown(g[name].fields, j, name in seen)
               && Carries(g[name].fields[j]) && IsPlain(ValueKind(g[name].fields[j]));
      ShownFieldGivesExample(g, seen, name, j);
    } else {
      assert Edge(Leads(g, seen), p[0], p[1]);
      FrameFits(g, seen, name);
      var inner, rest := seen + multiset{name}, p[1..];
      forall i, j | 0 <= i < j < |rest| && j == i + 1
        ensures Edge(Leads(g, inner), rest[i], rest[j])
      {
        assert Edge(Leads(g, seen), p[i + 1], p[j + 1]);
        LeadsElsewhere(g, seen, name, rest[i], rest[j]);
      }
      assert p[|p| - 1] != name;
      assert ShowsPlain(g, inner, rest[|rest| - 1]);
      PathGivesExample(g, inner, rest);
      var j :| 0 <= j < |g[name].fields| && IsShown(g[name].fields, j, name in seen) && Carries(g[name].fields[j])
               && IsHolder(g, ValueKind(g[name].fields[j])) && ValueKind(g[name].fields[j]).name == p[1];
      ShownFieldGivesExample(g, seen, name, j);
    }
  }

  lemma ShownFieldGivesExample(g: Graph, seen: multiset<string>, name: string, j: nat)
    requires WellFormed(g) && seen <= Room(g) && name in g && seen[name] < LIMIT && j < |g[name].fields|
    requires IsShown(g[name].fields, j, name in seen) && Carries(g[name].fields[j])
    requires seen + multiset{name} <= Room(g) ==>
               var k := ValueKind(g[name].fields[j]);
               IsPlain(k) || (IsHolder(g, k) && MessageExample(g, seen + multiset{name}, k.name).Some?)
    ensures MessageExample(g, seen, name).Some?
  {
    FrameFits(g, seen, name);
    FieldHasExample(g, seen + multiset{name}, g[name].fields[j]);
    MessageExampleExact(g, seen, name);
  }

  /**
   A message has an example exactly when a path of shown fields leads from it to a field
   that needs no message; without open frames the limit on frames plays no part in this.
   */
  lemma HasExampleIffFertile(g: Graph, seen: multiset<string>, name: string)
    requires WellFormed(g) && name in g && seen <= Room(g)
    ensures MessageExample(g, seen, name).Some? <==> Fertile(g, seen, name)
  {
    if Fertile(g, seen, name) {
      var m :| Reach(Leads(g, seen), {name}, m) && ShowsPlain(g, seen, m);
      var p: seq<string> :| |p| > 0 && p[0] in {name} && p[|p| - 1] == m && IsPath(Leads(g, seen), p);
      PathGivesExample(g, seen, p);
    } else if MessageExample(g, seen, name).Some? {
      ExampleIsFertile(g, seen, name);
    }
  }

  lemma FieldExampleIffFertile(g: Graph, seen: multiset<string>, f: Field)
    requires WellFormed(g) && seen <= Room(g)
    ensures FieldExample(g, seen, f).Some? <==> FieldFertile(g, seen, f)
  {
    FieldHasExample(g, seen, f);
    if IsHolder(g, ValueKind(f)) {
      HasExampleIffFertile(g, seen, ValueKind(f).name);
    }
  }

  // When an example conforms: every frame in it shows what is required.

  predicate DistinctValues(values: seq<EnumValue>) {
    forall i, j | 0 <= i < j < |values| :: values[i].name != values[j].name
  }

  predicate KindDistinct(k: Kind) {
    k.KEnum? ==> DistinctValues(k.values)
  }

  /** No enum names two of its values alike. */
  predicate EnumsDistinct(g: Graph) {
    forall n | n in g :: forall f | f in g[n].fields :: KindDistinct(ValueKind(f))
  }

  /** The chosen value is one that the schema lists, or the schema lists none. */
  predicate EnumSound(values: seq<EnumValue>) {
    (values != [] && !ChosenValue(values).hidden) || forall e | e in values :: e.hidden
  }

  lemma {:induction false} VisibleNamesExact(values: seq<EnumValue>)
    ensures forall n :: n in VisibleNames(values) <==> exists e | e in values :: e.name == n && !e.hidden
    ensures VisibleNames(values) == [] <==> forall e | e in values :: e.hidden
  {
    if values != [] {
      VisibleNamesExact(values[1..]);
      assert values == [values[0]] + values[1..];
    }
  }

  /** The example of an enum conforms exactly when the value chosen is not hidden, or all are. */
  lemma EnumExampleConforms(g: Graph, strict: bool, values: seq<EnumValue>)
    requires values != [] && DistinctValues(values)
    ensures KindConforms(g, strict, KEnum(values), ScalarExamples(KEnum(values))[0]) <==>
              !ChosenValue(values).hidden || forall e | e in values :: e.hidden
  {
    VisibleNamesExact(values);
    NonZeroIn(values);
    var chosen := ChosenValue(values);
    assert chosen in values;
    forall e | e in values && e.name == chosen.name
      ensures e == chosen
    {
    }
  }

  ghost predicate ShowsRequired(g: Graph, seen: multiset<string>, name: string)
    requires name in g
  {
    forall f | f in g[name].fields && IsRequired(f) :: FieldFertile(g, seen + multiset{name}, f)
  }

  /** Field `j` stands for oneof `o` in the example: it is shown and has an example of its own. */
  ghost predicate StandsFor(g: Graph, seen: multiset<string>, name: string, o: string, j: nat)
    requires name in g && j < |g[name].fields|
  {
    var f := g[name].fields[j];
    f.oneof == Some(o) && IsShown(g[name].fields, j, name in seen) && FieldFertile(g, seen + multiset{name}, f)
  }

  ghost predicate ShowsOneofs(g: Graph, seen: multiset<string>, name: string)
    requires name in g
  {
    forall o | o in g[name].requiredOneofs && HasMember(g[name], o) ::
      exists j | 0 <= j < |g[name].fields| :: StandsFor(g, seen, name, o, j)
  }

  ghost predicate KindSound(g: Graph, seen: multiset<string>, k: Kind)
    requires seen <= Room(g)
    decreases Room(g) - seen, 1
  {
    match k
    case KEnum(values) => EnumSound(values)
    case KMessage(name) => IsHolder(g, k) ==> MessageSound(g, seen, name)
    case _ => true
  }

  /** Every frame of the example shows all required fields and a member of each required oneof. */
  ghost predicate MessageSound(g: Graph, seen: multiset<string>, name: string)
    requires name in g && seen <= Room(g)
    decreases Room(g) - seen, 0
  {
    seen[name] < LIMIT ==>
      (FrameFits(g, seen, name);
       && ShowsRequired(g, seen, name)
       && ShowsOneofs(g, seen, name)
       && forall j | 0 <= j < |g[name].fields| && ShownExample(g, seen, name, j) ::
            KindSound(g, seen + multiset{name}, ValueKind(g[name].fields[j])))
  }

  ghost predicate ShownExample(g: Graph, seen: multiset<string>, name: string, j: nat)
    requires name in g && j < |g[name].fields|
  {
    IsShown(g[name].fields, j, name in seen) && FieldFertile(g, seen + multiset{name}, g[name].fields[j])
  }

  /** Which fields an example sets. */
  lemma ExampleSets(g: Graph, seen: multiset<string>, name: string, j: nat)
    requires WellFormed(g) && name in g && seen <= Room(g) && MessageExample(g, seen, name).Some? && j < |g[name].fields|
    ensures MessageExample(g, seen, name).value.JObject?
    ensures g[name].fields[j].jsonName in MessageExample(g, seen, name).value.fields <==> ShownExample(g, seen, name, j)
  {
    MessageExampleExact(g, seen, name);
    FieldExampleIffFertile(g, seen + multiset{name}, g[name].fields[j]);
  }

  /** An example sets every required field exactly when each of them is fertile. */
  lemma ExampleSetsRequired(g: Graph, seen: multiset<string>, name: string)
    requires WellFormed(g) && name in g && seen <= Room(g) && MessageExample(g, seen, name).Some?
    ensures MessageExample(g, seen, name).value.JObject?
    ensures (forall f | f in g[name].fields && IsRequired(f) :: f.jsonName in MessageExample(g, seen, name).value.fields)
            <==> ShowsRequired(g, seen, name)
  {
    MessageExampleExact(g, seen, name);
    var fields := g[name].fields;
    forall f | f in fields && IsRequired(f)
      ensures f.jsonName in MessageExample(g, seen, name).value.fields <==> FieldFertile(g, seen + multiset{name}, f)
    {
      var j :| 0 <= j < |fields| && fields[j] == f;
      ExampleSets(g, seen, name, j);
    }
  }

  lemma ExampleSelects(g: Graph, seen: multiset<string>, name: string, o: string)
    requires WellFormed(g) && name in g && seen <= Room(g) && MessageExample(g, seen, name).Some?
    ensures MemberSelected(g[name], o, MessageExample(g, seen, name).value) <==>
              exists j | 0 <= j < |g[name].fields| :: StandsFor(g, seen, name, o, j)
  {
    MessageExampleExact(g, seen, name);
    var fields, v := g[name].fields, MessageExample(g, seen, name).value;
    forall j | 0 <= j < |fields|
      ensures fields[j].oneof == Some(o) && IsSelected(fields[j].jsonName, v) <==> StandsFor(g, seen, name, o, j)
    {
      ExampleSets(g, seen, name, j);
      FieldPlausible(g, seen + multiset{name}, fields[j]);
    }
    if f :| f in fields && f.oneof == Some(o) && IsSelected(f.jsonName, v) {
      var j :| 0 <= j < |fields| && fields[j] == f;
      assert StandsFor(g, seen, name, o, j);
    }
    if j :| 0 <= j < |fields| && StandsFor(g, seen, name, o, j) {
      assert fields[j] in fields;
    }
  }

  /** An example respects the oneofs exactly when each required one has a member that stands for it. */
  lemma ExampleRespectsOneofs(g: Graph, seen: multiset<string>, name: string)
    requires WellFormed(g) && name in g && seen <= Room(g) && MessageExample(g, seen, name).Some?
    ensures OneofsRespected(g[name], MessageExample(g, seen, name).value) <==> ShowsOneofs(g, seen, name)
  {
    MessagePlausible(g, seen, name);
    forall o
      ensures MemberSelected(g[name], o, MessageExample(g, seen, name).value) <==>
                exists j | 0 <= j < |g[name].fields| :: StandsFor(g, seen, name, o, j)
    {
      ExampleSelects(g, seen, name, o);
    }
  }

  /** The same of the generated constraints. */
  lemma ExamplePassesOneofs(doc: Document, hops: nat, g: Graph, seen: multiset<string>, name: string)
    requires WellFormed(g) && name in g && seen <= Room(g) && MessageExample(g, seen, name).Some?
    ensures (forall i | 0 <= i < |OneofConstraints(g[name])| ::
               Accepts(doc, hops, OneofConstraints(g[name])[i], MessageExample(g, seen, name).value))
            <==> ShowsOneofs(g, seen, name)
  {
    MessageExampleExact(g, seen, name);
    OneofConstraintsMeaning(doc, hops, g[name], MessageExample(g, seen, name).value);
    ExampleRespectsOneofs(g, seen, name);
  }

  lemma {:induction false} KindConformsIffSound(g: Graph, strict: bool, seen: multiset<string>, k: Kind)
    requires WellFormed(g) && EnumsDistinct(g) && KindDistinct(k) && seen <= Room(g)
    ensures forall v | v in KindExamples(g, seen, k) :: KindConforms(g, strict, k, v) <==> KindSound(g, seen, k)
    decreases Room(g) - seen, 1
  {
    KindPlausible(g, seen, k);
    match k
    case KEnum(values) =>
      if values != [] {
        EnumExampleConforms(g, strict, values);
      }
    case KMessage(name) =>
      if IsHolder(g, k) && MessageExample(g, seen, name).Some? {
        ConformsIffSound(g, strict, seen, name);
      }
    case _ =>
  }

  lemma {:induction false} FieldConformsIffSound(g: Graph, strict: bool, seen: multiset<string>, f: Field)
    requires WellFormed(g) && EnumsDistinct(g) && KindDistinct(ValueKind(f)) && seen <= Room(g) && FieldExample(g, seen, f).Some?
    ensures FieldConforms(g, strict, f, FieldExample(g, seen, f).value) <==> KindSound(g, seen, ValueKind(f))
    decreases Room(g) - seen, 2
  {
    KindConformsIffSound(g, strict, seen, ValueKind(f));
    FieldPlausible(g, seen, f);
    var values := KindExamples(g, seen, ValueKind(f));
    assert values[0] in values;
    if f.shape.MapOf? {
      KeyIsFine(f.shape.entry[0]);
      var v := FieldExample(g, seen, f).value;
      assert MapKeyExample(f.shape.entry[0]) in v.fields;
    } else if f.shape.Repeated? {
      assert FieldExample(g, seen, f).value.items[0] == values[0];
    }
  }

  /** An example is a message, in either reading of null, exactly when it is sound. */
  lemma {:induction false} ConformsIffSound(g: Graph, strict: bool, seen: multiset<string>, name: string)
    requires WellFormed(g) && EnumsDistinct(g) && name in g && seen <= Room(g) && MessageExample(g, seen, name).Some?
    ensures MessageConforms(g, strict, name, MessageExample(g, seen, name).value) <==> MessageSound(g, seen, name)
    decreases Room(g) - seen, 0
  {
    MessageExampleExact(g, seen, name);
    FrameFits(g, seen, name);
    ExampleSetsRequired(g, seen, name);
    ExampleRespectsOneofs(g, seen, name);
    var fields, inner, v := g[name].fields, seen + multiset{name}, MessageExample(g, seen, name).value;
    forall j | 0 <= j < |fields|
      ensures ShownExample(g, seen, name, j) <==> fields[j].jsonName in v.fields
      ensures ShownExample(g, seen, name, j) ==>
                (FieldConforms(g, strict, fields[j], v.fields[fields[j].jsonName]) <==> KindSound(g, inner, ValueKind(fields[j])))
    {
      ExampleSets(g, seen, name, j);
      assert fields[j] in fields;
      if ShownExample(g, seen, name, j) {
        FieldConformsIffSound(g, strict, inner, fields[j]);
      }
    }
    AllFieldsConform(g, strict, name, v);
  }

  lemma AllFieldsConform(g: Graph, strict: bool, name: string, v: Json)
    requires name in g && v.JObject?
    ensures (forall f | f in g[name].fields && f.jsonName in v.fields :: FieldConforms(g, strict, f, v.fields[f.jsonName])) <==>
            (forall j | 0 <= j < |g[name].fields| && g[name].fields[j].jsonName in v.fields ::
               FieldConforms(g, strict, g[name].fields[j], v.fields[g[name].fields[j].jsonName]))
  {
  }
}

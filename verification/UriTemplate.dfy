/** ExtractURIParams: reading parameters back out of a URI, against template expansion. */
module UriTemplate {
  import opened Wrappers
  import opened Digits

  // Templates: literal parts around `{name}` placeholders.

  datatype Template = Template(parts: seq<string>, names: seq<string>)

  predicate IsNameStart(c: char) {
    'a' <= c <= 'z' || 'A' <= c <= 'Z' || c == '_'
  }

  predicate IsNameChar(c: char) {
    IsNameStart(c) || IsDigit(c)
  }

  function NameLength(s: string): (n: nat)
    ensures n <= |s| && (forall i | 0 <= i < n :: IsNameChar(s[i])) && (n < |s| ==> !IsNameChar(s[n]))
  {
    if s == "" || !IsNameChar(s[0]) then 0 else 1 + NameLength(s[1..])
  }

  predicate IsName(s: string) {
    s != "" && IsNameStart(s[0]) && forall i | 0 <= i < |s| :: IsNameChar(s[i])
  }

  /** The length of the placeholder at the start of `s`, or 0 if there is none. */
  function PlaceholderLength(s: string): (n: nat)
    ensures n <= |s|
    ensures n > 0 ==> n > 2 && s[0] == '{' && s[n - 1] == '}' && IsName(s[1..n - 1])
  {
    if |s| < 3 || s[0] != '{' || !IsNameStart(s[1]) then 0
    else
      var n := NameLength(s[1..]);
      if n + 1 < |s| && s[n + 1] == '}' then n + 2 else 0
  }

  /** FindAllStringSubmatch and Split with the placeholder expression, leftmost first. */
  function Scan(s: string): (t: Template)
    ensures |t.parts| == |t.names| + 1
    decreases |s|
  {
    if s == "" then Template([""], [])
    else
      var n := PlaceholderLength(s);
      if n > 0 then
        var t := Scan(s[n..]);
        Template([""] + t.parts, [s[1..n - 1]] + t.names)
      else
        var t := Scan(s[1..]);
        Template([[s[0]] + t.parts[0]] + t.parts[1..], t.names)
  }

  /** A template with its placeholders filled in. */
  function Expand<T>(parts: seq<seq<T>>, values: seq<seq<T>>): seq<T>
    requires |parts| == |values| + 1
    decreases |values|
  {
    if |values| == 0 then parts[0] else parts[0] + values[0] + Expand(parts[1..], values[1..])
  }

  function Braced(names: seq<string>): (b: seq<string>)
    ensures |b| == |names|
    ensures forall i | 0 <= i < |b| :: b[i] == "{" + names[i] + "}"
  {
    seq(|names|, i requires 0 <= i < |names| => "{" + names[i] + "}")
  }

  lemma ExpandFirst<T>(parts: seq<seq<T>>, values: seq<seq<T>>, prefix: seq<T>)
    requires |parts| == |values| + 1
    ensures Expand([prefix + parts[0]] + parts[1..], values) == prefix + Expand(parts, values)
  {
    if |values| > 0 {
      assert ([prefix + parts[0]] + parts[1..])[1..] == parts[1..];
    }
  }

  lemma BracedFirst(name: string, names: seq<string>)
    ensures Braced([name] + names) == ["{" + name + "}"] + Braced(names)
  {
  }

  lemma PlaceholderText(s: string)
    requires PlaceholderLength(s) > 0
    ensures "{" + s[1..PlaceholderLength(s) - 1] + "}" == s[..PlaceholderLength(s)]
  {
  }

  lemma ExpandAfterNothing<T>(parts: seq<seq<T>>, value: seq<T>, values: seq<seq<T>>)
    requires |parts| == |values| + 1
    ensures Expand([[]] + parts, [value] + values) == value + Expand(parts, values)
  {
    var ps, vs := [[]] + parts, [value] + values;
    assert ps[1..] == parts && vs[1..] == values;
    assert ps[0] + vs[0] == value;
    assert Expand(ps, vs) == (ps[0] + vs[0]) + Expand(ps[1..], vs[1..]);
  }

  lemma TakeDrop<T>(s: seq<T>, n: nat)
    requires n <= |s|
    ensures s[..n] + s[n..] == s
  {
  }

  /** Scanning loses nothing: filling each placeholder with itself gives the template back. */
  lemma {:induction false} ScanRenders(s: string)
    ensures Expand(Scan(s).parts, Braced(Scan(s).names)) == s
    ensures forall name | name in Scan(s).names :: IsName(name)
    decreases |s|
  {
    if s != "" {
      var n := PlaceholderLength(s);
      if n > 0 {
        ScanRenders(s[n..]);
        var t := Scan(s[n..]);
        BracedFirst(s[1..n - 1], t.names);
        ExpandAfterNothing(t.parts, "{" + s[1..n - 1] + "}", Braced(t.names));
        PlaceholderText(s);
        TakeDrop(s, n);
      } else {
        ScanRenders(s[1..]);
        var t := Scan(s[1..]);
        ExpandFirst(t.parts, Braced(t.names), [s[0]]);
        TakeDrop(s, 1);
      }
    }
  }

  // The regular expression: quoted literals and `([^/]+)` groups, anchored at both ends.

  datatype Node = Literal(text: string) | Group

  function SegmentLength(s: string): (n: nat)
    ensures n <= |s| && '/' !in s[..n] && (n < |s| ==> s[n] == '/')
  {
    if s == "" || s[0] == '/' then 0
    else
      var n := 1 + SegmentLength(s[1..]);
      assert s[..n] == [s[0]] + s[1..][..n - 1];
      n
  }

  /** Leftmost-first matching of a whole string: a group tries its longest piece first. */
  function Match(pattern: seq<Node>, s: string): Option<seq<string>>
    decreases |pattern|, |s| + 1
  {
    if pattern == [] then (if s == "" then Some([]) else None)
    else
      match pattern[0]
      case Literal(text) => if text <= s then Match(pattern[1..], s[|text|..]) else None
      case Group => MatchGroup(pattern[1..], s, SegmentLength(s))
  }

  function MatchGroup(rest: seq<Node>, s: string, n: nat): Option<seq<string>>
    requires n <= |s|
    decreases |rest| + 1, n
  {
    if n == 0 then None
    else
      match Match(rest, s[n..])
      case Some(groups) => Some([s[..n]] + groups)
      case None => MatchGroup(rest, s, n - 1)
  }

  function Pattern(parts: seq<string>): seq<Node>
    requires parts != []
  {
    if |parts| == 1 then [Literal(parts[0])] else [Literal(parts[0]), Group] + Pattern(parts[1..])
  }

  /** What a group can capture. */
  predicate IsValue(v: string) {
    v != "" && '/' !in v
  }

  predicate AreValues(values: seq<string>) {
    forall i | 0 <= i < |values| :: IsValue(values[i])
  }

  predicate IsExpansion(parts: seq<string>, values: seq<string>, uri: string) {
    |parts| == |values| + 1 && AreValues(values) && Expand(parts, values) == uri
  }

  function MatchParts(parts: seq<string>, s: string): Option<seq<string>>
    requires parts != []
  {
    Match(Pattern(parts), s)
  }

  /** One literal, then the first group of the rest: the matcher in terms of template parts. */
  lemma MatchUnfolds(parts: seq<string>, s: string)
    requires parts != []
    ensures !(parts[0] <= s) ==> MatchParts(parts, s) == None
    ensures parts[0] <= s && |parts| == 1 ==> MatchParts(parts, s) == if s == parts[0] then Some([]) else None
    ensures parts[0] <= s && |parts| > 1 ==>
              MatchParts(parts, s) == MatchGroup(Pattern(parts[1..]), s[|parts[0]|..], SegmentLength(s[|parts[0]|..]))
  {
    var pattern := Pattern(parts);
    if parts[0] <= s {
      if |parts| == 1 {
        assert Match(pattern[1..], s[|parts[0]|..]) == if s[|parts[0]|..] == "" then Some([]) else None;
      } else {
        var rest := s[|parts[0]|..];
        var after := pattern[1..];
        assert after[0] == Group && after[1..] == Pattern(parts[1..]);
        assert Match(after, rest) == MatchGroup(after[1..], rest, SegmentLength(rest));
      }
    }
  }

  lemma {:induction false} MatchSound(parts: seq<string>, s: string)
    requires parts != []
    ensures MatchParts(parts, s).Some? ==> IsExpansion(parts, MatchParts(parts, s).value, s)
    decreases |parts|, 0
  {
    MatchUnfolds(parts, s);
    if parts[0] <= s && |parts| > 1 {
      var rest := s[|parts[0]|..];
      GroupSound(parts[1..], rest, SegmentLength(rest));
      if MatchParts(parts, s).Some? {
        var values := MatchParts(parts, s).value;
        TakeDrop(s, |parts[0]|);
        ExpandRest(parts, values);
      }
    }
  }

  lemma {:induction false} GroupSound(parts: seq<string>, s: string, n: nat)
    requires parts != [] && n <= SegmentLength(s)
    ensures var result := MatchGroup(Pattern(parts), s, n);
            result.Some? ==>
              && result.value != [] && IsValue(result.value[0]) && |result.value[0]| <= n
              && IsExpansion(parts, result.value[1..], s[|result.value[0]|..])
              && s == result.value[0] + s[|result.value[0]|..]
    decreases |parts|, n + 1
  {
    if n > 0 {
      MatchSound(parts, s[n..]);
      var inner := MatchParts(parts, s[n..]);
      if inner.Some? {
        assert ([s[..n]] + inner.value)[1..] == inner.value;
        assert s[..n] == s[..SegmentLength(s)][..n];
      } else {
        GroupSound(parts, s, n - 1);
      }
    }
  }

  // Completeness and the choice that greediness makes.

  /**
   The capture that a greedy matcher prefers: where two lists of captures part, the
   first of them has the longer capture.
   */
  ghost predicate Prefers(values: seq<string>, others: seq<string>) {
    values == others ||
    exists i | 0 <= i < |values| && i < |others| :: values[..i] == others[..i] && |values[i]| > |others[i]|
  }

  lemma {:induction false} SegmentSkips(v: string, t: string)
    requires '/' !in v
    ensures SegmentLength(v + t) == |v| + SegmentLength(t)
  {
    if v == "" {
      assert v + t == t;
    } else {
      assert (v + t)[1..] == v[1..] + t;
      SegmentSkips(v[1..], t);
    }
  }

  lemma SegmentHoldsValue(v: string, rest: string)
    requires IsValue(v)
    ensures |v| <= SegmentLength(v + rest)
  {
    SegmentSkips(v, rest);
  }

  lemma PrefersLater(first: string, values: seq<string>, others: seq<string>)
    requires Prefers(values, others)
    ensures Prefers([first] + values, [first] + others)
  {
    if values != others {
      var i :| 0 <= i < |values| && i < |others| && values[..i] == others[..i] && |values[i]| > |others[i]|;
      var a, b := [first] + values, [first] + others;
      assert a[..i + 1] == [first] + values[..i] && b[..i + 1] == [first] + others[..i];
      assert a[i + 1] == values[i] && b[i + 1] == others[i];
    }
  }

  lemma ExpandRest<T>(parts: seq<seq<T>>, values: seq<seq<T>>)
    requires |parts| == |values| + 1 && |values| > 0
    ensures Expand(parts, values) == parts[0] + (values[0] + Expand(parts[1..], values[1..]))
  {
  }

  /** Any expansion is matched, by captures that the greedy order prefers to its own. */
  lemma {:induction false} MatchComplete(parts: seq<string>, s: string, values: seq<string>)
    requires parts != [] && IsExpansion(parts, values, s)
    ensures MatchParts(parts, s).Some? && Prefers(MatchParts(parts, s).value, values)
    decreases |parts|, 0
  {
    MatchUnfolds(parts, s);
    if values != [] {
      ExpandRest(parts, values);
      var rest := s[|parts[0]|..];
      assert rest == values[0] + Expand(parts[1..], values[1..]);
      SegmentHoldsValue(values[0], Expand(parts[1..], values[1..]));
      GroupComplete(parts[1..], rest, values, SegmentLength(rest));
    }
  }

  lemma {:induction false} GroupComplete(parts: seq<string>, s: string, values: seq<string>, n: nat)
    requires parts != [] && values != [] && |values[0]| <= n <= SegmentLength(s)
    requires IsValue(values[0]) && s == values[0] + s[|values[0]|..]
    requires IsExpansion(parts, values[1..], s[|values[0]|..])
    ensures var result := MatchGroup(Pattern(parts), s, n); result.Some? && Prefers(result.value, values)
    decreases |parts|, n + 1
  {
    var inner := MatchParts(parts, s[n..]);
    if n == |values[0]| {
      MatchComplete(parts, s[n..], values[1..]);
      PrefersLater(values[0], inner.value, values[1..]);
      assert values == [values[0]] + values[1..] && s[..n] == values[0];
    } else if inner.Some? {
      var result := [s[..n]] + inner.value;
      assert result[..0] == values[..0] && |result[0]| > |values[0]|;
    } else {
      GroupComplete(parts, s, values, n - 1);
    }
  }

  /** The matcher succeeds exactly on expansions, with the captures that come first in greedy order. */
  lemma MatchExact(parts: seq<string>, s: string)
    requires parts != []
    ensures MatchParts(parts, s).Some? <==> exists values :: IsExpansion(parts, values, s)
    ensures MatchParts(parts, s).Some? ==>
              && IsExpansion(parts, MatchParts(parts, s).value, s)
              && forall values | IsExpansion(parts, values, s) :: Prefers(MatchParts(parts, s).value, values)
  {
    MatchSound(parts, s);
    forall values | IsExpansion(parts, values, s)
      ensures MatchParts(parts, s).Some? && Prefers(MatchParts(parts, s).value, values)
    {
      MatchComplete(parts, s, values);
    }
  }

  // When the values can be told apart.

  /** Every literal between two placeholders contains a slash. */
  predicate Separated(parts: seq<string>) {
    forall i | 0 < i < |parts| - 1 :: '/' in parts[i]
  }

  lemma {:induction false} SegmentStops(literal: string, tail: string)
    requires '/' in literal
    ensures SegmentLength(literal + tail) == SegmentLength(literal)
  {
    if literal[0] != '/' {
      assert (literal + tail)[1..] == literal[1..] + tail;
      SegmentStops(literal[1..], tail);
    }
  }

  /** How much of the text after the first literal the first value takes. */
  function FirstLength(parts: seq<string>, text: string): int
    requires |parts| > 1
  {
    if |parts| == 2 then |text| - |parts[1]| else SegmentLength(text) - SegmentLength(parts[1])
  }

  lemma FirstLengthExact(parts: seq<string>, values: seq<string>)
    requires |parts| == |values| + 1 && values != [] && AreValues(values) && Separated(parts)
    ensures FirstLength(parts, values[0] + Expand(parts[1..], values[1..])) == |values[0]|
  {
    var rest := Expand(parts[1..], values[1..]);
    if |values| > 1 {
      ExpandRest(parts[1..], values[1..]);
      var tail := values[1..][0] + Expand(parts[1..][1..], values[1..][1..]);
      assert rest == parts[1] + tail;
      assert IsValue(values[0]) && '/' in parts[1];
      SegmentSkips(values[0], rest);
      SegmentStops(parts[1], tail);
    }
  }

  lemma SameCut<T>(a: seq<T>, b: seq<T>, c: seq<T>, d: seq<T>)
    requires a + b == c + d && |a| == |c|
    ensures a == c && b == d
  {
    assert a == (a + b)[..|a|] && b == (a + b)[|a|..];
    assert c == (c + d)[..|c|] && d == (c + d)[|c|..];
  }

  lemma SameList<T>(a: seq<T>, b: seq<T>)
    requires |a| > 0 && |b| > 0 && a[0] == b[0] && a[1..] == b[1..]
    ensures a == b
  {
    assert a == [a[0]] + a[1..] && b == [b[0]] + b[1..];
  }

  lemma {:induction false} ExpansionUnique(parts: seq<string>, values: seq<string>, others: seq<string>, s: string)
    requires Separated(parts) && IsExpansion(parts, values, s) && IsExpansion(parts, others, s)
    ensures values == others
    decreases |parts|
  {
    if values != [] {
      ExpandRest(parts, values);
      ExpandRest(parts, others);
      var text := s[|parts[0]|..];
      var a, b := Expand(parts[1..], values[1..]), Expand(parts[1..], others[1..]);
      assert text == values[0] + a && text == others[0] + b;
      FirstLengthExact(parts, values);
      FirstLengthExact(parts, others);
      SameCut(values[0], a, others[0], b);
      ExpansionUnique(parts[1..], values[1..], others[1..], a);
      SameList(values, others);
    }
  }

  /** Extracting from an expansion of a separated template returns exactly the values used. */
  lemma ExtractionInverts(parts: seq<string>, values: seq<string>)
    requires |parts| == |values| + 1 && AreValues(values) && Separated(parts)
    ensures MatchParts(parts, Expand(parts, values)) == Some(values)
  {
    var uri := Expand(parts, values);
    MatchComplete(parts, uri, values);
    MatchSound(parts, uri);
    ExpansionUnique(parts, MatchParts(parts, uri).value, values, uri);
  }

  // The function itself.

  /** What the result map holds: the last value under each name. */
  function Zip<K, V>(names: seq<K>, values: seq<V>): map<K, V>
    requires |names| == |values|
  {
    if names == [] then map[]
    else Zip(names[..|names| - 1], values[..|values| - 1])[names[|names| - 1] := values[|values| - 1]]
  }

  function Extract(uri: string, template: string): Option<map<string, string>> {
    var t := Scan(template);
    match MatchParts(t.parts, uri)
    case None => None
    case Some(groups) =>
      MatchSound(t.parts, uri);
      Some(Zip(t.names, groups))
  }

  /** Groups never capture nothing, so the check for an empty value after the match never fires. */
  method BuildPattern(parts: seq<string>, paramNames: seq<string>) returns (pattern: seq<Node>)
    requires |parts| == |paramNames| + 1
    ensures pattern == Pattern(parts)
  {
    pattern := [];
    for i := 0 to |parts|
      invariant i < |parts| ==> pattern + Pattern(parts[i..]) == Pattern(parts)
      invariant i == |parts| ==> pattern == Pattern(parts)
    {
      assert parts[i..][1..] == parts[i + 1..];
      pattern := pattern + [Literal(parts[i])];
      if i < |paramNames| {
        pattern := pattern + [Group];
      }
    }
  }

  method ExtractURIParams(uri: string, template: string) returns (result: Option<map<string, string>>)
    ensures result == Extract(uri, template)
  {
    var t := Scan(template);
    var paramNames: seq<string> := [];
    for i := 0 to |t.names|
      invariant paramNames == t.names[..i]
    {
      paramNames := paramNames + [t.names[i]];
    }
    var pattern := BuildPattern(t.parts, paramNames);
    assert paramNames == t.names;
    var groups := Match(pattern, uri);
    MatchSound(t.parts, uri);
    if groups.None? {
      return None;
    }
    var params := NameGroups(paramNames, groups.value);
    return Some(params);
  }

  method NameGroups<K(==), V>(names: seq<K>, values: seq<V>) returns (params: map<K, V>)
    requires |names| == |values|
    ensures params == Zip(names, values)
  {
    params := map[];
    for i := 0 to |names|
      invariant params == Zip(names[..i], values[..i])
    {
      assert names[..i + 1][..i] == names[..i] && values[..i + 1][..i] == values[..i];
      params := params[names[i] := values[i]];
    }
    assert names[..|names|] == names && values[..|names|] == values;
  }

  /** Expanding a template with named values. */
  function Lookup<K, V>(names: seq<K>, params: map<K, V>): (values: seq<V>)
    requires forall name | name in names :: name in params
    ensures |values| == |names|
    ensures forall i | 0 <= i < |values| :: values[i] == params[names[i]]
  {
    seq(|names|, i requires 0 <= i < |names| => params[names[i]])
  }

  lemma {:induction false} ZipKeys<K, V>(names: seq<K>, values: seq<V>)
    requires |names| == |values|
    ensures forall name :: name in Zip(names, values) <==> name in names
  {
    if names != [] {
      ZipKeys(names[..|names| - 1], values[..|values| - 1]);
      assert names == names[..|names| - 1] + [names[|names| - 1]];
    }
  }

  /** Values agree wherever a name is repeated; trivially so when the names are distinct. */
  predicate Agree<K(==), V(==)>(names: seq<K>, values: seq<V>)
    requires |names| == |values|
  {
    forall i, j | 0 <= i < j < |names| && names[i] == names[j] :: values[i] == values[j]
  }

  /** The map stands for the captures exactly when repeated names captured the same. */
  predicate StandsFor<K(==), V(==)>(m: map<K, V>, names: seq<K>, values: seq<V>)
    requires |names| == |values|
  {
    forall i | 0 <= i < |names| :: names[i] in m && m[names[i]] == values[i]
  }

  lemma {:induction false} AgreeingStand<K, V>(names: seq<K>, values: seq<V>)
    requires |names| == |values| && Agree(names, values)
    ensures StandsFor(Zip(names, values), names, values)
  {
    if names != [] {
      var n := |names| - 1;
      AgreeingStand(names[..n], values[..n]);
      var before := Zip(names[..n], values[..n]);
      forall i | 0 <= i < n
        ensures names[i] in before && before[names[i]] == values[i]
      {
        assert names[..n][i] == names[i] && values[..n][i] == values[i];
      }
    }
  }

  lemma StandingAgree<K, V>(m: map<K, V>, names: seq<K>, values: seq<V>)
    requires |names| == |values| && StandsFor(m, names, values)
    ensures Agree(names, values)
  {
    forall i, j | 0 <= i < j < |names| && names[i] == names[j]
      ensures values[i] == values[j]
    {
      assert m[names[i]] == values[i] && m[names[j]] == values[j];
    }
  }

  lemma ZipStandsFor<K, V>(names: seq<K>, values: seq<V>)
    requires |names| == |values|
    ensures StandsFor(Zip(names, values), names, values) <==> Agree(names, values)
  {
    var m := Zip(names, values);
    if Agree(names, values) {
      AgreeingStand(names, values);
    } else if StandsFor(m, names, values) {
      StandingAgree(m, names, values);
    }
  }

  /** Extraction succeeds exactly on expansions with non-empty, slash-free values. */
  lemma ExtractSucceeds(uri: string, template: string)
    ensures Extract(uri, template).Some? <==> exists values :: IsExpansion(Scan(template).parts, values, uri)
  {
    assert Extract(uri, template).Some? <==> MatchParts(Scan(template).parts, uri).Some?;
    MatchExact(Scan(template).parts, uri);
  }

  /** The result map holds the captures themselves exactly when repeated names captured the same. */
  lemma ExtractThenLookup(uri: string, template: string)
    requires Extract(uri, template).Some?
    ensures var t, params := Scan(template), Extract(uri, template).value;
            && (forall name :: name in params <==> name in t.names)
            && var values := MatchParts(t.parts, uri).value;
               |values| == |t.names| && (Lookup(t.names, params) == values <==> Agree(t.names, values))
  {
    var t := Scan(template);
    MatchSound(t.parts, uri);
    var values := MatchParts(t.parts, uri).value;
    ZipKeys(t.names, values);
    ZipStandsFor(t.names, values);
    LookupStandsFor(Zip(t.names, values), t.names, values);
  }

  lemma LookupStandsFor<K, V>(m: map<K, V>, names: seq<K>, values: seq<V>)
    requires |names| == |values| && forall name | name in names :: name in m
    ensures Lookup(names, m) == values <==> StandsFor(m, names, values)
  {
    if Lookup(names, m) == values {
      forall i | 0 <= i < |names|
        ensures m[names[i]] == values[i]
      {
        assert Lookup(names, m)[i] == values[i];
      }
    }
  }

  /** With distinct parameter names, expanding the template with the result gives the URI back. */
  lemma ExtractThenExpand(uri: string, template: string)
    requires Extract(uri, template).Some?
    requires var names := Scan(template).names; forall i, j | 0 <= i < j < |names| :: names[i] != names[j]
    ensures var t, params := Scan(template), Extract(uri, template).value;
            && (forall name :: name in params <==> name in t.names)
            && IsExpansion(t.parts, Lookup(t.names, params), uri)
  {
    ExtractThenLookup(uri, template);
    MatchSound(Scan(template).parts, uri);
  }

  lemma LookupAreValues(t: Template, params: map<string, string>, values: seq<string>)
    requires |values| == |t.names| && AreValues(values) && params == Zip(t.names, values)
    requires forall name | name in t.names :: name in params
    ensures AreValues(Lookup(t.names, params))
  {
    ZipHolds(t.names, values);
  }

  lemma {:induction false} ZipHolds<K, V>(names: seq<K>, values: seq<V>)
    requires |names| == |values|
    ensures forall name | name in Zip(names, values) :: Zip(names, values)[name] in values
  {
    if names != [] {
      ZipHolds(names[..|names| - 1], values[..|values| - 1]);
      assert values == values[..|values| - 1] + [values[|values| - 1]];
    }
  }

  /**
   Expanding the template with the result gives the URI back when repeated names captured
   the same; with a slash between placeholders, exactly then.
   */
  lemma URIGivenBack(uri: string, template: string)
    requires Extract(uri, template).Some?
    ensures var t, params := Scan(template), Extract(uri, template).value;
            && (forall name :: name in params <==> name in t.names)
            && |MatchParts(t.parts, uri).value| == |t.names|
            && var back := Expand(t.parts, Lookup(t.names, params)) == uri;
               && (Agree(t.names, MatchParts(t.parts, uri).value) ==> back)
               && (Separated(t.parts) ==> (back <==> Agree(t.names, MatchParts(t.parts, uri).value)))
  {
    ExtractThenLookup(uri, template);
    var t, params := Scan(template), Extract(uri, template).value;
    MatchSound(t.parts, uri);
    var values, filled := MatchParts(t.parts, uri).value, Lookup(t.names, params);
    LookupAreValues(t, params, values);
    if Separated(t.parts) && Expand(t.parts, filled) == uri {
      ExpansionUnique(t.parts, values, filled, uri);
    }
  }

  lemma ScanLiteral(c: char, rest: string)
    requires c != '{'
    ensures Scan([c] + rest) == Template([[c] + Scan(rest).parts[0]] + Scan(rest).parts[1..], Scan(rest).names)
  {
    assert ([c] + rest)[1..] == rest;
  }

  lemma ScanPlaceholder(c: char, rest: string)
    requires IsNameStart(c)
    ensures Scan(['{', c, '}'] + rest) == Template([""] + Scan(rest).parts, [[c]] + Scan(rest).names)
  {
    var s := ['{', c, '}'] + rest;
    assert s[1..][0] == c && s[1..][1..][0] == '}';
    assert NameLength(s[1..]) == 1;
    assert PlaceholderLength(s) == 3 && s[3..] == rest && s[1..2] == [c];
  }

  const SLASH: string := "/"

  /** `/{c}` before `rest`. */
  function Segment(c: char, rest: string): string {
    ['/'] + (['{', c, '}'] + rest)
  }

  lemma ScanSegment(c: char, rest: string)
    requires IsNameStart(c)
    ensures Scan(Segment(c, rest)) == Template([SLASH] + Scan(rest).parts, [[c]] + Scan(rest).names)
  {
    var inner := ['{', c, '}'] + rest;
    ScanPlaceholder(c, rest);
    ScanLiteral('/', inner);
    assert Scan(inner).parts[0] == "" && Scan(inner).parts[1..] == Scan(rest).parts;
    assert ['/'] + "" == SLASH;
  }

  /** The template `/{c}/{c}`. */
  function Twice(c: char): string {
    Segment(c, Segment(c, ""))
  }

  function TwiceScanned(c: char): Template {
    Template([SLASH, SLASH, ""], [[c], [c]])
  }

  lemma TwiceIsScanned(c: char)
    requires IsNameStart(c)
    ensures Scan(Twice(c)) == TwiceScanned(c)
  {
    ScanSegment(c, Segment(c, ""));
    ScanSegment(c, "");
    assert Scan("") == Template([""], []);
  }

  lemma ExpandTwo(a: string, b: string)
    ensures Expand([SLASH, SLASH, ""], [a, b]) == SLASH + a + (SLASH + b)
  {
    var parts, values := [SLASH, SLASH, ""], [a, b];
    assert parts[1..] == [SLASH, ""] && values[1..] == [b];
    assert parts[1..][1..] == [""] && values[1..][1..] == [];
    assert Expand([""], []) == "";
    assert Expand([SLASH, ""], [b]) == SLASH + b;
  }

  lemma SameTail(front: string, a: string, b: string, tail: string)
    requires front + a + tail == front + b + tail
    ensures a == b
  {
    assert |front + a + tail| == |front + b + tail|;
    assert a == (front + a + tail)[|front|..|front| + |a|] && b == (front + b + tail)[|front|..|front| + |b|];
  }

  /** A repeated name keeps its last value only, so the URI does not come back when the values differ. */
  lemma RepeatedNameLosesURI(c: char, a: string, b: string)
    requires IsNameStart(c) && IsValue(a) && IsValue(b) && a != b
    ensures Scan(Twice(c)) == TwiceScanned(c)
    ensures var uri := SLASH + a + (SLASH + b);
            Extract(uri, Twice(c)) == Some(map[[c] := b]) && Expand(TwiceScanned(c).parts, [b, b]) != uri
  {
    TwiceIsScanned(c);
    ExpandTwo(a, b);
    ExpandTwo(b, b);
    TwoValues(c, a, b);
    if Expand(TwiceScanned(c).parts, [b, b]) == SLASH + a + (SLASH + b) {
      SameTail(SLASH, a, b, SLASH + b);
    }
  }

  lemma TwoValues(c: char, a: string, b: string)
    requires IsValue(a) && IsValue(b)
    ensures MatchParts([SLASH, SLASH, ""], Expand([SLASH, SLASH, ""], [a, b])) == Some([a, b])
    ensures Zip([[c], [c]], [a, b]) == map[[c] := b]
  {
    ExtractionInverts([SLASH, SLASH, ""], [a, b]);
    ZipTwice([c], a, b);
  }

  lemma ZipTwice<K, V>(k: K, a: V, b: V)
    ensures Zip([k, k], [a, b]) == map[k := b]
  {
    assert [k, k][..1] == [k] && [a, b][..1] == [a];
    assert [k][..0] == [] && [a][..0] == [];
    assert Zip([k], [a]) == map[k := a];
  }

  /** With distinct names and a slash between placeholders, the parameters that made a URI come back. */
  lemma ExpandThenExtract(template: string, values: seq<string>)
    requires |values| == |Scan(template).names| && AreValues(values) && Separated(Scan(template).parts)
    ensures Extract(Expand(Scan(template).parts, values), template) == Some(Zip(Scan(template).names, values))
  {
    ExtractionInverts(Scan(template).parts, values);
  }
}

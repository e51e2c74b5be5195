/**
 What the scan of a template takes for placeholders: a letter or underscore, then letters,
 digits and underscores, between braces, wherever they stand, and nothing else.
 */
module UriPlaceholders {
  import opened Wrappers
  import opened Digits
  import opened UriTemplate

  /** `[a-zA-Z_][a-zA-Z0-9_]*`, character by character. */
  predicate Legal(name: string) {
    name != "" && forall i | 0 <= i < |name| ::
      'a' <= name[i] <= 'z' || 'A' <= name[i] <= 'Z' || name[i] == '_' || (i > 0 && '0' <= name[i] <= '9')
  }

  lemma LegalIsName(name: string)
    ensures IsName(name) <==> Legal(name)
  {
  }

  lemma NameStopsAt(name: string, rest: string)
    requires IsName(name)
    ensures NameLength(name + "}" + rest) == |name|
  {
    var s := name + "}" + rest;
    assert forall i | 0 <= i < |name| :: s[i] == name[i];
    assert s[|name|] == '}';
  }

  lemma PlaceholderAt(name: string, rest: string)
    requires IsName(name)
    ensures var s := "{" + name + "}" + rest;
            PlaceholderLength(s) == |name| + 2 && s[1..|name| + 1] == name && s[|name| + 2..] == rest
  {
    var s := "{" + name + "}" + rest;
    assert s[1..] == name + "}" + rest;
    NameStopsAt(name, rest);
    assert s[1] == name[0] && s[|name| + 1] == '}';
  }

  lemma ScanAtPlaceholder(s: string, n: nat)
    requires s != "" && n == PlaceholderLength(s) && n > 0
    ensures Scan(s) == Template([""] + Scan(s[n..]).parts, [s[1..n - 1]] + Scan(s[n..]).names)
  {
  }

  /** Every legal name between braces, of any length, is found, and the scan goes on behind it. */
  lemma ScanFindsName(name: string, rest: string)
    requires Legal(name)
    ensures Scan("{" + name + "}" + rest) == Template([""] + Scan(rest).parts, [name] + Scan(rest).names)
  {
    LegalIsName(name);
    PlaceholderAt(name, rest);
    ScanAtPlaceholder("{" + name + "}" + rest, |name| + 2);
  }

  lemma {:induction false} FirstPartIsPrefix(s: string)
    ensures Scan(s).parts[0] <= s
    decreases |s|
  {
    if s != "" && PlaceholderLength(s) == 0 {
      FirstPartIsPrefix(s[1..]);
    }
  }

  lemma BracedNameIsPlaceholder(s: string, j: nat)
    requires 1 < j < |s| && s[0] == '{' && s[j] == '}' && IsName(s[1..j])
    ensures PlaceholderLength(s) > 0
  {
    PlaceholderAt(s[1..j], s[j + 1..]);
    assert s == "{" + s[1..j] + "}" + s[j + 1..];
  }

  lemma SliceShift(c: char, p: string, i: nat, j: nat)
    requires 0 < i <= j <= |p| + 1
    ensures ([c] + p)[i..j] == p[i - 1..j - 1]
  {
  }

  predicate Bare(p: string, i: nat, j: nat)
    requires i + 1 < j < |p|
  {
    p[i] == '{' && p[j] == '}' && IsName(p[i + 1..j])
  }

  lemma BareInFirst(s: string, p: string, j: nat)
    requires 1 < j < |p| && p <= s && Bare(p, 0, j)
    ensures PlaceholderLength(s) > 0
  {
    assert s[1..j] == p[1..j];
    BracedNameIsPlaceholder(s, j);
  }

  lemma BareLater(c: char, p: string, i: nat, j: nat)
    requires 0 < i && i + 1 < j < |p| + 1 && Bare([c] + p, i, j)
    ensures Bare(p, i - 1, j - 1)
  {
    SliceShift(c, p, i + 1, j);
  }

  lemma PartsAtLiteral(s: string, p: string)
    requires s != "" && PlaceholderLength(s) == 0 && p in Scan(s).parts
    ensures p in Scan(s[1..]).parts || p == [s[0]] + Scan(s[1..]).parts[0]
  {
  }

  lemma PartsAtPlaceholder(s: string, n: nat, p: string)
    requires s != "" && n == PlaceholderLength(s) && n > 0 && p in Scan(s).parts && p != ""
    ensures p in Scan(s[n..]).parts
  {
    ScanAtPlaceholder(s, n);
  }

  /** The part that begins where the text does has no such name either, if its later parts have none. */
  lemma FirstPartBare(s: string, p: string, i: nat, j: nat)
    requires s != "" && PlaceholderLength(s) == 0 && p == [s[0]] + Scan(s[1..]).parts[0] && i + 1 < j < |p| && Bare(p, i, j)
    ensures i > 0 && Bare(Scan(s[1..]).parts[0], i - 1, j - 1)
  {
    if i == 0 {
      FirstPartIsPrefix(s);
      BareInFirst(s, p, j);
    } else {
      BareLater(s[0], Scan(s[1..]).parts[0], i, j);
    }
  }

  lemma {:induction false} NoNameInPart(s: string, p: string, i: nat, j: nat)
    requires p in Scan(s).parts && i + 1 < j < |p|
    ensures !Bare(p, i, j)
    decreases |s|
  {
    if s != "" && PlaceholderLength(s) > 0 {
      PartsAtPlaceholder(s, PlaceholderLength(s), p);
      NoNameInPart(s[PlaceholderLength(s)..], p, i, j);
    } else if s != "" {
      PartsAtLiteral(s, p);
      if p in Scan(s[1..]).parts {
        NoNameInPart(s[1..], p, i, j);
      } else if Bare(p, i, j) {
        FirstPartBare(s, p, i, j);
        NoNameInPart(s[1..], Scan(s[1..]).parts[0], i - 1, j - 1);
      }
    }
  }

  /** No literal part of a scanned template has a legal name between braces in it: no placeholder is missed. */
  lemma NothingMissed(s: string, p: string, i: nat, j: nat)
    requires p in Scan(s).parts && i + 1 < j < |p|
    ensures !(p[i] == '{' && p[j] == '}' && Legal(p[i + 1..j]))
  {
    if p[i] == '{' && p[j] == '}' {
      NoNameInPart(s, p, i, j);
      LegalIsName(p[i + 1..j]);
    }
  }

  function Prefixed(literal: string, t: Template): Template
    requires t.parts != []
  {
    Template([literal + t.parts[0]] + t.parts[1..], t.names)
  }

  lemma PrefixedOnce(c: char, literal: string, t: Template)
    requires t.parts != []
    ensures Prefixed([c], Prefixed(literal, t)) == Prefixed([c] + literal, t)
  {
    assert [c] + (literal + t.parts[0]) == [c] + literal + t.parts[0];
  }

  lemma PrefixedByNothing(t: Template)
    requires t.parts != []
    ensures Prefixed([], t) == t
  {
    assert [] + t.parts[0] == t.parts[0];
  }

  lemma Unroll<T>(a: seq<T>, b: seq<T>)
    requires a != []
    ensures a + b == [a[0]] + (a[1..] + b) && a == [a[0]] + a[1..]
  {
  }

  lemma {:induction false} ScanPrefix(literal: string, rest: string)
    requires '{' !in literal
    ensures Scan(literal + rest) == Prefixed(literal, Scan(rest))
    decreases |literal|
  {
    if literal == [] {
      assert literal + rest == rest;
      PrefixedByNothing(Scan(rest));
    } else {
      ScanPrefix(literal[1..], rest);
      Unroll(literal, rest);
      ScanLiteral(literal[0], literal[1..] + rest);
      PrefixedOnce(literal[0], literal[1..], Scan(rest));
    }
  }

  predicate AllLegal(names: seq<string>) {
    forall name | name in names :: Legal(name)
  }

  predicate NoneOpens(parts: seq<string>) {
    forall p | p in parts :: '{' !in p
  }

  lemma PrefixedPlaceholder(part: string, name: string, parts: seq<string>, names: seq<string>)
    ensures Prefixed(part, Template([""] + parts, [name] + names)) == Template([part] + parts, [name] + names)
  {
    assert part + "" == part;
    assert ([""] + parts)[1..] == parts;
  }

  lemma WrittenStep(parts: seq<string>, names: seq<string>)
    requires |parts| == |names| + 1 && names != []
    ensures Expand(parts, Braced(names)) == parts[0] + (("{" + names[0] + "}") + Expand(parts[1..], Braced(names[1..])))
  {
    ExpandRest(parts, Braced(names));
    assert Braced(names)[1..] == Braced(names[1..]);
  }

  /** Writing a template out and scanning it gives its parts and names back, when the literal parts hold no brace that opens. */
  lemma {:induction false} ScanInverts(parts: seq<string>, names: seq<string>)
    requires |parts| == |names| + 1 && NoneOpens(parts) && AllLegal(names)
    ensures Scan(Expand(parts, Braced(names))) == Template(parts, names)
    decreases |names|
  {
    if names == [] {
      OnePart(parts);
    } else {
      var rest := Expand(parts[1..], Braced(names[1..]));
      ScanInverts(parts[1..], names[1..]);
      WrittenStep(parts, names);
      ScanFindsName(names[0], rest);
      ScanPrefix(parts[0], ("{" + names[0] + "}") + rest);
      PrefixedPlaceholder(parts[0], names[0], parts[1..], names[1..]);
      Unroll(parts, []);
      Unroll(names, []);
    }
  }

  lemma OnePart(parts: seq<string>)
    requires |parts| == 1 && '{' !in parts[0]
    ensures Scan(Expand(parts, Braced([]))) == Template(parts, [])
  {
    ScanPrefix(parts[0], "");
    assert parts[0] + "" == parts[0];
    assert Scan("") == Template([""], []);
    assert Expand(parts, Braced([])) == parts[0];
  }

  /**
   A URI that was made from such a template gives the values back by name, when names differ and
   a slash is between them.
   */
  lemma WrittenTemplateExtracts(parts: seq<string>, names: seq<string>, values: seq<string>)
    requires |parts| == |names| + 1 == |values| + 1 && NoneOpens(parts) && AllLegal(names)
    requires forall i, j | 0 <= i < j < |names| :: names[i] != names[j]
    requires forall i | 0 <= i < |values| :: values[i] != "" && '/' !in values[i]
    requires forall i | 0 < i < |parts| - 1 :: '/' in parts[i]
    ensures var params := Extract(Expand(parts, values), Expand(parts, Braced(names)));
            && params.Some? && (forall name :: name in params.value <==> name in names)
            && forall i | 0 <= i < |names| :: params.value[names[i]] == values[i]
  {
    var template := Expand(parts, Braced(names));
    ScanInverts(parts, names);
    ExpandThenExtract(template, values);
    assert Extract(Expand(parts, values), template) == Some(Zip(names, values));
    ByName(names, values);
  }

  lemma ByName<K, V>(names: seq<K>, values: seq<V>)
    requires |names| == |values| && forall i, j | 0 <= i < j < |names| :: names[i] != names[j]
    ensures forall name :: name in Zip(names, values) <==> name in names
    ensures forall i | 0 <= i < |names| :: Zip(names, values)[names[i]] == values[i]
  {
    ZipKeys(names, values);
    AgreeingStand(names, values);
  }
}

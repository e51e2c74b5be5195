/** toSnakeCase read from left to right: what one more character, or an upper-case letter and a lower-case one, add to a name. */
module SnakeNames {
  import opened PythonScopes

  /** What comes before place `n` depends on what stands there only as far as it is a lower-case letter. */
  lemma {:induction false} PrefixIsLocal(s: string, t: string, n: nat)
    requires n <= |s| && n <= |t| && s[..n] == t[..n]
    requires n < |s| && IsLower(s[n]) <==> n < |t| && IsLower(t[n])
    ensures SnakePrefix(s, n) == SnakePrefix(t, n)
  {
    if n > 0 {
      var i := n - 1;
      assert s[i] == s[..n][i] == t[i];
      assert s[..i] == s[..n][..i] == t[..i];
      PrefixIsLocal(s, t, i);
      if i > 0 {
        assert s[i - 1] == s[..n][i - 1] == t[i - 1];
        assert StartsWord(s, i) <==> StartsWord(t, i);
      }
    }
  }

  predicate EndsIn(s: string, wanted: char -> bool) {
    s != "" && wanted(s[|s| - 1])
  }

  predicate IsLowerOrDigit(c: char) {
    'a' <= c <= 'z' || '0' <= c <= '9'
  }

  predicate IsCapital(c: char) {
    'A' <= c <= 'Z'
  }

  predicate IsGap(c: char) {
    c == '_' || c == '.' || c == '-' || c == ' '
  }

  function Lowered(c: char): char
    requires IsCapital(c)
  {
    'a' + (c - 'A')
  }

  lemma LastOf(s: string, c: char)
    ensures (s + [c])[..|s|] == s && (s + [c])[|s|] == c && |s + [c]| == |s| + 1
  {
  }

  /** Any other character is appended, a gap as an underscore; it matters only if it is lower-case behind a capital. */
  lemma OtherAppended(s: string, c: char)
    requires !IsCapital(c) && !(EndsIn(s, IsCapital) && 'a' <= c <= 'z')
    ensures SnakeCase(s + [c]) == SnakeCase(s) + [if IsGap(c) then '_' else c]
  {
    LastOf(s, c);
    if 'a' <= c <= 'z' {
      LowerChangesNothing(s, c);
    } else {
      PrefixIsLocal(s + [c], s, |s|);
    }
  }

  lemma OneMore(s: string, i: nat)
    requires i < |s| && !IsUpper(s[i])
    ensures SnakePrefix(s, i + 1) == SnakePrefix(s, i) + [if IsSeparator(s[i]) then '_' else s[i]]
  {
  }

  lemma LowerChangesNothing(s: string, c: char)
    requires 'a' <= c <= 'z' && !EndsIn(s, IsCapital)
    ensures SnakePrefix(s + [c], |s|) == SnakeCase(s)
  {
    LastOf(s, c);
    if s != "" {
      var i := |s| - 1;
      assert (s + [c])[i] == s[i] && (s + [c])[..i] == s[..i];
      OneMore(s, i);
      OneMore(s + [c], i);
      PrefixIsLocal(s + [c], s, i);
    }
  }

  /** A capital is appended in lower case, behind an underscore if a lower-case letter or a digit is before it. */
  lemma CapitalAppended(s: string, c: char)
    requires IsCapital(c)
    ensures SnakeCase(s + [c]) == SnakeCase(s) + (if EndsIn(s, IsLowerOrDigit) then "_" else "") + [Lowered(c)]
  {
    LastOf(s, c);
    PrefixIsLocal(s + [c], s, |s|);
    if s != "" {
      assert (s + [c])[|s| - 1] == s[|s| - 1];
    }
  }

  /** A capital with a lower-case letter behind it begins a word, whatever is before it but a gap. */
  lemma WordAppended(s: string, c: char, d: char)
    requires IsCapital(c) && 'a' <= d <= 'z'
    ensures SnakeCase(s + [c] + [d]) == SnakeCase(s) + (if s != "" && !EndsIn(s, IsGap) then "_" else "") + [Lowered(c)] + [d]
  {
    var t, n := s + [c] + [d], |s|;
    LastOf(s, c);
    LastOf(s + [c], d);
    assert t[..n] == s && t[n] == c && t[n + 1] == d;
    PrefixIsLocal(t, s, n);
    if s != "" {
      assert t[n - 1] == s[n - 1];
    }
    assert SnakePrefix(t, n + 2) == SnakePrefix(t, n + 1) + [d];
  }
}

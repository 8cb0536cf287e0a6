/**
 * String operations of the pipeline: Python's `str.strip()`, ASCII case
 * mapping, substring search, and the importer-name normalisation of
 * `normalize_importer_names` (uppercase, keep `[A-Z0-9 ]`, strip).
 */
module Text {

  /** Python's `str.isspace()`: the characters that `str.strip()` removes. */
  predicate IsWhitespace(c: char)
  {
    || c == ' '
    || '\t' <= c <= '\r'
    || '\U{1C}' <= c <= '\U{1F}'
    || c == '\U{85}' || c == '\U{A0}' || c == '\U{1680}'
    || '\U{2000}' <= c <= '\U{200A}'
    || c == '\U{2028}' || c == '\U{2029}' || c == '\U{202F}' || c == '\U{205F}' || c == '\U{3000}'
  }

  /** Neither the first nor the last character is whitespace. */
  predicate Trimmed(s: string)
  {
    s == [] || (!IsWhitespace(s[0]) && !IsWhitespace(s[|s| - 1]))
  }

  /** Removes the leading whitespace: what is left is a suffix, and only whitespace went. */
  function TrimStart(s: string): (r: string)
    ensures |r| <= |s| && r == s[|s| - |r|..]
    ensures forall k :: 0 <= k < |s| - |r| ==> IsWhitespace(s[k])
    ensures r == [] || !IsWhitespace(r[0])
  {
    if s != [] && IsWhitespace(s[0]) then
      var r := TrimStart(s[1..]);
      assert s[1..][|s| - 1 - |r|..] == s[|s| - |r|..];
      assert forall k :: 1 <= k < |s| - |r| ==> s[k] == s[1..][k - 1];
      r
    else s
  }

  /** Removes the trailing whitespace: what is left is a prefix, and only whitespace went. */
  function TrimEnd(s: string): (r: string)
    ensures |r| <= |s| && r == s[..|r|]
    ensures forall k :: |r| <= k < |s| ==> IsWhitespace(s[k])
    ensures r == [] || !IsWhitespace(r[|r| - 1])
  {
    if s != [] && IsWhitespace(s[|s| - 1]) then
      var r := TrimEnd(s[..|s| - 1]);
      assert s[..|s| - 1][..|r|] == s[..|r|];
      assert forall k :: |r| <= k < |s| - 1 ==> s[k] == s[..|s| - 1][k];
      r
    else s
  }

  /** Every character of `t` is whitespace. */
  predicate Blank(t: string)
  {
    forall k :: 0 <= k < |t| ==> IsWhitespace(t[k])
  }

  /** `r` is `s` with some whitespace taken off each end: a slice of `s` with only whitespace before and after it. */
  predicate EdgesRemoved(s: string, r: string)
  {
    exists i, j :: 0 <= i <= j <= |s| && r == s[i..j] && Blank(s[..i]) && Blank(s[j..])
  }

  /** Stripping the ends of `s` leaves a slice of `s` with only whitespace around it. */
  lemma TrimBothEdges(s: string)
    ensures EdgesRemoved(s, TrimEnd(TrimStart(s)))
  {
    var t := TrimStart(s);
    var i := |s| - |t|;
    var r := TrimEnd(t);
    var j := i + |r|;
    assert r == s[i..j] by {
      assert t == s[i..] && r == t[..|r|];
      assert s[i..][..|r|] == s[i..j];
    }
    assert Blank(s[..i]) by {
      forall k | 0 <= k < i
        ensures IsWhitespace(s[..i][k])
      {
        assert s[..i][k] == s[k];
      }
    }
    assert Blank(s[j..]) by {
      forall k | 0 <= k < |s| - j
        ensures IsWhitespace(s[j..][k])
      {
        assert s[j..][k] == t[|r| + k];
      }
    }
    EdgesRemovedAt(s, r, i, j);
  }

  /** The witnesses of `EdgesRemoved`. */
  lemma EdgesRemovedAt(s: string, r: string, i: nat, j: nat)
    requires i <= j <= |s| && r == s[i..j] && Blank(s[..i]) && Blank(s[j..])
    ensures EdgesRemoved(s, r)
  {
  }

  /**
   * Python's `str.strip()` with no argument: the result is the input with
   * whitespace removed at both ends, and it has no whitespace at either end.
   */
  function Strip(s: string): (r: string)
    ensures Trimmed(r)
    ensures EdgesRemoved(s, r)
    ensures forall c :: c in r ==> c in s
    ensures Trimmed(s) ==> r == s
  {
    var t := TrimStart(s);
    TrimBothEdges(s);
    assert forall c :: c in t ==> c in s;
    TrimEnd(t)
  }

  /** Joining two trimmed strings with one space: stripping removes the space only when the left part is empty. */
  lemma StripJoin(a: string, b: string)
    requires Trimmed(a) && Trimmed(b) && b != []
    ensures Strip(a + " " + b) == if a == [] then b else a + " " + b
  {
    var j := a + " " + b;
    if a == [] {
      assert j == " " + b;
      StripLeadingSpace(b);
    } else {
      assert j[0] == a[0];
      assert j[|j| - 1] == b[|b| - 1];
      assert Trimmed(j);
    }
  }

  /** One space before a trimmed non-empty string is all that stripping removes. */
  lemma StripLeadingSpace(b: string)
    requires Trimmed(b) && b != []
    ensures Strip(" " + b) == b
  {
    var s := " " + b;
    assert s[0] == ' ' && s[1..] == b;
    assert TrimStart(s) == TrimStart(b);
    assert TrimStart(b) == b;
    assert TrimEnd(b) == b;
  }

  // ----- case mapping (ASCII letters) ---------------------------------------

  function UpperChar(c: char): char
  {
    if 'a' <= c <= 'z' then (c as int - 32) as char else c
  }

  function LowerChar(c: char): char
  {
    if 'A' <= c <= 'Z' then (c as int + 32) as char else c
  }

  /** Python's `str.upper()` on ASCII letters. */
  function Upper(s: string): (r: string)
    ensures |r| == |s| && forall i :: 0 <= i < |s| ==> r[i] == UpperChar(s[i])
  {
    seq(|s|, i requires 0 <= i < |s| => UpperChar(s[i]))
  }

  /** Python's `str.lower()` on ASCII letters. */
  function Lower(s: string): (r: string)
    ensures |r| == |s| && forall i :: 0 <= i < |s| ==> r[i] == LowerChar(s[i])
  {
    seq(|s|, i requires 0 <= i < |s| => LowerChar(s[i]))
  }

  /** Lower-casing first does not change the upper-cased string. */
  lemma UpperOfLower(s: string)
    ensures Upper(Lower(s)) == Upper(s)
  {
  }

  /** Upper-casing leaves a string without ASCII lower-case letters unchanged. */
  lemma UpperOfNoLower(s: string)
    requires forall c :: c in s ==> !('a' <= c <= 'z')
    ensures Upper(s) == s
  {
    assert forall i :: 0 <= i < |s| ==> s[i] in s;
  }

  /** Upper-casing keeps a trimmed string trimmed: no letter is whitespace. */
  /** No lower-case ASCII letter survives `Upper`. */
  lemma UpperHasNoLower(s: string)
    ensures forall c :: c in Upper(s) ==> !('a' <= c <= 'z')
  {
    var u := Upper(s);
    forall c | c in u
      ensures !('a' <= c <= 'z')
    {
      var i :| 0 <= i < |u| && u[i] == c;
      assert c == UpperChar(s[i]);
    }
  }

  lemma UpperTrimmed(s: string)
    requires Trimmed(s)
    ensures Trimmed(Upper(s))
  {
  }

  // ----- substring search ----------------------------------------------------

  /** `sub` occurs in `s` starting at position `i`. */
  predicate OccursAt(s: string, sub: string, i: int)
  {
    0 <= i <= |s| - |sub| && s[i..i + |sub|] == sub
  }

  /** Python's `sub in s`. */
  predicate Contains(s: string, sub: string)
  {
    exists i :: 0 <= i <= |s| - |sub| && OccursAt(s, sub, i)
  }

  /** A string that lacks one of the characters of `sub` does not contain it. */
  lemma NotContainsChar(s: string, sub: string, c: char)
    requires c in sub && c !in s
    ensures !Contains(s, sub)
  {
  }

  /** `a` directly followed by `b` occurs in `s` at some position from `i` on. */
  predicate HasPairFrom(s: string, a: char, b: char, i: nat)
    decreases |s| - i
  {
    i + 1 < |s| && ((s[i] == a && s[i + 1] == b) || HasPairFrom(s, a, b, i + 1))
  }

  lemma {:induction false} HasPairFromAt(s: string, a: char, b: char, i: nat, j: nat)
    requires i <= j && j + 1 < |s| && s[j] == a && s[j + 1] == b
    ensures HasPairFrom(s, a, b, i)
    decreases j - i
  {
    if i < j {
      HasPairFromAt(s, a, b, i + 1, j);
    }
  }

  /** A string in which the characters `m` and `m + 1` of `sub` never stand side by side does not contain `sub`. */
  lemma NotContainsPair(s: string, sub: string, m: nat)
    requires m + 1 < |sub| && !HasPairFrom(s, sub[m], sub[m + 1], 0)
    ensures !Contains(s, sub)
  {
    forall i | OccursAt(s, sub, i)
      ensures false
    {
      assert s[i..i + |sub|][m] == s[i + m] && s[i..i + |sub|][m + 1] == s[i + m + 1];
      HasPairFromAt(s, sub[m], sub[m + 1], 0, i + m);
    }
  }

  // ----- importer-name normalisation (main.py:29) -----------------------------

  /** The characters that survive `str.replace(r'[^A-Z0-9 ]', '')`. */
  predicate Allowed(c: char)
  {
    'A' <= c <= 'Z' || '0' <= c <= '9' || c == ' '
  }

  /** Removes every character outside `[A-Z0-9 ]`. */
  function KeepAllowed(s: string): (r: string)
    ensures forall c :: c in r ==> Allowed(c) && c in s
    decreases |s|
  {
    if s == [] then []
    else
      assert forall c :: c in s[1..] ==> c in s;
      (if Allowed(s[0]) then [s[0]] else []) + KeepAllowed(s[1..])
  }

  /** A string of allowed characters loses nothing. */
  lemma {:induction false} KeepAllowedOfAllowed(s: string)
    requires forall c :: c in s ==> Allowed(c)
    ensures KeepAllowed(s) == s
    decreases |s|
  {
    if s != [] {
      assert s[0] in s;
      assert forall c :: c in s[1..] ==> c in s;
      KeepAllowedOfAllowed(s[1..]);
      assert s == [s[0]] + s[1..];
    }
  }

  /** `astype(str).str.upper().str.replace(r'[^A-Z0-9 ]', '').str.strip()`. */
  function Normalize(s: string): string
  {
    Strip(KeepAllowed(Upper(s)))
  }

  /** The shape of a normalised name: only `A`-`Z`, `0`-`9` and spaces, and no space at either end. */
  predicate NormalForm(s: string)
  {
    && (forall c :: c in s ==> Allowed(c))
    && (s == [] || (s[0] != ' ' && s[|s| - 1] != ' '))
  }

  /** The normalised name holds only `A`-`Z`, `0`-`9` and spaces, and no space at either end. */
  lemma NormalizeShape(s: string)
    ensures NormalForm(Normalize(s))
  {
    var k := KeepAllowed(Upper(s));
    StripAllowed(k);
    assert Normalize(s) == Strip(k);
  }

  /** Stripping a string of allowed characters leaves a normal form. */
  lemma StripAllowed(k: string)
    requires forall c :: c in k ==> Allowed(c)
    ensures NormalForm(Strip(k))
  {
    var n := Strip(k);
    assert Trimmed(n);
    if n != [] {
      assert IsWhitespace(' ');
    }
  }

  /** Normalising twice is normalising once. */
  lemma NormalizeIdempotent(s: string)
    ensures Normalize(Normalize(s)) == Normalize(s)
  {
    NormalizeShape(s);
    NormalizeOfNormal(Normalize(s));
  }

  /** Two names that agree letter by letter up to ASCII case normalise identically. */
  lemma NormalizeIgnoresCase(a: string, b: string)
    requires |a| == |b|
    requires forall i :: 0 <= i < |a| ==> UpperChar(a[i]) == UpperChar(b[i])
    ensures Normalize(a) == Normalize(b)
  {
    assert Upper(a) == Upper(b);
  }

  /** In particular, a name and its lower-cased form normalise identically. */
  lemma NormalizeLower(s: string)
    ensures Normalize(Lower(s)) == Normalize(s)
  {
    UpperOfLower(s);
  }

  /** Removing characters distributes over concatenation. */
  lemma {:induction false} KeepAllowedAppend(a: string, b: string)
    ensures KeepAllowed(a + b) == KeepAllowed(a) + KeepAllowed(b)
    decreases |a|
  {
    if a == [] {
      assert a + b == b;
    } else {
      var head := if Allowed(a[0]) then [a[0]] else [];
      assert (a + b)[0] == a[0] && (a + b)[1..] == a[1..] + b;
      calc {
        KeepAllowed(a + b);
        head + KeepAllowed(a[1..] + b);
        { KeepAllowedAppend(a[1..], b); }
        head + (KeepAllowed(a[1..]) + KeepAllowed(b));
        (head + KeepAllowed(a[1..])) + KeepAllowed(b);
        KeepAllowed(a) + KeepAllowed(b);
      }
    }
  }

  /** A name already in normal form is its own normalisation. */
  lemma NormalizeOfNormal(s: string)
    requires NormalForm(s)
    ensures Normalize(s) == s
  {
    UpperOfNoLower(s);
    KeepAllowedOfAllowed(s);
    var k := KeepAllowed(s);
    if s != [] {
      assert s[0] in s && s[|s| - 1] in s;
      assert !IsWhitespace(s[0]) && !IsWhitespace(s[|s| - 1]);
    }
    assert Trimmed(s);
    assert Strip(k) == s;
  }

  lemma {:induction false} UpperAppend(a: string, b: string)
    ensures Upper(a + b) == Upper(a) + Upper(b)
  {
    assert forall i :: 0 <= i < |a + b| ==> Upper(a + b)[i] == (Upper(a) + Upper(b))[i];
  }

  /** Characters that are not allowed even after upper-casing all disappear. */
  lemma {:induction false} KeepAllowedOfPunctuation(p: string)
    requires forall c :: c in p ==> !Allowed(UpperChar(c))
    ensures KeepAllowed(Upper(p)) == []
  {
    var u := Upper(p);
    if u != [] {
      assert p[0] in p;
      assert forall c :: c in p[1..] ==> c in p;
      KeepAllowedOfPunctuation(p[1..]);
      assert u == [UpperChar(p[0])] + Upper(p[1..]);
      assert u[1..] == Upper(p[1..]);
    }
  }

  /**
   * Two names that differ only by punctuation (characters outside
   * `[A-Za-z0-9 ]`) normalise identically, wherever the punctuation stands.
   */
  lemma NormalizeIgnoresPunctuation(a: string, p: string, b: string)
    requires forall c :: c in p ==> !Allowed(UpperChar(c))
    ensures Normalize(a + p + b) == Normalize(a + b)
  {
    var ua, up, ub := Upper(a), Upper(p), Upper(b);
    calc {
      KeepAllowed(Upper(a + p + b));
      { UpperAppend(a + p, b); UpperAppend(a, p); }
      KeepAllowed((ua + up) + ub);
      { KeepAllowedAppend(ua + up, ub); KeepAllowedAppend(ua, up); }
      KeepAllowed(ua) + KeepAllowed(up) + KeepAllowed(ub);
      { KeepAllowedOfPunctuation(p); }
      KeepAllowed(ua) + KeepAllowed(ub);
      { KeepAllowedAppend(ua, ub); UpperAppend(a, b); }
      KeepAllowed(Upper(a + b));
    }
  }

  /**
   * Spaces inside a name are kept as they are: joining two names already in
   * normal form with two spaces gives a normal form that still has both.
   */
  lemma NormalizeKeepsInnerSpaces(a: string, b: string)
    requires a != [] && b != [] && Normalize(a) == a && Normalize(b) == b
    ensures Normalize(a + "  " + b) == a + "  " + b
  {
    NormalizeShape(a);
    NormalizeShape(b);
    NormalJoin(a, b);
  }

  /** Two non-empty normal forms joined by two spaces make a normal form. */
  lemma NormalJoin(a: string, b: string)
    requires a != [] && b != [] && NormalForm(a) && NormalForm(b)
    ensures Normalize(a + "  " + b) == a + "  " + b
  {
    var j := a + "  " + b;
    assert forall c :: c in j ==> c in a || c == ' ' || c in b;
    assert j[0] == a[0] && j[|j| - 1] == b[|b| - 1];
    NormalizeOfNormal(j);
  }
}

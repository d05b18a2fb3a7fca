/**
 * The Python `str` operations the backend's cleanup code relies on: `strip()`, `replace(p, "")`,
 * `startswith`, `endswith` and `lower()` for the suffix check.
 */
module PyText {

  /** `c.isspace()`: the characters Python 3 treats as whitespace (Unicode categories Zs, B, S, WS). */
  predicate IsSpace(c: char)
  {
    || ('\t' <= c <= '\r')                       // \t \n \v \f \r
    || ('\U{1C}' <= c <= '\U{1F}')               // file, group, record and unit separators
    || c == ' ' || c == '\U{85}' || c == '\U{A0}' || c == '\U{1680}'
    || ('\U{2000}' <= c <= '\U{200A}')
    || c == '\U{2028}' || c == '\U{2029}' || c == '\U{202F}' || c == '\U{205F}' || c == '\U{3000}'
  }

  predicate AllSpace(s: string)
  {
    forall i :: 0 <= i < |s| ==> IsSpace(s[i])
  }

  /** Neither end of `s` is whitespace. */
  predicate Trimmed(s: string)
  {
    s == [] || (!IsSpace(s[0]) && !IsSpace(s[|s| - 1]))
  }

  /** `s.lstrip()` */
  function TrimStart(s: string): (r: string)
    ensures |r| <= |s| && r == s[|s| - |r|..]
    ensures forall i :: 0 <= i < |s| - |r| ==> IsSpace(s[i])
    ensures r == [] || !IsSpace(r[0])
  {
    if s != [] && IsSpace(s[0]) then TrimStart(s[1..]) else s
  }

  /** `s.rstrip()` */
  function TrimEnd(s: string): (r: string)
    ensures |r| <= |s| && r == s[..|r|]
    ensures forall i :: |r| <= i < |s| ==> IsSpace(s[i])
    ensures r == [] || !IsSpace(r[|r| - 1])
  {
    if s != [] && IsSpace(s[|s| - 1]) then TrimEnd(s[..|s| - 1]) else s
  }

  /** `r` is `s` with the whitespace `s[..i]` removed in front and the whitespace after `r` removed. */
  ghost predicate StrippedAt(s: string, r: string, i: int)
  {
    && 0 <= i && i + |r| <= |s|
    && s[i..i + |r|] == r
    && AllSpace(s[..i]) && AllSpace(s[i + |r|..])
  }

  /** Trimming the front and then the back removes only whitespace. */
  lemma TrimBothStripped(s: string)
    ensures StrippedAt(s, TrimEnd(TrimStart(s)), |s| - |TrimStart(s)|)
  {
    var t := TrimStart(s);
    var r := TrimEnd(t);
    var k := |s| - |t|;
    assert s[k..k + |r|] == t[..|r|];
    assert s[k + |r|..] == t[|r|..];
  }

  /** Trimming both ends of a blank string leaves nothing: the last character kept would be blank. */
  lemma TrimBlank(s: string, t: string)
    requires AllSpace(s) && t == TrimStart(s)
    ensures TrimEnd(t) == []
  {
  }

  /** Trimming both ends leaves nothing only when `s` is blank. */
  lemma TrimToEmpty(s: string, t: string)
    requires t == TrimStart(s) && TrimEnd(t) == []
    ensures AllSpace(s)
  {
    forall i | |s| - |t| <= i < |s| ensures IsSpace(s[i]) {
      assert s[i] == t[i - (|s| - |t|)];
    }
  }

  /** `s.strip()`: whitespace removed from both ends, and nothing else. */
  function Strip(s: string): (r: string)
    ensures |r| <= |s|
    ensures Trimmed(r)
    ensures exists i :: StrippedAt(s, r, i)
    ensures r == [] <==> AllSpace(s)
  {
    TrimBothStripped(s);
    assert TrimEnd(TrimStart(s)) == [] <==> AllSpace(s) by {
      if AllSpace(s) { TrimBlank(s, TrimStart(s)); }
      if TrimEnd(TrimStart(s)) == [] { TrimToEmpty(s, TrimStart(s)); }
    }
    TrimEnd(TrimStart(s))
  }

  /** Stripping a string with no whitespace at either end leaves it as it is. */
  lemma StripTrimmed(s: string)
    requires Trimmed(s)
    ensures Strip(s) == s
  {
  }

  function StartsWith(s: string, prefix: string): bool
  {
    |prefix| <= |s| && s[..|prefix|] == prefix
  }

  function EndsWith(s: string, suffix: string): bool
  {
    |suffix| <= |s| && s[|s| - |suffix|..] == suffix
  }

  /** `p in s` for a non-empty `p`: some position of `s` starts an occurrence of `p`. */
  predicate Contains(s: string, p: string)
    decreases |s|
  {
    |p| <= |s| && (s[..|p|] == p || Contains(s[1..], p))
  }

  /** An occurrence at position k makes `p in s` true. */
  lemma {:induction false} ContainsAt(s: string, p: string, k: nat)
    requires k + |p| <= |s| && s[k..k + |p|] == p
    ensures Contains(s, p)
    decreases k
  {
    if k > 0 {
      assert s[1..][k - 1..k - 1 + |p|] == s[k..k + |p|];
      ContainsAt(s[1..], p, k - 1);
    }
  }

  /** `p in s` names a position where `p` occurs. */
  lemma {:induction false} ContainsWitness(s: string, p: string) returns (k: nat)
    requires Contains(s, p)
    ensures k + |p| <= |s| && s[k..k + |p|] == p
    decreases |s|
  {
    if s[..|p|] == p {
      k := 0;
    } else {
      var j := ContainsWitness(s[1..], p);
      assert s[1..][j..j + |p|] == s[j + 1..j + 1 + |p|];
      k := j + 1;
    }
  }

  /** A slice of a string without `p` has no `p` either. */
  lemma SliceLacks(s: string, p: string, i: nat, j: nat)
    requires i <= j <= |s| && !Contains(s, p)
    ensures !Contains(s[i..j], p)
  {
    if Contains(s[i..j], p) {
      var t := s[i..j];
      var k := ContainsWitness(t, p);
      assert forall n :: 0 <= n < |t| ==> t[n] == s[i + n];
      assert t[k..k + |p|] == s[i + k..i + k + |p|];
      ContainsAt(s, p, i + k);
    }
  }

  /** Stripping cannot create an occurrence of `p`. */
  lemma StripLacks(s: string, p: string)
    requires !Contains(s, p)
    ensures !Contains(Strip(s), p)
  {
    var t := TrimStart(s);
    SliceLacks(s, p, |s| - |t|, |s|);
    assert s[|s| - |t|..|s|] == t;
    SliceLacks(t, p, 0, |TrimEnd(t)|);
    assert t[0..|TrimEnd(t)|] == TrimEnd(t);
  }

  /**
   * `s.replace(p, "")`: one left-to-right pass that deletes every non-overlapping occurrence of `p`.
   * Unchanged exactly when `p` does not occur, and at least `|p|` shorter otherwise.
   */
  function RemoveAll(s: string, p: string): (r: string)
    requires |p| > 0
    ensures |r| <= |s|
    ensures r == s <==> !Contains(s, p)
    ensures Contains(s, p) ==> |r| <= |s| - |p|
    decreases |s|
  {
    if |s| < |p| then s
    else if s[..|p|] == p then RemoveAll(s[|p|..], p)
    else [s[0]] + RemoveAll(s[1..], p)
  }

  /** A first character that cannot start `p` is kept, and the pass goes on after it. */
  lemma RemoveAllSkip(t: string, p: string)
    requires |p| > 0 && |t| > 0 && t[0] != p[0]
    ensures RemoveAll(t, p) == [t[0]] + RemoveAll(t[1..], p)
  {
    if |t| < |p| {
      assert t == [t[0]] + t[1..];
    } else {
      assert t[..|p|][0] == t[0];
    }
  }

  /**
   * A prefix that holds no character `p` starts with is kept as it is: no occurrence of `p` can
   * begin inside it, so the pass only deletes from what follows.
   */
  lemma {:induction false} RemoveAllKeepsPrefix(a: string, b: string, p: string)
    requires |p| > 0 && p[0] !in a
    ensures RemoveAll(a + b, p) == a + RemoveAll(b, p)
    decreases |a|
  {
    if a == [] {
      assert a + b == b;
    } else {
      assert p[0] !in a[1..] by {
        forall i | 0 <= i < |a[1..]| ensures a[1..][i] != p[0] { assert a[1..][i] == a[i + 1]; }
      }
      RemoveAllKeepsPrefix(a[1..], b, p);
      assert (a + b)[0] == a[0] && (a + b)[1..] == a[1..] + b;
      RemoveAllSkip(a + b, p);
      assert a == [a[0]] + a[1..];
    }
  }

  /** The ASCII lower-case of one character. */
  function LowerChar(c: char): char
  {
    if 'A' <= c <= 'Z' then (c as int + 32) as char else c
  }

  /**
   * `s.lower()` as far as the ASCII letters go. Python's full Unicode lower-casing also changes
   * other letters, but no character outside ASCII lower-cases to '.', 'p', 'd' or 'f', so for the
   * ".pdf" suffix test the two agree.
   */
  function LowerAscii(s: string): (r: string)
    ensures |r| == |s|
    ensures forall i :: 0 <= i < |s| ==> r[i] == LowerChar(s[i])
  {
    seq(|s|, i requires 0 <= i < |s| => LowerChar(s[i]))
  }
}

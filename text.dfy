/**
 * The handful of Python string operations the chatbot relies on:
 * substring membership (`sub in s`), `str.strip()` and `str.lower()`.
 */
module Text {
  import opened Sequences

  /** Python's `sub in s`: some slice of `s` equals `sub` (the empty string is in every string). */
  predicate Contains(s: string, sub: string)
    decreases |s|
  {
    |sub| <= |s| && (s[..|sub|] == sub || (0 < |s| && Contains(s[1..], sub)))
  }

  /** `sub` occurs in `s` starting at index `i`. */
  predicate OccursAt(s: string, sub: string, i: int)
  {
    0 <= i <= |s| - |sub| && s[i..i + |sub|] == sub
  }

  /** Contains agrees with the positional definition of substring occurrence, in both directions. */
  lemma {:induction false} ContainsIffOccurs(s: string, sub: string)
    ensures Contains(s, sub) <==> exists i :: OccursAt(s, sub, i)
    decreases |s|
  {
    if |sub| <= |s| && s[..|sub|] == sub {
      assert OccursAt(s, sub, 0);
    } else if |sub| <= |s| && 0 < |s| {
      ContainsIffOccurs(s[1..], sub);
      if i :| OccursAt(s, sub, i) {
        assert i != 0;
        assert s[1..][i - 1..i - 1 + |sub|] == s[i..i + |sub|];
        assert OccursAt(s[1..], sub, i - 1);
      }
      if j :| OccursAt(s[1..], sub, j) {
        assert s[1..][j..j + |sub|] == s[j + 1..j + 1 + |sub|];
        assert OccursAt(s, sub, j + 1);
      }
    }
  }

  /** Python's `s.startswith(p)`. */
  predicate StartsWith(s: string, p: string)
  {
    |p| <= |s| && s[..|p|] == p
  }

  lemma {:induction false} ContainsPrefix(p: string, t: string)
    ensures Contains(p + t, p)
  {
    assert (p + t)[..|p|] == p;
  }

  /** Python's `str.isspace()` for a single character (the whitespace that `strip()` removes). */
  predicate IsSpace(c: char)
  {
    ('\t' <= c <= '\r') || ('\U{1C}' <= c <= '\U{1F}') || c == ' ' || c == '\U{85}' || c == '\U{A0}'
    || c == '\U{1680}' || ('\U{2000}' <= c <= '\U{200A}') || c == '\U{2028}' || c == '\U{2029}'
    || c == '\U{202F}' || c == '\U{205F}' || c == '\U{3000}'
  }

  predicate AllSpace(s: string)
  {
    forall i :: 0 <= i < |s| ==> IsSpace(s[i])
  }

  lemma AllSpaceConcat(a: string, b: string)
    requires AllSpace(a) && AllSpace(b)
    ensures AllSpace(a + b)
  {
    forall i | 0 <= i < |a + b|
      ensures IsSpace((a + b)[i])
    {
      if i >= |a| {
        assert (a + b)[i] == b[i - |a|];
      }
    }
  }

  /** Python's `s.lstrip()`: the suffix left after dropping leading whitespace. */
  function StripStart(s: string): (r: string)
    ensures |r| <= |s| && r == s[|s| - |r|..]
    ensures AllSpace(s[..|s| - |r|])
    ensures r != [] ==> !IsSpace(r[0])
  {
    if s != [] && IsSpace(s[0]) then StripStart(s[1..]) else s
  }

  /** Python's `s.rstrip()`: the prefix left after dropping trailing whitespace. */
  function StripEnd(s: string): (r: string)
    ensures |r| <= |s| && r == s[..|r|]
    ensures AllSpace(s[|r|..])
    ensures r != [] ==> !IsSpace(r[|r| - 1])
  {
    if s != [] && IsSpace(s[|s| - 1]) then
      var r := StripEnd(s[..|s| - 1]);
      assert s[|r|..] == s[..|s| - 1][|r|..] + [s[|s| - 1]];
      AllSpaceConcat(s[..|s| - 1][|r|..], [s[|s| - 1]]);
      r
    else s
  }

  /** Python's `s.strip()`. */
  function Strip(s: string): (r: string)
    ensures r == [] || (!IsSpace(r[0]) && !IsSpace(r[|r| - 1]))
    ensures r == [] <==> AllSpace(s)
  {
    StripFacts(s);
    StripEnd(StripStart(s))
  }

  lemma {:induction false} StripFacts(s: string)
    ensures StripEnd(StripStart(s)) == [] <==> AllSpace(s)
  {
    var u := StripStart(s);
    var k := |s| - |u|;
    if u == [] {
      assert s[..k] == s;
    } else {
      assert s[k] == u[0];
    }
  }

  /** Cutting a string at `k` and again `n` further on gives back the string. */
  lemma SplitThree(s: string, k: nat, n: nat)
    requires k <= |s| && n <= |s| - k
    ensures s == s[..k] + s[k..][..n] + s[k..][n..]
  {
    assert s[k..] == s[k..][..n] + s[k..][n..];
  }

  /** Leading whitespace is skipped up to the first non-space character. */
  lemma {:induction false} StripStartSkips(p: string, t: string)
    requires AllSpace(p)
    requires t == [] || !IsSpace(t[0])
    ensures StripStart(p + t) == t
    decreases |p|
  {
    if p != [] {
      assert (p + t)[0] == p[0];
      assert (p + t)[1..] == p[1..] + t;
      StripStartSkips(p[1..], t);
    } else {
      assert p + t == t;
    }
  }

  /** Trailing whitespace is skipped back to the last non-space character. */
  lemma {:induction false} StripEndSkips(t: string, p: string)
    requires AllSpace(p)
    requires t == [] || !IsSpace(t[|t| - 1])
    ensures StripEnd(t + p) == t
    decreases |p|
  {
    if p != [] {
      var q := p[..|p| - 1];
      assert (t + p)[|t + p| - 1] == p[|p| - 1];
      assert (t + p)[..|t + p| - 1] == t + q;
      StripEndSkips(t, q);
    } else {
      assert t + p == t;
    }
  }

  /**
   * The reference characterisation of `strip()`: surround a string that neither starts nor ends
   * with whitespace by whitespace on both sides, and `strip()` gives back exactly that string.
   */
  lemma {:induction false} StripUnique(p1: string, r: string, p2: string)
    requires AllSpace(p1) && AllSpace(p2)
    requires r == [] || (!IsSpace(r[0]) && !IsSpace(r[|r| - 1]))
    ensures Strip(p1 + r + p2) == r
  {
    if r == [] {
      assert p1 + r + p2 == (p1 + p2) + [];
      AllSpaceConcat(p1, p2);
      StripStartSkips(p1 + p2, []);
    } else {
      assert p1 + r + p2 == p1 + (r + p2);
      StripStartSkips(p1, r + p2);
      StripEndSkips(r, p2);
    }
  }

  /** Every string is its stripped form surrounded by whitespace. */
  lemma {:induction false} StripDecomposes(s: string) returns (p1: string, p2: string)
    ensures AllSpace(p1) && AllSpace(p2)
    ensures s == p1 + Strip(s) + p2
  {
    var u := StripStart(s);
    var r := StripEnd(u);
    var k := |s| - |u|;
    SplitThree(s, k, |r|);
    p1, p2 := s[..k], u[|r|..];
  }

  /** Surrounding whitespace does not change what `strip()` returns. */
  lemma {:induction false} StripIgnoresPadding(p1: string, s: string, p2: string)
    requires AllSpace(p1) && AllSpace(p2)
    ensures Strip(p1 + s + p2) == Strip(s)
  {
    var q1, q2 := StripDecomposes(s);
    var r := Strip(s);
    var w1, w2 := p1 + q1, q2 + p2;
    assert p1 + s + p2 == w1 + r + w2 by {
      Assoc(p1, q1 + r, q2);
      Assoc(p1 + (q1 + r), q2, p2);
      Assoc(p1, q1, r);
    }
    AllSpaceConcat(p1, q1);
    AllSpaceConcat(q2, p2);
    StripUnique(w1, r, w2);
  }

  /** Python's `str.lower()` on one character, for the ASCII letters. */
  function LowerChar(c: char): (d: char)
  {
    if 'A' <= c <= 'Z' then (c as int - 'A' as int + 'a' as int) as char else c
  }

  /** Python's `str.lower()`, character by character. */
  function Lower(s: string): (r: string)
    ensures |r| == |s|
    ensures forall i :: 0 <= i < |s| ==> r[i] == LowerChar(s[i])
  {
    seq(|s|, i requires 0 <= i < |s| => LowerChar(s[i]))
  }

  /** `Lower(s) == w`, checked one character at a time. */
  predicate LowerIs(s: string, w: string)
    decreases |s|
  {
    |s| == |w| && (s == [] || (LowerChar(s[0]) == w[0] && LowerIs(s[1..], w[1..])))
  }

  lemma {:induction false} LowerIsLower(s: string, w: string)
    ensures LowerIs(s, w) <==> Lower(s) == w
    decreases |s|
  {
    if |s| == |w| && s != [] {
      LowerIsLower(s[1..], w[1..]);
      assert Lower(s) == [LowerChar(s[0])] + Lower(s[1..]);
      assert w == [w[0]] + w[1..];
    }
  }
}

/** `String.prototype.trim` as the credential Save handler uses it: strip
    leading and trailing ECMAScript white space and line terminators. */
module Text {

  /** Code points of ECMAScript WhiteSpace and LineTerminator: TAB, LF, VT,
      FF, CR, SPACE, NBSP, OGHAM SPACE MARK, U+2000 to U+200A, LS, PS,
      NARROW NBSP, MEDIUM MATHEMATICAL SPACE, IDEOGRAPHIC SPACE and the BOM. */
  const SpaceCodes: set<int> := {
    0x09, 0x0A, 0x0B, 0x0C, 0x0D, 0x20, 0xA0, 0x1680,
    0x2000, 0x2001, 0x2002, 0x2003, 0x2004, 0x2005, 0x2006, 0x2007, 0x2008, 0x2009, 0x200A,
    0x2028, 0x2029, 0x202F, 0x205F, 0x3000, 0xFEFF }

  predicate IsSpace(c: char)
  {
    c as int in SpaceCodes
  }

  predicate AllSpace(s: string)
  {
    forall k :: 0 <= k < |s| ==> IsSpace(s[k])
  }

  /** Drops the white space prefix; the result does not start with white
      space (TrimStartShape: it is the rest of `s` after a white space
      prefix). */
  function TrimStart(s: string): (r: string)
    ensures |r| <= |s|
    ensures r != [] ==> !IsSpace(r[0])
  {
    if s != [] && IsSpace(s[0]) then TrimStart(s[1..]) else s
  }

  /** Drops the white space suffix; the result does not end with white
      space (TrimEndShape: it is what precedes a white space suffix). */
  function TrimEnd(s: string): (r: string)
    ensures |r| <= |s|
    ensures r != [] ==> !IsSpace(r[|r| - 1])
  {
    if s != [] && IsSpace(s[|s| - 1]) then TrimEnd(s[..|s| - 1]) else s
  }

  /** TrimStart keeps a suffix of `s` and drops only white space. */
  lemma {:induction false} TrimStartShape(s: string)
    ensures TrimStart(s) == s[|s| - |TrimStart(s)|..]
    ensures AllSpace(s[..|s| - |TrimStart(s)|])
    decreases |s|
  {
    if s != [] && IsSpace(s[0]) {
      TrimStartShape(s[1..]);
      var n := |s| - |TrimStart(s)|;
      assert s[1..][n - 1..] == s[n..];
      assert forall k :: 1 <= k < n ==> s[k] == s[1..][..n - 1][k - 1];
    }
  }

  /** TrimEnd keeps a prefix of `s` and drops only white space. */
  lemma {:induction false} TrimEndShape(s: string)
    ensures TrimEnd(s) == s[..|TrimEnd(s)|]
    ensures AllSpace(s[|TrimEnd(s)|..])
    decreases |s|
  {
    if s != [] && IsSpace(s[|s| - 1]) {
      var t := s[..|s| - 1];
      TrimEndShape(t);
      var n := |TrimEnd(s)|;
      assert t[..n] == s[..n];
      assert forall k :: n <= k < |s| - 1 ==> s[k] == t[n..][k - n];
    }
  }

  /** Both ends stripped. */
  function Trim(s: string): (r: string)
    ensures |r| <= |s|
    ensures r != [] ==> !IsSpace(r[0]) && !IsSpace(r[|r| - 1])
  {
    TrimEndShape(TrimStart(s));
    TrimEnd(TrimStart(s))
  }

  lemma {:induction false} TrimStartOfPadded(a: string, m: string)
    requires AllSpace(a)
    requires m != [] ==> !IsSpace(m[0])
    ensures TrimStart(a + m) == m
    decreases |a|
  {
    if a == [] {
      assert a + m == m;
    } else {
      assert (a + m)[0] == a[0];
      assert (a + m)[1..] == a[1..] + m;
      TrimStartOfPadded(a[1..], m);
    }
  }

  lemma {:induction false} TrimEndOfPadded(m: string, b: string)
    requires AllSpace(b)
    requires m != [] ==> !IsSpace(m[|m| - 1])
    ensures TrimEnd(m + b) == m
    decreases |b|
  {
    if b == [] {
      assert m + b == m;
    } else {
      assert (m + b)[|m + b| - 1] == b[|b| - 1];
      assert (m + b)[..|m + b| - 1] == m + b[..|b| - 1];
      TrimEndOfPadded(m, b[..|b| - 1]);
    }
  }

  /** Trim is determined by its three parts: white space `a`, a core `m`
      that neither starts nor ends with white space, white space `b`. */
  lemma TrimOfPadded(a: string, m: string, b: string)
    requires AllSpace(a) && AllSpace(b)
    requires m != [] ==> !IsSpace(m[0]) && !IsSpace(m[|m| - 1])
    ensures Trim(a + m + b) == m
  {
    var s := a + m + b;
    if m == [] {
      assert AllSpace(s);
      AllSpaceTrimsAway(s);
    } else {
      assert s == a + (m + b);
      assert (m + b)[0] == m[0];
      TrimStartOfPadded(a, m + b);
      TrimEndOfPadded(m, b);
    }
  }

  lemma AllSpaceTrimsAway(s: string)
    requires AllSpace(s)
    ensures TrimStart(s) == [] && Trim(s) == []
  {
    TrimStartShape(s);
  }

  /** Every string splits into exactly those three parts around Trim(s). */
  lemma TrimSplits(s: string)
    ensures exists i :: (0 <= i && i + |Trim(s)| <= |s| && s == s[..i] + Trim(s) + s[i + |Trim(s)|..] &&
      AllSpace(s[..i]) && AllSpace(s[i + |Trim(s)|..]))
  {
    var t := TrimStart(s);
    var i := |s| - |t|;
    var r := TrimEnd(t);
    TrimStartShape(s);
    TrimEndShape(t);
    assert t == s[i..];
    assert t == r + t[|r|..];
    assert t[|r|..] == s[i + |r|..];
    assert s == s[..i] + t;
    assert s == s[..i] + r + s[i + |r|..];
  }

  /** A value trims to the empty string exactly when it is all white space. */
  lemma TrimEmptyIff(s: string)
    ensures Trim(s) == [] <==> AllSpace(s)
  {
    if AllSpace(s) {
      AllSpaceTrimsAway(s);
    } else {
      TrimSplits(s);
    }
  }

  /** Trimming twice is trimming once. */
  lemma TrimIdempotent(s: string)
    ensures Trim(Trim(s)) == Trim(s)
  {
    var r := Trim(s);
    assert AllSpace([]);
    assert [] + r + [] == r;
    TrimOfPadded([], r, []);
  }

  /** The two credential examples: blanks clear, padding is removed. */
  lemma TrimExamples()
    ensures Trim("   ") == ""
    ensures Trim(" abc ") == "abc"
  {
    TrimEmptyIff("   ");
    assert " abc " == " " + "abc" + " ";
    TrimOfPadded(" ", "abc", " ");
  }
}

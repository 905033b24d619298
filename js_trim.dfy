/**
 * `String.prototype.trim`: removes leading and trailing white space, where
 * white space is the union of ECMA-262's WhiteSpace (clause 12.2: TAB, VT,
 * FF, ZWNBSP and every Space_Separator) and LineTerminator (clause 12.3: LF,
 * CR, LINE SEPARATOR, PARAGRAPH SEPARATOR) code points.
 */
module JsTrim {

  predicate IsJsWhitespace(c: char) {
    var u := c as int;
    // WhiteSpace: TAB, VT, FF, SP, NBSP, ZWNBSP
    u == 0x09 || u == 0x0B || u == 0x0C || u == 0x20 || u == 0xA0 || u == 0xFEFF
    // the rest of Unicode category Zs
    || u == 0x1680 || (0x2000 <= u <= 0x200A) || u == 0x202F || u == 0x205F || u == 0x3000
    // LineTerminator: LF, CR, LS, PS
    || u == 0x0A || u == 0x0D || u == 0x2028 || u == 0x2029
  }

  predicate AllWhitespace(s: string) {
    forall i :: 0 <= i < |s| ==> IsJsWhitespace(s[i])
  }

  /** Number of characters of `s` that are not white space. */
  function Visible(s: string): nat {
    if s == [] then 0
    else (if IsJsWhitespace(s[0]) then 0 else 1) + Visible(s[1..])
  }

  /** `s` with its leading white space removed: the longest white-space prefix goes. */
  function TrimStart(s: string): (r: string)
    ensures |r| <= |s| && r == s[|s| - |r|..]
    ensures r != [] ==> !IsJsWhitespace(r[0])
  {
    if s != [] && IsJsWhitespace(s[0]) then TrimStart(s[1..]) else s
  }

  /** `s` with its trailing white space removed: the longest white-space suffix goes. */
  function TrimEnd(s: string): (r: string)
    ensures |r| <= |s| && r == s[..|r|]
    ensures r != [] ==> !IsJsWhitespace(r[|r| - 1])
  {
    if s != [] && IsJsWhitespace(s[|s| - 1]) then TrimEnd(s[..|s| - 1]) else s
  }

  /** What TrimStart cuts off is white space. */
  lemma {:induction false} TrimStartCutIsBlank(s: string)
    ensures AllWhitespace(s[..|s| - |TrimStart(s)|])
  {
    if s != [] && IsJsWhitespace(s[0]) {
      var k := |s| - |TrimStart(s)|;
      TrimStartCutIsBlank(s[1..]);
      assert forall i :: 1 <= i < k ==> s[..k][i] == s[1..][..k - 1][i - 1];
    }
  }

  /** What TrimEnd cuts off is white space. */
  lemma {:induction false} TrimEndCutIsBlank(s: string)
    ensures AllWhitespace(s[|TrimEnd(s)|..])
  {
    if s != [] && IsJsWhitespace(s[|s| - 1]) {
      var front := s[..|s| - 1];
      var k := |TrimEnd(s)|;
      TrimEndCutIsBlank(front);
      assert forall i :: 0 <= i < |s| - 1 - k ==> s[k..][i] == front[k..][i];
    }
  }

  /** `s.trim()`: no longer than `s`, and neither end of the result is white space. */
  function Trim(s: string): (r: string)
    ensures |r| <= |s|
    ensures r != [] ==> !IsJsWhitespace(r[0]) && !IsJsWhitespace(r[|r| - 1])
  {
    var t := TrimStart(s);
    var r := TrimEnd(t);
    assert r != [] ==> r[0] == t[0];
    r
  }

  /**
   * `r` sits at offset `a` of `s`, only white space lies around it, and
   * neither of its ends is white space.
   */
  predicate CoreAt(s: string, a: nat, r: string) {
    && a + |r| <= |s| && r == s[a..a + |r|]
    && AllWhitespace(s[..a]) && AllWhitespace(s[a + |r|..])
    && (r != [] ==> !IsJsWhitespace(r[0]) && !IsJsWhitespace(r[|r| - 1]))
  }

  /** What `trim` keeps: a slice of `s` whose ends are not white space, with only white space cut off around it. */
  lemma TrimIsCore(s: string) returns (a: nat)
    ensures CoreAt(s, a, Trim(s))
  {
    var t := TrimStart(s);
    TrimStartCutIsBlank(s);
    TrimEndCutIsBlank(t);
    a := CoreBetweenCuts(s, t, TrimEnd(t));
  }

  /** A prefix `r` of a suffix `t` of `s`, with white space cut off on both sides, is a core of `s`. */
  lemma CoreBetweenCuts(s: string, t: string, r: string) returns (a: nat)
    requires |t| <= |s| && t == s[|s| - |t|..]
    requires |r| <= |t| && r == t[..|r|]
    requires r != [] ==> !IsJsWhitespace(t[0]) && !IsJsWhitespace(r[|r| - 1])
    requires AllWhitespace(s[..|s| - |t|]) && AllWhitespace(t[|r|..])
    ensures CoreAt(s, a, r)
  {
    a := |s| - |t|;
    SliceOfSuffix(s, a, |r|);
  }

  lemma SliceOfSuffix(s: string, a: nat, k: nat)
    requires a + k <= |s|
    ensures s[a..][..k] == s[a..a + k] && s[a..][k..] == s[a + k..]
  {
  }

  /** Trimming a string that is all white space leaves nothing, and only such strings trim to nothing. */
  lemma TrimEmptyIffBlank(s: string)
    ensures Trim(s) == "" <==> AllWhitespace(s)
  {
    var a := TrimIsCore(s);
    if Trim(s) == "" {
      assert s == s[..a] + s[a..];
    } else {
      var t := TrimStart(s);
      assert t != [] && !IsJsWhitespace(t[0]);
      assert t[0] == s[|s| - |t|];
    }
  }

  /** Trimming keeps every visible character, so their number bounds the trimmed length from below. */
  lemma VisibleBoundsTrim(s: string)
    ensures Visible(Trim(s)) == Visible(s)
    ensures Visible(s) <= |Trim(s)| <= |s|
  {
    TrimStartKeepsVisible(s);
    TrimEndKeepsVisible(TrimStart(s));
    VisibleAtMostLength(Trim(s));
  }

  lemma {:induction false} TrimStartKeepsVisible(s: string)
    ensures Visible(TrimStart(s)) == Visible(s)
  {
    if s != [] && IsJsWhitespace(s[0]) {
      TrimStartKeepsVisible(s[1..]);
    }
  }

  lemma {:induction false} TrimEndKeepsVisible(s: string)
    ensures Visible(TrimEnd(s)) == Visible(s)
  {
    if s != [] && IsJsWhitespace(s[|s| - 1]) {
      var front, last := s[..|s| - 1], [s[|s| - 1]];
      TrimEndKeepsVisible(front);
      assert s == front + last;
      VisibleAppend(front, last);
      assert last[1..] == [];
    }
  }

  lemma {:induction false} VisibleAppend(p: string, q: string)
    ensures Visible(p + q) == Visible(p) + Visible(q)
  {
    if p != [] {
      assert (p + q)[1..] == p[1..] + q;
      VisibleAppend(p[1..], q);
    } else {
      assert p + q == q;
    }
  }

  lemma {:induction false} VisibleAtMostLength(s: string)
    ensures Visible(s) <= |s|
  {
    if s != [] {
      VisibleAtMostLength(s[1..]);
    }
  }

  /** White space padding on either side does not change what `trim` returns. */
  lemma {:induction false} TrimIgnoresPadding(p: string, s: string, q: string)
    requires AllWhitespace(p) && AllWhitespace(q)
    ensures Trim(p + s + q) == Trim(s)
  {
    assert p + s + q == p + (s + q);
    TrimStartSkipsBlank(p, s + q);
    TrimStartAppend(s, q);
    var t := TrimStart(s);
    if t == "" {
      BlankCoreWithPadding(s, q);
    } else {
      TrimEndSkipsBlank(t, q);
    }
  }

  /** A blank core followed by white space trims to nothing at the front. */
  lemma BlankCoreWithPadding(s: string, q: string)
    requires AllWhitespace(q) && TrimStart(s) == ""
    ensures TrimStart(s + q) == ""
  {
    TrimStartAppend(s, q);
    TrimStartSkipsBlank(s, q);
    assert q + "" == q;
    TrimStartSkipsBlank(q, "");
  }

  lemma {:induction false} TrimStartSkipsBlank(p: string, s: string)
    requires AllWhitespace(p)
    ensures TrimStart(p + s) == TrimStart(s)
  {
    if p != [] {
      assert (p + s)[0] == p[0];
      assert (p + s)[1..] == p[1..] + s;
      TrimStartSkipsBlank(p[1..], s);
    } else {
      assert p + s == s;
    }
  }

  lemma {:induction false} TrimStartAppend(s: string, q: string)
    ensures TrimStart(s) != "" ==> TrimStart(s + q) == TrimStart(s) + q
    ensures TrimStart(s) == "" ==> AllWhitespace(s)
  {
    if s == [] {
    } else if IsJsWhitespace(s[0]) {
      assert (s + q)[0] == s[0];
      assert (s + q)[1..] == s[1..] + q;
      TrimStartAppend(s[1..], q);
      if TrimStart(s) == "" {
        assert forall i :: 1 <= i < |s| ==> s[i] == s[1..][i - 1];
      }
    } else {
      assert (s + q)[0] == s[0];
    }
  }

  lemma {:induction false} TrimEndSkipsBlank(t: string, q: string)
    requires AllWhitespace(q)
    requires t != [] && !IsJsWhitespace(t[0])
    ensures TrimEnd(t + q) == TrimEnd(t)
  {
    if q != [] {
      var q' := q[..|q| - 1];
      assert (t + q)[|t + q| - 1] == q[|q| - 1];
      assert (t + q)[..|t + q| - 1] == t + q';
      TrimEndSkipsBlank(t, q');
    } else {
      assert t + q == t;
    }
  }

  /** A string that neither starts nor ends with white space is its own trim. */
  lemma TrimOfTrimmed(s: string)
    requires s != [] ==> !IsJsWhitespace(s[0]) && !IsJsWhitespace(s[|s| - 1])
    ensures Trim(s) == s
  {
  }

  /** Trimming twice is trimming once. */
  lemma TrimIdempotent(s: string)
    ensures Trim(Trim(s)) == Trim(s)
  {
    var _ := TrimIsCore(s);
    TrimOfTrimmed(Trim(s));
  }
}

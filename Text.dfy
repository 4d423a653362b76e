/** Python's `str.strip()` with no argument, on strings of Unicode scalar values. */
module Text {

  /** A table of inclusive character ranges. */
  datatype Ranges = End | Range(lo: char, hi: char, rest: Ranges)

  /** True when `c` lies in one of the ranges of `rs`. */
  predicate InRanges(c: char, rs: Ranges) {
    rs.Range? && ((rs.lo <= c <= rs.hi) || InRanges(c, rs.rest))
  }

  /** Python's `c.isspace()`: the characters `strip()` removes, as ranges of code points. */
  predicate IsSpace(c: char) {
    InRanges(c,
      Range('\t', '\r', Range('\U{1C}', ' ', Range('\U{85}', '\U{85}', Range('\U{A0}', '\U{A0}',
      Range('\U{1680}', '\U{1680}', Range('\U{2000}', '\U{200A}', Range('\U{2028}', '\U{2029}',
      Range('\U{202F}', '\U{202F}', Range('\U{205F}', '\U{205F}', Range('\U{3000}', '\U{3000}',
      End)))))))))))
  }

  /** The whitespace set of `isspace()`, character by character: the ASCII controls TAB, LF,
      VT, FF, CR and the separators U+001C..U+001F, SPACE, NEXT LINE, NO-BREAK SPACE, OGHAM SPACE
      MARK, the spaces U+2000..U+200A, LINE and PARAGRAPH SEPARATOR, NARROW NO-BREAK SPACE,
      MEDIUM MATHEMATICAL SPACE and IDEOGRAPHIC SPACE; nothing else. */
  lemma IsSpaceIff(c: char)
    ensures IsSpace(c) <==> c in {
      '\t', '\n', '\U{0B}', '\U{0C}', '\r', '\U{1C}', '\U{1D}', '\U{1E}', '\U{1F}', ' ',
      '\U{85}', '\U{A0}', '\U{1680}',
      '\U{2000}', '\U{2001}', '\U{2002}', '\U{2003}', '\U{2004}', '\U{2005}', '\U{2006}',
      '\U{2007}', '\U{2008}', '\U{2009}', '\U{200A}',
      '\U{2028}', '\U{2029}', '\U{202F}', '\U{205F}', '\U{3000}'}
  {
    var n := c as int;
    if '\t' <= c <= '\r' {
      assert n == 9 || n == 10 || n == 11 || n == 12 || n == 13;
    } else if '\U{1C}' <= c <= ' ' {
      assert n == 0x1C || n == 0x1D || n == 0x1E || n == 0x1F || n == 0x20;
    } else if '\U{2000}' <= c <= '\U{200A}' {
      assert 0x2000 <= n <= 0x200A;
      assert n == 0x2000 || n == 0x2001 || n == 0x2002 || n == 0x2003 || n == 0x2004 || n == 0x2005 ||
             n == 0x2006 || n == 0x2007 || n == 0x2008 || n == 0x2009 || n == 0x200A;
    } else if '\U{2028}' <= c <= '\U{2029}' {
      assert n == 0x2028 || n == 0x2029;
    } else {
      // Outside the four wider ranges only single characters remain: walk the table past them.
      var t := Range('\t', '\r', Range('\U{1C}', ' ', Range('\U{85}', '\U{85}', Range('\U{A0}', '\U{A0}',
        Range('\U{1680}', '\U{1680}', Range('\U{2000}', '\U{200A}', Range('\U{2028}', '\U{2029}',
        Range('\U{202F}', '\U{202F}', Range('\U{205F}', '\U{205F}', Range('\U{3000}', '\U{3000}',
        End))))))))));
      assert IsSpace(c) == InRanges(c, t);
      assert InRanges(c, t) == InRanges(c, t.rest);
      t := t.rest;
      assert InRanges(c, t) == InRanges(c, t.rest);
      t := t.rest;
      assert InRanges(c, t) == (c == '\U{85}' || InRanges(c, t.rest));
      t := t.rest;
      assert InRanges(c, t) == (c == '\U{A0}' || InRanges(c, t.rest));
      t := t.rest;
      assert InRanges(c, t) == (c == '\U{1680}' || InRanges(c, t.rest));
      t := t.rest;
      assert InRanges(c, t) == InRanges(c, t.rest);
      t := t.rest;
      assert InRanges(c, t) == InRanges(c, t.rest);
      t := t.rest;
      assert InRanges(c, t) == (c == '\U{202F}' || InRanges(c, t.rest));
      t := t.rest;
      assert InRanges(c, t) == (c == '\U{205F}' || InRanges(c, t.rest));
      t := t.rest;
      assert InRanges(c, t) == (c == '\U{3000}' || InRanges(c, t.rest));
    }
  }

  /** True when no range of `rs` meets `[lo, hi]`. */
  predicate Disjoint(lo: char, hi: char, rs: Ranges) {
    rs.End? || ((rs.hi < lo || hi < rs.lo) && Disjoint(lo, hi, rs.rest))
  }

  /** A character of `[lo, hi]` lies in no range of a table disjoint from `[lo, hi]`. */
  lemma {:induction false} NotInDisjoint(c: char, lo: char, hi: char, rs: Ranges)
    requires lo <= c <= hi && Disjoint(lo, hi, rs)
    ensures !InRanges(c, rs)
  {
    if rs.Range? {
      NotInDisjoint(c, lo, hi, rs.rest);
    }
  }

  /** The visible ASCII characters and everything from U+00A1 to U+167F (Cyrillic among them)
      are not whitespace. */
  lemma VisibleIsNotSpace(c: char)
    requires '!' <= c <= '~' || '\U{A1}' <= c <= '\U{167F}'
    ensures !IsSpace(c)
  {
    var table :=
      Range('\t', '\r', Range('\U{1C}', ' ', Range('\U{85}', '\U{85}', Range('\U{A0}', '\U{A0}',
      Range('\U{1680}', '\U{1680}', Range('\U{2000}', '\U{200A}', Range('\U{2028}', '\U{2029}',
      Range('\U{202F}', '\U{202F}', Range('\U{205F}', '\U{205F}', Range('\U{3000}', '\U{3000}',
      End))))))))));
    if c <= '~' {
      NotInDisjoint(c, '!', '~', table);
    } else {
      NotInDisjoint(c, '\U{A1}', '\U{167F}', table);
    }
  }

  /** True when `s` consists of whitespace only. */
  predicate AllSpace(s: string) {
    forall k :: 0 <= k < |s| ==> IsSpace(s[k])
  }

  /** True when `s` neither starts nor ends with whitespace. */
  predicate Stripped(s: string) {
    s == [] || (!IsSpace(s[0]) && !IsSpace(s[|s| - 1]))
  }

  /** `s` without its leading whitespace. */
  function StripStart(s: string): (r: string)
    ensures |r| <= |s|
  {
    if s != [] && IsSpace(s[0]) then StripStart(s[1..]) else s
  }

  /** `StripStart(s)` is the suffix of `s` after its leading whitespace: what it drops is all
      whitespace and it starts with a non-space. */
  lemma {:induction false} StripStartSpec(s: string)
    ensures var r := StripStart(s);
      r == s[|s| - |r|..] && AllSpace(s[..|s| - |r|]) && (r != [] ==> !IsSpace(r[0]))
  {
    if s != [] && IsSpace(s[0]) {
      StripStartSpec(s[1..]);
      var r := StripStart(s);
      assert s[1..][|s| - 1 - |r|..] == s[|s| - |r|..];
      assert forall k :: 1 <= k < |s| ==> s[1..][k - 1] == s[k];
    }
  }

  /** `s` without its trailing whitespace. */
  function StripEnd(s: string): (r: string)
    ensures |r| <= |s|
  {
    if s != [] && IsSpace(s[|s| - 1]) then StripEnd(s[..|s| - 1]) else s
  }

  /** `StripEnd(s)` is the prefix of `s` before its trailing whitespace: what it drops is all
      whitespace and it ends with a non-space. */
  lemma {:induction false} StripEndSpec(s: string)
    ensures var r := StripEnd(s);
      r == s[..|r|] && AllSpace(s[|r|..]) && (r != [] ==> !IsSpace(r[|r| - 1]))
  {
    if s != [] && IsSpace(s[|s| - 1]) {
      var init := s[..|s| - 1];
      StripEndSpec(init);
      var r := StripEnd(s);
      assert init[..|r|] == s[..|r|];
      assert forall k :: 0 <= k < |s| - 1 - |r| ==> s[|r|..][k] == init[|r|..][k];
    }
  }

  /** A prefix `r` of a suffix `t` of `s` is a slice of `s`, and what `t` has beyond `r` is what
      `s` has beyond that slice. */
  lemma SliceOfSuffix(s: string, t: string, r: string)
    requires |t| <= |s| && t == s[|s| - |t|..]
    requires |r| <= |t| && r == t[..|r|]
    ensures var i := |s| - |t|;
      r == s[i..i + |r|] && s[i + |r|..] == t[|r|..]
  {
  }

  /** `s.strip()`: whitespace cut from both ends of `s`. */
  function Strip(s: string): (r: string)
    ensures |r| <= |s|
  {
    StripEnd(StripStart(s))
  }

  /** `s.strip()` is the slice `s[i..i + |r|]` with nothing but whitespace outside it; together
      with `StripStripsBothEnds` this determines the result uniquely. */
  lemma StripIsSlice(s: string)
    ensures var r, i := Strip(s), |s| - |StripStart(s)|;
      i + |r| <= |s| && r == s[i..i + |r|] && AllSpace(s[..i]) && AllSpace(s[i + |r|..])
  {
    StripStartSpec(s);
    StripEndSpec(StripStart(s));
    SliceOfSuffix(s, StripStart(s), Strip(s));
  }

  /** `s.strip()` has no whitespace left at either end. */
  lemma StripStripsBothEnds(s: string)
    ensures Stripped(Strip(s))
  {
    var t := StripStart(s);
    var r := StripEnd(t);
    StripStartSpec(s);
    StripEndSpec(t);
    if r != [] {
      assert r[0] == t[0];
    }
  }

  /** `s.strip()` is empty exactly when `s` consists of whitespace only (Python's `not s.strip()`). */
  lemma StripEmptyIff(s: string)
    ensures Strip(s) == [] <==> AllSpace(s)
  {
    var t := StripStart(s);
    var r := StripEnd(t);
    StripStartSpec(s);
    StripEndSpec(t);
    if r == [] {
      assert t[|r|..] == t;
      assert t == [];
      assert s[..|s|] == s;
    } else {
      assert s[|s| - |t|] == r[0];
    }
  }

  /** A string with no whitespace at either end is left as it is by `strip()`. */
  lemma StrippedIsFixed(s: string)
    requires Stripped(s)
    ensures Strip(s) == s
  {
  }

  /** Stripping is idempotent: a stripped question is left as it is by a second `strip()`. */
  lemma StripIdempotent(s: string)
    ensures Strip(Strip(s)) == Strip(s)
  {
    StripStripsBothEnds(s);
    StrippedIsFixed(Strip(s));
  }
}

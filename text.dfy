/** Whitespace trimming with the semantics of Python's `str.strip()` without arguments. */
module Text {

  /** The characters Python's `str.isspace` accepts, which `str.strip()` removes. */
  predicate IsSpace(c: char) {
    c == ' ' || c == '\t' || c == '\n' || c == '\r' || c == '\U{B}' || c == '\U{C}'
    || ('\U{1C}' <= c <= '\U{1F}') || c == '\U{85}' || c == '\U{A0}' || c == '\U{1680}'
    || ('\U{2000}' <= c <= '\U{200A}') || c == '\U{2028}' || c == '\U{2029}'
    || c == '\U{202F}' || c == '\U{205F}' || c == '\U{3000}'
  }

  predicate AllSpace(s: string) {
    forall i :: 0 <= i < |s| ==> IsSpace(s[i])
  }

  /** Neither begins nor ends with whitespace. */
  predicate Bare(s: string) {
    s == [] || (!IsSpace(s[0]) && !IsSpace(s[|s| - 1]))
  }

  /** Drops the leading whitespace: what is left is a suffix, and what was dropped is all whitespace. */
  function TrimStart(s: string): (r: string)
    ensures |r| <= |s| && r == s[|s| - |r|..]
    ensures forall k :: 0 <= k < |s| - |r| ==> IsSpace(s[k])
    ensures r == [] || !IsSpace(r[0])
  {
    if |s| > 0 && IsSpace(s[0]) then TrimStart(s[1..]) else s
  }

  /** Drops the trailing whitespace: what is left is a prefix, and what was dropped is all whitespace. */
  function TrimEnd(s: string): (r: string)
    ensures |r| <= |s| && r == s[..|r|]
    ensures forall k :: |r| <= k < |s| ==> IsSpace(s[k])
    ensures r == [] || !IsSpace(r[|r| - 1])
  {
    if |s| > 0 && IsSpace(s[|s| - 1]) then TrimEnd(s[..|s| - 1]) else s
  }

  /**
   * `s.strip()`: an infix of `s` whose borders are all whitespace and which
   * itself neither begins nor ends with whitespace.
   */
  function Strip(s: string): (r: string)
    ensures exists i, j :: 0 <= i <= j <= |s| && r == s[i..j] && AllSpace(s[..i]) && AllSpace(s[j..])
    ensures Bare(r)
  {
    var t := TrimStart(s);
    var r := TrimEnd(t);
    StripBorders(s, t, r);
    r
  }

  /**
   * Cutting whitespace off the front of `s` to get `t`, then off the back of
   * `t` to get `r`, leaves `r` as an infix of `s` with whitespace-only borders.
   */
  lemma StripBorders(s: string, t: string, r: string)
    requires |t| <= |s| && t == s[|s| - |t|..]
    requires forall k :: 0 <= k < |s| - |t| ==> IsSpace(s[k])
    requires |r| <= |t| && r == t[..|r|]
    requires forall k :: |r| <= k < |t| ==> IsSpace(t[k])
    ensures AllSpace(s[..|s| - |t|]) && AllSpace(s[|s| - |t| + |r|..])
    ensures r == s[|s| - |t|..|s| - |t| + |r|]
  {
    var i := |s| - |t|;
    forall k | 0 <= k < i ensures IsSpace(s[..i][k]) {
      assert s[..i][k] == s[k];
    }
    var tail := t[|r|..];
    forall k | 0 <= k < |tail| ensures IsSpace(tail[k]) {
      assert tail[k] == t[|r| + k];
    }
    assert s[i + |r|..] == tail;
    assert s[i..][..|r|] == s[i..i + |r|];
  }

  /** `TrimStart` stops at the first non-whitespace character, whichever it is. */
  lemma TrimStartSkips(s: string, i: nat)
    requires i <= |s| && AllSpace(s[..i])
    requires i == |s| || !IsSpace(s[i])
    ensures TrimStart(s) == s[i..]
  {
    var r := TrimStart(s);
    forall k | 0 <= k < i ensures IsSpace(s[k]) {
      assert s[..i][k] == s[k];
    }
    assert r != [] ==> r[0] == s[|s| - |r|];
  }

  /** `TrimEnd` stops after the last non-whitespace character, whichever it is. */
  lemma TrimEndSkips(s: string, j: nat)
    requires j <= |s| && AllSpace(s[j..])
    requires j == 0 || !IsSpace(s[j - 1])
    ensures TrimEnd(s) == s[..j]
  {
    var r := TrimEnd(s);
    forall k | j <= k < |s| ensures IsSpace(s[k]) {
      assert s[j..][k - j] == s[k];
    }
    assert r != [] ==> r[|r| - 1] == s[|r| - 1];
  }

  /** A string of whitespace only strips to the empty string. */
  lemma StripAllSpace(s: string)
    requires AllSpace(s)
    ensures Strip(s) == []
  {
    assert s[..|s|] == s;
    TrimStartSkips(s, |s|);
  }

  /** Splitting a string splits the property of being all whitespace. */
  lemma AllSpaceJoin(s: string, i: nat)
    requires i <= |s| && AllSpace(s[..i]) && AllSpace(s[i..])
    ensures AllSpace(s)
  {
    forall k | 0 <= k < |s| ensures IsSpace(s[k]) {
      if k < i { assert s[..i][k] == s[k]; } else { assert s[i..][k - i] == s[k]; }
    }
  }

  /**
   * Reference description of `Strip`: any bare infix of `s` whose borders are
   * all whitespace is `Strip(s)`.
   */
  lemma StripUnique(s: string, i: nat, j: nat)
    requires i <= j <= |s| && AllSpace(s[..i]) && AllSpace(s[j..]) && Bare(s[i..j])
    ensures Strip(s) == s[i..j]
  {
    if i == j {
      assert s[i..] == s[j..];
      AllSpaceJoin(s, i);
      StripAllSpace(s);
    } else {
      assert s[i..j][0] == s[i] && s[i..j][j - i - 1] == s[j - 1];
      StripNonEmpty(s, i, j);
    }
  }

  /** A bare non-empty infix with whitespace-only borders is what the two trims leave. */
  lemma StripNonEmpty(s: string, i: nat, j: nat)
    requires i < j <= |s| && AllSpace(s[..i]) && AllSpace(s[j..])
    requires !IsSpace(s[i]) && !IsSpace(s[j - 1])
    ensures TrimEnd(TrimStart(s)) == s[i..j]
  {
    var t := s[i..];
    var m := j - i;
    SuffixSlices(s, i, j);
    TrimStartSkips(s, i);
    TrimEndSkips(t, m);
  }

  lemma SuffixSlices(s: string, i: nat, j: nat)
    requires i < j <= |s|
    ensures s[i..][j - i..] == s[j..] && s[i..][j - i - 1] == s[j - 1] && s[i..][..j - i] == s[i..j]
  {
  }

  /** Surrounding whitespace is removed and a bare code comes back unchanged. */
  lemma StripPadded(pre: string, code: string, post: string)
    requires AllSpace(pre) && AllSpace(post) && Bare(code)
    ensures Strip(pre + code + post) == code
  {
    var s := pre + code + post;
    var i, j := |pre|, |pre| + |code|;
    assert s[..i] == pre;
    assert s[j..] == post;
    assert s[i..j] == code;
    StripUnique(s, i, j);
  }

  /** Stripping twice is stripping once. */
  lemma StripIdempotent(s: string)
    ensures Strip(Strip(s)) == Strip(s)
  {
    assert Strip(s) == [] + Strip(s) + [];
    StripPadded([], Strip(s), []);
  }
}

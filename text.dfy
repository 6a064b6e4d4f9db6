/** Whitespace trimming as done by Python's `str.strip()` with no argument. */
module Text {

  /** The code point ranges, bounds included, of the characters for which Python's
      `str.isspace()` holds. */
  const SpaceRanges: seq<(char, char)> := [
    ('\t', '\r'), ('\U{1C}', ' '), ('\U{85}', '\U{85}'), ('\U{A0}', '\U{A0}'),
    ('\U{1680}', '\U{1680}'), ('\U{2000}', '\U{200A}'), ('\U{2028}', '\U{2029}'),
    ('\U{202F}', '\U{202F}'), ('\U{205F}', '\U{205F}'), ('\U{3000}', '\U{3000}')]

  /** `c` lies in one of the ranges from index `k` on. */
  predicate InRanges(c: char, ranges: seq<(char, char)>, k: nat)
    decreases |ranges| - k
  {
    k < |ranges| && (ranges[k].0 <= c <= ranges[k].1 || InRanges(c, ranges, k + 1))
  }

  /** Python's `str.isspace()` on one character. */
  predicate IsSpace(c: char) {
    InRanges(c, SpaceRanges, 0)
  }

  /** The characters of the last five ranges. */
  lemma {:induction false} WideSpaceExactly(c: char)
    ensures InRanges(c, SpaceRanges, 5) <==>
      || ('\U{2000}' <= c <= '\U{200A}') || c == '\U{2028}' || c == '\U{2029}'
      || c == '\U{202F}' || c == '\U{205F}' || c == '\U{3000}'
  {
    var r := SpaceRanges;
    assert InRanges(c, r, 5) <==> r[5].0 <= c <= r[5].1 || InRanges(c, r, 6);
    assert InRanges(c, r, 6) <==> r[6].0 <= c <= r[6].1 || InRanges(c, r, 7);
    assert InRanges(c, r, 7) <==> r[7].0 <= c <= r[7].1 || InRanges(c, r, 8);
    assert InRanges(c, r, 8) <==> r[8].0 <= c <= r[8].1 || InRanges(c, r, 9);
    assert InRanges(c, r, 9) <==> r[9].0 <= c <= r[9].1 || InRanges(c, r, 10);
    assert !InRanges(c, r, 10);
  }

  /** `IsSpace` spelled out: the Unicode whitespace set Python uses. */
  lemma {:induction false} IsSpaceExactly(c: char)
    ensures IsSpace(c) <==>
      || ('\t' <= c <= '\r') || ('\U{1C}' <= c <= ' ')
      || c == '\U{85}' || c == '\U{A0}' || c == '\U{1680}' || ('\U{2000}' <= c <= '\U{200A}')
      || c == '\U{2028}' || c == '\U{2029}' || c == '\U{202F}' || c == '\U{205F}' || c == '\U{3000}'
  {
    var r := SpaceRanges;
    assert InRanges(c, r, 0) <==> r[0].0 <= c <= r[0].1 || InRanges(c, r, 1);
    assert InRanges(c, r, 1) <==> r[1].0 <= c <= r[1].1 || InRanges(c, r, 2);
    assert InRanges(c, r, 2) <==> r[2].0 <= c <= r[2].1 || InRanges(c, r, 3);
    assert InRanges(c, r, 3) <==> r[3].0 <= c <= r[3].1 || InRanges(c, r, 4);
    assert InRanges(c, r, 4) <==> r[4].0 <= c <= r[4].1 || InRanges(c, r, 5);
    WideSpaceExactly(c);
  }

  /** Printable ASCII characters other than the space are not whitespace. */
  lemma {:induction false} PrintableIsNotSpace(c: char)
    requires ' ' < c <= '~'
    ensures !IsSpace(c)
  {
    IsSpaceExactly(c);
  }

  /** Drops the leading whitespace of `s`. */
  function TrimStart(s: string): string {
    if s != [] && IsSpace(s[0]) then TrimStart(s[1..]) else s
  }

  /** Drops the trailing whitespace of `s`. */
  function TrimEnd(s: string): string {
    if s != [] && IsSpace(s[|s| - 1]) then TrimEnd(s[..|s| - 1]) else s
  }

  /** `s` with leading and trailing whitespace removed. */
  function Strip(s: string): string {
    TrimEnd(TrimStart(s))
  }

  /** `TrimStart` keeps a suffix of `s` that does not start with whitespace, and
      everything it drops is whitespace. */
  lemma {:induction false} TrimStartDropsSpace(s: string)
    ensures |TrimStart(s)| <= |s| && TrimStart(s) == s[|s| - |TrimStart(s)|..]
    ensures TrimStart(s) != [] ==> !IsSpace(TrimStart(s)[0])
    ensures forall k :: 0 <= k < |s| - |TrimStart(s)| ==> IsSpace(s[k])
  {
    if s != [] && IsSpace(s[0]) {
      TrimStartDropsSpace(s[1..]);
      assert s[1..][|s| - 1 - |TrimStart(s)|..] == s[|s| - |TrimStart(s)|..];
      forall k | 1 <= k < |s| - |TrimStart(s)| ensures IsSpace(s[k]) {
        assert s[k] == s[1..][k - 1];
      }
    }
  }

  /** `TrimEnd` keeps a prefix of `s` that does not end with whitespace, and
      everything it drops is whitespace. */
  lemma {:induction false} TrimEndDropsSpace(s: string)
    ensures |TrimEnd(s)| <= |s| && TrimEnd(s) == s[..|TrimEnd(s)|]
    ensures TrimEnd(s) != [] ==> !IsSpace(TrimEnd(s)[|TrimEnd(s)| - 1])
    ensures forall k :: |TrimEnd(s)| <= k < |s| ==> IsSpace(s[k])
  {
    if s != [] && IsSpace(s[|s| - 1]) {
      TrimEndDropsSpace(s[..|s| - 1]);
      assert s[..|s| - 1][..|TrimEnd(s)|] == s[..|TrimEnd(s)|];
      forall k | |TrimEnd(s)| <= k < |s| - 1 ensures IsSpace(s[k]) {
        assert s[k] == s[..|s| - 1][k];
      }
    }
  }

  /** What `Strip` keeps is the infix of `s` that starts after the leading whitespace. */
  lemma {:induction false} StripIsInfix(s: string)
    ensures |TrimStart(s)| <= |s|
    ensures var i := |s| - |TrimStart(s)|;
      i + |Strip(s)| <= |s| && Strip(s) == s[i..i + |Strip(s)|]
  {
    var t := TrimStart(s);
    var i := |s| - |t|;
    TrimStartDropsSpace(s);
    TrimEndDropsSpace(t);
    assert t[..|Strip(s)|] == s[i..i + |Strip(s)|];
  }

  /** What `Strip` cuts off at the end is whitespace. */
  lemma {:induction false} StripCutsSpaceAtEnd(s: string)
    ensures |TrimStart(s)| <= |s|
    ensures forall k :: |s| - |TrimStart(s)| + |Strip(s)| <= k < |s| ==> IsSpace(s[k])
  {
    var t := TrimStart(s);
    var i := |s| - |t|;
    TrimStartDropsSpace(s);
    TrimEndDropsSpace(t);
    forall k | i + |Strip(s)| <= k < |s| ensures IsSpace(s[k]) {
      assert s[k] == t[k - i];
    }
  }

  /** What `Strip` removes is whitespace on both sides, and what it keeps is the infix
      of `s` that starts after the leading whitespace. */
  lemma {:induction false} StripCutsOnlySpace(s: string)
    ensures |TrimStart(s)| <= |s|
    ensures var i := |s| - |TrimStart(s)|;
      && i + |Strip(s)| <= |s| && Strip(s) == s[i..i + |Strip(s)|]
      && (forall k :: 0 <= k < i ==> IsSpace(s[k]))
      && (forall k :: i + |Strip(s)| <= k < |s| ==> IsSpace(s[k]))
  {
    TrimStartDropsSpace(s);
    StripIsInfix(s);
    StripCutsSpaceAtEnd(s);
  }

  /** A string is trimmed when it has no whitespace at either end. */
  predicate IsTrimmed(s: string) {
    s == [] || (!IsSpace(s[0]) && !IsSpace(s[|s| - 1]))
  }

  /** What `Strip` returns neither starts nor ends with whitespace. */
  lemma {:induction false} StripIsTrimmed(s: string)
    ensures IsTrimmed(Strip(s))
  {
    var t := TrimStart(s);
    TrimStartDropsSpace(s);
    TrimEndDropsSpace(t);
    if Strip(s) != [] {
      assert Strip(s)[0] == t[0];
    }
  }

  /** Stripping leaves a trimmed string unchanged, and only a trimmed string. */
  lemma {:induction false} StripFixesTrimmed(s: string)
    ensures Strip(s) == s <==> IsTrimmed(s)
  {
    StripIsTrimmed(s);
    if IsTrimmed(s) {
      assert TrimStart(s) == s;
      assert TrimEnd(s) == s;
    }
  }

  /** Stripping twice is stripping once. */
  lemma {:induction false} StripIdempotent(s: string)
    ensures Strip(Strip(s)) == Strip(s)
  {
    StripIsTrimmed(s);
    StripFixesTrimmed(Strip(s));
  }
}

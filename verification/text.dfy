/**
  JavaScript's `String.prototype.trim` over an explicit whitespace set.

  ECMA-262 defines `trim` as removing every leading and trailing code point that
  is a WhiteSpace or a LineTerminator of its lexical grammar. WhiteSpace is TAB,
  VT, FF, ZWNBSP (U+FEFF) and every code point of the Unicode category Zs;
  LineTerminator is LF, CR, LINE SEPARATOR and PARAGRAPH SEPARATOR.
 */
module Text {

  /** True for the code points `trim` removes: WhiteSpace (TAB, VT, FF, ZWNBSP
      and the Zs separators SPACE, NO-BREAK SPACE, OGHAM SPACE MARK, EN QUAD ..
      HAIR SPACE, NARROW NO-BREAK SPACE, MEDIUM MATHEMATICAL SPACE, IDEOGRAPHIC
      SPACE) and LineTerminator (LF, CR, U+2028, U+2029). */
  predicate IsTrimmable(ch: char) {
    var c := ch as int;
    || 0x09 <= c <= 0x0D            // TAB, LF, VT, FF, CR
    || c == 0x20 || c == 0xA0 || c == 0x1680
    || 0x2000 <= c <= 0x200A
    || c == 0x2028 || c == 0x2029
    || c == 0x202F || c == 0x205F || c == 0x3000
    || c == 0xFEFF
  }

  /** True when `s` holds at least one character that `trim` keeps. */
  predicate HasVisibleChar(s: string) {
    exists i :: 0 <= i < |s| && !IsTrimmable(s[i])
  }

  /** Drops the leading run of trimmable characters. */
  function TrimStart(s: string): (r: string)
    ensures |r| <= |s| && r == s[|s| - |r|..]
    ensures forall i :: 0 <= i < |s| - |r| ==> IsTrimmable(s[i])
    ensures r != [] ==> !IsTrimmable(r[0])
  {
    if s != [] && IsTrimmable(s[0]) then TrimStart(s[1..]) else s
  }

  /** Drops the trailing run of trimmable characters. */
  function TrimEnd(s: string): (r: string)
    ensures |r| <= |s| && r == s[..|r|]
    ensures forall i :: |r| <= i < |s| ==> IsTrimmable(s[i])
    ensures r != [] ==> !IsTrimmable(r[|r| - 1])
  {
    if s != [] && IsTrimmable(s[|s| - 1]) then TrimEnd(s[..|s| - 1]) else s
  }

  /** `r` is `s[lo..hi]` and everything of `s` outside that slice is trimmable. */
  predicate IsTrimmedSlice(s: string, r: string, lo: int, hi: int) {
    && 0 <= lo <= hi <= |s| && r == s[lo..hi]
    && (forall i :: 0 <= i < lo ==> IsTrimmable(s[i]))
    && (forall i :: hi <= i < |s| ==> IsTrimmable(s[i]))
  }

  /** `s.trim()`: a slice of `s` whose outside is all trimmable and whose two
      ends are not; it is empty exactly when `s` has no visible character. */
  function Trim(s: string): (r: string)
    ensures exists lo, hi :: IsTrimmedSlice(s, r, lo, hi)
    ensures r != [] ==> !IsTrimmable(r[0]) && !IsTrimmable(r[|r| - 1])
    ensures |r| > 0 <==> HasVisibleChar(s)
  {
    var t := TrimStart(s);
    var r := TrimEnd(t);
    TrimSplits(s, t, r);
    r
  }

  /** The two halves of `Trim` compose: `r` is the slice of `s` left after both
      trimmable runs are dropped, so it is empty only when all of `s` is trimmable. */
  lemma TrimSplits(s: string, t: string, r: string)
    requires t == TrimStart(s) && r == TrimEnd(t)
    ensures IsTrimmedSlice(s, r, |s| - |t|, |s| - |t| + |r|)
    ensures r != [] ==> !IsTrimmable(r[0]) && !IsTrimmable(r[|r| - 1])
    ensures r == [] ==> !HasVisibleChar(s)
    ensures r != [] ==> HasVisibleChar(s)
  {
    PrefixOfSuffix(s, t, r);
    TrimmedTail(s, t, r);
    if r == [] {
      TrimmedToNothing(s, t);
    } else {
      assert r[0] == s[|s| - |t|];
    }
  }

  /** A prefix of a suffix is a slice. */
  lemma PrefixOfSuffix(s: string, t: string, r: string)
    requires |t| <= |s| && t == s[|s| - |t|..]
    requires |r| <= |t| && r == t[..|r|]
    ensures r == s[|s| - |t|..|s| - |t| + |r|]
  {
  }

  /** What `TrimEnd` drops from `t` is the tail of `s`. */
  lemma TrimmedTail(s: string, t: string, r: string)
    requires |t| <= |s| && t == s[|s| - |t|..]
    requires |r| <= |t| && forall i :: |r| <= i < |t| ==> IsTrimmable(t[i])
    ensures forall i :: |s| - |t| + |r| <= i < |s| ==> IsTrimmable(s[i])
  {
    var lo := |s| - |t|;
    forall i | lo + |r| <= i < |s|
      ensures IsTrimmable(s[i])
    {
      assert s[i] == t[i - lo];
    }
  }

  /** If both halves leave nothing, every character of `s` was trimmable: a
      non-empty `t` would start with a character `TrimEnd` keeps. */
  lemma TrimmedToNothing(s: string, t: string)
    requires t == TrimStart(s) && TrimEnd(t) == []
    ensures !HasVisibleChar(s)
  {
    assert t == [];
    assert forall i :: 0 <= i < |s| ==> IsTrimmable(s[i]);
  }

  /** Trimming an already trimmed string changes nothing. */
  lemma TrimIdempotent(s: string)
    ensures Trim(Trim(s)) == Trim(s)
  {
    var t := Trim(s);
    if t != [] {
      assert TrimStart(t) == t;
      assert TrimEnd(t) == t;
    }
  }
}

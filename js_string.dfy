/**
 * The three JavaScript string operations the CSV reader and the file gate rely on:
 * `String.prototype.trim`, `String.prototype.split` with a one-character separator,
 * and `String.prototype.endsWith`.
 */
module JsString {

  /** ECMAScript WhiteSpace and LineTerminator code points, apart from the Zs range U+2000..U+200A. */
  const WhiteSpaceChars: set<char> := {
    '\t', '\n', '\U{000B}', '\U{000C}', '\r', ' ', '\U{00A0}', '\U{1680}',
    '\U{2028}', '\U{2029}', '\U{202F}', '\U{205F}', '\U{3000}', '\U{FEFF}'
  }

  /** The characters `trim` removes: TAB, LF, VT, FF, CR, every Unicode Zs space, LS, PS and ZWNBSP. */
  predicate IsWhiteSpace(c: char) {
    c in WhiteSpaceChars || '\U{2000}' <= c <= '\U{200A}'
  }

  predicate AllWhiteSpace(s: string) {
    forall k :: 0 <= k < |s| ==> IsWhiteSpace(s[k])
  }

  /** True when every character of s in [lo, hi) is white space. */
  predicate WhiteBetween(s: string, lo: nat, hi: nat)
    requires lo <= hi <= |s|
  {
    forall k :: lo <= k < hi ==> IsWhiteSpace(s[k])
  }

  /** The first position at or after `i` that is not white space, or |s|. */
  function TrimLo(s: string, i: nat): (lo: nat)
    requires i <= |s|
    ensures i <= lo <= |s|
    ensures WhiteBetween(s, i, lo)
    ensures lo < |s| ==> !IsWhiteSpace(s[lo])
    decreases |s| - i
  {
    if i < |s| && IsWhiteSpace(s[i]) then TrimLo(s, i + 1) else i
  }

  /** The position just after the last character in [lo, j) that is not white space, or lo. */
  function TrimHi(s: string, lo: nat, j: nat): (hi: nat)
    requires lo <= j <= |s|
    ensures lo <= hi <= j
    ensures WhiteBetween(s, hi, j)
    ensures lo < hi ==> !IsWhiteSpace(s[hi - 1])
  {
    if lo < j && IsWhiteSpace(s[j - 1]) then TrimHi(s, lo, j - 1) else j
  }

  /**
   * `s.trim()`: the slice between the first and the last characters that are not
   * white space. It is empty exactly when `s` is all white space, and otherwise
   * starts and ends with a character that is not.
   */
  function Trim(s: string): (r: string)
    ensures |r| <= |s|
    ensures r == [] || (!IsWhiteSpace(r[0]) && !IsWhiteSpace(r[|r| - 1]))
    ensures r == [] <==> AllWhiteSpace(s)
  {
    var lo := TrimLo(s, 0);
    var hi := TrimHi(s, lo, |s|);
    assert lo < hi ==> s[lo..hi][0] == s[lo] && s[lo..hi][hi - lo - 1] == s[hi - 1];
    assert lo == hi ==> lo == |s|;
    assert lo == hi ==> WhiteBetween(s, 0, |s|);
    s[lo..hi]
  }

  /**
   * Trim is the only slice with these properties: whatever slice s[i..j] has only
   * white space before and after it, and no white space at its own ends, is Trim(s).
   */
  lemma TrimIsUnique(s: string, i: nat, j: nat)
    requires i <= j <= |s|
    requires WhiteBetween(s, 0, i) && WhiteBetween(s, j, |s|)
    requires i < j ==> !IsWhiteSpace(s[i]) && !IsWhiteSpace(s[j - 1])
    ensures Trim(s) == s[i..j]
  {
    var lo := TrimLo(s, 0);
    if i < j {
      assert lo == i by {
        assert WhiteBetween(s, 0, lo);
      }
      var hi := TrimHi(s, lo, |s|);
      assert hi == j by {
        assert WhiteBetween(s, hi, |s|);
      }
    }
  }

  /** Trimming twice is trimming once. */
  lemma TrimIdempotent(s: string)
    ensures Trim(Trim(s)) == Trim(s)
  {
    var t := Trim(s);
    TrimIsUnique(t, 0, |t|);
    assert t[0..|t|] == t;
  }

  /** The separator's first position in `s`. */
  function IndexOf(s: string, c: char): (k: nat)
    requires c in s
    ensures k < |s| && s[k] == c && c !in s[..k]
  {
    if s[0] == c then 0 else 1 + IndexOf(s[1..], c)
  }

  /** The inverse of `Split`: the parts with one separator between neighbours. */
  function Join(parts: seq<string>, sep: char): string
  {
    if |parts| <= 1 then (if parts == [] then [] else parts[0])
    else parts[0] + [sep] + Join(parts[1..], sep)
  }

  /**
   * `s.split(sep)` for a one-character separator: at least one part, no part holds
   * the separator, and joining the parts gives `s` back.
   */
  function Split(s: string, sep: char): (r: seq<string>)
    ensures |r| >= 1
    ensures forall k :: 0 <= k < |r| ==> sep !in r[k]
    decreases |s|
  {
    if sep !in s then [s]
    else
      var k := IndexOf(s, sep);
      [s[..k]] + Split(s[k + 1..], sep)
  }

  /** Joining the parts of a split gives the string back. */
  lemma {:induction false} JoinSplit(s: string, sep: char)
    ensures Join(Split(s, sep), sep) == s
    decreases |s|
  {
    if sep in s {
      var k := IndexOf(s, sep);
      var rest := Split(s[k + 1..], sep);
      JoinSplit(s[k + 1..], sep);
      assert s == s[..k] + [sep] + s[k + 1..];
      assert ([s[..k]] + rest)[1..] == rest;
    }
  }

  /** Splitting the join of separator-free parts gives those parts back. */
  lemma {:induction false} SplitJoin(parts: seq<string>, sep: char)
    requires |parts| >= 1
    requires forall k :: 0 <= k < |parts| ==> sep !in parts[k]
    ensures Split(Join(parts, sep), sep) == parts
  {
    if |parts| > 1 {
      var p := parts[0];
      var tail := Join(parts[1..], sep);
      var s := Join(parts, sep);
      assert s == p + [sep] + tail;
      assert s[|p|] == sep;
      var k := IndexOf(s, sep);
      assert k == |p|;
      assert s[..k] == p;
      assert s[k + 1..] == tail;
      SplitJoin(parts[1..], sep);
    }
  }

  /** Split yields one more part than there are separators. */
  lemma {:induction false} SplitCount(s: string, sep: char)
    ensures |Split(s, sep)| == multiset(s)[sep] + 1
    decreases |s|
  {
    if sep in s {
      var k := IndexOf(s, sep);
      assert s == s[..k] + [sep] + s[k + 1..];
      assert multiset(s[..k])[sep] == 0;
      SplitCount(s[k + 1..], sep);
    } else {
      assert multiset(s)[sep] == 0;
    }
  }

  /** `s.endsWith(suffix)`: case-sensitive comparison of the last |suffix| characters. */
  predicate EndsWith(s: string, suffix: string) {
    |suffix| <= |s| && s[|s| - |suffix|..] == suffix
  }

  /** EndsWith holds exactly when `s` is some string followed by `suffix`. */
  lemma EndsWithIff(s: string, suffix: string)
    ensures EndsWith(s, suffix) <==> exists p: string :: s == p + suffix
  {
    if EndsWith(s, suffix) {
      var p := s[..|s| - |suffix|];
      assert s == p + suffix;
    }
    if exists p: string :: s == p + suffix {
      var p: string :| s == p + suffix;
      assert s[|s| - |suffix|..] == suffix;
    }
  }
}

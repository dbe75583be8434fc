/**
 * The handful of Python `str` operations the tool relies on, with Python's
 * semantics: `strip()`, `split(sep)`, `sep.join(parts)`, `startswith`,
 * the substring test `w in s` and (ASCII) `lower()`.
 */
module Strings {

  /** Characters that `str.strip()` without arguments removes (those for which `str.isspace()` holds). */
  predicate IsSpace(c: char) {
    || ('\U{9}' <= c <= '\U{d}')
    || ('\U{1c}' <= c <= '\U{20}')
    || c == '\U{85}' || c == '\U{a0}' || c == '\U{1680}'
    || ('\U{2000}' <= c <= '\U{200a}')
    || c == '\U{2028}' || c == '\U{2029}' || c == '\U{202f}' || c == '\U{205f}' || c == '\U{3000}'
  }

  /** A string with no whitespace at either end: what `strip()` produces. */
  predicate IsTrimmed(s: string) {
    s == [] || (!IsSpace(s[0]) && !IsSpace(s[|s| - 1]))
  }

  /** Python's `s.strip()`: drop whitespace from the front, then from the back. */
  function Strip(s: string): (r: string)
    ensures IsTrimmed(r)
    ensures |r| <= |s|
    decreases |s|
  {
    if s != [] && IsSpace(s[0]) then Strip(s[1..])
    else if s != [] && IsSpace(s[|s| - 1]) then Strip(s[..|s| - 1])
    else s
  }

  /** `s[i..j]` is what remains of `s` once only whitespace is cut from its two ends. */
  predicate CutsOnlySpace(s: string, i: int, j: int) {
    && 0 <= i <= j <= |s|
    && (forall k :: 0 <= k < i ==> IsSpace(s[k]))
    && (forall k :: j <= k < |s| ==> IsSpace(s[k]))
  }

  /**
   * `strip()` removes whitespace from the two ends and nothing else: the
   * result is a slice of `s`, and everything cut off before or after it is
   * whitespace.
   */
  lemma {:induction false} StripRemovesOnlySpace(s: string)
    ensures exists i, j :: CutsOnlySpace(s, i, j) && Strip(s) == s[i..j]
    decreases |s|, 1
  {
    if s != [] && IsSpace(s[0]) {
      StripFrontSpace(s);
    } else if s != [] && IsSpace(s[|s| - 1]) {
      StripBackSpace(s);
    } else {
      assert Strip(s) == s[0..|s|];
      assert CutsOnlySpace(s, 0, |s|);
    }
  }

  lemma {:induction false} StripFrontSpace(s: string)
    requires s != [] && IsSpace(s[0])
    ensures exists i, j :: CutsOnlySpace(s, i, j) && Strip(s) == s[i..j]
    decreases |s|, 0
  {
    var t := s[1..];
    assert Strip(s) == Strip(t);
    StripRemovesOnlySpace(t);
    var i, j :| CutsOnlySpace(t, i, j) && Strip(t) == t[i..j];
    assert t[i..j] == s[i + 1..j + 1];
    CutsOnlySpaceFront(s, i, j);
  }

  lemma {:induction false} StripBackSpace(s: string)
    requires s != [] && !IsSpace(s[0]) && IsSpace(s[|s| - 1])
    ensures exists i, j :: CutsOnlySpace(s, i, j) && Strip(s) == s[i..j]
    decreases |s|, 0
  {
    var t := s[..|s| - 1];
    assert Strip(s) == Strip(t);
    StripRemovesOnlySpace(t);
    var i, j :| CutsOnlySpace(t, i, j) && Strip(t) == t[i..j];
    assert t[i..j] == s[i..j];
    CutsOnlySpaceBack(s, i, j);
  }

  lemma CutsOnlySpaceFront(s: string, i: int, j: int)
    requires s != [] && IsSpace(s[0]) && CutsOnlySpace(s[1..], i, j)
    ensures CutsOnlySpace(s, i + 1, j + 1)
  {
    forall k | 0 < k < |s|
      ensures s[k] == s[1..][k - 1]
    {
    }
  }

  lemma CutsOnlySpaceBack(s: string, i: int, j: int)
    requires s != [] && IsSpace(s[|s| - 1]) && CutsOnlySpace(s[..|s| - 1], i, j)
    ensures CutsOnlySpace(s, i, j)
  {
    forall k | 0 <= k < |s| - 1
      ensures s[k] == s[..|s| - 1][k]
    {
    }
  }

  /** A string holding a non-whitespace character does not strip to nothing. */
  lemma {:induction false} StripKeepsNonSpace(s: string, i: nat)
    requires i < |s| && !IsSpace(s[i])
    ensures Strip(s) != ""
    decreases |s|
  {
    if IsSpace(s[0]) {
      StripKeepsNonSpace(s[1..], i - 1);
    } else if IsSpace(s[|s| - 1]) {
      StripKeepsNonSpace(s[..|s| - 1], i);
    }
  }

  /** Stripping changes nothing in a string that has no whitespace at its ends. */
  lemma StripTrimmed(s: string)
    requires IsTrimmed(s)
    ensures Strip(s) == s
  {
  }

  /** `strip()` is idempotent. */
  lemma StripIdempotent(s: string)
    ensures Strip(Strip(s)) == Strip(s)
  {
    StripTrimmed(Strip(s));
  }

  /** Python's `s.startswith(p)`. */
  predicate StartsWith(s: string, p: string) {
    |p| <= |s| && s[..|p|] == p
  }

  /** `w` occurs in `s` starting at position `i`. */
  predicate OccursAt(s: string, w: string, i: int) {
    0 <= i && i + |w| <= |s| && s[i..i + |w|] == w
  }

  /** Python's substring test `w in s`. */
  predicate Contains(s: string, w: string) {
    exists i | 0 <= i <= |s| - |w| :: OccursAt(s, w, i)
  }

  /** Appending characters that `w` never uses cannot create an occurrence of `w`. */
  lemma ContainsAppend(s: string, t: string, w: string)
    requires w != []
    requires forall k :: 0 <= k < |t| ==> t[k] !in w
    ensures Contains(s + t, w) <==> Contains(s, w)
  {
    if Contains(s + t, w) {
      var i :| 0 <= i <= |s + t| - |w| && OccursAt(s + t, w, i);
      var j := i + |w| - 1;
      assert (s + t)[j] == w[|w| - 1];
      assert j < |s|;
      assert (s + t)[i..i + |w|] == s[i..i + |w|];
      assert OccursAt(s, w, i);
    }
    if Contains(s, w) {
      var i :| 0 <= i <= |s| - |w| && OccursAt(s, w, i);
      assert (s + t)[i..i + |w|] == s[i..i + |w|];
      assert OccursAt(s + t, w, i);
    }
  }

  /** Python's `c.lower()` on one character; only ASCII letters are folded. */
  function LowerChar(c: char): char {
    if 'A' <= c <= 'Z' then (c as int + 32) as char else c
  }

  /** Python's `s.lower()`, restricted to ASCII letters. */
  function Lower(s: string): (r: string)
    ensures |r| == |s|
    ensures forall i :: 0 <= i < |s| ==> r[i] == LowerChar(s[i])
  {
    seq(|s|, i requires 0 <= i < |s| => LowerChar(s[i]))
  }

  /** Lower-casing twice is lower-casing once. */
  lemma LowerIdempotent(s: string)
    ensures Lower(Lower(s)) == Lower(s)
  {
  }

  /** Lower-casing distributes over concatenation. */
  lemma LowerAppend(s: string, t: string)
    ensures Lower(s + t) == Lower(s) + Lower(t)
  {
  }

  /** The position of the first `c` in `s`. */
  function IndexOf(s: string, c: char): (i: nat)
    requires c in s
    ensures i < |s| && s[i] == c && c !in s[..i]
  {
    if s[0] == c then 0 else 1 + IndexOf(s[1..], c)
  }

  /** Python's `s.split(sep)` for a one-character separator. */
  function Split(s: string, sep: char): (parts: seq<string>)
    ensures |parts| >= 1
    decreases |s|
  {
    if sep !in s then [s]
    else
      var i := IndexOf(s, sep);
      [s[..i]] + Split(s[i + 1..], sep)
  }

  /** The first field of a split is everything before the first separator. */
  lemma SplitHead(s: string, sep: char)
    ensures Split(s, sep)[0] == if sep in s then s[..IndexOf(s, sep)] else s
    ensures sep !in Split(s, sep)[0]
  {
  }

  /** Splitting a string that starts with a separator-free field peels that field off. */
  lemma {:induction false} SplitCons(x: string, sep: char, y: string)
    requires sep !in x
    ensures Split(x + [sep] + y, sep) == [x] + Split(y, sep)
  {
    var s := x + [sep] + y;
    assert s[|x|] == sep;
    assert s[..|x|] == x;
    assert IndexOf(s, sep) == |x|;
    assert s[|x| + 1..] == y;
  }

  /** A registry-style line of three separator-free fields splits back into them. */
  lemma SplitThree(a: string, b: string, c: string, sep: char)
    requires sep !in a && sep !in b && sep !in c
    ensures Split(a + [sep] + b + [sep] + c, sep) == [a, b, c]
  {
    var rest := b + [sep] + c;
    assert a + [sep] + b + [sep] + c == a + [sep] + rest;
    assert Split(rest, sep) == [b, c] by {
      SplitCons(b, sep, c);
      assert Split(c, sep) == [c];
    }
    SplitCons(a, sep, rest);
  }

  /** Python's `sep.join(parts)`. */
  function Join(sep: string, parts: seq<string>): string
    decreases |parts|
  {
    if |parts| == 0 then ""
    else if |parts| == 1 then parts[0]
    else parts[0] + sep + Join(sep, parts[1..])
  }

}

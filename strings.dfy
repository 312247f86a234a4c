/**
 * The Python `str` operations the dashboard relies on, over ASCII text:
 * whitespace and case are those of the ASCII range only.
 */
module Strings {

  /**
   * `c.isspace()` on the ASCII range: the space, tab, line feed, vertical tab,
   * form feed and carriage return, and the four separators U+001C..U+001F.
   */
  predicate IsSpace(c: char) {
    c == ' ' || c == '\t' || c == '\n' || c == '\r' || c == '\U{000B}' || c == '\U{000C}' ||
    '\U{001C}' <= c <= '\U{001F}'
  }

  /** `s.lstrip(chars)` for a set of characters given as a predicate. */
  function LStripBy(s: string, drop: char -> bool): (r: string)
    ensures |r| <= |s| && r == s[|s| - |r|..]
    ensures |r| > 0 ==> !drop(r[0])
    ensures forall i :: 0 <= i < |s| - |r| ==> drop(s[i])
  {
    if |s| > 0 && drop(s[0]) then
      var r := LStripBy(s[1..], drop);
      assert forall i :: 1 <= i < |s| ==> s[i] == s[1..][i - 1];
      r
    else s
  }

  /** `s.rstrip(chars)` for a set of characters given as a predicate. */
  function RStripBy(s: string, drop: char -> bool): (r: string)
    ensures |r| <= |s| && r == s[..|r|]
    ensures |r| > 0 ==> !drop(r[|r| - 1])
    ensures forall i :: |r| <= i < |s| ==> drop(s[i])
  {
    if |s| > 0 && drop(s[|s| - 1]) then
      var r := RStripBy(s[..|s| - 1], drop);
      assert forall i :: 0 <= i < |s| - 1 ==> s[i] == s[..|s| - 1][i];
      r
    else s
  }

  /**
   * `s.strip()`: the part of `s` between a leading and a trailing run of
   * whitespace (`StripIsInner`), itself neither starting nor ending with
   * whitespace.
   */
  function Strip(s: string): (r: string)
    ensures |r| <= |s|
    ensures |r| > 0 ==> !IsSpace(r[0]) && !IsSpace(r[|r| - 1])
    ensures r == "" <==> forall i :: 0 <= i < |s| ==> IsSpace(s[i])
  {
    var l := LStripBy(s, IsSpace);
    var r := RStripBy(l, IsSpace);
    assert |r| > 0 ==> r[0] == l[0];
    assert r == "" ==> forall i :: 0 <= i < |s| ==> IsSpace(s[i]) by {
      if r == "" {
        assert l == "";
      }
    }
    assert (forall i :: 0 <= i < |s| ==> IsSpace(s[i])) ==> r == "" by {
      if r != "" {
        assert r[0] == s[|s| - |l|];
      }
    }
    r
  }

  /** The stripped text is the part of `s` left between a leading and a trailing run of whitespace. */
  lemma StripIsInner(s: string)
    ensures exists i :: StrippedAt(s, Strip(s), i)
  {
    var l := LStripBy(s, IsSpace);
    assert StrippedAt(s, Strip(s), |s| - |l|);
  }

  /** `r` sits in `s` at index `i` with only whitespace before and after it. */
  predicate StrippedAt(s: string, r: string, i: int) {
    0 <= i <= |s| - |r| && r == s[i..i + |r|] &&
    (forall k :: 0 <= k < i ==> IsSpace(s[k])) &&
    (forall k :: i + |r| <= k < |s| ==> IsSpace(s[k]))
  }

  /** A text without whitespace strips to itself. */
  lemma StripNoSpace(s: string)
    requires forall i :: 0 <= i < |s| ==> !IsSpace(s[i])
    ensures LStripBy(s, IsSpace) == s && RStripBy(s, IsSpace) == s && Strip(s) == s
  {
  }

  /** One whitespace character before a text without whitespace is stripped away. */
  lemma StripLeadingSpace(c: char, s: string)
    requires IsSpace(c)
    requires forall i :: 0 <= i < |s| ==> !IsSpace(s[i])
    ensures Strip([c] + s) == s
  {
    assert ([c] + s)[1..] == s;
    StripNoSpace(s);
    assert LStripBy([c] + s, IsSpace) == s;
  }

  /** A text whose first character is kept lstrips to itself. */
  lemma LStripKeeps(s: string, drop: char -> bool)
    requires |s| > 0 && !drop(s[0])
    ensures LStripBy(s, drop) == s
  {
  }

  /** One dropped character before a kept one is all that lstrip removes. */
  lemma LStripOne(s: string, drop: char -> bool)
    requires |s| >= 2 && drop(s[0]) && !drop(s[1])
    ensures LStripBy(s, drop) == s[1..]
  {
    var r := LStripBy(s, drop);
    assert |r| > 0;
    assert r[0] == s[|s| - |r|];
  }

  /** A text whose last character is kept rstrips to itself. */
  lemma RStripKeeps(s: string, drop: char -> bool)
    requires |s| > 0 && !drop(s[|s| - 1])
    ensures RStripBy(s, drop) == s
  {
  }

  /** One dropped character after a kept one is all that rstrip removes. */
  lemma RStripOne(s: string, drop: char -> bool)
    requires |s| >= 2 && drop(s[|s| - 1]) && !drop(s[|s| - 2])
    ensures RStripBy(s, drop) == s[..|s| - 1]
  {
    var r := RStripBy(s, drop);
    assert |r| > 0;
    assert r[|r| - 1] == s[|r| - 1];
  }

  /** A text with both ends kept strips to itself. */
  lemma StripByKeeps(s: string, drop: char -> bool)
    requires |s| > 0 && !drop(s[0]) && !drop(s[|s| - 1])
    ensures RStripBy(LStripBy(s, drop), drop) == s
  {
    LStripKeeps(s, drop);
    RStripKeeps(s, drop);
  }

  /** A text wrapped in one pair of dropped characters strips to its inside. */
  lemma StripByPair(s: string, drop: char -> bool)
    requires |s| >= 2 && drop(s[0]) && drop(s[|s| - 1])
    requires forall i :: 0 < i < |s| - 1 ==> !drop(s[i])
    ensures RStripBy(LStripBy(s, drop), drop) == s[1..|s| - 1]
  {
    var l := LStripBy(s, drop);
    if |s| > 2 {
      LStripOne(s, drop);
      assert l == s[1..];
      RStripOne(l, drop);
      assert l[..|l| - 1] == s[1..|s| - 1];
    }
  }

  /** `x == c` as a predicate on characters. */
  function IsChar(c: char): char -> bool {
    (x: char) => x == c
  }

  /** `s.strip(c)` for a single character `c`. */
  function StripChar(s: string, c: char): (r: string)
    ensures |r| <= |s|
    ensures |r| > 0 ==> r[0] != c && r[|r| - 1] != c
  {
    var l := LStripBy(s, IsChar(c));
    var r := RStripBy(l, IsChar(c));
    assert |r| > 0 ==> r[0] == l[0];
    r
  }

  /** A text that neither starts nor ends with `c` is unchanged by `strip(c)`. */
  lemma StripCharKeeps(s: string, c: char)
    requires |s| > 0 && s[0] != c && s[|s| - 1] != c
    ensures StripChar(s, c) == s
  {
    StripByKeeps(s, IsChar(c));
  }

  /** A text wrapped in a single pair of `c` loses exactly that pair. */
  lemma StripCharPair(s: string, c: char)
    requires |s| >= 2 && s[0] == c && s[|s| - 1] == c
    requires forall i :: 0 < i < |s| - 1 ==> s[i] != c
    ensures StripChar(s, c) == s[1..|s| - 1]
  {
    assert forall i :: 0 < i < |s| - 1 ==> !IsChar(c)(s[i]);
    StripByPair(s, IsChar(c));
  }

  /** `c.lower()` on the ASCII range. */
  function LowerChar(c: char): char {
    if 'A' <= c <= 'Z' then (c as int - 'A' as int + 'a' as int) as char else c
  }

  /** `c.upper()` on the ASCII range. */
  function UpperChar(c: char): char {
    if 'a' <= c <= 'z' then (c as int - 'a' as int + 'A' as int) as char else c
  }

  predicate IsLetter(c: char) {
    ('a' <= c <= 'z') || ('A' <= c <= 'Z')
  }

  /** `s.lower()`. */
  function Lower(s: string): (r: string)
    ensures |r| == |s|
    ensures forall i :: 0 <= i < |s| ==> r[i] == LowerChar(s[i])
  {
    if |s| == 0 then "" else Lower(s[..|s| - 1]) + [LowerChar(s[|s| - 1])]
  }

  /** A text without upper-case letters is its own lower case. */
  lemma LowerNoUpper(s: string)
    requires forall i :: 0 <= i < |s| ==> !('A' <= s[i] <= 'Z')
    ensures Lower(s) == s
  {
  }

  predicate StartsWith(s: string, prefix: string) {
    |prefix| <= |s| && s[..|prefix|] == prefix
  }

  /** `needle in s`. */
  predicate Contains(s: string, needle: string) {
    exists i :: 0 <= i <= |s| && StartsWith(s[i..], needle)
  }

  /** Case-insensitive prefix test: `t.lower().startswith(p.lower())`. */
  predicate IPrefix(p: string, t: string) {
    |p| <= |t| && Lower(t[..|p|]) == Lower(p)
  }

  /** Case-insensitive containment: `p.lower() in t.lower()`. */
  predicate IContains(p: string, t: string) {
    exists i :: 0 <= i <= |t| && IPrefix(p, t[i..])
  }

  /** `sep.join(parts)`. */
  function Join(parts: seq<string>, sep: string): string {
    if |parts| == 0 then ""
    else if |parts| == 1 then parts[0]
    else parts[0] + sep + Join(parts[1..], sep)
  }

  /** `s.split(c)` for a one-character separator: never empty, `[""]` for `""`. */
  function Split(s: string, c: char): (r: seq<string>)
    ensures |r| >= 1
    ensures forall i :: 0 <= i < |r| ==> c !in r[i]
  {
    if |s| == 0 then [""]
    else if s[0] == c then [""] + Split(s[1..], c)
    else
      var t := Split(s[1..], c);
      [[s[0]] + t[0]] + t[1..]
  }

  /** Joining the pieces with the separator gives back the text. */
  lemma {:induction false} JoinSplit(s: string, c: char)
    ensures Join(Split(s, c), [c]) == s
  {
    if |s| > 0 {
      JoinSplit(s[1..], c);
      var t := Split(s[1..], c);
      if s[0] == c {
        assert Split(s, c)[1..] == t;
      } else {
        var r := Split(s, c);
        assert r[1..] == t[1..];
        if |t| > 1 {
          assert t[1..][1..] == t[2..];
          assert Join(t, [c]) == t[0] + [c] + Join(t[1..], [c]);
        }
      }
    }
  }

  /** The text up to the first separator is the first piece. */
  lemma {:induction false} SplitFirst(a: string, b: string, c: char)
    requires c !in a
    requires |b| == 0 || b[0] == c
    ensures Split(a + b, c)[0] == a
  {
    if |a| == 0 {
      assert a + b == b;
    } else {
      assert (a + b)[1..] == a[1..] + b;
      SplitFirst(a[1..], b, c);
      assert a == [a[0]] + a[1..];
    }
  }

  /** `s.replace(from, to)` for a one-character `from`. */
  function ReplaceChar(s: string, from: char, to: string): (r: string)
    ensures from !in s ==> r == s
  {
    if |s| == 0 then ""
    else ReplaceChar(s[..|s| - 1], from, to) + (if s[|s| - 1] == from then to else [s[|s| - 1]])
  }

  lemma {:induction false} ReplaceCharAppend(a: string, b: string, from: char, to: string)
    ensures ReplaceChar(a + b, from, to) == ReplaceChar(a, from, to) + ReplaceChar(b, from, to)
    decreases |b|
  {
    if |b| == 0 {
      assert a + b == a;
    } else {
      var b' := b[..|b| - 1];
      var c := b[|b| - 1];
      assert (a + b)[..|a + b| - 1] == a + b';
      assert (a + b)[|a + b| - 1] == c;
      ReplaceCharAppend(a, b', from, to);
      var last := if c == from then to else [c];
      var ra, rb' := ReplaceChar(a, from, to), ReplaceChar(b', from, to);
      assert ReplaceChar(a + b, from, to) == ra + rb' + last;
      assert ReplaceChar(b, from, to) == rb' + last;
      assert ra + rb' + last == ra + (rb' + last);
    }
  }

  /** The decimal digit of `d`. */
  function Digit(d: int): char
    requires 0 <= d < 10
  {
    "0123456789"[d]
  }

  /** `str(n)` for a non-negative integer. */
  function NatToString(n: nat): (r: string)
    ensures |r| > 0
  {
    if n < 10 then [Digit(n)] else NatToString(n / 10) + [Digit(n % 10)]
  }

  /** `str(n)` for an integer. */
  function IntToString(n: int): (r: string)
    ensures |r| > 0
  {
    if n < 0 then "-" + NatToString(-n) else NatToString(n)
  }

  /** Python's lexicographic `a < b` on strings (code-point order). */
  predicate StrLt(a: string, b: string) {
    if |a| == 0 then |b| > 0
    else if |b| == 0 then false
    else if a[0] != b[0] then a[0] < b[0]
    else StrLt(a[1..], b[1..])
  }

  /** `a <= b` on strings. */
  predicate StrLe(a: string, b: string) {
    a == b || StrLt(a, b)
  }

  lemma {:induction false} StrLtIrreflexive(a: string)
    ensures !StrLt(a, a)
  {
    if |a| > 0 {
      StrLtIrreflexive(a[1..]);
    }
  }

  lemma {:induction false} StrLtTransitive(a: string, b: string, c: string)
    requires StrLt(a, b) && StrLt(b, c)
    ensures StrLt(a, c)
  {
    if |a| > 0 && |b| > 0 && |c| > 0 && a[0] == b[0] && b[0] == c[0] {
      StrLtTransitive(a[1..], b[1..], c[1..]);
    }
  }

  lemma {:induction false} StrLtTotal(a: string, b: string)
    ensures a == b || StrLt(a, b) || StrLt(b, a)
  {
    if |a| > 0 && |b| > 0 && a[0] == b[0] {
      StrLtTotal(a[1..], b[1..]);
      if a[1..] == b[1..] {
        assert a == [a[0]] + a[1..] && b == [b[0]] + b[1..];
      }
    }
  }

  lemma StrLtAsymmetric(a: string, b: string)
    requires StrLt(a, b)
    ensures !StrLt(b, a)
  {
    if StrLt(b, a) {
      StrLtTransitive(a, b, a);
      StrLtIrreflexive(a);
    }
  }

  /** Python's slice index normalisation for `s[:n]` / `s[n:]`: clamp into `[0, len]`. */
  function SliceIndex(n: int, len: nat): (r: nat)
    ensures r <= len
    ensures 0 <= n <= len ==> r == n
  {
    if n < 0 then (if n + len < 0 then 0 else n + len)
    else if n > len then len
    else n
  }

  /** `s[:n]`. */
  function Prefix<T>(s: seq<T>, n: int): (r: seq<T>)
    ensures |r| <= |s|
    ensures r == s[..SliceIndex(n, |s|)]
  {
    s[..SliceIndex(n, |s|)]
  }

  /** `s[a:b]` with Python's clamping of both bounds. */
  function PySlice<T>(s: seq<T>, a: int, b: int): (r: seq<T>)
    ensures |r| <= |s|
    ensures 0 <= a <= b <= |s| ==> r == s[a..b]
  {
    var i := SliceIndex(a, |s|);
    var j := SliceIndex(b, |s|);
    if i <= j then s[i..j] else []
  }

  /** Strictly ascending in Python's string order. */
  predicate StrictlyAscending(s: seq<string>) {
    forall i, j :: 0 <= i < j < |s| ==> StrLt(s[i], s[j])
  }

  /** Insert `x` into a strictly ascending list that does not hold it yet. */
  function InsertStr(t: seq<string>, x: string): (r: seq<string>)
    requires StrictlyAscending(t) && x !in t
    ensures StrictlyAscending(r)
    ensures forall y :: y in r <==> y in t || y == x
    ensures |r| == |t| + 1
  {
    if |t| == 0 then [x]
    else if StrLt(x, t[0]) then
      assert forall k :: 0 <= k < |t| ==> StrLt(x, t[k]) by {
        forall k | 0 < k < |t| ensures StrLt(x, t[k]) {
          StrLtTransitive(x, t[0], t[k]);
        }
      }
      [x] + t
    else
      StrLtTotal(x, t[0]);
      var rest := InsertStr(t[1..], x);
      assert forall y :: y in t <==> y == t[0] || y in t[1..] by {
        assert t == [t[0]] + t[1..];
      }
      assert forall k :: 0 <= k < |rest| ==> StrLt(t[0], rest[k]) by {
        forall k | 0 <= k < |rest| ensures StrLt(t[0], rest[k]) {
          assert rest[k] in rest;
          if rest[k] != x {
            var m :| 0 <= m < |t[1..]| && t[1..][m] == rest[k];
            assert t[m + 1] == rest[k];
          }
        }
      }
      [t[0]] + rest
  }

  /** `sorted(set(s))` for strings: the distinct elements in ascending order. */
  function SortedSet(s: seq<string>): (r: seq<string>)
    ensures StrictlyAscending(r)
    ensures forall y :: y in r <==> y in s
    ensures |r| <= |s|
  {
    if |s| == 0 then []
    else
      var t := SortedSet(s[..|s| - 1]);
      assert forall y :: y in s <==> y in s[..|s| - 1] || y == s[|s| - 1] by {
        assert s == s[..|s| - 1] + [s[|s| - 1]];
      }
      if s[|s| - 1] in t then t else InsertStr(t, s[|s| - 1])
  }
}

/** String facts the backend relies on: Unicode whitespace as Rust's
    `char::is_whitespace` sees it, UTF-8 byte lengths (Rust's `str::len`),
    trimming, prefixes and suffixes, joining, case mapping and the byte-wise
    order of `String`. Strings are sequences of Unicode scalar values. */
module Text {

  /** `char::is_whitespace`: the Unicode White_Space property. */
  predicate IsWhitespace(c: char) {
    var n := c as int;
    (0x09 <= n <= 0x0D) || n == 0x20 || n == 0x85 || n == 0xA0 || n == 0x1680
    || (0x2000 <= n <= 0x200A) || n == 0x2028 || n == 0x2029 || n == 0x202F
    || n == 0x205F || n == 0x3000
  }

  /** Number of bytes UTF-8 spends on `c`. */
  function Utf8Width(c: char): (w: nat)
    ensures 1 <= w <= 4
  {
    var n := c as int;
    if n < 0x80 then 1 else if n < 0x800 then 2 else if n < 0x1_0000 then 3 else 4
  }

  /** `str::len`: the UTF-8 byte length of `s`. */
  function Utf8Len(s: string): (n: nat)
    ensures |s| <= n <= 4 * |s|
  {
    if s == [] then 0 else Utf8Width(s[0]) + Utf8Len(s[1..])
  }

  lemma {:induction false} Utf8LenAppend(a: string, b: string)
    ensures Utf8Len(a + b) == Utf8Len(a) + Utf8Len(b)
    decreases |a|
  {
    if a != [] {
      assert (a + b)[0] == a[0] && (a + b)[1..] == a[1..] + b;
      Utf8LenAppend(a[1..], b);
    } else {
      assert a + b == b;
    }
  }

  /** The concatenation of a sequence of sequences (of strings, of pieces). */
  function Concat<T>(ss: seq<seq<T>>): seq<T> {
    if ss == [] then [] else ss[0] + Concat(ss[1..])
  }

  lemma {:induction false} ConcatAppend<T>(a: seq<seq<T>>, b: seq<seq<T>>)
    ensures Concat(a + b) == Concat(a) + Concat(b)
    decreases |a|
  {
    if a != [] {
      assert (a + b)[0] == a[0] && (a + b)[1..] == a[1..] + b;
      ConcatAppend(a[1..], b);
    } else {
      assert a + b == b;
    }
  }

  lemma ConcatOne<T>(s: seq<T>)
    ensures Concat([s]) == s
  {
    assert [s][1..] == [];
  }

  /** Element i of `ss` sits in `Concat(ss)` right after the elements before it. */
  lemma {:induction false} ConcatSlice<T>(ss: seq<seq<T>>, i: nat)
    requires i < |ss|
    ensures |Concat(ss[..i])| + |ss[i]| <= |Concat(ss)|
    ensures Concat(ss)[|Concat(ss[..i])|..|Concat(ss[..i])| + |ss[i]|] == ss[i]
  {
    assert ss == ss[..i] + ([ss[i]] + ss[i + 1..]);
    ConcatAppend(ss[..i], [ss[i]] + ss[i + 1..]);
    ConcatAppend([ss[i]], ss[i + 1..]);
    ConcatOne(ss[i]);
  }

  predicate StartsWith(s: string, p: string) {
    |p| <= |s| && s[..|p|] == p
  }

  predicate EndsWith(s: string, p: string) {
    |p| <= |s| && s[|s| - |p|..] == p
  }

  /** `str::trim_start`: drops leading whitespace. */
  function TrimStart(s: string): (r: string)
    ensures |r| <= |s| && r == s[|s| - |r|..]
    ensures r == [] || !IsWhitespace(r[0])
    ensures forall i :: 0 <= i < |s| - |r| ==> IsWhitespace(s[i])
  {
    if s != [] && IsWhitespace(s[0]) then TrimStart(s[1..]) else s
  }

  /** `str::trim_end`: drops trailing whitespace. */
  function TrimEnd(s: string): (r: string)
    ensures |r| <= |s| && r == s[..|r|]
    ensures r == [] || !IsWhitespace(r[|r| - 1])
    ensures forall i :: |r| <= i < |s| ==> IsWhitespace(s[i])
  {
    if s != [] && IsWhitespace(s[|s| - 1]) then TrimEnd(s[..|s| - 1]) else s
  }

  lemma SuffixOfSuffix<T>(t: seq<T>, a: seq<T>, b: seq<T>)
    requires |a| <= |t| && a == t[|t| - |a|..]
    requires |b| <= |a| && b == a[|a| - |b|..]
    ensures b == t[|t| - |b|..]
  {
  }

  lemma PrefixOfSuffix<T>(t: seq<T>, b: seq<T>, r: seq<T>)
    requires |b| <= |t| && b == t[|t| - |b|..]
    requires |r| <= |b| && r == b[..|r|]
    ensures r == t[|t| - |b|..|t| - |b| + |r|]
  {
  }

  /** The positions of a suffix `t` of `s`, read in `s`. */
  lemma SuffixElements<T>(s: seq<T>, t: seq<T>)
    requires |t| <= |s| && t == s[|s| - |t|..]
    ensures forall m :: |s| - |t| <= m < |s| ==> s[m] == t[m - (|s| - |t|)]
  {
  }

  /** Cutting leading whitespace and then trailing whitespace leaves a
      piece of `s` with only whitespace on either side of it, and none at
      either end of it. */
  lemma TrimWitness(s: string, t: string, r: string)
    requires |t| <= |s| && t == s[|s| - |t|..]
    requires forall m :: 0 <= m < |s| - |t| ==> IsWhitespace(s[m])
    requires |r| <= |t| && r == t[..|r|]
    requires forall m :: |r| <= m < |t| ==> IsWhitespace(t[m])
    requires t == [] || !IsWhitespace(t[0])
    requires r == [] || !IsWhitespace(r[|r| - 1])
    ensures r == [] || (!IsWhitespace(r[0]) && !IsWhitespace(r[|r| - 1]))
    ensures exists i, j ::
              && 0 <= i <= j <= |s| && r == s[i..j]
              && (forall m :: 0 <= m < i ==> IsWhitespace(s[m]))
              && (forall m :: j <= m < |s| ==> IsWhitespace(s[m]))
  {
    assert r == [] || r[0] == t[0];
    var i, j := |s| - |t|, |s| - |t| + |r|;
    PrefixOfSuffix(s, t, r);
    SuffixElements(s, t);
    assert forall m :: j <= m < |s| ==> IsWhitespace(s[m]) by {
      forall m | j <= m < |s| ensures IsWhitespace(s[m]) {
        assert s[m] == t[m - i];
      }
    }
  }

  /** `str::trim`: a contiguous piece of `s` that neither starts nor ends
      with whitespace, and only whitespace was cut away around it. */
  function Trim(s: string): (r: string)
    ensures exists i, j ::
              && 0 <= i <= j <= |s| && r == s[i..j]
              && (forall m :: 0 <= m < i ==> IsWhitespace(s[m]))
              && (forall m :: j <= m < |s| ==> IsWhitespace(s[m]))
    ensures r == [] || (!IsWhitespace(r[0]) && !IsWhitespace(r[|r| - 1]))
  {
    var t := TrimStart(s);
    var r := TrimEnd(t);
    TrimWitness(s, t, r);
    r
  }

  /** `[String]::join(sep)`. */
  function Join(xs: seq<string>, sep: string): string {
    if xs == [] then []
    else if |xs| == 1 then xs[0]
    else xs[0] + sep + Join(xs[1..], sep)
  }

  /** ASCII lower-casing of one character. */
  function LowerChar(c: char): char {
    if 'A' <= c <= 'Z' then (c as int + 32) as char else c
  }

  function ToLower(s: string): (r: string)
    ensures |r| == |s|
    ensures forall i :: 0 <= i < |s| ==> r[i] == LowerChar(s[i])
  {
    seq(|s|, i requires 0 <= i < |s| => LowerChar(s[i]))
  }

  /** `char::to_uppercase` on ASCII and Latin-1 letters; every other
      character maps to itself. */
  function UpperOf(c: char): string {
    var n := c as int;
    if 0x61 <= n <= 0x7A then [(n - 0x20) as char]
    else if n == 0xB5 then [0x039C as char]
    else if n == 0xDF then "SS"
    else if 0xE0 <= n <= 0xFE && n != 0xF7 then [(n - 0x20) as char]
    else if n == 0xFF then [0x0178 as char]
    else [c]
  }

  /** `str::to_uppercase`. */
  function ToUpper(s: string): string {
    if s == [] then [] else UpperOf(s[0]) + ToUpper(s[1..])
  }

  predicate IsAsciiLower(c: char) {
    'a' <= c <= 'z'
  }

  /** The byte-wise order of Rust's `String`, which for UTF-8 coincides with
      the lexicographic order of code points. */
  predicate StrLe(a: string, b: string) {
    if a == [] then true
    else if b == [] then false
    else if a[0] != b[0] then a[0] < b[0]
    else StrLe(a[1..], b[1..])
  }

  lemma StrLeTotal(a: string, b: string)
    ensures StrLe(a, b) || StrLe(b, a)
  {
  }

  lemma StrLeAntisymmetric(a: string, b: string)
    requires StrLe(a, b) && StrLe(b, a)
    ensures a == b
  {
    if a != [] && b != [] {
      StrLeAntisymmetric(a[1..], b[1..]);
      assert a == [a[0]] + a[1..] && b == [b[0]] + b[1..];
    }
  }

  lemma StrLeTransitive(a: string, b: string, c: string)
    requires StrLe(a, b) && StrLe(b, c)
    ensures StrLe(a, c)
  {
    if a != [] && b != [] && c != [] && a[0] == b[0] == c[0] {
      StrLeTransitive(a[1..], b[1..], c[1..]);
    }
  }
}

/**
 * The Python string operations the vocabulary tools rely on, over `seq<char>`:
 * `str.strip`, `str.lower`, `str.title`, `str.split` on a one-character
 * separator, `sep.join`, `str.replace`, the `in` operator on strings, and the
 * conversions `str(n)` and `int(s)` for decimal integers.
 */
module Text {
  import opened Wrappers

  /** Python's `str.isspace()` for one character. */
  predicate IsSpace(c: char) {
    var n := c as int;
    (9 <= n <= 13) || (28 <= n <= 32) || n == 0x85 || n == 0xA0 || n == 0x1680 ||
    (0x2000 <= n <= 0x200A) || n == 0x2028 || n == 0x2029 || n == 0x202F ||
    n == 0x205F || n == 0x3000
  }

  predicate AllSpace(s: string) {
    forall k :: 0 <= k < |s| ==> IsSpace(s[k])
  }

  function StripRight(s: string): (r: string)
    ensures |r| <= |s| && r == s[..|r|]
    ensures r == [] || !IsSpace(r[|r| - 1])
    ensures AllSpace(s[|r|..])
  {
    if s != [] && IsSpace(s[|s| - 1]) then
      var r := StripRight(s[..|s| - 1]);
      assert s[|r|..] == s[..|s| - 1][|r|..] + [s[|s| - 1]];
      r
    else s
  }

  /** `r` is the slice of `s` at `i` with nothing but whitespace on either side of it. */
  predicate StrippedAt(s: string, r: string, i: nat) {
    i + |r| <= |s| && r == s[i..i + |r|] && AllSpace(s[..i]) && AllSpace(s[i + |r|..])
  }

  /** Python's `s.strip()`: the longest slice of `s` that neither starts nor ends with whitespace. */
  function Strip(s: string): (r: string)
    ensures r == [] || (!IsSpace(r[0]) && !IsSpace(r[|r| - 1]))
    ensures |r| <= |s|
    ensures r == [] <==> AllSpace(s)
  {
    if s != [] && IsSpace(s[0]) then Strip(s[1..])
    else
      var r := StripRight(s);
      assert r == [] ==> s[|r|..] == s;
      r
  }

  /** What `strip` returns is a slice of the text with only whitespace cut off either side. */
  lemma {:induction false} StripIsSlice(s: string)
    ensures exists i: nat :: StrippedAt(s, Strip(s), i)
  {
    var r := Strip(s);
    if s != [] && IsSpace(s[0]) {
      StripIsSlice(s[1..]);
      var j: nat :| StrippedAt(s[1..], r, j);
      StrippedAtShift(s, r, j);
    } else {
      assert r == StripRight(s);
      assert s[..0] == [];
      assert StrippedAt(s, r, 0);
    }
  }

  lemma StrippedAtShift(s: string, r: string, j: nat)
    requires s != [] && IsSpace(s[0]) && StrippedAt(s[1..], r, j)
    ensures StrippedAt(s, r, j + 1)
  {
    var t := s[1..];
    assert t[j..j + |r|] == s[j + 1..j + 1 + |r|];
    assert t[j + |r|..] == s[j + 1 + |r|..];
    var pre := s[..j + 1];
    forall k | 0 <= k < |pre| ensures IsSpace(pre[k]) {
      if k > 0 {
        assert pre[k] == t[..j][k - 1];
      }
    }
  }

  /** Stripping a stripped text changes nothing. */
  lemma StripIdempotent(s: string)
    ensures Strip(Strip(s)) == Strip(s)
  {
    var r := Strip(s);
    if r != [] {
      StripUnpadded(r);
    }
  }

  /** Whitespace appended at the end is removed by stripping from the right. */
  lemma {:induction false} StripRightAppendSpace(y: string, z: string)
    requires AllSpace(z)
    ensures StripRight(y + z) == StripRight(y)
    decreases |z|
  {
    if z == [] {
      assert y + z == y;
    } else {
      var yz := y + z;
      assert IsSpace(yz[|yz| - 1]);
      assert yz[..|yz| - 1] == y + z[..|z| - 1];
      StripRightAppendSpace(y, z[..|z| - 1]);
    }
  }

  /** Whitespace appended at the end makes no difference to `strip`. */
  lemma {:induction false} StripAppendSpace(y: string, z: string)
    requires AllSpace(z)
    ensures Strip(y + z) == Strip(y)
  {
    if y == [] {
      assert y + z == z;
    } else if IsSpace(y[0]) {
      assert (y + z)[1..] == y[1..] + z;
      StripAppendSpace(y[1..], z);
    } else {
      StripRightAppendSpace(y, z);
    }
  }

  function LowerChar(c: char): char {
    if 'A' <= c <= 'Z' then (c as int + 32) as char else c
  }

  function UpperChar(c: char): char {
    if 'a' <= c <= 'z' then (c as int - 32) as char else c
  }

  predicate IsCased(c: char) {
    ('A' <= c <= 'Z') || ('a' <= c <= 'z')
  }

  /** Python's `s.lower()` on ASCII letters; every other character is kept. */
  function Lower(s: string): (r: string)
    ensures |r| == |s|
    ensures forall k :: 0 <= k < |s| ==> r[k] == LowerChar(s[k])
  {
    if s == [] then [] else [LowerChar(s[0])] + Lower(s[1..])
  }

  /** Lower-casing twice is lower-casing once. */
  lemma LowerIdempotent(s: string)
    ensures Lower(Lower(s)) == Lower(s)
  {
    forall k | 0 <= k < |s| ensures Lower(Lower(s))[k] == Lower(s)[k] {
      assert LowerChar(LowerChar(s[k])) == LowerChar(s[k]);
    }
  }

  /** Text without upper-case letters is its own lower-case form. */
  lemma LowerOfLowerCase(s: string)
    requires forall k :: 0 <= k < |s| ==> !('A' <= s[k] <= 'Z')
    ensures Lower(s) == s
  {
  }

  /** Lower-casing a slice is slicing the lower-cased text. */
  lemma {:induction false} LowerSlice(s: string, i: nat, j: nat)
    requires i <= j <= |s|
    ensures Lower(s[i..j]) == Lower(s)[i..j]
  {
    var a, b := Lower(s[i..j]), Lower(s)[i..j];
    assert |a| == |b|;
    forall k | 0 <= k < |a| ensures a[k] == b[k] {
      assert s[i..j][k] == s[i + k];
    }
  }

  /** Stripping from the right and lower-casing can be done in either order. */
  lemma {:induction false} StripRightLower(s: string)
    ensures StripRight(Lower(s)) == Lower(StripRight(s))
  {
    if s != [] {
      var l := Lower(s);
      assert IsSpace(l[|s| - 1]) == IsSpace(s[|s| - 1]);
      if IsSpace(s[|s| - 1]) {
        LowerSlice(s, 0, |s| - 1);
        assert l[..|s| - 1] == Lower(s[..|s| - 1]);
        StripRightLower(s[..|s| - 1]);
      }
    }
  }

  /** Stripping and lower-casing can be done in either order. */
  lemma {:induction false} StripLower(s: string)
    ensures Strip(Lower(s)) == Lower(Strip(s))
  {
    if s != [] {
      var l := Lower(s);
      assert IsSpace(l[0]) == IsSpace(s[0]);
      if IsSpace(s[0]) {
        LowerSlice(s, 1, |s|);
        assert l[1..] == Lower(s[1..]);
        StripLower(s[1..]);
      } else {
        StripRightLower(s);
      }
    }
  }

  /** Lower-casing goes character by character, so it distributes over concatenation. */
  lemma LowerAppend(a: string, b: string)
    ensures Lower(a + b) == Lower(a) + Lower(b)
  {
    var l := Lower(a + b);
    forall k | 0 <= k < |a + b| ensures l[k] == (Lower(a) + Lower(b))[k] {
      if k < |a| {
        assert (a + b)[k] == a[k];
      } else {
        assert (a + b)[k] == b[k - |a|];
      }
    }
  }

  /** A separator that lower-casing keeps stays between the lower-cased parts. */
  lemma LowerAround(a: string, sep: string, b: string)
    requires Lower(sep) == sep
    ensures Lower(a + sep + b) == Lower(a) + sep + Lower(b)
  {
    LowerAppend(a + sep, b);
    LowerAppend(a, sep);
  }

  /**
   * Python's `s.title()` on ASCII letters: a cased character that follows a cased
   * character is lower-cased, any other cased character is upper-cased.
   */
  function Title(s: string): (r: string)
    ensures |r| == |s|
  {
    TitleAfter(s, false)
  }

  function TitleAfter(s: string, previousCased: bool): (r: string)
    ensures |r| == |s|
    ensures forall k :: 0 <= k < |s| ==> IsCased(r[k]) == IsCased(s[k])
    ensures forall k :: 0 < k < |s| ==>
              r[k] == (if IsCased(s[k - 1]) then LowerChar(s[k]) else UpperChar(s[k]))
    ensures s != [] ==> r[0] == (if previousCased then LowerChar(s[0]) else UpperChar(s[0]))
    ensures forall k :: 0 <= k < |s| && !IsCased(s[k]) ==> r[k] == s[k]
  {
    if s == [] then []
    else
      var c := if !IsCased(s[0]) then s[0] else if previousCased then LowerChar(s[0]) else UpperChar(s[0]);
      var rest := TitleAfter(s[1..], IsCased(s[0]));
      [c] + rest
  }

  /** Python's `sep.join(xs)`. */
  function Join(sep: string, xs: seq<string>): string {
    if |xs| == 0 then "" else if |xs| == 1 then xs[0] else xs[0] + sep + Join(sep, xs[1..])
  }

  /** Python's `s.split(c)` for a one-character separator `c`. */
  function Split(s: string, c: char): (r: seq<string>)
    ensures |r| >= 1
    ensures forall k :: 0 <= k < |r| ==> c !in r[k]
    ensures |r[0]| <= |s| && r[0] == s[..|r[0]|] && (|r[0]| < |s| ==> s[|r[0]|] == c)
  {
    if s == [] then [""]
    else if s[0] == c then [""] + Split(s[1..], c)
    else
      var rest := Split(s[1..], c);
      assert [s[0]] + rest[0] == s[..1 + |rest[0]|];
      [[s[0]] + rest[0]] + rest[1..]
  }

  /** Splitting on `c` and joining back with `c` gives the string back. */
  lemma {:induction false} JoinSplit(s: string, c: char)
    ensures Join([c], Split(s, c)) == s
  {
    if s == [] {
    } else if s[0] == c {
      JoinSplit(s[1..], c);
    } else {
      JoinSplit(s[1..], c);
      var rest := Split(s[1..], c);
      if |rest| > 1 {
        assert ([[s[0]] + rest[0]] + rest[1..])[1..] == rest[1..];
      }
    }
  }

  lemma {:induction false} SplitNoSeparator(a: string, c: char)
    requires c !in a
    ensures Split(a, c) == [a]
  {
    if a != [] {
      assert a[0] != c;
      SplitNoSeparator(a[1..], c);
      var rest := Split(a[1..], c);
      assert Split(a, c) == [[a[0]] + rest[0]] + rest[1..];
      assert [a[0]] + a[1..] == a;
    }
  }

  lemma {:induction false} SplitAfterField(a: string, b: string, c: char)
    requires c !in a
    ensures Split(a + [c] + b, c) == [a] + Split(b, c)
  {
    if a == [] {
      assert a + [c] + b == [c] + b;
      assert ([c] + b)[1..] == b;
    } else {
      assert (a + [c] + b)[1..] == a[1..] + [c] + b;
      SplitAfterField(a[1..], b, c);
      assert [a[0]] + a[1..] == a;
    }
  }

  /** Joining one more string appends the separator and that string, whatever the texts hold. */
  lemma {:induction false} JoinSnoc(sep: string, xs: seq<string>, x: string)
    requires |xs| >= 1
    ensures Join(sep, xs + [x]) == Join(sep, xs) + sep + x
    decreases |xs|
  {
    assert (xs + [x])[0] == xs[0];
    if |xs| == 1 {
      assert (xs + [x])[1..] == [x];
    } else {
      assert (xs + [x])[1..] == xs[1..] + [x];
      JoinSnoc(sep, xs[1..], x);
      AppendAssoc(xs[0] + sep, Join(sep, xs[1..]), sep + x);
    }
  }

  /** Joining fields free of `c` with `c` and splitting on `c` gives the fields back. */
  lemma {:induction false} SplitJoin(xs: seq<string>, c: char)
    requires |xs| >= 1
    requires forall k :: 0 <= k < |xs| ==> c !in xs[k]
    ensures Split(Join([c], xs), c) == xs
  {
    if |xs| == 1 {
      SplitNoSeparator(xs[0], c);
    } else {
      SplitJoin(xs[1..], c);
      SplitAfterField(xs[0], Join([c], xs[1..]), c);
      assert [xs[0]] + xs[1..] == xs;
    }
  }

  /** `sub` occurs in `s` at position `i`. */
  predicate OccursAt(s: string, sub: string, i: nat) {
    i + |sub| <= |s| && s[i..i + |sub|] == sub
  }

  /** Python's `sub in s`. */
  function Contains(s: string, sub: string): (b: bool)
    ensures b <==> exists i: nat :: OccursAt(s, sub, i)
  {
    if |s| < |sub| then false
    else if s[..|sub|] == sub then assert OccursAt(s, sub, 0); true
    else if s == [] then false
    else
      var b := Contains(s[1..], sub);
      assert b ==> exists i: nat :: OccursAt(s, sub, i) by {
        if b {
          var j: nat :| OccursAt(s[1..], sub, j);
          assert s[1..][j..j + |sub|] == s[j + 1..j + 1 + |sub|];
          assert OccursAt(s, sub, j + 1);
        }
      }
      assert (exists i: nat :: OccursAt(s, sub, i)) ==> b by {
        if exists i: nat :: OccursAt(s, sub, i) {
          var i: nat :| OccursAt(s, sub, i);
          assert i != 0;
          assert s[1..][i - 1..i - 1 + |sub|] == s[i..i + |sub|];
          assert OccursAt(s[1..], sub, i - 1);
        }
      }
      b
  }

  /** Python's `s.replace(pat, rep)`: non-overlapping occurrences, left to right. */
  function Replace(s: string, pat: string, rep: string): string
    requires pat != []
  {
    if |s| < |pat| then s
    else if s[..|pat|] == pat then rep + Replace(s[|pat|..], pat, rep)
    else [s[0]] + Replace(s[1..], pat, rep)
  }

  /** A string without the pattern is left as it is. */
  lemma {:induction false} ReplaceAbsent(s: string, pat: string, rep: string)
    requires pat != [] && !Contains(s, pat)
    ensures Replace(s, pat, rep) == s
  {
    if |s| >= |pat| {
      assert s[..|pat|] != pat by {
        assert !OccursAt(s, pat, 0);
      }
      assert !Contains(s[1..], pat);
      ReplaceAbsent(s[1..], pat, rep);
    }
  }

  /** A string where the pattern's first character never appears is left as it is. */
  lemma {:induction false} ReplaceMissingFirst(s: string, pat: string, rep: string)
    requires pat != [] && pat[0] !in s
    ensures Replace(s, pat, rep) == s
  {
    if |s| >= |pat| {
      assert s[..|pat|] != pat by {
        assert s[0] != pat[0];
      }
      ReplaceMissingFirst(s[1..], pat, rep);
    }
  }

  /** Text before the first occurrence is kept, the occurrence is replaced, and the rest goes on. */
  lemma {:induction false} ReplaceFirstAt(a: string, pat: string, rep: string, b: string)
    requires pat != [] && pat[0] !in a
    ensures Replace(a + pat + b, pat, rep) == a + rep + Replace(b, pat, rep)
  {
    var s := a + pat + b;
    if a == [] {
      assert s[..|pat|] == pat && s[|pat|..] == b;
      assert Replace(s, pat, rep) == rep + Replace(b, pat, rep);
    } else {
      assert s[..|pat|] != pat by {
        assert s[0] == a[0] != pat[0];
      }
      var tail := a[1..] + pat + b;
      assert s[1..] == tail;
      assert Replace(s, pat, rep) == [a[0]] + Replace(tail, pat, rep);
      ReplaceFirstAt(a[1..], pat, rep, b);
      assert a + rep + Replace(b, pat, rep) == [a[0]] + (a[1..] + rep + Replace(b, pat, rep));
    }
  }

  /** One occurrence between two parts free of the pattern's first character is the only one replaced. */
  lemma ReplaceBetween(a: string, pat: string, rep: string, b: string)
    requires pat != [] && pat[0] !in a && pat[0] !in b
    ensures Replace(a + pat + b, pat, rep) == a + rep + b
  {
    ReplaceFirstAt(a, pat, rep, b);
    ReplaceMissingFirst(b, pat, rep);
  }

  /** Stripping keeps only characters of the original. */
  lemma {:induction false} StripChars(s: string)
    ensures forall c :: c in Strip(s) ==> c in s
  {
    if s != [] && IsSpace(s[0]) {
      StripChars(s[1..]);
    } else {
      var r := StripRight(s);
      forall c | c in r ensures c in s {
        var k :| 0 <= k < |r| && r[k] == c;
        assert s[k] == c;
      }
    }
  }

  /** Replacing a one-character pattern by one character swaps that character everywhere. */
  lemma {:induction false} ReplaceChar(s: string, a: char, b: char)
    ensures |Replace(s, [a], [b])| == |s|
    ensures forall k :: 0 <= k < |s| ==> Replace(s, [a], [b])[k] == if s[k] == a then b else s[k]
  {
    if s != [] {
      ReplaceChar(s[1..], a, b);
      assert s[..1] == [s[0]];
    }
  }

  /** Title-casing ignores the case the letters came in with. */
  lemma TitleOfLower(s: string)
    ensures Title(Lower(s)) == Title(s)
  {
    var l := Lower(s);
    var a, b := TitleAfter(l, false), TitleAfter(s, false);
    forall k | 0 <= k < |s| ensures a[k] == b[k] {
      assert l[k] == LowerChar(s[k]);
      if k > 0 {
        assert l[k - 1] == LowerChar(s[k - 1]);
        assert IsCased(l[k - 1]) == IsCased(s[k - 1]);
      }
    }
  }

  predicate IsDigit(c: char) {
    '0' <= c <= '9'
  }

  predicate AllDigits(s: string) {
    forall k :: 0 <= k < |s| ==> IsDigit(s[k])
  }

  function DigitChar(d: nat): char
    requires d < 10
  {
    ('0' as int + d) as char
  }

  function DigitsValue(s: string): nat
    requires AllDigits(s)
  {
    if s == [] then 0 else DigitsValue(s[..|s| - 1]) * 10 + (s[|s| - 1] as int - '0' as int)
  }

  /** Python's `str(n)` for a natural number. */
  function NatToString(n: nat): (r: string)
    ensures r != [] && AllDigits(r)
  {
    if n < 10 then [DigitChar(n)] else NatToString(n / 10) + [DigitChar(n % 10)]
  }

  /** Python's `str(n)` for an integer. */
  function IntToString(n: int): string {
    if n < 0 then "-" + NatToString(-n) else NatToString(n)
  }

  lemma {:induction false} NatToStringValue(n: nat)
    ensures DigitsValue(NatToString(n)) == n
  {
    if n >= 10 {
      NatToStringValue(n / 10);
      var s := NatToString(n);
      assert s[..|s| - 1] == NatToString(n / 10);
    }
  }

  /** Position `k` of `s` holds a digit, or an underscore between two digits. */
  predicate GroupCharAt(s: string, k: nat)
    requires k < |s|
  {
    IsDigit(s[k]) || (s[k] == '_' && 0 < k < |s| - 1 && IsDigit(s[k - 1]) && IsDigit(s[k + 1]))
  }

  /** Python's `int(s)` in base 10 on digits only: `digit (_? digit)*`, an underscore standing between two digits. */
  predicate IsDigitGroups(s: string) {
    s != [] && IsDigit(s[0]) && IsDigit(s[|s| - 1]) &&
    forall k: nat :: k < |s| ==> GroupCharAt(s, k)
  }

  /** The text `int()` accepts once whitespace is stripped: an optional sign, then digit groups. */
  predicate IsIntLiteral(t: string) {
    IsDigitGroups(t) || (t != [] && (t[0] == '-' || t[0] == '+') && IsDigitGroups(t[1..]))
  }

  /** Every character of `s` is a digit or an underscore. */
  predicate DigitsOrUnderscores(s: string) {
    forall k :: 0 <= k < |s| ==> IsDigit(s[k]) || s[k] == '_'
  }

  /** The characters of `s` other than '_'. */
  function DropUnderscores(s: string): (r: string)
    ensures '_' !in s ==> r == s
    ensures DigitsOrUnderscores(s) ==> AllDigits(r)
  {
    if s == [] then [] else (if s[0] == '_' then [] else [s[0]]) + DropUnderscores(s[1..])
  }

  lemma DigitGroupsChars(s: string)
    requires IsDigitGroups(s)
    ensures DigitsOrUnderscores(s)
  {
    forall k | 0 <= k < |s| ensures IsDigit(s[k]) || s[k] == '_' {
      assert GroupCharAt(s, k);
    }
  }

  /** The value of an integer literal: its digits read in base 10, negated after a '-'. */
  function LiteralValue(t: string): int
    requires IsIntLiteral(t)
  {
    if IsDigitGroups(t) then
      DigitGroupsChars(t);
      DigitsValue(DropUnderscores(t))
    else
      DigitGroupsChars(t[1..]);
      var v: int := DigitsValue(DropUnderscores(t[1..]));
      if t[0] == '-' then -v else v
  }

  /**
   * The digit loop of `int()`: each digit is added to the value read so far, an
   * underscore is let through only right after a digit, and the text must end
   * on a digit.
   */
  function ScanDigits(s: string, acc: nat, afterDigit: bool): Option<nat> {
    if s == [] then (if afterDigit then Some(acc) else None)
    else if IsDigit(s[0]) then ScanDigits(s[1..], acc * 10 + (s[0] as int - '0' as int), true)
    else if s[0] == '_' && afterDigit then ScanDigits(s[1..], acc, false)
    else None
  }

  /** What the digit loop accepts from a given state. */
  predicate ScanAccepts(s: string, afterDigit: bool) {
    if afterDigit then s == [] || IsDigitGroups(s) || (s[0] == '_' && IsDigitGroups(s[1..]))
    else IsDigitGroups(s)
  }

  /** A digit followed by `t` forms digit groups exactly when `t` may follow a digit. */
  lemma DigitGroupsCons(c: char, t: string)
    requires IsDigit(c)
    ensures IsDigitGroups([c] + t) <==> ScanAccepts(t, true)
  {
    var s := [c] + t;
    if IsDigitGroups(s) && t != [] {
      assert GroupCharAt(s, 1);
      if t[0] == '_' {
        var u := t[1..];
        assert |s| >= 3 && IsDigit(s[2]);
        forall k: nat | k < |u| ensures GroupCharAt(u, k) {
          assert GroupCharAt(s, k + 2);
          assert u[k] == s[k + 2];
          if k > 0 { assert u[k - 1] == s[k + 1]; }
          if k + 1 < |u| { assert u[k + 1] == s[k + 3]; }
        }
        assert u[0] == s[2] && u[|u| - 1] == s[|s| - 1];
        assert IsDigitGroups(u);
      } else {
        forall k: nat | k < |t| ensures GroupCharAt(t, k) {
          assert GroupCharAt(s, k + 1);
          assert t[k] == s[k + 1];
          if k > 0 { assert t[k - 1] == s[k]; }
          if k + 1 < |t| { assert t[k + 1] == s[k + 2]; }
        }
        assert t[|t| - 1] == s[|s| - 1];
        assert IsDigitGroups(t);
      }
    }
    if ScanAccepts(t, true) {
      if t == [] {
        assert GroupCharAt(s, 0);
      } else if IsDigitGroups(t) {
        forall k: nat | k < |s| ensures GroupCharAt(s, k) {
          if k > 0 {
            assert GroupCharAt(t, k - 1);
            assert s[k] == t[k - 1];
            if k > 1 { assert s[k - 1] == t[k - 2]; }
            if k + 1 < |s| { assert s[k + 1] == t[k]; }
          }
        }
        assert s[|s| - 1] == t[|t| - 1];
      } else {
        var u := t[1..];
        forall k: nat | k < |s| ensures GroupCharAt(s, k) {
          if k == 1 {
            assert s[1] == '_' && s[0] == c && s[2] == u[0];
          } else if k > 1 {
            assert GroupCharAt(u, k - 2);
            assert s[k] == u[k - 2];
            if k > 2 { assert s[k - 1] == u[k - 3]; }
            if k + 1 < |s| { assert s[k + 1] == u[k - 1]; }
          }
        }
        assert s[|s| - 1] == u[|u| - 1];
      }
    }
  }

  /** The digit loop accepts exactly what the grammar allows from its state. */
  lemma {:induction false} ScanDigitsAccepts(s: string, acc: nat, afterDigit: bool)
    ensures ScanDigits(s, acc, afterDigit).Some? <==> ScanAccepts(s, afterDigit)
  {
    if s != [] {
      if IsDigit(s[0]) {
        ScanDigitsAccepts(s[1..], acc * 10 + (s[0] as int - '0' as int), true);
        DigitGroupsCons(s[0], s[1..]);
        assert [s[0]] + s[1..] == s;
      } else if s[0] == '_' && afterDigit {
        ScanDigitsAccepts(s[1..], acc, false);
      }
    }
  }

  /** Started on the digits `p`, the digit loop reads `p` followed by the digits of `s`. */
  lemma {:induction false} ScanDigitsValue(s: string, p: string, afterDigit: bool)
    requires AllDigits(p)
    requires ScanDigits(s, DigitsValue(p), afterDigit).Some?
    ensures AllDigits(p + DropUnderscores(s))
    ensures ScanDigits(s, DigitsValue(p), afterDigit).value == DigitsValue(p + DropUnderscores(s))
    decreases |s|
  {
    if s == [] {
      assert p + DropUnderscores(s) == p;
    } else if IsDigit(s[0]) {
      var q := p + [s[0]];
      DigitsValueSnoc(p, s[0]);
      ScanDigitsValue(s[1..], q, true);
      var d := DropUnderscores(s[1..]);
      assert DropUnderscores(s) == [s[0]] + d;
      AppendAssoc(p, [s[0]], d);
    } else {
      assert s[0] == '_';
      ScanDigitsValue(s[1..], p, false);
      assert DropUnderscores(s) == DropUnderscores(s[1..]);
    }
  }

  lemma AppendAssoc<T>(a: seq<T>, b: seq<T>, c: seq<T>)
    ensures a + (b + c) == (a + b) + c
  {
  }

  lemma DigitsValueSnoc(p: string, c: char)
    requires AllDigits(p) && IsDigit(c)
    ensures AllDigits(p + [c])
    ensures DigitsValue(p + [c]) == DigitsValue(p) * 10 + (c as int - '0' as int)
  {
    var q := p + [c];
    assert q[..|q| - 1] == p;
  }

  /** The digit loop run from its start: digit groups and their value, or None. */
  function ParseUnsigned(t: string): (r: Option<nat>)
    ensures r.Some? <==> IsDigitGroups(t)
    ensures r.Some? ==> AllDigits(DropUnderscores(t)) && r.value == DigitsValue(DropUnderscores(t))
  {
    ScanDigitsAccepts(t, 0, false);
    match ScanDigits(t, 0, false)
    case None => None
    case Some(v) =>
      ScanDigitsValue(t, [], false);
      assert [] + DropUnderscores(t) == DropUnderscores(t);
      Some(v)
  }

  /** `int()` on text already stripped of surrounding whitespace. */
  function ParseStripped(t: string): (r: Option<int>)
    ensures r.Some? <==> IsIntLiteral(t)
    ensures r.Some? ==> r.value == LiteralValue(t)
  {
    if t != [] && (t[0] == '-' || t[0] == '+') then
      assert !IsDigitGroups(t) by { assert !GroupCharAt(t, 0); }
      match ParseUnsigned(t[1..])
      case None => None
      case Some(v) =>
        var n: int := v;
        Some(if t[0] == '-' then -n else n)
    else
      match ParseUnsigned(t)
      case None => None
      case Some(v) => Some(v)
  }

  /**
   * Python's `int(s)` in base 10: surrounding whitespace is ignored, then one
   * optional sign and decimal digits, single underscores allowed between digits;
   * anything else is a `ValueError` (None).
   */
  function ParseInt(s: string): (r: Option<int>)
    ensures r.Some? <==> IsIntLiteral(Strip(s))
    ensures r.Some? ==> r.value == LiteralValue(Strip(s))
  {
    ParseStripped(Strip(s))
  }

  lemma {:induction false} StripUnpadded(s: string)
    requires s != [] && !IsSpace(s[0]) && !IsSpace(s[|s| - 1])
    ensures Strip(s) == s
  {
    assert StripRight(s) == s;
  }

  /** A non-empty run of digits is one digit group and has no underscore to drop. */
  lemma {:induction false} AllDigitsGroups(digits: string)
    requires digits != [] && AllDigits(digits)
    ensures IsDigitGroups(digits) && DropUnderscores(digits) == digits
  {
    forall k: nat | k < |digits| ensures GroupCharAt(digits, k) {
      assert IsDigit(digits[k]);
    }
    assert '_' !in digits by {
      forall k | 0 <= k < |digits| ensures digits[k] != '_' {
        assert IsDigit(digits[k]);
      }
    }
  }

  lemma {:induction false} ParseDigits(digits: string, m: nat)
    requires digits != [] && AllDigits(digits) && DigitsValue(digits) == m
    ensures ParseInt(digits) == Some(m)
  {
    StripUnpadded(digits);
    AllDigitsGroups(digits);
  }

  lemma {:induction false} ParseNegativeDigits(digits: string, m: nat)
    requires digits != [] && AllDigits(digits) && DigitsValue(digits) == m
    ensures ParseInt("-" + digits) == Some(-(m as int))
  {
    var s := "-" + digits;
    assert s[0] == '-' && s[1..] == digits;
    assert s[|s| - 1] == digits[|digits| - 1];
    StripUnpadded(s);
    AllDigitsGroups(digits);
    assert !IsDigitGroups(s);
    assert LiteralValue(s) == -(m as int);
  }

  /** The decimal text of a natural number reads back as that number. */
  lemma {:induction false} ParseNatToString(m: nat)
    ensures ParseInt(NatToString(m)) == Some(m)
  {
    var digits := NatToString(m);
    NatToStringValue(m);
    ParseDigits(digits, m);
  }

  /** A '-' before the decimal text of a natural number reads back as its negation. */
  lemma {:induction false} ParseNegatedNatToString(m: nat)
    ensures ParseInt("-" + NatToString(m)) == Some(-(m as int))
  {
    var digits := NatToString(m);
    NatToStringValue(m);
    ParseNegativeDigits(digits, m);
  }

  /** `int(str(n)) == n`. */
  lemma {:induction false} ParseIntToString(n: int)
    ensures ParseInt(IntToString(n)) == Some(n)
  {
    if n < 0 {
      var m: nat := -n;
      ParseNegatedNatToString(m);
      assert IntToString(n) == "-" + NatToString(m);
    } else {
      var m: nat := n;
      ParseNatToString(m);
    }
  }
}

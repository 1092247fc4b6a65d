/** Optional values: `undefined`/`null` on the JavaScript side. */
module Optional {

  datatype Option<+T> = None | Some(value: T) {

    /** `x || fallback` for a field that is either a value or missing. */
    function GetOr(fallback: T): T {
      match this
      case Some(v) => v
      case None => fallback
    }
  }
}

/** The string operations the pages use: JavaScript's white space, `trim`,
    `toLowerCase` (restricted to ASCII letters), `includes`, `startsWith`,
    `split` on one character and `join`. */
module Text {

  /** The characters that `String.prototype.trim` removes and that the regular
      expression class `\s` matches: ECMAScript WhiteSpace and LineTerminator. */
  predicate IsSpace(c: char) {
    var n := c as int;
    (9 <= n <= 13) || n == 32 || n == 0xA0 || n == 0x1680 || (0x2000 <= n <= 0x200A)
    || n == 0x2028 || n == 0x2029 || n == 0x202F || n == 0x205F || n == 0x3000 || n == 0xFEFF
  }

  /** No white space at either end. */
  predicate IsTrimmed(s: string) {
    |s| == 0 || (!IsSpace(s[0]) && !IsSpace(s[|s| - 1]))
  }

  predicate AllSpace(s: string) {
    forall i :: 0 <= i < |s| ==> IsSpace(s[i])
  }

  /** The first index at or after `i` whose character is not white space, or `|s|`. */
  function SkipSpace(s: string, i: nat): (j: nat)
    requires i <= |s|
    ensures i <= j <= |s|
    ensures forall k :: i <= k < j ==> IsSpace(s[k])
    ensures j < |s| ==> !IsSpace(s[j])
    decreases |s| - i
  {
    if i < |s| && IsSpace(s[i]) then SkipSpace(s, i + 1) else i
  }

  /** Going back from `j`, but not past `lo`, the index just after the last character
      that is not white space. */
  function BackSpace(s: string, lo: nat, j: nat): (k: nat)
    requires lo <= j <= |s|
    ensures lo <= k <= j
    ensures forall m :: k <= m < j ==> IsSpace(s[m])
    ensures k > lo ==> !IsSpace(s[k - 1])
    decreases j
  {
    if j > lo && IsSpace(s[j - 1]) then BackSpace(s, lo, j - 1) else j
  }

  /** Number of white-space characters `trim` drops at the front. */
  function Lead(s: string): nat
    ensures Lead(s) <= |s|
  {
    SkipSpace(s, 0)
  }

  /** Where the kept middle of `s` ends. */
  function Stop(s: string): nat
    ensures Lead(s) <= Stop(s) <= |s|
  {
    BackSpace(s, Lead(s), |s|)
  }

  /** JavaScript `s.trim()`: the middle of `s` between two runs of white space,
      itself without white space at either end; empty exactly when `s` is all white space. */
  function Trim(s: string): (r: string)
    ensures Lead(s) + |r| <= |s| && r == s[Lead(s)..Lead(s) + |r|]
    ensures forall k :: 0 <= k < Lead(s) ==> IsSpace(s[k])
    ensures forall k :: Lead(s) + |r| <= k < |s| ==> IsSpace(s[k])
    ensures IsTrimmed(r)
    ensures |r| == 0 <==> AllSpace(s)
  {
    TrimShape(s);
    s[Lead(s)..Stop(s)]
  }

  lemma TrimShape(s: string)
    ensures var r := s[Lead(s)..Stop(s)]; IsTrimmed(r) && (|r| == 0 <==> AllSpace(s))
  {
    var r := s[Lead(s)..Stop(s)];
    if |r| > 0 {
      assert r[0] == s[Lead(s)] && r[|r| - 1] == s[Stop(s) - 1];
      assert !IsSpace(s[Lead(s)]);
    }
  }

  /** Trimming never lengthens a text. */
  lemma TrimShortens(s: string)
    ensures Utf16Length(Trim(s)) <= Utf16Length(s)
  {
    var r, lead := Trim(s), Lead(s);
    Utf16LengthOfSlice(s, lead, lead + |r|);
  }

  /** JavaScript `!s.trim()`: the field holds nothing but white space. */
  predicate IsBlank(s: string) {
    |Trim(s)| == 0
  }

  lemma TrimOfTrimmed(s: string)
    requires IsTrimmed(s)
    ensures Trim(s) == s
  {
    if |s| > 0 {
      assert Lead(s) == 0;
      assert Stop(s) == |s|;
    }
    assert s[0..|s|] == s;
  }

  /** Dropping one leading space before a trimmed word does not change what `trim` yields. */
  lemma TrimDropsLeadingSpace(s: string)
    requires IsTrimmed(s)
    ensures Trim(" " + s) == s
  {
    var t := " " + s;
    assert SkipSpace(t, 0) == SkipSpace(t, 1);
    assert Lead(t) == 1;
    assert Stop(t) == |t|;
    assert t[1..|t|] == s;
  }

  lemma TrimIdempotent(s: string)
    ensures Trim(Trim(s)) == Trim(s)
  {
    TrimOfTrimmed(Trim(s));
  }

  /** The UTF-16 code units one character takes in JavaScript: two (a surrogate pair)
      for a character beyond U+FFFF, one otherwise. */
  function Units(c: char): nat {
    if c as int > 0xFFFF then 2 else 1
  }

  /** JavaScript's `length` of a text: its UTF-16 code units, between one and two per
      character. */
  function Utf16Length(s: string): (n: nat)
    ensures |s| <= n <= 2 * |s|
  {
    if |s| == 0 then 0 else Units(s[0]) + Utf16Length(s[1..])
  }

  /** Every character lies in the Basic Multilingual Plane. */
  predicate Bmp(s: string) {
    forall i :: 0 <= i < |s| ==> s[i] as int <= 0xFFFF
  }

  /** On text without astral characters, `length` is the character count. */
  lemma {:induction false} BmpLength(s: string)
    requires Bmp(s)
    ensures Utf16Length(s) == |s|
  {
    if |s| > 0 {
      assert Bmp(s[1..]) by {
        forall i | 0 <= i < |s[1..]| ensures s[1..][i] as int <= 0xFFFF {
          assert s[1..][i] == s[i + 1];
        }
      }
      BmpLength(s[1..]);
    }
  }

  lemma {:induction false} Utf16LengthAppend(a: string, b: string)
    ensures Utf16Length(a + b) == Utf16Length(a) + Utf16Length(b)
  {
    if |a| == 0 {
      assert a + b == b;
    } else {
      assert (a + b)[0] == a[0];
      assert (a + b)[1..] == a[1..] + b;
      Utf16LengthAppend(a[1..], b);
    }
  }

  /** A piece of a text is no longer than the text. */
  lemma Utf16LengthOfSlice(s: string, i: int, j: int)
    requires 0 <= i <= j <= |s|
    ensures Utf16Length(s[i..j]) <= Utf16Length(s)
  {
    var front, middle, back := s[..i], s[i..j], s[j..];
    assert s[..j] == front + middle;
    assert s == s[..j] + back;
    Utf16LengthAppend(front, middle);
    Utf16LengthAppend(s[..j], back);
  }

  /** `p` is the longest front part of `s`, in whole characters, that fits in `n`
      UTF-16 code units: the next character would not fit. */
  predicate LongestFit(s: string, n: nat, p: string) {
    StartsWith(s, p) && Utf16Length(p) <= n && (|p| < |s| ==> Utf16Length(p) + Units(s[|p|]) > n)
  }

  /** At most one front part is the longest fit. */
  lemma LongestFitIsUnique(s: string, n: nat, p: string, q: string)
    requires LongestFit(s, n, p) && LongestFit(s, n, q)
    ensures p == q
  {
    if |p| < |q| {
      assert q == p + [s[|p|]] + q[|p| + 1..];
      Utf16LengthAppend(p + [s[|p|]], q[|p| + 1..]);
      Utf16LengthAppend(p, [s[|p|]]);
      assert false;
    } else if |q| < |p| {
      assert p == q + [s[|q|]] + p[|q| + 1..];
      Utf16LengthAppend(q + [s[|q|]], p[|q| + 1..]);
      Utf16LengthAppend(q, [s[|q|]]);
      assert false;
    }
  }

  /** `s.substring(0, n)` kept to whole characters: the characters of `s` whose UTF-16
      units all lie within the first `n`. A text that fits is kept whole. */
  function CutUnits(s: string, n: nat): (r: string)
    ensures LongestFit(s, n, r)
    ensures Utf16Length(s) <= n ==> r == s
    ensures Utf16Length(s) > n ==> |r| < |s|
  {
    if |s| == 0 || Units(s[0]) > n then ""
    else
      var rest := CutUnits(s[1..], n - Units(s[0]));
      var r := [s[0]] + rest;
      assert r[0] == s[0] && r[1..] == rest;
      assert |rest| < |s[1..]| ==> s[1..][|rest|] == s[|r|];
      r
  }

  /** On text without astral characters the cut is the plain slice of `n` characters. */
  lemma {:induction false} BmpCut(s: string, n: nat)
    requires Bmp(s)
    ensures CutUnits(s, n) == s[..if |s| < n then |s| else n]
  {
    BmpLength(CutUnits(s, n));
  }

  /** `s.length > n ? s.substring(0, n) + "..." : s` with lengths in UTF-16 code units:
      a text that fits is kept whole; a longer one keeps the whole characters of its
      first `n` units and is marked with an ellipsis. */
  function Truncate(s: string, n: nat): (r: string)
    ensures Utf16Length(s) <= n ==> r == s
    ensures Utf16Length(s) > n ==>
      && |r| >= 3 && r[|r| - 3..] == "..."
      && |r| - 3 < |s| && LongestFit(s, n, r[..|r| - 3])
  {
    if Utf16Length(s) > n then
      var p := CutUnits(s, n);
      assert (p + "...")[..|p|] == p;
      p + "..."
    else s
  }

  /** Without astral characters the truncation is the character-count one. */
  lemma BmpTruncate(s: string, n: nat)
    requires Bmp(s)
    ensures Truncate(s, n) == if |s| > n then s[..n] + "..." else s
  {
    BmpLength(s);
    BmpCut(s, n);
  }

  function LowerChar(c: char): char {
    if 'A' <= c <= 'Z' then (c as int + 32) as char else c
  }

  /** `toLowerCase`, folding only the ASCII letters. */
  function ToLower(s: string): (r: string)
    ensures |r| == |s|
    ensures forall i :: 0 <= i < |s| ==> r[i] == LowerChar(s[i])
    ensures forall i :: 0 <= i < |r| ==> !('A' <= r[i] <= 'Z')
  {
    if |s| == 0 then "" else [LowerChar(s[0])] + ToLower(s[1..])
  }

  predicate StartsWith(s: string, prefix: string) {
    |prefix| <= |s| && s[..|prefix|] == prefix
  }

  /** `part` occurs in `s` starting at index `i`. */
  predicate OccursAt(s: string, part: string, i: int) {
    0 <= i <= |s| - |part| && s[i..i + |part|] == part
  }

  /** `s.includes(part)`, written as a left-to-right scan. */
  predicate Contains(s: string, part: string)
    decreases |s|
  {
    StartsWith(s, part) || (|s| > 0 && Contains(s[1..], part))
  }

  /** The scan finds `part` exactly when it occurs at some position of `s`. */
  lemma {:induction false} ContainsIffOccurs(s: string, part: string)
    ensures Contains(s, part) <==> exists i :: OccursAt(s, part, i)
    decreases |s|
  {
    if |s| > 0 {
      ContainsIffOccurs(s[1..], part);
      if Contains(s[1..], part) {
        var i :| OccursAt(s[1..], part, i);
        assert s[1..][i..i + |part|] == s[i + 1..i + 1 + |part|];
        assert OccursAt(s, part, i + 1);
      }
      if StartsWith(s, part) {
        assert OccursAt(s, part, 0);
      }
      if exists i :: OccursAt(s, part, i) {
        var i :| OccursAt(s, part, i);
        if i > 0 {
          assert s[1..][i - 1..i - 1 + |part|] == s[i..i + |part|];
          assert OccursAt(s[1..], part, i - 1);
        } else {
          assert StartsWith(s, part);
        }
      }
    } else {
      if StartsWith(s, part) {
        assert OccursAt(s, part, 0);
      }
      if exists i :: OccursAt(s, part, i) {
        var i :| OccursAt(s, part, i);
        assert StartsWith(s, part);
      }
    }
  }

  /** `s.split(sep)`: the pieces between separators, in order; `""` splits into `[""]`. */
  function Split(s: string, sep: char): (parts: seq<string>)
    ensures |parts| >= 1
    ensures forall k :: 0 <= k < |parts| ==> sep !in parts[k]
    decreases |s|
  {
    if |s| == 0 then [""]
    else
      var rest := Split(s[1..], sep);
      if s[0] == sep then [""] + rest
      else [[s[0]] + rest[0]] + rest[1..]
  }

  /** `parts.join(glue)`. */
  function Join(parts: seq<string>, glue: string): string {
    if |parts| == 0 then ""
    else if |parts| == 1 then parts[0]
    else parts[0] + glue + Join(parts[1..], glue)
  }

  lemma {:induction false} SplitWithoutSeparator(s: string, sep: char)
    requires sep !in s
    ensures Split(s, sep) == [s]
    decreases |s|
  {
    if |s| > 0 {
      assert sep !in s[1..];
      SplitWithoutSeparator(s[1..], sep);
      assert [s[0]] + s[1..] == s;
    }
  }

  /** A separator-free head splits off as the first piece. */
  lemma {:induction false} SplitAtSeparator(a: string, sep: char, b: string)
    requires sep !in a
    ensures Split(a + [sep] + b, sep) == [a] + Split(b, sep)
    decreases |a|
  {
    var s := a + [sep] + b;
    if |a| == 0 {
      assert s[1..] == b;
    } else {
      assert s[1..] == a[1..] + [sep] + b;
      assert sep !in a[1..];
      SplitAtSeparator(a[1..], sep, b);
      assert [a[0]] + a[1..] == a;
    }
  }
}

/** The pure part of heading-slug generation in src/utils/markdown.ts:
    the base slug (lower-case, trim, collapse every run of characters
    that are neither `\w` nor CJK ideographs into one hyphen), the
    decimal rendering of the de-duplication counter, and the suffixed
    slug built from a base slug and its occurrence count. */
module Slug {

  // ---------------------------------------------------------------
  // Character classes
  // ---------------------------------------------------------------

  /** The characters the slug keeps: the ASCII letters, digits and
      underscore (the word characters of a regular expression without
      Unicode mode), and the CJK ideographs U+4E00..U+9FA5. */
  predicate IsKept(c: char) {
    ('a' <= c <= 'z') || ('A' <= c <= 'Z') || ('0' <= c <= '9') || c == '_'
    || ('\U{4E00}' <= c <= '\U{9FA5}')
  }

  /** White space and line terminators as removed by
      `String.prototype.trim` (ECMAScript WhiteSpace and LineTerminator). */
  predicate IsJsSpace(c: char) {
    c == ' ' || c == '\t' || c == '\n' || c == '\U{B}' || c == '\U{C}' || c == '\r'
    || c == '\U{A0}' || c == '\U{1680}' || ('\U{2000}' <= c <= '\U{200A}')
    || c == '\U{2028}' || c == '\U{2029}' || c == '\U{202F}' || c == '\U{205F}'
    || c == '\U{3000}' || c == '\U{FEFF}'
  }

  predicate IsUpperAscii(c: char) {
    'A' <= c <= 'Z'
  }

  /** No ASCII upper-case letter occurs in `s`. */
  predicate NoUpper(s: string) {
    forall i :: 0 <= i < |s| ==> !IsUpperAscii(s[i])
  }

  // ---------------------------------------------------------------
  // toLowerCase and trim
  // ---------------------------------------------------------------

  /** ASCII lower-casing of one character: 'A'..'Z' become 'a'..'z',
      every other character stays. */
  function LowerChar(c: char): (r: char)
    ensures !IsUpperAscii(r)
    ensures IsUpperAscii(c) ==> 'a' <= r <= 'z' && r as int - 'a' as int == c as int - 'A' as int
    ensures IsUpperAscii(c) || r == c
  {
    if IsUpperAscii(c) then (c as int + 32) as char else c
  }

  /** `toLowerCase`, restricted to the ASCII letters. */
  function Lower(s: string): string {
    if s == [] then [] else [LowerChar(s[0])] + Lower(s[1..])
  }

  /** Lower-casing maps each character on its own and leaves no
      upper-case letter. */
  lemma {:induction false} LowerSpec(s: string)
    ensures |Lower(s)| == |s|
    ensures forall i :: 0 <= i < |s| ==> Lower(s)[i] == LowerChar(s[i])
    ensures NoUpper(Lower(s))
  {
    if s != [] { LowerSpec(s[1..]); }
  }

  lemma {:induction false} LowerOfLower(s: string)
    requires NoUpper(s)
    ensures Lower(s) == s
  {
    if s != [] {
      assert NoUpper(s[1..]);
      LowerOfLower(s[1..]);
    }
  }

  function TrimStart(s: string): string {
    if s != [] && IsJsSpace(s[0]) then TrimStart(s[1..]) else s
  }

  function TrimEnd(s: string): string {
    if s != [] && IsJsSpace(s[|s| - 1]) then TrimEnd(s[..|s| - 1]) else s
  }

  /** TrimStart drops a prefix made of white space only. */
  lemma {:induction false} TrimStartSpec(s: string)
    ensures var r := TrimStart(s);
      |r| <= |s| && r == s[|s| - |r|..] && (r == [] || !IsJsSpace(r[0]))
      && (forall i :: 0 <= i < |s| - |r| ==> IsJsSpace(s[i]))
  {
    if s != [] && IsJsSpace(s[0]) { TrimStartSpec(s[1..]); }
  }

  /** TrimEnd drops a suffix made of white space only. */
  lemma {:induction false} TrimEndSpec(s: string)
    ensures var r := TrimEnd(s);
      |r| <= |s| && r == s[..|r|] && (r == [] || !IsJsSpace(r[|r| - 1]))
      && (forall i :: |r| <= i < |s| ==> IsJsSpace(s[i]))
  {
    if s != [] && IsJsSpace(s[|s| - 1]) { TrimEndSpec(s[..|s| - 1]); }
  }

  /** `trim`: drops the leading and the trailing white space. */
  function Trim(s: string): string {
    TrimEnd(TrimStart(s))
  }

  /** The trimmed string neither starts nor ends with white space, and
      a string without white space is its own trim. */
  lemma TrimSpec(s: string)
    ensures var r := Trim(s); r == [] || (!IsJsSpace(r[0]) && !IsJsSpace(r[|r| - 1]))
    ensures (forall k :: 0 <= k < |s| ==> !IsJsSpace(s[k])) ==> Trim(s) == s
  {
    var t := TrimStart(s);
    TrimStartSpec(s);
    TrimEndSpec(t);
    assert forall k :: 0 <= k < |t| ==> t[k] == s[|s| - |t| + k];
  }

  lemma TrimKeepsNoUpper(s: string)
    requires NoUpper(s)
    ensures NoUpper(Trim(s))
  {
    var t := TrimStart(s);
    var r := TrimEnd(t);
    TrimStartSpec(s);
    TrimEndSpec(t);
    forall i | 0 <= i < |t| ensures !IsUpperAscii(t[i]) {
      assert t[i] == s[|s| - |t| + i];
    }
    forall i | 0 <= i < |r| ensures !IsUpperAscii(r[i]) {
      assert r[i] == t[i];
    }
  }

  // ---------------------------------------------------------------
  // Replacing each run of non-kept characters by one hyphen
  // ---------------------------------------------------------------

  /** Drops the leading run of characters that are not kept. */
  function SkipRun(s: string): (r: string)
    ensures |r| <= |s|
    ensures r == [] || IsKept(r[0])
  {
    if s != [] && !IsKept(s[0]) then SkipRun(s[1..]) else s
  }

  /** What SkipRun drops is a prefix made of non-kept characters only. */
  lemma {:induction false} SkipRunIsSuffix(s: string)
    ensures SkipRun(s) == s[|s| - |SkipRun(s)|..]
    ensures forall i :: 0 <= i < |s| - |SkipRun(s)| ==> !IsKept(s[i])
  {
    if s != [] && !IsKept(s[0]) { SkipRunIsSuffix(s[1..]); }
  }

  /** Every character of `s` is kept or a hyphen, and every hyphen is
      followed by a kept character or ends the string: the shape of an
      already-normalised slug. */
  predicate IsSlugShape(s: string) {
    (forall i :: 0 <= i < |s| ==> IsKept(s[i]) || s[i] == '-')
    && (forall i :: 0 <= i < |s| - 1 && s[i] == '-' ==> IsKept(s[i + 1]))
  }

  /** The kept characters of `s`, in order. */
  function KeptOf(s: string): string {
    if s == [] then []
    else if IsKept(s[0]) then [s[0]] + KeptOf(s[1..])
    else KeptOf(s[1..])
  }

  /** Each maximal run of non-kept characters becomes one `-`. */
  function ReplaceRuns(s: string): string
    decreases |s|
  {
    if s == [] then []
    else if IsKept(s[0]) then [s[0]] + ReplaceRuns(s[1..])
    else "-" + ReplaceRuns(SkipRun(s[1..]))
  }

  /** The result of the replacement has slug shape, and it starts with a
      hyphen exactly when the input starts with a non-kept character. */
  lemma {:induction false} ReplaceRunsShape(s: string)
    ensures IsSlugShape(ReplaceRuns(s))
    ensures s != [] ==> ReplaceRuns(s) != [] && (ReplaceRuns(s)[0] == '-' <==> !IsKept(s[0]))
    decreases |s|
  {
    if s == [] {
    } else if IsKept(s[0]) {
      ReplaceRunsShape(s[1..]);
    } else {
      ReplaceRunsShape(SkipRun(s[1..]));
    }
  }

  lemma {:induction false} KeptOfSkipRun(s: string)
    ensures KeptOf(SkipRun(s)) == KeptOf(s)
    decreases |s|
  {
    if s != [] && !IsKept(s[0]) { KeptOfSkipRun(s[1..]); }
  }

  /** The replacement keeps exactly the kept characters, in order. */
  lemma {:induction false} ReplaceRunsKeepsKept(s: string)
    ensures KeptOf(ReplaceRuns(s)) == KeptOf(s)
    decreases |s|
  {
    if s == [] {
    } else if IsKept(s[0]) {
      ReplaceRunsKeepsKept(s[1..]);
      assert ([s[0]] + ReplaceRuns(s[1..]))[1..] == ReplaceRuns(s[1..]);
    } else {
      var u := SkipRun(s[1..]);
      ReplaceRunsKeepsKept(u);
      KeptOfSkipRun(s[1..]);
      assert ("-" + ReplaceRuns(u))[1..] == ReplaceRuns(u);
    }
  }

  /** No upper-case letter is introduced by the replacement. */
  lemma {:induction false} ReplaceRunsKeepsNoUpper(s: string)
    requires NoUpper(s)
    ensures NoUpper(ReplaceRuns(s))
    decreases |s|
  {
    if s == [] {
    } else if IsKept(s[0]) {
      assert NoUpper(s[1..]);
      ReplaceRunsKeepsNoUpper(s[1..]);
    } else {
      var u := SkipRun(s[1..]);
      SkipRunIsSuffix(s[1..]);
      assert forall i :: 0 <= i < |u| ==> u[i] == s[|s| - |u| + i];
      ReplaceRunsKeepsNoUpper(u);
    }
  }

  /** A string that already has slug shape is left unchanged. */
  lemma {:induction false} ReplaceRunsFixesSlugShape(s: string)
    requires IsSlugShape(s)
    ensures ReplaceRuns(s) == s
    decreases |s|
  {
    if s != [] {
      assert IsSlugShape(s[1..]);
      ReplaceRunsFixesSlugShape(s[1..]);
      if !IsKept(s[0]) {
        assert SkipRun(s[1..]) == s[1..];
      }
    }
  }

  /** Slug shape rules out two hyphens in a row. */
  lemma SlugShapeNoDoubleHyphen(s: string, i: int)
    requires IsSlugShape(s) && 0 <= i < |s| - 1
    ensures s[i..i + 2] != "--"
  {
    assert s[i..i + 2] == [s[i], s[i + 1]];
  }

  // An independent description of the same replacement: mark every
  // non-kept character with '-', then squeeze repeated hyphens.

  function Mask(s: string): string {
    seq(|s|, i requires 0 <= i < |s| => if IsKept(s[i]) then s[i] else '-')
  }

  /** Drops every hyphen that directly follows another hyphen. */
  function Squeeze(t: string): string {
    if |t| <= 1 then t
    else if t[0] == '-' && t[1] == '-' then Squeeze(t[1..])
    else [t[0]] + Squeeze(t[1..])
  }

  lemma {:induction false} SqueezeSkipRun(s: string)
    ensures Squeeze("-" + Mask(s)) == Squeeze("-" + Mask(SkipRun(s)))
    decreases |s|
  {
    if s != [] && !IsKept(s[0]) {
      assert ("-" + Mask(s))[1..] == "-" + Mask(s[1..]);
      SqueezeSkipRun(s[1..]);
    }
  }

  lemma SqueezeKeptHead(c: char, t: string)
    requires c != '-'
    ensures Squeeze([c] + t) == [c] + Squeeze(t)
  {
    if t != [] { assert ([c] + t)[1..] == t; }
  }

  lemma SqueezeHyphenKept(t: string)
    requires t == [] || t[0] != '-'
    ensures Squeeze("-" + t) == "-" + Squeeze(t)
  {
    if t != [] { assert ("-" + t)[1..] == t; }
  }

  /** The replacement equals the masked string with hyphen runs
      squeezed. */
  lemma {:induction false} ReplaceRunsIsSqueezedMask(s: string)
    ensures ReplaceRuns(s) == Squeeze(Mask(s))
    decreases |s|
  {
    if s == [] {
    } else if IsKept(s[0]) {
      assert Mask(s) == [s[0]] + Mask(s[1..]);
      ReplaceRunsIsSqueezedMask(s[1..]);
      SqueezeKeptHead(s[0], Mask(s[1..]));
    } else {
      var u := SkipRun(s[1..]);
      assert Mask(s) == "-" + Mask(s[1..]);
      SqueezeSkipRun(s[1..]);
      ReplaceRunsIsSqueezedMask(u);
      SqueezeHyphenKept(Mask(u));
    }
  }

  // ---------------------------------------------------------------
  // Base slug
  // ---------------------------------------------------------------

  /** The base slug of a heading text: lower-cased, trimmed, and every
      run of non-kept characters collapsed into one hyphen. */
  function BaseSlug(text: string): string {
    ReplaceRuns(Trim(Lower(text)))
  }

  /** The base slug contains only kept characters and single hyphens,
      no upper-case letter, and the kept characters of the trimmed,
      lower-cased text in their order. */
  lemma BaseSlugShape(text: string)
    ensures IsSlugShape(BaseSlug(text)) && NoUpper(BaseSlug(text))
    ensures KeptOf(BaseSlug(text)) == KeptOf(Trim(Lower(text)))
  {
    var t := Trim(Lower(text));
    ReplaceRunsShape(t);
    LowerSpec(text);
    TrimKeepsNoUpper(Lower(text));
    ReplaceRunsKeepsNoUpper(t);
    ReplaceRunsKeepsKept(t);
  }

  /** Normalising a base slug again changes nothing. */
  lemma BaseSlugIdempotent(text: string)
    ensures BaseSlug(BaseSlug(text)) == BaseSlug(text)
  {
    var b := BaseSlug(text);
    BaseSlugShape(text);
    LowerOfLower(b);
    TrimSpec(b);
    ReplaceRunsFixesSlugShape(b);
  }

  // ---------------------------------------------------------------
  // Decimal rendering of the occurrence counter
  // ---------------------------------------------------------------

  predicate IsDigit(c: char) {
    '0' <= c <= '9'
  }

  function DigitChar(d: nat): (c: char)
    requires d < 10
    ensures IsDigit(c) && c as int - '0' as int == d
  {
    ('0' as int + d) as char
  }

  function DigitValue(c: char): (d: nat)
    ensures d < 10
  {
    if IsDigit(c) then c as int - '0' as int else 0
  }

  /** The decimal rendering of a non-negative integer: decimal digits, no
      leading zero. */
  function NatToString(n: nat): string {
    if n < 10 then [DigitChar(n)]
    else NatToString(n / 10) + [DigitChar(n % 10)]
  }

  /** The decimal string is a non-empty run of digits, starting with
      '0' only for zero. */
  lemma {:induction false} NatToStringDigits(n: nat)
    ensures var r := NatToString(n);
      |r| >= 1 && (forall i :: 0 <= i < |r| ==> IsDigit(r[i])) && (r[0] == '0' ==> n == 0)
  {
    if n >= 10 { NatToStringDigits(n / 10); }
  }

  /** Reads a string of decimal digits. */
  function ParseDecimal(s: string): nat {
    if s == [] then 0
    else ParseDecimal(s[..|s| - 1]) * 10 + DigitValue(s[|s| - 1])
  }

  /** Reading the decimal string back gives the number. */
  lemma {:induction false} DecimalRoundTrip(n: nat)
    ensures ParseDecimal(NatToString(n)) == n
  {
    NatToStringDigits(n);
    if n >= 10 {
      var a := NatToString(n / 10);
      var s := NatToString(n);
      NatToStringDigits(n / 10);
      assert s[..|s| - 1] == a;
      DecimalRoundTrip(n / 10);
    }
  }

  lemma NatToStringInjective(a: nat, b: nat)
    requires NatToString(a) == NatToString(b)
    ensures a == b
  {
    NatToStringDigits(a);
    NatToStringDigits(b);
    DecimalRoundTrip(a);
    DecimalRoundTrip(b);
  }

  // ---------------------------------------------------------------
  // The de-duplicated slug
  // ---------------------------------------------------------------

  /** The slug returned for a base slug seen `count` times before:
      unsuffixed the first time, `base-count` after that. */
  function Dedup(base: string, count: nat): string {
    if count == 0 then base else base + "-" + NatToString(count)
  }

  /** Different counts give different slugs for one base. */
  lemma DedupInjective(base: string, c1: nat, c2: nat)
    requires Dedup(base, c1) == Dedup(base, c2)
    ensures c1 == c2
  {
    NatToStringDigits(c1);
    NatToStringDigits(c2);
    if c1 > 0 && c2 > 0 {
      var n := |base| + 1;
      assert Dedup(base, c1)[n..] == NatToString(c1);
      assert Dedup(base, c2)[n..] == NatToString(c2);
      NatToStringInjective(c1, c2);
    }
  }

  /** A suffixed slug extends its base and is never the base itself. */
  lemma DedupSuffixed(base: string, count: nat)
    requires count > 0
    ensures Dedup(base, count) != base
    ensures Dedup(base, count)[..|base|] == base
  {
    NatToStringDigits(count);
  }
}

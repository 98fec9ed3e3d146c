/** The parts of the JavaScript runtime the core relies on: the `String`
    methods `trim`, `split`, `replace` with a global literal pattern,
    `padStart`, `lastIndexOf`, the conversion `String(n)` of a whole number,
    and the calendar fields of a `Date`. */
module JsRuntime {

  // ---------------------------------------------------------------------------
  // trim
  // ---------------------------------------------------------------------------

  /** WhiteSpace and LineTerminator code points of ECMAScript: what `trim` removes. */
  predicate IsWhitespace(c: char) {
    || c == ' ' || c == '\t' || c == '\n' || c == '\r'
    || c == '\U{000B}' || c == '\U{000C}' || c == '\U{00A0}' || c == '\U{FEFF}'
    || c == '\U{1680}' || ('\U{2000}' <= c <= '\U{200A}')
    || c == '\U{2028}' || c == '\U{2029}' || c == '\U{202F}' || c == '\U{205F}' || c == '\U{3000}'
  }

  /** Every character is whitespace (this includes the empty string). */
  predicate Blank(s: string) {
    forall i | 0 <= i < |s| :: IsWhitespace(s[i])
  }

  function TrimStart(s: string): (r: string)
    ensures r == [] || !IsWhitespace(r[0])
  {
    if s != [] && IsWhitespace(s[0]) then TrimStart(s[1..]) else s
  }

  function TrimEnd(s: string): string {
    if s != [] && IsWhitespace(s[|s| - 1]) then TrimEnd(s[..|s| - 1]) else s
  }

  /** `s.trim()` */
  function Trim(s: string): string {
    TrimEnd(TrimStart(s))
  }

  lemma {:induction false} TrimStartBlank(s: string)
    ensures TrimStart(s) == [] <==> Blank(s)
  {
    if s != [] && IsWhitespace(s[0]) {
      TrimStartBlank(s[1..]);
      assert Blank(s) <==> Blank(s[1..]) by {
        forall i | 1 <= i < |s| ensures s[i] == s[1..][i - 1] { }
      }
    }
  }

  lemma {:induction false} TrimEndEmpty(s: string)
    ensures TrimEnd(s) == [] <==> Blank(s)
  {
    if s != [] && IsWhitespace(s[|s| - 1]) {
      var p := s[..|s| - 1];
      TrimEndEmpty(p);
      assert Blank(s) <==> Blank(p) by {
        forall i | 0 <= i < |p| ensures s[i] == p[i] { }
      }
    }
  }

  /** A string is falsy after `trim()` exactly when it consists of whitespace only. */
  lemma TrimEmptyIffBlank(s: string)
    ensures Trim(s) == [] <==> Blank(s)
  {
    TrimStartBlank(s);
    TrimEndEmpty(TrimStart(s));
  }

  // ---------------------------------------------------------------------------
  // split with a one-character separator
  // ---------------------------------------------------------------------------

  /** `s.split(sep)` for a one-character separator: always at least one piece,
      and no piece contains the separator. */
  function Split(s: string, sep: char): (pieces: seq<string>)
    ensures |pieces| >= 1
    ensures forall k | 0 <= k < |pieces| :: sep !in pieces[k]
    ensures |pieces| <= |s| + 1
  {
    if s == [] then [[]]
    else
      var rest := Split(s[1..], sep);
      if s[0] == sep then [[]] + rest
      else [[s[0]] + rest[0]] + rest[1..]
  }

  /** `pieces.join(sep)` */
  function Join(pieces: seq<string>, sep: char): string
    requires |pieces| >= 1
  {
    if |pieces| == 1 then pieces[0] else pieces[0] + [sep] + Join(pieces[1..], sep)
  }

  /** Splitting loses nothing: joining the pieces back gives the input. */
  lemma {:induction false} JoinSplit(s: string, sep: char)
    ensures Join(Split(s, sep), sep) == s
  {
    if s != [] {
      var rest := Split(s[1..], sep);
      JoinSplit(s[1..], sep);
      if s[0] != sep {
        var r := [[s[0]] + rest[0]] + rest[1..];
        assert r[1..] == rest[1..];
        if |rest| > 1 {
          assert Join(rest, sep) == rest[0] + [sep] + Join(rest[1..], sep);
        }
      } else {
        assert ([[]] + rest)[1..] == rest;
      }
    }
  }

  // ---------------------------------------------------------------------------
  // replace(new RegExp(pattern, 'g'), replacement) for a literal pattern
  // ---------------------------------------------------------------------------

  /** Leftmost, non-overlapping replacement of every occurrence of `pat`,
      scanning left to right; the replacement text is not rescanned. */
  function ReplaceAll(s: string, pat: string, rep: string): string
    requires |pat| > 0
    decreases |s|
  {
    if |s| < |pat| then s
    else if s[..|pat|] == pat then rep + ReplaceAll(s[|pat|..], pat, rep)
    else [s[0]] + ReplaceAll(s[1..], pat, rep)
  }

  /** A text without the first character of the pattern is returned unchanged. */
  lemma {:induction false} ReplaceAllAbsent(s: string, pat: string, rep: string)
    requires |pat| > 0 && pat[0] !in s
    ensures ReplaceAll(s, pat, rep) == s
  {
    if |s| >= |pat| {
      assert s[..|pat|][0] == s[0];
      ReplaceAllAbsent(s[1..], pat, rep);
    }
  }

  /** If neither the text nor the replacement contains `c`, the result does not either. */
  lemma {:induction false} ReplaceAllKeepsAbsent(s: string, pat: string, rep: string, c: char)
    requires |pat| > 0 && c !in s && c !in rep
    ensures c !in ReplaceAll(s, pat, rep)
  {
    if |s| >= |pat| {
      if s[..|pat|] == pat {
        ReplaceAllKeepsAbsent(s[|pat|..], pat, rep, c);
      } else {
        ReplaceAllKeepsAbsent(s[1..], pat, rep, c);
      }
    }
  }

  /** Replacing an occurrence that is the whole text. */
  lemma ReplaceAllWhole(pat: string, rep: string)
    requires |pat| > 0
    ensures ReplaceAll(pat, pat, rep) == rep
  {
    assert pat[..|pat|] == pat;
    assert pat[|pat|..] == [];
  }

  /** A piece of text that a global replacement of `pat` copies unchanged
      whatever follows it: it does not contain the first character of `pat`,
      or it starts with that character but differs from `pat` at the second
      position and does not contain it again. */
  predicate Inert(seg: string, pat: string) {
    || pat == [] || pat[0] !in seg
    || (|seg| >= 2 && |pat| >= 2 && seg[0] == pat[0] && seg[1] != pat[1] && pat[0] !in seg[1..])
  }

  function Concat(segs: seq<string>): string {
    if segs == [] then [] else segs[0] + Concat(segs[1..])
  }

  /** Each segment replaced on its own: whole occurrences of `pat` by `rep`. */
  function ReplaceSegments(segs: seq<string>, pat: string, rep: string): (r: seq<string>)
    ensures |r| == |segs|
  {
    if segs == [] then [] else [if segs[0] == pat then rep else segs[0]] + ReplaceSegments(segs[1..], pat, rep)
  }

  lemma {:induction false} ReplaceAllSkip(a: string, b: string, pat: string, rep: string)
    requires |pat| > 0 && pat[0] !in a
    ensures ReplaceAll(a + b, pat, rep) == a + ReplaceAll(b, pat, rep)
    decreases |a|
  {
    if a != [] {
      var s := a + b;
      assert s[1..] == a[1..] + b;
      ReplaceAllSkip(a[1..], b, pat, rep);
      if |s| >= |pat| {
        assert s[..|pat|][0] == a[0] && a[0] != pat[0];
        ReplaceAllMiss(s, pat, rep);
        ConsRest(a, ReplaceAll(b, pat, rep));
      } else {
        ReplaceAllShort(s, pat, rep);
        ReplaceAllShort(b, pat, rep);
      }
    } else {
      assert a + b == b;
    }
  }

  /** Where the text does not start with the pattern, its first character is
      copied and the rest is replaced. */
  lemma ReplaceAllMiss(s: string, pat: string, rep: string)
    requires 0 < |pat| <= |s| && s[..|pat|] != pat
    ensures ReplaceAll(s, pat, rep) == [s[0]] + ReplaceAll(s[1..], pat, rep)
  {
  }

  lemma ConsRest<T>(a: seq<T>, r: seq<T>)
    requires a != []
    ensures [a[0]] + (a[1..] + r) == a + r
  {
    assert [a[0]] + a[1..] == a;
  }

  lemma ReplaceAllShort(s: string, pat: string, rep: string)
    requires |pat| > 0 && |s| < |pat|
    ensures ReplaceAll(s, pat, rep) == s
  {
  }

  lemma ReplaceAllInert(seg: string, b: string, pat: string, rep: string)
    requires |pat| > 0 && Inert(seg, pat)
    ensures ReplaceAll(seg + b, pat, rep) == seg + ReplaceAll(b, pat, rep)
  {
    if pat[0] !in seg {
      ReplaceAllSkip(seg, b, pat, rep);
    } else {
      ReplaceAllPastHead(seg, b, pat, rep);
    }
  }

  /** A piece that starts like the pattern but parts from it at the second
      character, and holds the pattern's first character nowhere else. */
  lemma ReplaceAllPastHead(seg: string, b: string, pat: string, rep: string)
    requires |seg| >= 2 && |pat| >= 2 && seg[0] == pat[0] && seg[1] != pat[1] && pat[0] !in seg[1..]
    ensures ReplaceAll(seg + b, pat, rep) == seg + ReplaceAll(b, pat, rep)
  {
    var s := seg + b;
    if |s| < |pat| {
      ReplaceAllShort(s, pat, rep);
      ReplaceAllShort(b, pat, rep);
    } else {
      assert s[..|pat|][1] == seg[1];
      assert s[1..] == seg[1..] + b;
      ReplaceAllMiss(s, pat, rep);
      ReplaceAllSkip(seg[1..], b, pat, rep);
      ConsRest(seg, ReplaceAll(b, pat, rep));
    }
  }

  /** A text cut into whole occurrences of `pat` and inert pieces is
      replaced piece by piece. */
  lemma {:induction false} ReplaceAllBySegments(segs: seq<string>, pat: string, rep: string)
    requires |pat| > 0
    requires forall k | 0 <= k < |segs| :: segs[k] == pat || Inert(segs[k], pat)
    ensures ReplaceAll(Concat(segs), pat, rep) == Concat(ReplaceSegments(segs, pat, rep))
  {
    if segs != [] {
      ReplaceAllBySegments(segs[1..], pat, rep);
      if segs[0] == pat {
        var s := Concat(segs);
        assert s[..|pat|] == pat;
        assert s[|pat|..] == Concat(segs[1..]);
      } else {
        ReplaceAllInert(segs[0], Concat(segs[1..]), pat, rep);
      }
    }
  }

  // ---------------------------------------------------------------------------
  // padStart, String(n), lastIndexOf
  // ---------------------------------------------------------------------------

  function Repeat(c: char, n: nat): (r: string)
    ensures |r| == n && forall i | 0 <= i < n :: r[i] == c
  {
    if n == 0 then [] else [c] + Repeat(c, n - 1)
  }

  /** `s.padStart(width, c)`: pads on the left, never truncates. */
  function PadStart(s: string, width: nat, c: char): (r: string)
    ensures |r| == if |s| >= width then |s| else width
    ensures r[|r| - |s|..] == s
    ensures forall i | 0 <= i < |r| - |s| :: r[i] == c
  {
    if |s| >= width then s else Repeat(c, width - |s|) + s
  }

  /** The character of the decimal digit `d`. */
  function DigitChar(d: nat): (c: char)
    requires d < 10
    ensures IsDigit(c) && DigitValue(c) == d
  {
    ('0' as int + d) as char
  }

  predicate IsDigit(c: char) {
    '0' <= c <= '9'
  }

  function DigitValue(c: char): (d: nat)
    requires IsDigit(c)
  {
    c as int - '0' as int
  }

  /** `String(n)` for a whole number: its decimal digits, no leading zero. */
  function NatToString(n: nat): (r: string)
    ensures |r| >= 1
    ensures forall i | 0 <= i < |r| :: IsDigit(r[i])
    ensures r[0] == '0' ==> n == 0
  {
    if n < 10 then [DigitChar(n)] else NatToString(n / 10) + [DigitChar(n % 10)]
  }

  /** The value a string of decimal digits denotes. */
  function ParseDecimal(s: string): nat
    requires forall i | 0 <= i < |s| :: IsDigit(s[i])
  {
    if s == [] then 0 else 10 * ParseDecimal(s[..|s| - 1]) + DigitValue(s[|s| - 1])
  }

  /** `String(n)` is read back as `n`. */
  lemma {:induction false} ParseNatToString(n: nat)
    ensures ParseDecimal(NatToString(n)) == n
  {
    var r := NatToString(n);
    if n < 10 {
      assert r[..|r| - 1] == [];
    } else {
      ParseNatToString(n / 10);
      assert r[..|r| - 1] == NatToString(n / 10);
      assert ParseDecimal(r) == 10 * (n / 10) + n % 10;
    }
  }

  /** Leading zeros do not change the value of a digit string. */
  lemma {:induction false} ParseLeadingZeros(k: nat, s: string)
    requires forall i | 0 <= i < |s| :: IsDigit(s[i])
    ensures forall i | 0 <= i < |Repeat('0', k) + s| :: IsDigit((Repeat('0', k) + s)[i])
    ensures ParseDecimal(Repeat('0', k) + s) == ParseDecimal(s)
  {
    var t := Repeat('0', k) + s;
    assert forall i | 0 <= i < |t| :: IsDigit(t[i]) by {
      forall i | 0 <= i < |t| ensures IsDigit(t[i]) {
        if i >= k { assert t[i] == s[i - k]; }
      }
    }
    if s == [] {
      assert t == Repeat('0', k);
      ParseZeros(k);
    } else {
      ParseLeadingZeros(k, s[..|s| - 1]);
      assert t[..|t| - 1] == Repeat('0', k) + s[..|s| - 1];
    }
  }

  lemma {:induction false} ParseZeros(k: nat)
    ensures ParseDecimal(Repeat('0', k)) == 0
  {
    if k > 0 {
      var z := Repeat('0', k);
      assert z[..|z| - 1] == Repeat('0', k - 1) by {
        assert z == [('0')] + Repeat('0', k - 1);
        assert forall i | 0 <= i < k - 1 :: z[i] == '0';
      }
      ParseZeros(k - 1);
    }
  }

  /** `s.lastIndexOf(c)`: the greatest index holding `c`, or -1. */
  function LastIndexOf(s: string, c: char): (r: int)
    ensures -1 <= r < |s|
    ensures r >= 0 ==> s[r] == c
    ensures forall j | r < j < |s| :: s[j] != c
  {
    if s == [] then -1
    else if s[|s| - 1] == c then |s| - 1
    else LastIndexOf(s[..|s| - 1], c)
  }

  // ---------------------------------------------------------------------------
  // Date
  // ---------------------------------------------------------------------------

  /** The local calendar fields a `Date` reports: `getFullYear()`,
      `getMonth()` (zero-based), `getDate()`, `getHours()`, `getMinutes()`,
      `getSeconds()`. The year is taken as non-negative. */
  datatype DateTime = DateTime(fullYear: nat, month: nat, date: nat, hours: nat, minutes: nat, seconds: nat) {
    /** The ranges a `Date` guarantees for these fields. */
    predicate Valid() {
      month < 12 && 1 <= date <= 31 && hours < 24 && minutes < 60 && seconds < 60
    }
  }

  /** `String(n).padStart(2, '0')` */
  function Pad2(n: nat): string {
    PadStart(NatToString(n), 2, '0')
  }

  /** Below 100, the two-digit form is exactly the tens and the units digit. */
  lemma Pad2Digits(n: nat)
    requires n < 100
    ensures Pad2(n) == [DigitChar(n / 10), DigitChar(n % 10)]
  {
    if n >= 10 {
      assert NatToString(n / 10) == [DigitChar(n / 10)];
    }
  }
}

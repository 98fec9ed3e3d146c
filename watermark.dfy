/** The watermark renderer: the resolution scale factor, date/time
    placeholder substitution, the selection of the lines to draw, the tiled
    grid and the centred single block, the per-line layout inside a block,
    the orchestration on a fresh canvas, and the size rule of
    `resizeCanvas`. Lengths are real numbers; text widths come from the
    context's measurement function; the canvas diagonal is a parameter. */
module Watermark {
  import opened Wrappers
  import opened JsRuntime
  import opened Canvas
  import opened Exif

  /** The options of one render. `strokeWidth` and `strokeColor` may be
      absent; absent values take the defaults 0 and `DefaultStrokeColor`. */
  datatype WatermarkOptions = WatermarkOptions(
    text: string,
    tiled: bool,
    spacing: real,
    lineHeight: real,
    fontSize: real,
    opacity: real,
    angle: real,
    color: string,
    strokeWidth: Option<real>,
    strokeColor: Option<string>)

  const DefaultStrokeColor := "rgba(255, 255, 255, 0.5)"
  const FontFamily := "-apple-system, BlinkMacSystemFont, 'SF Pro Text', Arial, sans-serif"

  /** The smaller image side at which watermark geometry starts to grow. */
  const BaseWidth := 1280.0

  function Min(a: real, b: real): real {
    if a <= b then a else b
  }

  // ---------------------------------------------------------------------------
  // Scale factor
  // ---------------------------------------------------------------------------

  /** `max(1, min(width, height) / 1280)`: never below 1, exactly 1 up to a
      smaller side of 1280 pixels, and proportional to the smaller side above. */
  function ScaleFactor(width: real, height: real): (s: real)
    ensures s >= 1.0
    ensures s == 1.0 <==> Min(width, height) <= BaseWidth
    ensures s > 1.0 ==> s * BaseWidth == Min(width, height)
  {
    var r := Min(width, height) / BaseWidth;
    if 1.0 >= r then 1.0 else r
  }

  /** A larger smaller side never gives a smaller scale factor, so scaled
      sizes never shrink as the image grows. */
  lemma ScaleFactorMonotone(w1: real, h1: real, w2: real, h2: real, size: real)
    requires Min(w1, h1) <= Min(w2, h2) && size >= 0.0
    ensures ScaleFactor(w1, h1) <= ScaleFactor(w2, h2)
    ensures size <= size * ScaleFactor(w1, h1) <= size * ScaleFactor(w2, h2)
  {
    var s1, s2 := ScaleFactor(w1, h1), ScaleFactor(w2, h2);
    assert size * s1 - size == size * (s1 - 1.0);
    assert size * s2 - size * s1 == size * (s2 - s1);
  }

  // ---------------------------------------------------------------------------
  // Placeholder substitution
  // ---------------------------------------------------------------------------

  /** The six numbers a clock reading shows, in the order year, month
      (counted from 1), day, hours, minutes, seconds. */
  function FieldNumber(now: DateTime, j: int): nat {
    if j == 0 then now.fullYear
    else if j == 1 then now.month + 1
    else if j == 2 then now.date
    else if j == 3 then now.hours
    else if j == 4 then now.minutes
    else now.seconds
  }

  /** The formatted field `j`: the year as plain decimal, the others
      left-padded with '0' to two characters. */
  function FieldValue(now: DateTime, j: int): string {
    if j == 0 then NatToString(FieldNumber(now, j)) else Pad2(FieldNumber(now, j))
  }

  /** The six formatted fields of a clock reading. */
  function FieldValues(now: DateTime): (f: seq<string>)
    ensures |f| == 6
  {
    seq(6, j => FieldValue(now, j))
  }

  /** The placeholder table, in the order the source lists its entries. */
  function Replacements(now: DateTime): seq<(string, string)> {
    var f := FieldValues(now);
    Table(f[0], f[1], f[2], f[3], f[4], f[5])
  }

  /** The nine keys and their values, built from the six formatted fields. */
  function Table(year: string, month: string, day: string, hours: string, minutes: string, seconds: string)
    : (t: seq<(string, string)>)
    ensures |t| == 9 && NonEmptyKeys(t)
    ensures forall k | 0 <= k < |t| :: t[k].0[0] == '{'
  {
    [ ("{YYYY}", year),
      ("{MM}", month),
      ("{DD}", day),
      ("{HH}", hours),
      ("{mm}", minutes),
      ("{ss}", seconds),
      ("{YYYY-MM-DD}", year + "-" + month + "-" + day),
      ("{HH:mm}", hours + ":" + minutes),
      ("{YYYY-MM-DD HH:mm}", year + "-" + month + "-" + day + " " + hours + ":" + minutes) ]
  }

  /** The nine placeholder keys, in table order, without their braces. */
  const KeyNames: seq<string> := ["YYYY", "MM", "DD", "HH", "mm", "ss", "YYYY-MM-DD", "HH:mm", "YYYY-MM-DD HH:mm"]

  const PlaceholderKeys: seq<string> := seq(9, k requires 0 <= k < 9 => "{" + KeyNames[k] + "}")

  lemma TableKeys(year: string, month: string, day: string, hours: string, minutes: string, seconds: string)
    ensures var t := Table(year, month, day, hours, minutes, seconds);
            forall k | 0 <= k < |t| :: t[k].0 == PlaceholderKeys[k]
  {
  }

  /** `p` occurs in `s` at offset `o`. */
  predicate OccursAt(p: string, s: string, o: int) {
    0 <= o && o + |p| <= |s| && s[o..o + |p|] == p
  }

  /** A key opens with its only '{' and closes with its only '}'. */
  predicate Bracketed(key: string) {
    |key| >= 2 && key[0] == '{' && key[|key| - 1] == '}' && '{' !in key[1..] && '}' !in key[..|key| - 1]
  }

  /** A bracketed key occurs inside another bracketed key only as the whole of it. */
  lemma BracketedNotNested(p: string, s: string, o: int)
    requires Bracketed(p) && Bracketed(s) && OccursAt(p, s, o)
    ensures p == s
  {
    assert s[o] == s[o..o + |p|][0] == '{';
    if o > 0 {
      assert false;
    }
    assert s[|p| - 1] == s[..|p|][|p| - 1] == '}';
    if |p| < |s| {
      assert false;
    }
    assert s == s[..|p|];
  }

  lemma PlaceholderKeysBracketed()
    ensures forall k | 0 <= k < |PlaceholderKeys| :: Bracketed(PlaceholderKeys[k])
  {
    forall k | 0 <= k < 9 ensures Bracketed(PlaceholderKeys[k]) {
      BracketedKey(KeyNames[k]);
    }
  }

  lemma BracketedKey(name: string)
    requires '{' !in name && '}' !in name
    ensures Bracketed("{" + name + "}")
  {
    var key := "{" + name + "}";
    assert key[1..] == name + "}";
    assert key[..|key| - 1] == "{" + name;
  }

  lemma KeyNamesDistinct()
    ensures forall i, j | 0 <= i < 9 && 0 <= j < 9 && i != j :: KeyNames[i] != KeyNames[j]
  {
  }

  /** No placeholder key occurs inside another, so no entry's replacement
      can consume part of a later entry's key. */
  lemma KeysNotNested(year: string, month: string, day: string, hours: string, minutes: string, seconds: string)
    ensures var t := Table(year, month, day, hours, minutes, seconds);
            forall i, j, o | 0 <= i < |t| && 0 <= j < |t| && i != j :: !OccursAt(t[i].0, t[j].0, o)
  {
    TableKeys(year, month, day, hours, minutes, seconds);
    PlaceholderKeysBracketed();
    KeyNamesDistinct();
    forall i, j, o | 0 <= i < 9 && 0 <= j < 9 && i != j
      ensures !OccursAt(PlaceholderKeys[i], PlaceholderKeys[j], o)
    {
      KeyInOtherSameName(PlaceholderKeys[i], PlaceholderKeys[j], KeyNames[i], KeyNames[j], o);
    }
  }

  /** Two bracketed keys nest only when their names agree. */
  lemma KeyInOtherSameName(p: string, s: string, pName: string, sName: string, o: int)
    requires p == "{" + pName + "}" && s == "{" + sName + "}"
    requires Bracketed(p) && Bracketed(s)
    ensures OccursAt(p, s, o) ==> pName == sName
  {
    if OccursAt(p, s, o) {
      BracketedNotNested(p, s, o);
      assert pName == p[1..|p| - 1];
      assert sName == s[1..|s| - 1];
    }
  }

  predicate NonEmptyKeys(entries: seq<(string, string)>) {
    forall k | 0 <= k < |entries| :: |entries[k].0| > 0
  }

  /** Each entry in turn replaces every occurrence of its key in the result
      of the previous one. */
  function ReplaceEach(text: string, entries: seq<(string, string)>): string
    requires NonEmptyKeys(entries)
    decreases |entries|
  {
    if entries == [] then text
    else ReplaceEach(ReplaceAll(text, entries[0].0, entries[0].1), entries[1..])
  }

  /** The text after substitution at the instant `now`. */
  function Substituted(text: string, now: DateTime): string {
    ReplaceEach(text, Replacements(now))
  }

  /** `replaceDateTimePlaceholders`, with the clock reading passed in. */
  method ReplaceDateTimePlaceholders(text: string, now: DateTime) returns (result: string)
    ensures result == Substituted(text, now)
  {
    var entries := Replacements(now);
    result := text;
    for k := 0 to |entries|
      invariant ReplaceEach(result, entries[k..]) == ReplaceEach(text, entries)
    {
      assert entries[k..][1..] == entries[k + 1..];
      result := ReplaceAll(result, entries[k].0, entries[k].1);
    }
  }

  lemma {:induction false} ReplaceEachAbsent(text: string, entries: seq<(string, string)>)
    requires NonEmptyKeys(entries)
    requires forall k | 0 <= k < |entries| :: entries[k].0[0] == '{'
    requires '{' !in text
    ensures ReplaceEach(text, entries) == text
  {
    if entries != [] {
      ReplaceAllAbsent(text, entries[0].0, entries[0].1);
      ReplaceEachAbsent(text, entries[1..]);
    }
  }

  /** A text without '{' comes back unchanged. */
  lemma SubstitutionWithoutBraceIsIdentity(text: string, now: DateTime)
    requires '{' !in text
    ensures Substituted(text, now) == text
  {
    ReplaceEachAbsent(text, Replacements(now));
  }

  lemma NoBraceInNumbers(n: nat)
    ensures '{' !in NatToString(n) && '{' !in Pad2(n)
  {
    var s := NatToString(n);
    assert forall i | 0 <= i < |s| :: s[i] != '{';
    var p := Pad2(n);
    assert forall i | 0 <= i < |p| :: p[i] != '{' by {
      forall i | 0 <= i < |p| ensures p[i] != '{' {
        if i >= |p| - |s| { assert p[i] == p[|p| - |s|..][i - (|p| - |s|)]; }
      }
    }
  }

  /** The six single-field keys, in table order. */
  const FieldKeys: seq<string> := ["{YYYY}", "{MM}", "{DD}", "{HH}", "{mm}", "{ss}"]

  /** The all-fields template with each field slot filled by `f`. */
  function FieldSegments(f: seq<string>): (segs: seq<string>)
    requires |f| == 6
    ensures |segs| == 11
  {
    seq(11, i requires 0 <= i < 11 => if i % 2 == 0 then f[i / 2] else Separators[i / 2])
  }

  /** The separators of the all-fields template, between consecutive slots. */
  const Separators: seq<string> := ["-", "-", " ", ":", ":"]

  /** The six single-field keys differ at their second character and hold
      '{' only at their start. */
  lemma FieldKeysInert(j: nat, k: nat)
    requires j < 6 && k < 6 && j != k
    ensures Inert(FieldKeys[j], FieldKeys[k])
  {
    var kj, kk := FieldKeys[j], FieldKeys[k];
    assert kj[0] == '{' && kk[0] == '{';
    assert forall i | 1 <= i < |kj| :: kj[i] != '{';
    assert '{' !in kj[1..] by {
      forall i | 0 <= i < |kj[1..]| ensures kj[1..][i] != '{' { assert kj[1..][i] == kj[i + 1]; }
    }
  }

  lemma FieldSegmentsInert(f: seq<string>, k: nat)
    requires |f| == 6 && k < 6
    requires forall j | 0 <= j < k :: '{' !in f[j]
    requires forall j | k <= j < 6 :: f[j] == FieldKeys[j]
    ensures var segs := FieldSegments(f);
            forall i | 0 <= i < |segs| :: segs[i] == FieldKeys[k] || Inert(segs[i], FieldKeys[k])
  {
    var segs := FieldSegments(f);
    forall i | 0 <= i < |segs| ensures segs[i] == FieldKeys[k] || Inert(segs[i], FieldKeys[k]) {
      if i % 2 == 1 {
        assert segs[i] in {"-", " ", ":"};
      } else if i / 2 < k {
        assert segs[i] == f[i / 2];
      } else if i / 2 > k {
        assert segs[i] == FieldKeys[i / 2];
        FieldKeysInert(i / 2, k);
      }
    }
  }

  /** Replacing the key of slot `k` changes slot `k` only. */
  lemma SlotReplaced(f: seq<string>, k: nat, rep: string, j: nat)
    requires |f| == 6 && k < 6 && j < 6
    requires forall i | 0 <= i < k :: '{' !in f[i]
    requires forall i | k <= i < 6 :: f[i] == FieldKeys[i]
    ensures (if f[j] == FieldKeys[k] then rep else f[j]) == f[k := rep][j]
  {
    assert FieldKeys[k][0] == '{';
    if j > k {
      FieldKeysInert(j, k);
    }
  }

  lemma FieldSegmentsReplaced(f: seq<string>, k: nat, rep: string)
    requires |f| == 6 && k < 6
    requires forall j | 0 <= j < k :: '{' !in f[j]
    requires forall j | k <= j < 6 :: f[j] == FieldKeys[j]
    ensures ReplaceSegments(FieldSegments(f), FieldKeys[k], rep) == FieldSegments(f[k := rep])
  {
    var r := ReplaceSegments(FieldSegments(f), FieldKeys[k], rep);
    var want := FieldSegments(f[k := rep]);
    forall i | 0 <= i < 11 ensures r[i] == want[i] {
      if i % 2 == 0 {
        EvenSlot(f, k, rep, i / 2);
      } else {
        OddSlot(f, k, rep, i / 2);
      }
    }
  }

  lemma EvenSlot(f: seq<string>, k: nat, rep: string, j: nat)
    requires |f| == 6 && k < 6 && j < 6
    requires forall i | 0 <= i < k :: '{' !in f[i]
    requires forall i | k <= i < 6 :: f[i] == FieldKeys[i]
    ensures ReplaceSegments(FieldSegments(f), FieldKeys[k], rep)[2 * j] == FieldSegments(f[k := rep])[2 * j]
  {
    var segs, g := FieldSegments(f), f[k := rep];
    assert (2 * j) % 2 == 0 && (2 * j) / 2 == j;
    assert segs[2 * j] == f[j] && FieldSegments(g)[2 * j] == g[j];
    ReplaceSegmentsAt(segs, FieldKeys[k], rep, 2 * j);
    SlotReplaced(f, k, rep, j);
  }

  /** The separators between the slots are left alone. */
  lemma OddSlot(f: seq<string>, k: nat, rep: string, j: nat)
    requires |f| == 6 && k < 6 && j < 5
    ensures ReplaceSegments(FieldSegments(f), FieldKeys[k], rep)[2 * j + 1] == FieldSegments(f[k := rep])[2 * j + 1]
  {
    var segs, g := FieldSegments(f), f[k := rep];
    assert (2 * j + 1) % 2 == 1 && (2 * j + 1) / 2 == j;
    assert segs[2 * j + 1] == Separators[j] == FieldSegments(g)[2 * j + 1];
    assert Separators[j][0] != '{' == FieldKeys[k][0];
    ReplaceSegmentsAt(segs, FieldKeys[k], rep, 2 * j + 1);
  }

  /** One step of the substitution of the all-fields template: the slots
      before `k` already hold values, the slots from `k` on still hold keys. */
  lemma FieldStep(f: seq<string>, k: nat, rep: string)
    requires |f| == 6 && k < 6
    requires forall j | 0 <= j < k :: '{' !in f[j]
    requires forall j | k <= j < 6 :: f[j] == FieldKeys[j]
    ensures ReplaceAll(Concat(FieldSegments(f)), FieldKeys[k], rep) == Concat(FieldSegments(f[k := rep]))
  {
    FieldSegmentsInert(f, k);
    ReplaceAllBySegments(FieldSegments(f), FieldKeys[k], rep);
    FieldSegmentsReplaced(f, k, rep);
  }

  lemma {:induction false} ReplaceSegmentsAt(segs: seq<string>, pat: string, rep: string, i: nat)
    requires i < |segs|
    ensures ReplaceSegments(segs, pat, rep)[i] == if segs[i] == pat then rep else segs[i]
  {
    if i > 0 {
      ReplaceSegmentsAt(segs[1..], pat, rep, i - 1);
    }
  }

  /** The segments of the template, joined from the right. */
  function Joined(f: seq<string>): string
    requires |f| == 6
  {
    f[0] + ("-" + (f[1] + ("-" + (f[2] + (" " + (f[3] + (":" + (f[4] + (":" + f[5])))))))))
  }

  lemma ConcatFieldSegments(f: seq<string>)
    requires |f| == 6
    ensures Concat(FieldSegments(f)) == Joined(f)
  {
    var s := FieldSegments(f);
    assert Concat(s[11..]) == [];
    assert s[10..][1..] == s[11..];
    assert s[9..][1..] == s[10..];
    assert s[8..][1..] == s[9..];
    assert s[7..][1..] == s[8..];
    assert s[6..][1..] == s[7..];
    assert s[5..][1..] == s[6..];
    assert s[4..][1..] == s[5..];
    assert s[3..][1..] == s[4..];
    assert s[2..][1..] == s[3..];
    assert s[1..][1..] == s[2..];
    assert Concat(s[10..]) == s[10];
    assert Concat(s[9..]) == s[9] + Concat(s[10..]);
    assert Concat(s[8..]) == s[8] + Concat(s[9..]);
    assert Concat(s[7..]) == s[7] + Concat(s[8..]);
    assert Concat(s[6..]) == s[6] + Concat(s[7..]);
    assert Concat(s[5..]) == s[5] + Concat(s[6..]);
    assert Concat(s[4..]) == s[4] + Concat(s[5..]);
    assert Concat(s[3..]) == s[3] + Concat(s[4..]);
    assert Concat(s[2..]) == s[2] + Concat(s[3..]);
    assert Concat(s[1..]) == s[1] + Concat(s[2..]);
    assert Concat(s) == s[0] + Concat(s[1..]);
  }

  /** Substituting the single-field entries from `k` on fills the remaining
      slots of the template with their values. */
  lemma {:induction false} FieldSteps(f: seq<string>, k: nat, vals: seq<string>, e: seq<(string, string)>)
    requires |f| == 6 && |vals| == 6 && k <= 6 && |e| >= 6 && NonEmptyKeys(e)
    requires forall j | 0 <= j < 6 :: e[j] == (FieldKeys[j], vals[j]) && '{' !in vals[j]
    requires forall j | 0 <= j < k :: f[j] == vals[j]
    requires forall j | k <= j < 6 :: f[j] == FieldKeys[j]
    ensures ReplaceEach(Concat(FieldSegments(f)), e[k..]) == ReplaceEach(Concat(FieldSegments(vals)), e[6..])
    decreases 6 - k
  {
    if k == 6 {
      assert f == vals;
    } else {
      FieldStep(f, k, vals[k]);
      var g := f[k := vals[k]];
      assert e[k..][0] == e[k] && e[k..][1..] == e[k + 1..];
      FieldSteps(g, k + 1, vals, e);
    }
  }

  /** The first six entries of the table are the single-field keys with the
      formatted fields, none holding '{'. */
  lemma ReplacementsFields(now: DateTime)
    ensures var e := Replacements(now);
            |e| == 9 && NonEmptyKeys(e) &&
            forall j | 0 <= j < 6 :: e[j] == (FieldKeys[j], FieldValues(now)[j]) && '{' !in FieldValues(now)[j]
  {
    TableFields(FieldValues(now));
    FieldValuesNoBrace(now);
  }

  lemma FieldValuesNoBrace(now: DateTime)
    ensures forall j | 0 <= j < 6 :: '{' !in FieldValues(now)[j]
  {
    forall j | 0 <= j < 6 ensures '{' !in FieldValues(now)[j] {
      NoBraceInNumbers(FieldNumber(now, j));
    }
  }

  /** The first six entries of the table are the single-field keys with the
      six values, in order. */
  lemma TableFields(vals: seq<string>)
    requires |vals| == 6
    ensures var t := Table(vals[0], vals[1], vals[2], vals[3], vals[4], vals[5]);
            forall j | 0 <= j < 6 :: t[j] == (FieldKeys[j], vals[j])
  {
    var t := Table(vals[0], vals[1], vals[2], vals[3], vals[4], vals[5]);
    assert t[..6] == [(FieldKeys[0], vals[0]), (FieldKeys[1], vals[1]), (FieldKeys[2], vals[2]),
                      (FieldKeys[3], vals[3]), (FieldKeys[4], vals[4]), (FieldKeys[5], vals[5])];
    forall j | 0 <= j < 6
      ensures t[j] == (FieldKeys[j], vals[j])
    {
      assert t[j] == t[..6][j];
    }
  }

  /** The all-fields template (the six keys joined by the separators of
      "{YYYY}-{MM}-{DD} {HH}:{mm}:{ss}", see `TemplateIsJoinedKeys`) becomes
      the six formatted fields joined by the same separators, for every clock
      reading. */
  lemma AllFieldsTemplate(now: DateTime)
    ensures Substituted(Joined(FieldKeys), now) == Joined(FieldValues(now))
  {
    ReplacementsFields(now);
    AllFieldsReplaced(FieldValues(now), Replacements(now));
  }

  /** Any table whose first six entries map the single-field keys to values
      without '{', and whose other keys start with '{', turns the joined keys
      into the joined values. */
  lemma AllFieldsReplaced(vals: seq<string>, e: seq<(string, string)>)
    requires |vals| == 6 && |e| >= 6 && NonEmptyKeys(e)
    requires forall k | 0 <= k < |e| :: e[k].0[0] == '{'
    requires forall j | 0 <= j < 6 :: e[j] == (FieldKeys[j], vals[j]) && '{' !in vals[j]
    ensures ReplaceEach(Joined(FieldKeys), e) == Joined(vals)
  {
    JoinedKeysReplaced(FieldKeys, vals, e);
  }

  /** The same, with the keys held in a variable so that the template is not
      evaluated as a literal. */
  lemma JoinedKeysReplaced(keys: seq<string>, vals: seq<string>, e: seq<(string, string)>)
    requires keys == FieldKeys
    requires |vals| == 6 && |e| >= 6 && NonEmptyKeys(e)
    requires forall k | 0 <= k < |e| :: e[k].0[0] == '{'
    requires forall j | 0 <= j < 6 :: e[j] == (FieldKeys[j], vals[j]) && '{' !in vals[j]
    ensures ReplaceEach(Joined(keys), e) == Joined(vals)
  {
    assert e[0..] == e;
    calc {
      ReplaceEach(Joined(keys), e);
      { ConcatFieldSegments(keys); }
      ReplaceEach(Concat(FieldSegments(keys)), e[0..]);
      { FieldSteps(keys, 0, vals, e); }
      ReplaceEach(Concat(FieldSegments(vals)), e[6..]);
      { ConcatFieldSegments(vals); }
      ReplaceEach(Joined(vals), e[6..]);
      { RestLeaveValues(vals, e); }
      Joined(vals);
    }
  }

  /** The entries after the six single-field ones find no '{' in the values. */
  lemma RestLeaveValues(vals: seq<string>, e: seq<(string, string)>)
    requires |vals| == 6 && |e| >= 6 && NonEmptyKeys(e)
    requires forall k | 0 <= k < |e| :: e[k].0[0] == '{'
    requires forall j | 0 <= j < 6 :: '{' !in vals[j]
    ensures NonEmptyKeys(e[6..]) && ReplaceEach(Joined(vals), e[6..]) == Joined(vals)
  {
    JoinedNoBrace(vals);
    ReplaceEachAbsent(Joined(vals), e[6..]);
  }

  lemma JoinedNoBrace(vals: seq<string>)
    requires |vals| == 6 && forall j | 0 <= j < 6 :: '{' !in vals[j]
    ensures '{' !in Joined(vals)
  {
  }

  lemma TemplateIsJoinedKeys()
    ensures Joined(FieldKeys) == "{YYYY}-{MM}-{DD} {HH}:{mm}:{ss}"
  {
  }

  /** At 2024-03-05 09:07:03 the all-fields template reads "2024-03-05 09:07:03". */
  lemma AllFieldsExample()
    ensures Substituted("{YYYY}-{MM}-{DD} {HH}:{mm}:{ss}", DateTime(2024, 2, 5, 9, 7, 3)) == "2024-03-05 09:07:03"
  {
    var now := DateTime(2024, 2, 5, 9, 7, 3);
    AllFieldsTemplate(now);
    TemplateIsJoinedKeys();
    ExampleFieldValues();
    ExampleJoined(FieldValues(now));
  }

  lemma ExampleJoined(vals: seq<string>)
    requires vals == ["2024", "03", "05", "09", "07", "03"]
    ensures Joined(vals) == "2024-03-05 09:07:03"
  {
  }

  lemma ExampleFieldValues()
    ensures FieldValues(DateTime(2024, 2, 5, 9, 7, 3)) == ["2024", "03", "05", "09", "07", "03"]
  {
    assert NatToString(2024) == "2024";
    Pad2Digits(3);
    Pad2Digits(5);
    Pad2Digits(9);
    Pad2Digits(7);
  }

  // ---------------------------------------------------------------------------
  // Line selection
  // ---------------------------------------------------------------------------

  /** `pieces.filter((line) => line.trim())`: the pieces that are not empty
      after trimming, untrimmed, in order. */
  function KeepNonBlank(pieces: seq<string>): seq<string> {
    if pieces == [] then []
    else Kept(pieces[0]) + KeepNonBlank(pieces[1..])
  }

  /** One piece kept by the filter: itself, or nothing when it trims to empty. */
  function Kept(line: string): seq<string> {
    if Trim(line) != [] then [line] else []
  }

  /** The kept lines are exactly the pieces that are not whitespace-only. */
  lemma {:induction false} KeepNonBlankSelects(pieces: seq<string>)
    ensures forall line :: line in KeepNonBlank(pieces) <==> line in pieces && !Blank(line)
  {
    if pieces != [] {
      TrimEmptyIffBlank(pieces[0]);
      KeepNonBlankSelects(pieces[1..]);
      assert pieces == [pieces[0]] + pieces[1..];
    }
  }

  /** Filtering distributes over concatenation, so the kept lines keep their order. */
  lemma {:induction false} KeepNonBlankAppend(a: seq<string>, b: seq<string>)
    ensures KeepNonBlank(a + b) == KeepNonBlank(a) + KeepNonBlank(b)
  {
    if a != [] {
      var head := Kept(a[0]);
      assert (a + b)[0] == a[0] && (a + b)[1..] == a[1..] + b;
      calc {
        KeepNonBlank(a + b);
        head + KeepNonBlank(a[1..] + b);
        { KeepNonBlankAppend(a[1..], b); }
        head + (KeepNonBlank(a[1..]) + KeepNonBlank(b));
        (head + KeepNonBlank(a[1..])) + KeepNonBlank(b);
        KeepNonBlank(a) + KeepNonBlank(b);
      }
    } else {
      assert a + b == b;
    }
  }

  /** The lines drawn for a processed text: its '\n'-separated pieces that
      are not whitespace-only. */
  function WatermarkLines(processed: string): seq<string> {
    KeepNonBlank(Split(processed, '\n'))
  }

  /** If the text is not whitespace-only, neither is one of its pieces. */
  lemma {:induction false} NonBlankHasNonBlankPiece(pieces: seq<string>)
    requires |pieces| >= 1 && !Blank(Join(pieces, '\n'))
    ensures exists k | 0 <= k < |pieces| :: !Blank(pieces[k])
  {
    if |pieces| == 1 {
      assert !Blank(pieces[0]);
    } else {
      var j := Join(pieces, '\n');
      var rest := Join(pieces[1..], '\n');
      assert j == pieces[0] + ['\n'] + rest;
      BlankAroundNewline(pieces[0], rest);
      if Blank(pieces[0]) {
        NonBlankHasNonBlankPiece(pieces[1..]);
        var k :| 0 <= k < |pieces[1..]| && !Blank(pieces[1..][k]);
        assert !Blank(pieces[k + 1]);
      }
    }
  }

  /** Two whitespace-only texts joined by a line break are whitespace-only. */
  lemma BlankAroundNewline(a: string, b: string)
    ensures Blank(a) && Blank(b) ==> Blank(a + ['\n'] + b)
  {
    var j := a + ['\n'] + b;
    if Blank(a) && Blank(b) {
      forall i | 0 <= i < |j| ensures IsWhitespace(j[i]) {
        if i < |a| { assert j[i] == a[i]; }
        else if i > |a| { assert j[i] == b[i - |a| - 1]; }
      }
    }
  }

  /** A whitespace-only text has only whitespace-only pieces. */
  lemma {:induction false} BlankPiecesOfBlank(s: string)
    requires Blank(s)
    ensures forall k | 0 <= k < |Split(s, '\n')| :: Blank(Split(s, '\n')[k])
  {
    if s != [] {
      BlankPiecesOfBlank(s[1..]);
      var rest := Split(s[1..], '\n');
      if s[0] != '\n' {
        var head := [s[0]] + rest[0];
        assert Blank(head) by {
          forall i | 0 <= i < |head| ensures IsWhitespace(head[i]) {
            if i > 0 { assert head[i] == rest[0][i - 1]; }
          }
        }
      }
    }
  }

  /** The lines of a text are empty exactly when the text is whitespace-only. */
  lemma LinesEmptyIffBlank(s: string)
    ensures WatermarkLines(s) == [] <==> Blank(s)
  {
    var pieces := Split(s, '\n');
    if Blank(s) {
      BlankPiecesOfBlank(s);
      KeepNonBlankOfBlanks(pieces);
    } else {
      JoinSplit(s, '\n');
      NonBlankHasNonBlankPiece(pieces);
      KeepNonBlankSelects(pieces);
    }
  }

  lemma {:induction false} KeepNonBlankOfBlanks(pieces: seq<string>)
    requires forall k | 0 <= k < |pieces| :: Blank(pieces[k])
    ensures KeepNonBlank(pieces) == []
  {
    if pieces != [] {
      TrimEmptyIffBlank(pieces[0]);
      KeepNonBlankOfBlanks(pieces[1..]);
    }
  }

  lemma {:induction false} ReplaceAllKeepsNonBlank(s: string, pat: string, rep: string)
    requires |pat| > 0 && !Blank(s) && !Blank(rep)
    ensures !Blank(ReplaceAll(s, pat, rep))
  {
    var r := ReplaceAll(s, pat, rep);
    if |s| >= |pat| {
      if s[..|pat|] == pat {
        var i :| 0 <= i < |rep| && !IsWhitespace(rep[i]);
        assert r[i] == rep[i];
      } else if IsWhitespace(s[0]) {
        assert !Blank(s[1..]) by {
          var i :| 0 <= i < |s| && !IsWhitespace(s[i]);
          assert s[1..][i - 1] == s[i];
        }
        ReplaceAllKeepsNonBlank(s[1..], pat, rep);
        var t := ReplaceAll(s[1..], pat, rep);
        var i :| 0 <= i < |t| && !IsWhitespace(t[i]);
        assert r[i + 1] == t[i];
      } else {
        assert r[0] == s[0];
      }
    }
  }

  lemma {:induction false} ReplaceEachKeepsNonBlank(text: string, entries: seq<(string, string)>)
    requires NonEmptyKeys(entries) && !Blank(text)
    requires forall k | 0 <= k < |entries| :: !Blank(entries[k].1)
    ensures !Blank(ReplaceEach(text, entries))
    decreases |entries|
  {
    if entries != [] {
      ReplaceAllKeepsNonBlank(text, entries[0].0, entries[0].1);
      ReplaceEachKeepsNonBlank(ReplaceAll(text, entries[0].0, entries[0].1), entries[1..]);
    }
  }

  predicate StartsWithDigit(v: string) {
    |v| > 0 && IsDigit(v[0])
  }

  lemma NumbersStartWithDigit(n: nat)
    ensures StartsWithDigit(NatToString(n)) && StartsWithDigit(Pad2(n))
  {
    var s := NatToString(n);
    var p := Pad2(n);
    assert p[|p| - |s|..] == s;
    assert p[|p| - |s|] == s[0];
  }

  lemma TableValuesStartWithDigit(year: string, month: string, day: string,
                                  hours: string, minutes: string, seconds: string)
    requires StartsWithDigit(year) && StartsWithDigit(month) && StartsWithDigit(day)
    requires StartsWithDigit(hours) && StartsWithDigit(minutes) && StartsWithDigit(seconds)
    ensures var t := Table(year, month, day, hours, minutes, seconds);
            forall k | 0 <= k < |t| :: StartsWithDigit(t[k].1)
  {
    var date := year + "-" + month + "-" + day;
    var time := hours + ":" + minutes;
    var both := date + " " + time;
    assert date[0] == year[0];
    assert time[0] == hours[0];
    assert both[0] == year[0];
    assert year + "-" + month + "-" + day + " " + hours + ":" + minutes == both;
  }

  /** Every replacement value starts with a digit, so none is whitespace-only. */
  lemma ReplacementValuesNotBlank(now: DateTime)
    ensures forall k | 0 <= k < |Replacements(now)| :: !Blank(Replacements(now)[k].1)
  {
    var f := FieldValues(now);
    forall j | 0 <= j < 6 ensures StartsWithDigit(f[j]) {
      NumbersStartWithDigit(FieldNumber(now, j));
    }
    TableValuesNotBlank(f[0], f[1], f[2], f[3], f[4], f[5]);
  }

  lemma TableValuesNotBlank(year: string, month: string, day: string,
                            hours: string, minutes: string, seconds: string)
    requires StartsWithDigit(year) && StartsWithDigit(month) && StartsWithDigit(day)
    requires StartsWithDigit(hours) && StartsWithDigit(minutes) && StartsWithDigit(seconds)
    ensures var t := Table(year, month, day, hours, minutes, seconds);
            forall k | 0 <= k < |t| :: !Blank(t[k].1)
  {
    var t := Table(year, month, day, hours, minutes, seconds);
    TableValuesStartWithDigit(year, month, day, hours, minutes, seconds);
    forall k | 0 <= k < |t| ensures !Blank(t[k].1) {
      DigitStartNotBlank(t[k].1);
    }
  }

  lemma DigitStartNotBlank(v: string)
    requires StartsWithDigit(v)
    ensures !Blank(v)
  {
    assert !IsWhitespace(v[0]);
  }

  /** Something is drawn exactly when the raw text is not whitespace-only:
      substitution never turns a visible text into a blank one, and a blank
      text has no placeholder to substitute. So the second early return of
      `drawWatermark` (no lines) is reached only when the first one was. */
  lemma LinesExistIffTextNotBlank(text: string, now: DateTime)
    ensures WatermarkLines(Substituted(text, now)) != [] <==> Trim(text) != []
  {
    TrimEmptyIffBlank(text);
    if Blank(text) {
      assert '{' !in text by {
        assert forall i | 0 <= i < |text| :: text[i] != '{';
      }
      SubstitutionWithoutBraceIsIdentity(text, now);
      LinesEmptyIffBlank(text);
    } else {
      ReplacementValuesNotBlank(now);
      ReplaceEachKeepsNonBlank(text, Replacements(now));
      LinesEmptyIffBlank(Substituted(text, now));
    }
  }

  // ---------------------------------------------------------------------------
  // Text block layout
  // ---------------------------------------------------------------------------

  /** The calls one line costs: a stroke when the stroke width is positive,
      then a fill. */
  function CallsPerLine(strokeWidth: real): nat {
    if strokeWidth > 0.0 then 2 else 1
  }

  /** The baseline-middle of line `i` of an `n`-line block centred on `y`. */
  function LineY(y: real, n: nat, lineHeight: real, i: nat): real {
    y - (n as real * lineHeight) / 2.0 + lineHeight / 2.0 + i as real * lineHeight
  }

  /** The calls drawing one line at (`x`, `lineY`). */
  function LineCalls(line: string, x: real, lineY: real, strokeWidth: real, st: DrawState): seq<DrawCall> {
    (if strokeWidth > 0.0 then [StrokeText(line, x, lineY, st)] else []) + [FillText(line, x, lineY, st)]
  }

  /** The calls drawing the first `k` lines of a block centred on (`x`, `y`). */
  function BlockPrefix(lines: seq<string>, x: real, y: real, lineHeight: real, strokeWidth: real,
                       st: DrawState, k: nat): seq<DrawCall>
    requires k <= |lines|
  {
    if k == 0 then []
    else BlockPrefix(lines, x, y, lineHeight, strokeWidth, st, k - 1)
         + LineCalls(lines[k - 1], x, LineY(y, |lines|, lineHeight, k - 1), strokeWidth, st)
  }

  /** The calls drawing a whole block centred on (`x`, `y`). */
  function BlockCalls(lines: seq<string>, x: real, y: real, lineHeight: real, strokeWidth: real,
                      st: DrawState): seq<DrawCall>
  {
    BlockPrefix(lines, x, y, lineHeight, strokeWidth, st, |lines|)
  }

  /** The `i`-th run of `size` elements of `s`, or nothing when `s` is too
      short to hold it. */
  function Chunk<T>(s: seq<T>, i: nat, size: nat): seq<T> {
    if i * size + size <= |s| then s[i * size..i * size + size] else []
  }

  /** Appending a chunk of length `size` to `n` chunks of that length keeps
      the old chunks and makes the new one the `n`-th. */
  lemma ChunkAppend<T>(p: seq<T>, q: seq<T>, n: nat, size: nat)
    requires |p| == n * size && |q| == size
    ensures |p + q| == (n + 1) * size
    ensures forall i | 0 <= i < n :: Chunk(p + q, i, size) == Chunk(p, i, size)
    ensures Chunk(p + q, n, size) == q
  {
    MulSucc(n, size);
    forall i | 0 <= i < n
      ensures Chunk(p + q, i, size) == Chunk(p, i, size)
    {
      ChunkBounds(i, n, size);
    }
  }

  /** In a sequence of `n` chunks, chunk `i < n` is really there. */
  lemma ChunkInRange<T>(s: seq<T>, i: nat, n: nat, size: nat)
    requires |s| == n * size && i < n
    ensures i * size + size <= |s| && Chunk(s, i, size) == s[i * size..i * size + size]
  {
    ChunkBounds(i, n, size);
  }

  lemma ChunkBounds(i: nat, n: nat, size: nat)
    requires i < n
    ensures 0 <= i * size && i * size + size <= n * size
  {
    MulSucc(i, size);
    MulMono(i + 1, n, size);
  }

  lemma MulSucc(a: nat, b: nat)
    ensures (a + 1) * b == a * b + b
  {
  }

  lemma MulMono(a: nat, b: nat, c: nat)
    requires a <= b
    ensures a * c <= b * c
  {
    assert b * c - a * c == (b - a) * c;
  }

  /** Line `i` of a block occupies the `i`-th run of `CallsPerLine` calls:
      the lines are drawn in order, each stroked before it is filled. */
  lemma {:induction false} BlockPrefixLayout(lines: seq<string>, x: real, y: real, lineHeight: real,
                                             strokeWidth: real, st: DrawState, k: nat)
    requires k <= |lines|
    ensures var calls, n := BlockPrefix(lines, x, y, lineHeight, strokeWidth, st, k), CallsPerLine(strokeWidth);
            |calls| == k * n &&
            forall i | 0 <= i < k :: Chunk(calls, i, n)
                                   == LineCalls(lines[i], x, LineY(y, |lines|, lineHeight, i), strokeWidth, st)
  {
    if k > 0 {
      BlockPrefixLayout(lines, x, y, lineHeight, strokeWidth, st, k - 1);
      var p := BlockPrefix(lines, x, y, lineHeight, strokeWidth, st, k - 1);
      var q := LineCalls(lines[k - 1], x, LineY(y, |lines|, lineHeight, k - 1), strokeWidth, st);
      var n := CallsPerLine(strokeWidth);
      ChunkAppend(p, q, k - 1, n);
      var calls := BlockPrefix(lines, x, y, lineHeight, strokeWidth, st, k);
      assert calls == p + q;
      forall i | 0 <= i < k
        ensures Chunk(calls, i, n) == LineCalls(lines[i], x, LineY(y, |lines|, lineHeight, i), strokeWidth, st)
      {
        if i < k - 1 {
          assert Chunk(calls, i, n) == Chunk(p, i, n);
        }
      }
    }
  }

  /** A block of `n` lines is `n` runs of calls, the `i`-th drawing line `i`
      at height `LineY(y, n, lineHeight, i)`, stroke (when enabled) first. */
  lemma BlockLayout(lines: seq<string>, x: real, y: real, lineHeight: real, strokeWidth: real,
                    st: DrawState, i: nat)
    requires i < |lines|
    ensures var calls, n := BlockCalls(lines, x, y, lineHeight, strokeWidth, st), CallsPerLine(strokeWidth);
            |calls| == |lines| * n &&
            calls[(i + 1) * n - 1] == FillText(lines[i], x, LineY(y, |lines|, lineHeight, i), st) &&
            (strokeWidth > 0.0 <==> calls[i * n] == StrokeText(lines[i], x, LineY(y, |lines|, lineHeight, i), st))
  {
    var n := CallsPerLine(strokeWidth);
    BlockPrefixLayout(lines, x, y, lineHeight, strokeWidth, st, |lines|);
    var calls := BlockCalls(lines, x, y, lineHeight, strokeWidth, st);
    ChunkInRange(calls, i, |lines|, n);
    MulSucc(i, n);
    assert calls[i * n..i * n + n] == LineCalls(lines[i], x, LineY(y, |lines|, lineHeight, i), strokeWidth, st);
    assert calls[(i + 1) * n - 1] == calls[i * n..i * n + n][n - 1];
    assert calls[i * n] == calls[i * n..i * n + n][0];
  }

  /** The lines of a block are `lineHeight` apart and symmetric about the
      block's centre `y`. */
  lemma BlockCentred(y: real, n: nat, lineHeight: real, i: nat)
    requires i < n
    ensures LineY(y, n, lineHeight, i) + LineY(y, n, lineHeight, n - 1 - i) == 2.0 * y
    ensures LineY(y, n, lineHeight, i + 1) - LineY(y, n, lineHeight, i) == lineHeight
  {
  }

  /** Every call of a block draws one of its lines, in the given state, and a
      stroke is drawn only with a positive stroke width. */
  predicate DrawsLineOf(call: DrawCall, lines: seq<string>, strokeWidth: real, st: DrawState) {
    && (call.FillText? || call.StrokeText?)
    && call.text in lines
    && call.state == st
    && (call.StrokeText? ==> strokeWidth > 0.0)
  }

  lemma {:induction false} BlockDrawsLines(lines: seq<string>, x: real, y: real, lineHeight: real,
                                           strokeWidth: real, st: DrawState, k: nat)
    requires k <= |lines|
    ensures forall call | call in BlockPrefix(lines, x, y, lineHeight, strokeWidth, st, k) ::
              DrawsLineOf(call, lines, strokeWidth, st)
  {
    if k > 0 {
      BlockDrawsLines(lines, x, y, lineHeight, strokeWidth, st, k - 1);
    }
  }

  /** `drawTextBlock`: the lines top to bottom, each stroked (when the stroke
      width is positive) and then filled, centred as a block on (`x`, `y`). */
  method DrawTextBlock(ctx: Context, lines: seq<string>, x: real, y: real, lineHeight: real, strokeWidth: real)
    modifies ctx
    ensures ctx.log == old(ctx.log) + BlockCalls(lines, x, y, lineHeight, strokeWidth, old(ctx.state))
    ensures ctx.state == old(ctx.state) && ctx.stack == old(ctx.stack)
  {
    var totalHeight := |lines| as real * lineHeight;
    var startY := y - totalHeight / 2.0 + lineHeight / 2.0;
    for index := 0 to |lines|
      invariant ctx.log == old(ctx.log) + BlockPrefix(lines, x, y, lineHeight, strokeWidth, old(ctx.state), index)
      invariant ctx.state == old(ctx.state) && ctx.stack == old(ctx.stack)
    {
      var lineY := startY + index as real * lineHeight;
      assert lineY == LineY(y, |lines|, lineHeight, index);
      ghost var before := ctx.log;
      if strokeWidth > 0.0 {
        ctx.StrokeText(lines[index], x, lineY);
      }
      ctx.FillText(lines[index], x, lineY);
      assert ctx.log == before + LineCalls(lines[index], x, lineY, strokeWidth, old(ctx.state));
    }
  }

  // ---------------------------------------------------------------------------
  // Tiled grid
  // ---------------------------------------------------------------------------

  /** `Math.ceil`. */
  function Ceil(x: real): (n: int)
    ensures x <= n as real < x + 1.0
  {
    -((-x).Floor)
  }

  /** `Math.max(...ws)` over a non-empty list of widths. */
  function MaxWidth(ws: seq<Width>): (m: Width)
    requires |ws| > 0
    ensures forall i | 0 <= i < |ws| :: ws[i] <= m
    ensures exists i | 0 <= i < |ws| :: ws[i] == m
  {
    if |ws| == 1 then ws[0]
    else
      var rest := MaxWidth(ws[1..]);
      assert forall i | 1 <= i < |ws| :: ws[i] == ws[1..][i - 1];
      if ws[0] >= rest then ws[0] else rest
  }

  /** The measured width of each line in `font`. */
  function Widths(measure: (Font, string) -> Width, font: Font, lines: seq<string>): (ws: seq<Width>)
    ensures |ws| == |lines|
  {
    seq(|lines|, i requires 0 <= i < |lines| => measure(font, lines[i]))
  }

  /** A grid of text blocks: the distance between neighbouring block centres
      along each axis, and the number of columns and rows. */
  datatype Grid = Grid(spacingX: real, spacingY: real, numCols: nat, numRows: nat)

  /** The blocks needed along one axis: the diagonal in steps, rounded up,
      plus two. */
  function Repetitions(diagonal: real, step: real): nat
    requires diagonal >= 0.0 && step > 0.0
  {
    DivBounds(diagonal, step, 0.0, diagonal / step);
    Ceil(diagonal / step) + 2
  }

  /** The blocks along one axis span the diagonal with one step to spare on
      each side, and less than one more step beyond that. */
  lemma RepetitionsSpan(diagonal: real, step: real)
    requires diagonal >= 0.0 && step > 0.0
    ensures var count := Repetitions(diagonal, step);
            diagonal + 2.0 * step <= count as real * step < diagonal + 3.0 * step
  {
    var q := diagonal / step;
    var c := Ceil(q);
    assert Repetitions(diagonal, step) == c + 2;
    assert q * step == diagonal;
    MulLe(q, c as real, step);
    CeilStepBelow(c, q, step, diagonal);
    AddMul(c as real, 2.0, step);
    assert (c + 2) as real * step == c as real * step + 2.0 * step;
  }

  /** `c` steps, for `c` less than one more than `q`, fall short of `q`
      steps plus one. */
  lemma CeilStepBelow(c: int, q: real, step: real, x: real)
    requires step > 0.0 && q * step == x && c as real < q + 1.0
    ensures c as real * step < x + step
  {
    MulLt(c as real, q + 1.0, step);
    AddMul(q, 1.0, step);
  }

  lemma AddMul(a: real, b: real, c: real)
    ensures (a + b) * c == a * c + b * c
  {
  }

  /** The grid of `drawTiledWatermark`: a column step of the widest line plus
      the spacing, a row step of the block height plus the spacing, and
      `Repetitions` blocks along each axis. */
  function PlanGrid(maxTextWidth: Width, lineCount: nat, spacing: real, lineHeight: real, diagonal: real): (g: Grid)
    requires spacing > 0.0 && lineHeight >= 0.0 && diagonal >= 0.0
    ensures g.spacingX >= spacing && g.spacingY >= spacing
  {
    MulNonneg(lineCount as real, lineHeight);
    var gx := maxTextWidth + spacing;
    var gy := lineCount as real * lineHeight + spacing;
    Grid(gx, gy, Repetitions(diagonal, gx), Repetitions(diagonal, gy))
  }

  /** The planned grid spans the canvas diagonal along both axes with a block
      to spare on each side. */
  lemma PlanGridSpans(maxTextWidth: Width, lineCount: nat, spacing: real, lineHeight: real, diagonal: real)
    requires spacing > 0.0 && lineHeight >= 0.0 && diagonal >= 0.0
    ensures var g := PlanGrid(maxTextWidth, lineCount, spacing, lineHeight, diagonal);
            && diagonal + 2.0 * g.spacingX <= g.numCols as real * g.spacingX < diagonal + 3.0 * g.spacingX
            && diagonal + 2.0 * g.spacingY <= g.numRows as real * g.spacingY < diagonal + 3.0 * g.spacingY
  {
    var g := PlanGrid(maxTextWidth, lineCount, spacing, lineHeight, diagonal);
    assert g.numCols == Repetitions(diagonal, g.spacingX) && g.numRows == Repetitions(diagonal, g.spacingY);
    RepeatedGridSpans(g, diagonal);
  }

  lemma RepeatedGridSpans(g: Grid, diagonal: real)
    requires diagonal >= 0.0 && g.spacingX > 0.0 && g.spacingY > 0.0
    requires g.numCols == Repetitions(diagonal, g.spacingX) && g.numRows == Repetitions(diagonal, g.spacingY)
    ensures diagonal + 2.0 * g.spacingX <= g.numCols as real * g.spacingX < diagonal + 3.0 * g.spacingX
    ensures diagonal + 2.0 * g.spacingY <= g.numRows as real * g.spacingY < diagonal + 3.0 * g.spacingY
  {
    RepetitionsSpan(diagonal, g.spacingX);
    RepetitionsSpan(diagonal, g.spacingY);
  }

  /** The centre of the block in column `col` / row `row`, in the rotated
      frame whose origin is the canvas centre. */
  function CellX(g: Grid, col: nat): real {
    -(g.numCols as real * g.spacingX) / 2.0 + col as real * g.spacingX
  }

  function CellY(g: Grid, row: nat): real {
    -(g.numRows as real * g.spacingY) / 2.0 + row as real * g.spacingY
  }

  /** The grid is centred on (−spacingX/2, −spacingY/2), half a step up and
      to the left of the origin: the first and last block centres are
      symmetric about that point, because the start is −numCols·spacingX/2
      while the blocks are drawn centred on their cell origins. */
  lemma GridCentred(g: Grid)
    requires g.numCols > 0 && g.numRows > 0
    ensures CellX(g, 0) + CellX(g, g.numCols - 1) == -g.spacingX
    ensures CellY(g, 0) + CellY(g, g.numRows - 1) == -g.spacingY
  {
  }

  lemma MulPos(a: real, b: real)
    requires a > 0.0 && b > 0.0
    ensures a * b > 0.0
  {
  }

  lemma SquareNonneg(a: real)
    ensures a * a >= 0.0
  {
    if a < 0.0 {
      MulPos(-a, -a);
    }
  }

  lemma MulLe(a: real, b: real, c: real)
    requires a <= b && c >= 0.0
    ensures a * c <= b * c
  {
    MulNonneg(b - a, c);
    assert b * c - a * c == (b - a) * c;
  }

  lemma MulLt(a: real, b: real, c: real)
    requires a < b && c > 0.0
    ensures a * c < b * c
  {
    MulPos(b - a, c);
    assert b * c - a * c == (b - a) * c;
  }

  /** Dividing by a positive step preserves a bound by a multiple of it. */
  lemma DivBounds(x: real, step: real, lo: real, hi: real)
    requires step > 0.0 && lo * step <= x <= hi * step
    ensures lo <= x / step <= hi
  {
    var q := x / step;
    assert q * step == x;
    if q < lo {
      MulLt(q, lo, step);
    }
    if q > hi {
      MulLt(hi, q, step);
    }
  }

  /** Along one axis: a coordinate within half the diagonal of the centre is
      within half a step of some block centre. */
  lemma AxisCovered(count: nat, step: real, diagonal: real, p: real) returns (i: nat)
    requires step > 0.0 && diagonal >= 0.0 && diagonal + 2.0 * step <= count as real * step
    requires -diagonal / 2.0 <= p <= diagonal / 2.0
    ensures 0 < i < count
    ensures var centre := -(count as real * step) / 2.0 + i as real * step;
            centre - step / 2.0 <= p <= centre + step / 2.0
  {
    var c := count as real;
    var start := -(c * step) / 2.0;
    var d := p - start;
    OffsetFromStart(c, step, diagonal, p);
    DivBounds(d, step, 1.0, c - 1.0);
    var t := d / step + 0.5;
    HalfStepAhead(d, step);
    i := t.Floor;
    NearestCentre(d, step, t, i);
  }

  /** The offset of `p` from the first centre is at least one step and at
      most `count - 1` steps. */
  lemma OffsetFromStart(c: real, step: real, diagonal: real, p: real)
    requires step > 0.0 && diagonal >= 0.0 && diagonal + 2.0 * step <= c * step
    requires -diagonal / 2.0 <= p <= diagonal / 2.0
    ensures 1.0 * step <= p - -(c * step) / 2.0 <= (c - 1.0) * step
  {
    assert (c - 1.0) * step == c * step - step;
  }

  lemma HalfStepAhead(d: real, step: real)
    requires step > 0.0
    ensures (d / step + 0.5) * step == d + step / 2.0
  {
    assert (d / step) * step == d;
    assert (d / step + 0.5) * step == (d / step) * step + 0.5 * step;
  }

  /** Rounding `d / step` to the nearest whole step lands within half a step. */
  lemma NearestCentre(d: real, step: real, t: real, i: int)
    requires step > 0.0 && t * step == d + step / 2.0
    requires i as real <= t < i as real + 1.0
    ensures i as real * step - step / 2.0 <= d <= i as real * step + step / 2.0
  {
    NearestBelow(d, step, t, i as real);
    NearestAbove(d, step, t, i as real);
  }

  lemma NearestBelow(d: real, step: real, t: real, x: real)
    requires step > 0.0 && t * step == d + step / 2.0 && x <= t
    ensures x * step - step / 2.0 <= d
  {
    MulLe(x, t, step);
  }

  lemma NearestAbove(d: real, step: real, t: real, x: real)
    requires step > 0.0 && t * step == d + step / 2.0 && t < x + 1.0
    ensures d <= x * step + step / 2.0
  {
    MulLt(t, x + 1.0, step);
    SuccTimes(x, step);
  }

  lemma SuccTimes(x: real, step: real)
    ensures (x + 1.0) * step == x * step + step
  {
  }

  /** A point of the rotated frame lies in the cell of the block in row `row`,
      column `col`. */
  predicate InCell(g: Grid, row: nat, col: nat, p: Point) {
    && CellX(g, col) - g.spacingX / 2.0 <= p.x <= CellX(g, col) + g.spacingX / 2.0
    && CellY(g, row) - g.spacingY / 2.0 <= p.y <= CellY(g, row) + g.spacingY / 2.0
  }

  /** The grid covers the square of side `diagonal` around the centre: every
      point of it lies in the cell of a block the loops draw. */
  lemma GridCoversSquare(g: Grid, diagonal: real, p: Point)
    requires g.spacingX > 0.0 && g.spacingY > 0.0 && diagonal >= 0.0
    requires diagonal + 2.0 * g.spacingX <= g.numCols as real * g.spacingX
    requires diagonal + 2.0 * g.spacingY <= g.numRows as real * g.spacingY
    requires -diagonal / 2.0 <= p.x <= diagonal / 2.0 && -diagonal / 2.0 <= p.y <= diagonal / 2.0
    ensures exists row: nat, col: nat | row < g.numRows && col < g.numCols :: InCell(g, row, col, p)
  {
    var col := AxisCovered(g.numCols, g.spacingX, diagonal, p.x);
    var row := AxisCovered(g.numRows, g.spacingY, diagonal, p.y);
    assert InCell(g, row, col, p);
  }

  lemma SquareAbove(x: real, r: real)
    requires x > r >= 0.0
    ensures x * x > r * r
  {
    MulPos(x - r, x + r);
    assert x * x - r * r == (x - r) * (x + r);
  }

  /** Beyond `r` on either side, the square exceeds `r * r`. */
  lemma SquareBeyond(x: real, r: real)
    requires r >= 0.0
    ensures x > r ==> x * x > r * r
    ensures x < -r ==> x * x > r * r
  {
    if x > r {
      SquareAbove(x, r);
    } else if x < -r {
      SquareAbove(-x, r);
      assert (-x) * (-x) == x * x;
    }
  }

  /** `diagonal` is `Math.sqrt(width * width + height * height)`. */
  predicate IsDiagonal(width: nat, height: nat, diagonal: real) {
    diagonal >= 0.0 && diagonal * diagonal == (width * width + height * height) as real
  }

  /** A coordinate of a point within distance `r` of the origin is within `r`. */
  lemma WithinRadius(x: real, y: real, r: real)
    requires r >= 0.0 && x * x + y * y <= r * r
    ensures -r <= x <= r
  {
    SquareNonneg(y);
    SquareBeyond(x, r);
  }

  /** A rotation keeps the distance to the origin. */
  lemma RotationKeepsNorm(cos: real, sin: real, dx: real, dy: real)
    requires cos * cos + sin * sin == 1.0
    ensures var px, py := cos * dx + sin * dy, -sin * dx + cos * dy;
            px * px + py * py == dx * dx + dy * dy
  {
    var px, py := cos * dx + sin * dy, -sin * dx + cos * dy;
    assert px * px == cos * cos * (dx * dx) + 2.0 * cos * sin * (dx * dy) + sin * sin * (dy * dy);
    assert py * py == sin * sin * (dx * dx) - 2.0 * cos * sin * (dx * dy) + cos * cos * (dy * dy);
    assert px * px + py * py == (cos * cos + sin * sin) * (dx * dx) + (cos * cos + sin * sin) * (dy * dy);
  }

  /** A pixel is no further from the centre, along an axis, than half the side. */
  lemma CentredOffset(u: real, side: real)
    requires 0.0 <= u <= side
    ensures (u - side / 2.0) * (u - side / 2.0) <= (side / 2.0) * (side / 2.0)
  {
    MulNonneg(u, side - u);
    assert (side / 2.0) * (side / 2.0) - (u - side / 2.0) * (u - side / 2.0) == u * (side - u);
  }

  /** Every pixel of a `width` x `height` canvas, taken back through the
      translation to the centre and a rotation (`cos`, `sin` with
      cos² + sin² = 1), lies in the square of side `diagonal` around the
      centre. */
  lemma CanvasInSquare(width: nat, height: nat, diagonal: real, cos: real, sin: real, u: real, v: real)
    requires IsDiagonal(width, height, diagonal)
    requires cos * cos + sin * sin == 1.0
    requires 0.0 <= u <= width as real && 0.0 <= v <= height as real
    ensures var p := Unrotated(width, height, cos, sin, u, v);
            -diagonal / 2.0 <= p.x <= diagonal / 2.0 && -diagonal / 2.0 <= p.y <= diagonal / 2.0
  {
    var w, h := width as real, height as real;
    var dx, dy := u - w / 2.0, v - h / 2.0;
    var p := Unrotated(width, height, cos, sin, u, v);
    var r := diagonal / 2.0;
    CentredOffset(u, w);
    CentredOffset(v, h);
    assert r * r == (w * w + h * h) / 4.0;
    RotationKeepsNorm(cos, sin, dx, dy);
    WithinRadius(p.x, p.y, r);
    WithinRadius(p.y, p.x, r);
  }

  /** The canvas point (`u`, `v`) in the frame the tiled loops draw in: moved
      to the centre and rotated back by the angle with cosine `cos` and sine
      `sin`. */
  function Unrotated(width: nat, height: nat, cos: real, sin: real, u: real, v: real): Point {
    var dx, dy := u - width as real / 2.0, v - height as real / 2.0;
    Point(cos * dx + sin * dy, -sin * dx + cos * dy)
  }

  /** Every pixel of the canvas falls in the cell of a block of the tiled
      grid, whatever the angle: the tiled watermark leaves no part of the
      canvas uncovered. */
  lemma TiledGridCoversCanvas(g: Grid, width: nat, height: nat, diagonal: real,
                              cos: real, sin: real, u: real, v: real)
    requires g.spacingX > 0.0 && g.spacingY > 0.0
    requires IsDiagonal(width, height, diagonal)
    requires diagonal + 2.0 * g.spacingX <= g.numCols as real * g.spacingX
    requires diagonal + 2.0 * g.spacingY <= g.numRows as real * g.spacingY
    requires cos * cos + sin * sin == 1.0
    requires 0.0 <= u <= width as real && 0.0 <= v <= height as real
    ensures exists row: nat, col: nat | row < g.numRows && col < g.numCols ::
              InCell(g, row, col, Unrotated(width, height, cos, sin, u, v))
  {
    CanvasInSquare(width, height, diagonal, cos, sin, u, v);
    GridCoversSquare(g, diagonal, Unrotated(width, height, cos, sin, u, v));
  }

  // ---------------------------------------------------------------------------
  // Tiled and centred drawing
  // ---------------------------------------------------------------------------

  /** The state the blocks are drawn in: `st` moved to the canvas centre and
      rotated by `angle` degrees. */
  function RotatedState(st: DrawState, width: nat, height: nat, angle: real): DrawState {
    st.(transform := st.transform
                     + [TransformOp.Translate(width as real / 2.0, height as real / 2.0), TransformOp.Rotate(angle)])
  }

  /** The blocks of row `row`, columns `0 .. k-1`, left to right. */
  function RowCalls(lines: seq<string>, g: Grid, lineHeight: real, strokeWidth: real, st: DrawState,
                    row: nat, k: nat): seq<DrawCall>
  {
    if k == 0 then []
    else RowCalls(lines, g, lineHeight, strokeWidth, st, row, k - 1)
         + BlockCalls(lines, CellX(g, k - 1), CellY(g, row), lineHeight, strokeWidth, st)
  }

  /** The rows `0 .. k-1` of the grid, top to bottom. */
  function GridPrefix(lines: seq<string>, g: Grid, lineHeight: real, strokeWidth: real, st: DrawState,
                      k: nat): seq<DrawCall>
  {
    if k == 0 then []
    else GridPrefix(lines, g, lineHeight, strokeWidth, st, k - 1)
         + RowCalls(lines, g, lineHeight, strokeWidth, st, k - 1, g.numCols)
  }

  /** Every block of the grid, row by row. */
  function TiledCalls(lines: seq<string>, g: Grid, lineHeight: real, strokeWidth: real, st: DrawState): seq<DrawCall> {
    GridPrefix(lines, g, lineHeight, strokeWidth, st, g.numRows)
  }

  /** The number of calls one block costs. */
  function BlockSize(lines: seq<string>, strokeWidth: real): nat {
    |lines| * CallsPerLine(strokeWidth)
  }

  lemma BlockCallsSize(lines: seq<string>, x: real, y: real, lineHeight: real, strokeWidth: real, st: DrawState)
    ensures |BlockCalls(lines, x, y, lineHeight, strokeWidth, st)| == BlockSize(lines, strokeWidth)
  {
    BlockPrefixLayout(lines, x, y, lineHeight, strokeWidth, st, |lines|);
  }

  lemma {:induction false} RowLayout(lines: seq<string>, g: Grid, lineHeight: real, strokeWidth: real,
                                     st: DrawState, row: nat, k: nat)
    ensures var calls, b := RowCalls(lines, g, lineHeight, strokeWidth, st, row, k), BlockSize(lines, strokeWidth);
            |calls| == k * b &&
            forall col | 0 <= col < k :: Chunk(calls, col, b)
                                       == BlockCalls(lines, CellX(g, col), CellY(g, row), lineHeight, strokeWidth, st)
  {
    if k > 0 {
      RowLayout(lines, g, lineHeight, strokeWidth, st, row, k - 1);
      BlockCallsSize(lines, CellX(g, k - 1), CellY(g, row), lineHeight, strokeWidth, st);
      ChunkAppend(RowCalls(lines, g, lineHeight, strokeWidth, st, row, k - 1),
                  BlockCalls(lines, CellX(g, k - 1), CellY(g, row), lineHeight, strokeWidth, st),
                  k - 1, BlockSize(lines, strokeWidth));
    }
  }

  /** The number of calls one row of blocks costs. */
  function RowSize(lines: seq<string>, g: Grid, strokeWidth: real): nat {
    g.numCols * BlockSize(lines, strokeWidth)
  }

  /** A full row of blocks is `RowSize` calls long. */
  lemma RowCallsSize(lines: seq<string>, g: Grid, lineHeight: real, strokeWidth: real, st: DrawState, row: nat)
    ensures |RowCalls(lines, g, lineHeight, strokeWidth, st, row, g.numCols)| == RowSize(lines, g, strokeWidth)
  {
    RowLayout(lines, g, lineHeight, strokeWidth, st, row, g.numCols);
  }

  lemma {:induction false} GridLayout(lines: seq<string>, g: Grid, lineHeight: real, strokeWidth: real,
                                      st: DrawState, k: nat)
    ensures var calls, r := GridPrefix(lines, g, lineHeight, strokeWidth, st, k), RowSize(lines, g, strokeWidth);
            |calls| == k * r &&
            forall row | 0 <= row < k :: Chunk(calls, row, r)
                                       == RowCalls(lines, g, lineHeight, strokeWidth, st, row, g.numCols)
  {
    if k > 0 {
      var r := RowSize(lines, g, strokeWidth);
      GridLayout(lines, g, lineHeight, strokeWidth, st, k - 1);
      var p := GridPrefix(lines, g, lineHeight, strokeWidth, st, k - 1);
      var q := RowCalls(lines, g, lineHeight, strokeWidth, st, k - 1, g.numCols);
      RowCallsSize(lines, g, lineHeight, strokeWidth, st, k - 1);
      ChunkAppend(p, q, k - 1, r);
      assert GridPrefix(lines, g, lineHeight, strokeWidth, st, k) == p + q;
    }
  }

  /** The block in row `row`, column `col` sits at offset `col * b` of its
      row, which sits at offset `row * r` of the pattern. */
  lemma CellOffset(row: nat, col: nat, cols: nat, b: nat, r: nat)
    requires col < cols && r == cols * b
    ensures (row * cols + col) * b == row * r + col * b
    ensures col * b + b <= r
  {
    MulSucc(col, b);
    MulMono(col + 1, cols, b);
    assert (row * cols + col) * b == (row * cols) * b + col * b;
    assert (row * cols) * b == row * (cols * b);
  }

  /** The tiled pattern is `numRows * numCols` blocks in row-major order: the
      block of row `row`, column `col` is the `(row * numCols + col)`-th run of
      calls, centred on that cell. */
  lemma TiledCellAt(lines: seq<string>, g: Grid, lineHeight: real, strokeWidth: real, st: DrawState,
                    row: nat, col: nat)
    requires row < g.numRows && col < g.numCols
    ensures var calls, b := TiledCalls(lines, g, lineHeight, strokeWidth, st), BlockSize(lines, strokeWidth);
            var cell := row * g.numCols + col;
            cell * b + b <= |calls| &&
            Chunk(calls, cell, b) == BlockCalls(lines, CellX(g, col), CellY(g, row), lineHeight, strokeWidth, st)
  {
    var b := BlockSize(lines, strokeWidth);
    GridLayout(lines, g, lineHeight, strokeWidth, st, g.numRows);
    RowLayout(lines, g, lineHeight, strokeWidth, st, row, g.numCols);
    ChunkOfChunk(TiledCalls(lines, g, lineHeight, strokeWidth, st), row, col, g.numRows, g.numCols, b,
                 RowSize(lines, g, strokeWidth));
  }

  /** In `rows` runs of `cols` chunks of `size` elements, chunk `col` of run
      `row` is chunk `row * cols + col` of the whole. */
  lemma ChunkOfChunk<T>(s: seq<T>, row: nat, col: nat, rows: nat, cols: nat, size: nat, r: nat)
    requires row < rows && col < cols && r == cols * size && |s| == rows * r
    ensures (row * cols + col) * size + size <= |s|
    ensures Chunk(Chunk(s, row, r), col, size) == Chunk(s, row * cols + col, size)
  {
    ChunkBounds(row, rows, r);
    CellOffset(row, col, cols, size, r);
    ChunkWithinChunk(s, row, col, row * cols + col, size, r);
  }

  /** The same, once the three offsets are known to line up. */
  lemma ChunkWithinChunk<T>(s: seq<T>, row: nat, col: nat, cell: nat, size: nat, r: nat)
    requires row * r + r <= |s| && col * size + size <= r
    requires cell * size == row * r + col * size
    ensures cell * size + size <= |s|
    ensures Chunk(Chunk(s, row, r), col, size) == Chunk(s, cell, size)
  {
    var a, b := row * r, col * size;
    assert Chunk(s, row, r) == s[a..a + r];
    SubSlice(s, a, a + r, b, b + size);
  }

  /** The tiled pattern holds exactly `numRows * numCols` blocks. */
  lemma TiledSize(lines: seq<string>, g: Grid, lineHeight: real, strokeWidth: real, st: DrawState)
    ensures |TiledCalls(lines, g, lineHeight, strokeWidth, st)| == g.numRows * g.numCols * BlockSize(lines, strokeWidth)
  {
    GridLayout(lines, g, lineHeight, strokeWidth, st, g.numRows);
    var a, b, c := g.numRows, g.numCols, BlockSize(lines, strokeWidth);
    assert |TiledCalls(lines, g, lineHeight, strokeWidth, st)| == a * RowSize(lines, g, strokeWidth);
    assert RowSize(lines, g, strokeWidth) == b * c;
    MulAssoc(a, b, c);
  }

  lemma MulAssoc(a: nat, b: nat, c: nat)
    ensures a * (b * c) == a * b * c
  {
  }

  lemma SubSlice<T>(s: seq<T>, a: nat, b: nat, i: nat, j: nat)
    requires a <= b <= |s| && i <= j <= b - a
    ensures s[a + i..a + j] == s[a..b][i..j]
  {
    forall k | 0 <= k < j - i
      ensures s[a + i..a + j][k] == s[a..b][i..j][k]
    {
      assert s[a + i..a + j][k] == s[a + i + k] == s[a..b][i..j][k];
    }
  }

  lemma {:induction false} RowDrawsLines(lines: seq<string>, g: Grid, lineHeight: real, strokeWidth: real,
                                         st: DrawState, row: nat, k: nat)
    ensures forall call | call in RowCalls(lines, g, lineHeight, strokeWidth, st, row, k) ::
              DrawsLineOf(call, lines, strokeWidth, st)
  {
    if k > 0 {
      RowDrawsLines(lines, g, lineHeight, strokeWidth, st, row, k - 1);
      BlockDrawsLines(lines, CellX(g, k - 1), CellY(g, row), lineHeight, strokeWidth, st, |lines|);
    }
  }

  lemma {:induction false} GridDrawsLines(lines: seq<string>, g: Grid, lineHeight: real, strokeWidth: real,
                                          st: DrawState, k: nat)
    ensures forall call | call in GridPrefix(lines, g, lineHeight, strokeWidth, st, k) ::
              DrawsLineOf(call, lines, strokeWidth, st)
  {
    if k > 0 {
      GridDrawsLines(lines, g, lineHeight, strokeWidth, st, k - 1);
      RowDrawsLines(lines, g, lineHeight, strokeWidth, st, k - 1, g.numCols);
    }
  }

  /** The grid `drawTiledWatermark` lays out for `lines` measured in `font`. */
  function TiledGrid(measure: (Font, string) -> Width, font: Font, lines: seq<string>,
                     spacing: real, lineHeight: real, diagonal: real): Grid
    requires |lines| > 0 && spacing > 0.0 && lineHeight >= 0.0 && diagonal >= 0.0
  {
    PlanGrid(MaxWidth(Widths(measure, font, lines)), |lines|, spacing, lineHeight, diagonal)
  }

  /** `drawTiledWatermark`: under a saved state, move to the canvas centre,
      rotate, draw a block in every cell of the grid row by row, and restore.
      `diagonal` is the canvas diagonal, `Math.sqrt(width² + height²)`. */
  method DrawTiledWatermark(ctx: Context, width: nat, height: nat, lines: seq<string>,
                            spacing: real, lineHeight: real, angle: real, strokeWidth: real, diagonal: real)
    requires |lines| > 0 && spacing > 0.0 && lineHeight >= 0.0
    requires IsDiagonal(width, height, diagonal)
    modifies ctx
    ensures ctx.log == old(ctx.log) + TiledCalls(lines,
              TiledGrid(ctx.measure, old(ctx.state).font, lines, spacing, lineHeight, diagonal),
              lineHeight, strokeWidth, RotatedState(old(ctx.state), width, height, angle))
    ensures ctx.state == old(ctx.state) && ctx.stack == old(ctx.stack)
  {
    var textHeight := |lines| as real * lineHeight;
    var maxTextWidth := MaxWidth(Widths(ctx.measure, ctx.state.font, lines));
    var gridSpacingX := maxTextWidth + spacing;
    var gridSpacingY := textHeight + spacing;
    var numCols := Repetitions(diagonal, gridSpacingX);
    var numRows := Repetitions(diagonal, gridSpacingY);
    var grid := Grid(gridSpacingX, gridSpacingY, numCols, numRows);
    assert grid == TiledGrid(ctx.measure, ctx.state.font, lines, spacing, lineHeight, diagonal);

    ctx.Save();
    ctx.Translate(width as real / 2.0, height as real / 2.0);
    ctx.Rotate(angle);
    ghost var rotated := ctx.state;
    assert rotated == RotatedState(old(ctx.state), width, height, angle);

    DrawGrid(ctx, lines, grid, lineHeight, strokeWidth);
    ctx.Restore();
  }

  /** The outer loop of `drawTiledWatermark`: the rows of the grid, top to
      bottom. */
  method DrawGrid(ctx: Context, lines: seq<string>, grid: Grid, lineHeight: real, strokeWidth: real)
    modifies ctx
    ensures ctx.log == old(ctx.log) + TiledCalls(lines, grid, lineHeight, strokeWidth, old(ctx.state))
    ensures ctx.state == old(ctx.state) && ctx.stack == old(ctx.stack)
  {
    var startY := -(grid.numRows as real * grid.spacingY) / 2.0;
    for row := 0 to grid.numRows
      invariant ctx.log == old(ctx.log) + GridPrefix(lines, grid, lineHeight, strokeWidth, old(ctx.state), row)
      invariant ctx.state == old(ctx.state) && ctx.stack == old(ctx.stack)
    {
      var y := startY + row as real * grid.spacingY;
      DrawGridRow(ctx, lines, grid, row, y, lineHeight, strokeWidth);
    }
  }

  /** The inner loop of `drawTiledWatermark`: the blocks of one row, left to
      right, at the row's height `y`. */
  method DrawGridRow(ctx: Context, lines: seq<string>, grid: Grid, row: nat, y: real,
                     lineHeight: real, strokeWidth: real)
    requires y == CellY(grid, row)
    modifies ctx
    ensures ctx.log == old(ctx.log) + RowCalls(lines, grid, lineHeight, strokeWidth, old(ctx.state), row, grid.numCols)
    ensures ctx.state == old(ctx.state) && ctx.stack == old(ctx.stack)
  {
    var startX := -(grid.numCols as real * grid.spacingX) / 2.0;
    for col := 0 to grid.numCols
      invariant ctx.log == old(ctx.log) + RowCalls(lines, grid, lineHeight, strokeWidth, old(ctx.state), row, col)
      invariant ctx.state == old(ctx.state) && ctx.stack == old(ctx.stack)
    {
      var x := startX + col as real * grid.spacingX;
      assert x == CellX(grid, col);
      DrawTextBlock(ctx, lines, x, y, lineHeight, strokeWidth);
    }
  }

  /** `drawCenteredWatermark`: one block at the canvas centre, rotated, under
      a saved state. */
  method DrawCenteredWatermark(ctx: Context, width: nat, height: nat, lines: seq<string>,
                               lineHeight: real, angle: real, strokeWidth: real)
    modifies ctx
    ensures ctx.log == old(ctx.log)
              + BlockCalls(lines, 0.0, 0.0, lineHeight, strokeWidth, RotatedState(old(ctx.state), width, height, angle))
    ensures ctx.state == old(ctx.state) && ctx.stack == old(ctx.stack)
  {
    ctx.Save();
    ctx.Translate(width as real / 2.0, height as real / 2.0);
    ctx.Rotate(angle);
    assert ctx.state == RotatedState(old(ctx.state), width, height, angle);
    DrawTextBlock(ctx, lines, 0.0, 0.0, lineHeight, strokeWidth);
    ctx.Restore();
  }

  // ---------------------------------------------------------------------------
  // drawWatermark and applyWatermark
  // ---------------------------------------------------------------------------

  function StrokeWidthOf(options: WatermarkOptions): real {
    options.strokeWidth.GetOr(0.0)
  }

  function StrokeColorOf(options: WatermarkOptions): string {
    options.strokeColor.GetOr(DefaultStrokeColor)
  }

  /** The sizes `drawWatermark` draws with: the option sizes multiplied by
      the scale factor. */
  datatype Sizes = Sizes(fontSize: real, spacing: real, lineHeight: real, strokeWidth: real)

  function ScaledSizes(options: WatermarkOptions, scale: real): Sizes {
    Sizes(options.fontSize * scale, options.spacing * scale, options.lineHeight * scale, StrokeWidthOf(options) * scale)
  }

  /** A scale factor of at least 1 keeps the tiled steps usable and never
      shrinks a size. */
  lemma ScaledSizesUsable(options: WatermarkOptions, scale: real)
    requires scale >= 1.0 && (options.tiled ==> options.spacing > 0.0 && options.lineHeight >= 0.0)
    ensures var sizes := ScaledSizes(options, scale);
            options.tiled ==> sizes.spacing >= options.spacing > 0.0 && sizes.lineHeight >= options.lineHeight >= 0.0
  {
    if options.tiled {
      MulLe(1.0, scale, options.spacing);
      MulLe(1.0, scale, options.lineHeight);
    }
  }

  /** The text settings `drawWatermark` makes before drawing, with the
      scaled `sizes`: the scaled font, the fill colour, the opacity as a
      fraction, centred alignment and, with a positive scaled stroke width,
      the stroke colour and width. */
  function TextState(st: DrawState, options: WatermarkOptions, sizes: Sizes): DrawState {
    var base := st.(font := Font(sizes.fontSize, FontFamily),
                    fillStyle := options.color,
                    globalAlpha := AlphaAfter(st.globalAlpha, options.opacity / 100.0),
                    textAlign := "center",
                    textBaseline := "middle");
    if sizes.strokeWidth > 0.0 then base.(strokeStyle := StrokeColorOf(options), lineWidth := sizes.strokeWidth) else base
  }

  /** The lines `drawWatermark` draws: the non-blank lines of the text after
      placeholder substitution. */
  function LinesOf(options: WatermarkOptions, now: DateTime): seq<string> {
    WatermarkLines(Substituted(options.text, now))
  }

  /** Whether `drawWatermark` draws anything: the text is not blank and some
      line survives substitution and filtering. */
  predicate Draws(options: WatermarkOptions, now: DateTime) {
    Trim(options.text) != [] && LinesOf(options, now) != []
  }

  /** What `drawWatermark` requires of its inputs: in tiled mode a positive
      spacing and a line height that is not negative, so the grid steps are
      positive; and the true diagonal of the canvas. */
  predicate WatermarkInputs(width: nat, height: nat, options: WatermarkOptions, diagonal: real) {
    && IsDiagonal(width, height, diagonal)
    && (options.tiled ==> options.spacing > 0.0 && options.lineHeight >= 0.0)
  }

  /** The calls drawing `lines` on a context in state `st` once the text
      settings are made: the tiled grid or the single centred block. */
  function LinesCalls(st: DrawState, measure: (Font, string) -> Width, width: nat, height: nat,
                      options: WatermarkOptions, lines: seq<string>, diagonal: real): seq<DrawCall>
    requires lines != [] && WatermarkInputs(width, height, options, diagonal)
  {
    var scale := ScaleFactor(width as real, height as real);
    var sizes := ScaledSizes(options, scale);
    var textState := TextState(st, options, sizes);
    ScaledSizesUsable(options, scale);
    ModeCalls(measure, textState.font, lines, options.tiled, sizes, RotatedState(textState, width, height, options.angle), diagonal)
  }

  /** The tiled grid or the single centred block of `lines`, drawn with the
      scaled `sizes` in state `rotated`. */
  function ModeCalls(measure: (Font, string) -> Width, font: Font, lines: seq<string>, tiled: bool,
                     sizes: Sizes, rotated: DrawState, diagonal: real): seq<DrawCall>
    requires lines != [] && diagonal >= 0.0 && (tiled ==> sizes.spacing > 0.0 && sizes.lineHeight >= 0.0)
  {
    if tiled then
      TiledCalls(lines, TiledGrid(measure, font, lines, sizes.spacing, sizes.lineHeight, diagonal),
                 sizes.lineHeight, sizes.strokeWidth, rotated)
    else
      BlockCalls(lines, 0.0, 0.0, sizes.lineHeight, sizes.strokeWidth, rotated)
  }

  /** The calls `drawWatermark` issues on a context in state `st`. */
  function WatermarkCalls(st: DrawState, measure: (Font, string) -> Width, width: nat, height: nat,
                          options: WatermarkOptions, now: DateTime, diagonal: real): seq<DrawCall>
    requires WatermarkInputs(width, height, options, diagonal)
  {
    if Draws(options, now) then LinesCalls(st, measure, width, height, options, LinesOf(options, now), diagonal)
    else []
  }

  /** Both modes draw something, and every call draws one of `lines` in
      state `rotated`, stroking only with a positive stroke width. */
  lemma ModeCallsDrawLines(measure: (Font, string) -> Width, font: Font, lines: seq<string>, tiled: bool,
                           sizes: Sizes, rotated: DrawState, diagonal: real)
    requires lines != [] && diagonal >= 0.0 && (tiled ==> sizes.spacing > 0.0 && sizes.lineHeight >= 0.0)
    ensures var calls := ModeCalls(measure, font, lines, tiled, sizes, rotated, diagonal);
            calls != [] && forall call | call in calls :: DrawsLineOf(call, lines, sizes.strokeWidth, rotated)
  {
    var b := BlockSize(lines, sizes.strokeWidth);
    assert b > 0 by {
      MulMono(1, |lines|, CallsPerLine(sizes.strokeWidth));
    }
    if tiled {
      var g := TiledGrid(measure, font, lines, sizes.spacing, sizes.lineHeight, diagonal);
      TiledCellAt(lines, g, sizes.lineHeight, sizes.strokeWidth, rotated, 0, 0);
      GridDrawsLines(lines, g, sizes.lineHeight, sizes.strokeWidth, rotated, g.numRows);
    } else {
      BlockCallsSize(lines, 0.0, 0.0, sizes.lineHeight, sizes.strokeWidth, rotated);
      BlockDrawsLines(lines, 0.0, 0.0, sizes.lineHeight, sizes.strokeWidth, rotated, |lines|);
    }
  }

  /** `drawWatermark` draws exactly when the text is not blank, so its second
      emptiness test never fires; every call it makes draws one of the lines
      of the substituted text, centred, in the scaled font, turned about the
      canvas centre, and strokes only with a positive scaled stroke width. */
  lemma WatermarkCallsDrawLines(st: DrawState, measure: (Font, string) -> Width, width: nat, height: nat,
                                options: WatermarkOptions, now: DateTime, diagonal: real)
    requires WatermarkInputs(width, height, options, diagonal)
    ensures Draws(options, now) <==> Trim(options.text) != []
    ensures var calls := WatermarkCalls(st, measure, width, height, options, now, diagonal);
            var sizes := ScaledSizes(options, ScaleFactor(width as real, height as real));
            var rotated := RotatedState(TextState(st, options, sizes), width, height, options.angle);
            && (calls == [] <==> Trim(options.text) == [])
            && (forall call | call in calls :: DrawsLineOf(call, LinesOf(options, now), sizes.strokeWidth, rotated))
            && (forall call | call in calls :: call.state.textAlign == "center" && call.state.font.sizePx == sizes.fontSize)
  {
    LinesExistIffTextNotBlank(options.text, now);
    if Draws(options, now) {
      var scale := ScaleFactor(width as real, height as real);
      var sizes := ScaledSizes(options, scale);
      var textState := TextState(st, options, sizes);
      ScaledSizesUsable(options, scale);
      ModeCallsDrawLines(measure, textState.font, LinesOf(options, now), options.tiled, sizes,
                         RotatedState(textState, width, height, options.angle), diagonal);
    }
  }

  /** The lines of `drawWatermark`: placeholders replaced, then split at
      line feeds, keeping the lines that are not blank. */
  method TextLines(text: string, now: DateTime) returns (lines: seq<string>)
    ensures lines == WatermarkLines(Substituted(text, now))
  {
    var processedText := ReplaceDateTimePlaceholders(text, now);
    lines := KeepNonBlank(Split(processedText, '\n'));
  }

  /** `drawWatermark`: nothing for blank text or when no line survives;
      otherwise the text settings, the tiled or centred drawing, and an alpha
      reset to 1. */
  method DrawWatermark(ctx: Context, width: nat, height: nat, options: WatermarkOptions, now: DateTime, diagonal: real)
    requires WatermarkInputs(width, height, options, diagonal)
    modifies ctx
    ensures ctx.log == old(ctx.log) + WatermarkCalls(old(ctx.state), ctx.measure, width, height, options, now, diagonal)
    ensures !Draws(options, now) ==> ctx.state == old(ctx.state)
    ensures Draws(options, now) ==>
              ctx.state == TextState(old(ctx.state), options, ScaledSizes(options, ScaleFactor(width as real, height as real))).(globalAlpha := 1.0)
    ensures ctx.stack == old(ctx.stack)
  {
    if Trim(options.text) == [] {
      return;
    }
    var lines := TextLines(options.text, now);
    if |lines| == 0 {
      return;
    }
    DrawLines(ctx, width, height, options, lines, diagonal);
  }

  /** The drawing part of `drawWatermark` for non-empty `lines`: the scaled
      sizes, the text settings, the tiled or centred drawing, and the alpha
      reset. */
  method DrawLines(ctx: Context, width: nat, height: nat, options: WatermarkOptions, lines: seq<string>, diagonal: real)
    requires lines != [] && WatermarkInputs(width, height, options, diagonal)
    modifies ctx
    ensures ctx.log == old(ctx.log) + LinesCalls(old(ctx.state), ctx.measure, width, height, options, lines, diagonal)
    ensures ctx.state == TextState(old(ctx.state), options, ScaledSizes(options, ScaleFactor(width as real, height as real))).(globalAlpha := 1.0)
    ensures ctx.stack == old(ctx.stack)
  {
    var scaleFactor := ScaleFactor(width as real, height as real);
    var sizes := ScaledSizes(options, scaleFactor);

    SetTextStyle(ctx, options, sizes);
    ghost var textState := ctx.state;
    ghost var rotated := RotatedState(textState, width, height, options.angle);
    ScaledSizesUsable(options, scaleFactor);
    if options.tiled {
      DrawTiledWatermark(ctx, width, height, lines, sizes.spacing, sizes.lineHeight, options.angle,
                         sizes.strokeWidth, diagonal);
    } else {
      DrawCenteredWatermark(ctx, width, height, lines, sizes.lineHeight, options.angle, sizes.strokeWidth);
    }
    assert ctx.log == old(ctx.log) + ModeCalls(ctx.measure, textState.font, lines, options.tiled, sizes, rotated, diagonal);
    ctx.SetGlobalAlpha(1.0);
  }

  /** The text settings of `drawWatermark` (font, colour, alpha, alignment and
      the optional stroke), made with the scaled `sizes`. */
  method SetTextStyle(ctx: Context, options: WatermarkOptions, sizes: Sizes)
    modifies ctx
    ensures ctx.state == TextState(old(ctx.state), options, sizes)
    ensures ctx.stack == old(ctx.stack) && ctx.log == old(ctx.log)
  {
    var scaledStrokeWidth := sizes.strokeWidth;
    ctx.SetFont(Font(sizes.fontSize, FontFamily));
    ctx.SetFillStyle(options.color);
    ctx.SetGlobalAlpha(options.opacity / 100.0);
    ctx.SetTextAlign("center");
    ctx.SetTextBaseline("middle");
    if scaledStrokeWidth > 0.0 {
      ctx.SetStrokeStyle(StrokeColorOf(options));
      ctx.SetLineWidth(scaledStrokeWidth);
    }
  }

  // ---------------------------------------------------------------------------
  // applyWatermark
  // ---------------------------------------------------------------------------

  /** `applyWatermark`: a canvas of the oriented size of `image`; under a
      saved state the orientation transform and the image drawn over the
      whole canvas; then the watermark. `contextAvailable` says whether
      `getContext('2d')` succeeds; the canvas diagonal is `diagonal`. */
  method ApplyWatermark(image: Image, orientation: int, options: WatermarkOptions, now: DateTime, diagonal: real,
                        contextAvailable: bool, measure: (Font, string) -> Width)
    returns (r: Result<Context, string>)
    requires var d := GetOrientedDimensions(image.naturalWidth, image.naturalHeight, orientation);
             WatermarkInputs(d.width, d.height, options, diagonal)
    ensures r.Failure? <==> !contextAvailable
    ensures r.Failure? ==> r.error == "Failed to get 2D context"
    ensures r.Success? ==>
      var d := GetOrientedDimensions(image.naturalWidth, image.naturalHeight, orientation);
      var w, h := d.width as real, d.height as real;
      var ctx := r.value;
      && fresh(ctx)
      && ctx.width == d.width && ctx.height == d.height && ctx.measure == measure
      && ctx.stack == []
      && ctx.log == [DrawImage(0.0, 0.0, w, h, InitialState.(transform := OrientationOps(orientation, w, h)))]
                    + WatermarkCalls(InitialState, measure, d.width, d.height, options, now, diagonal)
      && ctx.state == (if Draws(options, now)
                       then TextState(InitialState, options, ScaledSizes(options, ScaleFactor(w, h))).(globalAlpha := 1.0)
                       else InitialState)
  {
    var d := GetOrientedDimensions(image.naturalWidth, image.naturalHeight, orientation);
    var width, height := d.width, d.height;
    if !contextAvailable {
      return Failure("Failed to get 2D context");
    }
    var ctx := WatermarkedCanvas(width, height, measure, orientation, options, now, diagonal);
    r := Success(ctx);
  }

  /** The canvas `applyWatermark` returns once it has a context: the image
      drawn at the canvas size under the orientation transform, then the
      watermark, starting from a fresh state. */
  method WatermarkedCanvas(width: nat, height: nat, measure: (Font, string) -> Width, orientation: int,
                           options: WatermarkOptions, now: DateTime, diagonal: real)
    returns (ctx: Context)
    requires WatermarkInputs(width, height, options, diagonal)
    ensures fresh(ctx)
    ensures ctx.width == width && ctx.height == height && ctx.measure == measure && ctx.stack == []
    ensures ctx.log == [DrawImage(0.0, 0.0, width as real, height as real,
                                  InitialState.(transform := OrientationOps(orientation, width as real, height as real)))]
                       + WatermarkCalls(InitialState, measure, width, height, options, now, diagonal)
    ensures ctx.state == (if Draws(options, now)
                          then TextState(InitialState, options,
                                         ScaledSizes(options, ScaleFactor(width as real, height as real))).(globalAlpha := 1.0)
                          else InitialState)
  {
    ctx := new Context(width, height, measure);
    assert InitialState.transform + OrientationOps(orientation, width as real, height as real)
           == OrientationOps(orientation, width as real, height as real);
    DrawImageAndWatermark(ctx, orientation, options, now, diagonal);
    assert [] + [DrawImage(0.0, 0.0, width as real, height as real,
                           InitialState.(transform := OrientationOps(orientation, width as real, height as real)))]
           == [DrawImage(0.0, 0.0, width as real, height as real,
                         InitialState.(transform := OrientationOps(orientation, width as real, height as real)))];
  }

  /** The drawing of `applyWatermark` on its canvas: the oriented image, then
      the watermark. */
  method DrawImageAndWatermark(ctx: Context, orientation: int, options: WatermarkOptions, now: DateTime, diagonal: real)
    requires WatermarkInputs(ctx.width, ctx.height, options, diagonal)
    modifies ctx
    ensures ctx.log == old(ctx.log)
      + [DrawImage(0.0, 0.0, ctx.width as real, ctx.height as real,
                   old(ctx.state).(transform := old(ctx.state).transform
                                                + OrientationOps(orientation, ctx.width as real, ctx.height as real)))]
      + WatermarkCalls(old(ctx.state), ctx.measure, ctx.width, ctx.height, options, now, diagonal)
    ensures !Draws(options, now) ==> ctx.state == old(ctx.state)
    ensures Draws(options, now) ==>
              ctx.state == TextState(old(ctx.state), options,
                                     ScaledSizes(options, ScaleFactor(ctx.width as real, ctx.height as real))).(globalAlpha := 1.0)
    ensures ctx.stack == old(ctx.stack)
  {
    DrawOrientedImage(ctx, ctx.width as real, ctx.height as real, orientation);
    DrawWatermark(ctx, ctx.width, ctx.height, options, now, diagonal);
  }

  /** The image step of `applyWatermark`: under a saved state, the
      orientation transform and the image drawn at the canvas size; the
      state is restored afterwards. */
  method DrawOrientedImage(ctx: Context, width: real, height: real, orientation: int)
    modifies ctx
    ensures ctx.log == old(ctx.log) + [DrawImage(0.0, 0.0, width, height,
      old(ctx.state).(transform := old(ctx.state).transform + OrientationOps(orientation, width, height)))]
    ensures ctx.state == old(ctx.state) && ctx.stack == old(ctx.stack)
  {
    ctx.Save();
    ApplyOrientationTransform(ctx, width, height, orientation);
    ctx.DrawImage(0.0, 0.0, width, height);
    ctx.Restore();
  }

  // ---------------------------------------------------------------------------
  // resizeCanvas: the new size
  // ---------------------------------------------------------------------------

  datatype Size = Size(width: real, height: real)

  /** The size `resizeCanvas` computes: unchanged when both sides are within
      `maxDimension`; otherwise the longer side (the height on a tie) becomes
      `maxDimension` and the other keeps the aspect ratio. */
  function ResizedSize(width: real, height: real, maxDimension: real): (r: Size)
    requires width >= 0.0 && height >= 0.0 && maxDimension >= 0.0
    ensures width <= maxDimension && height <= maxDimension ==> r == Size(width, height)
    ensures (width > maxDimension || height > maxDimension) && width > height ==> r.width == maxDimension
    ensures (width > maxDimension || height > maxDimension) && width <= height ==> r.height == maxDimension
    ensures 0.0 <= r.width <= maxDimension && 0.0 <= r.height <= maxDimension
    ensures r.width * height == r.height * width
  {
    if width > maxDimension || height > maxDimension then
      if width > height then
        Size(maxDimension, ScaledShorter(height, width, maxDimension))
      else
        Size(ScaledShorter(width, height, maxDimension), maxDimension)
    else
      Size(width, height)
  }

  /** The shorter side `a` scaled as `(a / b) * m`, for the longer side `b`
      brought to `m`: it stays within `m` and keeps the ratio to `b`. */
  function ScaledShorter(a: real, b: real, m: real): (s: real)
    requires 0.0 <= a <= b && b > 0.0 && m >= 0.0
    ensures 0.0 <= s <= m
    ensures s * b == m * a
  {
    AspectKept(a, b, m);
    (a / b) * m
  }

  /** Scaling the shorter side `a` by `m / b` keeps it within `m` and keeps
      the ratio to the longer side `b`. */
  lemma AspectKept(a: real, b: real, m: real)
    requires 0.0 <= a <= b && b > 0.0 && m >= 0.0
    ensures 0.0 <= (a / b) * m <= m
    ensures (a / b) * m * b == m * a
  {
    DivBounds(a, b, 0.0, 1.0);
    MulLe(a / b, 1.0, m);
    MulNonneg(a / b, m);
  }

  /** Resizing an already resized size changes nothing. */
  lemma ResizeIdempotent(width: real, height: real, maxDimension: real)
    requires width >= 0.0 && height >= 0.0 && maxDimension >= 0.0
    ensures var r := ResizedSize(width, height, maxDimension);
            ResizedSize(r.width, r.height, maxDimension) == r
  {
  }

  /** The pixel size of the resized canvas: assigning a non-negative number
      to `canvas.width` or `canvas.height` keeps its whole part. */
  function ResizedCanvas(width: nat, height: nat, maxDimension: real): (d: Dimensions)
    requires maxDimension >= 0.0
    ensures width as real <= maxDimension && height as real <= maxDimension ==> d == Dimensions(width, height)
    ensures d.width as real <= maxDimension && d.height as real <= maxDimension
  {
    var r := ResizedSize(width as real, height as real, maxDimension);
    Dimensions(r.width.Floor, r.height.Floor)
  }
}

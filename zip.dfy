/** Export file names: the name generated for a watermarked image from the
    original file name and a template with the placeholders `{basename}`,
    `{date}`, `{time}` and `{index}`, and the zero case of the file-size
    label. The clock is a parameter. */
module Zip {
  import opened Wrappers
  import opened JsRuntime

  /** An original file name cut at its last dot. */
  datatype NameParts = NameParts(basename: string, extension: string)

  /** The extension used when the original name has no dot. */
  const DefaultExtension := ".png"

  /** The template the batch export uses, "{basename}_watermarked_{date}",
      written as its two placeholders around the fixed middle so that the
      proofs can name the three parts. */
  const BatchTemplate := "{basename}" + "_watermarked_" + "{date}"

  /** The basename is the text before the last '.', the extension the last
      '.' onward; with no '.', the whole name and ".png". */
  function SplitName(name: string): (p: NameParts)
    ensures '.' !in name ==> p == NameParts(name, DefaultExtension)
    ensures '.' in name ==>
      && p.basename + p.extension == name
      && |p.extension| >= 1 && p.extension[0] == '.' && '.' !in p.extension[1..]
  {
    var lastDotIndex := LastIndexOf(name, '.');
    if lastDotIndex != -1 then
      assert name[..lastDotIndex] + name[lastDotIndex..] == name;
      assert forall j | 0 <= j < |name[lastDotIndex..]| - 1 :: name[lastDotIndex..][1..][j] == name[lastDotIndex + 1 + j];
      NameParts(name[..lastDotIndex], name[lastDotIndex..])
    else
      NameParts(name, DefaultExtension)
  }

  /** The cut is unique: a name that is a basename followed by a dotted
      extension without a further dot splits back into exactly those. */
  lemma SplitNameOfJoined(basename: string, extension: string)
    requires |extension| >= 1 && extension[0] == '.' && '.' !in extension[1..]
    ensures SplitName(basename + extension) == NameParts(basename, extension)
  {
    var name := basename + extension;
    assert name[|basename|] == '.';
    assert forall j | |basename| < j < |name| :: name[j] != '.' by {
      forall j | |basename| < j < |name| ensures name[j] != '.' {
        assert name[j] == extension[1..][j - |basename| - 1];
      }
    }
    assert name[..|basename|] == basename && name[|basename|..] == extension;
  }

  /** `String(n).padStart(2, '0')` for the fields of the date. */
  function DateStr(now: DateTime): (r: string)
    ensures AllDigits(r) && |r| >= |NatToString(now.fullYear)| + 4
    ensures r[..|NatToString(now.fullYear)|] == NatToString(now.fullYear)
  {
    var year := NatToString(now.fullYear);
    var month := Pad2(now.month + 1);
    var day := Pad2(now.date);
    Pad2AllDigits(now.month + 1);
    Pad2AllDigits(now.date);
    AllDigitsAppend(year, month);
    AllDigitsAppend(year + month, day);
    year + month + day
  }

  /** `HH` `mm` `ss` of the clock, each padded to two digits. */
  function TimeStr(now: DateTime): (r: string)
    ensures AllDigits(r) && |r| >= 6
  {
    var hours := Pad2(now.hours);
    var minutes := Pad2(now.minutes);
    var seconds := Pad2(now.seconds);
    Pad2AllDigits(now.hours);
    Pad2AllDigits(now.minutes);
    Pad2AllDigits(now.seconds);
    AllDigitsAppend(hours, minutes);
    AllDigitsAppend(hours + minutes, seconds);
    hours + minutes + seconds
  }

  /** A padded field is digits only and at least two long. */
  lemma Pad2AllDigits(n: nat)
    ensures AllDigits(Pad2(n)) && |Pad2(n)| >= 2
  {
    var s := NatToString(n);
    var p := Pad2(n);
    forall i | 0 <= i < |p| ensures IsDigit(p[i]) {
      if i >= |p| - |s| {
        assert p[i] == p[|p| - |s|..][i - (|p| - |s|)];
      }
    }
  }

  /** The text for `{index}`: the one-based position padded to three digits,
      never truncated; "001" when no index is given. */
  function IndexStr(index: Option<nat>): (r: string)
    ensures |r| >= 3
    ensures forall i | 0 <= i < |r| :: IsDigit(r[i])
  {
    match index
    case None => "001"
    case Some(i) => PadStart(NatToString(i + 1), 3, '0')
  }

  /** `generateFilename`: the template with every `{basename}`, then every
      `{date}`, `{time}` and `{index}` replaced, in that order, followed by
      the extension. Whatever the placeholders expand to, the name ends with
      the original extension, and a template without `{` is kept verbatim. */
  function GenerateFilename(originalFilename: string, template: string, index: Option<nat>, now: DateTime): (r: string)
    ensures var extension := SplitName(originalFilename).extension;
            |r| >= |extension| && r[|r| - |extension|..] == extension
    ensures '{' !in template ==> r == template + SplitName(originalFilename).extension
  {
    var parts := SplitName(originalFilename);
    var filled := FillTemplate(template, parts.basename, DateStr(now), TimeStr(now), IndexStr(index));
    EndsWith(filled, parts.extension);
    filled + parts.extension
  }

  lemma EndsWith(prefix: string, suffix: string)
    ensures (prefix + suffix)[|prefix + suffix| - |suffix|..] == suffix
  {
  }

  /** The four placeholders replaced in turn, each in the result of the
      previous replacement. */
  function FillTemplate(template: string, basename: string, date: string, time: string, index: string): (r: string)
    ensures '{' !in template ==> r == template
  {
    PlainTemplateInert(template, basename, date, time, index);
    ReplaceAll(ReplaceAll(ReplaceAll(ReplaceAll(template, "{basename}", basename), "{date}", date),
                          "{time}", time),
               "{index}", index)
  }

  /** Every placeholder starts with '{', so none occurs in a template without one. */
  lemma PlainTemplateInert(template: string, basename: string, date: string, time: string, index: string)
    ensures '{' !in template ==>
              ReplaceAll(ReplaceAll(ReplaceAll(ReplaceAll(template, "{basename}", basename), "{date}", date),
                                    "{time}", time),
                         "{index}", index) == template
  {
    if '{' !in template {
      ReplaceAllAbsent(template, "{basename}", basename);
      ReplaceAllAbsent(template, "{date}", date);
      ReplaceAllAbsent(template, "{time}", time);
      ReplaceAllAbsent(template, "{index}", index);
    }
  }

  /** `formatFileSize`: zero bytes read "0 B". Every other size goes through
      floating-point unit selection and rounding, which is not modelled
      (`None`). */
  function FormatFileSize(bytes: nat): (r: Option<string>)
    ensures r.Some? <==> bytes == 0
    ensures r.Some? ==> r.value == "0 B"
  {
    if bytes == 0 then Some("0 B") else None
  }

  // ---------------------------------------------------------------------------
  // Digit strings
  // ---------------------------------------------------------------------------

  function Pow10(n: nat): nat {
    if n == 0 then 1 else 10 * Pow10(n - 1)
  }

  predicate AllDigits(s: string) {
    forall i | 0 <= i < |s| :: IsDigit(s[i])
  }

  lemma AllDigitsAppend(a: string, b: string)
    requires AllDigits(a) && AllDigits(b)
    ensures AllDigits(a + b)
  {
    var s := a + b;
    forall i | 0 <= i < |s| ensures IsDigit(s[i]) {
      if i >= |a| { assert s[i] == b[i - |a|]; }
    }
  }

  /** The value of two digit strings written one after the other. */
  lemma {:induction false} ParseAppend(a: string, b: string)
    requires AllDigits(a) && AllDigits(b)
    ensures AllDigits(a + b)
    ensures ParseDecimal(a + b) == ParseDecimal(a) * Pow10(|b|) + ParseDecimal(b)
    decreases |b|
  {
    AllDigitsAppend(a, b);
    if b == [] {
      assert a + b == a;
    } else {
      var b', c := b[..|b| - 1], b[|b| - 1];
      assert b == b' + [c];
      assert a + b == (a + b') + [c];
      ParseAppend(a, b');
      ParseLastDigit(a + b', c);
      ParseLastDigit(b', c);
      ShiftDigit(ParseDecimal(a + b'), ParseDecimal(a), Pow10(|b'|), ParseDecimal(b'), DigitValue(c),
                 ParseDecimal(a + b), ParseDecimal(b), Pow10(|b|));
    }
  }

  /** One more digit at the end: ten times the value before, plus the digit. */
  lemma ParseLastDigit(s: string, c: char)
    requires AllDigits(s) && IsDigit(c)
    ensures AllDigits(s + [c]) && ParseDecimal(s + [c]) == 10 * ParseDecimal(s) + DigitValue(c)
  {
    AllDigitsAppend(s, [c]);
    assert (s + [c])[..|s|] == s;
  }

  /** Appending a digit multiplies the earlier places by ten. */
  lemma ShiftDigit(v: nat, x: nat, p: nat, y: nat, last: nat, shifted: nat, tail: nat, place: nat)
    requires v == x * p + y && shifted == 10 * v + last && tail == 10 * y + last && place == 10 * p
    ensures shifted == x * place + tail
  {
  }

  /** Below 100 the two-digit form is two digits with the number's value. */
  lemma Pad2Value(n: nat)
    requires n < 100
    ensures |Pad2(n)| == 2 && AllDigits(Pad2(n)) && ParseDecimal(Pad2(n)) == n
  {
    var digits := NatToString(n);
    ParseNatToString(n);
    assert Pow10(2) == 100;
    DigitsBelow(n, 2);
    if |digits| < 2 {
      ParseLeadingZeros(2 - |digits|, digits);
    }
  }

  /** `{date}` reads as the number year·10⁴ + month·10² + day, its last four
      characters being the two-digit month and day. */
  lemma DateStrValue(now: DateTime)
    requires now.Valid()
    ensures AllDigits(DateStr(now)) && |DateStr(now)| == |NatToString(now.fullYear)| + 4
    ensures ParseDecimal(DateStr(now)) == now.fullYear * 10000 + (now.month + 1) * 100 + now.date
  {
    Pad2Value(now.month + 1);
    Pad2Value(now.date);
    ParseNatToString(now.fullYear);
    ThreeFieldValue(NatToString(now.fullYear), Pad2(now.month + 1), Pad2(now.date));
  }

  /** `{time}` is six digits reading as hours·10⁴ + minutes·10² + seconds. */
  lemma TimeStrValue(now: DateTime)
    requires now.Valid()
    ensures AllDigits(TimeStr(now)) && |TimeStr(now)| == 6
    ensures ParseDecimal(TimeStr(now)) == now.hours * 10000 + now.minutes * 100 + now.seconds
  {
    Pad2Value(now.hours);
    Pad2Value(now.minutes);
    Pad2Value(now.seconds);
    ThreeFieldValue(Pad2(now.hours), Pad2(now.minutes), Pad2(now.seconds));
  }

  /** Digits followed by two two-digit fields read as the first number
      shifted by four places plus the two fields. */
  lemma ThreeFieldValue(a: string, b: string, c: string)
    requires AllDigits(a) && AllDigits(b) && AllDigits(c) && |b| == 2 && |c| == 2
    ensures AllDigits(a + b + c) && |a + b + c| == |a| + 4
    ensures ParseDecimal(a + b + c) == ParseDecimal(a) * 10000 + ParseDecimal(b) * 100 + ParseDecimal(c)
  {
    var va, vb, vc := ParseDecimal(a), ParseDecimal(b), ParseDecimal(c);
    assert Pow10(2) == 100;
    ParseAppend(a, b);
    assert ParseDecimal(a + b) == va * 100 + vb;
    ParseAppend(a + b, c);
    assert ParseDecimal(a + b + c) == (va * 100 + vb) * 100 + vc;
  }

  /** `{index}` reads back as the one-based position (1 without an index) and
      is exactly three characters long below 1000. */
  lemma IndexStrValue(index: Option<nat>)
    ensures ParseDecimal(IndexStr(index)) == (match index case None => 1 case Some(i) => i + 1)
    ensures index.Some? && index.value + 1 < 1000 ==> |IndexStr(index)| == 3
  {
    match index
    case None =>
      assert "001" == Repeat('0', 2) + NatToString(1);
      ParseLeadingZeros(2, NatToString(1));
    case Some(i) =>
      var s := NatToString(i + 1);
      ParseNatToString(i + 1);
      if |s| < 3 {
        ParseLeadingZeros(3 - |s|, s);
      }
      if i + 1 < 1000 {
        assert Pow10(3) == 1000;
        DigitsBelow(i + 1, 3);
      }
  }

  /** A number below 10^k has at most k digits. */
  lemma {:induction false} DigitsBelow(n: nat, k: nat)
    requires 1 <= k && n < Pow10(k)
    ensures |NatToString(n)| <= k
  {
    if n >= 10 {
      assert k >= 2;
      assert n / 10 < Pow10(k - 1);
      DigitsBelow(n / 10, k - 1);
    }
  }

  /** 999 is the thousandth file: the padding does not cut the fourth digit. */
  lemma IndexStrNeverTruncates()
    ensures IndexStr(Some(999)) == "1000"
  {
    NatToStringThousand();
  }

  /** The first index and a missing index both read "001". */
  lemma IndexStrFirst()
    ensures IndexStr(Some(0)) == IndexStr(None) == "001"
  {
    assert NatToString(1) == "1";
  }

  lemma NatToStringThousand()
    ensures NatToString(1000) == "1000"
  {
    assert DigitChar(0) == '0';
    assert NatToString(1) == "1";
    assert NatToString(10) == "10";
    assert NatToString(100) == "100";
  }

  // ---------------------------------------------------------------------------
  // The generated name
  // ---------------------------------------------------------------------------

  /** A digit string contains no '{'. */
  lemma DigitsHaveNoBrace(s: string)
    requires AllDigits(s)
    ensures '{' !in s
  {
    assert forall i | 0 <= i < |s| :: s[i] != '{';
  }

  /** A text that starts with the pattern has that occurrence replaced. */
  lemma ReplaceAllAtStart(pat: string, rest: string, rep: string)
    requires |pat| > 0
    ensures ReplaceAll(pat + rest, pat, rep) == rep + ReplaceAll(rest, pat, rep)
  {
    var s := pat + rest;
    assert s[..|pat|] == pat && s[|pat|..] == rest;
  }

  /** The first step of the batch template: `{basename}` is replaced and the
      rest stays as it is. */
  lemma BatchBasenameStep(basename: string)
    ensures ReplaceAll(BatchTemplate, "{basename}", basename) == basename + "_watermarked_" + "{date}"
  {
    var middle := "_watermarked_";
    MiddleBraceFree();
    ReplaceAllAtStart("{basename}", middle + "{date}", basename);
    ReplaceAllSkip(middle, "{date}", "{basename}", basename);
    ReplaceAllShort("{date}", "{basename}", basename);
    assert "{basename}" + (middle + "{date}") == BatchTemplate;
  }

  /** The fixed middle of the batch template holds no placeholder. */
  lemma MiddleBraceFree()
    ensures '{' !in "_watermarked_"
  {
    assert forall i | 0 <= i < |"_watermarked_"| :: "_watermarked_"[i] != '{';
  }

  /** The second step: `{date}` after a prefix without '{'. */
  lemma BatchDateStep(prefix: string, date: string)
    requires '{' !in prefix
    ensures ReplaceAll(prefix + "{date}", "{date}", date) == prefix + date
  {
    ReplaceAllSkip(prefix, "{date}", "{date}", date);
    ReplaceAllWhole("{date}", date);
  }

  /** The batch export name: for a basename without '{', the basename,
      "_watermarked_", the date and the extension. */
  lemma BatchFilename(originalFilename: string, index: Option<nat>, now: DateTime)
    requires '{' !in SplitName(originalFilename).basename
    ensures var parts := SplitName(originalFilename);
            GenerateFilename(originalFilename, BatchTemplate, index, now)
            == parts.basename + "_watermarked_" + DateStr(now) + parts.extension
  {
    FillBatchPlain(SplitName(originalFilename).basename, index, now);
  }

  lemma FillBatchPlain(basename: string, index: Option<nat>, now: DateTime)
    requires '{' !in basename
    ensures FillTemplate(BatchTemplate, basename, DateStr(now), TimeStr(now), IndexStr(index))
            == basename + "_watermarked_" + DateStr(now)
  {
    var date := DateStr(now);
    var prefix := basename + "_watermarked_";
    BatchBasenameStep(basename);
    assert '{' !in prefix by {
      MiddleBraceFree();
    }
    BatchDateStep(prefix, date);
    DigitsHaveNoBrace(date);
    var named := prefix + date;
    assert '{' !in named;
    ReplaceAllAbsent(named, "{time}", TimeStr(now));
    ReplaceAllAbsent(named, "{index}", IndexStr(index));
  }

  lemma IndexFive()
    ensures IndexStr(Some(4)) == "005"
  {
    assert NatToString(5) == "5";
    assert Repeat('0', 2) == "00";
  }

  /** The placeholders replaced after `{basename}`, and hence also inside it,
      in the order they are replaced. */
  datatype LateKey = DateKey | TimeKey | IndexKey

  function KeyText(k: LateKey): string {
    match k
    case DateKey => "{date}"
    case TimeKey => "{time}"
    case IndexKey => "{index}"
  }

  function Order(k: LateKey): nat {
    match k
    case DateKey => 0
    case TimeKey => 1
    case IndexKey => 2
  }

  /** What a late placeholder expands to. */
  function LateValue(k: LateKey, index: Option<nat>, now: DateTime): (v: string)
    ensures AllDigits(v)
  {
    match k
    case DateKey => DateStr(now)
    case TimeKey => TimeStr(now)
    case IndexKey => IndexStr(index)
  }

  /** A late key after the first `n` late replacements: its value once its
      own turn has come, the key itself before. */
  function Stage(k: LateKey, n: nat, index: Option<nat>, now: DateTime): string {
    if Order(k) < n then LateValue(k, index, now) else KeyText(k)
  }

  /** An optional late key at the same point; nothing stays nothing. */
  function Piece(y: Option<LateKey>, n: nat, index: Option<nat>, now: DateTime): string {
    match y
    case None => []
    case Some(k) => Stage(k, n, index, now)
  }

  /** `x` after one global replacement, when it is a whole occurrence or inert. */
  function Step(x: string, pat: string, rep: string): string {
    if x == pat then rep else x
  }

  /** Two different late keys: neither is the other, and a replacement of
      one copies the other unchanged. */
  lemma KeysApart(k: LateKey, j: LateKey)
    requires k != j
    ensures KeyText(k) != KeyText(j) && Inert(KeyText(k), KeyText(j))
  {
    var a, b := KeyText(k), KeyText(j);
    assert a[0] == b[0] == '{' && a[1] != b[1];
    assert '{' !in a[1..] by {
      assert forall i | 1 <= i < |a| :: a[i] != '{';
    }
  }

  /** The late replacement of `j` takes every late key from the stage
      before `j`'s turn to the stage after it. */
  lemma StageStep(k: LateKey, j: LateKey, index: Option<nat>, now: DateTime)
    ensures var pat, rep, x := KeyText(j), LateValue(j, index, now), Stage(k, Order(j), index, now);
            (x == pat || Inert(x, pat)) && Step(x, pat, rep) == Stage(k, Order(j) + 1, index, now)
  {
    var pat, x := KeyText(j), Stage(k, Order(j), index, now);
    if Order(k) < Order(j) {
      DigitsHaveNoBrace(x);
      assert pat[0] == '{';
    } else if Order(k) > Order(j) {
      KeysApart(k, j);
    }
  }

  lemma PieceStep(y: Option<LateKey>, j: LateKey, index: Option<nat>, now: DateTime)
    ensures var pat, rep, x := KeyText(j), LateValue(j, index, now), Piece(y, Order(j), index, now);
            (x == pat || Inert(x, pat)) && Step(x, pat, rep) == Piece(y, Order(j) + 1, index, now)
  {
    if y.Some? {
      StageStep(y.value, j, index, now);
    }
  }

  /** A whole occurrence or an inert piece at the front is replaced or
      copied, and the replacement goes on after it. */
  lemma ReplaceFront(x: string, b: string, pat: string, rep: string)
    requires |pat| > 0 && (x == pat || Inert(x, pat))
    ensures ReplaceAll(x + b, pat, rep) == Step(x, pat, rep) + ReplaceAll(b, pat, rep)
  {
    if x == pat {
      ReplaceAllAtStart(pat, b, rep);
    } else {
      ReplaceAllInert(x, b, pat, rep);
    }
  }

  /** One replacement over a text cut as `p + x + m + y`, where `p` and `m`
      hold no '{'. */
  lemma ReplaceFour(p: string, x: string, m: string, y: string, pat: string, rep: string)
    requires |pat| > 0 && pat[0] == '{' && '{' !in p && '{' !in m
    requires x == pat || Inert(x, pat)
    requires y == pat || Inert(y, pat)
    ensures ReplaceAll(p + x + m + y, pat, rep) == p + Step(x, pat, rep) + m + Step(y, pat, rep)
  {
    var sx, sy := Step(x, pat, rep), Step(y, pat, rep);
    calc {
      ReplaceAll(p + x + m + y, pat, rep);
      { assert p + x + m + y == p + (x + (m + y)); }
      ReplaceAll(p + (x + (m + y)), pat, rep);
      { ReplaceAllSkip(p, x + (m + y), pat, rep); }
      p + ReplaceAll(x + (m + y), pat, rep);
      { ReplaceFront(x, m + y, pat, rep); }
      p + (sx + ReplaceAll(m + y, pat, rep));
      { ReplaceAllSkip(m, y, pat, rep); }
      p + (sx + (m + ReplaceAll(y, pat, rep)));
      { ReplaceWhole(y, pat, rep); }
      p + (sx + (m + sy));
      p + sx + m + sy;
    }
  }

  /** A whole occurrence or an inert piece on its own. */
  lemma ReplaceWhole(y: string, pat: string, rep: string)
    requires |pat| > 0 && (y == pat || Inert(y, pat))
    ensures ReplaceAll(y, pat, rep) == Step(y, pat, rep)
  {
    ReplaceFront(y, [], pat, rep);
    assert y + [] == y && Step(y, pat, rep) + [] == Step(y, pat, rep);
  }

  /** The text `p + x + m + y` after the first `n` late replacements. */
  function Staged(p: string, x: LateKey, m: string, y: Option<LateKey>, n: nat,
                  index: Option<nat>, now: DateTime): string {
    p + Stage(x, n, index, now) + m + Piece(y, n, index, now)
  }

  /** The late replacement of `j` over `p + x + m + y`. */
  lemma LateStep(p: string, x: LateKey, m: string, y: Option<LateKey>, j: LateKey,
                 index: Option<nat>, now: DateTime)
    requires '{' !in p && '{' !in m
    ensures ReplaceAll(Staged(p, x, m, y, Order(j), index, now), KeyText(j), LateValue(j, index, now))
            == Staged(p, x, m, y, Order(j) + 1, index, now)
  {
    StageStep(x, j, index, now);
    PieceStep(y, j, index, now);
    ReplaceFour(p, Stage(x, Order(j), index, now), m, Piece(y, Order(j), index, now),
                KeyText(j), LateValue(j, index, now));
  }

  /** The `{date}`, `{time}` and `{index}` steps of `generateFilename` on a
      text `p + x + m + y` whose `p` and `m` hold no '{': the late keys `x`
      and (when present) `y` become their values, and the rest is copied. */
  lemma LateSteps(p: string, x: LateKey, m: string, y: Option<LateKey>, index: Option<nat>, now: DateTime)
    requires '{' !in p && '{' !in m
    ensures ReplaceAll(ReplaceAll(ReplaceAll(p + KeyText(x) + m + Piece(y, 0, index, now), "{date}", DateStr(now)),
                                  "{time}", TimeStr(now)),
                       "{index}", IndexStr(index))
            == p + LateValue(x, index, now) + m + Piece(y, 3, index, now)
  {
    StagedSteps(p, x, m, y, index, now);
    assert Stage(x, 0, index, now) == KeyText(x);
    assert Stage(x, 3, index, now) == LateValue(x, index, now);
  }

  lemma StagedSteps(p: string, x: LateKey, m: string, y: Option<LateKey>, index: Option<nat>, now: DateTime)
    requires '{' !in p && '{' !in m
    ensures ReplaceAll(ReplaceAll(ReplaceAll(Staged(p, x, m, y, 0, index, now), "{date}", DateStr(now)),
                                  "{time}", TimeStr(now)),
                       "{index}", IndexStr(index))
            == Staged(p, x, m, y, 3, index, now)
  {
    DateStep(p, x, m, y, index, now);
    TimeStep(p, x, m, y, index, now);
    IndexStep(p, x, m, y, index, now);
  }

  lemma DateStep(p: string, x: LateKey, m: string, y: Option<LateKey>, index: Option<nat>, now: DateTime)
    requires '{' !in p && '{' !in m
    ensures ReplaceAll(Staged(p, x, m, y, 0, index, now), "{date}", DateStr(now)) == Staged(p, x, m, y, 1, index, now)
  {
    LateStep(p, x, m, y, DateKey, index, now);
  }

  lemma TimeStep(p: string, x: LateKey, m: string, y: Option<LateKey>, index: Option<nat>, now: DateTime)
    requires '{' !in p && '{' !in m
    ensures ReplaceAll(Staged(p, x, m, y, 1, index, now), "{time}", TimeStr(now)) == Staged(p, x, m, y, 2, index, now)
  {
    LateStep(p, x, m, y, TimeKey, index, now);
  }

  lemma IndexStep(p: string, x: LateKey, m: string, y: Option<LateKey>, index: Option<nat>, now: DateTime)
    requires '{' !in p && '{' !in m
    ensures ReplaceAll(Staged(p, x, m, y, 2, index, now), "{index}", IndexStr(index)) == Staged(p, x, m, y, 3, index, now)
  {
    LateStep(p, x, m, y, IndexKey, index, now);
  }

  /** Replacement is sequential: a `{date}`, `{time}` or `{index}` that the
      basename brings in is expanded as well, with the text around it kept. */
  lemma BasenamePlaceholdersExpand(originalFilename: string, p: string, key: LateKey, s: string,
                                   index: Option<nat>, now: DateTime)
    requires '{' !in p && '{' !in s
    requires SplitName(originalFilename).basename == p + KeyText(key) + s
    ensures GenerateFilename(originalFilename, "{basename}", index, now)
            == p + LateValue(key, index, now) + s + SplitName(originalFilename).extension
  {
    FillBasenameTemplate(p, key, s, index, now);
  }

  lemma FillBasenameTemplate(p: string, key: LateKey, s: string, index: Option<nat>, now: DateTime)
    requires '{' !in p && '{' !in s
    ensures FillTemplate("{basename}", p + KeyText(key) + s, DateStr(now), TimeStr(now), IndexStr(index))
            == p + LateValue(key, index, now) + s
  {
    var basename := p + KeyText(key) + s;
    ReplaceAllWhole("{basename}", basename);
    assert basename == p + KeyText(key) + s + Piece(None, 0, index, now);
    LateSteps(p, key, s, None, index, now);
    FillAfterBasename("{basename}", basename, basename, index, now);
    assert p + LateValue(key, index, now) + s + Piece(None, 3, index, now) == p + LateValue(key, index, now) + s;
  }

  /** Under the batch template a placeholder inside the basename is expanded
      too, ahead of "_watermarked_" and the date. */
  lemma BatchBasenamePlaceholder(originalFilename: string, p: string, key: LateKey, s: string,
                                 index: Option<nat>, now: DateTime)
    requires '{' !in p && '{' !in s
    requires SplitName(originalFilename).basename == p + KeyText(key) + s
    ensures GenerateFilename(originalFilename, BatchTemplate, index, now)
            == p + LateValue(key, index, now) + s + "_watermarked_" + DateStr(now)
               + SplitName(originalFilename).extension
  {
    FillBatchTemplate(p, key, s, index, now);
  }

  lemma FillBatchTemplate(p: string, key: LateKey, s: string, index: Option<nat>, now: DateTime)
    requires '{' !in p && '{' !in s
    ensures FillTemplate(BatchTemplate, p + KeyText(key) + s, DateStr(now), TimeStr(now), IndexStr(index))
            == p + LateValue(key, index, now) + s + "_watermarked_" + DateStr(now)
  {
    var m := s + "_watermarked_";
    BatchNamedShape(p, KeyText(key), s);
    assert '{' !in m by {
      MiddleBraceFree();
    }
    assert Piece(Some(DateKey), 0, index, now) == "{date}";
    LateSteps(p, key, m, Some(DateKey), index, now);
    FillAfterBasename(BatchTemplate, p + KeyText(key) + s, p + KeyText(key) + m + "{date}", index, now);
    Regroup(p, LateValue(key, index, now), s, "_watermarked_", DateStr(now));
  }

  /** The batch template after its `{basename}` step, cut for `LateSteps`. */
  lemma BatchNamedShape(p: string, key: string, s: string)
    ensures ReplaceAll(BatchTemplate, "{basename}", p + key + s) == p + key + (s + "_watermarked_") + "{date}"
  {
    BatchBasenameStep(p + key + s);
    assert p + key + s + "_watermarked_" + "{date}" == p + key + (s + "_watermarked_") + "{date}";
  }

  lemma Regroup(a: string, b: string, c: string, d: string, e: string)
    ensures a + b + (c + d) + e == a + b + c + d + e
  {
  }

  /** `FillTemplate` is the `{basename}` step followed by the three late steps. */
  lemma FillAfterBasename(template: string, basename: string, named: string, index: Option<nat>, now: DateTime)
    requires ReplaceAll(template, "{basename}", basename) == named
    ensures FillTemplate(template, basename, DateStr(now), TimeStr(now), IndexStr(index))
            == ReplaceAll(ReplaceAll(ReplaceAll(named, "{date}", DateStr(now)), "{time}", TimeStr(now)),
                          "{index}", IndexStr(index))
  {
  }

  /** A worked example: "{index}.jpg" with index 4 is "005.jpg". */
  lemma BasenamePlaceholderExample(now: DateTime)
    ensures GenerateFilename("{index}" + ".jpg", "{basename}", Some(4), now) == "005" + ".jpg"
  {
    assert ".jpg"[0] == '.' && '.' !in ".jpg"[1..];
    SplitNameOfJoined("{index}", ".jpg");
    assert [] + KeyText(IndexKey) + [] == "{index}";
    BasenamePlaceholdersExpand("{index}" + ".jpg", [], IndexKey, [], Some(4), now);
    IndexFive();
  }
}

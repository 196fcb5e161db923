/** `rfc3339` of src/alerts/delivery.rs: printed, read back, and compared as text. */
module Timestamps {
  import opened Basics
  import opened Calendar
  import opened Decimal

  /** One `{value:0width}` placeholder of a format string and the text that follows it. */
  datatype Field = Field(value: int, width: nat, suffix: string)

  function Print(fields: seq<Field>): string {
    if fields == [] then []
    else PadInt(fields[0].value, fields[0].width) + (fields[0].suffix + Print(fields[1..]))
  }

  function FieldsOf(ms: int): seq<Field> {
    var secs, millis := ms / 1000, ms % 1000;
    var days, tod := secs / 86_400, secs % 86_400;
    var date := CivilFromDays(days);
    [Field(date.year, 4, "-"), Field(date.month, 2, "-"), Field(date.day, 2, "T"),
     Field(tod / 3600, 2, ":"), Field((tod % 3600) / 60, 2, ":"), Field(tod % 60, 2, "."), Field(millis, 3, "Z")]
  }

  function Rfc3339(ms: int): string {
    Print(FieldsOf(ms))
  }

  function YearOf(ms: int): int {
    CivilFromDays(ms / 1000 / 86_400).year
  }

  // ---------- reading ----------

  datatype Slot = Slot(width: nat, suffix: string)

  /** The UTC form of `date-time` in section 5.6 of RFC 3339, with three fraction digits. */
  const DATE_TIME: seq<Slot> :=
    [Slot(4, "-"), Slot(2, "-"), Slot(2, "T"), Slot(2, ":"), Slot(2, ":"), Slot(2, "."), Slot(3, "Z")]

  /** The text begins with a number of the slot's width and the slot's suffix. */
  predicate Starts(s: string, slot: Slot) {
    && slot.width + |slot.suffix| <= |s| && AllDigits(s[..slot.width])
    && s[slot.width..slot.width + |slot.suffix|] == slot.suffix
  }

  /** The numbers in a text of the given shape; None if the text has another shape. */
  function ReadFields(s: string, shape: seq<Slot>): (r: Option<seq<nat>>)
    ensures r.Some? ==> |r.value| == |shape|
    decreases |shape|
  {
    if shape == [] then if s == [] then Some([]) else None
    else if Starts(s, shape[0]) then
      var rest := ReadFields(s[shape[0].width + |shape[0].suffix|..], shape[1..]);
      if rest.Some? then Some([Value(s[..shape[0].width])] + rest.value) else None
    else None
  }

  /** The instant a text in that form names, if its date exists and its time of day is in range. */
  function Read(s: string): Option<int> {
    var r := ReadFields(s, DATE_TIME);
    if r.None? then None else Instant(r.value)
  }

  function Instant(v: seq<nat>): Option<int>
    requires |v| == 7
  {
    var date := Date(v[0], v[1], v[2]);
    if !IsDate(date) || v[3] > 23 || v[4] > 59 || v[5] > 59 then None
    else Some((((DaysFromCivil(date) * 24 + v[3]) * 60 + v[4]) * 60 + v[5]) * 1000 + v[6])
  }

  // ---------- fields that fit their width ----------

  ghost predicate Fit(fields: seq<Field>) {
    forall i | 0 <= i < |fields| :: fields[i].width > 0 && 0 <= fields[i].value < Power10(fields[i].width)
  }

  ghost predicate HasShape(fields: seq<Field>, shape: seq<Slot>) {
    |fields| == |shape| && forall i | 0 <= i < |shape| :: Slot(fields[i].width, fields[i].suffix) == shape[i]
  }

  predicate FieldsBefore(a: seq<Field>, b: seq<Field>)
    requires |a| == |b|
  {
    a != [] && (a[0].value < b[0].value || (a[0].value == b[0].value && FieldsBefore(a[1..], b[1..])))
  }

  lemma {:induction false} Pieces(x: string, y: string, z: string)
    ensures var s := x + (y + z);
      && s[..|x|] == x && s[|x|..|x| + |y|] == y && s[|x| + |y|..] == z
  {
  }

  ghost function Values(fields: seq<Field>): seq<int> {
    seq(|fields|, i requires 0 <= i < |fields| => fields[i].value)
  }

  lemma {:induction false} StartsWith(x: string, slot: Slot, rest: string)
    requires AllDigits(x) && |x| == slot.width
    ensures var s := x + (slot.suffix + rest);
      Starts(s, slot) && s[..slot.width] == x && s[slot.width + |slot.suffix|..] == rest
  {
    Pieces(x, slot.suffix, rest);
  }

  lemma {:induction false} ReadHead(x: string, rest: string, shape: seq<Slot>)
    requires shape != [] && |x| == shape[0].width && AllDigits(x)
    ensures var r := ReadFields(rest, shape[1..]);
      ReadFields(x + (shape[0].suffix + rest), shape) == if r.Some? then Some([Value(x)] + r.value) else None
  {
    StartsWith(x, shape[0], rest);
    ReadStep(x + (shape[0].suffix + rest), x, rest, shape);
  }

  lemma {:induction false} ReadStep(s: string, x: string, rest: string, shape: seq<Slot>)
    requires shape != [] && Starts(s, shape[0])
    requires s[..shape[0].width] == x && s[shape[0].width + |shape[0].suffix|..] == rest
    ensures var r := ReadFields(rest, shape[1..]);
      ReadFields(s, shape) == if r.Some? then Some([Value(x)] + r.value) else None
  {
  }

  /** Reading one placeholder off the front of a printed text. */
  lemma {:induction false} ReadOne(fields: seq<Field>, shape: seq<Slot>)
    requires Fit(fields) && HasShape(fields, shape) && fields != []
    ensures var r := ReadFields(Print(fields[1..]), shape[1..]);
      ReadFields(Print(fields), shape) == if r.Some? then Some([fields[0].value as nat] + r.value) else None
  {
    var f, rest := fields[0], Print(fields[1..]);
    PadIsFixed(f.value, f.width);
    FixedValue(f.value, f.width);
    ReadHead(Fixed(f.value, f.width), rest, shape);
  }

  /** Reading gives back exactly the numbers printed. */
  lemma {:induction false} ReadPrint(fields: seq<Field>, shape: seq<Slot>)
    requires Fit(fields) && HasShape(fields, shape)
    ensures ReadFields(Print(fields), shape).Some?
    ensures ReadFields(Print(fields), shape).value == Values(fields)
    decreases |fields|
  {
    if fields != [] {
      ReadPrint(fields[1..], shape[1..]);
      ReadOne(fields, shape);
      assert Values(fields) == [fields[0].value] + Values(fields[1..]);
    }
  }

  /** Texts of the same shape sort as their values do, field by field. */
  lemma {:induction false} PrintOrder(a: seq<Field>, b: seq<Field>, shape: seq<Slot>)
    requires Fit(a) && Fit(b) && HasShape(a, shape) && HasShape(b, shape)
    ensures Less(Print(a), Print(b)) <==> FieldsBefore(a, b)
    decreases |a|
  {
    if a != [] {
      var w, suffix := shape[0].width, shape[0].suffix;
      assert HasShape(a[1..], shape[1..]) && HasShape(b[1..], shape[1..]) && Fit(a[1..]) && Fit(b[1..]);
      PrintOrder(a[1..], b[1..], shape[1..]);
      PadIsFixed(a[0].value, w);
      PadIsFixed(b[0].value, w);
      FixedOrder(a[0].value, b[0].value, w);
      LessConcat(Fixed(a[0].value, w), suffix + Print(a[1..]), Fixed(b[0].value, w), suffix + Print(b[1..]));
      LessConcat(suffix, Print(a[1..]), suffix, Print(b[1..]));
      LessIrreflexive(suffix);
    }
  }

  ghost function TotalWidth(shape: seq<Slot>): nat
    decreases |shape|
  {
    if shape == [] then 0 else shape[0].width + |shape[0].suffix| + TotalWidth(shape[1..])
  }

  lemma {:induction false} ReadWidth(s: string, shape: seq<Slot>)
    requires ReadFields(s, shape).Some?
    ensures |s| == TotalWidth(shape)
    decreases |shape|
  {
    if shape != [] {
      ReadWidth(s[shape[0].width + |shape[0].suffix|..], shape[1..]);
    }
  }

  lemma {:induction false} FieldsFit(ms: int)
    requires 0 <= YearOf(ms) <= 9999
    ensures Fit(FieldsOf(ms)) && HasShape(FieldsOf(ms), DATE_TIME)
  {
    assert Power10(2) == 100 && Power10(3) == 1000 && Power10(4) == 10_000;
    CivilIsDate(ms / 1000 / 86_400);
  }

  lemma {:induction false} ClockParts(ms: int)
    ensures var secs, millis := ms / 1000, ms % 1000;
      var days, tod := secs / 86_400, secs % 86_400;
      var h, m, s := tod / 3600, (tod % 3600) / 60, tod % 60;
      && 0 <= h <= 23 && 0 <= m <= 59 && 0 <= s <= 59 && 0 <= millis <= 999
      && (((days * 24 + h) * 60 + m) * 60 + s) * 1000 + millis == ms
  {
    var secs := ms / 1000;
    var tod := secs % 86_400;
    assert tod == 3600 * (tod / 3600) + 60 * ((tod % 3600) / 60) + tod % 60;
  }

  // ---------- main results ----------

  lemma {:induction false} ReadsFields(ms: int)
    requires 0 <= YearOf(ms) <= 9999
    ensures ReadFields(Rfc3339(ms), DATE_TIME).Some?
    ensures ReadFields(Rfc3339(ms), DATE_TIME).value == Values(FieldsOf(ms))
  {
    FieldsFit(ms);
    ReadPrint(FieldsOf(ms), DATE_TIME);
  }

  /** In years 0000 to 9999 the text reads back as the very same millisecond. */
  lemma {:induction false} RoundTrip(ms: int)
    requires 0 <= YearOf(ms) <= 9999
    ensures Read(Rfc3339(ms)) == Some(ms)
  {
    ReadsFields(ms);
    InstantBack(ms, ReadFields(Rfc3339(ms), DATE_TIME).value);
  }

  lemma {:induction false} InstantBack(ms: int, v: seq<nat>)
    requires v == Values(FieldsOf(ms))
    ensures |v| == 7 && Instant(v) == Some(ms)
  {
    ReadsBack(ms);
    InstantIs(ms, FieldsOf(ms), v);
  }

  lemma {:induction false} InstantIs(ms: int, f: seq<Field>, v: seq<nat>)
    requires |f| == 7 && v == Values(f)
    requires var date := Date(f[0].value, f[1].value, f[2].value);
      && IsDate(date) && f[3].value <= 23 && f[4].value <= 59 && f[5].value <= 59
      && (((DaysFromCivil(date) * 24 + f[3].value) * 60 + f[4].value) * 60 + f[5].value) * 1000 + f[6].value == ms
    ensures Instant(v) == Some(ms)
  {
    assert v[0] == f[0].value && v[1] == f[1].value && v[2] == f[2].value && v[3] == f[3].value;
    assert v[4] == f[4].value && v[5] == f[5].value && v[6] == f[6].value;
  }

  lemma {:induction false} ReadsBack(ms: int)
    ensures var f := FieldsOf(ms);
      var date := Date(f[0].value, f[1].value, f[2].value);
      && IsDate(date) && 0 <= f[3].value <= 23 && 0 <= f[4].value <= 59 && 0 <= f[5].value <= 59
      && (((DaysFromCivil(date) * 24 + f[3].value) * 60 + f[4].value) * 60 + f[5].value) * 1000 + f[6].value == ms
  {
    CivilIsDate(ms / 1000 / 86_400);
    CivilRoundTrip(ms / 1000 / 86_400);
    ClockParts(ms);
  }

  /** The output has the 24-character form of RFC 3339 exactly for those years. */
  lemma {:induction false} FormIff(ms: int)
    ensures ReadFields(Rfc3339(ms), DATE_TIME).Some? <==> 0 <= YearOf(ms) <= 9999
    ensures 0 <= YearOf(ms) <= 9999 ==> |Rfc3339(ms)| == 24
  {
    var y, s := YearOf(ms), Rfc3339(ms);
    if 0 <= y <= 9999 {
      ReadsFields(ms);
      ReadWidth(s, DATE_TIME);
      assert TotalWidth(DATE_TIME) == 24 by { ShapeWidth(); }
    } else if y < 0 {
      NegativeYear(ms);
    } else {
      WideYear(ms);
    }
  }

  /** The parts of a printed sequence of fields, at their places. */
  lemma {:induction false} PrintStep(fields: seq<Field>, width: nat)
    requires fields != [] && width == fields[0].width && Fit(fields)
    ensures var s, n := Print(fields), width + |fields[0].suffix|;
      && n <= |s| && AllDigits(s[..width]) && Value(s[..width]) == fields[0].value
      && s[width..n] == fields[0].suffix && s[n..] == Print(fields[1..])
  {
    var f := fields[0];
    PadIsFixed(f.value, width);
    FixedValue(f.value, width);
    Pieces(Fixed(f.value, width), f.suffix, Print(fields[1..]));
    assert Print(fields) == Fixed(f.value, width) + (f.suffix + Print(fields[1..]));
  }

  lemma {:induction false} SliceAt(s: string, from: nat, a: nat, b: nat)
    requires a <= b && from + b <= |s|
    ensures s[from..][a..b] == s[from + a..from + b] && s[from..][b..] == s[from + b..]
  {
  }

  /** Where a field stands in a printed text, `from` characters in. */
  ghost predicate Shows(s: string, from: nat, width: nat, value: int, mark: char) {
    && from + width < |s| && AllDigits(s[from..from + width])
    && Value(s[from..from + width]) == value && s[from + width] == mark
  }

  lemma {:induction false} ShowsField(s: string, from: nat, fields: seq<Field>, width: nat, mark: char)
    requires from <= |s| && s[from..] == Print(fields) && Fit(fields) && fields != []
    requires fields[0].width == width && fields[0].suffix == [mark]
    ensures Shows(s, from, width, fields[0].value, mark)
    ensures from + width + 1 <= |s| && s[from + width + 1..] == Print(fields[1..])
  {
    PrintStep(fields, width);
    SliceAt(s, from, 0, width);
    SliceAt(s, from, width, width + 1);
    var end := s[from + width..from + width + 1];
    assert end == [mark] && end[0] == s[from + width];
  }

  /** From here on the text is the fields from the `k`-th on. */
  ghost predicate At(s: string, from: nat, f: seq<Field>, k: nat) {
    from <= |s| && k <= |f| && s[from..] == Print(f[k..])
  }

  lemma {:induction false} ShowsNext(s: string, from: nat, f: seq<Field>, k: nat, width: nat, mark: char)
    requires At(s, from, f, k) && Fit(f) && k < |f| && f[k].width == width && f[k].suffix == [mark]
    ensures Shows(s, from, width, f[k].value, mark) && At(s, from + width + 1, f, k + 1)
  {
    assert f[k..][1..] == f[k + 1..] && Fit(f[k..]);
    ShowsField(s, from, f[k..], width, mark);
  }

  lemma {:induction false} DateShown(s: string, f: seq<Field>)
    requires At(s, 0, f, 0) && Fit(f) && |f| == 7
    requires f[0].width == 4 && f[0].suffix == "-" && f[1].width == 2 && f[1].suffix == "-" && f[2].width == 2 && f[2].suffix == "T"
    ensures Shows(s, 0, 4, f[0].value, '-') && Shows(s, 5, 2, f[1].value, '-') && Shows(s, 8, 2, f[2].value, 'T')
    ensures At(s, 11, f, 3)
  {
    ShowsNext(s, 0, f, 0, 4, '-');
    ShowsNext(s, 5, f, 1, 2, '-');
    ShowsNext(s, 8, f, 2, 2, 'T');
  }

  lemma {:induction false} ClockShown(s: string, f: seq<Field>)
    requires At(s, 11, f, 3) && Fit(f) && |f| == 7
    requires f[3].width == 2 && f[3].suffix == ":" && f[4].width == 2 && f[4].suffix == ":"
    requires f[5].width == 2 && f[5].suffix == "." && f[6].width == 3 && f[6].suffix == "Z"
    ensures Shows(s, 11, 2, f[3].value, ':') && Shows(s, 14, 2, f[4].value, ':')
    ensures Shows(s, 17, 2, f[5].value, '.') && Shows(s, 20, 3, f[6].value, 'Z')
  {
    ShowsNext(s, 11, f, 3, 2, ':');
    ShowsNext(s, 14, f, 4, 2, ':');
    ShowsNext(s, 17, f, 5, 2, '.');
    ShowsNext(s, 20, f, 6, 3, 'Z');
  }

  /**
   * The text character by character: year, month and day of the date, a T, the time of day in hours,
   * minutes and seconds of UTC, and the milliseconds, each zero-filled between its marks.
   */
  lemma {:induction false} Looks(ms: int)
    requires 0 <= CivilFromDays(ms / 86_400_000).year <= 9999
    ensures var s, date := Rfc3339(ms), CivilFromDays(ms / 86_400_000);
      && |s| == 24
      && Shows(s, 0, 4, date.year, '-') && Shows(s, 5, 2, date.month, '-') && Shows(s, 8, 2, date.day, 'T')
      && Shows(s, 11, 2, ms / 3_600_000 % 24, ':') && Shows(s, 14, 2, ms / 60_000 % 60, ':')
      && Shows(s, 17, 2, ms / 1000 % 60, '.') && Shows(s, 20, 3, ms % 1000, 'Z')
  {
    ClockIs(ms);
    FieldsFit(ms);
    FormIff(ms);
    FieldValues(ms);
    DateShown(Rfc3339(ms), FieldsOf(ms));
    ClockShown(Rfc3339(ms), FieldsOf(ms));
  }

  lemma {:induction false} FieldValues(ms: int)
    ensures var f, tod := FieldsOf(ms), ms / 1000 % 86_400;
      var date := CivilFromDays(ms / 1000 / 86_400);
      && |f| == 7 && f[0].value == date.year && f[1].value == date.month && f[2].value == date.day
      && f[3].value == tod / 3600 && f[4].value == tod % 3600 / 60 && f[5].value == tod % 60 && f[6].value == ms % 1000
    ensures At(Rfc3339(ms), 0, FieldsOf(ms), 0)
  {
    assert Rfc3339(ms)[0..] == Rfc3339(ms) && FieldsOf(ms)[0..] == FieldsOf(ms);
  }

  /** The divisions of the code, all of them of the milliseconds. */
  lemma {:induction false} ClockIs(ms: int)
    ensures ms / 1000 / 86_400 == ms / 86_400_000
    ensures var tod := ms / 1000 % 86_400;
      tod / 3600 == ms / 3_600_000 % 24 && tod % 3600 / 60 == ms / 60_000 % 60 && tod % 60 == ms / 1000 % 60
  {
    var secs, tod := ms / 1000, ms / 1000 % 86_400;
    var days, h, m, s := secs / 86_400, tod / 3600, tod % 3600 / 60, tod % 60;
    assert tod == 3600 * h + 60 * m + s;
    FromParts(ms, days, h, m, s, ms % 1000);
  }

  lemma {:induction false} FromParts(ms: int, days: int, h: int, m: int, s: int, millis: int)
    requires ms == ((86_400 * days + 3600 * h + 60 * m + s) * 1000) + millis
    requires 0 <= h < 24 && 0 <= m < 60 && 0 <= s < 60 && 0 <= millis < 1000
    ensures ms / 86_400_000 == days && ms / 3_600_000 % 24 == h && ms / 60_000 % 60 == m && ms / 1000 % 60 == s
  {
    QuotientIs(ms, 86_400_000, days);
    QuotientIs(ms, 3_600_000, 24 * days + h);
    QuotientIs(ms, 60_000, 1440 * days + 60 * h + m);
    QuotientIs(ms, 1000, 86_400 * days + 3600 * h + 60 * m + s);
    RemainderIs(24 * days + h, 24, days, h);
    RemainderIs(1440 * days + 60 * h + m, 60, 24 * days + h, m);
    RemainderIs(86_400 * days + 3600 * h + 60 * m + s, 60, 1440 * days + 60 * h + m, s);
  }

  lemma {:induction false} RemainderIs(x: int, d: int, q: int, r: int)
    requires d > 0 && 0 <= r < d && x == q * d + r
    ensures x % d == r
  {
    QuotientIs(x, d, q);
    assert x == x / d * d + x % d;
  }

  lemma {:induction false} NegativeYear(ms: int)
    requires YearOf(ms) < 0
    ensures ReadFields(Rfc3339(ms), DATE_TIME).None?
  {
    var s := Rfc3339(ms);
    assert s[0] == '-';
    if |s| >= 5 {
      assert s[..4][0] == '-' && '-' in s[..4];
    }
  }

  lemma {:induction false} WideYear(ms: int)
    requires YearOf(ms) > 9999
    ensures ReadFields(Rfc3339(ms), DATE_TIME).None?
  {
    var s, y := Rfc3339(ms), YearOf(ms);
    assert Power10(4) == 10_000;
    DigitsOverflow(y, 4);
    DigitsText(y);
    assert PadInt(y, 4) == Digits(y);
    FifthIsDigit(Digits(y), s[|Digits(y)|..]);
  }

  lemma {:induction false} FifthIsDigit(digits: string, rest: string)
    requires |digits| > 4 && AllDigits(digits)
    ensures ReadFields(digits + rest, DATE_TIME).None?
  {
    var s := digits + rest;
    assert digits[4] in digits && s[4] == digits[4] && s[4] != '-';
    assert |DATE_TIME[0].suffix| == 1 && DATE_TIME[0].suffix[0] == '-';
    assert s[4..5][0] == s[4];
  }

  lemma {:induction false} ShapeWidth()
    ensures TotalWidth(DATE_TIME) == 24
  {
    assert TotalWidth(DATE_TIME[6..]) == 4;
    assert DATE_TIME[5..][1..] == DATE_TIME[6..] && DATE_TIME[4..][1..] == DATE_TIME[5..];
    assert DATE_TIME[3..][1..] == DATE_TIME[4..] && DATE_TIME[2..][1..] == DATE_TIME[3..];
    assert DATE_TIME[1..][1..] == DATE_TIME[2..];
  }

  /** As text the outputs sort as the instants do (section 5.1 of RFC 3339). */
  lemma {:induction false} TextOrder(a: int, b: int)
    requires 0 <= YearOf(a) <= 9999 && 0 <= YearOf(b) <= 9999
    ensures Less(Rfc3339(a), Rfc3339(b)) <==> a < b
  {
    FieldsFit(a);
    FieldsFit(b);
    PrintOrder(FieldsOf(a), FieldsOf(b), DATE_TIME);
    FieldOrder(a, b);
  }

  /** Comparing seven fields, spelled out. */
  lemma {:induction false} SevenFields(a: seq<Field>, b: seq<Field>, i: nat)
    requires |a| == |b| == 7 && i <= 7
    ensures i == 7 ==> !FieldsBefore(a[i..], b[i..])
    ensures i < 7 ==> (FieldsBefore(a[i..], b[i..]) <==>
              a[i].value < b[i].value || (a[i].value == b[i].value && FieldsBefore(a[i + 1..], b[i + 1..])))
  {
    if i < 7 {
      assert a[i..][1..] == a[i + 1..] && b[i..][1..] == b[i + 1..];
    }
  }

  lemma {:induction false} FieldOrder(a: int, b: int)
    ensures FieldsBefore(FieldsOf(a), FieldsOf(b)) <==> a < b
  {
    var f, g := FieldsOf(a), FieldsOf(b);
    assert f[0..] == f && g[0..] == g;
    SevenFields(f, g, 0);
    SevenFields(f, g, 1);
    SevenFields(f, g, 2);
    ClockOrder(f, g);
    DatesThenClock(a, b);
  }

  /** The last four fields, hour to millisecond, compared. */
  predicate ClockBefore(f: seq<Field>, g: seq<Field>)
    requires |f| == |g| == 7
  {
    if f[3].value != g[3].value then f[3].value < g[3].value
    else if f[4].value != g[4].value then f[4].value < g[4].value
    else if f[5].value != g[5].value then f[5].value < g[5].value
    else f[6].value < g[6].value
  }

  lemma {:induction false} ClockOrder(f: seq<Field>, g: seq<Field>)
    requires |f| == |g| == 7
    ensures FieldsBefore(f[3..], g[3..]) <==> ClockBefore(f, g)
  {
    SevenFields(f, g, 3);
    SevenFields(f, g, 4);
    SevenFields(f, g, 5);
    SevenFields(f, g, 6);
    SevenFields(f, g, 7);
  }

  /** Instants compare by date first and then by the clock. */
  lemma {:induction false} DatesThenClock(a: int, b: int)
    ensures var da, db := CivilFromDays(a / 1000 / 86_400), CivilFromDays(b / 1000 / 86_400);
      a < b <==> Before(da, db) || (da == db && ClockBefore(FieldsOf(a), FieldsOf(b)))
  {
    CivilIncreases(a / 1000 / 86_400, b / 1000 / 86_400);
    CivilIncreases(b / 1000 / 86_400, a / 1000 / 86_400);
    ClockParts(a);
    ClockParts(b);
  }
}

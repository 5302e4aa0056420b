/** What the two revisions of the classifier share beyond the batch loop:
    the payees, codes and description keys of the rules, the display and
    rename formats, the holding title, and the gas, electricity-settlement
    and water parsers, which are the same code in both revisions. */
module Bills {
  import opened JsString
  import opened JsNumber
  import JsDate
  import opened Confirmation

  const HoldingPayee := "ZAGREBAČKI HOLDING"
  const GasPayee := "GRADSKA PLINARA"
  const ElectricityPayee := "HEP ELEKTRA"
  const WaterPayee := "VODOOPSKRBA I ODVODNJA"

  const HoldingKey := "NAKNADE I USLUGE ZA "
  const UtilityKey := "KN "
  const UtilityNuvKey := "KN,NUV "
  const GasAdvanceKey := "Akontacijska rata za "
  const GasSettlementKey := "Obračun plina za "
  const ElectricityKey := "Mjesecna novcana obveza za "
  const ElectricitySettlementKey := "Račun za:"
  const ElectricitySettlementAsciiKey := "Racun za:"
  const WaterKey := "RAČUN BROJ "

  /** A komunalna description does not contain the fee key, which has a `G`. */
  lemma {:induction false} NoHoldingKeyAfter(key: string, date: string)
    requires key == UtilityKey || key == UtilityNuvKey
    requires 'G' !in date
    ensures !Includes(key + date, HoldingKey)
  {
    assert HoldingKey[14] == 'G';
    assert 'G' !in key + date;
    NotIncludesMissingChar(key + date, HoldingKey, 14);
  }

  /** A gas settlement does not contain the advance key, which starts with `A`. */
  lemma {:induction false} NoAdvanceKeyAfter(num: string)
    requires 'A' !in num
    ensures !Includes(GasSettlementKey + num, GasAdvanceKey)
  {
    assert 'A' !in GasSettlementKey + num;
    NotIncludesMissingChar(GasSettlementKey + num, GasAdvanceKey, 0);
  }

  /** An electricity settlement does not contain the monthly key, which
      starts with `M`. */
  lemma {:induction false} NoElectricityKeyAfter(key: string, rest: string)
    requires key == ElectricitySettlementKey || key == ElectricitySettlementAsciiKey
    requires 'M' !in rest
    ensures !Includes(key + rest, ElectricityKey)
  {
    assert 'M' !in key + rest;
    NotIncludesMissingChar(key + rest, ElectricityKey, 0);
  }

  /** `${x}` of a value that may be `undefined`. */
  function Show(o: Option<string>): string {
    if o.Some? then o.value else "undefined"
  }

  /** `ps[i]`, `undefined` past the end. */
  function Piece(ps: seq<string>, i: nat): Option<string> {
    if i < |ps| then Some(ps[i]) else None
  }

  /** The display line `<title> <month>/<year> = <amount>` and the rename
      target `<slug>_<month><year>.pdf` that most categories produce. */
  function PeriodEntry(title: string, slug: string, month: string, year: string, amount: string): (e: Entry)
    ensures Shows(e, amount)
  {
    var e := Entry(title + " " + month + "/" + year + " = " + amount, slug + "_" + month + year + ".pdf");
    assert e.line == (title + " " + month + "/" + year) + (" = " + amount);
    assert e.target == (slug + "_" + month + year) + ".pdf";
    e
  }

  /** Every entry shows the amount at the end of its line and renames to a PDF. */
  predicate Shows(e: Entry, amount: string) {
    EndsWith(e.line, " = " + amount) && EndsWith(e.target, ".pdf")
  }

  /** An amount as the bank prints it: `units.cents` and a currency code. */
  function Printed(units: string, cents: string, currency: string): string {
    units + "." + cents + " " + currency
  }

  /** An amount as the summary shows it: `units,cents` and a symbol. */
  function Displayed(units: string, cents: string, symbol: string): string {
    units + "," + (cents + " " + symbol)
  }

  /** Characters of `units.cents` amounts: digits and the point. */
  lemma {:induction false} DecimalChars(units: string, cents: string, c: char)
    requires AllDigits(units, 10) && AllDigits(cents, 10) && !IsDigit(c, 10) && c != '.'
    ensures c !in units + "." + cents
  {
  }

  /** The currency code at the end of a number without letters is replaced. */
  lemma {:induction false} CurrencyAtEnd(number: string, code: string, symbol: string)
    requires |code| > 0 && code[0] !in number && code[0] != ' '
    ensures ReplaceFirst(number + " " + code, code, symbol) == number + " " + symbol
  {
    var a := number + " ";
    assert code[0] !in a;
    ReplaceAfter(a, code, "", symbol);
    assert a + code + "" == number + " " + code;
    assert a + symbol + "" == number + " " + symbol;
  }

  /** A code absent from an amount leaves it as it is. */
  lemma {:induction false} CurrencyAbsent(number: string, suffix: string, code: string, symbol: string)
    requires |code| > 0 && code[0] !in number && code[0] !in suffix && code[0] != ' '
    ensures ReplaceFirst(number + " " + suffix, code, symbol) == number + " " + suffix
  {
    assert code[0] !in number + " " + suffix;
    ReplaceAbsent(number + " " + suffix, code, symbol);
  }

  /** The first `.` of an amount whose integer part has none becomes the
      decimal comma. */
  lemma {:induction false} DecimalComma(units: string, cents: string, symbol: string)
    requires '.' !in units
    ensures ReplaceFirst(units + "." + cents + " " + symbol, ".", ",") == Displayed(units, cents, symbol)
  {
    ReplaceAfter(units, ".", cents + " " + symbol, ",");
    assert units + "." + (cents + " " + symbol) == units + "." + cents + " " + symbol;
  }

  /** The integer part of a displayed amount and what follows it. */
  lemma {:induction false} DisplayedParts(units: string, cents: string, symbol: string)
    ensures Displayed(units, cents, symbol) == units + ("," + cents + " " + symbol)
  {
  }

  const SmallReserve := "Mala pričuva"
  const Holding := "Holding"

  /** `parseFloat(cijena) < threshold ? 'Mala pričuva' : 'Holding'`. */
  function Title(amount: string, threshold: int): string {
    if Below(ParseFloat(amount), threshold) then SmallReserve else Holding
  }

  /** `title.toLowerCase().replace(' ', '_').replace('č', 'c')`. */
  function Slug(title: string): string {
    ReplaceFirst(ReplaceFirst(ToLowerAscii(title), " ", "_"), "č", "c")
  }

  /** An amount whose display text starts with an integer part followed by
      a non-numeric character is a small reserve exactly when that integer
      is below the threshold; an amount equal to the threshold is Holding. */
  lemma {:induction false} TitleOfAmount(ds: string, rest: string, threshold: int)
    requires |ds| >= 1 && AllDigits(ds, 10)
    requires rest == [] || (!IsDigit(rest[0], 10) && rest[0] !in {'.', 'e', 'E'})
    ensures Title(ds + rest, threshold) == SmallReserve <==> Value(ds, 10) < threshold
    ensures Title(ds + rest, threshold) == Holding <==> Value(ds, 10) >= threshold
  {
    BelowDigits(ds, rest, threshold);
  }

  /** The rename prefix of a small reserve. */
  lemma {:induction false} SmallReserveSlug()
    ensures Slug(SmallReserve) == "mala_pricuva"
  {
    LowerSmallReserve();
    UnderscoreSmallReserve();
    PlainSmallReserve();
  }

  lemma {:induction false} LowerSmallReserve()
    ensures ToLowerAscii(SmallReserve) == "mala pričuva"
  {
  }

  lemma {:induction false} PlainSmallReserve()
    ensures ReplaceFirst("mala_pričuva", "č", "c") == "mala_pricuva"
  {
    ReplaceAfter("mala_pri", "č", "uva", "c");
    assert "mala_pričuva" == "mala_pri" + "č" + "uva";
    assert "mala_pricuva" == "mala_pri" + "c" + "uva";
  }

  lemma {:induction false} UnderscoreSmallReserve()
    ensures ReplaceFirst("mala pričuva", " ", "_") == "mala_pričuva"
  {
    IndexOfAfter("mala", " ", "pričuva");
    assert "mala pričuva" == "mala" + " " + "pričuva";
  }

  /** The rename prefix of a holding bill. */
  lemma {:induction false} HoldingSlug()
    ensures Slug(Holding) == "holding"
  {
    assert ToLowerAscii("Holding") == "holding";
    NotIncludesWithoutHead("holding", " ");
    NotIncludesWithoutHead("holding", "č");
  }

  /** A holding bill renames to `mala_pricuva_MMYYYY.pdf` or
      `holding_MMYYYY.pdf`, after its title. */
  lemma {:induction false} HoldingTarget(title: string, month: string, year: string, amount: string)
    requires title == SmallReserve || title == Holding
    ensures PeriodEntry(title, Slug(title), month, year, amount).target ==
      (if title == SmallReserve then "mala_pricuva" else "holding") + "_" + month + year + ".pdf"
  {
    if title == SmallReserve {
      SmallReserveSlug();
    } else {
      HoldingSlug();
    }
  }

  /** Gas advance: `date.split('.')[0]` and `date.split('.')[1].replace('.', '')`.
      Without a `.` the second piece is `undefined` and calling `replace` on
      it throws; a piece never holds a `.`, so the `replace` changes nothing. */
  function GasAdvancePeriod(date: string): (r: Result<(string, string)>)
    ensures r.Fail? <==> '.' !in date
    ensures r.Fail? ==> r.error.NullDereference?
    ensures r.Ok? ==> '.' !in r.value.0 && '.' !in r.value.1
    ensures r.Ok? ==> r.value.1 == Split(date, '.')[1]
  {
    var ps := Split(date, '.');
    if |ps| < 2 then Fail(NullDereference("date.split('.')[1]"))
    else
      NotIncludesWithoutHead(ps[1], ".");
      Ok((ps[0], ReplaceFirst(ps[1], ".", "")))
  }

  /** A `MM.YYYY.` remainder gives back its month and year. */
  lemma {:induction false} GasAdvanceOf(month: string, year: string, rest: string)
    requires '.' !in month && '.' !in year && (rest == [] || rest[0] == '.')
    ensures GasAdvancePeriod(month + "." + year + rest) == Ok((month, year))
  {
    SplitTwo(month, '.', year, rest);
  }

  function GasAdvanceEntry(opis: string, cijena: string): (r: Result<Entry>)
    ensures r.Ok? ==> Shows(r.value, cijena)
    ensures r.Fail? ==> r.error.NullDereference?
  {
    var date := ReplaceFirst(opis, GasAdvanceKey, "");
    var p :- GasAdvancePeriod(date);
    Ok(PeriodEntry("Plin", "plin", p.0, p.1, cijena))
  }

  /** The gas advance entry of an `Akontacijska rata za MM.YYYY.` description. */
  lemma {:induction false} GasAdvanceEntryOf(month: string, year: string, rest: string, cijena: string)
    requires '.' !in month && '.' !in year && (rest == [] || rest[0] == '.')
    ensures GasAdvanceEntry(GasAdvanceKey + (month + "." + year + rest), cijena) ==
      Ok(PeriodEntry("Plin", "plin", month, year, cijena))
  {
    var date := month + "." + year + rest;
    assert ReplaceFirst(GasAdvanceKey + date, GasAdvanceKey, "") == date by {
      ReplacePrefix(GasAdvanceKey, date, "");
      assert "" + date == date;
    }
    GasAdvanceOf(month, year, rest);
  }

  /** Gas settlement: the rest of the description is carried as is. */
  function GasSettlementEntry(opis: string, cijena: string): (e: Entry)
    ensures Shows(e, cijena)
  {
    var num := ReplaceFirst(opis, GasSettlementKey, "");
    var e := Entry("Plin obračun " + num + " = " + cijena, "plin_obracun_" + num + ".pdf");
    assert e.line == ("Plin obračun " + num) + (" = " + cijena);
    assert e.target == ("plin_obracun_" + num) + ".pdf";
    e
  }

  /** The gas settlement entry of an `Obračun plina za NUM` description. */
  lemma {:induction false} GasSettlementEntryOf(num: string, cijena: string)
    ensures GasSettlementEntry(GasSettlementKey + num, cijena) ==
      Entry("Plin obračun " + num + " = " + cijena, "plin_obracun_" + num + ".pdf")
  {
    ReplacePrefix(GasSettlementKey, num, "");
    assert "" + num == num;
  }

  /** Electricity settlement: the remainder is split on `-` and the month
      and year are characters [2, 4) and [4, 8) of the second piece (the
      second `DDMMYYYY` date); a remainder without `-` has no second piece,
      and `substring` on `undefined` throws. */
  function ElectricitySettlementPeriod(rest: string): (r: Result<(string, string)>)
    ensures r.Fail? <==> '-' !in rest
    ensures r.Fail? ==> r.error.NullDereference?
  {
    var dates := Split(rest, '-');
    if |dates| < 2 then Fail(NullDereference("dates[1]"))
    else Ok((Substring(dates[1], 2, 4), Substring(dates[1], 4, 8)))
  }

  /** A `<first date>-DDMMYYYY` remainder yields that second date's month
      and year. */
  lemma {:induction false} ElectricitySettlementOf(first: string, day: string, month: string, year: string, t: string)
    requires |day| == 2 && |month| == 2 && |year| == 4
    requires '-' !in first && '-' !in day + month + year && (t == [] || t[0] == '-')
    ensures ElectricitySettlementPeriod(first + "-" + day + month + year + t) == Ok((month, year))
  {
    var second := day + month + year;
    assert first + "-" + day + month + year + t == first + ['-'] + second + t;
    SplitTwo(first, '-', second, t);
    assert second[2..4] == month && second[4..8] == year;
  }

  /** `m - 1` on a parsed number: NaN stays NaN. */
  function Pred(m: Option<int>): Option<int> {
    if m.None? then None else Some(m.value - 1)
  }

  /** `const previous = new Date(y, m - 1, d); previous.setDate(0);` and, in
      the current revision (`early`), a second `setDate(0)` when `d <= 5`
      (a comparison that is false for NaN). */
  function WaterDateOf(d: Option<int>, m: Option<int>, y: Option<int>, early: bool): (r: JsDate.DateValue)
    ensures JsDate.WellFormed(r)
  {
    var previous := JsDate.SetDateOf(JsDate.Construct(y, Pred(m), d), 0);
    if early && d.Some? && d.value <= 5 then JsDate.SetDateOf(previous, 0) else previous
  }

  /** One calendar month back, or two when the revision steps back again
      for a confirmation on day 5 or earlier: the reference the water date
      is checked against. */
  function MonthsBack(year: int, month: int, twice: bool): (r: (int, int))
    requires 0 <= month < 12
    ensures 0 <= r.1 < 12
  {
    var once := JsDate.PrevMonth(year, month);
    if twice then JsDate.PrevMonth(once.0, once.1) else once
  }

  /** Two month numbers that agree name the same month. */
  lemma {:induction false} MonthNumberInjective(y: int, m: int, y2: int, m2: int)
    requires 0 <= m < 12 && 0 <= m2 < 12
    requires JsDate.MonthNumber(y, m) == JsDate.MonthNumber(y2, m2)
    ensures y == y2 && m == m2
  {
  }

  /** The water date is the month before the confirmation's month (two
      months before for an early confirmation in the current revision),
      on that month's last day. */
  lemma {:induction false} WaterDateInRange(d: int, m: int, y: int, early: bool)
    requires 1 <= m <= 12 && 1 <= d <= JsDate.DaysInMonth(JsDate.MakeFullYear(y), m - 1)
    ensures var r := WaterDateOf(Some(d), Some(m), Some(y), early);
      var back := MonthsBack(JsDate.MakeFullYear(y), m - 1, early && d <= 5);
      r.Day? && r.year == back.0 && r.month == back.1
      && r.day == JsDate.DaysInMonth(r.year, r.month)
  {
    var fy := JsDate.MakeFullYear(y);
    JsDate.ConstructInRange(y, m - 1, d);
    var start := JsDate.Construct(Some(y), Pred(Some(m)), Some(d));
    assert start == JsDate.Day(fy, m - 1, d);
    var once := JsDate.SetDateOf(start, 0);
    JsDate.SetDateZero(start);
    var p1 := JsDate.PrevMonth(fy, m - 1);
    MonthNumberInjective(once.year, once.month, p1.0, p1.1);
    if early && d <= 5 {
      JsDate.SetDateZero(once);
      var twice := JsDate.SetDateOf(once, 0);
      var p2 := JsDate.PrevMonth(p1.0, p1.1);
      MonthNumberInjective(twice.year, twice.month, p2.0, p2.1);
    }
  }

  /** `vrijeme.split('.')` and `parseInt` of pieces 0, 1 and 2 (a missing
      piece is `undefined`, which parses as NaN). */
  function DateParts(vrijeme: string): (Option<int>, Option<int>, Option<int>) {
    var split := Split(vrijeme, '.');
    (ParseInt(split[0]), ParseInt(Show(Piece(split, 1))), ParseInt(Show(Piece(split, 2))))
  }

  /** A `D.M.Y` confirmation time (optionally followed by `.` and more)
      parses to its three numbers. */
  lemma {:induction false} DatePartsOf(ds: string, ms: string, ys: string, rest: string)
    requires |ds| >= 1 && AllDigits(ds, 10) && |ms| >= 1 && AllDigits(ms, 10)
    requires |ys| >= 1 && AllDigits(ys, 10)
    requires rest == [] || rest[0] == '.'
    ensures DateParts(ds + "." + ms + "." + ys + rest) ==
      (Some(Value(ds, 10) as int), Some(Value(ms, 10) as int), Some(Value(ys, 10) as int))
  {
    DateSplit(ds, ms, ys, rest);
    DigitsParse(ds);
    DigitsParse(ms);
    DigitsParse(ys);
  }

  lemma {:induction false} DigitsParse(ds: string)
    requires |ds| >= 1 && AllDigits(ds, 10)
    ensures ParseInt(ds) == Some(Value(ds, 10) as int)
  {
    ParseIntDigits(ds, []);
    assert ds + [] == ds;
  }

  lemma {:induction false} DateSplit(ds: string, ms: string, ys: string, rest: string)
    requires AllDigits(ds, 10) && AllDigits(ms, 10) && AllDigits(ys, 10)
    requires rest == [] || rest[0] == '.'
    ensures var p := Split(ds + "." + ms + "." + ys + rest, '.');
      |p| >= 3 && p[0] == ds && p[1] == ms && p[2] == ys
  {
    assert '.' !in ds && '.' !in ms && '.' !in ys by {
      assert !IsDigit('.', 10);
    }
    assert ds + "." + ms + "." + ys + rest == ds + ['.'] + (ms + ['.'] + ys + rest);
    SplitAtFirst(ds, '.', ms + ['.'] + ys + rest);
    SplitTwo(ms, '.', ys, rest);
  }

  /** `(n + 1).toString().padStart(2, "0")` of `getMonth()`; NaN prints as `NaN`. */
  function MonthText(month: Option<int>): string {
    if month.None? then "NaN" else PadStart(IntToString(month.value + 1), 2, '0')
  }

  /** `getFullYear().toString()`; NaN prints as `NaN`. */
  function YearText(year: Option<int>): string {
    if year.None? then "NaN" else IntToString(year.value)
  }

  /** A leading zero does not change a decimal value. */
  lemma {:induction false} ValueLeadingZero(ds: string)
    ensures Value("0" + ds, 10) == Value(ds, 10)
    decreases |ds|
  {
    if |ds| > 0 {
      var n := |ds|;
      assert ("0" + ds)[..n] == "0" + ds[..n - 1];
      ValueLeadingZero(ds[..n - 1]);
    }
  }

  /** A month index prints as two digits that parse back to the month's
      number: the partner of `getMonth() + 1` and `padStart`. */
  lemma {:induction false} MonthTextRoundTrip(month: int)
    requires 0 <= month < 12
    ensures |MonthText(Some(month))| == 2
    ensures ParseInt(MonthText(Some(month))) == Some(month + 1)
  {
    var digits := NatToString(month + 1);
    NatToStringValue(month + 1);
    var t := MonthText(Some(month));
    if month + 1 < 10 {
      assert |digits| == 1;
      assert t == "0" + digits;
      ValueLeadingZero(digits);
      assert AllDigits(t, 10) by {
        assert t[0] == '0' && t[1] == digits[0];
      }
    } else {
      assert digits == NatToString((month + 1) / 10) + [DigitChar((month + 1) % 10)];
      assert |digits| == 2;
      assert t == digits;
    }
    ParseIntDigits(t, []);
    assert t + [] == t;
  }

  /** The water period: `(month, year)` of the stepped-back date. */
  function WaterPeriod(vrijeme: string, early: bool): (string, string) {
    var (d, m, y) := DateParts(vrijeme);
    var v := WaterDateOf(d, m, y, early);
    (MonthText(JsDate.MonthOf(v)), YearText(JsDate.FullYearOf(v)))
  }

  /** For a confirmation time whose day, month and year parse to an
      existing date, the water period is the month before (or two before)
      the confirmation month, as two digits and a full year. */
  lemma {:induction false} WaterPeriodOfParts(vrijeme: string, d: int, m: int, y: int, early: bool)
    requires DateParts(vrijeme) == (Some(d), Some(m), Some(y))
    requires 1 <= m <= 12 && 1 <= d <= JsDate.DaysInMonth(JsDate.MakeFullYear(y), m - 1)
    ensures var back := MonthsBack(JsDate.MakeFullYear(y), m - 1, early && d <= 5);
      WaterPeriod(vrijeme, early) == (MonthText(Some(back.1)), YearText(Some(back.0)))
  {
    WaterDateInRange(d, m, y, early);
  }

  /** The water branch step by step, on a `Date` object as the source
      does: construct, `setDate(0)`, a second `setDate(0)` for an early
      confirmation in the current revision, then read month and year. */
  method WaterPeriodSteps(vrijeme: string, early: bool) returns (month: string, year: string)
    ensures (month, year) == WaterPeriod(vrijeme, early)
  {
    var split := Split(vrijeme, '.');
    var d := ParseInt(split[0]);
    var m := ParseInt(Show(Piece(split, 1)));
    var y := ParseInt(Show(Piece(split, 2)));
    var previous := new JsDate.Date(y, Pred(m), d);
    previous.SetDate(0);
    if early && d.Some? && d.value <= 5 {
      previous.SetDate(0);
    }
    month := MonthText(previous.GetMonth());
    year := YearText(previous.GetFullYear());
  }

  /** The water entry; `vrijeme.split` on a missing confirmation time throws. */
  function WaterEntry(vrijeme: Option<string>, early: bool, cijena: string): (r: Result<Entry>)
    ensures r.Ok? <==> vrijeme.Some?
    ensures r.Ok? ==> Shows(r.value, cijena)
    ensures r.Fail? ==> r.error.NullDereference?
  {
    if vrijeme.None? then Fail(NullDereference("vrijeme"))
    else
      var p := WaterPeriod(vrijeme.value, early);
      Ok(PeriodEntry("Voda", "voda", p.0, p.1, cijena))
  }
}

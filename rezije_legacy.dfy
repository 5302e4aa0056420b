/** The legacy revision of the classifier (main.js): the period comes from
    the clock, the amount keeps a euro code as it is, the small reserve is
    below 30, the holding and komunalna periods are split on `/`, the
    electricity period is `YYYYMM`, the chain knows only one spelling of
    the komunalna and settlement keys, and a water bill is always dated
    one month back. */
module RezijeLegacy {
  import opened JsString
  import opened JsNumber
  import opened Confirmation
  import opened Bills

  /** The chain of `if ... else if` conditions, in source order. */
  const Rules: seq<Rule> := [
    Rule(HoldingFees, HoldingPayee, "-", [HoldingKey]),
    Rule(UtilityFee, HoldingPayee, "-", [UtilityKey]),
    Rule(GasAdvance, GasPayee, "GASB", [GasAdvanceKey]),
    Rule(GasSettlement, GasPayee, "GASB", [GasSettlementKey]),
    Rule(Electricity, ElectricityPayee, "ELEC", [ElectricityKey]),
    Rule(ElectricitySettlement, ElectricityPayee, "ELEC", [ElectricitySettlementKey]),
    Rule(Water, WaterPayee, "WTER", [WaterKey])
  ]

  /** Each rule's category, read off the chain. */
  lemma {:induction false} Categories()
    ensures Rules[0].category == HoldingFees && Rules[1].category == UtilityFee
    ensures Rules[2].category == GasAdvance && Rules[3].category == GasSettlement
    ensures Rules[4].category == Electricity && Rules[5].category == ElectricitySettlement
    ensures Rules[6].category == Water
  {
  }

  /** A holding fee whose amount is below this is the small reserve. */
  const SmallReserveLimit := 30

  /** The month's rent in kuna, printed in the trailer. */
  const Rent := "2300 kn"

  /** `get(...).replace('HRK', 'kn').replace('.', ',')`. */
  function DisplayAmount(amount: string): string {
    ReplaceFirst(ReplaceFirst(amount, "HRK", "kn"), ".", ",")
  }

  /** A kuna amount is shown with a decimal comma and `kn`. */
  lemma {:induction false} DisplayKuna(units: string, cents: string)
    requires AllDigits(units, 10) && AllDigits(cents, 10)
    ensures DisplayAmount(Printed(units, cents, "HRK")) == Displayed(units, cents, "kn")
  {
    DecimalChars(units, cents, 'H');
    CurrencyAtEnd(units + "." + cents, "HRK", "kn");
    assert '.' !in units by { assert !IsDigit('.', 10); }
    DecimalComma(units, cents, "kn");
  }

  /** This revision knows no euro: a euro amount gets its decimal comma
      but keeps the code `EUR`. */
  lemma {:induction false} DisplayEuroCode(units: string, cents: string)
    requires AllDigits(units, 10) && AllDigits(cents, 10)
    ensures DisplayAmount(Printed(units, cents, "EUR")) == Displayed(units, cents, "EUR")
  {
    DecimalChars(units, cents, 'H');
    CurrencyAbsent(units + "." + cents, "EUR", "HRK", "kn");
    assert '.' !in units by { assert !IsDigit('.', 10); }
    DecimalComma(units, cents, "EUR");
  }

  /** The holding title of a displayed amount: the small reserve exactly
      below 30, counting whole units only (`30,00 kn` is Holding). */
  lemma {:induction false} HoldingTitleOf(units: string, cents: string, symbol: string)
    requires |units| >= 1 && AllDigits(units, 10)
    ensures Title(Displayed(units, cents, symbol), SmallReserveLimit) ==
      (if Value(units, 10) < SmallReserveLimit then SmallReserve else Holding)
  {
    var rest := "," + cents + " " + symbol;
    DisplayedParts(units, cents, symbol);
    assert rest == [] || (!IsDigit(rest[0], 10) && rest[0] !in {'.', 'e', 'E'}) by {
      assert rest[0] == ',';
    }
    TitleOfAmount(units, rest, SmallReserveLimit);
  }

  /** The holding period: pieces 0 and 1 of the split on `/`; without a
      `/` the whole text is the month and the year prints `undefined`. */
  function HoldingPeriod(date: string): (r: (string, string))
    ensures '/' !in date ==> r == (date, "undefined")
    ensures '/' in date ==> '/' !in r.0 && '/' !in r.1
  {
    var pieces := Split(date, '/');
    (pieces[0], Show(Piece(pieces, 1)))
  }

  /** Round trip of the `/` form: month and year come back. */
  lemma {:induction false} HoldingSlash(month: string, year: string, t: string)
    requires '/' !in month && '/' !in year && (t == [] || t[0] == '/')
    ensures HoldingPeriod(month + "/" + year + t) == (month, year)
  {
    SplitTwo(month, '/', year, t);
  }

  /** Holding fees: the title by the amount, then the period of the rest. */
  function HoldingEntry(opis: string, cijena: string): (e: Entry)
    ensures Shows(e, cijena)
  {
    var title := Title(cijena, SmallReserveLimit);
    var p := HoldingPeriod(ReplaceFirst(opis, HoldingKey, ""));
    PeriodEntry(title, Slug(title), p.0, p.1, cijena)
  }

  /** The holding entry of a `NAKNADE I USLUGE ZA MM/YYYY` description. */
  lemma {:induction false} HoldingEntryOf(month: string, year: string, cijena: string)
    requires '/' !in month && '/' !in year
    ensures var title := Title(cijena, SmallReserveLimit);
      HoldingEntry(HoldingKey + (month + "/" + year), cijena) ==
        PeriodEntry(title, Slug(title), month, year, cijena)
  {
    var date := month + "/" + year;
    assert ReplaceFirst(HoldingKey + date, HoldingKey, "") == date by {
      ReplacePrefix(HoldingKey, date, "");
      assert "" + date == date;
    }
    assert HoldingPeriod(date) == (month, year) by {
      assert date == month + "/" + year + [];
      HoldingSlash(month, year, []);
    }
  }

  /** Komunalna naknada: `KN ` removed, the rest split on `/`; the year is
      written after `20`, so a missing one prints `20undefined`. */
  function UtilityEntry(opis: string, cijena: string): (e: Entry)
    ensures Shows(e, cijena)
  {
    var pieces := Split(ReplaceFirst(opis, UtilityKey, ""), '/');
    PeriodEntry("Komunalna naknada", "komunalna_naknada", pieces[0], "20" + Show(Piece(pieces, 1)), cijena)
  }

  /** A `KN MM/YY` description gives back its month and `20YY`. */
  lemma {:induction false} UtilityOf(month: string, yy: string, t: string, cijena: string)
    requires '/' !in month && '/' !in yy && (t == [] || t[0] == '/')
    ensures UtilityEntry(UtilityKey + (month + "/" + yy + t), cijena) ==
      PeriodEntry("Komunalna naknada", "komunalna_naknada", month, "20" + yy, cijena)
  {
    var date := month + "/" + yy + t;
    assert ReplaceFirst(UtilityKey + date, UtilityKey, "") == date by {
      ReplacePrefix(UtilityKey, date, "");
      assert "" + date == date;
    }
    SplitTwo(month, '/', yy, t);
  }

  /** Electricity: the year is characters [0, 4), the month [4, 6). */
  function ElectricityEntry(opis: string, cijena: string): (e: Entry)
    ensures Shows(e, cijena)
  {
    var date := ReplaceFirst(opis, ElectricityKey, "");
    PeriodEntry("Struja", "struja", Substring(date, 4, 6), Substring(date, 0, 4), cijena)
  }

  /** A remainder `YYYYMM...` gives back its month and year. */
  lemma {:induction false} ElectricityOf(date: string, cijena: string)
    requires |date| >= 6
    ensures ElectricityEntry(ElectricityKey + date, cijena) ==
      PeriodEntry("Struja", "struja", date[4..6], date[..4], cijena)
  {
    assert ReplaceFirst(ElectricityKey + date, ElectricityKey, "") == date by {
      ReplacePrefix(ElectricityKey, date, "");
      assert "" + date == date;
    }
    assert Substring(date, 4, 6) == date[4..6] && Substring(date, 0, 4) == date[..4];
  }

  /** Electricity settlement: `Račun za:` removed, then the second date. */
  function ElectricitySettlementEntry(opis: string, cijena: string): (r: Result<Entry>)
    ensures r.Ok? ==> Shows(r.value, cijena)
    ensures r.Fail? ==> r.error.NullDereference?
  {
    var p :- ElectricitySettlementPeriod(ReplaceFirst(opis, ElectricitySettlementKey, ""));
    Ok(PeriodEntry("Struja obračun", "struja_obracun", p.0, p.1, cijena))
  }

  /** The parser of the category whose rule matched. */
  function Parse(category: Category, opis: string, vrijeme: Option<string>, cijena: string): (r: Result<Entry>)
    ensures r.Ok? ==> Shows(r.value, cijena)
    ensures r.Fail? ==> r.error.NullDereference?
  {
    match category
    case HoldingFees => Ok(HoldingEntry(opis, cijena))
    case UtilityFee => Ok(UtilityEntry(opis, cijena))
    case GasAdvance => GasAdvanceEntry(opis, cijena)
    case GasSettlement => Ok(GasSettlementEntry(opis, cijena))
    case Electricity => Ok(ElectricityEntry(opis, cijena))
    case ElectricitySettlement => ElectricitySettlementEntry(opis, cijena)
    case Water => WaterEntry(vrijeme, false, cijena)
  }

  /** One confirmation's fields through the chain: the amount is read (and
      `replace` on a missing one throws) before any rule is tried; the
      first rule that holds parses its period; none holding is
      `unrecognized pdf`. */
  function ClassifyFields(filename: string, f: Fields): (r: Result<Entry>)
    ensures f.amount.None? ==> r == Fail(NullDereference("get(lines, 'IZNOSNaknada', 1)"))
    ensures r == Fail(UnrecognizedPdf(filename)) <==> f.amount.Some? && FirstMatch(f, Rules) == Ok(None)
    ensures r.Ok? ==> f.amount.Some? && Shows(r.value, DisplayAmount(f.amount.value))
    ensures r.Ok? ==> FirstMatch(f, Rules).Ok? && FirstMatch(f, Rules).value.Some?
  {
    if f.amount.None? then Fail(NullDereference("get(lines, 'IZNOSNaknada', 1)"))
    else
      var cijena := DisplayAmount(f.amount.value);
      var m :- FirstMatch(f, Rules);
      if m.None? then Fail(UnrecognizedPdf(filename))
      else Parse(Rules[m.value].category, f.description.value, f.confirmed, cijena)
  }

  /** The classification of one confirmation's lines. */
  function Classify(filename: string, lines: seq<string>): Result<Entry> {
    ClassifyFields(filename, Extract(lines))
  }

  /** Once rule `k` has matched, the amount is displayed and the rule's
      parser decides the outcome. */
  lemma {:induction false} ClassifyMatched(filename: string, f: Fields, k: nat)
    requires f.amount.Some? && FirstMatch(f, Rules) == Ok(Some(k))
    ensures k < |Rules| && f.description.Some?
    ensures ClassifyFields(filename, f) ==
      Parse(Rules[k].category, f.description.value, f.confirmed, DisplayAmount(f.amount.value))
  {
  }

  /** Once the fee rule has matched, the holding parser decides. */
  lemma {:induction false} ClassifiedHolding(filename: string, f: Fields)
    requires f.amount.Some? && FirstMatch(f, Rules) == Ok(Some(0))
    ensures f.description.Some?
    ensures ClassifyFields(filename, f) == Ok(HoldingEntry(f.description.value, DisplayAmount(f.amount.value)))
  {
    ClassifyMatched(filename, f, 0);
    Categories();
  }

  /** Once the komunalna rule has matched, the komunalna parser decides. */
  lemma {:induction false} ClassifiedUtility(filename: string, f: Fields)
    requires f.amount.Some? && FirstMatch(f, Rules) == Ok(Some(1))
    ensures f.description.Some?
    ensures ClassifyFields(filename, f) == Ok(UtilityEntry(f.description.value, DisplayAmount(f.amount.value)))
  {
    ClassifyMatched(filename, f, 1);
    Categories();
  }

  /** Once the gas advance rule has matched, the gas advance parser decides. */
  lemma {:induction false} ClassifiedGasAdvance(filename: string, f: Fields)
    requires f.amount.Some? && FirstMatch(f, Rules) == Ok(Some(2))
    ensures f.description.Some?
    ensures ClassifyFields(filename, f) == GasAdvanceEntry(f.description.value, DisplayAmount(f.amount.value))
  {
    ClassifyMatched(filename, f, 2);
    Categories();
  }

  /** Once the gas settlement rule has matched, its parser decides. */
  lemma {:induction false} ClassifiedGasSettlement(filename: string, f: Fields)
    requires f.amount.Some? && FirstMatch(f, Rules) == Ok(Some(3))
    ensures f.description.Some?
    ensures ClassifyFields(filename, f) == Ok(GasSettlementEntry(f.description.value, DisplayAmount(f.amount.value)))
  {
    ClassifyMatched(filename, f, 3);
    Categories();
  }

  /** Once the electricity rule has matched, the electricity parser decides. */
  lemma {:induction false} ClassifiedElectricity(filename: string, f: Fields)
    requires f.amount.Some? && FirstMatch(f, Rules) == Ok(Some(4))
    ensures f.description.Some?
    ensures ClassifyFields(filename, f) == Ok(ElectricityEntry(f.description.value, DisplayAmount(f.amount.value)))
  {
    ClassifyMatched(filename, f, 4);
    Categories();
  }

  /** Once the settlement rule has matched, the settlement parser decides. */
  lemma {:induction false} ClassifiedElectricitySettlement(filename: string, f: Fields)
    requires f.amount.Some? && FirstMatch(f, Rules) == Ok(Some(5))
    ensures f.description.Some?
    ensures ClassifyFields(filename, f) ==
      ElectricitySettlementEntry(f.description.value, DisplayAmount(f.amount.value))
  {
    ClassifyMatched(filename, f, 5);
    Categories();
  }

  /** Once the water rule has matched, the confirmation time decides. */
  lemma {:induction false} ClassifiedWater(filename: string, f: Fields)
    requires f.amount.Some? && FirstMatch(f, Rules) == Ok(Some(6))
    ensures ClassifyFields(filename, f) == WaterEntry(f.confirmed, false, DisplayAmount(f.amount.value))
  {
    ClassifyMatched(filename, f, 6);
    Categories();
  }

  /** The first rule holds for a holding payee, code `-` and a fee
      description. */
  lemma {:induction false} MatchHolding(f: Fields)
    requires f.payee.Some? && Includes(f.payee.value, HoldingPayee) && f.code == Some("-")
    requires f.description.Some? && Includes(f.description.value, HoldingKey)
    ensures FirstMatch(f, Rules) == Ok(Some(0))
  {
    assert RuleHolds(f, Rules[0]) == Ok(true) by {
      assert Includes(f.description.value, Rules[0].descriptions[0]);
    }
    FirstMatchAt(f, Rules, 0);
  }

  /** Gas advance, electricity and water are each the first rule with their
      code: every earlier rule fails on the code, whatever the payee says. */
  lemma {:induction false} MatchFirstOfCode(f: Fields, k: nat)
    requires k == 2 || k == 4 || k == 6
    requires f.payee.Some? && Includes(f.payee.value, Rules[k].payee) && f.code == Some(Rules[k].code)
    requires f.description.Some? && Includes(f.description.value, Rules[k].descriptions[0])
    ensures FirstMatch(f, Rules) == Ok(Some(k))
  {
    forall j | 0 <= j < k ensures RuleHolds(f, Rules[j]) == Ok(false) {
      assert Rules[j].code != Rules[k].code;
      CodeMismatch(f, Rules[j]);
    }
    assert RuleHolds(f, Rules[k]) == Ok(true) by {
      assert ContainsOneOf(f.description.value, Rules[k].descriptions);
    }
    FirstMatchAt(f, Rules, k);
  }

  /** The komunalna, gas settlement and electricity settlement rules come
      right after the rule with the same payee and code: they match when
      that rule's description is absent. */
  lemma {:induction false} MatchSecondOfCode(f: Fields, k: nat)
    requires k == 1 || k == 3 || k == 5
    requires f.payee.Some? && Includes(f.payee.value, Rules[k].payee) && f.code == Some(Rules[k].code)
    requires f.description.Some? && Includes(f.description.value, Rules[k].descriptions[0])
    requires !Includes(f.description.value, Rules[k - 1].descriptions[0])
    ensures FirstMatch(f, Rules) == Ok(Some(k))
  {
    forall j | 0 <= j < k - 1 ensures RuleHolds(f, Rules[j]) == Ok(false) {
      assert Rules[j].code != Rules[k].code;
      CodeMismatch(f, Rules[j]);
    }
    assert RuleHolds(f, Rules[k - 1]) == Ok(false) by {
      assert Rules[k - 1].payee == Rules[k].payee && Rules[k - 1].code == Rules[k].code;
      assert |Rules[k - 1].descriptions| == 1;
    }
    assert RuleHolds(f, Rules[k]) == Ok(true) by {
      assert ContainsOneOf(f.description.value, Rules[k].descriptions);
    }
    FirstMatchAt(f, Rules, k);
  }

  /** A description that starts with the fee key picks the fee rule. */
  lemma {:induction false} MatchHoldingFee(f: Fields, date: string)
    requires f.payee.Some? && Includes(f.payee.value, HoldingPayee) && f.code == Some("-")
    requires f.description == Some(HoldingKey + date)
    ensures FirstMatch(f, Rules) == Ok(Some(0))
  {
    IndexOfPrefix(HoldingKey, date);
    MatchHolding(f);
  }

  /** `KN ` followed by no `G` (so no fee key) picks the komunalna rule. */
  lemma {:induction false} MatchUtility(f: Fields, date: string)
    requires f.payee.Some? && Includes(f.payee.value, HoldingPayee) && f.code == Some("-")
    requires f.description == Some(UtilityKey + date) && 'G' !in date
    ensures FirstMatch(f, Rules) == Ok(Some(1))
  {
    assert Includes(f.description.value, Rules[1].descriptions[0]) by {
      IndexOfPrefix(UtilityKey, date);
    }
    assert !Includes(f.description.value, Rules[0].descriptions[0]) by {
      NoHoldingKeyAfter(UtilityKey, date);
    }
    MatchSecondOfCode(f, 1);
  }

  /** A description that starts with the advance key picks the gas advance rule. */
  lemma {:induction false} MatchGasAdvance(f: Fields, date: string)
    requires f.payee.Some? && Includes(f.payee.value, GasPayee) && f.code == Some("GASB")
    requires f.description == Some(GasAdvanceKey + date)
    ensures FirstMatch(f, Rules) == Ok(Some(2))
  {
    IndexOfPrefix(GasAdvanceKey, date);
    MatchFirstOfCode(f, 2);
  }

  /** A gas settlement key followed by no `A` (so no advance key) picks the
      gas settlement rule. */
  lemma {:induction false} MatchGasSettlement(f: Fields, num: string)
    requires f.payee.Some? && Includes(f.payee.value, GasPayee) && f.code == Some("GASB")
    requires f.description == Some(GasSettlementKey + num) && 'A' !in num
    ensures FirstMatch(f, Rules) == Ok(Some(3))
  {
    assert Includes(f.description.value, Rules[3].descriptions[0]) by {
      IndexOfPrefix(GasSettlementKey, num);
    }
    assert !Includes(f.description.value, Rules[2].descriptions[0]) by {
      NoAdvanceKeyAfter(num);
    }
    MatchSecondOfCode(f, 3);
  }

  /** The electricity rule holds for its payee, code and key. */
  lemma {:induction false} MatchElectricity(f: Fields, date: string)
    requires f.payee.Some? && Includes(f.payee.value, ElectricityPayee) && f.code == Some("ELEC")
    requires f.description == Some(ElectricityKey + date)
    ensures FirstMatch(f, Rules) == Ok(Some(4))
  {
    IndexOfPrefix(ElectricityKey, date);
    MatchFirstOfCode(f, 4);
  }

  /** `Račun za:` followed by no `M` (so no monthly key) picks the
      settlement rule. */
  lemma {:induction false} MatchElectricitySettlement(f: Fields, rest: string)
    requires f.payee.Some? && Includes(f.payee.value, ElectricityPayee) && f.code == Some("ELEC")
    requires f.description == Some(ElectricitySettlementKey + rest) && 'M' !in rest
    ensures FirstMatch(f, Rules) == Ok(Some(5))
  {
    assert Includes(f.description.value, Rules[5].descriptions[0]) by {
      IndexOfPrefix(ElectricitySettlementKey, rest);
    }
    assert !Includes(f.description.value, Rules[4].descriptions[0]) by {
      NoElectricityKeyAfter(ElectricitySettlementKey, rest);
    }
    MatchSecondOfCode(f, 5);
  }

  /** No rule holds for a code none of them names. */
  lemma {:induction false} MatchNone(f: Fields)
    requires f.payee.Some? && f.code.Some? && f.code.value !in {"-", "GASB", "ELEC", "WTER"}
    ensures FirstMatch(f, Rules) == Ok(None)
  {
    forall j | 0 <= j < |Rules| ensures f.code != Some(Rules[j].code) {
    }
    NoRuleForCode(f, Rules);
  }

  /** `KN,NUV ` followed by no `G` has no fee key. */
  lemma {:induction false} NuvNotFee(f: Fields, date: string)
    requires f.payee.Some? && f.description == Some(UtilityNuvKey + date) && 'G' !in date
    ensures RuleHolds(f, Rules[0]) == Ok(false)
  {
    NoHoldingKeyAfter(UtilityNuvKey, date);
    assert Rules[0].descriptions == [HoldingKey];
  }

  /** `KN,NUV ` followed by no `K` has no `KN `. */
  lemma {:induction false} NuvNotUtility(f: Fields, date: string)
    requires f.payee.Some? && f.description == Some(UtilityNuvKey + date) && 'K' !in date
    ensures RuleHolds(f, Rules[1]) == Ok(false)
  {
    assert UtilityNuvKey[..|UtilityKey|][2] == ',';
    NotIncludesAfterHead(UtilityNuvKey, UtilityKey, date);
    assert Rules[1].descriptions == [UtilityKey];
  }

  /** No rule holds for `KN,NUV `: it has neither the fee key nor `KN `. */
  lemma {:induction false} MatchNoneNuv(f: Fields, date: string)
    requires f.payee.Some? && Includes(f.payee.value, HoldingPayee) && f.code == Some("-")
    requires f.description == Some(UtilityNuvKey + date) && 'G' !in date && 'K' !in date
    ensures FirstMatch(f, Rules) == Ok(None)
  {
    NuvNotFee(f, date);
    NuvNotUtility(f, date);
    forall j | 0 <= j < |Rules| && j != 0 && j != 1 ensures RuleHolds(f, Rules[j]) == Ok(false) {
      CodeMismatch(f, Rules[j]);
    }
  }

  /** `Racun za:` followed by no `M` has no monthly key. */
  lemma {:induction false} AsciiNotMonthly(f: Fields, rest: string)
    requires f.payee.Some? && f.description == Some(ElectricitySettlementAsciiKey + rest) && 'M' !in rest
    ensures RuleHolds(f, Rules[4]) == Ok(false)
  {
    NoElectricityKeyAfter(ElectricitySettlementAsciiKey, rest);
    assert Rules[4].descriptions == [ElectricityKey];
  }

  /** `Racun za:` followed by no `č` has no `Račun za:`. */
  lemma {:induction false} AsciiNotSettlement(f: Fields, rest: string)
    requires f.payee.Some? && f.description == Some(ElectricitySettlementAsciiKey + rest) && 'č' !in rest
    ensures RuleHolds(f, Rules[5]) == Ok(false)
  {
    assert ElectricitySettlementKey[2] == 'č';
    assert 'č' !in ElectricitySettlementAsciiKey + rest;
    NotIncludesMissingChar(ElectricitySettlementAsciiKey + rest, ElectricitySettlementKey, 2);
    assert Rules[5].descriptions == [ElectricitySettlementKey];
  }

  /** No rule holds for `Racun za:`: it has neither the monthly key nor
      `Račun za:`. */
  lemma {:induction false} MatchNoneAscii(f: Fields, rest: string)
    requires f.payee.Some? && Includes(f.payee.value, ElectricityPayee) && f.code == Some("ELEC")
    requires f.description == Some(ElectricitySettlementAsciiKey + rest) && 'M' !in rest && 'č' !in rest
    ensures FirstMatch(f, Rules) == Ok(None)
  {
    AsciiNotMonthly(f, rest);
    AsciiNotSettlement(f, rest);
    forall j | 0 <= j < |Rules| && j != 4 && j != 5 ensures RuleHolds(f, Rules[j]) == Ok(false) {
      CodeMismatch(f, Rules[j]);
    }
  }

  /** The holding entry of a kuna amount: the title by whole kuna. */
  lemma {:induction false} HoldingKunaEntry(month: string, year: string, units: string, cents: string)
    requires '/' !in month && '/' !in year
    requires |units| >= 1 && AllDigits(units, 10) && AllDigits(cents, 10)
    ensures var title := if Value(units, 10) < SmallReserveLimit then SmallReserve else Holding;
      HoldingEntry(HoldingKey + (month + "/" + year), DisplayAmount(Printed(units, cents, "HRK"))) ==
        PeriodEntry(title, Slug(title), month, year, Displayed(units, cents, "kn"))
  {
    DisplayKuna(units, cents);
    HoldingTitleOf(units, cents, "kn");
    HoldingEntryOf(month, year, Displayed(units, cents, "kn"));
  }

  /** A holding confirmation `NAKNADE I USLUGE ZA MM/YYYY` with a kuna
      amount: the title by whole kuna (below 30 the small reserve), the
      period as written, the amount with a decimal comma and `kn`. */
  lemma {:induction false} ClassifyHolding(filename: string, f: Fields, month: string, year: string, units: string, cents: string)
    requires f.payee.Some? && Includes(f.payee.value, HoldingPayee) && f.code == Some("-")
    requires f.description == Some(HoldingKey + (month + "/" + year)) && '/' !in month && '/' !in year
    requires f.amount == Some(Printed(units, cents, "HRK"))
    requires |units| >= 1 && AllDigits(units, 10) && AllDigits(cents, 10)
    ensures var title := if Value(units, 10) < SmallReserveLimit then SmallReserve else Holding;
      ClassifyFields(filename, f) ==
        Ok(PeriodEntry(title, Slug(title), month, year, Displayed(units, cents, "kn")))
  {
    MatchHoldingFee(f, month + "/" + year);
    ClassifiedHolding(filename, f);
    HoldingKunaEntry(month, year, units, cents);
  }

  /** A holding description without `/` is not an error here: the whole
      rest is the month and the year prints `undefined`. */
  lemma {:induction false} ClassifyHoldingUnsplit(filename: string, f: Fields)
    requires f.amount.Some? && FirstMatch(f, Rules) == Ok(Some(0))
    requires '/' !in ReplaceFirst(f.description.value, HoldingKey, "")
    ensures var cijena := DisplayAmount(f.amount.value);
      var title := Title(cijena, SmallReserveLimit);
      ClassifyFields(filename, f) ==
        Ok(PeriodEntry(title, Slug(title), ReplaceFirst(f.description.value, HoldingKey, ""), "undefined", cijena))
  {
    ClassifiedHolding(filename, f);
  }

  /** Komunalna naknada `KN MM/YY`: the month and `20YY`. */
  lemma {:induction false} ClassifyUtility(filename: string, f: Fields, month: string, yy: string, t: string)
    requires f.payee.Some? && Includes(f.payee.value, HoldingPayee) && f.code == Some("-")
    requires f.description == Some(UtilityKey + (month + "/" + yy + t)) && 'G' !in month + "/" + yy + t
    requires '/' !in month && '/' !in yy && (t == [] || t[0] == '/')
    requires f.amount.Some?
    ensures ClassifyFields(filename, f) ==
      Ok(PeriodEntry("Komunalna naknada", "komunalna_naknada", month, "20" + yy, DisplayAmount(f.amount.value)))
  {
    MatchUtility(f, month + "/" + yy + t);
    ClassifiedUtility(filename, f);
    UtilityOf(month, yy, t, DisplayAmount(f.amount.value));
  }


  /** A gas advance `Akontacijska rata za MM.YYYY.`: month and year. */
  lemma {:induction false} ClassifyGasAdvance(filename: string, f: Fields, month: string, year: string, rest: string)
    requires f.payee.Some? && Includes(f.payee.value, GasPayee) && f.code == Some("GASB")
    requires f.description == Some(GasAdvanceKey + (month + "." + year + rest))
    requires '.' !in month && '.' !in year && (rest == [] || rest[0] == '.')
    requires f.amount.Some?
    ensures ClassifyFields(filename, f) ==
      Ok(PeriodEntry("Plin", "plin", month, year, DisplayAmount(f.amount.value)))
  {
    MatchGasAdvance(f, month + "." + year + rest);
    ClassifiedGasAdvance(filename, f);
    GasAdvanceEntryOf(month, year, rest, DisplayAmount(f.amount.value));
  }

  /** A gas settlement `Obračun plina za NUM`: the number is carried into
      the line and the file name. */
  lemma {:induction false} ClassifyGasSettlement(filename: string, f: Fields, num: string)
    requires f.payee.Some? && Includes(f.payee.value, GasPayee) && f.code == Some("GASB")
    requires f.description == Some(GasSettlementKey + num) && 'A' !in num
    requires f.amount.Some?
    ensures var cijena := DisplayAmount(f.amount.value);
      ClassifyFields(filename, f) ==
        Ok(Entry("Plin obračun " + num + " = " + cijena, "plin_obracun_" + num + ".pdf"))
  {
    MatchGasSettlement(f, num);
    ClassifiedGasSettlement(filename, f);
    GasSettlementEntryOf(num, DisplayAmount(f.amount.value));
  }

  /** An electricity bill `Mjesecna novcana obveza za YYYYMM`. */
  lemma {:induction false} ClassifyElectricity(filename: string, f: Fields, date: string)
    requires f.payee.Some? && Includes(f.payee.value, ElectricityPayee) && f.code == Some("ELEC")
    requires f.description == Some(ElectricityKey + date) && |date| >= 6
    requires f.amount.Some?
    ensures ClassifyFields(filename, f) ==
      Ok(PeriodEntry("Struja", "struja", date[4..6], date[..4], DisplayAmount(f.amount.value)))
  {
    MatchElectricity(f, date);
    ClassifiedElectricity(filename, f);
    ElectricityOf(date, DisplayAmount(f.amount.value));
  }

  /** The settlement entry of `Račun za:<first>-DDMMYYYY`: the month and
      year of the second date. */
  lemma {:induction false} SettlementEntryOf(first: string, day: string, month: string, year: string,
                                             t: string, cijena: string)
    requires |day| == 2 && |month| == 2 && |year| == 4
    requires '-' !in first && '-' !in day + month + year && (t == [] || t[0] == '-')
    ensures ElectricitySettlementEntry(ElectricitySettlementKey + (first + "-" + day + month + year + t), cijena) ==
      Ok(PeriodEntry("Struja obračun", "struja_obracun", month, year, cijena))
  {
    var rest := first + "-" + day + month + year + t;
    assert ReplaceFirst(ElectricitySettlementKey + rest, ElectricitySettlementKey, "") == rest by {
      ReplacePrefix(ElectricitySettlementKey, rest, "");
      assert "" + rest == rest;
    }
    ElectricitySettlementOf(first, day, month, year, t);
  }

  /** An electricity settlement `Račun za:<first>-DDMMYYYY`: the month and
      year of the second date. */
  lemma {:induction false} ClassifyElectricitySettlement(filename: string, f: Fields,
                                      first: string, day: string, month: string, year: string, t: string)
    requires f.payee.Some? && Includes(f.payee.value, ElectricityPayee) && f.code == Some("ELEC")
    requires f.description == Some(ElectricitySettlementKey + (first + "-" + day + month + year + t))
    requires |day| == 2 && |month| == 2 && |year| == 4
    requires '-' !in first && '-' !in day + month + year && (t == [] || t[0] == '-')
    requires 'M' !in first + "-" + day + month + year + t
    requires f.amount.Some?
    ensures ClassifyFields(filename, f) ==
      Ok(PeriodEntry("Struja obračun", "struja_obracun", month, year, DisplayAmount(f.amount.value)))
  {
    MatchElectricitySettlement(f, first + "-" + day + month + year + t);
    ClassifiedElectricitySettlement(filename, f);
    SettlementEntryOf(first, day, month, year, t, DisplayAmount(f.amount.value));
  }

  /** A water bill: the period is the month before the confirmation's. */
  lemma {:induction false} ClassifyWater(filename: string, f: Fields)
    requires f.payee.Some? && Includes(f.payee.value, WaterPayee) && f.code == Some("WTER")
    requires f.description.Some? && Includes(f.description.value, WaterKey)
    requires f.amount.Some?
    ensures f.confirmed.Some? ==>
      var p := WaterPeriod(f.confirmed.value, false);
      ClassifyFields(filename, f) == Ok(PeriodEntry("Voda", "voda", p.0, p.1, DisplayAmount(f.amount.value)))
    ensures f.confirmed.None? ==> ClassifyFields(filename, f) == Fail(NullDereference("vrijeme"))
  {
    MatchFirstOfCode(f, 6);
    ClassifiedWater(filename, f);
  }

  /** A confirmation whose code is none of the four the rules know is not a
      bill: `unrecognized pdf`. */
  lemma {:induction false} ClassifyUnknownCode(filename: string, f: Fields)
    requires f.payee.Some? && f.amount.Some?
    requires f.code.Some? && f.code.value !in {"-", "GASB", "ELEC", "WTER"}
    ensures ClassifyFields(filename, f) == Fail(UnrecognizedPdf(filename))
  {
    MatchNone(f);
  }

  /** The later `KN,NUV ` komunalna key is unknown here: such a
      confirmation is `unrecognized pdf`. */
  lemma {:induction false} ClassifyNuvUnrecognised(filename: string, f: Fields, date: string)
    requires f.payee.Some? && Includes(f.payee.value, HoldingPayee) && f.code == Some("-")
    requires f.description == Some(UtilityNuvKey + date) && 'G' !in date && 'K' !in date
    requires f.amount.Some?
    ensures ClassifyFields(filename, f) == Fail(UnrecognizedPdf(filename))
  {
    MatchNoneNuv(f, date);
  }

  /** So is an electricity settlement spelled `Racun za:`. */
  lemma {:induction false} ClassifyAsciiSettlementUnrecognised(filename: string, f: Fields, rest: string)
    requires f.payee.Some? && Includes(f.payee.value, ElectricityPayee) && f.code == Some("ELEC")
    requires f.description == Some(ElectricitySettlementAsciiKey + rest) && 'M' !in rest && 'č' !in rest
    requires f.amount.Some?
    ensures ClassifyFields(filename, f) == Fail(UnrecognizedPdf(filename))
  {
    MatchNoneAscii(f, rest);
  }

  /** `**Stanarina i režije MM/YYYY**` and a rule. */
  function Header(month: string, year: string): seq<string> {
    ["**Stanarina i režije " + month + "/" + year + "**", "---"]
  }

  /** A rule and the rent line. */
  function Trailer(month: string, year: string): seq<string> {
    ["---", "Stanarina " + month + "/" + year + " = " + Rent]
  }

  /** A run for the month the clock shows (`getMonth()` from 0, and
      `getFullYear()`): the batch over that month's directory listing. */
  method Run(clockMonth: int, clockYear: int, files: seq<File>) returns (out: Result<Summary>)
    requires 0 <= clockMonth < 12
    ensures var month := MonthText(Some(clockMonth));
      var year := YearText(Some(clockYear));
      out == Summarise(Header(month, year), Trailer(month, year), files, Classify)
  {
    var month := MonthText(Some(clockMonth));
    var year := YearText(Some(clockYear));
    out := RunBatch(Header(month, year), Trailer(month, year), files, Classify);
  }
}

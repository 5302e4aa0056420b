/** The current revision of the classifier (src/main.js): the `MMYYYY`
    command-line period, the seven-rule chain with its period parsers, and
    the run that frames the entries between the title and the rent line. */
module RezijeCurrent {
  import opened JsString
  import opened JsNumber
  import opened Confirmation
  import opened Bills

  /** The chain of `if ... else if` conditions, in source order. */
  const Rules: seq<Rule> := [
    Rule(HoldingFees, HoldingPayee, "-", [HoldingKey]),
    Rule(UtilityFee, HoldingPayee, "-", [UtilityKey, UtilityNuvKey]),
    Rule(GasAdvance, GasPayee, "GASB", [GasAdvanceKey]),
    Rule(GasSettlement, GasPayee, "GASB", [GasSettlementKey]),
    Rule(Electricity, ElectricityPayee, "ELEC", [ElectricityKey]),
    Rule(ElectricitySettlement, ElectricityPayee, "ELEC", [ElectricitySettlementKey, ElectricitySettlementAsciiKey]),
    Rule(Water, WaterPayee, "WTER", [WaterKey])
  ]

  /** Each rule's category, read off the chain. */
  lemma {:induction false} Categories()
    ensures Rules[0].category == HoldingFees && Rules[1].category == UtilityFee
    ensures Rules[2].category == GasAdvance && Rules[3].category == GasSettlement
    ensures Rules[4].category == Electricity && Rules[5].category == ElectricitySettlement
    ensures Rules[6].category == Water
  {
  }

  /** A holding fee whose amount is below this is the small reserve. */
  const SmallReserveLimit := 5

  /** The month's rent in euro, printed in the trailer. */
  const Rent := "305 €"

  /** `get(...).replace('HRK', 'kn').replace('EUR', '€').replace('.', ',')`. */
  function DisplayAmount(amount: string): string {
    ReplaceFirst(ReplaceFirst(ReplaceFirst(amount, "HRK", "kn"), "EUR", "€"), ".", ",")
  }

  /** The currency codes of an amount without `H` or `E` become symbols. */
  lemma {:induction false} CurrencySymbol(number: string, code: string)
    requires 'H' !in number && 'E' !in number
    requires code == "EUR" || code == "HRK"
    ensures ReplaceFirst(ReplaceFirst(number + " " + code, "HRK", "kn"), "EUR", "€") ==
      number + " " + (if code == "EUR" then "€" else "kn")
  {
    if code == "EUR" {
      CurrencyAbsent(number, "EUR", "HRK", "kn");
      CurrencyAtEnd(number, "EUR", "€");
    } else {
      CurrencyAtEnd(number, "HRK", "kn");
      CurrencyAbsent(number, "kn", "EUR", "€");
    }
  }

  /** An amount printed as `units.cents CODE`, with no `H` or `E` in its
      number, is displayed as `units,cents SYMBOL`. */
  lemma {:induction false} DisplayDecimal(units: string, cents: string, code: string)
    requires code == "EUR" || code == "HRK"
    requires '.' !in units && 'H' !in units + "." + cents && 'E' !in units + "." + cents
    ensures DisplayAmount(Printed(units, cents, code)) ==
      Displayed(units, cents, if code == "EUR" then "€" else "kn")
  {
    var number := units + "." + cents;
    var symbol := if code == "EUR" then "€" else "kn";
    var tail := cents + " " + symbol;
    calc {
      DisplayAmount(Printed(units, cents, code));
      ReplaceFirst(ReplaceFirst(ReplaceFirst(number + " " + code, "HRK", "kn"), "EUR", "€"), ".", ",");
      { CurrencySymbol(number, code); }
      ReplaceFirst(number + " " + symbol, ".", ",");
      { assert number + " " + symbol == units + "." + tail; }
      ReplaceFirst(units + "." + tail, ".", ",");
      { ReplaceAfter(units, ".", tail, ","); }
      units + "," + tail;
    }
  }

  /** A euro amount is shown with a decimal comma and the euro sign. */
  lemma {:induction false} DisplayEuro(units: string, cents: string)
    requires AllDigits(units, 10) && AllDigits(cents, 10)
    ensures DisplayAmount(Printed(units, cents, "EUR")) == Displayed(units, cents, "€")
  {
    DecimalChars(units, cents, 'H');
    DecimalChars(units, cents, 'E');
    assert '.' !in units by { assert !IsDigit('.', 10); }
    DisplayDecimal(units, cents, "EUR");
  }

  /** A kuna amount is shown with a decimal comma and `kn`. */
  lemma {:induction false} DisplayKuna(units: string, cents: string)
    requires AllDigits(units, 10) && AllDigits(cents, 10)
    ensures DisplayAmount(Printed(units, cents, "HRK")) == Displayed(units, cents, "kn")
  {
    DecimalChars(units, cents, 'H');
    DecimalChars(units, cents, 'E');
    assert '.' !in units by { assert !IsDigit('.', 10); }
    DisplayDecimal(units, cents, "HRK");
  }

  /** The holding title of an amount: the small reserve exactly below 5,
      counting whole units only (`5,00 €` is Holding). */
  lemma {:induction false} HoldingTitleOf(units: string, cents: string, symbol: string)
    requires |units| >= 1 && AllDigits(units, 10)
    ensures Title(Displayed(units, cents, symbol), SmallReserveLimit) ==
      (if Value(units, 10) < SmallReserveLimit then SmallReserve else Holding)
  {
    var rest := "," + cents + " " + symbol;
    DisplayedParts(units, cents, symbol);
    assert rest == [] || (!IsDigit(rest[0], 10) && rest[0] !in {'.', 'e', 'E'}) by {
      assert rest[0] == ',';
    }
    TitleOfAmount(units, rest, SmallReserveLimit);
  }

  /** The holding period: `MM/YYYY` split on `/`, else a six-character
      `MMYYYY`, else `can't parse date`. */
  function HoldingPeriod(date: string): (r: Result<(string, string)>)
    ensures r.Fail? <==> '/' !in date && |date| != 6
    ensures r.Fail? ==> r.error == CantParseDate(date)
  {
    IncludesChar(date, '/');
    if Includes(date, "/") then
      var pieces := Split(date, '/');
      Ok((pieces[0], pieces[1]))
    else if |date| == 6 then Ok((Substring(date, 0, 2), Substring(date, 2, 6)))
    else Fail(CantParseDate(date))
  }

  /** Round trip of the `/` form: month and year come back. */
  lemma {:induction false} HoldingSlash(month: string, year: string, t: string)
    requires '/' !in month && '/' !in year && (t == [] || t[0] == '/')
    ensures HoldingPeriod(month + "/" + year + t) == Ok((month, year))
  {
    IncludesChar(month + "/" + year + t, '/');
    assert (month + "/" + year + t)[|month|] == '/';
    SplitTwo(month, '/', year, t);
  }

  /** Round trip of the compact form: two month and four year characters. */
  lemma {:induction false} HoldingCompact(month: string, year: string)
    requires |month| == 2 && |year| == 4 && '/' !in month + year
    ensures HoldingPeriod(month + year) == Ok((month, year))
  {
    IncludesChar(month + year, '/');
    assert (month + year)[..2] == month && (month + year)[2..6] == year;
  }

  function HoldingEntry(opis: string, cijena: string): (r: Result<Entry>)
    ensures r.Ok? ==> Shows(r.value, cijena)
    ensures r.Fail? ==> r.error.CantParseDate?
  {
    var title := Title(cijena, SmallReserveLimit);
    var date := ReplaceFirst(opis, HoldingKey, "");
    var p :- HoldingPeriod(date);
    Ok(PeriodEntry(title, Slug(title), p.0, p.1, cijena))
  }

  /** Komunalna naknada: both keys removed, the month is characters [0, 2)
      and [3, 5) joined by `-`, the year `20` and the last two characters. */
  function UtilityEntry(opis: string, cijena: string): (e: Entry)
    ensures Shows(e, cijena)
  {
    var date := ReplaceFirst(ReplaceFirst(opis, UtilityKey, ""), UtilityNuvKey, "");
    var month := Substring(date, 0, 2) + "-" + Substring(date, 3, 5);
    var year := TakeLast(date, 2);
    PeriodEntry("Komunalna naknada", "komunalna_naknada", month, "20" + year, cijena)
  }

  /** Either key leaves the same remainder, when it holds no `K`: after
      `KN,NUV ` there is no `KN ` to remove. */
  lemma {:induction false} UtilityRemainder(key: string, date: string)
    requires key == UtilityKey || key == UtilityNuvKey
    requires 'K' !in date
    ensures ReplaceFirst(ReplaceFirst(key + date, UtilityKey, ""), UtilityNuvKey, "") == date
  {
    if key == UtilityKey {
      ReplacePrefix(UtilityKey, date, "");
      assert "" + date == date;
      ReplaceAbsent(date, UtilityNuvKey, "");
    } else {
      assert UtilityNuvKey[..|UtilityKey|][2] == ',';
      NotIncludesAfterHead(UtilityNuvKey, UtilityKey, date);
      ReplacePrefix(UtilityNuvKey, date, "");
      assert "" + date == date;
    }
  }

  /** The komunalna period of a remainder `MM?NN...YY`: `MM-NN` and `20YY`,
      whichever of the two keys preceded it. */
  lemma {:induction false} UtilityOf(key: string, date: string, cijena: string)
    requires key == UtilityKey || key == UtilityNuvKey
    requires |date| >= 5 && 'K' !in date
    ensures UtilityEntry(key + date, cijena) ==
      PeriodEntry("Komunalna naknada", "komunalna_naknada", date[..2] + "-" + date[3..5], "20" + date[|date| - 2..], cijena)
  {
    assert ReplaceFirst(ReplaceFirst(key + date, UtilityKey, ""), UtilityNuvKey, "") == date by {
      UtilityRemainder(key, date);
    }
    assert Substring(date, 0, 2) == date[..2] && Substring(date, 3, 5) == date[3..5];
    assert TakeLast(date, 2) == date[|date| - 2..];
  }

  /** Electricity: month is characters [0, 2), year [3, 7). */
  function ElectricityEntry(opis: string, cijena: string): (e: Entry)
    ensures Shows(e, cijena)
  {
    var date := ReplaceFirst(opis, ElectricityKey, "");
    PeriodEntry("Struja", "struja", Substring(date, 0, 2), Substring(date, 3, 7), cijena)
  }

  /** A remainder `MM?YYYY...` gives back its month and year. */
  lemma {:induction false} ElectricityOf(date: string, cijena: string)
    requires |date| >= 7
    ensures ElectricityEntry(ElectricityKey + date, cijena) ==
      PeriodEntry("Struja", "struja", date[..2], date[3..7], cijena)
  {
    assert ReplaceFirst(ElectricityKey + date, ElectricityKey, "") == date by {
      ReplacePrefix(ElectricityKey, date, "");
      assert "" + date == date;
    }
    assert Substring(date, 0, 2) == date[..2] && Substring(date, 3, 7) == date[3..7];
  }

  /** Electricity settlement: both spellings of the key removed. */
  function ElectricitySettlementEntry(opis: string, cijena: string): (r: Result<Entry>)
    ensures r.Ok? ==> Shows(r.value, cijena)
    ensures r.Fail? ==> r.error.NullDereference?
  {
    var rest := ReplaceFirst(ReplaceFirst(opis, ElectricitySettlementKey, ""), ElectricitySettlementAsciiKey, "");
    var p :- ElectricitySettlementPeriod(rest);
    Ok(PeriodEntry("Struja obračun", "struja_obracun", p.0, p.1, cijena))
  }

  /** Either spelling of the key leaves the same remainder, when it holds
      no `R`. */
  lemma {:induction false} SettlementRemainder(key: string, rest: string)
    requires key == ElectricitySettlementKey || key == ElectricitySettlementAsciiKey
    requires 'R' !in rest
    ensures ReplaceFirst(ReplaceFirst(key + rest, ElectricitySettlementKey, ""), ElectricitySettlementAsciiKey, "") == rest
  {
    if key == ElectricitySettlementKey {
      ReplacePrefix(ElectricitySettlementKey, rest, "");
      assert "" + rest == rest;
      ReplaceAbsent(rest, ElectricitySettlementAsciiKey, "");
    } else {
      NotIncludesAfterHead(ElectricitySettlementAsciiKey, ElectricitySettlementKey, rest);
      ReplacePrefix(ElectricitySettlementAsciiKey, rest, "");
      assert "" + rest == rest;
    }
  }

  /** The parser of the category whose rule matched. */
  function Parse(category: Category, opis: string, vrijeme: Option<string>, cijena: string): (r: Result<Entry>)
    ensures r.Ok? ==> Shows(r.value, cijena)
    ensures r.Fail? ==> !r.error.UnrecognizedPdf?
  {
    match category
    case HoldingFees => HoldingEntry(opis, cijena)
    case UtilityFee => Ok(UtilityEntry(opis, cijena))
    case GasAdvance => GasAdvanceEntry(opis, cijena)
    case GasSettlement => Ok(GasSettlementEntry(opis, cijena))
    case Electricity => Ok(ElectricityEntry(opis, cijena))
    case ElectricitySettlement => ElectricitySettlementEntry(opis, cijena)
    case Water => WaterEntry(vrijeme, true, cijena)
  }

  /** One confirmation's fields through the chain: the amount is read (and
      `replace` on a missing one throws) before any rule is tried; the
      first rule that holds parses its period; none holding is
      `unrecognized pdf`. */
  function ClassifyFields(filename: string, f: Fields): (r: Result<Entry>)
    ensures f.amount.None? ==> r == Fail(NullDereference("get(lines, 'IZNOSNaknada', 1)"))
    ensures r == Fail(UnrecognizedPdf(filename)) <==> f.amount.Some? && FirstMatch(f, Rules) == Ok(None)
    ensures r.Ok? ==> f.amount.Some? && Shows(r.value, DisplayAmount(f.amount.value))
    ensures r.Ok? ==> FirstMatch(f, Rules).Ok? && FirstMatch(f, Rules).value.Some?
  {
    if f.amount.None? then Fail(NullDereference("get(lines, 'IZNOSNaknada', 1)"))
    else
      var cijena := DisplayAmount(f.amount.value);
      var m :- FirstMatch(f, Rules);
      if m.None? then Fail(UnrecognizedPdf(filename))
      else Parse(Rules[m.value].category, f.description.value, f.confirmed, cijena)
  }

  /** The classification of one confirmation's lines. */
  function Classify(filename: string, lines: seq<string>): Result<Entry> {
    ClassifyFields(filename, Extract(lines))
  }

  /** Once rule `k` has matched, the amount is displayed and the rule's
      parser decides the outcome. */
  lemma {:induction false} ClassifyMatched(filename: string, f: Fields, k: nat)
    requires f.amount.Some? && FirstMatch(f, Rules) == Ok(Some(k))
    ensures k < |Rules| && f.description.Some?
    ensures ClassifyFields(filename, f) ==
      Parse(Rules[k].category, f.description.value, f.confirmed, DisplayAmount(f.amount.value))
  {
  }

  /** Once the fee rule has matched, the holding parser decides. */
  lemma {:induction false} ClassifiedHolding(filename: string, f: Fields)
    requires f.amount.Some? && FirstMatch(f, Rules) == Ok(Some(0))
    ensures f.description.Some?
    ensures ClassifyFields(filename, f) == HoldingEntry(f.description.value, DisplayAmount(f.amount.value))
  {
    ClassifyMatched(filename, f, 0);
    Categories();
  }

  /** Once the komunalna rule has matched, the komunalna parser decides. */
  lemma {:induction false} ClassifiedUtility(filename: string, f: Fields)
    requires f.amount.Some? && FirstMatch(f, Rules) == Ok(Some(1))
    ensures f.description.Some?
    ensures ClassifyFields(filename, f) == Ok(UtilityEntry(f.description.value, DisplayAmount(f.amount.value)))
  {
    ClassifyMatched(filename, f, 1);
    Categories();
  }

  /** Once the gas advance rule has matched, the gas advance parser decides. */
  lemma {:induction false} ClassifiedGasAdvance(filename: string, f: Fields)
    requires f.amount.Some? && FirstMatch(f, Rules) == Ok(Some(2))
    ensures f.description.Some?
    ensures ClassifyFields(filename, f) == GasAdvanceEntry(f.description.value, DisplayAmount(f.amount.value))
  {
    ClassifyMatched(filename, f, 2);
    Categories();
  }

  /** Once the gas settlement rule has matched, its parser decides. */
  lemma {:induction false} ClassifiedGasSettlement(filename: string, f: Fields)
    requires f.amount.Some? && FirstMatch(f, Rules) == Ok(Some(3))
    ensures f.description.Some?
    ensures ClassifyFields(filename, f) == Ok(GasSettlementEntry(f.description.value, DisplayAmount(f.amount.value)))
  {
    ClassifyMatched(filename, f, 3);
    Categories();
  }

  /** Once the electricity rule has matched, the electricity parser decides. */
  lemma {:induction false} ClassifiedElectricity(filename: string, f: Fields)
    requires f.amount.Some? && FirstMatch(f, Rules) == Ok(Some(4))
    ensures f.description.Some?
    ensures ClassifyFields(filename, f) == Ok(ElectricityEntry(f.description.value, DisplayAmount(f.amount.value)))
  {
    ClassifyMatched(filename, f, 4);
    Categories();
  }

  /** Once the settlement rule has matched, the settlement parser decides. */
  lemma {:induction false} ClassifiedElectricitySettlement(filename: string, f: Fields)
    requires f.amount.Some? && FirstMatch(f, Rules) == Ok(Some(5))
    ensures f.description.Some?
    ensures ClassifyFields(filename, f) ==
      ElectricitySettlementEntry(f.description.value, DisplayAmount(f.amount.value))
  {
    ClassifyMatched(filename, f, 5);
    Categories();
  }

  /** Once the water rule has matched, the confirmation time decides. */
  lemma {:induction false} ClassifiedWater(filename: string, f: Fields)
    requires f.amount.Some? && FirstMatch(f, Rules) == Ok(Some(6))
    ensures ClassifyFields(filename, f) == WaterEntry(f.confirmed, true, DisplayAmount(f.amount.value))
  {
    ClassifyMatched(filename, f, 6);
    Categories();
  }

  /** The first rule holds for a holding payee, code `-` and a fee
      description. */
  lemma {:induction false} MatchHolding(f: Fields)
    requires f.payee.Some? && Includes(f.payee.value, HoldingPayee) && f.code == Some("-")
    requires f.description.Some? && Includes(f.description.value, HoldingKey)
    ensures FirstMatch(f, Rules) == Ok(Some(0))
  {
    assert RuleHolds(f, Rules[0]) == Ok(true) by {
      assert Includes(f.description.value, Rules[0].descriptions[0]);
    }
    FirstMatchAt(f, Rules, 0);
  }

  /** Gas advance, electricity and water are each the first rule with their
      code: every earlier rule fails on the code, whatever the payee says. */
  lemma {:induction false} MatchFirstOfCode(f: Fields, k: nat)
    requires k == 2 || k == 4 || k == 6
    requires f.payee.Some? && Includes(f.payee.value, Rules[k].payee) && f.code == Some(Rules[k].code)
    requires f.description.Some? && Includes(f.description.value, Rules[k].descriptions[0])
    ensures FirstMatch(f, Rules) == Ok(Some(k))
  {
    forall j | 0 <= j < k ensures RuleHolds(f, Rules[j]) == Ok(false) {
      assert Rules[j].code != Rules[k].code;
      CodeMismatch(f, Rules[j]);
    }
    assert RuleHolds(f, Rules[k]) == Ok(true) by {
      assert ContainsOneOf(f.description.value, Rules[k].descriptions);
    }
    FirstMatchAt(f, Rules, k);
  }

  /** Gas and electricity settlements come right after the rule with the
      same payee and code: they match when that rule's description is absent. */
  lemma {:induction false} MatchSecondOfCode(f: Fields, k: nat)
    requires k == 3 || k == 5
    requires f.payee.Some? && Includes(f.payee.value, Rules[k].payee) && f.code == Some(Rules[k].code)
    requires f.description.Some? && ContainsOneOf(f.description.value, Rules[k].descriptions)
    requires !Includes(f.description.value, Rules[k - 1].descriptions[0])
    ensures FirstMatch(f, Rules) == Ok(Some(k))
  {
    forall j | 0 <= j < k - 1 ensures RuleHolds(f, Rules[j]) == Ok(false) {
      assert Rules[j].code != Rules[k].code;
      CodeMismatch(f, Rules[j]);
    }
    assert RuleHolds(f, Rules[k - 1]) == Ok(false) by {
      assert Rules[k - 1].payee == Rules[k].payee && Rules[k - 1].code == Rules[k].code;
      assert |Rules[k - 1].descriptions| == 1;
    }
    FirstMatchAt(f, Rules, k);
  }

  /** A description that starts with the fee key picks the fee rule. */
  lemma {:induction false} MatchHoldingFee(f: Fields, date: string)
    requires f.payee.Some? && Includes(f.payee.value, HoldingPayee) && f.code == Some("-")
    requires f.description == Some(HoldingKey + date)
    ensures FirstMatch(f, Rules) == Ok(Some(0))
  {
    IndexOfPrefix(HoldingKey, date);
    MatchHolding(f);
  }

  /** The second rule holds for a holding payee, code `-` and a
      description that starts with a komunalna key and has no `G` (so no
      fee key). */
  lemma {:induction false} MatchUtility(f: Fields, key: string, date: string)
    requires key == UtilityKey || key == UtilityNuvKey
    requires f.payee.Some? && Includes(f.payee.value, HoldingPayee) && f.code == Some("-")
    requires f.description == Some(key + date) && 'G' !in date
    ensures FirstMatch(f, Rules) == Ok(Some(1))
  {
    assert RuleHolds(f, Rules[0]) == Ok(false) by {
      NoHoldingKeyAfter(key, date);
    }
    assert RuleHolds(f, Rules[1]) == Ok(true) by {
      IndexOfPrefix(key, date);
      assert Includes(key + date, key);
      assert key == Rules[1].descriptions[0] || key == Rules[1].descriptions[1];
    }
    FirstMatchAt(f, Rules, 1);
  }

  /** A description that starts with the advance key picks the gas advance rule. */
  lemma {:induction false} MatchGasAdvance(f: Fields, date: string)
    requires f.payee.Some? && Includes(f.payee.value, GasPayee) && f.code == Some("GASB")
    requires f.description == Some(GasAdvanceKey + date)
    ensures FirstMatch(f, Rules) == Ok(Some(2))
  {
    IndexOfPrefix(GasAdvanceKey, date);
    MatchFirstOfCode(f, 2);
  }

  /** A gas settlement key followed by no `A` (so no advance key) picks the
      gas settlement rule. */
  lemma {:induction false} MatchGasSettlement(f: Fields, num: string)
    requires f.payee.Some? && Includes(f.payee.value, GasPayee) && f.code == Some("GASB")
    requires f.description == Some(GasSettlementKey + num) && 'A' !in num
    ensures FirstMatch(f, Rules) == Ok(Some(3))
  {
    assert Includes(f.description.value, Rules[3].descriptions[0]) by {
      IndexOfPrefix(GasSettlementKey, num);
    }
    assert !Includes(f.description.value, Rules[2].descriptions[0]) by {
      NoAdvanceKeyAfter(num);
    }
    MatchSecondOfCode(f, 3);
  }

  /** The electricity rule holds for its payee, code and key. */
  lemma {:induction false} MatchElectricity(f: Fields, date: string)
    requires f.payee.Some? && Includes(f.payee.value, ElectricityPayee) && f.code == Some("ELEC")
    requires f.description == Some(ElectricityKey + date)
    ensures FirstMatch(f, Rules) == Ok(Some(4))
  {
    IndexOfPrefix(ElectricityKey, date);
    MatchFirstOfCode(f, 4);
  }

  /** Either spelling of the settlement key, followed by no `M` (so no
      monthly key), picks the settlement rule. */
  lemma {:induction false} MatchElectricitySettlement(f: Fields, key: string, rest: string)
    requires key == ElectricitySettlementKey || key == ElectricitySettlementAsciiKey
    requires f.payee.Some? && Includes(f.payee.value, ElectricityPayee) && f.code == Some("ELEC")
    requires f.description == Some(key + rest) && 'M' !in rest
    ensures FirstMatch(f, Rules) == Ok(Some(5))
  {
    assert ContainsOneOf(f.description.value, Rules[5].descriptions) by {
      IndexOfPrefix(key, rest);
      if key == ElectricitySettlementKey {
        assert Includes(f.description.value, Rules[5].descriptions[0]);
      } else {
        assert Includes(f.description.value, Rules[5].descriptions[1]);
      }
    }
    assert !Includes(f.description.value, Rules[4].descriptions[0]) by {
      NoElectricityKeyAfter(key, rest);
    }
    MatchSecondOfCode(f, 5);
  }

  /** No rule holds for a code none of them names. */
  lemma {:induction false} MatchNone(f: Fields)
    requires f.payee.Some? && f.code.Some? && f.code.value !in {"-", "GASB", "ELEC", "WTER"}
    ensures FirstMatch(f, Rules) == Ok(None)
  {
    forall j | 0 <= j < |Rules| ensures f.code != Some(Rules[j].code) {
    }
    NoRuleForCode(f, Rules);
  }

  /** The holding entry of a `NAKNADE I USLUGE ZA MM/YYYY` description. */
  lemma {:induction false} HoldingEntryOf(month: string, year: string, cijena: string)
    requires '/' !in month && '/' !in year
    ensures var title := Title(cijena, SmallReserveLimit);
      HoldingEntry(HoldingKey + (month + "/" + year), cijena) ==
        Ok(PeriodEntry(title, Slug(title), month, year, cijena))
  {
    var date := month + "/" + year;
    assert ReplaceFirst(HoldingKey + date, HoldingKey, "") == date by {
      ReplacePrefix(HoldingKey, date, "");
      assert "" + date == date;
    }
    assert HoldingPeriod(date) == Ok((month, year)) by {
      assert date == month + "/" + year + [];
      HoldingSlash(month, year, []);
    }
  }

  /** The holding entry of a euro amount: the title by whole euros. */
  lemma {:induction false} HoldingEuroEntry(month: string, year: string, units: string, cents: string)
    requires '/' !in month && '/' !in year
    requires |units| >= 1 && AllDigits(units, 10) && AllDigits(cents, 10)
    ensures var title := if Value(units, 10) < SmallReserveLimit then SmallReserve else Holding;
      HoldingEntry(HoldingKey + (month + "/" + year), DisplayAmount(Printed(units, cents, "EUR"))) ==
        Ok(PeriodEntry(title, Slug(title), month, year, Displayed(units, cents, "€")))
  {
    DisplayEuro(units, cents);
    HoldingTitleOf(units, cents, "€");
    HoldingEntryOf(month, year, Displayed(units, cents, "€"));
  }

  /** A holding confirmation `NAKNADE I USLUGE ZA MM/YYYY` with a euro
      amount: the title by whole euros (below 5 the small reserve), the
      period as written, the amount with a decimal comma and `€`. */
  lemma {:induction false} ClassifyHolding(filename: string, f: Fields, month: string, year: string, units: string, cents: string)
    requires f.payee.Some? && Includes(f.payee.value, HoldingPayee) && f.code == Some("-")
    requires f.description == Some(HoldingKey + (month + "/" + year)) && '/' !in month && '/' !in year
    requires f.amount == Some(Printed(units, cents, "EUR"))
    requires |units| >= 1 && AllDigits(units, 10) && AllDigits(cents, 10)
    ensures var title := if Value(units, 10) < SmallReserveLimit then SmallReserve else Holding;
      ClassifyFields(filename, f) ==
        Ok(PeriodEntry(title, Slug(title), month, year, Displayed(units, cents, "€")))
  {
    MatchHoldingFee(f, month + "/" + year);
    ClassifiedHolding(filename, f);
    HoldingEuroEntry(month, year, units, cents);
  }

  /** A holding period that is neither `MM/YYYY` nor six characters long
      ends the run with `can't parse date`. */
  lemma {:induction false} ClassifyHoldingUnparsed(filename: string, f: Fields)
    requires f.amount.Some? && FirstMatch(f, Rules) == Ok(Some(0))
    requires var date := ReplaceFirst(f.description.value, HoldingKey, "");
      '/' !in date && |date| != 6
    ensures ClassifyFields(filename, f) == Fail(CantParseDate(ReplaceFirst(f.description.value, HoldingKey, "")))
  {
    ClassifiedHolding(filename, f);
  }

  /** Komunalna naknada under either key: `MM-NN` and `20YY` from the
      remainder. */
  lemma {:induction false} ClassifyUtility(filename: string, f: Fields, key: string, date: string)
    requires key == UtilityKey || key == UtilityNuvKey
    requires f.payee.Some? && Includes(f.payee.value, HoldingPayee) && f.code == Some("-")
    requires f.description == Some(key + date) && |date| >= 5 && 'K' !in date && 'G' !in date
    requires f.amount.Some?
    ensures ClassifyFields(filename, f) ==
      Ok(PeriodEntry("Komunalna naknada", "komunalna_naknada", date[..2] + "-" + date[3..5],
                     "20" + date[|date| - 2..], DisplayAmount(f.amount.value)))
  {
    MatchUtility(f, key, date);
    ClassifiedUtility(filename, f);
    UtilityOf(key, date, DisplayAmount(f.amount.value));
  }


  /** A gas advance `Akontacijska rata za MM.YYYY.`: month and year. */
  lemma {:induction false} ClassifyGasAdvance(filename: string, f: Fields, month: string, year: string, rest: string)
    requires f.payee.Some? && Includes(f.payee.value, GasPayee) && f.code == Some("GASB")
    requires f.description == Some(GasAdvanceKey + (month + "." + year + rest))
    requires '.' !in month && '.' !in year && (rest == [] || rest[0] == '.')
    requires f.amount.Some?
    ensures ClassifyFields(filename, f) ==
      Ok(PeriodEntry("Plin", "plin", month, year, DisplayAmount(f.amount.value)))
  {
    MatchGasAdvance(f, month + "." + year + rest);
    ClassifiedGasAdvance(filename, f);
    GasAdvanceEntryOf(month, year, rest, DisplayAmount(f.amount.value));
  }

  /** A gas settlement `Obračun plina za NUM`: the number is carried into
      the line and the file name. */
  lemma {:induction false} ClassifyGasSettlement(filename: string, f: Fields, num: string)
    requires f.payee.Some? && Includes(f.payee.value, GasPayee) && f.code == Some("GASB")
    requires f.description == Some(GasSettlementKey + num) && 'A' !in num
    requires f.amount.Some?
    ensures var cijena := DisplayAmount(f.amount.value);
      ClassifyFields(filename, f) ==
        Ok(Entry("Plin obračun " + num + " = " + cijena, "plin_obracun_" + num + ".pdf"))
  {
    MatchGasSettlement(f, num);
    ClassifiedGasSettlement(filename, f);
    GasSettlementEntryOf(num, DisplayAmount(f.amount.value));
  }

  /** An electricity bill `Mjesecna novcana obveza za MM?YYYY`. */
  lemma {:induction false} ClassifyElectricity(filename: string, f: Fields, date: string)
    requires f.payee.Some? && Includes(f.payee.value, ElectricityPayee) && f.code == Some("ELEC")
    requires f.description == Some(ElectricityKey + date) && |date| >= 7
    requires f.amount.Some?
    ensures ClassifyFields(filename, f) ==
      Ok(PeriodEntry("Struja", "struja", date[..2], date[3..7], DisplayAmount(f.amount.value)))
  {
    MatchElectricity(f, date);
    ClassifiedElectricity(filename, f);
    ElectricityOf(date, DisplayAmount(f.amount.value));
  }

  /** The settlement entry of either spelling of the key: the month and
      year of the second `DDMMYYYY` date. */
  lemma {:induction false} SettlementEntryOf(key: string, first: string, day: string, month: string, year: string,
                                             t: string, cijena: string)
    requires key == ElectricitySettlementKey || key == ElectricitySettlementAsciiKey
    requires |day| == 2 && |month| == 2 && |year| == 4
    requires '-' !in first && '-' !in day + month + year && (t == [] || t[0] == '-')
    requires 'R' !in first + "-" + day + month + year + t
    ensures ElectricitySettlementEntry(key + (first + "-" + day + month + year + t), cijena) ==
      Ok(PeriodEntry("Struja obračun", "struja_obracun", month, year, cijena))
  {
    ElectricitySettlementOf(first, day, month, year, t);
    SettlementRemainder(key, first + "-" + day + month + year + t);
  }

  /** An electricity settlement under either spelling of `Račun za:`: the
      month and year of the second `DDMMYYYY` date. */
  lemma {:induction false} ClassifyElectricitySettlement(filename: string, f: Fields, key: string,
                                      first: string, day: string, month: string, year: string, t: string)
    requires key == ElectricitySettlementKey || key == ElectricitySettlementAsciiKey
    requires f.payee.Some? && Includes(f.payee.value, ElectricityPayee) && f.code == Some("ELEC")
    requires f.description == Some(key + (first + "-" + day + month + year + t))
    requires |day| == 2 && |month| == 2 && |year| == 4
    requires '-' !in first && '-' !in day + month + year && (t == [] || t[0] == '-')
    requires 'R' !in first + "-" + day + month + year + t && 'M' !in first + "-" + day + month + year + t
    requires f.amount.Some?
    ensures ClassifyFields(filename, f) ==
      Ok(PeriodEntry("Struja obračun", "struja_obracun", month, year, DisplayAmount(f.amount.value)))
  {
    MatchElectricitySettlement(f, key, first + "-" + day + month + year + t);
    ClassifiedElectricitySettlement(filename, f);
    SettlementEntryOf(key, first, day, month, year, t, DisplayAmount(f.amount.value));
  }

  /** A water bill: the period comes from the confirmation time alone, one
      month back (two for a confirmation in the first five days). */
  lemma {:induction false} ClassifyWater(filename: string, f: Fields)
    requires f.payee.Some? && Includes(f.payee.value, WaterPayee) && f.code == Some("WTER")
    requires f.description.Some? && Includes(f.description.value, WaterKey)
    requires f.amount.Some?
    ensures f.confirmed.Some? ==>
      var p := WaterPeriod(f.confirmed.value, true);
      ClassifyFields(filename, f) == Ok(PeriodEntry("Voda", "voda", p.0, p.1, DisplayAmount(f.amount.value)))
    ensures f.confirmed.None? ==> ClassifyFields(filename, f) == Fail(NullDereference("vrijeme"))
  {
    MatchFirstOfCode(f, 6);
    ClassifiedWater(filename, f);
  }

  /** A confirmation whose code is none of the four the rules know is not a
      bill: `unrecognized pdf`. */
  lemma {:induction false} ClassifyUnknownCode(filename: string, f: Fields)
    requires f.payee.Some? && f.amount.Some?
    requires f.code.Some? && f.code.value !in {"-", "GASB", "ELEC", "WTER"}
    ensures ClassifyFields(filename, f) == Fail(UnrecognizedPdf(filename))
  {
    MatchNone(f);
  }

  /** `value < k` and `value > k` for a parsed number: false for NaN. */
  predicate Less(x: Option<int>, k: int) { x.Some? && x.value < k }
  predicate Greater(x: Option<int>, k: int) { x.Some? && x.value > k }

  /** The command-line check as written: a missing, empty or not
      six-character argument is a usage error, and so is a year outside
      [2021, 2100] or a month outside [1, 12]; but `parseInt` of a
      non-number is NaN, every comparison with NaN is false, and such a
      period passes. */
  function ParseArgAsWritten(arg: Option<string>): (r: Result<(string, string)>)
    ensures r.Ok? <==> arg.Some? && |arg.value| == 6 && NaNOrIn(ParseInt(arg.value[..2]), 1, 12)
                       && NaNOrIn(ParseInt(arg.value[2..]), 2021, 2100)
    ensures r.Ok? ==> r.value == (arg.value[..2], arg.value[2..])
    ensures r.Fail? ==> r.error == Usage
    ensures ParseArg(arg).Ok? ==> r == ParseArg(arg)
    ensures r.Ok? && ParseArg(arg).Fail? ==> ParseInt(arg.value[..2]).None? || ParseInt(arg.value[2..]).None?
  {
    if arg.None? || arg.value == "" || |arg.value| != 6 then Fail(Usage)
    else
      var month := arg.value[..2];
      var year := arg.value[2..];
      var cyi := ParseInt(year);
      var cmi := ParseInt(month);
      if Less(cyi, 2021) || Greater(cyi, 2100) || Less(cmi, 1) || Greater(cmi, 12) then Fail(Usage)
      else Ok((month, year))
  }

  /** `ab2024` has no month, yet the check as written lets it through. */
  lemma {:induction false} ArgWithoutMonthAccepted()
    ensures ParseArgAsWritten(Some("ab2024")) == Ok(("ab", "2024"))
  {
    NotANumber();
    FourDigits();
  }

  /** The corrected check turns `ab2024` away with the usage message. */
  lemma {:induction false} ArgWithoutMonthRejected()
    ensures ParseArg(Some("ab2024")) == Fail(Usage)
  {
    NotANumber();
  }

  /** `ab2024` splits into `ab`, which reads as NaN, and `2024`. */
  lemma {:induction false} NotANumber()
    ensures "ab2024"[..2] == "ab" && "ab2024"[2..] == "2024"
    ensures ParseInt("ab") == None
  {
    assert !IsWhitespace('a');
    ParseIntNoDigit("ab");
  }

  lemma {:induction false} FourDigits()
    ensures ParseInt("2024") == Some(2024)
  {
    assert Value("2024", 10) == 2024 by {
      assert Value("2", 10) == 2 by { assert "2"[..0] == []; }
      assert Value("20", 10) == 20 by { assert "20"[..1] == "2"; }
      assert Value("202", 10) == 202 by { assert "202"[..2] == "20"; }
      assert "2024"[..3] == "202";
    }
    assert AllDigits("2024", 10);
    DigitsParse("2024");
  }

  /** The command-line period: six characters, a month in [1, 12] and a
      year in [2021, 2100], both numbers; otherwise the usage message. */
  function ParseArg(arg: Option<string>): (r: Result<(string, string)>)
    ensures r.Ok? <==> arg.Some? && |arg.value| == 6 && InRange(ParseInt(arg.value[..2]), 1, 12)
                       && InRange(ParseInt(arg.value[2..]), 2021, 2100)
    ensures r.Ok? ==> r.value == (arg.value[..2], arg.value[2..])
    ensures r.Fail? ==> r.error == Usage
  {
    if arg.None? || arg.value == "" || |arg.value| != 6 then Fail(Usage)
    else
      var month := arg.value[..2];
      var year := arg.value[2..];
      var cyi := ParseInt(year);
      var cmi := ParseInt(month);
      if cyi.None? || cmi.None? || cyi.value < 2021 || cyi.value > 2100 || cmi.value < 1 || cmi.value > 12
      then Fail(Usage)
      else Ok((month, year))
  }

  predicate InRange(x: Option<int>, lo: int, hi: int) {
    x.Some? && lo <= x.value <= hi
  }

  /** No comparison with the bounds fails: NaN, or a number in [lo, hi]. */
  predicate NaNOrIn(x: Option<int>, lo: int, hi: int) {
    x.None? || lo <= x.value <= hi
  }

  /** Any `MMYYYY` of digits naming a month of the years 2021 to 2100 is
      accepted and splits back into its month and year. */
  lemma {:induction false} ParseArgDigits(mm: string, yyyy: string)
    requires |mm| == 2 && |yyyy| == 4 && AllDigits(mm, 10) && AllDigits(yyyy, 10)
    requires 1 <= Value(mm, 10) <= 12 && 2021 <= Value(yyyy, 10) <= 2100
    ensures ParseArg(Some(mm + yyyy)) == Ok((mm, yyyy))
  {
    assert (mm + yyyy)[..2] == mm && (mm + yyyy)[2..] == yyyy;
    DigitsParse(mm);
    DigitsParse(yyyy);
  }

  /** `**Stanarina i režije MM/YYYY**`, the generation time, and a rule. */
  function Header(month: string, year: string, stamp: string): seq<string> {
    ["**Stanarina i režije " + month + "/" + year + "**", "**" + stamp + "**", "---"]
  }

  /** A rule and the rent line. */
  function Trailer(month: string, year: string): seq<string> {
    ["---", "Stanarina " + month + "/" + year + " = " + Rent]
  }

  /** A run: the command-line period, then the batch over the month's
      directory listing; `stamp` is the formatted generation time. */
  method Run(arg: Option<string>, stamp: string, files: seq<File>) returns (out: Result<Summary>)
    ensures ParseArg(arg).Fail? ==> out == Fail(Usage)
    ensures ParseArg(arg).Ok? ==>
      var (month, year) := ParseArg(arg).value;
      out == Summarise(Header(month, year, stamp), Trailer(month, year), files, Classify)
  {
    var period := ParseArg(arg);
    if period.Fail? {
      return Fail(Usage);
    }
    var (month, year) := period.value;
    out := RunBatch(Header(month, year, stamp), Trailer(month, year), files, Classify);
  }
}

/** What both revisions of the script share: reading the text of a bank
    payment confirmation into lines, the issuer check, the labelled-field
    lookup `get`, the ordered rule chain (payee contains, code equals,
    description contains), and the batch loop that collects one display
    line and one rename per recognised confirmation. */
module Confirmation {
  import opened JsString

  /** The errors that end a run: the usage message, a method called on a
      missing field (a TypeError), an unparseable holding period and a
      confirmation that no rule recognises. */
  datatype Err =
    | Usage
    | NullDereference(expression: string)
    | CantParseDate(date: string)
    | UnrecognizedPdf(filename: string)

  /** The message each error is reported with. */
  function Message(e: Err): string {
    match e
    case Usage => "rezije 1.1\n\nusage example: rezije 052023"
    case NullDereference(expression) => "TypeError: " + expression + " is null or undefined"
    case CantParseDate(date) => "can't parse date: " + date
    case UnrecognizedPdf(filename) => "unrecognized pdf: " + filename
  }

  datatype Result<+T> = Ok(value: T) | Fail(error: Err) {
    predicate IsFailure() { Fail? }
    function PropagateFailure<U>(): Result<U> requires Fail? { Fail(error) }
    function Extract(): T requires Ok? { value }
  }

  /** `array.filter(x => x)` on strings: the non-empty ones, in order. */
  function NonEmpty(ps: seq<string>): (r: seq<string>)
    ensures |r| <= |ps|
    ensures forall k :: 0 <= k < |r| ==> r[k] != ""
    ensures forall x :: x in r <==> x in ps && x != ""
  {
    if |ps| == 0 then []
    else if ps[0] == "" then NonEmpty(ps[1..])
    else [ps[0]] + NonEmpty(ps[1..])
  }

  /** The filter keeps every non-empty piece as often as it occurs and
      drops every empty one. */
  lemma {:induction false} NonEmptyCount(ps: seq<string>)
    ensures multiset(NonEmpty(ps)) == multiset(ps)["" := 0]
    decreases |ps|
  {
    if |ps| > 0 {
      assert ps == [ps[0]] + ps[1..];
      NonEmptyCount(ps[1..]);
    }
  }

  /** Filtering keeps the order: the kept pieces of `a + b` are those of
      `a` followed by those of `b`. */
  lemma {:induction false} NonEmptyAppend(a: seq<string>, b: seq<string>)
    ensures NonEmpty(a + b) == NonEmpty(a) + NonEmpty(b)
    decreases |a|
  {
    if |a| > 0 {
      assert (a + b)[1..] == a[1..] + b;
      NonEmptyAppend(a[1..], b);
    } else {
      assert a + b == b;
    }
  }

  /** A list with no empty piece passes the filter unchanged. */
  lemma {:induction false} NonEmptyKeepsAll(ps: seq<string>)
    requires forall k :: 0 <= k < |ps| ==> ps[k] != ""
    ensures NonEmpty(ps) == ps
    decreases |ps|
  {
    if |ps| > 0 {
      NonEmptyKeepsAll(ps[1..]);
    }
  }

  /** `text.split('\n').filter(x => x)`: the lines of the extracted text,
      empty ones dropped. */
  function Lines(text: string): (r: seq<string>)
    ensures r == NonEmpty(Split(text, '\n'))
    ensures forall k :: 0 <= k < |r| ==> r[k] != "" && '\n' !in r[k]
  {
    var pieces := Split(text, '\n');
    var r := NonEmpty(pieces);
    assert forall k :: 0 <= k < |r| ==> '\n' !in r[k] by {
      forall k | 0 <= k < |r| ensures '\n' !in r[k] {
        assert r[k] in pieces;
        var t :| 0 <= t < |pieces| && pieces[t] == r[k];
      }
    }
    r
  }

  /** The lines of newline-joined pieces are the non-empty pieces. */
  lemma {:induction false} LinesOfPieces(ps: seq<string>)
    requires |ps| >= 1
    requires forall k :: 0 <= k < |ps| ==> '\n' !in ps[k]
    ensures Lines(Join(ps, '\n')) == NonEmpty(ps)
  {
    SplitJoin(ps, '\n');
  }

  /** Lines joined with newlines read back as the same lines. */
  lemma {:induction false} LinesOfJoin(ls: seq<string>)
    requires |ls| >= 1
    requires forall k :: 0 <= k < |ls| ==> ls[k] != "" && '\n' !in ls[k]
    ensures Lines(Join(ls, '\n')) == ls
  {
    LinesOfPieces(ls);
    NonEmptyKeepsAll(ls);
  }

  const Bank := "Privredna banka Zagreb d.d."

  /** Only confirmations whose first line is the bank's name are classified. */
  predicate PassesIssuerGate(lines: seq<string>) {
    |lines| > 0 && lines[0] == Bank
  }

  /** `key` is at index `i` and nowhere before it. */
  predicate FirstLine(lines: seq<string>, key: string, i: nat) {
    i < |lines| && lines[i] == key && key !in lines[..i]
  }

  /** The loop of `get` from index `i` on. */
  function GetFrom(lines: seq<string>, key: string, offset: nat, i: nat): (r: Option<string>)
    requires i <= |lines| && key !in lines[..i]
    ensures key !in lines ==> r.None?
    ensures forall j: nat :: FirstLine(lines, key, j) ==>
      r == (if j + offset < |lines| then Some(lines[j + offset]) else None)
    decreases |lines| - i
  {
    if i == |lines| then
      assert lines[..i] == lines;
      None
    else if lines[i] == key then
      assert forall t :: 0 <= t < i ==> lines[t] != key by {
        forall t | 0 <= t < i ensures lines[t] != key { assert lines[..i][t] == lines[t]; }
      }
      assert forall j: nat :: FirstLine(lines, key, j) ==> j == i by {
        forall j: nat | FirstLine(lines, key, j) ensures j == i {
          assert forall t :: 0 <= t < j ==> lines[t] != key by {
            forall t | 0 <= t < j ensures lines[t] != key { assert lines[..j][t] == lines[t]; }
          }
        }
      }
      if i + offset < |lines| then Some(lines[i + offset]) else None
    else
      assert lines[..i + 1] == lines[..i] + [lines[i]];
      GetFrom(lines, key, offset, i + 1)
  }

  /** `get(lines, key, offset)`: the line `offset` below the first line
      equal to `key`. `None` stands for both results JavaScript gives when
      there is none: `null` when no line equals `key`, `undefined` when the
      offset runs past the last line. */
  function Get(lines: seq<string>, key: string, offset: nat): (r: Option<string>)
    ensures key !in lines ==> r.None?
    ensures forall j: nat :: FirstLine(lines, key, j) ==>
      r == (if j + offset < |lines| then Some(lines[j + offset]) else None)
  {
    GetFrom(lines, key, offset, 0)
  }

  /** Every line that is present has a first occurrence. */
  lemma {:induction false} FirstLineExists(lines: seq<string>, key: string) returns (i: nat)
    requires key in lines
    ensures FirstLine(lines, key, i)
  {
    i := 0;
    while lines[i] != key
      invariant i < |lines| && key !in lines[..i]
      invariant key in lines[i..]
      decreases |lines| - i
    {
      assert lines[..i + 1] == lines[..i] + [lines[i]];
      assert lines[i..] == [lines[i]] + lines[i + 1..];
      i := i + 1;
    }
  }

  const PayeeLabel := "PRIMATELJAdresa primatelja"
  const PurposeLabel := "Šifra namjeneOpis plaćanja"
  const AmountLabel := "IZNOSNaknada"
  const ConfirmedLabel := "StatusDatum i vrijeme potvrde"

  /** The labelled fields of one confirmation, as `get` returns them. */
  datatype Fields = Fields(
    payee: Option<string>,      // primatelj
    code: Option<string>,       // sifra
    description: Option<string>,// opis
    amount: Option<string>,     // cijena, before its display normalisation
    confirmed: Option<string>)  // vrijeme

  function Extract(lines: seq<string>): Fields {
    Fields(Get(lines, PayeeLabel, 1), Get(lines, PurposeLabel, 1), Get(lines, PurposeLabel, 2),
           Get(lines, AmountLabel, 1), Get(lines, ConfirmedLabel, 2))
  }

  /** The kinds of bill the rule chain recognises. */
  datatype Category =
    | HoldingFees            // NAKNADE I USLUGE: Holding or Mala pričuva
    | UtilityFee             // Komunalna naknada
    | GasAdvance             // Plin
    | GasSettlement          // Plin obračun
    | Electricity            // Struja
    | ElectricitySettlement  // Struja obračun
    | Water                  // Voda

  /** One link of the chain: the payee contains `payee`, the code equals
      `code`, and the description contains one of `descriptions`. */
  datatype Rule = Rule(category: Category, payee: string, code: string, descriptions: seq<string>)

  predicate ContainsOneOf(s: string, ps: seq<string>) {
    exists k :: 0 <= k < |ps| && Includes(s, ps[k])
  }

  /** `s.includes(p1) || s.includes(p2) || ...`, evaluated left to right. */
  function IncludesAny(s: string, ps: seq<string>): (b: bool)
    ensures b <==> ContainsOneOf(s, ps)
  {
    if |ps| == 0 then false
    else if Includes(s, ps[0]) then true
    else
      var b := IncludesAny(s, ps[1..]);
      assert ContainsOneOf(s, ps) <==> ContainsOneOf(s, ps[1..]) by {
        if ContainsOneOf(s, ps) {
          var k :| 0 <= k < |ps| && Includes(s, ps[k]);
          assert k > 0 && ps[1..][k - 1] == ps[k];
        }
        if ContainsOneOf(s, ps[1..]) {
          var k :| 0 <= k < |ps| - 1 && Includes(s, ps[1..][k]);
          assert ps[k + 1] == ps[1..][k];
        }
      }
      b
  }

  /** The rule's condition `primatelj.includes(P) && sifra == C &&
      (opis.includes(D1) || ...)` with JavaScript's evaluation: calling
      `includes` on a missing payee or description throws, while comparing
      a missing code with `==` is just false; `&&` stops at the first false. */
  function RuleHolds(f: Fields, rule: Rule): (r: Result<bool>)
    ensures r == Ok(true) <==>
      f.payee.Some? && Includes(f.payee.value, rule.payee) && f.code == Some(rule.code)
      && f.description.Some? && ContainsOneOf(f.description.value, rule.descriptions)
    ensures r.Fail? <==>
      f.payee.None? || (Includes(f.payee.value, rule.payee) && f.code == Some(rule.code) && f.description.None?)
    ensures r.Fail? ==> r.error.NullDereference?
  {
    if f.payee.None? then Fail(NullDereference("primatelj"))
    else if !Includes(f.payee.value, rule.payee) then Ok(false)
    else if f.code != Some(rule.code) then Ok(false)
    else if f.description.None? then Fail(NullDereference("opis"))
    else Ok(IncludesAny(f.description.value, rule.descriptions))
  }

  /** The `if ... else if ...` chain from rule `i` on. */
  function FirstMatchFrom(f: Fields, rules: seq<Rule>, i: nat): (r: Result<Option<nat>>)
    requires i <= |rules|
    ensures r.Ok? && r.value.Some? ==>
      i <= r.value.value < |rules| && RuleHolds(f, rules[r.value.value]) == Ok(true)
      && forall j :: i <= j < r.value.value ==> RuleHolds(f, rules[j]) == Ok(false)
    ensures r == Ok(None) <==> forall j :: i <= j < |rules| ==> RuleHolds(f, rules[j]) == Ok(false)
    ensures r.Fail? ==>
      exists k :: i <= k < |rules| && RuleHolds(f, rules[k]) == Fail(r.error) &&
        forall j :: i <= j < k ==> RuleHolds(f, rules[j]) == Ok(false)
    ensures r.Fail? ==> r.error.NullDereference?
    decreases |rules| - i
  {
    if i == |rules| then Ok(None)
    else
      match RuleHolds(f, rules[i])
      case Fail(e) => Fail(e)
      case Ok(true) => Ok(Some(i))
      case Ok(false) => FirstMatchFrom(f, rules, i + 1)
  }

  /** The `if ... else if ...` chain: the index of the first rule that
      holds, `None` when none does, or the error of the first condition that
      throws. */
  function FirstMatch(f: Fields, rules: seq<Rule>): (r: Result<Option<nat>>)
    ensures r.Ok? && r.value.Some? ==>
      r.value.value < |rules| && RuleHolds(f, rules[r.value.value]) == Ok(true)
      && forall j :: 0 <= j < r.value.value ==> RuleHolds(f, rules[j]) == Ok(false)
    ensures r == Ok(None) <==> forall j :: 0 <= j < |rules| ==> RuleHolds(f, rules[j]) == Ok(false)
    ensures r.Fail? ==>
      exists k :: 0 <= k < |rules| && RuleHolds(f, rules[k]) == Fail(r.error) &&
        forall j :: 0 <= j < k ==> RuleHolds(f, rules[j]) == Ok(false)
    ensures r.Fail? ==> r.error.NullDereference?
  {
    FirstMatchFrom(f, rules, 0)
  }

  /** The chain picks rule `i` when it holds and every earlier rule is false. */
  lemma {:induction false} FirstMatchAt(f: Fields, rules: seq<Rule>, i: nat)
    requires i < |rules| && RuleHolds(f, rules[i]) == Ok(true)
    requires forall j :: 0 <= j < i ==> RuleHolds(f, rules[j]) == Ok(false)
    ensures FirstMatch(f, rules) == Ok(Some(i))
  {
  }

  /** A present payee with another code fails the rule without throwing,
      whatever the payee and the description are. */
  lemma {:induction false} CodeMismatch(f: Fields, rule: Rule)
    requires f.payee.Some? && f.code != Some(rule.code)
    ensures RuleHolds(f, rule) == Ok(false)
  {
  }

  /** A present payee whose code no rule names: the chain ends with no
      match and without throwing. */
  lemma {:induction false} NoRuleForCode(f: Fields, rules: seq<Rule>)
    requires f.payee.Some?
    requires forall j :: 0 <= j < |rules| ==> f.code != Some(rules[j].code)
    ensures FirstMatch(f, rules) == Ok(None)
  {
    forall j | 0 <= j < |rules| ensures RuleHolds(f, rules[j]) == Ok(false) {
      CodeMismatch(f, rules[j]);
    }
  }

  /** An entry of the summary and its rename target. */
  datatype Entry = Entry(line: string, target: string)

  /** A file of the month's directory with the text extracted from it. */
  datatype File = File(name: string, text: string)

  /** The summary lines and the `renames` object of one run. */
  datatype Summary = Summary(lines: seq<string>, renames: map<string, string>)

  /** Only PDF files whose first line is the bank's name are classified. */
  predicate Recognised(f: File) {
    EndsWith(f.name, ".pdf") && PassesIssuerGate(Lines(f.text))
  }

  /** The recognised files, in directory order. */
  function Selected(files: seq<File>): (r: seq<File>)
    ensures forall k :: 0 <= k < |r| ==> r[k] in files && Recognised(r[k])
    decreases |files|
  {
    if |files| == 0 then []
    else
      var init := Selected(files[..|files| - 1]);
      var f := files[|files| - 1];
      if Recognised(f) then init + [f] else init
  }

  /** No recognised file is passed over. */
  lemma {:induction false} SelectedComplete(files: seq<File>, i: nat)
    requires i < |files| && Recognised(files[i])
    ensures files[i] in Selected(files)
    decreases |files|
  {
    var init := files[..|files| - 1];
    SelectedSnoc(files);
    if i < |files| - 1 {
      assert init[i] == files[i];
      SelectedComplete(init, i);
    }
  }


  /** Selection keeps directory order: the recognised files of `a + b`
      are those of `a` followed by those of `b`. */
  lemma {:induction false} SelectedAppend(a: seq<File>, b: seq<File>)
    ensures Selected(a + b) == Selected(a) + Selected(b)
    decreases |b|
  {
    if |b| == 0 {
      assert a + b == a;
    } else {
      var b' := b[..|b| - 1];
      assert (a + b)[..|a + b| - 1] == a + b';
      assert (a + b)[|a + b| - 1] == b[|b| - 1];
      SelectedAppend(a, b');
    }
  }

  /** A single file is selected exactly when it is recognised. */
  lemma {:induction false} SelectedOne(f: File)
    ensures Selected([f]) == if Recognised(f) then [f] else []
  {
    assert [f][..0] == [];
  }

  /** The classification of one file's lines. */
  function Classification(f: File, classify: (string, seq<string>) -> Result<Entry>): Result<Entry> {
    classify(f.name, Lines(f.text))
  }

  /** Each recognised file with its classification, in directory order;
      the first classification to fail ends the run. */
  function Collect(files: seq<File>, classify: (string, seq<string>) -> Result<Entry>)
    : Result<seq<(string, Entry)>>
    decreases |files|
  {
    if |files| == 0 then Ok([])
    else
      var named :- Collect(files[..|files| - 1], classify);
      var f := files[|files| - 1];
      if Recognised(f) then
        var e :- Classification(f, classify);
        Ok(named + [(f.name, e)])
      else Ok(named)
  }

  function DisplayLines(named: seq<(string, Entry)>): (r: seq<string>)
    ensures |r| == |named| && forall k :: 0 <= k < |r| ==> r[k] == named[k].1.line
  {
    seq(|named|, k requires 0 <= k < |named| => named[k].1.line)
  }

  /** `renames[filename] = target` for each entry in turn. */
  function Renames(named: seq<(string, Entry)>): map<string, string>
    decreases |named|
  {
    if |named| == 0 then map[]
    else
      var last := named[|named| - 1];
      Renames(named[..|named| - 1])[last.0 := last.1.target]
  }

  /** The outcome of a run: the header, one line per recognised file, the
      trailer, and the renames; or the first error. */
  function Summarise(header: seq<string>, trailer: seq<string>, files: seq<File>,
                     classify: (string, seq<string>) -> Result<Entry>): Result<Summary>
  {
    match Collect(files, classify)
    case Fail(e) => Fail(e)
    case Ok(named) => Ok(Summary(header + DisplayLines(named) + trailer, Renames(named)))
  }

  /** The first `i` files of the listing have been visited and gave `named`. */
  predicate Collected(files: seq<File>, classify: (string, seq<string>) -> Result<Entry>, i: nat,
                      named: seq<(string, Entry)>) {
    i <= |files| && Collect(files[..i], classify) == Ok(named)
  }

  /** Visiting the whole listing collects it. */
  lemma {:induction false} CollectedAll(files: seq<File>, classify: (string, seq<string>) -> Result<Entry>,
                                        named: seq<(string, Entry)>)
    requires Collected(files, classify, |files|, named)
    ensures Collect(files, classify) == Ok(named)
  {
    assert files[..|files|] == files;
  }

  /** The loop's state after the first `i` files: the summary lines so far
      and the `renames` object are those of the entries collected. */
  predicate Visited(header: seq<string>, files: seq<File>, classify: (string, seq<string>) -> Result<Entry>,
                    i: nat, named: seq<(string, Entry)>, result: seq<string>, renames: map<string, string>) {
    Collected(files, classify, i, named) && result == header + DisplayLines(named) && renames == Renames(named)
  }

  /** A recognised file that classifies pushes its line and sets its
      rename target. */
  lemma {:induction false} VisitAdd(header: seq<string>, files: seq<File>, classify: (string, seq<string>) -> Result<Entry>,
                                    i: nat, named: seq<(string, Entry)>, result: seq<string>, renames: map<string, string>)
    requires i < |files| && Visited(header, files, classify, i, named, result, renames)
    requires Recognised(files[i]) && Classification(files[i], classify).Ok?
    ensures var e := Classification(files[i], classify).value;
      Visited(header, files, classify, i + 1, named + [(files[i].name, e)],
              result + [e.line], renames[files[i].name := e.target])
  {
    var e := Classification(files[i], classify).value;
    CollectAdd(files, classify, i, named);
    AppendEntry(named, (files[i].name, e));
  }

  /** Any other file changes nothing. */
  lemma {:induction false} VisitSkip(header: seq<string>, files: seq<File>, classify: (string, seq<string>) -> Result<Entry>,
                                     i: nat, named: seq<(string, Entry)>, result: seq<string>, renames: map<string, string>)
    requires i < |files| && Visited(header, files, classify, i, named, result, renames)
    requires !Recognised(files[i])
    ensures Visited(header, files, classify, i + 1, named, result, renames)
  {
    CollectSkip(files, classify, i, named);
  }

  /** One pass of the loop: a recognised file pushes its line and sets its
      rename target, a classification that throws ends the run, any other
      file changes nothing. */
  method Visit(header: seq<string>, files: seq<File>, classify: (string, seq<string>) -> Result<Entry>, i: nat,
               ghost named: seq<(string, Entry)>, result: seq<string>, renames: map<string, string>)
    returns (out: Result<(seq<string>, map<string, string>)>, ghost named': seq<(string, Entry)>)
    requires i < |files| && Visited(header, files, classify, i, named, result, renames)
    ensures out.Fail? ==> Collect(files, classify) == Fail(out.error)
    ensures out.Ok? ==> Visited(header, files, classify, i + 1, named', out.value.0, out.value.1)
  {
    var filename := files[i].name;
    var lines := Lines(files[i].text);
    if EndsWith(filename, ".pdf") && PassesIssuerGate(lines) {
      var r := classify(filename, lines);
      if r.Fail? {
        CollectStop(files, classify, i, named);
        return Fail(r.error), named;
      }
      VisitAdd(header, files, classify, i, named, result, renames);
      named' := named + [(filename, r.value)];
      out := Ok((result + [r.value.line], renames[filename := r.value.target]));
    } else {
      VisitSkip(header, files, classify, i, named, result, renames);
      named' := named;
      out := Ok((result, renames));
    }
  }

  /** The loop over the directory listing: `result.push(line)` and
      `renames[filename] = target` for each recognised file; a classification
      that throws ends the run. */
  method RunBatch(header: seq<string>, trailer: seq<string>, files: seq<File>,
                  classify: (string, seq<string>) -> Result<Entry>)
    returns (out: Result<Summary>)
    ensures out == Summarise(header, trailer, files, classify)
  {
    var result := header;
    var renames: map<string, string> := map[];
    ghost var named: seq<(string, Entry)> := [];
    for i := 0 to |files|
      invariant Visited(header, files, classify, i, named, result, renames)
    {
      var step;
      step, named := Visit(header, files, classify, i, named, result, renames);
      if step.Fail? {
        return Fail(step.error);
      }
      result, renames := step.value.0, step.value.1;
    }
    CollectedAll(files, classify, named);
    result := result + trailer;
    out := Ok(Summary(result, renames));
  }

  /** A file that is not a recognised confirmation adds no entry. */
  lemma {:induction false} CollectSkip(files: seq<File>, classify: (string, seq<string>) -> Result<Entry>, i: nat,
                    named: seq<(string, Entry)>)
    requires i < |files| && Collected(files, classify, i, named)
    requires !Recognised(files[i])
    ensures Collected(files, classify, i + 1, named)
  {
    assert files[..i + 1][..i] == files[..i];
  }

  /** A recognised file that classifies adds its entry at the end. */
  lemma {:induction false} CollectAdd(files: seq<File>, classify: (string, seq<string>) -> Result<Entry>, i: nat,
                   named: seq<(string, Entry)>)
    requires i < |files| && Collected(files, classify, i, named)
    requires Recognised(files[i]) && Classification(files[i], classify).Ok?
    ensures Collected(files, classify, i + 1, named + [(files[i].name, Classification(files[i], classify).value)])
  {
    assert files[..i + 1][..i] == files[..i];
  }

  lemma {:induction false} CollectNextFails(prefix: seq<File>, classify: (string, seq<string>) -> Result<Entry>,
                         named: seq<(string, Entry)>)
    requires |prefix| > 0 && Collect(prefix[..|prefix| - 1], classify) == Ok(named)
    requires Recognised(prefix[|prefix| - 1]) && Classification(prefix[|prefix| - 1], classify).Fail?
    ensures Collect(prefix, classify) == Fail(Classification(prefix[|prefix| - 1], classify).error)
  {
  }

  /** A recognised file that fails to classify ends the whole run with its
      error. */
  lemma {:induction false} CollectStop(files: seq<File>, classify: (string, seq<string>) -> Result<Entry>, i: nat,
                    named: seq<(string, Entry)>)
    requires i < |files| && Collected(files, classify, i, named)
    requires Recognised(files[i]) && Classification(files[i], classify).Fail?
    ensures Collect(files, classify) == Fail(Classification(files[i], classify).error)
  {
    var prefix := files[..i + 1];
    assert prefix[..|prefix| - 1] == files[..i] && prefix[|prefix| - 1] == files[i];
    CollectNextFails(prefix, classify, named);
    CollectKeepsFailure(files, classify, i + 1);
  }

  lemma {:induction false} AppendEntry(named: seq<(string, Entry)>, x: (string, Entry))
    ensures DisplayLines(named + [x]) == DisplayLines(named) + [x.1.line]
    ensures Renames(named + [x]) == Renames(named)[x.0 := x.1.target]
  {
    assert (named + [x])[..|named|] == named;
  }

  /** Once a prefix of the listing has failed, the whole run fails with
      the same error. */
  lemma {:induction false} CollectKeepsFailure(files: seq<File>, classify: (string, seq<string>) -> Result<Entry>, i: nat)
    requires i <= |files| && Collect(files[..i], classify).Fail?
    ensures Collect(files, classify) == Collect(files[..i], classify)
    decreases |files| - i
  {
    if i < |files| {
      var init := files[..|files| - 1];
      assert init[..i] == files[..i];
      CollectKeepsFailure(init, classify, i);
      var r := Collect(init, classify);
      assert r.Fail?;
      assert Collect(files, classify) == Fail(r.error);
    } else {
      assert files[..i] == files;
    }
  }

  /** Each recognised file contributes exactly one entry, in directory
      order, holding its own classification; other files contribute none. */
  lemma {:induction false} CollectShape(files: seq<File>, classify: (string, seq<string>) -> Result<Entry>)
    requires Collect(files, classify).Ok?
    ensures var named := Collect(files, classify).value; var sel := Selected(files);
      |named| == |sel| &&
      forall k :: 0 <= k < |named| ==>
        named[k].0 == sel[k].name && Classification(sel[k], classify) == Ok(named[k].1)
    decreases |files|
  {
    if |files| > 0 {
      CollectShape(files[..|files| - 1], classify);
    }
  }

  /** Every file of `sel` classifies successfully. */
  predicate AllClassified(sel: seq<File>, classify: (string, seq<string>) -> Result<Entry>) {
    forall k :: 0 <= k < |sel| ==> Classification(sel[k], classify).Ok?
  }

  /** The recognised files of a longer directory listing: those of the
      shorter listing, then the last file when it is recognised. */
  lemma {:induction false} SelectedSnoc(files: seq<File>)
    requires |files| > 0
    ensures var init := Selected(files[..|files| - 1]);
      var last := files[|files| - 1];
      Selected(files) == if Recognised(last) then init + [last] else init
  {
  }

  /** A run succeeds exactly when every recognised file classifies. */
  lemma {:induction false} CollectOk(files: seq<File>, classify: (string, seq<string>) -> Result<Entry>)
    ensures Collect(files, classify).Ok? <==> AllClassified(Selected(files), classify)
    decreases |files|
  {
    if |files| > 0 {
      var init := files[..|files| - 1];
      var last := files[|files| - 1];
      CollectOk(init, classify);
      SelectedSnoc(files);
      if Recognised(last) {
        AllClassifiedSnoc(Selected(init), last, classify);
      }
    }
  }

  /** All of `sel + [x]` classify exactly when all of `sel` and `x` do. */
  lemma {:induction false} AllClassifiedSnoc(sel: seq<File>, x: File, classify: (string, seq<string>) -> Result<Entry>)
    ensures AllClassified(sel + [x], classify) <==>
      AllClassified(sel, classify) && Classification(x, classify).Ok?
  {
    var all := sel + [x];
    assert forall k :: 0 <= k < |sel| ==> all[k] == sel[k];
    assert all[|sel|] == x;
  }

  /** File `k` of `sel` is the first that fails to classify, with `err`. */
  predicate FirstFailure(sel: seq<File>, classify: (string, seq<string>) -> Result<Entry>, k: nat, err: Err) {
    k < |sel| && Classification(sel[k], classify) == Fail(err) && AllClassified(sel[..k], classify)
  }

  /** A failed run carries the error of the first recognised file that
      fails to classify. */
  lemma {:induction false} CollectFailure(files: seq<File>, classify: (string, seq<string>) -> Result<Entry>)
    requires Collect(files, classify).Fail?
    ensures exists k: nat :: FirstFailure(Selected(files), classify, k, Collect(files, classify).error)
    decreases |files|
  {
    var init := files[..|files| - 1];
    var last := files[|files| - 1];
    var e := Collect(files, classify).error;
    SelectedSnoc(files);
    var sel0 := Selected(init);
    var sel := Selected(files);
    if Collect(init, classify).Fail? {
      assert Collect(init, classify).error == e;
      CollectFailure(init, classify);
      var k: nat :| FirstFailure(sel0, classify, k, e);
      if Recognised(last) {
        FirstFailureSnoc(sel0, last, classify, k, e);
      }
    } else {
      assert Recognised(last) && Classification(last, classify) == Fail(e);
      CollectOk(init, classify);
      FirstFailureLast(sel0, last, classify, e);
    }
  }

  /** A first failure stays first when a file is added after it. */
  lemma {:induction false} FirstFailureSnoc(sel: seq<File>, x: File, classify: (string, seq<string>) -> Result<Entry>, k: nat, e: Err)
    requires FirstFailure(sel, classify, k, e)
    ensures FirstFailure(sel + [x], classify, k, e)
  {
    assert (sel + [x])[..k] == sel[..k];
  }

  /** A file that fails after files that all classify is the first failure. */
  lemma {:induction false} FirstFailureLast(sel: seq<File>, x: File, classify: (string, seq<string>) -> Result<Entry>, e: Err)
    requires AllClassified(sel, classify) && Classification(x, classify) == Fail(e)
    ensures FirstFailure(sel + [x], classify, |sel|, e)
  {
    assert (sel + [x])[..|sel|] == sel;
  }

  /** Two entries never carry the same file name. */
  predicate DistinctNames(named: seq<(string, Entry)>) {
    forall i, j :: 0 <= i < j < |named| ==> named[i].0 != named[j].0
  }

  /** With distinct names, `renames` maps exactly the entries' names, each
      to its own target. */
  lemma {:induction false} RenamesOfDistinct(named: seq<(string, Entry)>)
    requires DistinctNames(named)
    ensures Renames(named).Keys == Names(named)
    ensures forall k :: 0 <= k < |named| ==> Renames(named)[named[k].0] == named[k].1.target
    decreases |named|
  {
    if |named| > 0 {
      var n := |named|;
      var init := named[..n - 1];
      var last := named[n - 1];
      DistinctInit(named);
      RenamesOfDistinct(init);
      NamesSnoc(named);
      assert named == init + [last];
      RenameAdded(Renames(init), init, last);
    }
  }

  /** Adding the rename of a new name to the renames of distinct entries
      gives the renames of the longer sequence. */
  lemma {:induction false} RenameAdded(m: map<string, string>, init: seq<(string, Entry)>, x: (string, Entry))
    requires m.Keys == Names(init)
    requires forall k :: 0 <= k < |init| ==> m[init[k].0] == init[k].1.target
    requires forall k :: 0 <= k < |init| ==> init[k].0 != x.0
    ensures m[x.0 := x.1.target].Keys == Names(init) + {x.0}
    ensures var all := init + [x];
      forall k :: 0 <= k < |all| ==> m[x.0 := x.1.target][all[k].0] == all[k].1.target
  {
    var all := init + [x];
    assert forall k :: 0 <= k < |init| ==> all[k] == init[k];
    assert all[|init|] == x;
  }

  /** The file names the entries carry. */
  function Names(named: seq<(string, Entry)>): set<string> {
    set k | 0 <= k < |named| :: named[k].0
  }

  /** The names of a sequence of entries: those of all but the last, and the last. */
  lemma {:induction false} NamesSnoc(named: seq<(string, Entry)>)
    requires |named| > 0
    ensures Names(named) == Names(named[..|named| - 1]) + {named[|named| - 1].0}
  {
    var n := |named|;
    var init := named[..n - 1];
    forall x | x in Names(named) ensures x in Names(init) + {named[n - 1].0} {
      var k :| 0 <= k < n && named[k].0 == x;
      if k < n - 1 {
        assert init[k].0 == x;
      }
    }
    forall x | x in Names(init) ensures x in Names(named) {
      var k :| 0 <= k < n - 1 && init[k].0 == x;
      assert named[k].0 == x;
    }
  }

  /** The files of a directory have distinct names, and so do the entries. */
  lemma {:induction false} CollectDistinct(files: seq<File>, classify: (string, seq<string>) -> Result<Entry>)
    requires Collect(files, classify).Ok? && DistinctFileNames(files)
    ensures DistinctNames(Collect(files, classify).value)
    decreases |files|
  {
    if |files| > 0 {
      var n := |files|;
      var init := files[..n - 1];
      var last := files[n - 1];
      DistinctFileNamesInit(files);
      CollectDistinct(init, classify);
      CollectShape(init, classify);
      var named0 := Collect(init, classify).value;
      if Recognised(last) {
        var sel0 := Selected(init);
        forall k | 0 <= k < |named0| ensures named0[k].0 != last.name {
          var j :| 0 <= j < n - 1 && init[j] == sel0[k];
          assert files[j] == init[j];
        }
        DistinctSnoc(named0, (last.name, Collect(files, classify).value[|named0|].1));
      }
    }
  }

  /** The files of a directory listing have distinct names. */
  predicate DistinctFileNames(files: seq<File>) {
    forall i, j :: 0 <= i < j < |files| ==> files[i].name != files[j].name
  }

  lemma {:induction false} DistinctFileNamesInit(files: seq<File>)
    requires |files| > 0 && DistinctFileNames(files)
    ensures DistinctFileNames(files[..|files| - 1])
    ensures forall k :: 0 <= k < |files| - 1 ==> files[k].name != files[|files| - 1].name
  {
    var init := files[..|files| - 1];
    assert forall k :: 0 <= k < |init| ==> init[k] == files[k];
  }

  /** A name new to distinct entries keeps them distinct. */
  lemma {:induction false} DistinctSnoc(named: seq<(string, Entry)>, x: (string, Entry))
    requires DistinctNames(named) && forall k :: 0 <= k < |named| ==> named[k].0 != x.0
    ensures DistinctNames(named + [x])
  {
    var all := named + [x];
    assert forall k :: 0 <= k < |named| ==> all[k] == named[k];
  }

  /** Distinct entries without the last are still distinct, and none of
      them shares the last one's name. */
  lemma {:induction false} DistinctInit(named: seq<(string, Entry)>)
    requires |named| > 0 && DistinctNames(named)
    ensures DistinctNames(named[..|named| - 1])
    ensures forall k :: 0 <= k < |named| - 1 ==> named[k].0 != named[|named| - 1].0
  {
    var init := named[..|named| - 1];
    assert forall k :: 0 <= k < |init| ==> init[k] == named[k];
  }

  /** So for a directory listing: `renames` maps exactly the recognised
      files, each to its own rename target. */
  lemma {:induction false} RenamesOfCollect(files: seq<File>, classify: (string, seq<string>) -> Result<Entry>)
    requires Collect(files, classify).Ok? && DistinctFileNames(files)
    ensures var named := Collect(files, classify).value; var sel := Selected(files);
      |named| == |sel| &&
      Renames(named).Keys == FileNames(sel) &&
      forall k :: 0 <= k < |sel| ==> Renames(named)[sel[k].name] == named[k].1.target
  {
    CollectShape(files, classify);
    CollectDistinct(files, classify);
    var named := Collect(files, classify).value;
    RenamesOfDistinct(named);
    NamesOfShape(named, Selected(files));
  }

  /** Entries named after a sequence of files carry exactly those names. */
  lemma {:induction false} NamesOfShape(named: seq<(string, Entry)>, sel: seq<File>)
    requires |named| == |sel| && forall k :: 0 <= k < |sel| ==> named[k].0 == sel[k].name
    ensures Names(named) == FileNames(sel)
  {
    forall x | x in FileNames(sel) ensures x in Names(named) {
      var k :| 0 <= k < |sel| && sel[k].name == x;
      assert named[k].0 == x;
    }
    forall x | x in Names(named) ensures x in FileNames(sel) {
      var k :| 0 <= k < |named| && named[k].0 == x;
      assert sel[k].name == x;
    }
  }

  /** The names of a sequence of files. */
  function FileNames(fs: seq<File>): set<string> {
    set k | 0 <= k < |fs| :: fs[k].name
  }

  /** A run fails exactly when a recognised file fails to classify, and
      then with the error of the first such file. */
  lemma {:induction false} SummariseOutcome(header: seq<string>, trailer: seq<string>, files: seq<File>,
                         classify: (string, seq<string>) -> Result<Entry>)
    ensures Summarise(header, trailer, files, classify).Ok? <==> AllClassified(Selected(files), classify)
    ensures Summarise(header, trailer, files, classify).Fail? ==>
      exists k: nat :: FirstFailure(Selected(files), classify, k, Summarise(header, trailer, files, classify).error)
  {
    CollectOk(files, classify);
    if Collect(files, classify).Fail? {
      CollectFailure(files, classify);
    }
  }

  /** A successful run prints the header, one line per recognised file in
      listing order, then the trailer. */
  lemma {:induction false} SummariseLines(header: seq<string>, trailer: seq<string>, files: seq<File>,
                       classify: (string, seq<string>) -> Result<Entry>)
    requires Summarise(header, trailer, files, classify).Ok?
    ensures var out := Summarise(header, trailer, files, classify).value;
      var sel := Selected(files);
      |out.lines| == |header| + |sel| + |trailer| &&
      out.lines[..|header|] == header && out.lines[|header| + |sel|..] == trailer
    ensures var out := Summarise(header, trailer, files, classify).value;
      var sel := Selected(files);
      forall k :: 0 <= k < |sel| ==>
        Classification(sel[k], classify).Ok? &&
        out.lines[|header| + k] == Classification(sel[k], classify).value.line
  {
    CollectShape(files, classify);
    var named := Collect(files, classify).value;
    Framed(header, DisplayLines(named), trailer);
  }

  /** Where the parts of `header + body + trailer` sit. */
  lemma {:induction false} Framed(header: seq<string>, body: seq<string>, trailer: seq<string>)
    ensures var all := header + body + trailer;
      |all| == |header| + |body| + |trailer| &&
      all[..|header|] == header && all[|header| + |body|..] == trailer &&
      forall k :: 0 <= k < |body| ==> all[|header| + k] == body[k]
  {
  }

  /** Over a listing with distinct file names, the renames of a successful
      run map exactly the recognised files, each to its own target. */
  lemma {:induction false} SummariseRenames(header: seq<string>, trailer: seq<string>, files: seq<File>,
                         classify: (string, seq<string>) -> Result<Entry>)
    requires Summarise(header, trailer, files, classify).Ok? && DistinctFileNames(files)
    ensures var out := Summarise(header, trailer, files, classify).value;
      var sel := Selected(files);
      out.renames.Keys == FileNames(sel) &&
      forall k :: 0 <= k < |sel| ==>
        Classification(sel[k], classify).Ok? &&
        out.renames[sel[k].name] == Classification(sel[k], classify).value.target
  {
    CollectShape(files, classify);
    RenamesOfCollect(files, classify);
  }
}

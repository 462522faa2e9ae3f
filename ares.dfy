/** The company-data widget (`DKralAresCompanyValidator`): the company identifier (IČO) is
    cleaned and checked with its weighted mod-11 check digit, and only a well-formed
    identifier is looked up in the ARES business registry, whose answer fills the company
    name, VAT id and registered address into the form. */
module Ares {
  import opened Common
  import opened Text

  /** `sanitizeICO`: the digits of the field's value, no more than the first eight. */
  function SanitizeIco(v: string): (r: string)
    ensures AllDigits(r) && |r| <= 8
    ensures |r| <= |DigitsOnly(v)| && r == DigitsOnly(v)[..|r|]
    ensures |r| < 8 ==> r == DigitsOnly(v)
  {
    var d := DigitsOnly(v);
    if |d| <= 8 then d else d[..8]
  }

  /** Cleaning an already cleaned value changes nothing. */
  lemma SanitizeIcoIdempotent(v: string)
    ensures SanitizeIco(SanitizeIco(v)) == SanitizeIco(v)
  {
    DigitsOnlyOfDigits(SanitizeIco(v));
  }

  function Digit(c: char): nat
    requires IsDigit(c)
  {
    c as int - '0' as int
  }

  /** The check digit of an identifier: `11 - (sum mod 11)` over the first seven digits
      weighted 8 down to 2, where 10 stands for 0 and 11 for 1. */
  function CheckDigit(s: string): (d: nat)
    requires |s| >= 7 && AllDigits(s[..7])
    ensures d <= 9
  {
    assert forall i :: 0 <= i < 7 ==> s[..7][i] == s[i];
    var sum := 8 * Digit(s[0]) + 7 * Digit(s[1]) + 6 * Digit(s[2]) + 5 * Digit(s[3])
               + 4 * Digit(s[4]) + 3 * Digit(s[5]) + 2 * Digit(s[6]);
    var chk := 11 - sum % 11;
    if chk == 10 then 0 else if chk == 11 then 1 else chk
  }

  /** A well-formed identifier: eight ASCII digits whose last one is the check digit. */
  predicate IcoChecksumOk(ico: string) {
    |ico| == 8 && AllDigits(ico) && CheckDigit(ico) == Digit(ico[7])
  }

  /** The weighted sum of the first `n` digits, as the checking loop accumulates it. */
  function PartialSum(s: string, n: nat): nat
    requires n <= 8 && n <= |s| && AllDigits(s)
  {
    if n == 0 then 0 else PartialSum(s, n - 1) + Digit(s[n - 1]) * (8 - (n - 1))
  }

  lemma PartialSumSeven(s: string)
    requires |s| == 8 && AllDigits(s)
    ensures PartialSum(s, 7) == 8 * Digit(s[0]) + 7 * Digit(s[1]) + 6 * Digit(s[2]) + 5 * Digit(s[3])
                                + 4 * Digit(s[4]) + 3 * Digit(s[5]) + 2 * Digit(s[6])
  {
    assert PartialSum(s, 1) == 8 * Digit(s[0]);
    assert PartialSum(s, 3) == PartialSum(s, 2) + 6 * Digit(s[2]);
    assert PartialSum(s, 5) == PartialSum(s, 4) + 4 * Digit(s[4]);
    assert PartialSum(s, 7) == PartialSum(s, 6) + 2 * Digit(s[6]);
  }

  /** `isValidICO`: the format test followed by the summing loop. */
  method IsValidIco(ico: string) returns (ok: bool)
    ensures ok <==> IcoChecksumOk(ico)
  {
    if !(|ico| == 8 && AllDigits(ico)) {
      return false;
    }
    var sum := 0;
    for i := 0 to 7
      invariant sum == PartialSum(ico, i)
    {
      sum := sum + Digit(ico[i]) * (8 - i);
    }
    PartialSumSeven(ico);
    var m := sum % 11;
    var chk := 11 - m;
    if chk == 10 {
      chk := 0;
    } else if chk == 11 {
      chk := 1;
    }
    ok := chk == Digit(ico[7]);
  }

  /** Two identifiers worked by hand: 25596641 (weighted sum 176, remainder 0, check 11
      read as 1) is accepted, and changing its last digit makes it fail. */
  lemma IcoExamples()
    ensures IcoChecksumOk("25596641")
    ensures !IcoChecksumOk("25596642")
    ensures !IcoChecksumOk("2559664")
  {
    assert AllDigits("25596641");
    assert AllDigits("25596642");
    assert CheckDigit("25596641") == 1;
    assert CheckDigit("25596642") == 1;
  }

  /** The gate of `onIcoChanged`: the registry and the cache are consulted only for a
      cleaned value of eight digits that passes the check. */
  predicate IcoLookupAllowed(raw: string) {
    var ico := SanitizeIco(raw);
    |ico| == 8 && IcoChecksumOk(ico)
  }

  /** A value the registry lookup accepts has at least eight digits, the first eight of
      which are a well-formed identifier; any other character is ignored. */
  lemma LookupAllowedMeans(raw: string)
    ensures IcoLookupAllowed(raw) <==> |DigitsOnly(raw)| >= 8 && IcoChecksumOk(DigitsOnly(raw)[..8])
  {
  }

  /** The registered office (`sidlo`) of a registry record. */
  datatype Sidlo = Sidlo(
    nazevUlice: Option<string>,     // street name
    cisloDomovni: Option<Scalar>,   // house number
    nazevCastiObce: Option<string>, // part of the municipality
    nazevObce: Option<string>,      // municipality
    psc: Option<Scalar>)            // postal code

  /** The part of a registry record the widget reads. */
  datatype AresRecord = AresRecord(
    obchodniJmeno: Option<string>,  // legal name
    dic: Option<string>,            // VAT id
    sidlo: Option<Sidlo>)

  /** The values `consumeAres` writes into the form; an empty one is not written. */
  datatype CompanyFill = CompanyFill(vatId: string, company: string, street: string, city: string, zip: string)

  const NoSidlo := Sidlo(None, None, None, None, None)

  /** The street line of `consumeAres`: the street name, the house number, and the part of
      the municipality when there is no street name, joined by spaces and trimmed. */
  function AresStreet(s: Sidlo): (r: string)
    ensures Trimmed(r)
  {
    var parts :=
      (if OrEmpty(s.nazevUlice) != "" then [OrEmpty(s.nazevUlice)] else [])
      + (if Truthy(s.cisloDomovni) then [ScalarText(s.cisloDomovni.value)] else [])
      + (if OrEmpty(s.nazevUlice) == "" && OrEmpty(s.nazevCastiObce) != "" then [OrEmpty(s.nazevCastiObce)] else []);
    Trim(Join(parts, " "))
  }

  /** The postal code of `consumeAres`: its text with all white space removed. */
  function AresZip(s: Sidlo): (r: string)
    ensures NoSpace(r)
  {
    RemoveSpaces(if Truthy(s.psc) then ScalarText(s.psc.value) else "")
  }

  /** `consumeAres` as a value: nothing unless the record has a legal name; otherwise the
      VAT id, the name, and the street, municipality and postal code of the registered office. */
  function ConsumeAres(data: AresRecord): (r: Option<CompanyFill>)
    ensures r.Some? <==> OrEmpty(data.obchodniJmeno) != ""
    ensures r.Some? ==> r.value.company == data.obchodniJmeno.value && r.value.vatId == OrEmpty(data.dic)
    ensures r.Some? ==> Trimmed(r.value.street) && NoSpace(r.value.zip)
    ensures r.Some? ==> r.value.city == OrEmpty(data.sidlo.GetOr(NoSidlo).nazevObce)
    ensures r.Some? ==> r.value.street == AresStreet(data.sidlo.GetOr(NoSidlo)) && r.value.zip == AresZip(data.sidlo.GetOr(NoSidlo))
  {
    if OrEmpty(data.obchodniJmeno) == "" then None
    else
      var s := data.sidlo.GetOr(NoSidlo);
      Some(CompanyFill(OrEmpty(data.dic), OrEmpty(data.obchodniJmeno), AresStreet(s), OrEmpty(s.nazevObce), AresZip(s)))
  }

  /** Two non-empty parts without white space at their ends join into a trimmed line. */
  lemma JoinPairTrimmed(a: string, b: string)
    requires a != "" && b != "" && Trimmed(a) && Trimmed(b)
    ensures Trim(Join([a, b], " ")) == a + " " + b
  {
    var parts := [a, b];
    assert parts[1..] == [b];
    var line := a + " " + b;
    assert Join(parts, " ") == line;
    assert line[|line| - 1] == b[|b| - 1];
    assert line[0] == a[0];
    TrimOfTrimmed(line);
  }

  lemma DecimalTrimmed(n: nat)
    ensures Trimmed(NatToDecimal(n))
  {
    var d := NatToDecimal(n);
    assert IsDigit(d[0]) && IsDigit(d[|d| - 1]);
  }

  /** With a street name and a numeric house number, the street line is "<street> <number>". */
  lemma AresStreetWithStreetName(s: Sidlo, name: string, n: nat)
    requires s.nazevUlice == Some(name) && name != "" && Trimmed(name)
    requires s.cisloDomovni == Some(Num(n)) && n != 0
    ensures AresStreet(s) == name + " " + NatToDecimal(n)
  {
    var d := NatToDecimal(n);
    assert Truthy(s.cisloDomovni) && ScalarText(s.cisloDomovni.value) == d;
    assert ([name] + [d]) + [] == [name, d];
    DecimalTrimmed(n);
    JoinPairTrimmed(name, d);
  }

  /** Without a street name the number comes first: the line is "<number> <part of municipality>". */
  lemma AresStreetWithoutStreetName(s: Sidlo, part: string, n: nat)
    requires OrEmpty(s.nazevUlice) == ""
    requires s.nazevCastiObce == Some(part) && part != "" && Trimmed(part)
    requires s.cisloDomovni == Some(Num(n)) && n != 0
    ensures AresStreet(s) == NatToDecimal(n) + " " + part
  {
    var d := NatToDecimal(n);
    assert Truthy(s.cisloDomovni) && ScalarText(s.cisloDomovni.value) == d;
    assert ([] + [d]) + [part] == [d, part];
    DecimalTrimmed(n);
    JoinPairTrimmed(d, part);
  }

  /** A street name without a house number is the whole street line, trimmed. */
  lemma AresStreetNameOnly(s: Sidlo, name: string)
    requires s.nazevUlice == Some(name) && name != "" && !Truthy(s.cisloDomovni)
    ensures AresStreet(s) == Trim(name)
  {
    assert ([name] + []) + [] == [name];
  }

  /** With a street name present, the part of the municipality plays no role. */
  lemma AresStreetIgnoresPart(s: Sidlo, part: Option<string>)
    requires OrEmpty(s.nazevUlice) != ""
    ensures AresStreet(s) == AresStreet(s.(nazevCastiObce := part))
  {
  }

  /** A numeric postal code is written as its decimal digits. */
  lemma AresZipOfNumber(s: Sidlo, n: nat)
    requires s.psc == Some(Num(n)) && n != 0
    ensures AresZip(s) == NatToDecimal(n)
  {
    RemoveSpacesOfDigits(NatToDecimal(n));
  }

  /** The ids of the fields the widget fills. */
  datatype AresFields = AresFields(
    vatId: string, company: string, street: string, city: string, zip: string, country: Option<string>)

  const DefaultFields := AresFields("vatId", "billCompany", "billStreet", "billCity", "billZip", Some("billCountryId"))

  /** `applyValue(id, val)`: a non-empty value goes into a field the page has, which is then
      marked valid with it; otherwise nothing happens. */
  function ApplyValue(f: Form, id: string, val: string): (g: Form)
    ensures g.values.Keys == f.values.Keys
    ensures id in f.values && val != "" ==> g.values[id] == val && id in g.validated && g.validated[id] == val
  {
    if id in f.values && val != "" then Form(f.values[id := val], f.validated[id := val]) else f
  }

  /** The five text fields `consumeAres` writes, with their values, in the order it writes them. */
  function Writes(ids: AresFields, fill: CompanyFill): seq<(string, string)> {
    [(ids.vatId, fill.vatId), (ids.company, fill.company), (ids.street, fill.street),
     (ids.city, fill.city), (ids.zip, fill.zip)]
  }

  /** `applyValue` for each write in turn. */
  function ApplyAll(f: Form, ws: seq<(string, string)>): (g: Form)
    ensures g.values.Keys == f.values.Keys
    decreases |ws|
  {
    if ws == [] then f else ApplyAll(ApplyValue(f, ws[0].0, ws[0].1), ws[1..])
  }

  /** The writes of `consumeAres` for a record with a legal name: the five text fields in
      order, then the country select set to its "CZ" option when the page has both. */
  function ApplyCompany(f: Form, ids: AresFields, fill: CompanyFill, czOption: Option<string>): (g: Form)
    ensures g.values.Keys == f.values.Keys
    ensures ids.country.Some? && ids.country.value in f.values && czOption.Some? ==>
      g.values[ids.country.value] == czOption.value && ids.country.value in g.validated
      && g.validated[ids.country.value] == czOption.value
  {
    var g := ApplyAll(f, Writes(ids, fill));
    if ids.country.Some? && ids.country.value in g.values && czOption.Some? then
      Form(g.values[ids.country.value := czOption.value], g.validated[ids.country.value := czOption.value])
    else g
  }

  /** `consumeAres` on the form. */
  function Consume(f: Form, ids: AresFields, data: AresRecord, czOption: Option<string>): (g: Form)
    ensures g.values.Keys == f.values.Keys
    ensures OrEmpty(data.obchodniJmeno) == "" ==> g == f
  {
    match ConsumeAres(data)
    case None => f
    case Some(fill) => ApplyCompany(f, ids, fill, czOption)
  }

  predicate DistinctTargets(ws: seq<(string, string)>) {
    forall i, j :: 0 <= i < j < |ws| ==> ws[i].0 != ws[j].0
  }

  /** Applying writes to distinct fields: the page keeps its fields; a field that is written
      to holds its value if that is non-empty and is marked valid with it; every other field
      keeps its value. */
  lemma ApplyAllEffect(f: Form, ws: seq<(string, string)>)
    requires DistinctTargets(ws)
    ensures var g := ApplyAll(f, ws);
      && g.values.Keys == f.values.Keys
      && (forall k :: 0 <= k < |ws| && ws[k].0 in f.values ==>
            g.values[ws[k].0] == (if ws[k].1 != "" then ws[k].1 else f.values[ws[k].0]))
      && (forall k :: 0 <= k < |ws| && ws[k].0 in f.values && ws[k].1 != "" ==>
            ws[k].0 in g.validated && g.validated[ws[k].0] == ws[k].1)
      && (forall id :: id in f.values && (forall k :: 0 <= k < |ws| ==> ws[k].0 != id) ==>
            g.values[id] == f.values[id])
      && (forall id :: id in f.validated && (forall k :: 0 <= k < |ws| ==> ws[k].0 != id) ==>
            id in g.validated && g.validated[id] == f.validated[id])
  {
    ApplyAllWrites(f, ws);
    ApplyAllKeepsOthers(f, ws);
  }

  /** Dropping the first write keeps the targets distinct. */
  lemma DistinctTail(ws: seq<(string, string)>)
    requires ws != [] && DistinctTargets(ws)
    ensures DistinctTargets(ws[1..])
    ensures forall k :: 1 <= k < |ws| ==> ws[k] == ws[1..][k - 1] && ws[k].0 != ws[0].0
  {
    var rest := ws[1..];
    forall i, j | 0 <= i < j < |rest| ensures rest[i].0 != rest[j].0 {
      assert rest[i] == ws[i + 1] && rest[j] == ws[j + 1];
    }
  }

  /** A written field that the page has ends with its value if that is non-empty, marked
      valid with it, and keeps its old value otherwise. */
  lemma {:induction false} ApplyAllWrites(f: Form, ws: seq<(string, string)>)
    requires DistinctTargets(ws)
    ensures var g := ApplyAll(f, ws);
      && (forall k :: 0 <= k < |ws| && ws[k].0 in f.values ==>
            g.values[ws[k].0] == (if ws[k].1 != "" then ws[k].1 else f.values[ws[k].0]))
      && (forall k :: 0 <= k < |ws| && ws[k].0 in f.values && ws[k].1 != "" ==>
            ws[k].0 in g.validated && g.validated[ws[k].0] == ws[k].1)
    decreases |ws|
  {
    if ws != [] {
      var f1 := ApplyValue(f, ws[0].0, ws[0].1);
      var rest := ws[1..];
      DistinctTail(ws);
      assert ApplyAll(f, ws) == ApplyAll(f1, rest);
      ApplyAllWrites(f1, rest);
      ApplyAllKeepsOthers(f1, rest);
    }
  }

  /** A field no write targets keeps its value and its mark. */
  lemma {:induction false} ApplyAllKeepsOthers(f: Form, ws: seq<(string, string)>)
    ensures var g := ApplyAll(f, ws);
      && (forall id :: id in f.values && (forall k :: 0 <= k < |ws| ==> ws[k].0 != id) ==>
            g.values[id] == f.values[id])
      && (forall id :: id in f.validated && (forall k :: 0 <= k < |ws| ==> ws[k].0 != id) ==>
            id in g.validated && g.validated[id] == f.validated[id])
    decreases |ws|
  {
    if ws != [] {
      var f1 := ApplyValue(f, ws[0].0, ws[0].1);
      var rest := ws[1..];
      assert ApplyAll(f, ws) == ApplyAll(f1, rest);
      ApplyAllKeepsOthers(f1, rest);
      assert forall k :: 1 <= k < |ws| ==> ws[k] == rest[k - 1];
    }
  }

  /** With distinct field ids, each of the five text fields the page has holds its
      non-empty value from the registry and is marked valid with it, and no field the
      widget does not target changes. */
  lemma ApplyCompanyFills(f: Form, ids: AresFields, fill: CompanyFill, czOption: Option<string>)
    requires DistinctTargets(Writes(ids, fill))
    requires ids.country.Some? ==> forall k :: 0 <= k < 5 ==> Writes(ids, fill)[k].0 != ids.country.value
    ensures var g := ApplyCompany(f, ids, fill, czOption); var ws := Writes(ids, fill);
      && g.values.Keys == f.values.Keys
      && (forall k :: 0 <= k < |ws| && ws[k].0 in f.values && ws[k].1 != "" ==>
            g.values[ws[k].0] == ws[k].1 && ws[k].0 in g.validated && g.validated[ws[k].0] == ws[k].1)
      && (forall id :: (id in f.values && (forall k :: 0 <= k < |ws| ==> ws[k].0 != id)
            && Some(id) != ids.country) ==> g.values[id] == f.values[id])
  {
    ApplyAllEffect(f, Writes(ids, fill));
  }

  /** With the default field ids, a record with a legal name writes that name into the
      company field, when the page has one, and marks it valid with it. */
  lemma DefaultConsumeFillsCompany(f: Form, data: AresRecord)
    requires OrEmpty(data.obchodniJmeno) != "" && DefaultFields.company in f.values
    ensures var g := Consume(f, DefaultFields, data, None);
      && g.values[DefaultFields.company] == data.obchodniJmeno.value
      && DefaultFields.company in g.validated && g.validated[DefaultFields.company] == data.obchodniJmeno.value
  {
    var fill := ConsumeAres(data).value;
    var ws := Writes(DefaultFields, fill);
    assert ws[1] == (DefaultFields.company, data.obchodniJmeno.value);
    assert DistinctTargets(ws) by {
      assert ws[0].0 == "vatId" && ws[1].0 == "billCompany" && ws[2].0 == "billStreet";
      assert ws[3].0 == "billCity" && ws[4].0 == "billZip";
    }
    ApplyCompanyFills(f, DefaultFields, fill, None);
  }

  /** Where `onIcoChanged` stopped. */
  datatype IcoStep =
    | Incomplete       // fewer than eight digits: nothing else happens
    | Rejected         // eight digits failing the check: the valid mark is cleared
    | FilledFromCache  // a cached registry record was written into the form
    | Fetched          // the registry was asked; the outcome decides the rest

  /** The widget's state: the identifier field, the registry cache and the form it fills. */
  class AresValidator {
    const fields: AresFields
    /** The value of the country select's option for "CZ", when the page has one. */
    const czOption: Option<string>
    /** `cache`: registry records by identifier. */
    var cache: map<string, AresRecord>
    /** The identifier field's value. */
    var icoValue: string
    /** The value the identifier field was last marked valid with, if it is marked. */
    var icoValidated: Option<string>
    var form: Form

    constructor (fields: AresFields, czOption: Option<string>, page: map<string, string>, icoValue: string)
      ensures this.fields == fields && this.czOption == czOption
      ensures cache == map[] && this.icoValue == icoValue && icoValidated == None
      ensures form == Form(page, map[])
    {
      this.fields := fields;
      this.czOption := czOption;
      cache := map[];
      this.icoValue := icoValue;
      icoValidated := None;
      form := Form(page, map[]);
    }

    /** The user edits the identifier field (its `input` or `paste` listener): the value
        changes and the valid mark is cleared. The debounced check runs later, as `OnIcoChanged`. */
    method Edit(raw: string)
      modifies this`icoValue, this`icoValidated
      ensures icoValue == raw && icoValidated == None
    {
      icoValue := raw;
      icoValidated := None;
    }

    /** `onIcoChanged`, with the registry's answer given as `outcome` (used only when the
        registry is actually asked). */
    method OnIcoChanged(outcome: FetchOutcome<AresRecord>) returns (step: IcoStep)
      modifies this`icoValue, this`icoValidated, this`cache, this`form
      ensures icoValue == SanitizeIco(old(icoValue))
      ensures step == Incomplete <==> |SanitizeIco(old(icoValue))| != 8
      ensures step == Rejected <==> |SanitizeIco(old(icoValue))| == 8 && !IcoChecksumOk(SanitizeIco(old(icoValue)))
      ensures step == FilledFromCache <==> IcoLookupAllowed(old(icoValue)) && SanitizeIco(old(icoValue)) in old(cache)
      ensures step == Fetched <==> IcoLookupAllowed(old(icoValue)) && SanitizeIco(old(icoValue)) !in old(cache)
      ensures icoValidated == match step
        case Incomplete => old(icoValidated)
        case Rejected => None
        case _ => Some(SanitizeIco(old(icoValue)))
      ensures cache == if step == Fetched && outcome.Ok?
        then old(cache)[SanitizeIco(old(icoValue)) := outcome.body] else old(cache)
      ensures form == match step
        case FilledFromCache => Consume(old(form), fields, old(cache)[SanitizeIco(old(icoValue))], czOption)
        case Fetched => if outcome.Ok? then Consume(old(form), fields, outcome.body, czOption) else old(form)
        case _ => old(form)
    {
      var ico := SanitizeIco(icoValue);
      icoValue := ico;
      if |ico| != 8 {
        return Incomplete;
      }
      var ok := IsValidIco(ico);
      if !ok {
        icoValidated := None;
        return Rejected;
      }
      icoValidated := Some(ico);
      if ico in cache {
        form := Consume(form, fields, cache[ico], czOption);
        return FilledFromCache;
      }
      step := Fetched;
      if outcome.Ok? {
        cache := cache[ico := outcome.body];
        form := Consume(form, fields, outcome.body, czOption);
      }
    }
  }

  /** Checking the same well-formed identifier twice asks the registry once: a successful
      first lookup is cached and the second one is served from the cache, whatever the
      network would have answered, and fills the form again with the same record. */
  method RepeatLookupServedFromCache(page: map<string, string>, raw: string, body: AresRecord, later: FetchOutcome<AresRecord>)
    returns (first: IcoStep, second: IcoStep, filled: Form)
    requires IcoLookupAllowed(raw)
    ensures first == Fetched && second == FilledFromCache
    ensures filled == Consume(Consume(Form(page, map[]), DefaultFields, body, None), DefaultFields, body, None)
    ensures filled.values.Keys == page.Keys
    ensures OrEmpty(body.obchodniJmeno) != "" && DefaultFields.company in page ==>
      filled.values[DefaultFields.company] == body.obchodniJmeno.value
  {
    var v := new AresValidator(DefaultFields, None, page, raw);
    first := v.OnIcoChanged(Ok(body));
    SanitizeIcoIdempotent(raw);
    second := v.OnIcoChanged(later);
    filled := v.form;
    if OrEmpty(body.obchodniJmeno) != "" && DefaultFields.company in page {
      DefaultConsumeFillsCompany(Consume(Form(page, map[]), DefaultFields, body, None), body);
    }
  }

  /** An identifier that fails the gate never reaches the registry or the cache, whatever
      the registry would answer. */
  method NoLookupWithoutValidIco(raw: string, outcome: FetchOutcome<AresRecord>) returns (step: IcoStep, cached: map<string, AresRecord>)
    requires !IcoLookupAllowed(raw)
    ensures step == Incomplete || step == Rejected
    ensures cached == map[]
  {
    var v := new AresValidator(DefaultFields, None, map[], raw);
    step := v.OnIcoChanged(outcome);
    cached := v.cache;
  }
}

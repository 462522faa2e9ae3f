/** The address suggestions of `DKralSeznamAddressAutocomplete` as values: the query sent
    to the Mapy.cz suggest service, the country filter applied to its answer, the one-line
    location shown under each suggestion, and the street, city, postal code and country
    read out of the suggestion the user picks. */
module Suggest {
  import opened Common
  import opened Text

  /** One entry of an item's `regionalStructure`: its `type`, `name` and `isoCode`. */
  datatype RegionalEntry = RegionalEntry(kind: string, name: Option<string>, isoCode: Option<string>)

  /** A suggestion as the service sends it. `regionalStructure` is an array or absent. */
  datatype SuggestItem = SuggestItem(
    name: Option<string>,
    title: Option<string>,
    location: Option<string>,
    zip: Option<Scalar>,
    regionalStructure: Option<seq<RegionalEntry>>)

  /** What `parseAddress` returns. */
  datatype Address = Address(street: string, city: string, zip: string, country: string)

  /** `regionalStructure.find(r => r.type === kind)`: the first entry of that type. */
  function Find(rs: seq<RegionalEntry>, kind: string): (r: Option<RegionalEntry>)
    ensures r.None? <==> forall i :: 0 <= i < |rs| ==> rs[i].kind != kind
    ensures r.Some? ==> exists i :: 0 <= i < |rs| && rs[i] == r.value && r.value.kind == kind
                          && forall j :: 0 <= j < i ==> rs[j].kind != kind
  {
    if rs == [] then None
    else if rs[0].kind == kind then Some(rs[0])
    else
      var r := Find(rs[1..], kind);
      assert forall i :: 1 <= i < |rs| ==> rs[i] == rs[1..][i - 1];
      r
  }

  /** `get(kind)`: the name of the first entry of that type, or "" when there is none or it
      has no name. */
  function Get(rs: seq<RegionalEntry>, kind: string): (r: string)
    ensures (forall i :: 0 <= i < |rs| ==> rs[i].kind != kind) ==> r == ""
    ensures forall i :: 0 <= i < |rs| && rs[i].kind == kind && (forall j :: 0 <= j < i ==> rs[j].kind != kind)
              ==> r == OrEmpty(rs[i].name)
  {
    match Find(rs, kind)
    case None => ""
    case Some(e) => OrEmpty(e.name)
  }

  const StreetKind := "regional.street"
  const AddressKind := "regional.address"
  const MunicipalityKind := "regional.municipality"
  const DistrictKind := "regional.district"
  const CountryKind := "regional.country"

  /** The Czech Republic's own name, which `parseAddress` does not copy into `country`. */
  const CzechName := "Česká republika"

  /** ---------- The postal code in free text ---------- */

  /** The length of the run of white space at `s[i..]`. */
  function SpaceRun(s: string, i: nat): (n: nat)
    requires i <= |s|
    ensures i + n <= |s|
    ensures forall j :: i <= j < i + n ==> IsSpace(s[j])
    ensures i + n == |s| || !IsSpace(s[i + n])
    decreases |s| - i
  {
    if i < |s| && IsSpace(s[i]) then 1 + SpaceRun(s, i + 1) else 0
  }

  /** `/(\d{3}\s*\d{2})/` read as a predicate: it matches at `i`, spanning `n` spaces. */
  ghost predicate ZipAt(s: string, i: nat, n: nat) {
    && i + 3 + n + 2 <= |s|
    && IsDigit(s[i]) && IsDigit(s[i + 1]) && IsDigit(s[i + 2])
    && (forall j :: i + 3 <= j < i + 3 + n ==> IsSpace(s[j]))
    && IsDigit(s[i + 3 + n]) && IsDigit(s[i + 3 + n + 1])
  }

  ghost predicate ZipSomewhereAt(s: string, i: nat) {
    exists n :: ZipAt(s, i, n)
  }

  /** The test at one position, without choosing the number of spaces: since a digit is
      not white space, only the longest run of spaces can be followed by two digits. */
  predicate ZipStartsAt(s: string, i: nat)
    requires i <= |s|
  {
    && i + 3 <= |s|
    && IsDigit(s[i]) && IsDigit(s[i + 1]) && IsDigit(s[i + 2])
    && var n := SpaceRun(s, i + 3);
       i + 3 + n + 2 <= |s| && IsDigit(s[i + 3 + n]) && IsDigit(s[i + 3 + n + 1])
  }

  /** The five digits of a match at `i`, its white space removed. */
  function ZipDigitsAt(s: string, i: nat): (r: string)
    requires i <= |s| && ZipStartsAt(s, i)
    ensures |r| == 5 && AllDigits(r)
  {
    var n := SpaceRun(s, i + 3);
    [s[i], s[i + 1], s[i + 2], s[i + 3 + n], s[i + 3 + n + 1]]
  }

  lemma ZipStartsAtIsPattern(s: string, i: nat)
    requires i <= |s|
    ensures ZipStartsAt(s, i) <==> ZipSomewhereAt(s, i)
  {
    if ZipSomewhereAt(s, i) {
      var n :| ZipAt(s, i, n);
      assert n == SpaceRun(s, i + 3);
    }
    if ZipStartsAt(s, i) {
      assert ZipAt(s, i, SpaceRun(s, i + 3));
    }
  }

  /** The leftmost match at or after `i`, as its five digits. */
  function FindZipFrom(s: string, i: nat): (r: Option<string>)
    requires i <= |s|
    ensures r.Some? ==> exists k :: i <= k <= |s| && ZipStartsAt(s, k) && r.value == ZipDigitsAt(s, k)
                          && forall j :: i <= j < k ==> !ZipStartsAt(s, j)
    ensures r.None? ==> forall k :: i <= k <= |s| ==> !ZipStartsAt(s, k)
    decreases |s| - i
  {
    if i + 3 > |s| then None
    else if ZipStartsAt(s, i) then Some(ZipDigitsAt(s, i))
    else FindZipFrom(s, i + 1)
  }

  /** `text.match(/(\d{3}\s*\d{2})/)`, with the white space of the match removed. */
  function FindZip(s: string): (r: Option<string>)
    ensures r.Some? ==> |r.value| == 5 && AllDigits(r.value)
  {
    FindZipFrom(s, 0)
  }

  /** A match of the regular expression is found whenever there is one, and the first one
      is taken. */
  lemma FindZipIsLeftmostMatch(s: string)
    ensures FindZip(s).None? <==> forall k :: 0 <= k <= |s| ==> !ZipSomewhereAt(s, k)
    ensures FindZip(s).Some? ==>
              exists k :: (&& 0 <= k <= |s| && ZipSomewhereAt(s, k)
                           && ZipStartsAt(s, k) && FindZip(s).value == ZipDigitsAt(s, k)
                           && (forall j :: 0 <= j < k ==> !ZipSomewhereAt(s, j)))
  {
    forall k | 0 <= k <= |s| {
      ZipStartsAtIsPattern(s, k);
    }
  }

  /** ---------- parseAddress ---------- */

  /** The street line of a structured item: street name and house number, each only when
      present, joined by a space and trimmed; failing that, the item's name. */
  function StructuredStreet(item: SuggestItem, rs: seq<RegionalEntry>): (r: string)
    ensures r == OrEmpty(item.name) || (r != "" && Trimmed(r))
  {
    var line := Trim(Join(NonEmpty([Get(rs, StreetKind), Get(rs, AddressKind)]), " "));
    if line != "" then line else OrEmpty(item.name)
  }

  /** The street and city of a free-text item: the two trimmed halves of its name around
      the first comma (more commas are ignored after the second part), or the whole name as
      the street; a missing city is taken from the first part of `location`. */
  function FreeTextStreetCity(name: string, loc: string): (r: (string, string))
    ensures ',' in name ==> r.0 == Trim(name[..IndexOf(name, ',')])
    ensures ',' in name ==> |Split(name, ',')| > 1 && r.1 == (var b := Trim(Split(name, ',')[1]);
      if b != "" || loc == "" then b else Trim(Split(loc, ',')[0]))
    ensures ',' !in name ==> r.0 == name && r.1 == (if loc != "" then Trim(Split(loc, ',')[0]) else "")
    ensures Trimmed(r.1)
  {
    var parts := Split(name, ',');
    var street := if ',' in name then Trim(parts[0]) else name;
    assert ',' in name ==> |parts| > 1 && parts[0] == name[..IndexOf(name, ',')] by {
      if ',' in name { SplitAtFirst(name, ','); }
    }
    var city := if ',' in name && |parts| > 1 then Trim(parts[1]) else "";
    if city == "" && loc != "" then (street, Trim(Split(loc, ',')[0])) else (street, city)
  }

  /** `parseAddress`. */
  function ParseAddress(item: SuggestItem): (r: Address)
    ensures item.regionalStructure.Some? ==>
      var rs := item.regionalStructure.value;
      && r.city == Get(rs, MunicipalityKind)
      && NoSpace(r.zip)
      && (Truthy(item.zip) ==> r.zip == RemoveSpaces(ScalarText(item.zip.value)))
      && (!Truthy(item.zip) ==> r.zip == "")
      && (r.country == "CZ" || (r.country == Get(rs, CountryKind) && r.country != CzechName))
    ensures item.regionalStructure.None? ==>
      var name := OrEmpty(item.name);
      var loc := OrEmpty(item.location);
      var z := FindZip(name + " " + loc);
      && r.zip == (if z.Some? then z.value else "")
      && (r.zip == "" || (|r.zip| == 5 && AllDigits(r.zip)))
      && (',' in name ==> r.street == Trim(name[..IndexOf(name, ',')]))
      && (',' !in name ==> r.street == name && r.city == (if loc != "" then Trim(Split(loc, ',')[0]) else ""))
      && (',' in name ==> |Split(name, ',')| > 1 && r.city == (var b := Trim(Split(name, ',')[1]);
        if b != "" || loc == "" then b else Trim(Split(loc, ',')[0])))
      && r.country == "CZ"
  {
    match item.regionalStructure
    case Some(rs) =>
      var c := Get(rs, CountryKind);
      Address(
        StructuredStreet(item, rs),
        Get(rs, MunicipalityKind),
        if Truthy(item.zip) then RemoveSpaces(ScalarText(item.zip.value)) else "",
        if c != "" && c != CzechName then c else "CZ")
    case None =>
      var name := OrEmpty(item.name);
      var loc := OrEmpty(item.location);
      var sc := FreeTextStreetCity(name, loc);
      var z := FindZip(name + " " + loc);
      Address(sc.0, sc.1, if z.Some? then z.value else "", "CZ")
  }

  /** A structured item with a street name and a house number becomes "<street> <number>",
      in its municipality. */
  lemma ParseStructuredStreetAndNumber(item: SuggestItem, street: string, number: string)
    requires item.regionalStructure.Some?
    requires Get(item.regionalStructure.value, StreetKind) == street && street != "" && Trimmed(street)
    requires Get(item.regionalStructure.value, AddressKind) == number && number != "" && Trimmed(number)
    ensures ParseAddress(item).street == street + " " + number
  {
    var parts := [street, number];
    assert NonEmpty(parts) == parts by {
      assert parts[1..] == [number];
      assert NonEmpty(parts[1..]) == [number] by {
        assert parts[1..][1..] == [];
      }
    }
    assert parts[1..] == [number];
    var line := street + " " + number;
    assert Join(parts, " ") == line;
    assert line[0] == street[0] && line[|line| - 1] == number[|number| - 1];
    TrimOfTrimmed(line);
  }

  /** A street name without a house number is the street line on its own. */
  lemma ParseStructuredStreetOnly(item: SuggestItem, street: string)
    requires item.regionalStructure.Some?
    requires Get(item.regionalStructure.value, StreetKind) == street && street != "" && Trimmed(street)
    requires Get(item.regionalStructure.value, AddressKind) == ""
    ensures ParseAddress(item).street == street
  {
    var parts := [street, ""];
    assert parts[1..] == [""];
    assert NonEmpty(parts[1..]) == [] by {
      assert parts[1..][1..] == [];
    }
    assert NonEmpty(parts) == [street];
    TrimOfTrimmed(street);
  }

  /** A house number without a street name (a place with numbered buildings only) is the
      street line on its own. */
  lemma ParseStructuredNumberOnly(item: SuggestItem, number: string)
    requires item.regionalStructure.Some?
    requires Get(item.regionalStructure.value, StreetKind) == ""
    requires Get(item.regionalStructure.value, AddressKind) == number && number != "" && Trimmed(number)
    ensures ParseAddress(item).street == number
  {
    var parts := ["", number];
    assert parts[1..] == [number];
    assert NonEmpty(parts[1..]) == [number] by {
      assert parts[1..][1..] == [];
    }
    assert NonEmpty(parts) == [number];
    TrimOfTrimmed(number);
  }

  /** Without a street name or a house number the street line is the item's name. */
  lemma ParseStructuredFallsBackToName(item: SuggestItem)
    requires item.regionalStructure.Some?
    requires Get(item.regionalStructure.value, StreetKind) == ""
    requires Get(item.regionalStructure.value, AddressKind) == ""
    ensures ParseAddress(item).street == OrEmpty(item.name)
  {
    var parts := ["", ""];
    assert parts[1..] == [""];
    assert NonEmpty(parts[1..]) == [] by {
      assert parts[1..][1..] == [];
    }
    assert NonEmpty(parts) == [];
    assert Trim("") == "";
  }

  /** A country other than the Czech Republic is copied by name; otherwise it is "CZ". */
  lemma ParseStructuredCountry(item: SuggestItem)
    requires item.regionalStructure.Some?
    ensures var c := Get(item.regionalStructure.value, CountryKind);
      ParseAddress(item).country == (if c == "" || c == CzechName then "CZ" else c)
  {
  }

  /** A string with one separator splits into the two sides of it. */
  lemma SplitTwo(a: string, sep: char, b: string)
    requires sep !in a && sep !in b
    ensures Split(a + [sep] + b, sep) == [a, b]
  {
    var s := a + [sep] + b;
    IndexOfAfterPrefix(a, sep, b);
    assert s[..|a|] == a;
    assert s[|a| + 1..] == b;
    assert IndexOf(b, sep) < 0;
  }

  /** One leading space goes, as `trim` removes it. */
  lemma TrimOneLeadingSpace(c: char, city: string)
    requires IsSpace(c) && Trimmed(city)
    ensures Trim([c] + city) == city
  {
    assert ([c] + city)[1..] == city;
    assert TrimStart([c] + city) == TrimStart(city);
    TrimOfTrimmed(city);
  }

  lemma FreeTextWithComma(street: string, city: string, loc: string)
    requires ',' !in street && ',' !in city && Trimmed(street) && Trimmed(city)
    ensures var sc := FreeTextStreetCity(street + [','] + ([' '] + city), loc);
      && sc.0 == street && (city != "" ==> sc.1 == city)
      && (city == "" ==> sc.1 == if loc != "" then Trim(Split(loc, ',')[0]) else "")
  {
    var rest := [' '] + city;
    var name := street + [','] + rest;
    assert ',' !in rest;
    SplitTwo(street, ',', rest);
    assert name[|street|] == ',';
    TrimOfTrimmed(street);
    TrimOneLeadingSpace(' ', city);
  }

  /** A free-text item "<street>, <city>" is split at the comma. */
  lemma ParseFreeTextWithComma(item: SuggestItem, street: string, city: string)
    requires item.regionalStructure.None?
    requires ',' !in street && ',' !in city && Trimmed(street) && Trimmed(city)
    requires item.name == Some(street + ", " + city)
    ensures ParseAddress(item).street == street
    ensures city != "" ==> ParseAddress(item).city == city
    ensures city == "" ==> var loc := OrEmpty(item.location);
      ParseAddress(item).city == if loc != "" then Trim(Split(loc, ',')[0]) else ""
  {
    assert street + ", " + city == street + [','] + ([' '] + city);
    FreeTextWithComma(street, city, OrEmpty(item.location));
  }

  /** ---------- formatLocation ---------- */

  /** `formatLocation`: municipality, district and country, each only when present, the
      district only when it differs from the municipality, joined by ", ". */
  function FormatLocation(item: SuggestItem): (r: string)
    ensures item.regionalStructure.None? ==> r == ""
  {
    match item.regionalStructure
    case None => ""
    case Some(rs) =>
      var m := Get(rs, MunicipalityKind);
      var d := Get(rs, DistrictKind);
      var c := Get(rs, CountryKind);
      Join((if m != "" then [m] else []) + (if d != "" && d != m then [d] else []) + (if c != "" then [c] else []), ", ")
  }

  lemma JoinNonEmptyParts(parts: seq<string>, sep: string)
    requires forall i :: 0 <= i < |parts| ==> parts[i] != ""
    ensures Join(parts, sep) == "" <==> parts == []
  {
    if |parts| >= 2 {
      assert |Join(parts, sep)| >= |parts[0]|;
    }
  }

  /** The location line is empty exactly when the item has no municipality, district or
      country name. */
  lemma FormatLocationEmpty(item: SuggestItem)
    requires item.regionalStructure.Some?
    ensures var rs := item.regionalStructure.value;
      FormatLocation(item) == "" <==>
        Get(rs, MunicipalityKind) == "" && Get(rs, DistrictKind) == "" && Get(rs, CountryKind) == ""
  {
    var rs := item.regionalStructure.value;
    var m := Get(rs, MunicipalityKind);
    var d := Get(rs, DistrictKind);
    var c := Get(rs, CountryKind);
    var parts := (if m != "" then [m] else []) + (if d != "" && d != m then [d] else []) + (if c != "" then [c] else []);
    assert forall i :: 0 <= i < |parts| ==> parts[i] != "";
    JoinNonEmptyParts(parts, ", ");
  }

  /** A district named like its municipality is not repeated. */
  lemma FormatLocationSkipsRepeatedDistrict(item: SuggestItem)
    requires item.regionalStructure.Some?
    requires var rs := item.regionalStructure.value;
      Get(rs, MunicipalityKind) != "" && Get(rs, DistrictKind) == Get(rs, MunicipalityKind) && Get(rs, CountryKind) != ""
    ensures var rs := item.regionalStructure.value;
      FormatLocation(item) == Get(rs, MunicipalityKind) + ", " + Get(rs, CountryKind)
  {
    var rs := item.regionalStructure.value;
    var m, c := Get(rs, MunicipalityKind), Get(rs, CountryKind);
    assert FormatLocation(item) == Join([m] + [] + [c], ", ");
    assert [m] + [] + [c] == [m, c];
    assert [m, c][1..] == [c];
    assert Join([m, c], ", ") == m + ", " + Join([c], ", ");
  }

  /** All three names, with a distinct district, appear in order. */
  lemma FormatLocationAllThree(item: SuggestItem)
    requires item.regionalStructure.Some?
    requires var rs := item.regionalStructure.value;
      Get(rs, MunicipalityKind) != "" && Get(rs, DistrictKind) != "" && Get(rs, CountryKind) != ""
      && Get(rs, DistrictKind) != Get(rs, MunicipalityKind)
    ensures var rs := item.regionalStructure.value;
      FormatLocation(item) == Get(rs, MunicipalityKind) + ", " + Get(rs, DistrictKind) + ", " + Get(rs, CountryKind)
  {
    var rs := item.regionalStructure.value;
    var m, d, c := Get(rs, MunicipalityKind), Get(rs, DistrictKind), Get(rs, CountryKind);
    assert FormatLocation(item) == Join([m] + [d] + [c], ", ");
    assert [m] + [d] + [c] == [m, d, c];
    assert [m, d, c][1..] == [d, c];
    assert [d, c][1..] == [c];
    assert Join([d, c], ", ") == d + ", " + Join([c], ", ");
    assert Join([m, d, c], ", ") == m + ", " + Join([d, c], ", ");
  }

  /** ---------- The country filter ---------- */

  /** The country names accepted whatever the locality list says. */
  const NameAllow: set<string> := {"Česká republika", "Czechia", "Czech Republic", "Slovensko", "Slovakia"}

  /** `allow`: the locality codes, upper-cased. */
  function AllowCodes(locality: seq<string>): (r: set<string>)
    ensures forall c :: c in locality ==> ToUpper(c) in r
    ensures forall u :: u in r ==> exists c :: c in locality && ToUpper(c) == u
  {
    set c | c in locality :: ToUpper(c)
  }

  /** The test of `postFilterByCountry` for one item: kept when it has no structure, no
      country entry, an ISO code in the locality list (ignoring case) or an accepted name. */
  predicate KeepItem(allow: set<string>, item: SuggestItem) {
    match item.regionalStructure
    case None => true
    case Some(rs) =>
      match Find(rs, CountryKind)
      case None => true
      case Some(country) =>
        || (OrEmpty(country.isoCode) != "" && ToUpper(OrEmpty(country.isoCode)) in allow)
        || (OrEmpty(country.name) != "" && OrEmpty(country.name) in NameAllow)
  }

  /** `items.filter(...)` with that test. */
  function FilterItems(allow: set<string>, items: seq<SuggestItem>): (r: seq<SuggestItem>)
    ensures |r| <= |items|
    ensures forall i :: 0 <= i < |r| ==> KeepItem(allow, r[i]) && r[i] in items
  {
    if items == [] then []
    else (if KeepItem(allow, items[0]) then [items[0]] else []) + FilterItems(allow, items[1..])
  }

  /** `postFilterByCountry`, with the configured locality list as `locality`. */
  function PostFilterByCountry(locality: Option<seq<string>>, items: seq<SuggestItem>): (r: seq<SuggestItem>)
    ensures locality.None? || locality == Some([]) ==> r == items
    ensures |r| <= |items| && forall i :: 0 <= i < |r| ==> r[i] in items
  {
    if locality.None? || |locality.value| == 0 then items
    else FilterItems(AllowCodes(locality.value), items)
  }

  /** `a` is `b` with some elements left out, the rest in their order. */
  predicate Subsequence<T(==)>(a: seq<T>, b: seq<T>)
    decreases |b|
  {
    if a == [] then true
    else if b == [] then false
    else (a[0] == b[0] && Subsequence(a[1..], b[1..])) || Subsequence(a, b[1..])
  }

  lemma {:induction false} SubsequenceOfSelf<T>(a: seq<T>)
    ensures Subsequence(a, a)
    decreases |a|
  {
    if a != [] {
      SubsequenceOfSelf(a[1..]);
    }
  }

  /** The filter keeps the items that pass its test, in their order, and no others. */
  lemma {:induction false} FilterItemsSubsequence(allow: set<string>, items: seq<SuggestItem>)
    ensures Subsequence(FilterItems(allow, items), items)
    ensures forall i :: 0 <= i < |items| && KeepItem(allow, items[i]) ==> items[i] in FilterItems(allow, items)
    decreases |items|
  {
    if items != [] {
      var rest := FilterItems(allow, items[1..]);
      FilterItemsSubsequence(allow, items[1..]);
      assert forall i :: 1 <= i < |items| ==> items[i] == items[1..][i - 1];
      if KeepItem(allow, items[0]) {
        assert FilterItems(allow, items) == [items[0]] + rest;
        assert ([items[0]] + rest)[1..] == rest;
      } else {
        assert FilterItems(allow, items) == rest;
      }
    }
  }

  /** Every country-tagged item whose ISO code is among `codes`, ignoring case, or whose
      country name is accepted, is kept by the filter. */
  ghost predicate PostFilterKeepsAllowed(codes: seq<string>, items: seq<SuggestItem>) {
    forall i :: 0 <= i < |items| && items[i].regionalStructure.Some? && Find(items[i].regionalStructure.value, CountryKind).Some? ==>
      var country := Find(items[i].regionalStructure.value, CountryKind).value;
      (|| (exists c :: c in codes && OrEmpty(country.isoCode) != "" && ToUpper(c) == ToUpper(OrEmpty(country.isoCode)))
       || (OrEmpty(country.name) != "" && OrEmpty(country.name) in NameAllow))
      ==> items[i] in PostFilterByCountry(Some(codes), items)
  }

  lemma PostFilterKeepsAllowedHolds(codes: seq<string>, items: seq<SuggestItem>)
    requires |codes| > 0
    ensures PostFilterKeepsAllowed(codes, items)
  {
    FilterItemsSubsequence(AllowCodes(codes), items);
    forall i | 0 <= i < |items| && items[i].regionalStructure.Some? && Find(items[i].regionalStructure.value, CountryKind).Some?
      ensures var country := Find(items[i].regionalStructure.value, CountryKind).value;
        (|| (exists c :: c in codes && OrEmpty(country.isoCode) != "" && ToUpper(c) == ToUpper(OrEmpty(country.isoCode)))
         || (OrEmpty(country.name) != "" && OrEmpty(country.name) in NameAllow))
        ==> items[i] in PostFilterByCountry(Some(codes), items)
    {
      var country := Find(items[i].regionalStructure.value, CountryKind).value;
      if exists c :: c in codes && OrEmpty(country.isoCode) != "" && ToUpper(c) == ToUpper(OrEmpty(country.isoCode)) {
        var c :| c in codes && OrEmpty(country.isoCode) != "" && ToUpper(c) == ToUpper(OrEmpty(country.isoCode));
        assert ToUpper(c) in AllowCodes(codes);
      }
    }
  }

  /** The filter is an order-preserving selection of its input; it is the identity without a
      locality list; items without a country entry are always kept; a country-tagged item is
      kept exactly when its ISO code is among the codes, ignoring case, or its name is accepted
      (the fourth clause gives one direction, the fifth the other). */
  lemma PostFilterProperties(locality: Option<seq<string>>, items: seq<SuggestItem>)
    ensures Subsequence(PostFilterByCountry(locality, items), items)
    ensures locality.None? || locality == Some([]) ==> PostFilterByCountry(locality, items) == items
    ensures forall i :: 0 <= i < |items| && (items[i].regionalStructure.None?
                          || Find(items[i].regionalStructure.value, CountryKind).None?)
              ==> items[i] in PostFilterByCountry(locality, items)
    ensures locality.Some? && |locality.value| > 0 ==>
      forall it :: it in PostFilterByCountry(locality, items) ==>
        it.regionalStructure.None? || Find(it.regionalStructure.value, CountryKind).None? ||
        var country := Find(it.regionalStructure.value, CountryKind).value;
        || (exists c :: c in locality.value && OrEmpty(country.isoCode) != "" && ToUpper(c) == ToUpper(OrEmpty(country.isoCode)))
        || OrEmpty(country.name) in NameAllow
    ensures locality.Some? && |locality.value| > 0 ==> PostFilterKeepsAllowed(locality.value, items)
  {
    if locality.None? || |locality.value| == 0 {
      SubsequenceOfSelf(items);
    } else {
      FilterItemsSubsequence(AllowCodes(locality.value), items);
      var r := PostFilterByCountry(locality, items);
      forall it | it in r
        ensures KeepItem(AllowCodes(locality.value), it)
      {
        var i :| 0 <= i < |r| && r[i] == it;
      }
      PostFilterKeepsAllowedHolds(locality.value, items);
    }
  }

  /** Lower-casing the codes first, as `setSuggestLocality` does, filters the same items. */
  lemma AllowCodesIgnoreCase(codes: seq<string>)
    ensures AllowCodes(seq(|codes|, i requires 0 <= i < |codes| => ToLower(codes[i]))) == AllowCodes(codes)
  {
    var lowered := seq(|codes|, i requires 0 <= i < |codes| => ToLower(codes[i]));
    forall u | u in AllowCodes(lowered)
      ensures u in AllowCodes(codes)
    {
      var c :| c in lowered && ToUpper(c) == u;
      var i :| 0 <= i < |lowered| && lowered[i] == c;
      UpperOfLower(codes[i]);
    }
    forall u | u in AllowCodes(codes)
      ensures u in AllowCodes(lowered)
    {
      var c :| c in codes && ToUpper(c) == u;
      var i :| 0 <= i < |codes| && codes[i] == c;
      UpperOfLower(codes[i]);
      assert lowered[i] in lowered;
    }
  }

  /** ---------- The query ---------- */

  /** `suggestConfig`. */
  datatype SuggestConfig = SuggestConfig(lang: string, limit: nat, types: seq<string>, locality: Option<seq<string>>)

  /** The configuration the widget starts with (the locality line is commented out). */
  const InitialConfig := SuggestConfig("cs", 7, [AddressKind, StreetKind, MunicipalityKind], None)

  /** What `setSuggestLocality` may be given: nothing, an array of codes, or a
      comma-separated string of them. */
  datatype LocalityInput = NoCodes | CodeList(codes: seq<string>) | CodeString(text: string)

  /** `setSuggestLocality`'s new locality: none for a missing or empty argument, the
      lower-cased codes of an array, or the trimmed, lower-cased pieces of a string. */
  function NormalizeLocality(input: LocalityInput): (r: Option<seq<string>>)
    ensures input.CodeList? ==> r.Some? && |r.value| == |input.codes|
    ensures input.CodeString? && input.text != "" ==> r.Some? && |r.value| == |Split(input.text, ',')|
    ensures input.NoCodes? || input == CodeString("") ==> r.None?
    ensures input.CodeList? ==> forall i :: 0 <= i < |input.codes| ==> r.value[i] == ToLower(input.codes[i])
    ensures input.CodeString? && input.text != "" ==>
      var pieces := Split(input.text, ',');
      forall i :: 0 <= i < |pieces| ==> r.value[i] == ToLower(Trim(pieces[i]))
    ensures r.Some? ==> forall i :: 0 <= i < |r.value| ==> forall j :: 0 <= j < |r.value[i]| ==> !('A' <= r.value[i][j] <= 'Z')
  {
    match input
    case NoCodes => None
    case CodeList(codes) => Some(seq(|codes|, i requires 0 <= i < |codes| => ToLower(codes[i])))
    case CodeString(text) =>
      if text == "" then None
      else
        var pieces := Split(text, ',');
        Some(seq(|pieces|, i requires 0 <= i < |pieces| => ToLower(Trim(pieces[i]))))
  }

  /** A lower-case string is its own lower case. */
  lemma ToLowerOfLower(s: string)
    requires forall j :: 0 <= j < |s| ==> !('A' <= s[j] <= 'Z')
    ensures ToLower(s) == s
  {
  }

  /** Codes that are lower-case, trimmed and free of commas come back unchanged from the
      comma-separated string that lists them. */
  lemma NormalizeLocalityOfJoin(codes: seq<string>)
    requires |codes| >= 1 && Join(codes, ",") != ""
    requires forall i :: 0 <= i < |codes| ==> ',' !in codes[i] && Trimmed(codes[i])
    requires forall i :: 0 <= i < |codes| ==> forall j :: 0 <= j < |codes[i]| ==> !('A' <= codes[i][j] <= 'Z')
    ensures NormalizeLocality(CodeString(Join(codes, ","))) == Some(codes)
  {
    var text := Join(codes, ",");
    SplitJoin(codes, ',');
    var r := NormalizeLocality(CodeString(text));
    forall i | 0 <= i < |codes|
      ensures r.value[i] == codes[i]
    {
      TrimOfTrimmed(codes[i]);
      ToLowerOfLower(codes[i]);
    }
    assert r.value == codes;
  }

  /** The names of the query parameters the widget sends. */
  datatype ParamName = Query | Lang | Limit | Type | Locality {
    function Text(): string {
      match this
      case Query => "query"
      case Lang => "lang"
      case Limit => "limit"
      case Type => "type"
      case Locality => "locality"
    }
  }

  /** `new URLSearchParams(...)` as its list of name and value pairs, in order. */
  type Params = seq<(ParamName, string)>

  /** `params.get(key)` for a name that occurs at most once: its value, or "" without one. */
  function Lookup(p: Params, key: ParamName): string
    decreases |p|
  {
    if p == [] then ""
    else if p[0].0 == key then p[0].1
    else Lookup(p[1..], key)
  }

  predicate HasKey(p: Params, key: ParamName) {
    exists i :: 0 <= i < |p| && p[i].0 == key
  }

  /** `buildSuggestParams`: the query, the language (default "cs") and the limit (default 7),
      then the types and the locality list, each comma-joined and only when non-empty. */
  function BuildSuggestParams(query: string, cfg: SuggestConfig): (p: Params)
    ensures |p| >= 3 && p[0] == (Query, query)
    ensures p[1] == (Lang, if cfg.lang != "" then cfg.lang else "cs")
    ensures p[2] == (Limit, NatToDecimal(if cfg.limit != 0 then cfg.limit else 7))
    ensures HasKey(p, Type) <==> |cfg.types| > 0
    ensures HasKey(p, Locality) <==> cfg.locality.Some? && |cfg.locality.value| > 0
    ensures forall i, j :: 0 <= i < j < |p| ==> p[i].0 != p[j].0
    ensures |cfg.types| > 0 ==> Lookup(p, Type) == Join(cfg.types, ",")
    ensures cfg.locality.Some? && |cfg.locality.value| > 0 ==> Lookup(p, Locality) == Join(cfg.locality.value, ",")
  {
    var base := [(Query, query),
                 (Lang, if cfg.lang != "" then cfg.lang else "cs"),
                 (Limit, NatToDecimal(if cfg.limit != 0 then cfg.limit else 7))];
    var types := if |cfg.types| > 0 then [(Type, Join(cfg.types, ","))] else [];
    var locality := if cfg.locality.Some? && |cfg.locality.value| > 0
                    then [(Locality, Join(cfg.locality.value, ","))] else [];
    var p := base + types + locality;
    assert forall i :: 0 <= i < |p| ==> p[i].0 == (if i < 3 then base[i].0 else if i < 3 + |types| then Type else Locality);
    assert |types| > 0 ==> p[3].0 == Type;
    assert |locality| > 0 ==> p[|p| - 1].0 == Locality;
    assert |types| > 0 ==> Lookup(p, Type) == Join(cfg.types, ",") by {
      if |types| > 0 { LookupUnique(p, 3); }
    }
    assert |locality| > 0 ==> Lookup(p, Locality) == Join(cfg.locality.value, ",") by {
      if |locality| > 0 { LookupUnique(p, |p| - 1); }
    }
    p
  }

  /** The value found for a name that occurs once is the one given with it. */
  lemma LookupUnique(p: Params, i: nat)
    requires i < |p| && forall j :: 0 <= j < |p| && j != i ==> p[j].0 != p[i].0
    ensures Lookup(p, p[i].0) == p[i].1
    decreases |p|
  {
    if i > 0 {
      assert forall j :: 0 <= j < |p[1..]| && j != i - 1 ==> p[1..][j] == p[j + 1];
      LookupUnique(p[1..], i - 1);
    }
  }

  /** The service sees the query as given, and a configured locality list as the
      comma-separated codes it splits back into the same list. */
  lemma BuildSuggestParamsRoundTrip(query: string, cfg: SuggestConfig)
    ensures Lookup(BuildSuggestParams(query, cfg), Query) == query
    ensures cfg.locality.Some? && |cfg.locality.value| > 0
            && (forall i :: 0 <= i < |cfg.locality.value| ==> ',' !in cfg.locality.value[i]) ==>
      Split(Lookup(BuildSuggestParams(query, cfg), Locality), ',') == cfg.locality.value
  {
    var p := BuildSuggestParams(query, cfg);
    if cfg.locality.Some? && |cfg.locality.value| > 0 {
      var k := |p| - 1;
      assert p[k] == (Locality, Join(cfg.locality.value, ","));
      LookupUnique(p, k);
      if forall i :: 0 <= i < |cfg.locality.value| ==> ',' !in cfg.locality.value[i] {
        SplitJoin(cfg.locality.value, ',');
      }
    }
  }
}

/** The controller of `DKralSeznamAddressAutocomplete`: for each street field it debounces
    what the user types, suppresses the search for the value it has just filled in,
    serves repeated queries from its cache, counts the requests that reach the service,
    tracks the highlighted suggestion under the arrow keys, and fills the street, city,
    postal code and country fields from the suggestion the user picks. */
module Autocomplete {
  import opened Common
  import opened Text
  import opened Suggest

  /** The field ids one street field works with (`mappings`): the street field itself and,
      when the page has them, a city, a postal code and a country select. */
  datatype Mapping = Mapping(street: string, city: Option<string>, zip: Option<string>, country: Option<string>)

  /** What the suggestion panel under a street field shows. */
  datatype Panel =
    | Hidden                        // `hideSuggestions`
    | Info(message: string)         // `showInfo`
    | Rows(items: seq<SuggestItem>) // `renderSuggestions`: one row per item

  const Searching := "Vyhledávám…"
  const NoResults := "Žádné výsledky"
  const LoadError := "Chyba načítání"

  /** `minQuery`: shorter queries (in UTF-16 units) hide the panel instead of searching. */
  const MinQuery: nat := 3

  /** The suggestion rows the panel currently shows (`querySelectorAll` on its rows). */
  function RowsOf(p: Panel): seq<SuggestItem> {
    if p.Rows? then p.items else []
  }

  /** `Array.isArray(data.items) ? data.items : []`. */
  function ResponseItems(body: Option<seq<SuggestItem>>): seq<SuggestItem> {
    body.GetOr([])
  }

  /** ---------- searchAddresses ---------- */

  /** What one search changes: the cache, the request counter, the panel of the field that
      searched, and the request sent to the service, if one was. */
  datatype SearchEffect = SearchEffect(
    cache: map<string, seq<SuggestItem>>,
    usage: nat,
    panel: Panel,
    sent: Option<Params>)

  /** `searchAddresses(query)` with the service's answer given as `outcome`: a cached query is
      rendered from the cache; otherwise the request is sent and, on success, counted and
      its country-filtered items cached and shown ("no results" when none is left); an HTTP
      or network failure shows an error; an aborted request leaves the "searching" notice
      for the newer request to replace. */
  function Search(cache: map<string, seq<SuggestItem>>, usage: nat, cfg: SuggestConfig, q: string,
                  outcome: FetchOutcome<Option<seq<SuggestItem>>>): (e: SearchEffect)
    ensures e.sent.Some? <==> q !in cache
    ensures e.usage == usage + (if q !in cache && outcome.Ok? then 1 else 0)
  {
    if q in cache then SearchEffect(cache, usage, Rows(cache[q]), None)
    else
      var sent := Some(BuildSuggestParams(q, cfg));
      match outcome
      case Ok(body) =>
        var filtered := PostFilterByCountry(cfg.locality, ResponseItems(body));
        SearchEffect(cache[q := filtered], usage + 1, if |filtered| > 0 then Rows(filtered) else Info(NoResults), sent)
      case Aborted => SearchEffect(cache, usage, Info(Searching), sent)
      case _ => SearchEffect(cache, usage, Info(LoadError), sent)
  }

  /** The service is asked exactly when the query is not cached, with the query built from
      it; the counter goes up exactly when it answers successfully; the cache gains only the
      filtered answer for that query, and no entry ever changes. */
  lemma SearchContract(cache: map<string, seq<SuggestItem>>, usage: nat, cfg: SuggestConfig, q: string,
                       outcome: FetchOutcome<Option<seq<SuggestItem>>>)
    ensures var e := Search(cache, usage, cfg, q, outcome);
      && (e.sent.Some? <==> q !in cache)
      && (e.sent.Some? ==> e.sent.value == BuildSuggestParams(q, cfg) && Lookup(e.sent.value, Query) == q)
      && e.usage == usage + (if q !in cache && outcome.Ok? then 1 else 0)
      && (forall k :: k in cache ==> k in e.cache && e.cache[k] == cache[k])
      && (forall k :: k in e.cache && k !in cache ==> k == q && outcome.Ok?)
      && (q !in cache && outcome.Ok? ==>
            q in e.cache && Subsequence(e.cache[q], ResponseItems(outcome.body))
            && e.cache[q] == PostFilterByCountry(cfg.locality, ResponseItems(outcome.body)))
      && (q in cache ==> e.panel == Rows(cache[q]))
  {
    BuildSuggestParamsRoundTrip(q, cfg);
    if q !in cache && outcome.Ok? {
      PostFilterProperties(cfg.locality, ResponseItems(outcome.body));
    }
  }

  /** After a successful search the same query is served from the cache: nothing is sent,
      nothing is counted, and the cached rows are shown whatever the service would say. An
      answer with no rows left shows "no results" the first time and an empty panel after. */
  lemma SearchAgainIsCached(cache: map<string, seq<SuggestItem>>, usage: nat, cfg: SuggestConfig, q: string,
                            body: Option<seq<SuggestItem>>, later: FetchOutcome<Option<seq<SuggestItem>>>)
    requires q !in cache
    ensures var e1 := Search(cache, usage, cfg, q, Ok(body));
            var e2 := Search(e1.cache, e1.usage, cfg, q, later);
      && e2.sent.None? && e2.usage == usage + 1 && e2.cache == e1.cache
      && e2.panel == Rows(PostFilterByCountry(cfg.locality, ResponseItems(body)))
      && (PostFilterByCountry(cfg.locality, ResponseItems(body)) == [] ==> e1.panel == Info(NoResults) && e2.panel == Rows([]))
  {
  }

  /** ---------- The suppression of `run` ---------- */

  /** The first test of `run`: the field is flagged to ignore its value until it differs,
      and the query is still the value it was filled with. */
  predicate Suppressed(ignore: map<string, bool>, selected: map<string, string>, field: string, q: string) {
    field in ignore && ignore[field] && field in selected && selected[field] == q
  }

  /** What one `run(q)` changes. */
  datatype RunEffect = RunEffect(
    ignore: map<string, bool>,
    cache: map<string, seq<SuggestItem>>,
    usage: nat,
    panel: map<string, Panel>,
    sent: Option<Params>)

  /** `run(q)` on the street field `field`: nothing while the field still holds the value
      it was filled with and is flagged; otherwise the flag is cleared, and a query shorter
      than `MinQuery` hides the panel while a longer one is searched. */
  function RunStep(ignore: map<string, bool>, selected: map<string, string>,
                   cache: map<string, seq<SuggestItem>>, usage: nat, panel: map<string, Panel>,
                   cfg: SuggestConfig, field: string, q: string,
                   outcome: FetchOutcome<Option<seq<SuggestItem>>>): (r: RunEffect)
    ensures Suppressed(ignore, selected, field, q) ==> r.ignore == ignore && r.panel == panel
    ensures !Suppressed(ignore, selected, field, q) ==> r.ignore == ignore[field := false]
    ensures r.sent.Some? <==> !Suppressed(ignore, selected, field, q) && Utf16Length(q) >= MinQuery && q !in cache
    ensures r.sent.Some? ==> Lookup(r.sent.value, Query) == q
  {
    if Suppressed(ignore, selected, field, q) then RunEffect(ignore, cache, usage, panel, None)
    else if Utf16Length(q) < MinQuery then RunEffect(ignore[field := false], cache, usage, panel[field := Hidden], None)
    else
      var e := Search(cache, usage, cfg, q, outcome);
      RunEffect(ignore[field := false], e.cache, e.usage, panel[field := e.panel], e.sent)
  }

  /** A run reaches the service exactly when it is not suppressed, the query is long enough
      and not cached; a suppressed run changes nothing, any other clears the flag; only the
      field's own panel changes, and the counter goes up only for an answered request. */
  lemma RunStepContract(ignore: map<string, bool>, selected: map<string, string>,
                        cache: map<string, seq<SuggestItem>>, usage: nat, panel: map<string, Panel>,
                        cfg: SuggestConfig, field: string, q: string,
                        outcome: FetchOutcome<Option<seq<SuggestItem>>>)
    ensures var r := RunStep(ignore, selected, cache, usage, panel, cfg, field, q, outcome);
      && (Suppressed(ignore, selected, field, q) ==> r == RunEffect(ignore, cache, usage, panel, None))
      && (!Suppressed(ignore, selected, field, q) ==> r.ignore == ignore[field := false])
      && (r.sent.Some? <==> !Suppressed(ignore, selected, field, q) && Utf16Length(q) >= MinQuery && q !in cache)
      && (r.sent.Some? ==> r.sent.value == BuildSuggestParams(q, cfg) && Lookup(r.sent.value, Query) == q)
      && r.usage == usage + (if r.sent.Some? && outcome.Ok? then 1 else 0)
      && (forall k :: k in cache ==> k in r.cache && r.cache[k] == cache[k])
      && (forall k :: k in panel && k != field ==> k in r.panel && r.panel[k] == panel[k])
      && (!Suppressed(ignore, selected, field, q) && Utf16Length(q) < MinQuery ==> r.panel == panel[field := Hidden])
  {
    SearchContract(cache, usage, cfg, q, outcome);
  }

  /** ---------- The highlighted row ---------- */

  /** The keys the fields react to; every other key is `OtherKey`. */
  datatype Key = ArrowDown | ArrowUp | ArrowLeft | ArrowRight | Enter | Escape | Tab | OtherKey

  /** A key that clears the validated mark of the field it is pressed in: all but the four
      arrows and Tab. */
  predicate ClearsMark(key: Key) {
    !(key.ArrowLeft? || key.ArrowRight? || key.ArrowUp? || key.ArrowDown? || key.Tab?)
  }

  function Min(a: int, b: int): int { if a <= b then a else b }
  function Max(a: int, b: int): int { if a >= b then a else b }

  /** The highlighted index after a key, with `n` rows shown: the arrows move it and stop at
      the last row and at -1 (none); Enter on a row and Escape reset it to -1. */
  function NextHighlight(h: int, key: Key, n: nat): (r: int)
    ensures -1 <= h ==> -1 <= r
    ensures r != h ==> key.ArrowDown? || key.ArrowUp? || key.Enter? || key.Escape?
  {
    match key
    case ArrowDown => Min(h + 1, n - 1)
    case ArrowUp => Max(h - 1, -1)
    case Enter => if 0 <= h < n then -1 else h
    case Escape => -1
    case _ => h
  }

  /** The suggestion a key picks: Enter the highlighted row, when there is one, and Tab the
      first row, when there are rows and none is highlighted. */
  function Chosen(h: int, key: Key, rows: seq<SuggestItem>): (r: Option<SuggestItem>)
    ensures r.Some? ==> r.value in rows
    ensures r.Some? <==> (key == Enter && 0 <= h < |rows|) || (key == Tab && |rows| > 0 && h == -1)
    ensures r.Some? ==> r.value == (if key == Enter then rows[h] else rows[0])
  {
    if key == Enter && 0 <= h < |rows| then Some(rows[h])
    else if key == Tab && |rows| > 0 && h == -1 then Some(rows[0])
    else None
  }

  /** The index never drops below -1, ArrowDown never passes the last row, and on a row
      ArrowUp undoes ArrowDown. */
  lemma HighlightBounds(h: int, key: Key, n: nat)
    requires -1 <= h
    ensures -1 <= NextHighlight(h, key, n)
    ensures key == ArrowDown ==> NextHighlight(h, key, n) <= n - 1
    ensures key == ArrowUp ==> NextHighlight(h, key, n) <= h
    ensures h < n - 1 ==> NextHighlight(NextHighlight(h, ArrowDown, n), ArrowUp, n) == h
  {
  }

  /** Pressing ArrowDown `k` times from no highlight lands on row `min(k, n) - 1`. */
  function Presses(h: int, key: Key, n: nat, k: nat): int
    decreases k
  {
    if k == 0 then h else Presses(NextHighlight(h, key, n), key, n, k - 1)
  }

  lemma {:induction false} ArrowDownPresses(n: nat, k: nat, h: int)
    requires -1 <= h <= n - 1
    ensures Presses(h, ArrowDown, n, k) == Min(h + k, n - 1)
    decreases k
  {
    if k > 0 {
      ArrowDownPresses(n, k - 1, Min(h + 1, n - 1));
    }
  }

  /** ---------- Filling the form ---------- */

  /** The ids of a mapping that are given. */
  function MappingIds(m: Mapping): (r: set<string>)
    ensures m.street in r
    ensures forall id :: id in r ==> id == m.street || Some(id) == m.city || Some(id) == m.zip || Some(id) == m.country
  {
    {m.street} + (if m.city.Some? then {m.city.value} else {}) + (if m.zip.Some? then {m.zip.value} else {})
    + (if m.country.Some? then {m.country.value} else {})
  }

  /** `clearValidState`: the field loses its validated mark. */
  function ClearMark(f: Form, id: string): Form {
    Form(f.values, f.validated - {id})
  }

  /** The panels after a click that lands outside every street field's group: each of
      them is hidden. */
  function HideAll(panel: map<string, Panel>, fields: set<string>): (r: map<string, Panel>)
    ensures r.Keys == panel.Keys
    ensures forall k :: k in fields && k in panel ==> r[k] == Hidden
    ensures forall k :: k in panel && k !in fields ==> r[k] == panel[k]
  {
    map k | k in panel :: if k in fields then Hidden else panel[k]
  }

  /** Hiding one more panel after hiding them all changes nothing. */
  lemma HideAllAbsorbs(panel: map<string, Panel>, fields: set<string>, field: string)
    requires field in fields && field in panel
    ensures HideAll(panel, fields)[field := Hidden] == HideAll(panel, fields)
  {
  }

  /** `apply(id, val)`: a non-empty value goes into a field the page has. */
  function FillValue(f: Form, id: Option<string>, val: string): (g: Form)
    ensures g.values.Keys == f.values.Keys && g.validated == f.validated
  {
    if id.Some? && id.value in f.values && val != "" then Form(f.values[id.value := val], f.validated) else f
  }

  /** A value goes in exactly when the field exists and the value is non-empty; every
      other field keeps its value. */
  lemma FillValueEffect(f: Form, id: Option<string>, val: string)
    ensures id.Some? && id.value in f.values && val != "" ==> FillValue(f, id, val).values[id.value] == val
    ensures forall k :: k in f.values && (id.None? || k != id.value || val == "") ==> FillValue(f, id, val).values[k] == f.values[k]
  {
  }

  /** `fillFormFields(details, map)`: street, city and postal code, then the country select
      set to the option whose `data-code` is the parsed country, when the page has both. */
  function FillAddress(f: Form, m: Mapping, details: Address, countryOptions: map<string, string>): (g: Form)
    ensures g.values.Keys == f.values.Keys && g.validated == f.validated
  {
    var g := FillValue(FillValue(FillValue(f, Some(m.street), details.street), m.city, details.city), m.zip, details.zip);
    if details.country != "" && m.country.Some? && m.country.value in g.values && details.country in countryOptions
    then Form(g.values[m.country.value := countryOptions[details.country]], g.validated)
    else g
  }

  /** The country select, when the page has it and offers the parsed country, is set to
      that option; no field outside the mapping changes. */
  lemma FillAddressEffect(f: Form, m: Mapping, details: Address, countryOptions: map<string, string>)
    ensures var g := FillAddress(f, m, details, countryOptions);
      && (details.country != "" && m.country.Some? && m.country.value in f.values && details.country in countryOptions ==>
            g.values[m.country.value] == countryOptions[details.country])
      && (forall k :: k in f.values && k != m.street && Some(k) != m.city && Some(k) != m.zip && Some(k) != m.country
            ==> g.values[k] == f.values[k])
  {
    var g1 := FillValue(f, Some(m.street), details.street);
    var g2 := FillValue(g1, m.city, details.city);
    FillValueEffect(f, Some(m.street), details.street);
    FillValueEffect(g1, m.city, details.city);
    FillValueEffect(g2, m.zip, details.zip);
  }

  /** `markValidated` for each id in turn: a field the page has is marked with its value. */
  function MarkValidated(f: Form, ids: seq<Option<string>>): (g: Form)
    ensures g.values == f.values
    decreases |ids|
  {
    if ids == [] then f
    else
      var h := if ids[0].Some? && ids[0].value in f.values
               then Form(f.values, f.validated[ids[0].value := f.values[ids[0].value]]) else f;
      MarkValidated(h, ids[1..])
  }

  /** The form after `selectAddress(item)` on the street field of `m`. */
  function SelectForm(f: Form, m: Mapping, item: SuggestItem, countryOptions: map<string, string>): (g: Form)
    ensures g.values.Keys == f.values.Keys
  {
    MarkValidated(FillAddress(f, m, ParseAddress(item), countryOptions), [Some(m.street), m.city, m.zip])
  }

  lemma {:induction false} MarkValidatedEffect(f: Form, ids: seq<Option<string>>)
    ensures forall i :: 0 <= i < |ids| && ids[i].Some? && ids[i].value in f.values ==>
      ids[i].value in MarkValidated(f, ids).validated && MarkValidated(f, ids).validated[ids[i].value] == f.values[ids[i].value]
    decreases |ids|
  {
    if ids != [] {
      var h := if ids[0].Some? && ids[0].value in f.values
               then Form(f.values, f.validated[ids[0].value := f.values[ids[0].value]]) else f;
      MarkValidatedEffect(h, ids[1..]);
      assert forall i :: 1 <= i < |ids| ==> ids[i] == ids[1..][i - 1];
      if ids[0].Some? && ids[0].value in f.values {
        MarkValidatedKeeps(h, ids[1..], ids[0].value);
      }
    }
  }

  /** A field whose id is not in the list keeps its mark, or its lack of one. */
  lemma {:induction false} MarkValidatedOthers(f: Form, ids: seq<Option<string>>)
    ensures forall k :: Some(k) !in ids ==> (k in MarkValidated(f, ids).validated <==> k in f.validated)
    ensures forall k :: Some(k) !in ids && k in f.validated ==> MarkValidated(f, ids).validated[k] == f.validated[k]
    decreases |ids|
  {
    if ids != [] {
      var h := if ids[0].Some? && ids[0].value in f.values
               then Form(f.values, f.validated[ids[0].value := f.values[ids[0].value]]) else f;
      MarkValidatedOthers(h, ids[1..]);
      assert forall k :: Some(k) !in ids ==> Some(k) !in ids[1..] && Some(k) != ids[0];
    }
  }

  lemma {:induction false} MarkValidatedKeeps(f: Form, ids: seq<Option<string>>, id: string)
    requires id in f.validated && id in f.values && f.validated[id] == f.values[id]
    ensures id in MarkValidated(f, ids).validated && MarkValidated(f, ids).validated[id] == f.values[id]
    decreases |ids|
  {
    if ids != [] {
      var h := if ids[0].Some? && ids[0].value in f.values
               then Form(f.values, f.validated[ids[0].value := f.values[ids[0].value]]) else f;
      MarkValidatedKeeps(h, ids[1..], id);
    }
  }

  /** Picking a suggestion whose street line is non-empty writes it into the street field,
      and a non-empty city and postal code into their fields when the page has them and
      their ids differ. The street, city and postal code fields the page has are marked as
      validated with their new values, whether or not the pick changed them; no other mark
      changes, and no field outside the mapping changes. */
  lemma SelectFormFills(f: Form, m: Mapping, item: SuggestItem, countryOptions: map<string, string>)
    requires m.street in f.values
    requires m.city != Some(m.street) && m.zip != Some(m.street) && (m.city.Some? ==> m.zip != m.city)
    ensures var g := SelectForm(f, m, item, countryOptions); var d := ParseAddress(item);
      && g.values.Keys == f.values.Keys
      && (d.street != "" && Some(m.street) != m.country ==> g.values[m.street] == d.street)
      && (m.city.Some? && m.city.value in f.values && d.city != "" && m.city != m.country ==> g.values[m.city.value] == d.city)
      && (m.zip.Some? && m.zip.value in f.values && d.zip != "" && m.zip != m.country ==> g.values[m.zip.value] == d.zip)
      && (forall id :: id in [Some(m.street), m.city, m.zip] && id.Some? && id.value in f.values
            ==> id.value in g.validated && g.validated[id.value] == g.values[id.value])
      && (forall k :: Some(k) !in [Some(m.street), m.city, m.zip] ==>
            && (k in g.validated <==> k in f.validated)
            && (k in f.validated ==> g.validated[k] == f.validated[k]))
      && (forall k :: k in f.values && Some(k) != m.city && Some(k) != m.zip && Some(k) != m.country && k != m.street
            ==> g.values[k] == f.values[k])
  {
    var d := ParseAddress(item);
    var g1 := FillValue(f, Some(m.street), d.street);
    var g2 := FillValue(g1, m.city, d.city);
    FillValueEffect(f, Some(m.street), d.street);
    FillValueEffect(g1, m.city, d.city);
    FillValueEffect(g2, m.zip, d.zip);
    var g := FillAddress(f, m, d, countryOptions);
    FillAddressEffect(f, m, d, countryOptions);
    MarkValidatedEffect(g, [Some(m.street), m.city, m.zip]);
    MarkValidatedOthers(g, [Some(m.street), m.city, m.zip]);
  }

  /** The state of one widget. The street fields it serves are the keys of `contexts`;
      `highlighted` and the pending debounced query are kept per street field, as the
      source keeps them in the closure of each field's listeners. */
  class AddressAutocomplete {
    /** The street fields found on the page, each with its mapping. */
    const contexts: map<string, Mapping>
    /** The options of the country select: option value by `data-code`. */
    const countryOptions: map<string, string>
    /** `suggestConfig`. */
    var config: SuggestConfig
    /** `addressCache`: the filtered items of every query answered. */
    var addressCache: map<string, seq<SuggestItem>>
    /** `usageCount`: requests the service has answered in this session. */
    var usageCount: nat
    /** `selectedValueByField`: the street field's value when a suggestion was last picked. */
    var selectedValue: map<string, string>
    /** `ignoreUntilDifferentByField`. */
    var ignoreUntilDifferent: map<string, bool>
    var panel: map<string, Panel>
    var highlighted: map<string, int>
    /** The query a debounce timer is waiting to run, per street field. */
    var pending: map<string, string>
    var form: Form

    /** Every street field has its panel and its highlight, which is never below -1. */
    predicate Valid()
      reads this`form, this`panel, this`highlighted
    {
      forall f :: f in contexts ==>
        && contexts[f].street == f && f in form.values
        && f in panel && f in highlighted && highlighted[f] >= -1
    }

    /** The widget mounted on `page`, with the session's stored count as `storedUsage`
        (`getUsageCount`). Only mappings whose street field the page has are used. */
    constructor (mappings: map<string, Mapping>, countryOptions: map<string, string>, storedUsage: nat, page: Form)
      requires forall f :: f in mappings ==> mappings[f].street == f
      ensures Valid()
      ensures contexts == map f | f in mappings && f in page.values :: mappings[f]
      ensures this.countryOptions == countryOptions && config == InitialConfig
      ensures addressCache == map[] && usageCount == storedUsage
      ensures selectedValue == map[] && ignoreUntilDifferent == map[] && pending == map[]
      ensures panel == map f | f in contexts :: Hidden
      ensures highlighted == map f | f in contexts :: -1
      ensures form == page
    {
      var found := map f | f in mappings && f in page.values :: mappings[f];
      contexts := found;
      this.countryOptions := countryOptions;
      config := InitialConfig;
      addressCache := map[];
      usageCount := storedUsage;
      selectedValue := map[];
      ignoreUntilDifferent := map[];
      pending := map[];
      panel := map f | f in found :: Hidden;
      highlighted := map f | f in found :: -1;
      form := page;
    }

    /** The fields `prepareField` set up: every id of a street field's mapping that the
        page has. These are the fields whose validated mark the user's edits clear. */
    function Prepared(): set<string>
      reads this`form
    {
      set f, id | f in contexts && id in MappingIds(contexts[f]) && id in form.values :: id
    }

    /** `setSuggestLocality(codes)`. */
    method SetSuggestLocality(codes: LocalityInput)
      modifies this`config
      ensures config == old(config).(locality := NormalizeLocality(codes))
    {
      config := config.(locality := NormalizeLocality(codes));
    }

    /** `searchAddresses(q)` for the street field `field`. */
    method SearchAddresses(field: string, q: string, outcome: FetchOutcome<Option<seq<SuggestItem>>>)
      returns (sent: Option<Params>)
      requires Valid() && field in contexts
      modifies this`addressCache, this`usageCount, this`panel
      ensures Valid()
      ensures var e := Search(old(addressCache), old(usageCount), config, q, outcome);
        && addressCache == e.cache && usageCount == e.usage && sent == e.sent
        && panel == old(panel)[field := e.panel]
    {
      if q in addressCache {
        panel := panel[field := Rows(addressCache[q])];
        return None;
      }
      sent := Some(BuildSuggestParams(q, config));
      match outcome {
        case Ok(body) =>
          usageCount := usageCount + 1;
          var filtered := PostFilterByCountry(config.locality, ResponseItems(body));
          addressCache := addressCache[q := filtered];
          panel := panel[field := if |filtered| > 0 then Rows(filtered) else Info(NoResults)];
        case Aborted =>
          panel := panel[field := Info(Searching)];
        case HttpError(_) =>
          panel := panel[field := Info(LoadError)];
        case NetworkError =>
          panel := panel[field := Info(LoadError)];
      }
    }

    /** `run(q)`. */
    method Run(field: string, q: string, outcome: FetchOutcome<Option<seq<SuggestItem>>>)
      returns (sent: Option<Params>)
      requires Valid() && field in contexts
      modifies this`ignoreUntilDifferent, this`addressCache, this`usageCount, this`panel
      ensures Valid()
      ensures var r := RunStep(old(ignoreUntilDifferent), selectedValue, old(addressCache), old(usageCount),
                               old(panel), config, field, q, outcome);
        && ignoreUntilDifferent == r.ignore && addressCache == r.cache && usageCount == r.usage
        && panel == r.panel && sent == r.sent
    {
      if Suppressed(ignoreUntilDifferent, selectedValue, field, q) {
        return None;
      }
      ignoreUntilDifferent := ignoreUntilDifferent[field := false];
      if Utf16Length(q) < MinQuery {
        panel := panel[field := Hidden];
        return None;
      }
      sent := SearchAddresses(field, q, outcome);
    }

    /** The user types into a street field (a trusted `input` event): the value changes, the
        field loses its validated mark, and the debounce timer restarts with the trimmed
        value, replacing any waiting query. Programmatic `input` events, such as those
        `fillFormFields` dispatches, are ignored. */
    method UserInput(field: string, raw: string)
      requires Valid() && field in contexts
      modifies this`form, this`pending
      ensures Valid()
      ensures form == old(form).(values := old(form).values[field := raw], validated := old(form).validated - {field})
      ensures pending == old(pending)[field := Trim(raw)]
    {
      form := Form(form.values[field := raw], form.validated - {field});
      pending := pending[field := Trim(raw)];
    }

    /** The user types into a field that is not a street field: the value changes, and a
        prepared field (a city, postal code or country field of a mapping) loses its mark. */
    method FieldInput(id: string, raw: string)
      requires Valid() && id in form.values && id !in contexts
      modifies this`form
      ensures Valid()
      ensures form == old(form).(values := old(form).values[id := raw],
                                 validated := if id in old(Prepared()) then old(form).validated - {id} else old(form).validated)
    {
      form := Form(form.values[id := raw], if id in Prepared() then form.validated - {id} else form.validated);
    }

    /** A paste into a prepared field, or a key other than the arrows and Tab pressed in a
        prepared field that is not a street field: its validated mark is cleared. */
    method ClearValidState(id: string)
      requires Valid() && id in Prepared()
      modifies this`form
      ensures Valid()
      ensures form == old(form).(validated := old(form).validated - {id})
    {
      form := ClearMark(form, id);
    }

    /** The debounce timer of a street field fires: the query it was waiting with is run. */
    method DebounceElapsed(field: string, outcome: FetchOutcome<Option<seq<SuggestItem>>>)
      returns (ran: Option<string>, sent: Option<Params>)
      requires Valid() && field in contexts
      modifies this`pending, this`ignoreUntilDifferent, this`addressCache, this`usageCount, this`panel
      ensures Valid()
      ensures ran == (if field in old(pending) then Some(old(pending)[field]) else None)
      ensures pending == old(pending) - {field}
      ensures ran.None? ==>
        && sent.None? && ignoreUntilDifferent == old(ignoreUntilDifferent)
        && addressCache == old(addressCache) && usageCount == old(usageCount) && panel == old(panel)
      ensures ran.Some? ==>
        var r := RunStep(old(ignoreUntilDifferent), selectedValue, old(addressCache), old(usageCount),
                         old(panel), config, field, ran.value, outcome);
        && ignoreUntilDifferent == r.ignore && addressCache == r.cache && usageCount == r.usage
        && panel == r.panel && sent == r.sent
    {
      if field !in pending {
        return None, None;
      }
      var q := pending[field];
      pending := pending - {field};
      ran := Some(q);
      sent := Run(field, q, outcome);
    }

    /** `selectAddress(item)` on a street field: the form is filled from the parsed item,
        the field's value is remembered and flagged to be ignored until it differs, and the
        panel is hidden. */
    method SelectAddress(field: string, item: SuggestItem)
      requires Valid() && field in contexts
      modifies this`form, this`selectedValue, this`ignoreUntilDifferent, this`panel
      ensures Valid()
      ensures form == SelectForm(old(form), contexts[field], item, countryOptions)
      ensures selectedValue == old(selectedValue)[field := form.values[field]]
      ensures ignoreUntilDifferent == old(ignoreUntilDifferent)[field := true]
      ensures panel == old(panel)[field := Hidden]
    {
      ignoreUntilDifferent := ignoreUntilDifferent[field := true];
      panel := panel[field := Hidden];
      var street := FillFields(field, item);
      selectedValue := selectedValue[field := street];
    }

    /** The form part of `selectAddress`: `fillFormFields` and `markValidated`. */
    method FillFields(field: string, item: SuggestItem)
      returns (street: string)
      requires Valid() && field in contexts
      modifies this`form
      ensures Valid()
      ensures form == SelectForm(old(form), contexts[field], item, countryOptions)
      ensures field in form.values && street == form.values[field]
    {
      form := SelectForm(form, contexts[field], item, countryOptions);
      street := form.values[field];
    }

    /** A click on row `i` of a street field's panel: the row's item is selected, and the
        click, reaching the document, hides the panel of every street field, none of whose
        groups holds the row any more. */
    method ClickRow(field: string, i: nat)
      requires Valid() && field in contexts && i < |RowsOf(panel[field])|
      modifies this`form, this`selectedValue, this`ignoreUntilDifferent, this`panel
      ensures Valid()
      ensures form == SelectForm(old(form), contexts[field], RowsOf(old(panel)[field])[i], countryOptions)
      ensures selectedValue == old(selectedValue)[field := form.values[field]]
      ensures ignoreUntilDifferent == old(ignoreUntilDifferent)[field := true]
      ensures panel == HideAll(old(panel), contexts.Keys)
    {
      var item := RowsOf(panel[field])[i];
      var hidden := HideAll(panel, contexts.Keys);
      HideAllAbsorbs(panel, contexts.Keys, field);
      panel := hidden;
      SelectAddress(field, item);
    }

    /** A key pressed in a street field. Unless it is an arrow or Tab, the field first loses
        its validated mark; then Enter on a highlighted row clicks that row, Tab with rows
        and no highlight selects the first row, and Escape hides the panel. */
    method KeyDown(field: string, key: Key)
      requires Valid() && field in contexts
      modifies this`highlighted, this`form, this`selectedValue, this`ignoreUntilDifferent, this`panel
      ensures Valid()
      ensures highlighted == old(highlighted)[field := NextHighlight(old(highlighted)[field], key, |RowsOf(old(panel)[field])|)]
      ensures var c := Chosen(old(highlighted)[field], key, RowsOf(old(panel)[field]));
              var cleared := if ClearsMark(key) then ClearMark(old(form), field) else old(form);
        && (c.Some? ==>
              && form == SelectForm(cleared, contexts[field], c.value, countryOptions)
              && selectedValue == old(selectedValue)[field := form.values[field]]
              && ignoreUntilDifferent == old(ignoreUntilDifferent)[field := true]
              && panel == (if key == Enter then HideAll(old(panel), contexts.Keys) else old(panel)[field := Hidden]))
        && (c.None? ==>
              && form == cleared && selectedValue == old(selectedValue)
              && ignoreUntilDifferent == old(ignoreUntilDifferent)
              && panel == (if key == Escape then old(panel)[field := Hidden] else old(panel)))
    {
      var rows := RowsOf(panel[field]);
      var h := highlighted[field];
      HighlightBounds(h, key, |rows|);
      var c := Chosen(h, key, rows);
      highlighted := highlighted[field := NextHighlight(h, key, |rows|)];
      if ClearsMark(key) {
        form := ClearMark(form, field);
      }
      if c.Some? {
        if key == Enter {
          ClickRow(field, h);
        } else {
          SelectAddress(field, c.value);
        }
      } else if key == Escape {
        panel := panel[field := Hidden];
      }
    }

    /** A click that lands outside one street field's form group hides that field's panel. */
    method ClickOutside(field: string)
      requires Valid() && field in contexts
      modifies this`panel
      ensures Valid()
      ensures panel == old(panel)[field := Hidden]
    {
      panel := panel[field := Hidden];
    }
  }

  /** A single street field with id `field` and no other fields. */
  function SingleMapping(field: string): map<string, Mapping> {
    map[field := Mapping(field, None, None, None)]
  }

  /** Searching the same query twice asks the service once: the second search is served
      from the cache, is not counted, and shows the rows the first one cached. */
  method RepeatQueryServedFromCache(field: string, page: Form, q: string,
                                    body: Option<seq<SuggestItem>>, later: FetchOutcome<Option<seq<SuggestItem>>>)
    returns (first: Option<Params>, second: Option<Params>, usage: nat, shown: Panel)
    requires field in page.values && Utf16Length(q) >= MinQuery
    ensures first.Some? && Lookup(first.value, Query) == q && second.None?
    ensures usage == 1
    ensures shown == Rows(ResponseItems(body))
  {
    var w := new AddressAutocomplete(SingleMapping(field), map[], 0, page);
    first := w.Run(field, q, Ok(body));
    second := w.Run(field, q, later);
    usage := w.usageCount;
    shown := w.panel[field];
  }

  /** After a suggestion is picked, the value it wrote is not searched when the debounced
      run sees it, and the flag stays set, so every later run of that value is ignored too. */
  method PickedValueNotSearched(field: string, page: Form, item: SuggestItem,
                                outcome: FetchOutcome<Option<seq<SuggestItem>>>)
    returns (picked: string, again: Option<Params>, flagged: bool, shown: Panel)
    requires field in page.values
    ensures picked == SelectForm(page, Mapping(field, None, None, None), item, map[]).values[field]
    ensures again.None? && flagged && shown == Hidden
  {
    var w := new AddressAutocomplete(SingleMapping(field), map[], 0, page);
    assert w.contexts[field] == Mapping(field, None, None, None);
    w.SelectAddress(field, item);
    picked := w.form.values[field];
    assert Suppressed(w.ignoreUntilDifferent, w.selectedValue, field, picked);
    again := w.Run(field, picked, outcome);
    flagged := w.ignoreUntilDifferent[field];
    shown := w.panel[field];
  }

  /** After a suggestion is picked, a different value of at least three units clears the
      flag and is sent to the service. */
  method DifferentValueSearched(field: string, page: Form, item: SuggestItem, other: string,
                                outcome: FetchOutcome<Option<seq<SuggestItem>>>)
    returns (picked: string, sent: Option<Params>, flagged: bool)
    requires field in page.values && Utf16Length(other) >= MinQuery
    ensures picked == SelectForm(page, Mapping(field, None, None, None), item, map[]).values[field]
    ensures other != picked ==> sent.Some? && Lookup(sent.value, Query) == other && !flagged
  {
    var w := new AddressAutocomplete(SingleMapping(field), map[], 0, page);
    assert w.contexts[field] == Mapping(field, None, None, None);
    w.SelectAddress(field, item);
    picked := w.form.values[field];
    sent := w.Run(field, other, outcome);
    flagged := w.ignoreUntilDifferent[field];
  }

  /** Two edits before the debounce timer fires run only the last value. */
  method LastEditWins(field: string, page: Form, a: string, b: string, outcome: FetchOutcome<Option<seq<SuggestItem>>>)
    returns (ran: Option<string>, later: Option<string>)
    requires field in page.values
    ensures ran == Some(Trim(b))
    ensures later.None?
  {
    var w := new AddressAutocomplete(SingleMapping(field), map[], 0, page);
    w.UserInput(field, a);
    w.UserInput(field, b);
    var sent;
    ran, sent := w.DebounceElapsed(field, outcome);
    later, sent := w.DebounceElapsed(field, outcome);
  }
}

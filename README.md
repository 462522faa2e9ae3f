# Shoptet checkout helpers: address autocomplete, company lookup, contact checks

This project models the logic of `naseptavac-shoptet.js`, a browser script for the second
checkout step of a Shoptet shop. It holds three widgets.

- `DKralSeznamAddressAutocomplete` suggests addresses from the Mapy.cz suggest service as
  the customer types a street. It filters the answers by country and fills street, city,
  postal code and country from the suggestion the customer picks.
- `DKralAresCompanyValidator` checks a Czech company identification number (IČO). It asks
  the ARES business register for a valid one and fills the company fields from the record.
- `DKralContactValidator` checks the email address. It also checks the phone number against
  the Czech (+420) or Slovak (+421) numbering plan.

Modules:

- `Text` (`text.dfy`): the JavaScript string operations the script relies on, written out at
  character level:
  - `\d` and `\s`;
  - `trim`, `split` and `join` on one character;
  - ASCII case mapping;
  - `String(n)` for whole numbers;
  - the UTF-16 `length`.
- `Common` (`common.dfy`): the shared datatypes:
  - an optional value;
  - a JSON scalar and its truthiness;
  - the form as a map from field id to value;
  - the abstract outcome of a network request.
- `Ares` (`ares.dfy`): IČO sanitising and its checksum, the latter as a loop. It also maps a
  register record to field values, and holds the `AresValidator` class with its cache and the
  lookup gate.
- `Contact` (`contact.dfy`): the email pattern, the phone patterns as sequences of character
  classes, both classifiers, and the phone gate.
- `Suggest` (`suggest.dfy`): the suggest service's items, `parseAddress` (both branches,
  including the postal-code regex), `formatLocation`, `postFilterByCountry`,
  `setSuggestLocality` and `buildSuggestParams`.
- `Autocomplete` (`autocomplete.dfy`): the `AddressAutocomplete` class. It holds the query
  cache and the request counter, and per street field:
  - the "ignore until different" suppression;
  - the panel;
  - the highlighted row;
  - the query waiting on the debounce timer.

  It also holds the form filling of `selectAddress`, and the listeners `prepareField`
  installs, which clear a field's validated mark when the user edits it.

The pure parts are functions. The loop of `isValidICO` is a method with a loop invariant.
The parts that update state are class methods: `onIcoChanged`, `searchAddresses`, `run`,
`selectAddress` and the key handler. Each method's contract ties the new state to a pure
effect function: `Search`, `RunStep`, `SelectForm`, `NextHighlight` / `Chosen` and `Consume`.
The properties are proved as lemmas about those functions. Small client methods drive the
classes through the sequences the script promises: a repeated query, a retyped picked value,
and two edits before the timer fires.

Where the regular expressions are concerned:

- each pattern is a predicate over characters;
- `EmailPattern` states the email pattern directly;
- `ZipSomewhereAt` states `(\d{3}\s*\d{2})` directly;
- each is proved equal to the scanner the model computes with (`MatchesEmail`, `FindZip`).

In two places the code and its comments disagree. The model follows the code.

- The Czech rule `^8[1234]\d{6}$` (naseptavac-shoptet.js:713) has eight digits, and its
  comment speaks of 81x-84x numbers. A number reaches the classifier only when it has nine
  digits, so the rule never matches there (`CzShortServiceRuleNeverMatches`). Such numbers
  get the type "service" from the later rule `^8\d{8}$`, the same type the rule gives
  (`CzShortServiceRuleOnEightDigits`). No verdict changes.
- After a suggestion is picked, the suppression does not end after one run. It lasts as
  long as each debounced run still sees the picked value (`PickedValueNotSearched`).

## Model

| member | source | states |
|---|---|---|
| Text.DigitsOnly | naseptavac-shoptet.js:488 | `replace(/\D/g,'')` leaves only ASCII digits, keeps every digit of the input, brings in no character the input lacks, and never lengthens the string |
| Text.DigitsOnlyChar | naseptavac-shoptet.js:488 | one character is kept exactly when it is a digit; with `DigitsOnlyAppend` this fixes the result on every string |
| Text.DigitsOnlyOfDigits | naseptavac-shoptet.js:488 | a string of digits is left unchanged |
| Text.DigitsOnlyAppend | naseptavac-shoptet.js:689 | stripping non-digits distributes over concatenation |
| Text.RemoveSpaces | naseptavac-shoptet.js:542 | `replace(/\s/g,'')` leaves no white space, keeps every other character of the input, brings in none the input lacks, and never lengthens the string |
| Text.RemoveSpacesChar | naseptavac-shoptet.js:542 | one character is dropped exactly when it is white space; with `RemoveSpacesAppend` this fixes the result on every string |
| Text.RemoveSpacesOfDigits | naseptavac-shoptet.js:542 | a string of digits is left unchanged |
| Text.RemoveSpacesAppend | naseptavac-shoptet.js:365 | removing white space distributes over concatenation |
| Text.TrimStart | naseptavac-shoptet.js:257 | the result is a suffix of the input that does not start with white space, and everything cut off is white space |
| Text.TrimEnd | naseptavac-shoptet.js:257 | the result is a prefix of the input that does not end with white space, and everything cut off is white space |
| Text.Trim | naseptavac-shoptet.js:257 | `trim()` yields a string with no white space at either end, no longer than its input |
| Text.TrimSlice | naseptavac-shoptet.js:257 | `trim()` keeps one contiguous slice of the input; everything before it and after it is white space |
| Text.TrimOfTrimmed | naseptavac-shoptet.js:257 | trimming a trimmed string changes nothing |
| Text.TrimPadded | naseptavac-shoptet.js:678 | `trim()` gives the same result however much white space surrounds a string |
| Text.IndexOf | naseptavac-shoptet.js:369 | `indexOf` gives the position of the first occurrence, with none before it, or -1 exactly when the character does not occur |
| Text.Join | naseptavac-shoptet.js:363 | `join` of no parts is empty, and a join starts with its first part |
| Text.Split | naseptavac-shoptet.js:278 | `split(',')` yields at least one piece, none holding the separator |
| Text.JoinSplit | naseptavac-shoptet.js:278 | joining the pieces of a split with the separator gives back the string |
| Text.SplitJoin | naseptavac-shoptet.js:278 | splitting the join of separator-free pieces gives back the pieces |
| Text.ToLower | naseptavac-shoptet.js:278-279 | `toLowerCase()` keeps the length, lower-cases each character in place, and leaves no capital letter |
| Text.ToUpper | naseptavac-shoptet.js:289 | `toUpperCase()` keeps the length, upper-cases each character in place, and leaves no small letter |
| Text.UpperOfLower | naseptavac-shoptet.js:289 | upper-casing a lower-cased string equals upper-casing the original |
| Text.NatToDecimal | naseptavac-shoptet.js:538 | `String(n)` is a non-empty digit string that starts with 0 only for zero |
| Text.DecimalRoundTrip | naseptavac-shoptet.js:538 | reading the decimal text of `n` back gives `n` |
| Text.Utf16Length | naseptavac-shoptet.js:252 | `length` counts UTF-16 units, between one and two per character |
| Text.Utf16LengthChar | naseptavac-shoptet.js:252 | one character counts two units exactly when it lies outside the Basic Multilingual Plane |
| Text.Utf16LengthAppend | naseptavac-shoptet.js:676 | the UTF-16 length of a concatenation is the sum of the lengths |
| Ares.SanitizeIco | naseptavac-shoptet.js:488 | the result holds only digits, at most 8: the first digits of the input, and all of them when fewer than 8 |
| Ares.SanitizeIcoIdempotent | naseptavac-shoptet.js:488 | sanitising twice is sanitising once |
| Ares.CheckDigit | naseptavac-shoptet.js:495-498 | the check digit computed from `11 - sum mod 11`, with 10 read as 0 and 11 as 1, is a single digit |
| Ares.PartialSumSeven | naseptavac-shoptet.js:494 | the loop's sum is the weighted sum 8·d0 + 7·d1 + … + 2·d6 |
| Ares.IsValidIco | naseptavac-shoptet.js:490-500 | the loop answers true exactly when the input is 8 ASCII digits whose last digit is the check digit of the first seven |
| Ares.IcoExamples | naseptavac-shoptet.js:490-500 | 25596641 passes; changing its last digit or dropping it fails |
| Ares.LookupAllowedMeans | naseptavac-shoptet.js:502-507 | the gate lets a raw value through exactly when it holds at least 8 digits and the first 8 pass the checksum |
| Ares.AresStreet | naseptavac-shoptet.js:536-540 | the street line built from the seat record has no white space at either end |
| Ares.AresZip | naseptavac-shoptet.js:542 | the postal code taken from the record holds no white space |
| Ares.ConsumeAres | naseptavac-shoptet.js:533-548 | a record fills the form exactly when it has a legal name. The company and VAT id are copied, the city is the municipality, the street is the `AresStreet` line of the seat (a missing seat counts as empty) and the postal code is its `AresZip`; the street is trimmed and the postal code holds no space |
| Ares.JoinPairTrimmed | naseptavac-shoptet.js:540 | two trimmed non-empty parts joined by a space stay unchanged by `trim` |
| Ares.DecimalTrimmed | naseptavac-shoptet.js:538 | a house number's decimal text has no white space at either end |
| Ares.AresStreetWithStreetName | naseptavac-shoptet.js:537-540 | with a street name and a house number the street line is "name number" |
| Ares.AresStreetWithoutStreetName | naseptavac-shoptet.js:538-540 | without a street name, the line is "number part", the house number first and then the part of the municipality |
| Ares.AresStreetNameOnly | naseptavac-shoptet.js:537-540 | a street name without a house number is the whole street line, trimmed |
| Ares.AresStreetIgnoresPart | naseptavac-shoptet.js:539 | with a street name present, the part of the municipality has no effect on the street line |
| Ares.AresZipOfNumber | naseptavac-shoptet.js:542 | a numeric postal code becomes its decimal text |
| Ares.ApplyValue | naseptavac-shoptet.js:563-569 | the page keeps its fields; a non-empty value for a field the page has is written into it and marks it valid with that value |
| Ares.ApplyAllEffect | naseptavac-shoptet.js:563-569 | writes to distinct fields keep the page's fields. A written field holds its non-empty value and is marked valid with it; every other field keeps its value and its mark |
| Ares.ApplyAll | naseptavac-shoptet.js:544-548 | applying the writes one after another keeps the page's fields |
| Ares.ApplyCompany | naseptavac-shoptet.js:544-560 | the page keeps its fields; when the page has the country select and a "CZ" option, the select holds that option and is marked valid with it |
| Ares.Consume | naseptavac-shoptet.js:533-560 | the page keeps its fields, and a record without a legal name changes nothing |
| Ares.ApplyCompanyFills | naseptavac-shoptet.js:544-560 | each of the five text fields the page has receives its non-empty value from the record and is marked valid; no untargeted field changes |
| Ares.AresValidator.constructor | naseptavac-shoptet.js:434-453 | starts with an empty cache, the page's fields and an unmarked identifier field |
| Ares.AresValidator.Edit | naseptavac-shoptet.js:475-482 | editing the identifier field sets its value and clears its valid mark |
| Ares.AresValidator.OnIcoChanged | naseptavac-shoptet.js:502-531 | the field shows the sanitised value. The value stops when it is not 8 digits, and is rejected and unmarked on a bad checksum. Otherwise it is marked valid and, when cached, filled from the cache with no fetch; if not, the register is asked, and only a successful answer is cached and filled in |
| Ares.RepeatLookupServedFromCache | naseptavac-shoptet.js:513 | on any page, the same valid identifier checked twice fetches once, then fills from the cache: the form is the record consumed twice, keeps the page's fields, and the company field, when the page has one, holds the legal name |
| Ares.DefaultConsumeFillsCompany | naseptavac-shoptet.js:533-545 | with the default field ids, a record with a legal name writes it into the company field the page has and marks the field valid with it |
| Ares.NoLookupWithoutValidIco | naseptavac-shoptet.js:506-507 | an identifier that fails the gate never reaches the register or the cache |
| Contact.MatchesEmailIsPattern | naseptavac-shoptet.js:677 | the one-pass scanner accepts exactly the strings `EmailPattern` describes, the reading of `^[^\s@]+@[^\s@]+\.[^\s@]{2,}$` without the `u` flag, where `{2,}` counts UTF-16 units |
| Contact.MatchesEmailOnlyIfPattern | naseptavac-shoptet.js:677 | what the scanner accepts matches the pattern |
| Contact.PatternOnlyIfMatchesEmail | naseptavac-shoptet.js:677 | what matches the pattern the scanner accepts |
| Contact.IsValidEmail | naseptavac-shoptet.js:674-679 | true exactly when the value is non-empty, at most 254 UTF-16 units before trimming, and its trimmed form matches the pattern, whose last part of at least two counts UTF-16 units |
| Contact.EmailAccepts | naseptavac-shoptet.js:674-679 | any `user@host.tld` of plain characters within the length limit is accepted when `user` and `host` are non-empty and `tld` has at least two UTF-16 units |
| Contact.EmailAcceptsAstralEnding | naseptavac-shoptet.js:677 | "a@b." followed by one character outside the Basic Multilingual Plane is accepted, since that character is two units |
| Contact.EmailRejectsOneUnitEnding | naseptavac-shoptet.js:677 | any value `user@host.b`, trimmed or not, with no `@` in `user`, a non-empty `host` without a dot and `b` one UTF-16 unit, is rejected |
| Contact.EmailIgnoresSurroundingSpace | naseptavac-shoptet.js:678 | any amount of white space before and after any value, as long as the padded value is within the length limit, does not change the verdict |
| Contact.EmailRejectsWithoutDot | naseptavac-shoptet.js:675-678 | the empty value and any value without a dot, trimmed or not, are rejected |
| Contact.EmailRejectsSecondAt | naseptavac-shoptet.js:677 | any value with two `@`, trimmed or not, is rejected |
| Contact.ValidEmailShape | naseptavac-shoptet.js:675-678 | an accepted value, before trimming, has exactly one `@` and, at least two places after it, a dot followed by at least two UTF-16 units |
| Contact.MatchesNineDigits | naseptavac-shoptet.js:711-729 | on a nine-digit string, a rule of at most three leading classes holds exactly when its leading characters are in those classes |
| Contact.ClassifyCZ | naseptavac-shoptet.js:709-732 | a known type is given only to digit strings of nine digits, or of eight for the service rule; mobiles start with 6 or 7; VoIP and premium numbers start with 9 |
| Contact.ClassifySK | naseptavac-shoptet.js:735-742 | a known type is given only to nine digits; mobile and premium numbers start with 9 |
| Contact.CzShortServiceRuleNeverMatches | naseptavac-shoptet.js:713 | the eight-digit rule `^8[1234]\d{6}$` matches no nine-character string |
| Contact.CzShortServiceRuleOnEightDigits | naseptavac-shoptet.js:713 | it does match the eight-digit "81123456", which is classified as service |
| Contact.ClassifySkKnown | naseptavac-shoptet.js:735-742 | `classifySK` is not "unknown" exactly for nine digits starting with 2, 3, 4, 5, 8 or 9 |
| Contact.ClassifyCzLeadFixed | naseptavac-shoptet.js:716 | for nine digits starting with 2 to 5, `classifyCZ` knows the number exactly when the Czech ranges do |
| Contact.ClassifyCzLead6 | naseptavac-shoptet.js:720 | for nine digits starting with 6, known exactly for 601-608 |
| Contact.ClassifyCzLead7 | naseptavac-shoptet.js:721-722 | for nine digits starting with 7, known exactly for 702-709, 72, 73, 77 and 79 |
| Contact.ClassifyCzLead8 | naseptavac-shoptet.js:711-729 | for nine digits starting with 8, always known |
| Contact.ClassifyCzLead9 | naseptavac-shoptet.js:712-726 | for nine digits starting with 9, known exactly for 90, 91 and 95 |
| Contact.ClassifyCzKnownDigits | naseptavac-shoptet.js:709-732 | on nine digits `classifyCZ` is not "unknown" exactly when the number is in a Czech range |
| Contact.ClassifyCzKnown | naseptavac-shoptet.js:709-732 | the same for every nine-character string: anything that is not nine digits is unknown |
| Contact.NotMatchingFirst | naseptavac-shoptet.js:711-729 | a rule whose first class excludes the first character does not match |
| Contact.FirstClassRules | naseptavac-shoptet.js:711-729 | each rule matches only strings starting with its own leading digit |
| Contact.ClassifyCzRejectsLeadingZeroOrOne | naseptavac-shoptet.js:709-732 | a number starting with 0 or 1 is unknown |
| Contact.ClassifyCzMobileExample | naseptavac-shoptet.js:720 | "601234567" is a mobile number |
| Contact.ClassifyCzTollFreeExample | naseptavac-shoptet.js:711 | "800123456" is toll free |
| Contact.ClassifySkPremiumExample | naseptavac-shoptet.js:737 | in Slovakia "905123456" is premium |
| Contact.ClassifySkMobileExample | naseptavac-shoptet.js:739 | in Slovakia "912345678" is mobile |
| Contact.ValidatePhone | naseptavac-shoptet.js:688-706 | accepted exactly when the digits of the value fall in a known range of the dial code's country, and the dial code is 420 (Czech plan) or 421 (Slovak plan); an accepted value always has nine digits |
| Contact.PhoneOtherDialRejected | naseptavac-shoptet.js:693-696 | any other dial code, or none, rejects every value |
| Contact.PhoneIgnoresNonDigit | naseptavac-shoptet.js:689 | inserting a non-digit (space, dash, plus) anywhere does not change the verdict |
| Contact.PhoneAcceptsMobile | naseptavac-shoptet.js:688-706 | "601234567" under +420 is accepted |
| Contact.PhoneRejectsUnknownRange | naseptavac-shoptet.js:688-706 | "123456789" under +420 is rejected |
| Contact.PhoneRejectsShort | naseptavac-shoptet.js:690 | eight digits are rejected |
| Suggest.Find | naseptavac-shoptet.js:361 | `find` gives nothing exactly when no entry has the type, and otherwise an entry of that type |
| Suggest.Get | naseptavac-shoptet.js:361 | `get(t)` is empty when no entry has the type, and otherwise the name (or empty) of the first entry that has it |
| Suggest.SpaceRun | naseptavac-shoptet.js:372 | the run of white space at a position is maximal: all white space, followed by the end or a non-space |
| Suggest.ZipDigitsAt | naseptavac-shoptet.js:372 | a match of `\d{3}\s*\d{2}` with its space removed is five digits |
| Suggest.ZipStartsAtIsPattern | naseptavac-shoptet.js:372 | the greedy test at a position holds exactly when the regex has a match starting there |
| Suggest.FindZipFrom | naseptavac-shoptet.js:372 | the scan returns the digits of the first match from a position on, or says there is none |
| Suggest.FindZip | naseptavac-shoptet.js:372 | a found postal code is five digits |
| Suggest.FindZipIsLeftmostMatch | naseptavac-shoptet.js:372 | the scan finds nothing exactly when the regex matches nowhere, and otherwise returns the leftmost match with its space removed |
| Suggest.ParseAddress | naseptavac-shoptet.js:358-375 | structured items take the city from the municipality and the postal code from `zip` with white space removed, and the country is "CZ" unless another country is named. Free-text items take the postal code from the leftmost match in name and location, five digits or none; a name with a comma gives the trimmed part before it as the street and the trimmed part after it as the city, or the first part of the location when that part is empty; a name without one is the street, and the city is the first part of the location, trimmed; the country is "CZ" |
| Suggest.StructuredStreet | naseptavac-shoptet.js:363 | the street line is the item's name or a non-empty trimmed line |
| Suggest.FreeTextStreetCity | naseptavac-shoptet.js:368-371 | with a comma the street is the trimmed part before the first one and the city the trimmed second part, or, when that is empty and there is a location, the first part of the location, trimmed; without, the street is the name and the city the first part of the location, trimmed; the city is always trimmed |
| Suggest.ParseStructuredStreetAndNumber | naseptavac-shoptet.js:362-363 | a street name and a house number give "street number" |
| Suggest.ParseStructuredStreetOnly | naseptavac-shoptet.js:362-363 | a street name without a house number gives the street name alone |
| Suggest.ParseStructuredNumberOnly | naseptavac-shoptet.js:362-363 | a house number without a street name gives the number alone |
| Suggest.ParseStructuredFallsBackToName | naseptavac-shoptet.js:363 | with neither, the street is the item's name |
| Suggest.ParseStructuredCountry | naseptavac-shoptet.js:366 | a country other than "Česká republika" is copied by name, otherwise "CZ" |
| Suggest.SplitTwo | naseptavac-shoptet.js:369 | a name with one comma splits into its two sides |
| Suggest.TrimOneLeadingSpace | naseptavac-shoptet.js:369 | the space after the comma is trimmed away |
| Suggest.FreeTextWithComma | naseptavac-shoptet.js:369-371 | "street, city" gives that street and, when non-empty, that city |
| Suggest.ParseFreeTextWithComma | naseptavac-shoptet.js:367-373 | a free-text item named "street, city" parses to that street and city |
| Suggest.FormatLocation | naseptavac-shoptet.js:411-412 | an item without a regional structure has an empty location |
| Suggest.JoinNonEmptyParts | naseptavac-shoptet.js:418 | a join of non-empty parts is empty exactly when there are no parts |
| Suggest.FormatLocationEmpty | naseptavac-shoptet.js:411-419 | the location is empty exactly when municipality, district and country are all missing |
| Suggest.FormatLocationSkipsRepeatedDistrict | naseptavac-shoptet.js:416 | a district equal to the municipality is not repeated |
| Suggest.FormatLocationAllThree | naseptavac-shoptet.js:414-418 | with all three present and distinct the location is "municipality, district, country" |
| Suggest.AllowCodes | naseptavac-shoptet.js:289 | the allow set holds exactly the upper-cased locality codes |
| Suggest.FilterItems | naseptavac-shoptet.js:292-298 | every item kept passes the test and comes from the input |
| Suggest.FilterItemsSubsequence | naseptavac-shoptet.js:292-298 | the filter keeps the input's order and keeps every item that passes |
| Suggest.PostFilterByCountry | naseptavac-shoptet.js:287-299 | with no locality or an empty one the items come back as they are; otherwise only items of the input are kept, never more |
| Suggest.PostFilterProperties | naseptavac-shoptet.js:287-299 | the result is an order-preserving subsequence; without a locality it is the input; untagged items stay; a tagged item is kept exactly when its ISO code is in the list, ignoring case, or its country name is allowed |
| Suggest.AllowCodesIgnoreCase | naseptavac-shoptet.js:289 | lower-cased codes allow the same countries |
| Suggest.NormalizeLocality | naseptavac-shoptet.js:276-280 | no codes, or the empty string, clear the locality; an array, even an empty one, does not. An array gives, element by element, the lower-cased code. A non-empty comma string gives, piece by piece, the trimmed lower-cased code. No code holds a capital letter |
| Suggest.ToLowerOfLower | naseptavac-shoptet.js:278 | lower-casing a string without capitals changes nothing |
| Suggest.NormalizeLocalityOfJoin | naseptavac-shoptet.js:278 | the comma string of normalised codes normalises back to those codes |
| Suggest.BuildSuggestParams | naseptavac-shoptet.js:281-286 | query, language (default "cs") and limit (default 7) come first. `type` is present exactly when types are set, and then holds them comma-joined; `locality` is present exactly when a non-empty locality is, and then holds it comma-joined. No parameter repeats |
| Suggest.LookupUnique | naseptavac-shoptet.js:281-286 | a parameter that occurs once is read back with its value |
| Suggest.BuildSuggestParamsRoundTrip | naseptavac-shoptet.js:281-286 | the query is read back as given, and a non-empty locality of comma-free codes splits back into the same list |
| Autocomplete.SearchContract | naseptavac-shoptet.js:301-323 | the service is asked exactly on a cache miss, with the query sent. The counter rises exactly on a successful answer. The cache gains only the filtered answer for that query; no entry changes. A hit shows the cached rows |
| Autocomplete.Search | naseptavac-shoptet.js:301-323 | the request is sent exactly on a cache miss, and the counter rises by one exactly on a miss answered successfully |
| Autocomplete.SearchAgainIsCached | naseptavac-shoptet.js:302 | after a successful search the same query is not sent or counted again, and shows the cached rows. An empty answer shows "no results" first and an empty panel after |
| Autocomplete.RunStepContract | naseptavac-shoptet.js:248-254 | a run reaches the service exactly when it is not suppressed, the query has at least 3 units and is not cached. A suppressed run changes nothing; any other clears the flag; a short one hides the panel; other fields' panels stay |
| Autocomplete.RunStep | naseptavac-shoptet.js:248-254 | a suppressed run keeps the flags and panels; any other clears the field's flag; a request goes out exactly when the run is not suppressed, the query has at least 3 units and is not cached, and it carries the query |
| Autocomplete.NextHighlight | naseptavac-shoptet.js:264-267 | the highlight never drops below -1, and only the two vertical arrows, Enter and Escape move it |
| Autocomplete.Chosen | naseptavac-shoptet.js:266-268 | a key picks a row exactly for Enter on a highlighted row or Tab with rows and no highlight; Enter picks the highlighted row and Tab the first |
| Autocomplete.HighlightBounds | naseptavac-shoptet.js:264-267 | the highlight never drops below -1, ArrowDown never passes the last row, ArrowUp never moves down, and ArrowUp undoes ArrowDown |
| Autocomplete.ArrowDownPresses | naseptavac-shoptet.js:264 | pressing ArrowDown k times moves the highlight k rows, stopping at the last |
| Autocomplete.MappingIds | naseptavac-shoptet.js:110 | the ids `prepareField` is applied to: the street id and the given city, postal code and country ids, and nothing else |
| Autocomplete.HideAll | naseptavac-shoptet.js:270-273 | a document click hides the panel of every listed street field and leaves the others as they were |
| Autocomplete.FillValue | naseptavac-shoptet.js:378-379 | `apply` keeps the page's fields and their marks |
| Autocomplete.FillValueEffect | naseptavac-shoptet.js:378-380 | a non-empty value goes into an existing field; every other field keeps its value |
| Autocomplete.FillAddress | naseptavac-shoptet.js:377-408 | `fillFormFields` keeps the page's fields and leaves every validated mark as it was |
| Autocomplete.FillAddressEffect | naseptavac-shoptet.js:393-407 | the country select, when the page has it and offers the parsed country, holds that option; no field outside the mapping changes |
| Autocomplete.MarkValidated | naseptavac-shoptet.js:410 | marking fields validated does not change any value |
| Autocomplete.MarkValidatedEffect | naseptavac-shoptet.js:354 | every listed field the page has is marked with its current value |
| Autocomplete.MarkValidatedOthers | naseptavac-shoptet.js:410 | a field not in the list keeps its mark, or its lack of one |
| Autocomplete.SelectForm | naseptavac-shoptet.js:348-356 | picking a suggestion keeps the page's fields |
| Autocomplete.SelectFormFills | naseptavac-shoptet.js:348-356 | picking a suggestion writes its non-empty street, city and postal code into their fields. Each of the street, city and postal code fields the page has is marked validated with its new value; every other field keeps its mark, or its lack of one. Fields outside the mapping keep their values |
| Autocomplete.AddressAutocomplete.constructor | naseptavac-shoptet.js:29-52 | only street fields the page has are served. The config is the initial one. The cache, selection and suppression maps are empty, the stored count is taken over, and every panel is hidden with no highlight |
| Autocomplete.AddressAutocomplete.SetSuggestLocality | naseptavac-shoptet.js:276-280 | only the locality of the config changes, to the normalised codes |
| Autocomplete.AddressAutocomplete.SearchAddresses | naseptavac-shoptet.js:301-323 | cache, counter, request and the field's panel are those of `Search`; no other panel changes |
| Autocomplete.AddressAutocomplete.Run | naseptavac-shoptet.js:248-254 | flag, cache, counter, panels and request are those of `RunStep` |
| Autocomplete.AddressAutocomplete.UserInput | naseptavac-shoptet.js:255-259 | a trusted edit of a street field sets its value, clears its validated mark (the `input` listener of `prepareField`, lines 151-154), and replaces any waiting query with the trimmed value |
| Autocomplete.AddressAutocomplete.FieldInput | naseptavac-shoptet.js:136-159 | a trusted edit of another field sets its value, and clears its mark exactly when it is a city, postal code or country field of a mapping |
| Autocomplete.AddressAutocomplete.ClearValidState | naseptavac-shoptet.js:143-158 | a paste, or a key other than the arrows and Tab, in a prepared field clears its validated mark and nothing else |
| Autocomplete.AddressAutocomplete.DebounceElapsed | naseptavac-shoptet.js:258 | the timer runs the waiting query, if any, and forgets it |
| Autocomplete.AddressAutocomplete.SelectAddress | naseptavac-shoptet.js:348-356 | the form is filled and marked as `SelectForm` says, the street field's value is remembered, the field is flagged, and its panel hidden |
| Autocomplete.AddressAutocomplete.FillFields | naseptavac-shoptet.js:351-354 | the form becomes that of `SelectForm`; the street field's new value is returned |
| Autocomplete.AddressAutocomplete.ClickRow | naseptavac-shoptet.js:337 | a click on a row selects its item as `selectAddress` does, and the click, reaching the document listeners of lines 270-273, hides every street field's panel |
| Autocomplete.AddressAutocomplete.KeyDown | naseptavac-shoptet.js:261-269 | the highlight moves as `NextHighlight` says. A key other than the arrows and Tab first clears the field's validated mark (the `keydown` listener of `prepareField`, lines 156-159). The row `Chosen` picks is then selected as by `selectAddress`; Enter does it by clicking the row, which hides every street field's panel. Escape hides the field's panel; nothing else changes |
| Autocomplete.AddressAutocomplete.ClickOutside | naseptavac-shoptet.js:270-273 | a click outside the field's group hides its panel |
| Autocomplete.RepeatQueryServedFromCache | naseptavac-shoptet.js:302 | two runs of the same query send it once, count once, and show the cached rows |
| Autocomplete.PickedValueNotSearched | naseptavac-shoptet.js:249-250 | after a pick, a run of the picked value is not searched, the panel stays hidden, and the flag stays set |
| Autocomplete.DifferentValueSearched | naseptavac-shoptet.js:249-253 | after a pick, a run of a different value of at least 3 units clears the flag and is sent |
| Autocomplete.LastEditWins | naseptavac-shoptet.js:255-259 | of two edits before the timer fires only the last trimmed value is run, once |

## Left out

- Rendering and styling are not modelled: injected CSS, the valid and invalid marks on
  inputs and labels, the overlay check icons with their observers, panel positioning, row
  markup, hover highlighting and scrolling. A panel is modelled only as hidden, a notice, or
  a list of rows. The row text (`it.name || it.title`, `location || formatLocation`) is
  left out; only `FormatLocation` is modelled.
- The network is not modelled. `fetch`, `res.json()` and the API key in the URL are left out.
  Each request's outcome is an input of the operation that makes it: success with a body,
  HTTP error, network error, abort. Ordering between concurrent requests is not modelled. In
  particular, an aborted request leaves the "searching" notice, and a cache hit does not
  abort a request still in flight.
- URL encoding of the suggest parameters is not modelled. They are a list of name and value
  pairs.
- Timers are reduced to a waiting query per street field, run when `DebounceElapsed` is
  called. This gives "last edit wins". The ARES widget's debounce is an `Edit` followed by
  `OnIcoChanged`.
- `sessionStorage` is modelled only as the constructor's `storedUsage` input. The count is
  not written back, and the usage indicator is left out. `maxUsagePerSession` is stored by
  the source but never consulted, so no cap is modelled.
- How the mappings reach the constructor is not modelled: an array, a single object, or the
  defaults for bill and delivery fields. The model receives them as a map keyed by street
  id. Fields missing from the page are dropped, as `init` does.
- Event wiring is not modelled: the page guard, the mount on `DOMContentLoaded`, focus and
  blur, including the `blur()` after Escape and the `ensureOkNow` calls on focus and blur,
  which only restyle a marked field. Programmatic `input` events, which `fillFormFields` and
  the ARES widget dispatch, reach no modelled handler, because the street listener and the
  `input` listener of `prepareField` both ignore untrusted events.
- `getDialCode` and the prefix observer are not modelled. The dial code is an input of
  `ValidatePhone`. `validateEmail` only marks the field; `IsValidEmail` is its verdict.
- Autocomplete.AddressAutocomplete.KeyDown: the highlight is kept per street field but is
  not reset when the panel re-renders, as in the source. Enter therefore checks the index
  against the rows actually shown.
- Text.ToLower and Text.ToUpper map only ASCII letters. This matches the country codes and
  names the model compares, but not full Unicode case mapping.
- Ares.AresValidator.OnIcoChanged: the `noOkIds` skip list only affects styling. The register
  record's `sidlo` must be an object or absent. A non-object value is not modelled.
- Suggest.ParseAddress: `regionalStructure` is either a list or absent. A present value that
  is not an array takes the free-text branch in the source, and the model does not represent
  it.
- Contact.ClassifyCzKnown requires nine characters, since on the eight-digit "81123456" the
  classifier answers "service" (`CzShortServiceRuleOnEightDigits`). The phone gate only ever
  passes nine digits.

/** The contact widget (`DKralContactValidator`): an email address is checked against a
    permissive one-`@` pattern, and a phone number is accepted only under the Czech (+420)
    or Slovak (+421) dial code, with exactly nine national digits that fall into a known
    range of that country's numbering plan. */
module Contact {
  import opened Common
  import opened Text

  /** The longest address accepted, in UTF-16 code units of the untrimmed value. */
  const MaxEmailLength: nat := 254

  /** What the email pattern's `[^\s@]` accepts. */
  predicate Plain(c: char) {
    !IsSpace(c) && c != '@'
  }

  predicate AllPlain(s: string) {
    forall i :: 0 <= i < |s| ==> Plain(s[i])
  }

  /** `/^[^\s@]+@[^\s@]+\.[^\s@]{2,}$/i` read as a predicate. Every class in it is `[^\s@]`
      or the dot, which is itself in that class, so a string matches exactly when it has an
      `@` at `a` with at least one character before it, every other character is plain, and
      a dot at `k` has at least one character between the `@` and it and, after it, at least
      two UTF-16 code units: without the `u` flag the pattern counts code units, so one
      character outside the Basic Multilingual Plane is enough. */
  ghost predicate EmailPattern(t: string) {
    exists a, k :: PatternAt(t, a, k)
  }

  /** The pattern with its `@` at `a` and its dot at `k`. */
  ghost predicate PatternAt(t: string, a: int, k: int) {
    && 1 <= a && a + 2 <= k && k < |t| && Utf16Length(t[k + 1..]) >= 2 && t[a] == '@' && t[k] == '.'
    && forall i :: 0 <= i < |t| && i != a ==> Plain(t[i])
  }

  /** The same test in one pass: split at the first `@`, then take the first dot that has a
      character between the `@` and it, and count the code units after that dot. */
  predicate MatchesEmail(t: string) {
    var a := IndexOf(t, '@');
    var d := t[a + 1..];
    a >= 1 && AllPlain(t[..a]) && AllPlain(d) && DomainEnds(d)
  }

  /** The part after the `@`: a first dot after its first character, followed by at least
      two code units. */
  predicate DomainEnds(d: string) {
    |d| >= 2 && var j := IndexOf(d[1..], '.'); j >= 0 && Utf16Length(d[j + 2..]) >= 2
  }

  /** A longer suffix has at least as many code units. */
  lemma Utf16LengthSuffix(s: string, i: nat, k: nat)
    requires i <= k <= |s|
    ensures Utf16Length(s[i..]) >= Utf16Length(s[k..])
  {
    assert s[i..] == s[i..k] + s[k..];
    Utf16LengthAppend(s[i..k], s[k..]);
  }

  lemma MatchesEmailOnlyIfPattern(t: string)
    requires MatchesEmail(t)
    ensures EmailPattern(t)
  {
    var a := IndexOf(t, '@');
    var d := t[a + 1..];
    var j := IndexOf(d[1..], '.');
    var k := a + 2 + j;
    assert t[k] == '.';
    assert t[k + 1..] == d[j + 2..];
    forall i | 0 <= i < |t| && i != a
      ensures Plain(t[i])
    {
      if i < a {
        assert t[i] == t[..a][i];
      } else {
        assert t[i] == d[i - a - 1];
      }
    }
    assert PatternAt(t, a, k);
  }

  /** An `@` that is the only one is the first one. */
  lemma OnlyAt(t: string, a: nat)
    requires a < |t| && t[a] == '@'
    requires forall i :: 0 <= i < |t| && i != a ==> Plain(t[i])
    ensures IndexOf(t, '@') == a
  {
    assert t[a] in t;
  }

  lemma PatternOnlyIfMatchesEmail(t: string)
    requires EmailPattern(t)
    ensures MatchesEmail(t)
  {
    var a, k :| PatternAt(t, a, k);
    OnlyAt(t, a);
    var d := t[a + 1..];
    assert AllPlain(t[..a]) by {
      forall i | 0 <= i < a
        ensures Plain(t[..a][i])
      {
        assert t[..a][i] == t[i];
      }
    }
    assert AllPlain(d) by {
      forall i | 0 <= i < |d|
        ensures Plain(d[i])
      {
        assert d[i] == t[a + 1 + i];
      }
    }
    assert d[k - a - 1] == '.' && t[k + 1..] == d[k - a..];
    DomainEndsAt(d, k - a - 1);
  }

  /** A dot after the first character of the domain, followed by at least two code units,
      makes the domain end as the pattern wants: the first such dot is no later. */
  lemma DomainEndsAt(d: string, m: nat)
    requires 1 <= m < |d| && d[m] == '.' && Utf16Length(d[m + 1..]) >= 2
    ensures DomainEnds(d)
  {
    var e := d[1..];
    assert e[m - 1] == '.';
    var j := IndexOf(e, '.');
    assert j <= m - 1;
    Utf16LengthSuffix(d, j + 2, m + 1);
  }

  lemma MatchesEmailIsPattern(t: string)
    ensures MatchesEmail(t) <==> EmailPattern(t)
  {
    if MatchesEmail(t) {
      MatchesEmailOnlyIfPattern(t);
    }
    if EmailPattern(t) {
      PatternOnlyIfMatchesEmail(t);
    }
  }

  /** `isValidEmail`: false for an empty value or one longer than 254 units; otherwise the
      pattern decides, on the trimmed value. */
  function IsValidEmail(v: string): (ok: bool)
    ensures ok <==> v != "" && Utf16Length(v) <= MaxEmailLength && EmailPattern(Trim(v))
  {
    if v == "" then false
    else if Utf16Length(v) > MaxEmailLength then false
    else
      MatchesEmailIsPattern(Trim(v));
      MatchesEmail(Trim(v))
  }

  /** A well-formed address within the length limit is accepted: a non-empty local part,
      `@`, a non-empty host, a dot, and at least two code units, none of them white space
      or `@`. */
  lemma EmailAccepts(user: string, host: string, tld: string)
    requires user != "" && host != "" && AllPlain(user) && AllPlain(host) && AllPlain(tld)
    requires Utf16Length(tld) >= 2
    requires Utf16Length(user + ['@'] + host + ['.'] + tld) <= MaxEmailLength
    ensures IsValidEmail(user + ['@'] + host + ['.'] + tld)
  {
    AddressShape(user, host, tld);
    ValidEmailWhen(user + ['@'] + host + ['.'] + tld);
  }

  /** The shape `user@host.tld` meets the pattern and stays within the length limit. */
  lemma AddressShape(user: string, host: string, tld: string)
    requires user != "" && host != "" && AllPlain(user) && AllPlain(host) && AllPlain(tld)
    requires Utf16Length(tld) >= 2
    requires Utf16Length(user + ['@'] + host + ['.'] + tld) <= MaxEmailLength
    ensures var v := user + ['@'] + host + ['.'] + tld;
      v != "" && Utf16Length(v) <= MaxEmailLength && EmailPattern(Trim(v))
  {
    var rest := host + ['.'] + tld;
    AllPlainAppend(host, ['.']);
    AllPlainAppend(host + ['.'], tld);
    AddressLayout(user, host, tld);
    var v := user + ['@'] + host + ['.'] + tld;
    PlainAroundAt(user, rest);
    var a := |user|;
    var k := |user| + 1 + |host|;
    assert PatternAt(v, a, k);
    assert Trimmed(v);
    TrimOfTrimmed(v);
  }

  /** The three conditions `IsValidEmail` checks, as a sufficient condition. */
  lemma ValidEmailWhen(v: string)
    requires v != "" && Utf16Length(v) <= MaxEmailLength && EmailPattern(Trim(v))
    ensures IsValidEmail(v)
  {
  }

  /** Where the `@`, the dot and the top-level domain sit in `user@host.tld`. */
  lemma AddressLayout(user: string, host: string, tld: string)
    ensures var v := user + ['@'] + host + ['.'] + tld;
      && v == user + ['@'] + (host + ['.'] + tld)
      && v[|user|] == '@' && v[|user| + 1 + |host|] == '.'
      && v[|user| + 2 + |host|..] == tld
  {
  }

  /** Joining two plain strings with an `@` leaves every character but that `@` plain. */
  lemma PlainAroundAt(x: string, y: string)
    requires AllPlain(x) && AllPlain(y)
    ensures forall i :: 0 <= i < |x + ['@'] + y| && i != |x| ==> Plain((x + ['@'] + y)[i])
  {
    var v := x + ['@'] + y;
    forall i | 0 <= i < |v| && i != |x|
      ensures Plain(v[i])
    {
      if i < |x| {
        assert v[i] == x[i];
      } else {
        assert v[i] == y[i - |x| - 1];
      }
    }
  }

  lemma AllPlainAppend(x: string, y: string)
    requires AllPlain(x) && AllPlain(y)
    ensures AllPlain(x + y)
  {
    forall i | 0 <= i < |x + y|
      ensures Plain((x + y)[i])
    {
      if i >= |x| {
        assert (x + y)[i] == y[i - |x|];
      }
    }
  }

  /** White space around a value does not change the verdict, as long as the padded value
      is still within the length limit (which counts the untrimmed value). */
  lemma EmailIgnoresSurroundingSpace(w1: string, v: string, w2: string)
    requires AllSpace(w1) && AllSpace(w2)
    requires Utf16Length(w1 + v + w2) <= MaxEmailLength
    ensures IsValidEmail(w1 + v + w2) == IsValidEmail(v)
  {
    TrimPadded(w1, v, w2);
    Utf16LengthAppend(w1, v);
    Utf16LengthAppend(w1 + v, w2);
    SameTrimSameVerdict(w1 + v + w2, v);
  }

  /** Two values with the same trimmed text, the longer one within the length limit, get
      the same verdict. */
  lemma SameTrimSameVerdict(x: string, v: string)
    requires Trim(x) == Trim(v) && Utf16Length(v) <= Utf16Length(x) <= MaxEmailLength
    ensures IsValidEmail(x) == IsValidEmail(v)
  {
  }

  /** What an accepted value shows untrimmed: its only `@` at `a`, and a dot at `k`, at
      least two places after it, followed by at least two code units. */
  ghost predicate AtAndDot(v: string, a: int, k: int) {
    && 0 <= a && a + 2 <= k < |v| && v[a] == '@' && v[k] == '.' && Utf16Length(v[k + 1..]) >= 2
    && forall i :: 0 <= i < |v| && i != a ==> v[i] != '@'
  }

  lemma ValidEmailShape(v: string)
    ensures IsValidEmail(v) ==> exists a, k :: AtAndDot(v, a, k)
  {
    if IsValidEmail(v) {
      PatternUntrimmed(v);
    }
  }

  lemma PatternUntrimmed(v: string)
    requires EmailPattern(Trim(v))
    ensures exists a, k :: AtAndDot(v, a, k)
  {
    TrimKeepsAt(v);
    PatternInSlice(v, Trim(v), |v| - |TrimStart(v)|);
  }

  /** `t` sits in `v` from `p` on, and every `@` of `v` lies in it. */
  ghost predicate AtsWithin(v: string, t: string, p: int) {
    && 0 <= p && p + |t| <= |v|
    && (forall i :: 0 <= i < |t| ==> t[i] == v[p + i])
    && (forall i :: 0 <= i < |v| && (i < p || p + |t| <= i) ==> v[i] != '@')
  }

  /** `trim` drops no `@`. */
  lemma TrimKeepsAt(v: string)
    ensures AtsWithin(v, Trim(v), |v| - |TrimStart(v)|)
  {
    TrimIndex(v);
  }

  /** The pattern matched by a slice `t` of `v` with no `@` around it. */
  lemma PatternInSlice(v: string, t: string, p: int)
    requires AtsWithin(v, t, p) && EmailPattern(t)
    ensures exists a, k :: AtAndDot(v, a, k)
  {
    var a, k :| PatternAt(t, a, k);
    Utf16LengthOfSlice(v, t, p, k + 1);
    forall i | 0 <= i < |v| && i != p + a
      ensures v[i] != '@'
    {
      if p <= i < p + |t| {
        assert v[i] == t[i - p];
      }
    }
    assert AtAndDot(v, p + a, p + k);
  }

  /** A tail of a slice is no longer, in code units, than the tail of the whole string. */
  lemma Utf16LengthOfSlice(v: string, t: string, p: int, m: nat)
    requires 0 <= p
    requires p + |t| <= |v| && m <= |t|
    requires forall i :: 0 <= i < |t| ==> t[i] == v[p + i]
    ensures Utf16Length(t[m..]) <= Utf16Length(v[p + m..])
  {
    assert v[p + m..] == t[m..] + v[p + |t|..];
    Utf16LengthAppend(t[m..], v[p + |t|..]);
  }

  /** The part after the dot is measured in code units: one character outside the Basic
      Multilingual Plane is enough. */
  lemma EmailAcceptsAstralEnding(v: string, c: char)
    requires c as int > 0xFFFF && v == "a@b." + [c]
    ensures IsValidEmail(v)
  {
    assert v[1] == '@' && v[3] == '.' && v[4..] == [c];
    assert forall i :: 0 <= i < |v| && i != 1 ==> Plain(v[i]);
    Utf16LengthChar(c);
    assert PatternAt(v, 1, 3);
    TrimOfTrimmed(v);
  }

  /** One character of the Basic Multilingual Plane after the last dot is too short. */
  lemma EmailRejectsOneUnitEnding(user: string, host: string, b: char)
    requires '@' !in user && host != "" && '.' !in host && b as int <= 0xFFFF
    ensures !IsValidEmail(user + ['@'] + host + ['.', b])
  {
    OneUnitEndingLayout(user, host, b);
    RejectsShortEnding(user + ['@'] + host + ['.', b], |user|);
  }

  /** Where the `@` and the host of `user@host.b` sit, and how long its last character is. */
  lemma OneUnitEndingLayout(user: string, host: string, b: char)
    requires '@' !in user && '.' !in host && b as int <= 0xFFFF
    ensures var v := user + ['@'] + host + ['.', b];
      && |v| == |user| + |host| + 3 && v[|user|] == '@'
      && (forall i :: |user| < i < |v| - 2 ==> v[i] != '.')
      && Utf16Length(v[|v| - 1..]) == 1
  {
    var v := user + ['@'] + host + ['.', b];
    forall i | |user| < i < |v| - 2
      ensures v[i] != '.'
    {
      assert v[i] == host[i - |user| - 1];
    }
    assert v[|v| - 1..] == [b];
    Utf16LengthChar(b);
  }

  /** A value with an `@` at `a` and no dot after it before its last two characters, the
      last of which is one code unit, is rejected. */
  lemma RejectsShortEnding(v: string, a: nat)
    requires a + 3 <= |v| && v[a] == '@' && Utf16Length(v[|v| - 1..]) == 1
    requires forall i :: a < i < |v| - 2 ==> v[i] != '.'
    ensures !IsValidEmail(v)
  {
    assert Utf16Length(v[|v|..]) == 0;
    ValidEmailShape(v);
  }

  /** An empty value is rejected, and so is a value without a dot. */
  lemma EmailRejectsWithoutDot(v: string)
    requires forall i :: 0 <= i < |v| ==> v[i] != '.'
    ensures !IsValidEmail(v) && !IsValidEmail("")
  {
    ValidEmailShape(v);
  }

  /** A value with two `@` is rejected. */
  lemma EmailRejectsSecondAt(v: string, i: nat, j: nat)
    requires i < j < |v| && v[i] == '@' && v[j] == '@'
    ensures !IsValidEmail(v)
  {
    ValidEmailShape(v);
  }

  /** The category of a national significant number. */
  datatype PhoneType = TollFree | Premium | Service | Fixed | Mobile | Voip | Unknown

  /** An anchored regular expression `^c1...cm\d{n}$`: `m` character classes, then exactly
      `n` digits. Every pattern of the phone classifiers has this shape. */
  datatype DigitPattern = DigitPattern(head: seq<set<char>>, digits: nat)

  predicate Matches(p: DigitPattern, s: string) {
    && |s| == |p.head| + p.digits
    && (forall i :: 0 <= i < |p.head| ==> s[i] in p.head[i])
    && (forall i :: |p.head| <= i < |s| ==> IsDigit(s[i]))
  }

  const AnyDigit: set<char> := {'0', '1', '2', '3', '4', '5', '6', '7', '8', '9'}

  const NsnRule := DigitPattern([], 9)                                                 // ^\d{9}$
  const TollFreeRule := DigitPattern([{'8'}, {'0'}, {'0'}], 6)                         // ^800\d{6}$
  const PremiumRule := DigitPattern([{'9'}, {'0'}], 7)                                 // ^90\d{7}$
  const CzShortServiceRule := DigitPattern([{'8'}, {'1', '2', '3', '4'}], 6)           // ^8[1234]\d{6}$
  const FixedRule := DigitPattern([{'2', '3', '4', '5'}], 8)                           // ^[2-5]\d{8}$
  const Mobile60Rule := DigitPattern([{'6'}, {'0'}, {'1', '2', '3', '4', '5', '6', '7', '8'}], 6) // ^60[1-8]\d{6}$
  const Mobile70Rule := DigitPattern([{'7'}, {'0'}, {'2', '3', '4', '5', '6', '7', '8', '9'}], 6) // ^70[2-9]\d{6}$
  const Mobile7xRule := DigitPattern([{'7'}, {'2', '3', '7', '9'}], 7)                 // ^7(2|3|7|9)\d{7}$
  const Voip91Rule := DigitPattern([{'9'}, {'1'}, AnyDigit], 6)                        // ^91[0-9]\d{6}$
  const Voip95Rule := DigitPattern([{'9'}, {'5'}], 7)                                  // ^95\d{7}$
  const ServiceRule := DigitPattern([{'8'}], 8)                                        // ^8\d{8}$
  const SkMobileRule := DigitPattern([{'9'}], 8)                                       // ^9\d{8}$

  /** `classifyCZ`: the first rule of the Czech plan that matches. */
  function ClassifyCZ(nsn: string): (r: PhoneType)
    ensures r != Unknown ==> AllDigits(nsn) && (|nsn| == 9 || (|nsn| == 8 && r == Service))
    ensures r == Mobile ==> nsn[0] in {'6', '7'}
    ensures r == Voip || r == Premium ==> nsn[0] == '9'
  {
    if Matches(TollFreeRule, nsn) then TollFree
    else if Matches(PremiumRule, nsn) then Premium
    else if Matches(CzShortServiceRule, nsn) then Service
    else if Matches(FixedRule, nsn) then Fixed
    else if Matches(Mobile60Rule, nsn) then Mobile
    else if Matches(Mobile70Rule, nsn) then Mobile
    else if Matches(Mobile7xRule, nsn) then Mobile
    else if Matches(Voip91Rule, nsn) then Voip
    else if Matches(Voip95Rule, nsn) then Voip
    else if Matches(ServiceRule, nsn) then Service
    else Unknown
  }

  /** `classifySK`: the first rule of the Slovak plan that matches. */
  function ClassifySK(nsn: string): (r: PhoneType)
    ensures r != Unknown ==> NineDigits(nsn)
    ensures r == Mobile || r == Premium ==> nsn[0] == '9'
  {
    if Matches(TollFreeRule, nsn) then TollFree
    else if Matches(PremiumRule, nsn) then Premium
    else if Matches(FixedRule, nsn) then Fixed
    else if Matches(SkMobileRule, nsn) then Mobile
    else if Matches(ServiceRule, nsn) then Service
    else Unknown
  }

  predicate NineDigits(s: string) {
    |s| == 9 && AllDigits(s)
  }

  /** The Slovak ranges the classifier knows, read off the leading digit. */
  predicate SkKnown(s: string) {
    NineDigits(s) && s[0] in {'2', '3', '4', '5', '8', '9'}
  }

  /** The Czech ranges the classifier knows, read off the leading digits: fixed lines 2-5,
      all of 8, mobiles 601-608, 702-709, 72, 73, 77 and 79, and 90, 91 and 95. */
  predicate CzKnown(s: string) {
    && NineDigits(s)
    && (|| s[0] in {'2', '3', '4', '5', '8'}
        || (s[0] == '6' && s[1] == '0' && s[2] in {'1', '2', '3', '4', '5', '6', '7', '8'})
        || (s[0] == '7' && s[1] == '0' && s[2] in {'2', '3', '4', '5', '6', '7', '8', '9'})
        || (s[0] == '7' && s[1] in {'2', '3', '7', '9'})
        || (s[0] == '9' && s[1] in {'0', '1', '5'}))
  }

  /** A pattern of at most three classes matches a nine-digit string exactly when its
      leading classes accept the leading digits. */
  lemma MatchesNineDigits(p: DigitPattern, s: string)
    requires NineDigits(s) && |p.head| + p.digits == 9 && |p.head| <= 3
    ensures Matches(p, s) <==> && (|p.head| < 1 || s[0] in p.head[0])
                               && (|p.head| < 2 || s[1] in p.head[1])
                               && (|p.head| < 3 || s[2] in p.head[2])
  {
  }

  /** `^8[1234]\d{6}$` describes eight characters, so it never matches a nine-digit number;
      such numbers are classified by the later `^8\d{8}$` rule instead. */
  lemma CzShortServiceRuleNeverMatches(s: string)
    requires |s| == 9
    ensures !Matches(CzShortServiceRule, s)
  {
  }

  lemma {:induction false} ClassifySkKnown(s: string)
    ensures ClassifySK(s) != Unknown <==> SkKnown(s)
  {
    if NineDigits(s) {
      MatchesNineDigits(TollFreeRule, s);
      MatchesNineDigits(PremiumRule, s);
      MatchesNineDigits(FixedRule, s);
      MatchesNineDigits(SkMobileRule, s);
      MatchesNineDigits(ServiceRule, s);
      assert IsDigit(s[0]);
    } else {
      assert !Matches(TollFreeRule, s) && !Matches(PremiumRule, s) && !Matches(FixedRule, s);
      assert !Matches(SkMobileRule, s) && !Matches(ServiceRule, s);
    }
  }

  /** The Czech classifier on nine digits, one leading digit at a time. */
  lemma ClassifyCzLeadFixed(s: string)
    requires NineDigits(s) && s[0] in {'2', '3', '4', '5'}
    ensures ClassifyCZ(s) != Unknown <==> CzKnown(s)
  {
    FirstClassRules(s);
    CzShortServiceRuleNeverMatches(s);
    MatchesNineDigits(FixedRule, s);
  }

  lemma ClassifyCzLead6(s: string)
    requires NineDigits(s) && s[0] == '6'
    ensures ClassifyCZ(s) != Unknown <==> CzKnown(s)
  {
    FirstClassRules(s);
    CzShortServiceRuleNeverMatches(s);
    MatchesNineDigits(Mobile60Rule, s);
    assert IsDigit(s[1]) && IsDigit(s[2]);
  }

  lemma ClassifyCzLead7(s: string)
    requires NineDigits(s) && s[0] == '7'
    ensures ClassifyCZ(s) != Unknown <==> CzKnown(s)
  {
    FirstClassRules(s);
    CzShortServiceRuleNeverMatches(s);
    MatchesNineDigits(Mobile70Rule, s);
    MatchesNineDigits(Mobile7xRule, s);
    assert IsDigit(s[1]) && IsDigit(s[2]);
  }

  lemma ClassifyCzLead8(s: string)
    requires NineDigits(s) && s[0] == '8'
    ensures ClassifyCZ(s) != Unknown <==> CzKnown(s)
  {
    FirstClassRules(s);
    CzShortServiceRuleNeverMatches(s);
    MatchesNineDigits(TollFreeRule, s);
    MatchesNineDigits(ServiceRule, s);
  }

  lemma ClassifyCzLead9(s: string)
    requires NineDigits(s) && s[0] == '9'
    ensures ClassifyCZ(s) != Unknown <==> CzKnown(s)
  {
    FirstClassRules(s);
    CzShortServiceRuleNeverMatches(s);
    MatchesNineDigits(PremiumRule, s);
    MatchesNineDigits(Voip91Rule, s);
    MatchesNineDigits(Voip95Rule, s);
    assert IsDigit(s[1]) && IsDigit(s[2]);
  }

  lemma ClassifyCzKnownDigits(s: string)
    requires NineDigits(s)
    ensures ClassifyCZ(s) != Unknown <==> CzKnown(s)
  {
    assert IsDigit(s[0]);
    if s[0] in {'0', '1'} {
      ClassifyCzRejectsLeadingZeroOrOne(s);
    } else if s[0] in {'2', '3', '4', '5'} {
      ClassifyCzLeadFixed(s);
    } else if s[0] == '6' {
      ClassifyCzLead6(s);
    } else if s[0] == '7' {
      ClassifyCzLead7(s);
    } else if s[0] == '8' {
      ClassifyCzLead8(s);
    } else {
      ClassifyCzLead9(s);
    }
  }

  /** Among nine-character strings, the Czech classifier knows exactly the `CzKnown` ranges. */
  lemma {:induction false} ClassifyCzKnown(s: string)
    requires |s| == 9
    ensures ClassifyCZ(s) != Unknown <==> CzKnown(s)
  {
    if NineDigits(s) {
      ClassifyCzKnownDigits(s);
    } else {
      assert !Matches(TollFreeRule, s) && !Matches(PremiumRule, s) && !Matches(FixedRule, s);
      assert !Matches(Mobile60Rule, s) && !Matches(Mobile70Rule, s) && !Matches(Mobile7xRule, s);
      assert !Matches(Voip91Rule, s) && !Matches(Voip95Rule, s) && !Matches(ServiceRule, s);
      CzShortServiceRuleNeverMatches(s);
    }
  }

  /** The 8-character rule does fire, on strings `validatePhone` never passes it. */
  lemma CzShortServiceRuleOnEightDigits(s: string)
    requires s == "81123456"
    ensures ClassifyCZ(s) == Service
  {
    assert s[0] == '8' && s[1] == '1';
    assert AllDigits(s);
    assert Matches(CzShortServiceRule, s);
  }

  /** A pattern cannot match a string whose first character is outside its first class. */
  lemma NotMatchingFirst(p: DigitPattern, s: string)
    requires |p.head| >= 1 && (s == "" || s[0] !in p.head[0])
    ensures !Matches(p, s)
  {
  }

  /** The first-class tests the classifiers need: which rules a leading character rules out. */
  lemma FirstClassRules(s: string)
    requires s != ""
    ensures s[0] != '8' ==> !Matches(TollFreeRule, s) && !Matches(CzShortServiceRule, s) && !Matches(ServiceRule, s)
    ensures s[0] != '9' ==> !Matches(PremiumRule, s) && !Matches(Voip91Rule, s) && !Matches(Voip95Rule, s)
                            && !Matches(SkMobileRule, s)
    ensures s[0] !in {'2', '3', '4', '5'} ==> !Matches(FixedRule, s)
    ensures s[0] != '6' ==> !Matches(Mobile60Rule, s)
    ensures s[0] != '7' ==> !Matches(Mobile70Rule, s) && !Matches(Mobile7xRule, s)
  {
    if s[0] != '8' {
      NotMatchingFirst(TollFreeRule, s);
      NotMatchingFirst(CzShortServiceRule, s);
      NotMatchingFirst(ServiceRule, s);
    }
    if s[0] != '9' {
      NotMatchingFirst(PremiumRule, s);
      NotMatchingFirst(Voip91Rule, s);
      NotMatchingFirst(Voip95Rule, s);
      NotMatchingFirst(SkMobileRule, s);
    }
    if s[0] !in {'2', '3', '4', '5'} {
      NotMatchingFirst(FixedRule, s);
    }
    if s[0] != '6' {
      NotMatchingFirst(Mobile60Rule, s);
    }
    if s[0] != '7' {
      NotMatchingFirst(Mobile70Rule, s);
      NotMatchingFirst(Mobile7xRule, s);
    }
  }

  /** No string starting with 0 or 1 is in a known Czech range, whatever its length. */
  lemma ClassifyCzRejectsLeadingZeroOrOne(s: string)
    requires s != "" && s[0] in {'0', '1'}
    ensures ClassifyCZ(s) == Unknown
  {
    FirstClassRules(s);
  }

  lemma ClassifyCzMobileExample(m: string)
    requires m == "601234567"
    ensures ClassifyCZ(m) == Mobile
  {
    assert m[0] == '6' && m[1] == '0' && m[2] == '1';
    assert AllDigits(m);
    assert Matches(Mobile60Rule, m);
    FirstClassRules(m);
    assert !Matches(TollFreeRule, m) && !Matches(PremiumRule, m) && !Matches(CzShortServiceRule, m);
    assert !Matches(FixedRule, m);
  }

  lemma ClassifyCzTollFreeExample(t: string)
    requires t == "800123456"
    ensures ClassifyCZ(t) == TollFree
  {
    assert t[0] == '8' && t[1] == '0' && t[2] == '0';
    assert AllDigits(t);
    assert Matches(TollFreeRule, t);
  }

  lemma ClassifySkPremiumExample(p: string)
    requires p == "905123456"
    ensures ClassifySK(p) == Premium
  {
    assert p[0] == '9' && p[1] == '0';
    assert AllDigits(p);
    assert Matches(PremiumRule, p);
    FirstClassRules(p);
  }

  lemma ClassifySkMobileExample(m: string)
    requires m == "912345678"
    ensures ClassifySK(m) == Mobile
  {
    assert m[0] == '9' && m[1] == '1';
    assert AllDigits(m);
    assert Matches(SkMobileRule, m);
    FirstClassRules(m);
    assert !Matches(PremiumRule, m);
  }

  const AllowedCountryCodes: seq<string> := ["420", "421"]

  /** `validatePhone`, with the dial code read from the country picker given as `dial`
      (`None` when the picker shows none): nine digits once every other character is
      dropped, dial code 420 or 421, and a known range of that country's plan. */
  function ValidatePhone(value: string, dial: Option<string>): (ok: bool)
    ensures ok <==> || (dial == Some("420") && CzKnown(DigitsOnly(value)))
                    || (dial == Some("421") && SkKnown(DigitsOnly(value)))
    ensures ok ==> |DigitsOnly(value)| == 9
  {
    var nsn := DigitsOnly(value);
    if !Matches(NsnRule, nsn) then false
    else if dial.None? || dial.value == "" || dial.value !in AllowedCountryCodes then false
    else
      var kind := if dial.value == "420" then ClassifyCZ(nsn)
                  else if dial.value == "421" then ClassifySK(nsn)
                  else Unknown;
      ClassifyCzKnown(nsn);
      ClassifySkKnown(nsn);
      kind != Unknown
  }

  /** Outside the two supported dial codes, or without one, no number is accepted. */
  lemma PhoneOtherDialRejected(value: string, dial: Option<string>)
    requires dial != Some("420") && dial != Some("421")
    ensures !ValidatePhone(value, dial)
  {
  }

  /** Characters other than digits (spaces, dashes, brackets) do not change the verdict. */
  lemma PhoneIgnoresNonDigit(a: string, c: char, b: string, dial: Option<string>)
    requires !IsDigit(c)
    ensures ValidatePhone(a + [c] + b, dial) == ValidatePhone(a + b, dial)
  {
    assert DigitsOnly(a + [c] + b) == DigitsOnly(a + b) by {
      DigitsOnlyAppend(a + [c], b);
      DigitsOnlyAppend(a, [c]);
      DigitsOnlyAppend(a, b);
      assert DigitsOnly([c]) == "";
    }
  }

  lemma PhoneAcceptsMobile(n: string)
    requires n == "601234567"
    ensures ValidatePhone(n, Some("420"))
  {
    assert AllDigits(n);
    DigitsOnlyOfDigits(n);
    assert n[0] == '6' && n[1] == '0' && n[2] == '1';
    assert CzKnown(n);
  }

  /** Nine digits are not enough: 1 opens no Czech range. */
  lemma PhoneRejectsUnknownRange(u: string)
    requires u == "123456789"
    ensures !ValidatePhone(u, Some("420"))
  {
    assert AllDigits(u);
    DigitsOnlyOfDigits(u);
    assert u[0] == '1';
    assert !CzKnown(u);
  }

  /** Eight digits are too few. */
  lemma PhoneRejectsShort()
    ensures !ValidatePhone("60123456", Some("420"))
  {
    var e := "60123456";
    assert AllDigits(e);
    DigitsOnlyOfDigits(e);
  }
}

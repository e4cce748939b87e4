/** Where a job is, decided from what its source says. */
module Location {
  import opened Prelude
  import opened Text
  import opened ReferenceData
  import opened Sorting

  /** The raw fields, as the source gives them, and the tables letters are judged by. */
  datatype Raw = Raw(country: Option<string>, state: Option<string>, city: Option<string>, text: Option<string>,
                     employerCountry: Option<string>, unicode: Unicode)

  datatype Place = Place(country: Option<string>, state: Option<string>, city: Option<string>)

  function Key(s: string): string {
    Lower(Strip(s))
  }

  // ---- the lookups --------------------------------------------------------------------------

  /** Two-letter code or full name. */
  function ResolveState(value: string): (code: Option<string>)
    ensures code.Some? ==> IsUsCode(code.value)
  {
    var cleaned := Strip(value);
    if cleaned == "" then None
    else if IsUsCode(Upper(cleaned)) then Some(Upper(cleaned))
    else UsStateByName(Lower(cleaned))
  }

  function ResolveIndiaState(value: string): (code: Option<string>)
    ensures code.Some? ==> IsIndiaCode(code.value)
  {
    var cleaned := Strip(value);
    if cleaned == "" then None
    else if IsIndiaCode(Upper(cleaned)) then Some(Upper(cleaned))
    else IndiaStateByName(Lower(cleaned))
  }

  function IndiaStateFromCity(city: Option<string>): (code: Option<string>)
    ensures code.Some? ==> IsIndiaCode(code.value)
  {
    if city.None? then None else IndiaStateOfCity(Key(city.value))
  }

  function Lookup(table: seq<(string, string)>, name: string): Option<string> {
    if table == [] then None
    else if table[0].0 == name then Some(table[0].1)
    else Lookup(table[1..], name)
  }

  /** A country's name, or two letters, of any alphabet, that are no state's code. */
  function ResolveCountry(value: Option<string>, u: Unicode): Option<string> {
    var cleaned := Key(value.GetOr(""));
    if cleaned == "" then None
    else if cleaned in UsCountryNames() then Some("US")
    else if Lookup(OtherCountryNames(), cleaned).Some? then Lookup(OtherCountryNames(), cleaned)
    else
      var code := u.upper(cleaned);
      if |code| == 2 && u.AllLetters(code) && !IsUsCode(code) then Some(code) else None
  }

  // ---- a country in free text ---------------------------------------------------------------

  /** The name stands at i and no letter touches it. */
  predicate StandsAt(text: string, name: string, i: nat) {
    && i + |name| <= |text| && text[i..i + |name|] == name
    && (i == 0 || !IsLower(text[i - 1])) && (i + |name| == |text| || !IsLower(text[i + |name|]))
  }

  predicate Mentions(text: string, name: string) {
    exists i :: 0 <= i <= |text| && StandsAt(text, name, i)
  }

  function NoShorter(): ((string, string), (string, string)) -> bool {
    (a: (string, string), b: (string, string)) => |a.0| >= |b.0|
  }

  /** Stable, longest name first. */
  function ByLength(table: seq<(string, string)>): seq<(string, string)> {
    SortBy(table, NoShorter())
  }

  /** The code of the first name that is mentioned. */
  function FirstMention(text: string, table: seq<(string, string)>): Option<string> {
    if table == [] then None
    else if Mentions(text, table[0].0) then Some(table[0].1)
    else FirstMention(text, table[1..])
  }

  predicate MentionsUs(text: string) {
    exists i :: 0 <= i < |UsCountryNames()| && Mentions(text, UsCountryNames()[i])
  }

  function CountryInText(text: string): Option<string> {
    if MentionsUs(Lower(text)) then Some("US") else FirstMention(Lower(text), ByLength(OtherCountryNames()))
  }

  method CountryFromText(text: string) returns (country: Option<string>)
    ensures country == CountryInText(text)
  {
    hide Mentions;
    hide ByLength;
    hide OtherCountryNames;
    hide UsCountryNames;
    var lowered := Lower(text);
    var us := UsCountryNames();
    for k := 0 to |us|
      invariant forall i :: 0 <= i < k ==> !Mentions(lowered, us[i])
    {
      if Mentions(lowered, us[k]) {
        return Some("US");
      }
    }
    var others := ByLength(OtherCountryNames());
    for k := 0 to |others|
      invariant FirstMention(lowered, others) == FirstMention(lowered, others[k..])
    {
      if Mentions(lowered, others[k].0) {
        return Some(others[k].1);
      }
      assert others[k..][1..] == others[k + 1..];
    }
    assert others[|others|..] == [];
    return None;
  }

  ghost predicate LongestFirst(table: seq<(string, string)>) {
    OrderedBy(table, NoShorter())
  }

  lemma ByLengthIsOrdered(table: seq<(string, string)>)
    ensures LongestFirst(ByLength(table))
    ensures forall x :: x in ByLength(table) <==> x in table
  {
    SortOrders(table, NoShorter());
  }

  lemma {:induction false} FirstMentionExactly(text: string, table: seq<(string, string)>) returns (k: nat)
    requires LongestFirst(table)
    ensures FirstMention(text, table).None? ==> forall x :: x in table ==> !Mentions(text, x.0)
    ensures FirstMention(text, table).Some? ==>
      && k < |table| && FirstMention(text, table).value == table[k].1 && Mentions(text, table[k].0)
      && forall x :: x in table && Mentions(text, x.0) ==> |x.0| <= |table[k].0|
  {
    hide Mentions;
    k := 0;
    if table != [] {
      assert table == [table[0]] + table[1..];
      if !Mentions(text, table[0].0) {
        var j := FirstMentionExactly(text, table[1..]);
        k := j + 1;
      } else {
        forall x | x in table
          ensures |x.0| <= |table[0].0|
        {
          var i :| 0 <= i < |table| && table[i] == x;
        }
      }
    }
  }

  /** No shorter name shadows a longer one: a country read from text is the United States if any of
      its names stands there, and otherwise the country of a longest name that does. */
  lemma LongestNameWins(text: string)
    ensures CountryInText(text).None? <==>
      !MentionsUs(Lower(text)) && forall x :: x in OtherCountryNames() ==> !Mentions(Lower(text), x.0)
    ensures CountryInText(text).Some? && !MentionsUs(Lower(text)) ==>
      exists x :: x in OtherCountryNames() && x.1 == CountryInText(text).value && Mentions(Lower(text), x.0)
        && forall y :: y in OtherCountryNames() && Mentions(Lower(text), y.0) ==> |y.0| <= |x.0|
  {
    hide Mentions;
    hide MentionsUs;
    hide ByLength;
    hide OtherCountryNames;
    var table := ByLength(OtherCountryNames());
    ByLengthIsOrdered(OtherCountryNames());
    var k := FirstMentionExactly(Lower(text), table);
    if FirstMention(Lower(text), table).Some? {
      assert table[k] in table;
    }
  }

  // ---- a city and a state in free text ---------------------------------------------------------

  function Split(s: string): (parts: seq<string>)
    ensures |parts| >= 1
  {
    if s == "" then [""]
    else
      var rest := Split(s[1..]);
      if s[0] == ',' then [""] + rest else [[s[0]] + rest[0]] + rest[1..]
  }

  function Parts(s: string): seq<string> {
    var pieces := Split(s);
    Filter(seq(|pieces|, i requires 0 <= i < |pieces| => Strip(pieces[i])), (part: string) => part != "")
  }

  predicate IsStateChar(c: char) { IsAlpha(c) || c == ' ' || c == '.' }

  /** A ZIP or ZIP+4. */
  predicate IsZip(s: string) {
    && (|s| == 5 || (|s| == 10 && s[5] == '-'))
    && forall i :: 0 <= i < |s| && i != 5 ==> IsDigit(s[i])
  }

  /** The state's name is the shortest text of at least two characters that nothing but a ZIP follows. */
  predicate EndsAt(part: string, n: nat) {
    && 2 <= n <= Min(30, |part|) && (forall i :: 0 <= i < n ==> IsStateChar(part[i]))
    && (Strip(part[n..]) == "" || IsZip(Strip(part[n..])))
  }

  function StateLength(part: string, from: nat): (n: Option<nat>)
    ensures n.Some? ==> n.value <= |part|
    decreases |part| - from
  {
    if from > |part| then None
    else if EndsAt(part, from) then Some(from)
    else StateLength(part, from + 1)
  }

  /** City and state of the last comma-separated pair, or a bare state. */
  function ParseCityState(text: string): (found: (Option<string>, Option<string>))
    ensures found.1.Some? ==> IsUsCode(found.1.value)
  {
    var cleaned := Strip(StripBy(Strip(text), c => c == '-'));
    if cleaned == "" then (None, None)
    else
      var parts := Parts(cleaned);
      var pair := if |parts| >= 2 then StateLength(Last(parts), 2) else None;
      var state := if pair.Some? then ResolveState(Last(parts)[..pair.value]) else None;
      if state.Some? then (Some(parts[|parts| - 2]), state) else (None, ResolveState(cleaned))
  }

  function Collapse(s: string): string
    decreases |s|
  {
    if s == "" then ""
    else if IsSpace(s[0]) then
      DropLeftShrinks(s[1..], IsSpace);
      " " + Collapse(DropLeft(s[1..], IsSpace))
    else [s[0]] + Collapse(s[1..])
  }

  lemma {:induction false} DropLeftShrinks(s: string, drop: char -> bool)
    ensures |DropLeft(s, drop)| <= |s|
  {
    if s != "" && drop(s[0]) {
      DropLeftShrinks(s[1..], drop);
    }
  }

  predicate IsCityTrim(c: char) { c == ' ' || c == ',' || c == '-' || c == '\t' || c == '\n' }

  function CleanCity(value: Option<string>): Option<string> {
    var cleaned := StripBy(Collapse(value.GetOr("")), IsCityTrim);
    if cleaned == "" then None else Some(cleaned)
  }

  // ---- the decision ------------------------------------------------------------------------------

  function TextOf(raw: Raw): string {
    Strip(raw.text.GetOr(""))
  }

  function StateField(raw: Raw): string {
    Strip(raw.state.GetOr(""))
  }

  /** The country the source states, in its field or else in its text. */
  function StatedCountry(raw: Raw): Option<string> {
    if ResolveCountry(raw.country, raw.unicode).Some? then ResolveCountry(raw.country, raw.unicode)
    else if TextOf(raw) != "" then CountryInText(TextOf(raw))
    else None
  }

  /** An Indian subdivision counts unless the stated country is another. */
  function IndiaState(raw: Raw): (code: Option<string>)
    ensures code.Some? ==> IsIndiaCode(code.value)
  {
    if StatedCountry(raw).GetOr("IN") == "IN" then ResolveIndiaState(StateField(raw)) else None
  }

  predicate ForeignState(raw: Raw) {
    IndiaState(raw).None? && IsNonUsSubdivision(Lower(StateField(raw)))
  }

  /** State and city of the fields, each filled from the free text where it is empty. */
  function StatedPlace(raw: Raw): (found: (Option<string>, Option<string>))
    ensures found.0.Some? ==> IsUsCode(found.0.value)
  {
    var state, city := ResolveState(StateField(raw)), CleanCity(raw.city);
    if TextOf(raw) == "" then (state, city)
    else
      var parsed := ParseCityState(TextOf(raw));
      (state.OrElse(parsed.1), city.OrElse(parsed.0))
  }

  /** A two-letter code in the city field is the state, when there is none. */
  function Promoted(found: (Option<string>, Option<string>)): (r: (Option<string>, Option<string>))
    ensures found.0.Some? ==> r == found
    ensures r.0.Some? && found.0.None? ==> IsUsCode(r.0.value)
  {
    if found.0.None? && found.1.Some? && IsCodeCity(found.1.value) then (ResolveState(found.1.value), None) else found
  }

  /** A metro shorthand is its city, and its state when there is none. */
  function Expanded(found: (Option<string>, Option<string>)): (r: (Option<string>, Option<string>))
    ensures found.0.Some? ==> r.0 == found.0
    ensures r.0.Some? && found.0.None? ==> IsUsCode(r.0.value)
  {
    if found.1.Some? && IsMetroCity(found.1.value) then
      var alias := CityAlias(Key(found.1.value)).value;
      (found.0.OrElse(Some(alias.1)), Some(alias.0))
    else found
  }

  /** The city is written as an American two-letter code. */
  predicate IsCodeCity(city: string) {
    |Strip(city)| == 2 && ResolveState(city).Some?
  }

  /** The city is a metro shorthand. */
  predicate IsMetroCity(city: string) {
    CityAlias(Key(city)).Some?
  }

  /** State and city after the free text, a code in the city field and the metro names are read. */
  function StateAndCity(raw: Raw): (found: (Option<string>, Option<string>))
    ensures found.0.Some? ==> IsUsCode(found.0.value)
  {
    Expanded(Promoted(StatedPlace(raw)))
  }

  function CityKey(city: Option<string>): string {
    Key(city.GetOr(""))
  }

  /** The country after all evidence: stated, or an Indian subdivision, or an American state. */
  function Evidence(raw: Raw): Option<string> {
    if StatedCountry(raw).Some? then StatedCountry(raw)
    else if IndiaState(raw).Some? then Some("IN")
    else if StateAndCity(raw).0.Some? then Some("US")
    else None
  }

  /** Nothing confirms the claim that a job without a state is American. */
  predicate Unconfirmed(raw: Raw) {
    && StateAndCity(raw).0.None?
    && var employer := ResolveCountry(raw.employerCountry, raw.unicode);
       (employer.Some? && employer != Some("US")) || IsAmbiguousCity(CityKey(StateAndCity(raw).1))
  }

  /** The policy: contradictory or thin evidence gives no country. */
  function Resolve(raw: Raw): Place {
    var (state, city) := StateAndCity(raw);
    var country := Evidence(raw);
    if ForeignState(raw) then Place(None, None, CleanCity(raw.city))
    else if country == Some("IN") then Place(country, IndiaState(raw).OrElse(IndiaStateFromCity(city)), city)
    else if IsNonUsCity(CityKey(city)) then Place(None, None, city)
    else if country != Some("US") then Place(country, None, city)
    else if Unconfirmed(raw) then Place(None, None, city)
    else Place(country, state, city)
  }

  /** The country names a remote phrase is searched for. */
  function RemoteNames(): seq<string> {
    ["us", "usa", "u.s.", "united states", "america"]
  }

  predicate IsUsRemotePhrase(text: string, saysRemote: string -> bool) {
    saysRemote(text) && exists i :: 0 <= i < |RemoteNames()| && Mentions(Lower(text), RemoteNames()[i])
  }

  lemma RemoteNamesAreUsNames(i: nat) returns (k: nat)
    requires i < |RemoteNames()|
    ensures k < |UsCountryNames()| && UsCountryNames()[k] == RemoteNames()[i]
  {
    k := if i < 3 then i else if i == 3 then 4 else 8;
  }

  /** The step that looks for "US remote" in the text never finds anything: every phrase it knows is
      also a country name the text was already searched for. */
  lemma LateStepIsDead(raw: Raw, saysRemote: string -> bool)
    requires Evidence(raw).None? && TextOf(raw) != ""
    ensures !IsUsRemotePhrase(TextOf(raw), saysRemote)
  {
    hide Mentions;
    hide UsCountryNames;
    hide RemoteNames;
    hide StateAndCity;
    hide IndiaState;
    hide ResolveCountry;
    hide FirstMention;
    hide OtherCountryNames;
    hide Strip;
    hide ByLength;
    if IsUsRemotePhrase(TextOf(raw), saysRemote) {
      var i :| 0 <= i < |RemoteNames()| && Mentions(Lower(TextOf(raw)), RemoteNames()[i]);
      var k := RemoteNamesAreUsNames(i);
    }
  }

  /** An empty field is no evidence of anything. */
  lemma EmptyIsNothing()
    ensures Key("") == "" && ResolveIndiaState("").None?
  {
  }

  /** The third step: state and city out of the fields, the text and the metro names. */
  method ReadStateAndCity(raw: Raw) returns (state: Option<string>, city: Option<string>)
    ensures (state, city) == StateAndCity(raw)
  {
    hide ResolveState;
    hide ParseCityState;
    hide CleanCity;
    hide CityAlias;
    hide Key;
    hide Strip;
    hide IsUsCode;
    var text := TextOf(raw);
    state := ResolveState(StateField(raw));
    city := CleanCity(raw.city);
    if (state.None? || city.None?) && text != "" {
      var (parsedCity, parsedState) := ParseCityState(text);
      city := city.OrElse(parsedCity);
      state := state.OrElse(parsedState);
    }
    if city.Some? && state.None? && |Strip(city.value)| == 2 {
      var promoted := ResolveState(city.value);
      if promoted.Some? {
        state := promoted;
        city := None;
      }
    }
    if city.Some? {
      var alias := CityAlias(Key(city.value));
      if alias.Some? {
        city := Some(alias.value.0);
        state := state.OrElse(Some(alias.value.1));
      }
    }
  }

  /** normalize, step by step; saysRemote is the search for a remote-work word. */
  method Normalize(raw: Raw, saysRemote: string -> bool) returns (place: Place)
    ensures place == Resolve(raw)
  {
    EmptyIsNothing();
    hide ResolveCountry;
    hide CountryInText;
    hide ResolveIndiaState;
    hide CleanCity;
    hide StateAndCity;
    hide IsNonUsSubdivision;
    hide IsNonUsCity;
    hide IsAmbiguousCity;
    hide IndiaStateFromCity;
    hide Key;
    hide Strip;
    hide Lower;
    hide IsUsRemotePhrase;
    hide IsUsCode;
    hide IsIndiaCode;
    var text := TextOf(raw);
    var stateRaw := StateField(raw);
    var country := ResolveCountry(raw.country, raw.unicode);
    if country.None? && text != "" {
      country := CountryFromText(text);
    }
    var indiaState := if stateRaw != "" then ResolveIndiaState(stateRaw) else None;
    if indiaState.Some? && country.None? {
      country := Some("IN");
    } else if indiaState.Some? && country != Some("IN") {
      indiaState := None;
    }
    if stateRaw != "" && indiaState.None? && IsNonUsSubdivision(Lower(stateRaw)) {
      return Place(None, None, CleanCity(raw.city));
    }
    var state, city := ReadStateAndCity(raw);
    if state.Some? && IsUsCode(state.value) && country.None? {
      country := Some("US");
    }
    var cityKey := Key(city.GetOr(""));
    if cityKey != "" && IsNonUsCity(cityKey) && country != Some("IN") {
      return Place(None, None, city);
    }
    var employer := ResolveCountry(raw.employerCountry, raw.unicode);
    if country == Some("US") && state.None? && employer.Some? && employer != Some("US") {
      return Place(None, None, city);
    }
    if country == Some("US") && state.None? && IsAmbiguousCity(cityKey) {
      return Place(None, None, city);
    }
    if country == Some("IN") {
      state := indiaState.OrElse(IndiaStateFromCity(city));
    } else if country.Some? && country != Some("US") && state.Some? {
      state := None;
    }
    if country.None? && text != "" {
      LateStepIsDead(raw, saysRemote);
      if IsUsRemotePhrase(text, saysRemote) {
        country := Some("US");
      }
    }
    if country.None? && city.Some? {
      return Place(None, None, city);
    }
    place := Place(country, if country == Some("US") || country == Some("IN") then state else None, city);
  }

  // ---- what the decision guarantees ----------------------------------------------------------------

  /** An American result is never contradicted: the state field names no foreign subdivision, the
      city is no foreign city, and a job without a state has neither an ambiguous city nor an employer
      registered abroad. */
  lemma AmericanIsSafe(raw: Raw)
    requires Resolve(raw).country == Some("US")
    ensures !IsNonUsSubdivision(Lower(StateField(raw)))
    ensures !IsNonUsCity(CityKey(Resolve(raw).city))
    ensures Resolve(raw).state.None? ==> !IsAmbiguousCity(CityKey(Resolve(raw).city))
    ensures Resolve(raw).state.None? ==> ResolveCountry(raw.employerCountry, raw.unicode).None? || ResolveCountry(raw.employerCountry, raw.unicode) == Some("US")
  {
    hide ResolveCountry;
    hide CountryInText;
    hide ResolveIndiaState;
    hide CleanCity;
    hide StateAndCity;
    hide IsNonUsSubdivision;
    hide IsNonUsCity;
    hide IsAmbiguousCity;
    hide IndiaStateFromCity;
    hide Strip;
    hide Lower;
    hide IsUsCode;
    hide IsIndiaCode;
  }

  /** And no more than that is asked of a job stated to be American: it is kept if and only if
      nothing contradicts it. */
  lemma AmericanExactly(raw: Raw)
    requires StatedCountry(raw) == Some("US")
    ensures Resolve(raw).country == Some("US") <==>
      && !IsNonUsSubdivision(Lower(StateField(raw)))
      && !IsNonUsCity(CityKey(StateAndCity(raw).1))
      && (StateAndCity(raw).0.Some? || !Unconfirmed(raw))
  {
    hide StatedCountry;
    hide ResolveIndiaState;
    hide CleanCity;
    hide StateAndCity;
    hide IsNonUsSubdivision;
    hide IsNonUsCity;
    hide IsAmbiguousCity;
    hide IndiaStateFromCity;
    hide Strip;
    hide Lower;
  }

  /** A state code is stored for the two countries whose subdivisions are understood, and is one of
      that country's own. */
  lemma StateBelongsToCountry(raw: Raw)
    requires Resolve(raw).state.Some?
    ensures Resolve(raw).country == Some("US") || Resolve(raw).country == Some("IN")
    ensures Resolve(raw).country == Some("US") ==> IsUsCode(Resolve(raw).state.value)
    ensures Resolve(raw).country == Some("IN") ==> IsIndiaCode(Resolve(raw).state.value)
  {
    hide ResolveCountry;
    hide CountryInText;
    hide ResolveIndiaState;
    hide CleanCity;
    hide StateAndCity;
    hide IsNonUsSubdivision;
    hide IsNonUsCity;
    hide IsAmbiguousCity;
    hide IndiaStateFromCity;
    hide Strip;
    hide Lower;
    hide IsUsCode;
    hide IsIndiaCode;
  }

  /** The stated country is never replaced by another: later evidence can only withhold the job. */
  lemma StatedCountryStands(raw: Raw)
    requires StatedCountry(raw).Some?
    ensures Resolve(raw).country == StatedCountry(raw) || Resolve(raw).country.None?
  {
    hide StatedCountry;
    hide CleanCity;
    hide StateAndCity;
    hide IsNonUsSubdivision;
    hide IsNonUsCity;
    hide IsAmbiguousCity;
    hide IndiaStateFromCity;
    hide Strip;
  }

  /** No country, state or text: what is left to place the job is the city. */
  predicate CityIsAll(raw: Raw) {
    ResolveCountry(raw.country, raw.unicode).None? && StateField(raw) == "" && TextOf(raw) == ""
  }

  lemma MetroKey(name: string)
    requires IsMetro(name)
    ensures Key(name) == Lower(name)
  {
    var _, _ := StripPart(name);
  }

  lemma MetroIsNotForeign(name: string)
    requires IsMetro(name)
    ensures !IsNonUsCity(Lower(name))
  {
    MetroIsNotCanadian(name);
    MetroIsNotBritish(name);
    MetroIsNotOverseas(name);
    MetroIsNotEuropean(name);
    hide IsCanadianOrMexicanCity;
    hide IsBritishIrishOrIndianCity;
    hide IsOverseasCity;
    hide IsEuropeanCity;
  }

  lemma MetroIsNotCanadian(name: string)
    requires IsMetro(name)
    ensures !IsCanadianOrMexicanCity(Lower(name))
  {
    var key := Lower(name);
    assert |key| == |name| && key[0] == LowerChar(name[0]) && key[1] == LowerChar(name[1]) && key[2] == LowerChar(name[2]);
    hide IsMetro;
  }

  lemma MetroIsNotBritish(name: string)
    requires IsMetro(name)
    ensures !IsBritishIrishOrIndianCity(Lower(name))
  {
    var key := Lower(name);
    assert |key| == |name| && key[0] == LowerChar(name[0]) && key[1] == LowerChar(name[1]) && key[2] == LowerChar(name[2]);
    hide IsMetro;
  }

  lemma MetroIsNotOverseas(name: string)
    requires IsMetro(name)
    ensures !IsOverseasCity(Lower(name))
  {
    var key := Lower(name);
    assert |key| == |name| && key[0] == LowerChar(name[0]) && key[1] == LowerChar(name[1]) && key[2] == LowerChar(name[2]);
    hide IsMetro;
  }

  lemma MetroIsNotEuropean(name: string)
    requires IsMetro(name)
    ensures !IsEuropeanCity(Lower(name))
  {
    var key := Lower(name);
    assert |key| == |name| && key[0] == LowerChar(name[0]) && key[1] == LowerChar(name[1]) && key[2] == LowerChar(name[2]);
    hide IsMetro;
  }

  lemma SilentFields(raw: Raw)
    requires CityIsAll(raw)
    ensures StatedCountry(raw).None? && IndiaState(raw).None? && ResolveState(StateField(raw)).None?
    ensures !ForeignState(raw)
  {
    EmptyIsNothing();
    hide ResolveCountry;
    hide IsNonUsSubdivision;
  }

  /** What the city alone says: a state's code, a metro name, or nothing. */
  lemma StateOfCity(raw: Raw)
    requires CityIsAll(raw)
    ensures var city := CleanCity(raw.city);
      StateAndCity(raw) ==
        if city.Some? && IsCodeCity(city.value) then (ResolveState(city.value), None)
        else if city.Some? && IsMetroCity(city.value) then
          (Some(CityAlias(Key(city.value)).value.1), Some(CityAlias(Key(city.value)).value.0))
        else (None, city)
  {
    SilentFields(raw);
    EmptyIsNothing();
    hide StatedCountry;
    hide IndiaState;
    hide CleanCity;
    hide CityAlias;
    hide ResolveState;
    hide ParseCityState;
    hide StateField;
    hide Key;
    hide Strip;
    hide IsUsCode;
    hide IsMetro;
    hide ResolveCountry;
    hide ResolveIndiaState;
    hide IsNonUsSubdivision;
    hide Lower;
    assert TextOf(raw) == "" && ResolveState(StateField(raw)).None?;
    hide CityIsAll;
    hide TextOf;
  }

  lemma CityIsHome(raw: Raw)
    requires CityIsAll(raw) && StateAndCity(raw).0.Some?
    ensures !IsNonUsCity(CityKey(StateAndCity(raw).1))
  {
    StateOfCity(raw);
    EmptyIsNothing();
    hide StateAndCity;
    hide IsNonUsCity;
    hide IsCodeCity;
    hide CityIsAll;
    hide CleanCity;
    hide IsMetro;
    hide CityAlias;
    var city := CleanCity(raw.city);
    if city.Some? && !IsCodeCity(city.value) {
      MetroKey(CityAlias(Key(city.value)).value.0);
      MetroIsNotForeign(CityAlias(Key(city.value)).value.0);
    }
  }

  lemma CityState(raw: Raw)
    requires CityIsAll(raw)
    ensures StateAndCity(raw).0.Some? <==>
      CleanCity(raw.city).Some? && (IsCodeCity(CleanCity(raw.city).value) || IsMetroCity(CleanCity(raw.city).value))
  {
    StateOfCity(raw);
    hide StateAndCity;
    hide CityIsAll;
    hide CleanCity;
    hide CityAlias;
    hide ResolveState;
    hide Strip;
    hide Key;
  }

  /** A city alone does make a job American, when it is written as a state's code or as one of the
      metro shorthands, and only then. */
  lemma CityAlonePromotes(raw: Raw)
    requires CityIsAll(raw)
    ensures Resolve(raw).country == Some("US") <==>
      CleanCity(raw.city).Some? && (IsCodeCity(CleanCity(raw.city).value) || IsMetroCity(CleanCity(raw.city).value))
  {
    hide CityIsAll;
    hide CleanCity;
    hide IsCodeCity;
    hide IsMetroCity;
    hide IsNonUsCity;
    hide StateAndCity;
    hide StatedCountry;
    hide IndiaState;
    hide ForeignState;
    hide Resolve;
    hide CityKey;
    SilentFields(raw);
    CityState(raw);
    if StateAndCity(raw).0.Some? {
      CityIsHome(raw);
    }
    OnlyStateProves(raw);
  }

  lemma OnlyStateProves(raw: Raw)
    requires StatedCountry(raw).None? && IndiaState(raw).None? && !ForeignState(raw)
    requires StateAndCity(raw).0.Some? ==> !IsNonUsCity(CityKey(StateAndCity(raw).1))
    ensures Resolve(raw).country == Some("US") <==> StateAndCity(raw).0.Some?
  {
    hide StatedCountry;
    hide IndiaState;
    hide StateAndCity;
    hide ForeignState;
    hide CleanCity;
    hide IsNonUsCity;
    hide IsAmbiguousCity;
    hide IndiaStateFromCity;
    hide CityKey;
    hide ResolveCountry;
    hide IsUsCode;
    hide IsIndiaCode;
    assert "US"[0] != "IN"[0];
  }

  lemma {:induction false} CollapsedWord(s: string)
    requires forall i :: 0 <= i < |s| ==> !IsSpace(s[i])
    ensures Collapse(s) == s
  {
    if s != "" {
      CollapsedWord(s[1..]);
    }
  }

  lemma CleanWord(name: string)
    requires name != "" && forall i :: 0 <= i < |name| ==> IsLower(name[i])
    ensures CleanCity(Some(name)) == Some(name)
  {
    hide Collapse;
    hide DropLeft;
    hide DropRight;
    assert forall i :: 0 <= i < |name| ==> !IsSpace(name[i]) && !IsCityTrim(name[i]);
    hide IsSpace;
    hide IsLower;
    hide IsCityTrim;
    CollapsedWord(name);
    DropLeftPart(name, IsCityTrim);
    DropRightPart(name, IsCityTrim);
  }

  lemma BrooklynIsMetro()
    ensures IsMetroCity("brooklyn")
  {
    var name := "brooklyn";
    var _, _ := StripPart(name);
    hide Strip;
    assert Lower(name) == name;
  }

  /** So Brooklyn, with nothing else, is in the United States. */
  lemma BrooklynAlone(raw: Raw)
    requires CityIsAll(raw) && raw.city == Some("brooklyn")
    ensures Resolve(raw).country == Some("US")
  {
    CleanWord("brooklyn");
    BrooklynIsMetro();
    CityAlonePromotes(raw);
    hide Resolve;
    hide CleanCity;
    hide CityAlias;
    hide Key;
  }

  /** A row that states only a subdivision. */
  function OnlyState(state: string, u: Unicode): Raw {
    Raw(None, Some(state), None, None, None, u)
  }

  lemma CodeIsClean(code: string)
    requires IsUsCode(code)
    ensures Strip(code) == code && Upper(code) == code && ResolveState(code) == Some(code)
    ensures ResolveIndiaState(code).Some? <==> IsIndiaCode(code)
    ensures IsIndiaCode(code) ==> ResolveIndiaState(code) == Some(code)
  {
  }

  lemma ShortSubdivision(name: string)
    requires |name| == 2
    ensures IsNonUsSubdivision(name) ==>
      name == "on" || name == "qc" || name == "bc" || name == "ab" || name == "mb" || name == "sk" || name == "ns"
      || name == "nb" || name == "nl" || name == "pe" || name == "yt" || name == "nu" || name == "nt"
  {
  }

  lemma CodeIsNoForeignSubdivision(code: string)
    requires IsUsCode(code)
    ensures !IsNonUsSubdivision(Lower(code))
  {
    var name := Lower(code);
    assert IsUpper(code[0]) && IsUpper(code[1]);
    ShortSubdivision(name);
    hide IsNonUsSubdivision;
    assert code[0] == name[0] - ('a' - 'A') && code[1] == name[1] - ('a' - 'A');
  }

  lemma NothingElse(code: string, u: Unicode)
    ensures TextOf(OnlyState(code, u)) == "" && ResolveCountry(None, u).None? && CleanCity(None).None?
  {
  }

  lemma BareEvidence(code: string, u: Unicode)
    requires IsUsCode(code)
    ensures StateField(OnlyState(code, u)) == code && StatedCountry(OnlyState(code, u)).None?
    ensures StateAndCity(OnlyState(code, u)) == (Some(code), None)
    ensures IndiaState(OnlyState(code, u)) == if IsIndiaCode(code) then Some(code) else None
  {
    CodeIsClean(code);
    NothingElse(code, u);
    hide CountryInText;
    hide ParseCityState;
    hide CityAlias;
    hide ResolveCountry;
    hide CleanCity;
    hide ResolveState;
    hide ResolveIndiaState;
    hide IsUsCode;
    hide IsIndiaCode;
    hide Strip;
    hide Upper;
  }

  /** Nothing but a subdivision is stated, and it is no foreign one: India's reading goes first. */
  lemma OnlyStateResolves(raw: Raw, code: string)
    requires StatedCountry(raw).None? && !ForeignState(raw) && StateAndCity(raw) == (Some(code), None)
    ensures IndiaState(raw).Some? ==> Resolve(raw) == Place(Some("IN"), IndiaState(raw), None)
    ensures IndiaState(raw).None? ==> Resolve(raw) == Place(Some("US"), Some(code), None)
  {
    hide StatedCountry;
    hide ForeignState;
    hide StateAndCity;
    hide IndiaState;
    hide IsNonUsCity;
    hide CleanCity;
    hide IndiaStateFromCity;
    hide IsUsCode;
    hide IsIndiaCode;
    EmptyIsNothing();
    assert CityKey(None) == "";
    hide CityKey;
    hide Key;
    assert !Unconfirmed(raw);
    hide Unconfirmed;
    assert "US"[0] != "IN"[0];
  }

  lemma BareCodeIsNotForeign(code: string, u: Unicode)
    requires IsUsCode(code)
    ensures !ForeignState(OnlyState(code, u))
  {
    BareEvidence(code, u);
    CodeIsNoForeignSubdivision(code);
    hide StateField;
    hide IndiaState;
    hide StatedCountry;
    hide StateAndCity;
    hide IsNonUsSubdivision;
    hide Lower;
  }

  /** A bare American state code leads to the United States unless India has the same code: then the
      Indian reading wins. */
  lemma BareStateCode(code: string, u: Unicode)
    requires IsUsCode(code)
    ensures Resolve(OnlyState(code, u)) == Place(Some(if IsIndiaCode(code) then "IN" else "US"), Some(code), None)
  {
    hide IsUsCode;
    hide IsIndiaCode;
    hide OnlyState;
    hide Resolve;
    hide StatedCountry;
    hide StateAndCity;
    hide IndiaState;
    hide StateField;
    hide ForeignState;
    BareEvidence(code, u);
    BareCodeIsNotForeign(code, u);
    OnlyStateResolves(OnlyState(code, u), code);
  }

  /** The codes the two countries share. */
  lemma SharedCodes(code: string)
    ensures IsUsCode(code) && IsIndiaCode(code) <==>
      (code == "AR" || code == "AS" || code == "CT" || code == "GA" || code == "LA" || code == "MN" || code == "MP" || code == "TN")
  {
    if |code| == 2 {
      assert code == [code[0], code[1]];
    }
  }
}

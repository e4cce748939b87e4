/** What a job's place is in the end: of the fields, of the free text, and of the guards between. */
module Placement {
  import opened Prelude
  import opened Text
  import opened ReferenceData
  import opened Location
  import opened FreeText
  import opened Words

  // ---- what a state is called ------------------------------------------------------------------

  lemma UpperOfLower(s: string)
    ensures Upper(Lower(s)) == Upper(s)
  {
    forall i | 0 <= i < |s|
      ensures Upper(Lower(s))[i] == Upper(s)[i]
    {
      assert Lower(s)[i] == LowerChar(s[i]);
    }
  }

  /** Neither case nor outer white space matters to what a state is called. */
  lemma StateSpelling(a: string, b: string)
    requires Lower(Strip(a)) == Lower(Strip(b))
    ensures ResolveState(a) == ResolveState(b)
  {
    UpperOfLower(Strip(a));
    UpperOfLower(Strip(b));
    assert |Lower(Strip(a))| == |Strip(a)| && |Lower(Strip(b))| == |Strip(b)|;
    hide Strip;
    hide Upper;
    hide UsStateByName;
    hide IsUsCode;
  }

  /** It is a code, or a name of the table. */
  lemma StateExactly(value: string)
    ensures IsUsCode(Upper(Strip(value))) ==> ResolveState(value) == Some(Upper(Strip(value)))
    ensures !IsUsCode(Upper(Strip(value))) ==> ResolveState(value) == UsStateByName(Lower(Strip(value)))
  {
    if Strip(value) == "" {
      assert Upper("") == "" && Lower("") == "";
      NoNameIsNoState();
    }
    hide Strip;
    hide UsStateByName;
  }

  /** So it is with the subdivisions of India. */
  lemma IndiaStateExactly(value: string)
    ensures IsIndiaCode(Upper(Strip(value))) ==> ResolveIndiaState(value) == Some(Upper(Strip(value)))
    ensures !IsIndiaCode(Upper(Strip(value))) ==> ResolveIndiaState(value) == IndiaStateByName(Lower(Strip(value)))
  {
    if Strip(value) == "" {
      assert Upper("") == "" && Lower("") == "" && |""| < 3;
    }
    hide Strip;
    hide IndiaStateByName;
  }

  lemma NoNameIsNoState()
    ensures UsStateByName("").None?
  {
    assert !IsStateName("");
    hide IsStateName;
  }

  lemma MichiganIsAState()
    ensures ResolveState("Michigan") == Some("MI") && ResolveState("mi") == Some("MI")
  {
    var name := "Michigan";
    assert Piece(name) && Lower(name) == "michigan";
    PieceIsStripped(name);
    StateExactly(name);
    var code := "mi";
    assert Piece(code) && Upper(code) == "MI";
    PieceIsStripped(code);
    StateExactly(code);
    hide Strip;
  }

  // ---- what a country is called ------------------------------------------------------------------

  lemma {:induction false} LookupExactly(table: seq<(string, string)>, name: string)
    ensures Lookup(table, name).None? <==> forall x :: x in table ==> x.0 != name
    ensures Lookup(table, name).Some? ==> (name, Lookup(table, name).value) in table
  {
    if table != [] {
      LookupExactly(table[1..], name);
      assert table == [table[0]] + table[1..];
    }
  }

  /** The country of a job is that of its field, or else the one its text mentions. A field names a country by
      a name of the tables, or by two letters, of any alphabet, that are no American state's code. */
  lemma CountryExactly(raw: Raw)
    ensures var field, text := ResolveCountry(raw.country, raw.unicode), Strip(raw.text.GetOr(""));
      StatedCountry(raw) == if field.Some? then field else if text != "" then CountryInText(text) else None
    ensures var field, name := ResolveCountry(raw.country, raw.unicode), Lower(Strip(raw.country.GetOr("")));
      var code := raw.unicode.upper(name);
      && (name == "" ==> field.None?)
      && (name != "" && name in UsCountryNames() ==> field == Some("US"))
      && (name != "" && name !in UsCountryNames() && (exists x :: x in OtherCountryNames() && x.0 == name) ==>
            field.Some? && (name, field.value) in OtherCountryNames())
      && (name != "" && name !in UsCountryNames() && (forall x :: x in OtherCountryNames() ==> x.0 != name) ==>
            field == if |code| == 2 && raw.unicode.AllLetters(code) && !IsUsCode(code) then Some(code) else None)
  {
    LookupExactly(OtherCountryNames(), Lower(Strip(raw.country.GetOr(""))));
    hide Lookup;
    hide UsCountryNames;
    hide OtherCountryNames;
    hide CountryInText;
    hide Strip;
    hide Lower;
    hide IsUsCode;
  }

  // ---- state and city ----------------------------------------------------------------------------

  /** The state of the field, or else of the text. */
  function StateSaid(raw: Raw): Option<string> {
    if ResolveState(Strip(raw.state.GetOr(""))).Some? then ResolveState(Strip(raw.state.GetOr("")))
    else ParseCityState(raw.text.GetOr("")).1
  }

  /** The city of the field, or else of the text. */
  function CitySaid(raw: Raw): Option<string> {
    if CleanCity(raw.city).Some? then CleanCity(raw.city) else ParseCityState(raw.text.GetOr("")).0
  }

  lemma StripTwice(s: string)
    ensures Strip(Strip(s)) == Strip(s)
  {
    var l, r := StripSplits(s, IsSpace);
    StripPadded("", Strip(s), "", IsSpace);
    assert "" + Strip(s) + "" == Strip(s);
  }

  lemma TextIsParsedStripped(text: string)
    ensures ParseCityState(Strip(text)) == ParseCityState(text)
    ensures Strip(text) == "" ==> ParseCityState(text) == (None, None)
  {
    StripTwice(text);
    if Strip(text) == "" {
      StripPadded("", "", "", x => x == '-');
      StripPadded("", "", "", IsSpace);
      assert "" + "" + "" == "";
    }
    hide Parts;
    hide ResolveState;
    hide StateLength;
    hide StripBy;
  }

  lemma StatedIs(raw: Raw)
    ensures StatedPlace(raw) == (StateSaid(raw), CitySaid(raw))
  {
    TextIsParsedStripped(raw.text.GetOr(""));
    hide ParseCityState;
    hide ResolveState;
    hide CleanCity;
    hide Strip;
  }

  /** State and city in the end: a two-letter code of a state in place of the city is the state where none is
      said; a metro shorthand is its city, and its state where none is said; else they are what is said. */
  lemma StateAndCityExactly(raw: Raw)
    ensures var s, c := StateSaid(raw), CitySaid(raw);
      && (s.None? && c.Some? && |Strip(c.value)| == 2 && ResolveState(c.value).Some? ==>
            StateAndCity(raw) == (ResolveState(c.value), None))
      && (c.Some? && (s.Some? || |Strip(c.value)| != 2 || ResolveState(c.value).None?) && CityAlias(Lower(Strip(c.value))).Some? ==>
            var alias := CityAlias(Lower(Strip(c.value))).value;
            StateAndCity(raw) == (if s.Some? then s else Some(alias.1), Some(alias.0)))
      && (c.Some? && (s.Some? || |Strip(c.value)| != 2 || ResolveState(c.value).None?) && CityAlias(Lower(Strip(c.value))).None? ==>
            StateAndCity(raw) == (s, c))
      && (c.None? ==> StateAndCity(raw) == (s, None))
  {
    StatedIs(raw);
    hide StatedPlace;
    hide StateSaid;
    hide CitySaid;
    hide ResolveState;
    hide CityAlias;
    hide Strip;
    hide Lower;
  }

  // ---- the place ------------------------------------------------------------------------------------

  /** The state field names a subdivision that is foreign, and is not read as an Indian one. */
  predicate ForeignField(raw: Raw) {
    var field := Strip(raw.state.GetOr(""));
    && IsNonUsSubdivision(Lower(field))
    && (ResolveIndiaState(field).None? || (StatedCountry(raw).Some? && StatedCountry(raw) != Some("IN")))
  }

  /** Stated to be Indian, or not stated and in an Indian subdivision. */
  predicate Indian(raw: Raw) {
    StatedCountry(raw) == Some("IN") || (StatedCountry(raw).None? && ResolveIndiaState(Strip(raw.state.GetOr(""))).Some?)
  }

  /** Stated to be American, or not stated and in an American state. */
  predicate American(raw: Raw) {
    StatedCountry(raw) == Some("US") || (StatedCountry(raw).None? && !Indian(raw) && StateAndCity(raw).0.Some?)
  }

  predicate ForeignEmployer(raw: Raw) {
    var employer := ResolveCountry(raw.employerCountry, raw.unicode);
    employer.Some? && employer.value != "US"
  }

  function FinalKey(raw: Raw): string {
    Lower(Strip(StateAndCity(raw).1.GetOr("")))
  }

  lemma TwoCountries()
    ensures "US" != "IN"
  {
    assert "US"[0] != "IN"[0];
  }

  lemma FieldsOf(raw: Raw)
    ensures ForeignState(raw) <==> ForeignField(raw)
    ensures !ForeignState(raw) ==> (Evidence(raw) == Some("IN") <==> Indian(raw))
    ensures Evidence(raw) == Some("US") <==> American(raw)
    ensures Indian(raw) ==> IndiaState(raw) == ResolveIndiaState(Strip(raw.state.GetOr("")))
    ensures !Indian(raw) && !American(raw) ==> Evidence(raw) == StatedCountry(raw)
  {
    TwoCountries();
    hide StatedCountry;
    hide ResolveIndiaState;
    hide StateAndCity;
    hide IsNonUsSubdivision;
    hide Lower;
    hide Strip;
  }

  /** Where a job is, case by case. A foreign subdivision, a foreign city, or a claim to be American that has
      no state and an employer abroad or an ambiguous city, leaves the job without a country. */
  lemma PlaceExactly(raw: Raw)
    ensures var (state, city), place := StateAndCity(raw), Resolve(raw);
      && (ForeignField(raw) ==> place == Place(None, None, CleanCity(raw.city)))
      && (!ForeignField(raw) && Indian(raw) ==>
            var stated := ResolveIndiaState(Strip(raw.state.GetOr("")));
            place == Place(Some("IN"), if stated.Some? then stated
                                       else if city.Some? then IndiaStateOfCity(Lower(Strip(city.value))) else None, city))
      && (!ForeignField(raw) && !Indian(raw) && IsNonUsCity(FinalKey(raw)) ==> place == Place(None, None, city))
      && (!ForeignField(raw) && !Indian(raw) && !IsNonUsCity(FinalKey(raw)) ==>
            place ==
            if !American(raw) then Place(StatedCountry(raw), None, city)
            else if state.None? && (ForeignEmployer(raw) || IsAmbiguousCity(FinalKey(raw))) then Place(None, None, city)
            else Place(Some("US"), state, city))
  {
    FieldsOf(raw);
    TwoCountries();
    hide ForeignField;
    hide ForeignState;
    hide Evidence;
    hide Indian;
    hide American;
    hide StatedCountry;
    hide StateAndCity;
    hide IndiaState;
    hide ResolveIndiaState;
    hide IndiaStateOfCity;
    hide ResolveCountry;
    hide CleanCity;
    hide IsNonUsCity;
    hide IsAmbiguousCity;
    hide Strip;
    hide Lower;
  }

  /** The city a text names, a metro shorthand in full. */
  function FullCity(city: string): string {
    if CityAlias(Lower(city)).Some? then CityAlias(Lower(city)).value.0 else city
  }

  lemma NothingSaid(raw: Raw)
    requires Strip(raw.state.GetOr("")) == ""
    ensures ResolveState(Strip(raw.state.GetOr(""))).None? && ResolveIndiaState(Strip(raw.state.GetOr(""))).None?
    ensures !IsNonUsSubdivision(Lower(Strip(raw.state.GetOr(""))))
  {
    EmptyIsNothing();
    NothingIsNothing();
    hide Strip;
    hide IsNonUsSubdivision;
    hide Lower;
    hide ResolveIndiaState;
    hide ResolveState;
  }

  lemma NothingIsNothing()
    ensures ResolveState("").None? && !IsNonUsSubdivision(Lower(""))
  {
    StripPadded("", "", "", IsSpace);
    assert "" + "" + "" == "" && Lower("") == "";
    hide UsStateByName;
    hide StripBy;
    hide IsUsCode;
    hide IsCanadianOrIndianSubdivision;
    hide IsOtherSubdivision;
  }

  lemma TextGivesBoth(raw: Raw, r: Reading)
    requires Strip(raw.state.GetOr("")) == "" && CleanCity(raw.city).None?
    requires Reads(Bare(raw.text.GetOr("")), r) && ResolveState(r.state).Some?
    ensures StateAndCity(raw) == (ResolveState(r.state), Some(FullCity(r.city)))
  {
    PairIsRead(raw.text.GetOr(""), r);
    PieceIsStripped(r.city);
    NothingSaid(raw);
    StateAndCityExactly(raw);
    hide StateAndCity;
    hide ResolveState;
    hide ParseCityState;
    hide Reads;
    hide Strip;
    hide Lower;
    hide CityAlias;
    hide CleanCity;
    hide Piece;
  }

  lemma FullCityIsStripped(city: string)
    requires Piece(city)
    ensures Strip(FullCity(city)) == FullCity(city)
  {
    PieceIsStripped(city);
    if CityAlias(Lower(city)).Some? {
      var _, _ := StripPart(FullCity(city));
    }
    hide Strip;
    hide Lower;
    hide CityAlias;
  }

  lemma StateProvesHome(raw: Raw)
    requires Strip(raw.state.GetOr("")) == "" && StateAndCity(raw).0.Some?
    requires StatedCountry(raw).None? || StatedCountry(raw) == Some("US")
    ensures !ForeignField(raw) && !Indian(raw) && American(raw)
  {
    hide StatedCountry;
    hide StateAndCity;
    hide ResolveIndiaState;
    hide ResolveState;
    hide IsNonUsSubdivision;
    hide Strip;
    hide StripBy;
    hide Lower;
    hide IsIndiaCode;
    hide IsUsCode;
    NothingSaid(raw);
    if StatedCountry(raw).Some? {
      TwoCountries();
    }
  }

  lemma AmericanPlace(raw: Raw)
    requires !ForeignField(raw) && !Indian(raw) && American(raw) && StateAndCity(raw).0.Some?
    ensures !IsNonUsCity(FinalKey(raw)) ==> Resolve(raw) == Place(Some("US"), StateAndCity(raw).0, StateAndCity(raw).1)
  {
    hide ForeignField;
    hide Indian;
    hide American;
    hide StatedCountry;
    hide StateAndCity;
    hide Resolve;
    hide FinalKey;
    hide IsNonUsCity;
    hide IsAmbiguousCity;
    hide ForeignEmployer;
    hide Strip;
    PlaceExactly(raw);
  }

  /** A job that says where it is in its text alone: the pair of the text, its city by its full name. */
  lemma TextAlonePlaces(raw: Raw, r: Reading)
    requires Strip(raw.state.GetOr("")) == "" && CleanCity(raw.city).None?
    requires StatedCountry(raw).None? || StatedCountry(raw) == Some("US")
    requires Reads(Bare(raw.text.GetOr("")), r) && ResolveState(r.state).Some? && !IsNonUsCity(Lower(FullCity(r.city)))
    ensures Resolve(raw) == Place(Some("US"), ResolveState(r.state), Some(FullCity(r.city)))
  {
    hide StateAndCity;
    hide Resolve;
    hide ResolveState;
    hide Strip;
    hide Lower;
    hide FullCity;
    hide CleanCity;
    hide StatedCountry;
    hide IsNonUsCity;
    hide ForeignField;
    hide Indian;
    hide American;
    hide IsUsCode;
    TextGivesBoth(raw, r);
    FullCityIsStripped(r.city);
    StateProvesHome(raw);
    AmericanPlace(raw);
  }

  // ---- the documented examples ------------------------------------------------------------------------

  /** A text of a city and a state's code, whatever stands before them. */
  lemma CityAndCode(front: string, city: string, code: string, zip: string)
    requires Opens(front) && Piece(city) && IsUsCode(code) && (zip == "" || IsZip(zip))
    requires front == "" ==> city[0] != '-'
    requires front != "" ==> front[0] != '-' && !IsSpace(front[0])
    ensures ParseCityState(front + city + ", " + code + if zip == "" then "" else " " + zip) == (Some(city), Some(code))
  {
    hide ResolveState;
    hide IsUsCode;
    hide Strip;
    hide Bare;
    hide ParseCityState;
    hide IsZip;
    hide Opens;
    var blank := if zip == "" then "" else " ";
    var r := Reading(front, city, ", ", code, blank, zip, "");
    var text := front + city + ", " + code + (blank + zip);
    CodeIsClean(code);
    CodeIsPiece(code);
    CodeSpelled(r, text);
    CommaAndSpace();
    hide Spelled;
    hide Hollow;
    hide NoComma;
    hide Spaces;
    assert Reads(text, r);
    UnpaddedIsBare(text, r);
    hide Reads;
    PairIsRead(text, r);
  }

  lemma CodeIsPiece(code: string)
    requires IsUsCode(code)
    ensures Piece(code) && |code| == 2 && IsUpper(code[1])
  {
    CodeIsCapitals(code);
    hide IsUsCode;
  }

  lemma CommaAndSpace()
    ensures Hollow(", ") && !NoComma(", ") && Spaces("") && Spaces(" ") && Hollow("")
  {
    assert ", "[0] == ',';
  }

  lemma CodeSpelled(r: Reading, text: string)
    requires text == r.front + r.city + r.gap + r.state + (r.blank + r.zip) && r.rest == ""
    ensures text == Spelled(r)
  {
    assert r.zip + r.rest == r.zip;
    Associates(r.front + r.city + r.gap, r.state, r.blank + r.zip);
    Associates(r.front + r.city, r.gap, r.state + (r.blank + r.zip));
    Associates(r.front, r.city, r.gap + (r.state + (r.blank + r.zip)));
  }

  lemma LastOfSpelled(r: Reading)
    requires r.rest == "" && r.state != "" && (r.zip == "" ==> r.blank == "")
    ensures Spelled(r) != "" && Last(Spelled(r)) == if r.zip == "" then Last(r.state) else Last(r.zip)
  {
    var zip := r.zip + r.rest;
    var blank := r.blank + zip;
    var state := r.state + blank;
    var gap := r.gap + state;
    var city := r.city + gap;
    assert zip == r.zip;
    assert r.zip == "" ==> blank == "" && state == r.state;
    LastOfJoin(r.blank, zip);
    LastOfJoin(r.state, blank);
    LastOfJoin(r.gap, state);
    LastOfJoin(r.city, gap);
    LastOfJoin(r.front, city);
  }

  lemma FirstOfSpelled(r: Reading)
    requires r.city != ""
    ensures Spelled(r) != "" && Spelled(r)[0] == if r.front == "" then r.city[0] else r.front[0]
  {
    var after := r.gap + (r.state + (r.blank + (r.zip + r.rest)));
    assert Spelled(r) == r.front + (r.city + after);
    hide Spelled;
  }

  lemma SettledIsBare(text: string)
    requires text != "" && text[0] != '-' && !IsSpace(text[0]) && Last(text) != '-' && !IsSpace(Last(text))
    ensures Bare(text) == text
  {
    BareIs("", "", "", text, "", "", "");
    assert "" + ("" + ("" + text + "") + "") + "" == text;
    hide Bare;
  }

  lemma UnpaddedIsBare(text: string, r: Reading)
    requires text == Spelled(r) && r.rest == "" && |r.state| == 2 && IsUpper(r.state[1]) && r.city != ""
    requires (r.zip == "" && r.blank == "") || IsZip(r.zip)
    requires if r.front == "" then r.city[0] != '-' && !IsSpace(r.city[0]) else r.front[0] != '-' && !IsSpace(r.front[0])
    ensures Bare(text) == text
  {
    hide Bare;
    hide Spelled;
    FirstOfSpelled(r);
    LastOfSpelled(r);
    SettledIsBare(text);
  }

  lemma DetroitIsPiece()
    ensures Piece("Detroit") && "Detroit"[0] != '-' && Opens("")
  {
    HollowOpens("");
  }

  lemma CodesAreCodes()
    ensures IsUsCode("MI") && IsUsCode("OH") && IsZip("45324")
  {
  }

  lemma BuildingOpens()
    ensures Opens("Building 4, ") && "Building 4, "[0] == 'B'
  {
    var front := "Building 4, ";
    assert front[10] == ',' && Spaces(front[11..]);
  }

  /** The texts the parser is documented with: "Detroit, MI" and "Building 4, Detroit, MI". */
  lemma DetroitIsRead()
    ensures ParseCityState("" + "Detroit" + ", " + "MI" + "") == (Some("Detroit"), Some("MI"))
    ensures ParseCityState("Building 4, " + "Detroit" + ", " + "MI" + "") == (Some("Detroit"), Some("MI"))
  {
    hide ParseCityState;
    hide Piece;
    hide Opens;
    hide IsUsCode;
    DetroitIsPiece();
    CodesAreCodes();
    BuildingOpens();
    CityAndCode("", "Detroit", "MI", "");
    CityAndCode("Building 4, ", "Detroit", "MI", "");
  }

  lemma RemoteIsPiece()
    ensures Piece("Remote - Detroit") && "Remote - Detroit"[0] != '-' && Opens("")
  {
    HollowOpens("");
  }

  /** In "Remote - Detroit, MI" nothing parts the city from what stands before it. */
  lemma RemoteStaysInCity()
    ensures ParseCityState("" + "Remote - Detroit" + ", " + "MI" + "") == (Some("Remote - Detroit"), Some("MI"))
  {
    hide ParseCityState;
    hide Piece;
    hide Opens;
    hide IsUsCode;
    RemoteIsPiece();
    CodesAreCodes();
    CityAndCode("", "Remote - Detroit", "MI", "");
  }

  lemma FairbornIsPiece()
    ensures Piece("Fairborn") && "Fairborn"[0] != '-' && Opens("")
  {
    HollowOpens("");
  }

  /** And "Fairborn, OH 45324". */
  lemma FairbornIsRead()
    ensures ParseCityState("" + "Fairborn" + ", " + "OH" + (" " + "45324")) == (Some("Fairborn"), Some("OH"))
  {
    hide ParseCityState;
    hide Piece;
    hide Opens;
    hide IsUsCode;
    hide IsZip;
    FairbornIsPiece();
    CodesAreCodes();
    CityAndCode("", "Fairborn", "OH", "45324");
  }

  // ---- a city field ------------------------------------------------------------------------------------

  lemma {:induction false} DropLeftNext(s: string, c: char)
    ensures DropLeft(s + [c], IsSpace) ==
      if DropLeft(s, IsSpace) != "" then DropLeft(s, IsSpace) + [c] else if IsSpace(c) then "" else [c]
  {
    if s == "" {
      assert s + [c] == [c];
    } else {
      assert (s + [c])[1..] == s[1..] + [c];
      DropLeftNext(s[1..], c);
    }
  }

  lemma CollapseOne(c: char)
    ensures Collapse([c]) == if IsSpace(c) then " " else [c]
  {
    assert [c][1..] == "";
  }

  /** One more character of a collapsed text. */
  lemma {:induction false} CollapseNext(s: string, c: char)
    ensures Collapse(s + [c]) ==
      if !IsSpace(c) then Collapse(s) + [c] else if s != "" && IsSpace(Last(s)) then Collapse(s) else Collapse(s) + " "
    decreases |s|
  {
    hide IsSpace;
    hide DropLeft;
    var t := s + [c];
    if s == "" {
      assert t == [c];
      CollapseOne(c);
    } else {
      assert t[0] == s[0] && t[1..] == s[1..] + [c];
      if IsSpace(s[0]) {
        DropLeftNext(s[1..], c);
        DropLeftPart(s[1..], IsSpace);
        var rest := DropLeft(s[1..], IsSpace);
        if rest == "" {
          AllDropped(s[1..]);
          assert forall i :: 0 < i < |s| ==> s[i] == s[1..][i - 1];
          CollapseOne(c);
        } else {
          CollapseNext(rest, c);
          assert Last(rest) == Last(s);
        }
      } else {
        CollapseNext(s[1..], c);
      }
    }
  }

  lemma {:induction false} AllDropped(s: string)
    requires DropLeft(s, IsSpace) == ""
    ensures Spaces(s)
  {
    if s != "" {
      AllDropped(s[1..]);
    }
  }

  lemma {:induction false} CollapseIsSquash(s: string)
    ensures Collapse(s) == SquashBy(s, NotSpace())
  {
    if s != "" {
      CollapseIsSquash(Init(s));
      CollapseNext(Init(s), Last(s));
      assert Init(s) + [Last(s)] == s;
    }
  }

  /** A city that neither begins nor ends in a dash or comma is kept, word for word, its white space evened. */
  lemma CityKeepsWords(city: string)
    ensures var words := WordsBy(city, NotSpace());
      && AreWords(words, NotSpace())
      && (words != [] && words[0][0] !in "-," && Last(Last(words)) !in "-," ==> CleanCity(Some(city)) == Some(Spaced(words)))
      && (words == [] ==> CleanCity(Some(city)).None?)
  {
    var words := WordsBy(city, NotSpace());
    WordsAreWords(city, NotSpace());
    CollapseIsSquash(city);
    if city != "" {
      SquashEdges(city, NotSpace());
      var lead, trail := if IsSpace(city[0]) then " " else "", if !IsSpace(Last(city)) || words == [] then "" else " ";
      if words == [] {
        NothingBetween(city, NotSpace());
        StripPadded(lead, "", trail, IsCityTrim);
      } else {
        SpacedEnds(words, NotSpace());
        assert forall c :: c == '-' || c == ',' <==> c in "-,";
        if words[0][0] !in "-," && Last(Last(words)) !in "-," {
          StripPadded(lead, Spaced(words), trail, IsCityTrim);
        }
      }
    } else {
      StripPadded("", "", "", IsCityTrim);
      assert "" + "" + "" == "";
    }
    hide StripBy;
    hide SquashBy;
    hide WordsBy;
    hide Spaced;
    hide Collapse;
  }
}

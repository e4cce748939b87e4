/** A city and a state in free text: which texts hold such a pair, and what is read of them. */
module FreeText {
  import opened Prelude
  import opened Text
  import opened ReferenceData
  import opened Location

  predicate NoComma(s: string) {
    forall i :: 0 <= i < |s| ==> s[i] != ','
  }

  /** Nothing but spaces and commas. */
  predicate Hollow(s: string) {
    forall i :: 0 <= i < |s| ==> s[i] == ',' || IsSpace(s[i])
  }

  /** Neither a comma nor a space at either end. */
  predicate Piece(s: string) {
    s != "" && NoComma(s) && !IsSpace(s[0]) && !IsSpace(Last(s))
  }

  /** What a piece may follow: text that ends in a comma, but for spaces, or only spaces. */
  ghost predicate Opens(s: string) {
    exists k :: 0 <= k <= |s| && Spaces(s[k..]) && (k == 0 || s[k - 1] == ',')
  }

  /** What may follow a piece. */
  ghost predicate Closes(s: string) {
    exists k :: 0 <= k <= |s| && Spaces(s[..k]) && (k == |s| || s[k] == ',')
  }

  // ---- the pieces of a text ----------------------------------------------------------------------

  function Prepend(c: char, pieces: seq<string>): seq<string>
    requires pieces != []
  {
    if c == ',' then [""] + pieces else [[c] + pieces[0]] + pieces[1..]
  }

  lemma Regroup<T>(x: T, a: seq<T>, b: seq<T>)
    ensures [x] + (a + b) == [x] + a + b
  {
  }

  lemma TailOfJoin<T>(a: seq<T>, b: seq<T>)
    requires a != []
    ensures (a + b)[0] == a[0] && (a + b)[1..] == a[1..] + b
  {
  }

  lemma PrependJoin(c: char, a: seq<string>, b: seq<string>)
    requires a != []
    ensures Prepend(c, a + b) == Prepend(c, a) + b
  {
    TailOfJoin(a, b);
    Regroup("", a, b);
    Regroup([c] + a[0], a[1..], b);
  }

  lemma SplitFirst(s: string)
    requires s != ""
    ensures Split(s) == Prepend(s[0], Split(s[1..]))
  {
  }

  lemma SplitNothing()
    ensures Split("") == [""]
  {
  }

  lemma {:induction false} SplitJoin(a: string, b: string)
    ensures Split(a + "," + b) == Split(a) + Split(b)
  {
    hide Split;
    var s := a + "," + b;
    SplitFirst(s);
    if a == "" {
      SplitNothing();
      assert s[0] == ',' && s[1..] == b;
    } else {
      assert s[1..] == a[1..] + "," + b && s[0] == a[0];
      SplitFirst(a);
      SplitJoin(a[1..], b);
      PrependJoin(a[0], Split(a[1..]), Split(b));
      hide Prepend;
    }
  }

  lemma {:induction false} SplitOne(a: string)
    requires NoComma(a)
    ensures Split(a) == [a]
  {
    if a != "" {
      SplitOne(a[1..]);
      assert [a[0]] + a[1..] == a;
    }
  }

  function NotEmpty(): string -> bool {
    (part: string) => part != ""
  }

  function StripAll(pieces: seq<string>): seq<string> {
    seq(|pieces|, i requires 0 <= i < |pieces| => Strip(pieces[i]))
  }

  lemma PartsAre(s: string)
    ensures Parts(s) == Filter(StripAll(Split(s)), NotEmpty())
  {
    var pieces := Split(s);
    assert StripAll(pieces) == seq(|pieces|, i requires 0 <= i < |pieces| => Strip(pieces[i]));
    FilterAlike(StripAll(pieces), (part: string) => part != "", NotEmpty());
  }

  lemma {:induction false} FilterAlike(s: seq<string>, p: string -> bool, q: string -> bool)
    requires forall x :: p(x) <==> q(x)
    ensures Filter(s, p) == Filter(s, q)
  {
    if s != [] {
      FilterAlike(Init(s), p, q);
    }
  }

  lemma PartsJoin(a: string, b: string)
    ensures Parts(a + "," + b) == Parts(a) + Parts(b)
  {
    PartsAre(a);
    PartsAre(b);
    PartsAre(a + "," + b);
    SplitJoin(a, b);
    hide Parts;
    hide Split;
    hide Strip;
    assert StripAll(Split(a) + Split(b)) == StripAll(Split(a)) + StripAll(Split(b));
    FilterAppend(StripAll(Split(a)), StripAll(Split(b)), NotEmpty());
  }

  lemma PartsOne(a: string)
    requires NoComma(a)
    ensures Parts(a) == if Strip(a) == "" then [] else [Strip(a)]
  {
    PartsAre(a);
    SplitOne(a);
    hide Parts;
    hide Split;
    hide Strip;
    var one := StripAll([a]);
    assert one == [Strip(a)] && Init(one) == [];
  }

  lemma PartsOfSpaces(s: string)
    requires Spaces(s)
    ensures Parts(s) == []
  {
    StripPadded(s, "", "", IsSpace);
    assert s + "" + "" == s;
    PartsOne(s);
  }

  lemma {:induction false} PartsOfHollow(s: string)
    requires Hollow(s)
    ensures Parts(s) == []
  {
    hide Parts;
    if NoComma(s) {
      PartsOfSpaces(s);
    } else {
      var k :| 0 <= k < |s| && s[k] == ',';
      assert s == s[..k] + "," + s[k + 1..];
      PartsJoin(s[..k], s[k + 1..]);
      PartsOfHollow(s[..k]);
      PartsOfHollow(s[k + 1..]);
    }
  }

  lemma {:induction false} FirstComma(s: string) returns (k: nat)
    requires !NoComma(s)
    ensures k < |s| && s[k] == ',' && NoComma(s[..k])
  {
    k := 0;
    if s[0] != ',' {
      var j := FirstComma(s[1..]);
      k := j + 1;
      assert forall i :: 0 < i < k ==> s[i] == s[1..][..j][i - 1];
    }
  }

  /** Spaces before the first piece do not count. */
  lemma PartsLead(sp: string, s: string)
    requires Spaces(sp)
    ensures Parts(sp + s) == Parts(s)
  {
    hide Parts;
    hide Strip;
    if NoComma(s) {
      PartsOne(sp + s);
      PartsOne(s);
      StripLead(sp, s);
    } else {
      var k := FirstComma(s);
      assert s == s[..k] + "," + s[k + 1..];
      assert sp + s == (sp + s[..k]) + "," + s[k + 1..];
      PartsJoin(s[..k], s[k + 1..]);
      PartsJoin(sp + s[..k], s[k + 1..]);
      PartsOne(sp + s[..k]);
      PartsOne(s[..k]);
      StripLead(sp, s[..k]);
    }
  }

  lemma StripLead(sp: string, s: string)
    requires Spaces(sp)
    ensures Strip(sp + s) == Strip(s)
  {
    DropLeftOf(sp, s, IsSpace);
  }

  lemma PartsBefore(x: string, w: string)
    requires Opens(x)
    ensures Parts(x + w) == Parts(x) + Parts(w)
  {
    hide Parts;
    var k :| 0 <= k <= |x| && Spaces(x[k..]) && (k == 0 || x[k - 1] == ',');
    PartsOfSpaces(x[k..]);
    PartsLead(x[k..], w);
    if k == 0 {
      assert x[k..] == x;
    } else {
      var front := x[..k - 1];
      assert x == front + "," + x[k..] && x + w == front + "," + (x[k..] + w);
      PartsJoin(front, x[k..]);
      PartsJoin(front, x[k..] + w);
    }
  }

  lemma PartsAfter(c: string, y: string)
    requires Piece(c) && Closes(y)
    ensures Parts(c + y) == [c] + Parts(y)
  {
    hide Parts;
    hide Strip;
    var k :| 0 <= k <= |y| && Spaces(y[..k]) && (k == |y| || y[k] == ',');
    PartsOfSpaces(y[..k]);
    var first := c + y[..k];
    PieceAndSpaces(c, y[..k]);
    PartsOne(first);
    if k == |y| {
      assert y[..k] == y;
    } else {
      var rest := y[k + 1..];
      assert y == y[..k] + "," + rest && c + y == first + "," + rest;
      PartsJoin(y[..k], rest);
      PartsJoin(first, rest);
    }
  }

  lemma PieceAndSpaces(c: string, sp: string)
    requires Piece(c) && Spaces(sp)
    ensures NoComma(c + sp) && Strip(c + sp) == c
  {
    StripPadded("", c, sp, IsSpace);
    assert "" + c + sp == c + sp;
  }

  // ---- a pair in a text ------------------------------------------------------------------------------

  /** A text taken apart: whatever stands before the city, the city, a comma at least, the state, its ZIP
      code if there is one, and nothing more but spaces and commas. */
  datatype Reading = Reading(front: string, city: string, gap: string, state: string, blank: string, zip: string, rest: string)

  function Spelled(r: Reading): string {
    r.front + (r.city + (r.gap + (r.state + (r.blank + (r.zip + r.rest)))))
  }

  ghost predicate Reads(text: string, r: Reading) {
    && text == Spelled(r)
    && Opens(r.front) && Piece(r.city) && Hollow(r.gap) && !NoComma(r.gap)
    && Piece(r.state) && Spaces(r.blank) && (r.zip == "" || IsZip(r.zip)) && Hollow(r.rest)
  }

  /** The text without what the parser strips: spaces, then dashes, then spaces. */
  function Bare(text: string): string {
    Strip(StripBy(Strip(text), c => c == '-'))
  }

  lemma HollowCloses(s: string, w: string)
    requires Hollow(s)
    ensures Closes(s)
    ensures !NoComma(s) ==> Closes(s + w)
  {
    if NoComma(s) {
      assert s[..|s|] == s && Spaces(s);
    } else {
      var k := FirstComma(s);
      assert (s + w)[..k] == s[..k] && (s + w)[k] == s[k];
      assert forall i :: 0 <= i < k ==> s[..k][i] == s[i];
      assert Spaces(s[..k]);
    }
  }

  lemma {:induction false} HollowOpens(s: string)
    requires Hollow(s)
    ensures Opens(s)
  {
    if s == "" {
      assert Spaces(s[0..]);
    } else if Last(s) == ',' {
      assert Spaces(s[|s|..]);
    } else {
      HollowOpens(Init(s));
      var k :| 0 <= k <= |Init(s)| && Spaces(Init(s)[k..]) && (k == 0 || Init(s)[k - 1] == ',');
      assert s[k..] == Init(s)[k..] + [Last(s)];
    }
  }

  lemma Associates(a: string, b: string, c: string)
    ensures a + (b + c) == (a + b) + c
  {
  }

  lemma SpelledInParts(r: Reading, tail: string, rest: string)
    requires tail == (if r.zip == "" then r.state else r.state + r.blank + r.zip)
    requires rest == (if r.zip == "" then r.blank + r.rest else r.rest)
    ensures Spelled(r) == r.front + (r.city + (r.gap + (tail + rest)))
  {
    if r.zip == "" {
      assert r.zip + r.rest == r.rest;
    } else {
      Associates(r.blank, r.zip, r.rest);
      Associates(r.state, r.blank + r.zip, r.rest);
      Associates(r.state, r.blank, r.zip);
    }
  }

  /** The pieces of a text that holds a pair end with its city and its state. */
  lemma PairParts(text: string, r: Reading)
    requires Reads(text, r)
    ensures var ps := Parts(text);
      && |ps| >= 2 && ps[|ps| - 2] == r.city
      && Last(ps) == if r.zip == "" then r.state else r.state + r.blank + r.zip
  {
    var tail := if r.zip == "" then r.state else r.state + r.blank + r.zip;
    var rest := if r.zip == "" then r.blank + r.rest else r.rest;
    SpelledInParts(r, tail, rest);
    TailIsPiece(r.state, r.blank, r.zip);
    assert Hollow(rest);
    PairOfParts(r.front, r.city, r.gap, tail, rest);
    hide Parts;
    hide Piece;
    hide Hollow;
  }

  lemma PairOfParts(front: string, city: string, gap: string, tail: string, rest: string)
    requires Opens(front) && Piece(city) && Hollow(gap) && !NoComma(gap) && Piece(tail) && Hollow(rest)
    ensures var ps := Parts(front + (city + (gap + (tail + rest)))); |ps| >= 2 && ps[|ps| - 2] == city && Last(ps) == tail
  {
    hide Parts;
    hide Piece;
    var after := gap + (tail + rest);
    HollowCloses(gap, tail + rest);
    HollowOpens(gap);
    HollowCloses(rest, "");
    PartsOfHollow(gap);
    PartsOfHollow(rest);
    hide Opens;
    hide Closes;
    hide Hollow;
    hide NoComma;
    PartsBefore(front, city + after);
    PartsAfter(city, after);
    PartsBefore(gap, tail + rest);
    PartsAfter(tail, rest);
    assert Parts(front + (city + after)) == Parts(front) + [city, tail];
  }

  lemma TailIsPiece(state: string, blank: string, zip: string)
    requires Piece(state) && Spaces(blank) && (zip == "" || IsZip(zip))
    ensures Piece(if zip == "" then state else state + blank + zip)
  {
    if zip != "" {
      assert zip[|zip| - 1] == (state + blank + zip)[|state + blank + zip| - 1];
    }
  }

  // ---- the state of the last piece ---------------------------------------------------------------------

  lemma {:induction false} ShortestEnd(part: string, from: nat)
    ensures var n := StateLength(part, from);
      && (n.Some? ==> from <= n.value && EndsAt(part, n.value) && forall m :: from <= m < n.value ==> !EndsAt(part, m))
      && (n.None? ==> forall m :: from <= m <= |part| ==> !EndsAt(part, m))
    decreases |part| - from
  {
    hide EndsAt;
    if from <= |part| && !EndsAt(part, from) {
      ShortestEnd(part, from + 1);
    }
  }

  /** A text with a letter or a full stop in it is neither empty when stripped, nor a ZIP code. */
  lemma NoZip(s: string, p: nat)
    requires p < |s| && IsStateChar(s[p]) && !IsSpace(s[p])
    ensures Strip(s) != "" && !IsZip(Strip(s))
  {
    var l, r := StripSplits(s, IsSpace);
    var c := StripBy(s, IsSpace);
    hide StripBy;
    Associates(l, c, r);
    assert forall i :: 0 <= i < |l| ==> s[i] == l[i];
    assert forall i :: |l| + |c| <= i < |s| ==> s[i] == r[i - |l| - |c|];
    assert c[p - |l|] == s[p];
  }

  lemma NotShorter(state: string, w: string, n: nat)
    requires n < |state| && (forall i :: 0 <= i < |state| ==> IsStateChar(state[i])) && !IsSpace(Last(state))
    ensures !EndsAt(state + w, n)
  {
    var part := state + w;
    var p := |state| - 1 - n;
    assert part[n..][p] == Last(state);
    NoZip(part[n..], p);
    hide Strip;
    hide IsZip;
  }

  lemma EndsThere(state: string, blank: string, zip: string)
    requires 2 <= |state| <= 30 && (forall i :: 0 <= i < |state| ==> IsStateChar(state[i]))
    requires Spaces(blank) && (zip == "" || IsZip(zip))
    ensures EndsAt(state + (blank + zip), |state|)
  {
    var part := state + (blank + zip);
    assert part[|state|..] == blank + zip;
    assert zip != "" ==> !IsSpace(zip[0]) && !IsSpace(Last(zip));
    StripPadded(blank, zip, "", IsSpace);
    assert blank + zip + "" == blank + zip;
    hide Strip;
    hide IsZip;
  }

  /** The state in front of a ZIP code is found at its full length. */
  lemma StateLengthIs(state: string, blank: string, zip: string)
    requires 2 <= |state| <= 30 && (forall i :: 0 <= i < |state| ==> IsStateChar(state[i])) && !IsSpace(Last(state))
    requires Spaces(blank) && (zip == "" || IsZip(zip))
    ensures StateLength(state + (blank + zip), 2) == Some(|state|)
  {
    EndsThere(state, blank, zip);
    var part := state + (blank + zip);
    ShortestEnd(part, 2);
    hide EndsAt;
    hide StateLength;
    forall n: nat | n < |state|
      ensures !EndsAt(part, n)
    {
      NotShorter(state, blank + zip, n);
    }
  }

  lemma PieceIsStripped(s: string)
    requires Piece(s)
    ensures Strip(s) == s
  {
    StripPadded("", s, "", IsSpace);
    assert "" + s + "" == s;
  }

  /** Whatever names a state is written in letters, spaces and full stops. */
  lemma StateTextFits(state: string)
    requires Piece(state) && ResolveState(state).Some?
    ensures 2 <= |state| <= 30 && forall i :: 0 <= i < |state| ==> IsStateChar(state[i])
  {
    PieceIsStripped(state);
    hide Strip;
    if IsUsCode(Upper(state)) {
      CodeIsLetters(state);
    } else {
      var name := Lower(state);
      assert IsStateName(name);
      forall i | 0 <= i < |state|
        ensures IsStateChar(state[i])
      {
        assert name[i] in name && name[i] == LowerChar(state[i]) && state[i] != ',';
      }
      hide UsStateByName;
    }
  }

  lemma CodeIsLetters(state: string)
    requires IsUsCode(Upper(state))
    ensures |state| == 2 && IsAlpha(state[0]) && IsAlpha(state[1])
  {
    var code := Upper(state);
    assert code[0] == UpperChar(state[0]) && code[1] == UpperChar(state[1]);
    CodeIsCapitals(code);
    hide IsUsCode;
  }

  lemma CodeIsCapitals(code: string)
    requires IsUsCode(code)
    ensures |code| == 2 && IsUpper(code[0]) && IsUpper(code[1])
  {
  }

  // ---- what is read ------------------------------------------------------------------------------------

  /** The parser's steps over the pieces of the text. */
  lemma ParseOfParts(text: string)
    requires Bare(text) != ""
    ensures var ps, found := Parts(Bare(text)), ParseCityState(text);
      var pair := if |ps| >= 2 then StateLength(Last(ps), 2) else None;
      var state := if pair.Some? then ResolveState(Last(ps)[..pair.value]) else None;
      found == if state.Some? then (Some(ps[|ps| - 2]), state) else (None, ResolveState(Bare(text)))
  {
    hide Parts;
    hide StateLength;
    hide ResolveState;
    hide Strip;
    hide StripBy;
  }

  lemma TailIsRead(r: Reading)
    requires Piece(r.state) && Spaces(r.blank) && (r.zip == "" || IsZip(r.zip)) && ResolveState(r.state).Some?
    ensures var tail := if r.zip == "" then r.state else r.state + r.blank + r.zip;
      |r.state| <= |tail| && StateLength(tail, 2) == Some(|r.state|) && tail[..|r.state|] == r.state
  {
    StateTextFits(r.state);
    hide ResolveState;
    hide StateLength;
    hide IsZip;
    if r.zip == "" {
      StateLengthIs(r.state, "", "");
      assert r.state + ("" + "") == r.state;
    } else {
      StateLengthIs(r.state, r.blank, r.zip);
      Associates(r.state, r.blank, r.zip);
    }
  }

  /** Of a text that holds a pair whose state is one, the city and that state are read. */
  lemma PairIsRead(text: string, r: Reading)
    requires Reads(Bare(text), r) && ResolveState(r.state).Some?
    ensures ParseCityState(text) == (Some(r.city), ResolveState(r.state))
  {
    PairParts(Bare(text), r);
    TailIsRead(r);
    assert Bare(text) != "" by {
      assert r.city != "" && Bare(text) == Spelled(r);
    }
    ParseOfParts(text);
    hide ParseCityState;
    hide Bare;
    hide ResolveState;
    hide Reads;
    hide Parts;
    hide StateLength;
  }

  // ---- and nothing else is ---------------------------------------------------------------------------------

  lemma StripIsPiece(b: string) returns (l: string, r: string)
    requires NoComma(b) && Strip(b) != ""
    ensures b == l + (Strip(b) + r) && Spaces(l) && Spaces(r) && Piece(Strip(b))
  {
    l, r := StripSplits(b, IsSpace);
    Associates(l, Strip(b), r);
    var c := Strip(b);
    hide Strip;
    assert forall i :: 0 <= i < |c| ==> c[i] == b[|l| + i];
  }

  lemma {:induction false} LastComma(s: string) returns (k: nat)
    requires !NoComma(s)
    ensures k < |s| && s[k] == ',' && NoComma(s[k + 1..])
  {
    if Last(s) == ',' {
      k := |s| - 1;
    } else {
      k := LastComma(Init(s));
      assert forall i :: k < i < |s| - 1 ==> s[i] == Init(s)[k + 1..][i - k - 1];
    }
  }

  /** A text with pieces is what stands before its last one, that one, and nothing but spaces and commas. */
  lemma {:induction false} LastPart(s: string) returns (x: string, c: string, y: string)
    requires Parts(s) != []
    ensures s == x + (c + y) && Opens(x) && Piece(c) && Hollow(y)
    ensures c == Last(Parts(s)) && Parts(x) == Init(Parts(s))
  {
    hide Parts;
    hide Strip;
    if NoComma(s) {
      PartsOne(s);
      c := Strip(s);
      x, y := StripIsPiece(s);
      PartsOfSpaces(x);
      assert x[0..] == x;
    } else {
      var k := LastComma(s);
      var a, b := s[..k], s[k + 1..];
      assert s == a + "," + b;
      PartsJoin(a, b);
      PartsOne(b);
      if Strip(b) == "" {
        BlankIsHollow(b);
        var z;
        x, c, z := LastPart(a);
        y := z + ("," + b);
        RestMoves(x, c, z, "," + b);
      } else {
        c := Strip(b);
        var l;
        l, y := StripIsPiece(b);
        x := a + "," + l;
        PartsJoin(a, l);
        PartsOfSpaces(l);
        assert x[k + 1..] == l && x[k] == ',';
        assert s == x + (c + y);
      }
    }
  }

  lemma BlankIsHollow(b: string)
    requires Strip(b) == ""
    ensures Hollow("," + b)
  {
    var l, r := StripSplits(b, IsSpace);
    assert b == l + "" + r;
    hide StripBy;
  }

  lemma RestMoves(x: string, c: string, z: string, w: string)
    ensures x + (c + z) + w == x + (c + (z + w))
  {
  }

  /** Between two pieces stands a comma. */
  lemma GapHasComma(x: string, front: string, city: string, gap: string)
    requires Opens(x) && x == front + (city + gap) && Piece(city)
    ensures !NoComma(gap)
  {
    var k :| 0 <= k <= |x| && Spaces(x[k..]) && (k == 0 || x[k - 1] == ',');
    var p := |front| + |city| - 1;
    assert x[p] == Last(city);
    forall i | k <= i < |x|
      ensures IsSpace(x[i])
    {
      assert x[k..][i - k] == x[i];
    }
    assert p < k - 1;
    assert gap[k - 1 - p - 1] == x[k - 1];
  }

  /** The last piece is the state and, behind it, at most a ZIP code. */
  lemma TailSplits(tail: string) returns (state: string, blank: string, zip: string)
    requires Piece(tail) && StateLength(tail, 2).Some? && ResolveState(tail[..StateLength(tail, 2).value]).Some?
    ensures state == tail[..StateLength(tail, 2).value] && tail == state + (blank + zip)
    ensures Piece(state) && Spaces(blank) && (zip == "" || IsZip(zip))
  {
    var n := StateLength(tail, 2).value;
    ShortestEnd(tail, 2);
    hide StateLength;
    hide EndsAt;
    hide ResolveState;
    hide Strip;
    hide Spaces;
    hide IsZip;
    assert !IsSpace(Last(tail)) && n >= 2;
    state := tail[..n];
    blank, zip := RestSplits(tail, n);
    StateEnds(tail, n);
    PieceStarts(tail, n);
    hide Piece;
  }

  lemma PieceStarts(s: string, n: nat)
    requires Piece(s) && 1 <= n <= |s| && !IsSpace(s[n - 1])
    ensures Piece(s[..n])
  {
    assert forall i :: 0 <= i < n ==> s[..n][i] == s[i];
  }

  lemma LastOfJoin(a: string, r: string)
    ensures r != "" ==> Last(a + r) == Last(r)
  {
  }

  lemma RestSplits(tail: string, n: nat) returns (blank: string, zip: string)
    requires tail != "" && n <= |tail| && EndsAt(tail, n) && !IsSpace(Last(tail))
    ensures tail == tail[..n] + (blank + zip) && Spaces(blank) && (zip == "" || IsZip(zip))
  {
    var w := tail[n..];
    assert tail == tail[..n] + w;
    var l, r := StripSplits(w, IsSpace);
    LastOfJoin(tail[..n], w);
    LastOfJoin(l + Strip(w), r);
    hide IsZip;
    blank, zip := if w == "" then "" else l, Strip(w);
    if w == "" {
      assert l == "" && zip == "";
    }
    hide Strip;
    hide EndsAt;
  }

  lemma StateEnds(tail: string, n: nat)
    requires 2 <= n <= |tail| && EndsAt(tail, n) && !IsSpace(Last(tail)) && ResolveState(tail[..n]).Some?
    requires forall m :: 2 <= m < n ==> !EndsAt(tail, m)
    ensures !IsSpace(tail[n - 1])
  {
    hide ResolveState;
    if IsSpace(tail[n - 1]) {
      if n == 2 {
        SingleIsNoState(tail[..n]);
      } else {
        SpaceMoves(tail, n - 1);
      }
    }
    hide EndsAt;
  }

  /** If the state ended in a space, a shorter one would do. */
  lemma SpaceMoves(tail: string, n: nat)
    requires 2 <= n < |tail| && EndsAt(tail, n + 1) && IsSpace(tail[n])
    ensures EndsAt(tail, n)
  {
    assert tail[n..] == [tail[n]] + tail[n + 1..];
    StripLead([tail[n]], tail[n + 1..]);
    hide Strip;
    hide IsZip;
  }

  lemma SingleIsNoState(state: string)
    requires |state| == 2 && IsSpace(state[1])
    ensures ResolveState(state).None?
  {
    var l, r := StripSplits(state, IsSpace);
    var c := Strip(state);
    assert |c| == 2 ==> c == state;
    hide Strip;
    hide StripBy;
    hide UsStateByName;
  }

  lemma NothingIsRead(text: string)
    requires Bare(text) == ""
    ensures ParseCityState(text) == (None, None)
  {
    hide Strip;
    hide StripBy;
  }

  /** A city is read only of a text that holds a pair whose state is one, and is that pair's. */
  lemma PairIsThere(text: string) returns (r: Reading)
    requires ParseCityState(text).0.Some?
    ensures Reads(Bare(text), r) && ResolveState(r.state).Some?
    ensures ParseCityState(text) == (Some(r.city), ResolveState(r.state))
  {
    hide ParseCityState;
    hide ResolveState;
    hide StateLength;
    hide Parts;
    var s := Bare(text);
    if s == "" {
      NothingIsRead(text);
    }
    ParseOfParts(text);
    hide Bare;
    hide Piece;
    hide Opens;
    hide Hollow;
    hide NoComma;
    hide IsZip;
    hide Spaces;
    hide Strip;
    var x, tail, rest := LastPart(s);
    var front, city, gap := LastPart(x);
    GapHasComma(x, front, city, gap);
    var state, blank, zip := TailSplits(tail);
    r := Reading(front, city, gap, state, blank, zip, rest);
    PartsSpell(r, x, tail);
    hide Spelled;
  }

  lemma PartsSpell(r: Reading, x: string, tail: string)
    requires x == r.front + (r.city + r.gap) && tail == r.state + (r.blank + r.zip)
    ensures x + (tail + r.rest) == Spelled(r)
  {
    Associates(r.blank, r.zip, r.rest);
    Associates(r.state, r.blank + r.zip, r.rest);
    var w := tail + r.rest;
    Associates(r.city, r.gap, w);
    Associates(r.front, r.city + r.gap, w);
  }

  /** What is read of free text: the city and the state of a pair it holds, if its state is one; else no
      city, and a state only when the text is one. */
  lemma PairExactly(text: string)
    ensures forall r :: Reads(Bare(text), r) && ResolveState(r.state).Some? ==>
      ParseCityState(text) == (Some(r.city), ResolveState(r.state))
    ensures ParseCityState(text).0.Some? <==> exists r :: Reads(Bare(text), r) && ResolveState(r.state).Some?
    ensures ParseCityState(text).0.None? ==> ParseCityState(text).1 == ResolveState(Bare(text))
  {
    hide Reads;
    hide ResolveState;
    forall r | Reads(Bare(text), r) && ResolveState(r.state).Some?
      ensures ParseCityState(text) == (Some(r.city), ResolveState(r.state))
    {
      PairIsRead(text, r);
    }
    if ParseCityState(text).0.Some? {
      var r := PairIsThere(text);
    } else {
      NoPair(text);
    }
    hide Bare;
    hide ParseCityState;
  }

  lemma NoPair(text: string)
    requires ParseCityState(text).0.None?
    ensures ParseCityState(text).1 == ResolveState(Bare(text))
  {
    if Bare(text) != "" {
      ParseOfParts(text);
      hide ParseCityState;
    }
    hide Strip;
    hide StripBy;
    hide Parts;
  }

  /** What the parser strips around a text, in full. */
  lemma BareIs(a: string, b: string, c: string, body: string, c': string, b': string, a': string)
    requires Spaces(a) && Spaces(c) && Spaces(c') && Spaces(a') && All(b, x => x == '-') && All(b', x => x == '-')
    requires (b == "" ==> c == "") && (b' == "" ==> c' == "")
    requires body != "" && !IsSpace(body[0]) && !IsSpace(Last(body)) && body[0] != '-' && Last(body) != '-'
    ensures Bare(a + (b + (c + body + c') + b') + a') == body
  {
    var inner, outer := c + body + c', b + (c + body + c') + b';
    assert forall i :: 0 <= i < |b| ==> b[i] == '-';
    assert forall i :: 0 <= i < |b'| ==> b'[i] == '-';
    EndsOf(c, body, c');
    EndsOf(b, inner, b');
    StripPadded(a, outer, a', IsSpace);
    StripPadded(b, inner, b', x => x == '-');
    StripPadded(c, body, c', IsSpace);
    hide StripBy;
  }

  lemma EndsOf(l: string, s: string, r: string)
    requires s != ""
    ensures l + s + r != ""
    ensures (l + s + r)[0] == (if l == "" then s[0] else l[0])
    ensures Last(l + s + r) == (if r == "" then Last(s) else Last(r))
  {
  }
}

/** When two postings share a content hash without sharing their content. */
module ContentHashes {
  import opened Prelude
  import opened Text
  import opened Dedupe

  // ---- counting bars ----------------------------------------------------------------------------

  function Bars(s: string): nat {
    if s == "" then 0 else Bars(Init(s)) + if Last(s) == '|' then 1 else 0
  }

  lemma {:induction false} BarsJoin(a: string, b: string)
    ensures Bars(a + b) == Bars(a) + Bars(b)
  {
    if b == "" {
      assert a + b == a;
    } else {
      assert Init(a + b) == a + Init(b);
      BarsJoin(a, Init(b));
    }
  }

  lemma {:induction false} NoBars(s: string)
    ensures Bars(s) == 0 <==> NoBar(s)
  {
    if s != "" {
      NoBars(Init(s));
      assert s == Init(s) + [Last(s)];
    }
  }

  /** Two texts with a bar between them. */
  function Barred(a: string, b: string): string {
    a + ("|" + b)
  }

  lemma BarsBarred(a: string, b: string)
    ensures Bars(Barred(a, b)) == Bars(a) + 1 + Bars(b)
  {
    BarsJoin(a, "|" + b);
    BarsJoin("|", b);
    assert Init("|") == "";
  }

  lemma SplitMiddle(a: string, b: string, a': string, b': string) returns (middle: string)
    requires Barred(a, b) == Barred(a', b') && |a| < |a'|
    ensures a' == Barred(a, middle) && b == Barred(middle, b')
  {
    var s := Barred(a, b);
    middle := s[|a| + 1..|a'|];
    assert a' == s[..|a'|] && a == s[..|a|] && s[|a|] == '|' && s[|a'|] == '|';
    assert b == s[|a| + 1..] && b' == s[|a'| + 1..];
  }

  /** Of two ways to split a text at a bar, the longer front holds the shorter one's bar. */
  lemma SplitLater(a: string, b: string, a': string, b': string) returns (middle: string)
    requires Barred(a, b) == Barred(a', b') && |a| < |a'|
    ensures a' == Barred(a, middle) && b == Barred(middle, b')
    ensures Bars(a') > Bars(a) && Bars(b) > Bars(b')
  {
    hide Bars;
    hide Barred;
    middle := SplitMiddle(a, b, a', b');
    BarsBarred(a, middle);
    BarsBarred(middle, b');
  }

  lemma SplitAlike(a: string, b: string, a': string, b': string)
    requires Barred(a, b) == Barred(a', b') && |a| == |a'|
    ensures a == a' && b == b'
  {
    var s := Barred(a, b);
    assert a == s[..|a|] && a' == s[..|a|] && b == s[|a| + 1..] && b' == s[|a| + 1..];
  }

  function Total(fields: seq<string>): nat {
    if fields == [] then 0 else Bars(fields[0]) + Total(fields[1..])
  }

  lemma {:induction false} JoinBars(fields: seq<string>)
    requires fields != []
    ensures Bars(Join(fields)) == |fields| - 1 + Total(fields)
  {
    hide Bars;
    if |fields| > 1 {
      JoinBars(fields[1..]);
      BarsBarred(fields[0], Join(fields[1..]));
      assert Join(fields) == Barred(fields[0], Join(fields[1..]));
    }
  }

  lemma {:induction false} TotalIsZero(fields: seq<string>)
    ensures Total(fields) == 0 <==> forall i :: 0 <= i < |fields| ==> NoBar(fields[i])
  {
    hide NoBar;
    hide Bars;
    if fields != [] {
      NoBars(fields[0]);
      TotalIsZero(fields[1..]);
      assert forall i :: 0 < i < |fields| ==> fields[i] == fields[1..][i - 1];
    }
  }

  lemma {:induction false} JoinSplit(fields: seq<string>, k: nat)
    requires 0 < k < |fields|
    ensures Join(fields) == Barred(Join(fields[..k]), Join(fields[k..]))
  {
    if k > 1 {
      JoinSplit(fields[1..], k - 1);
      assert fields[1..][..k - 1] == fields[..k][1..] && fields[1..][k - 1..] == fields[k..];
    }
  }

  // ---- what a content can be ----------------------------------------------------------------------

  ghost predicate Stripped(s: string) {
    s != "" ==> !IsSpace(s[0]) && !IsSpace(Last(s))
  }

  ghost predicate Figure(s: string) {
    NoBar(s) && (s != "" ==> !IsSpace(s[0]))
  }

  /** A hexadecimal digest has no bar; a spelled number neither, nor does it begin with a space. */
  ghost predicate Plausible(d: Digests) {
    (forall s :: NoBar(d.hexdigest(s))) && forall v :: Figure(d.spell(v))
  }

  /** The shape of every content: title and city stripped, the salaries numbers, the digest clean. */
  ghost predicate Proper(c: seq<string>) {
    |c| == 11 && Stripped(c[0]) && Stripped(c[4]) && Figure(c[5]) && Figure(c[6]) && NoBar(c[10])
  }

  lemma ContentIsProper(p: Posting, d: Digests)
    requires Plausible(d)
    ensures Proper(ContentOf(p, d))
  {
    var _, _ := StripPart(p.title);
    var _, _ := StripPart(p.city.GetOr(""));
    hide Strip;
    hide CompanyKey;
    DigestHasNoBar(p.description, d);
    hide DigestText;
  }

  lemma DigestHasNoBar(text: Option<string>, d: Digests)
    requires Plausible(d)
    ensures NoBar(DigestText(text, d))
  {
    hide CollapseSpace;
    hide Strip;
    hide Lower;
  }

  /** Each bar follows a space. */
  ghost predicate GuardedTitle(s: string) {
    forall k :: 0 <= k < |s| && s[k] == '|' ==> k > 0 && IsSpace(s[k - 1])
  }

  /** A space follows each bar. */
  ghost predicate GuardedCity(s: string) {
    forall k :: 0 <= k < |s| && s[k] == '|' ==> k + 1 < |s| && IsSpace(s[k + 1])
  }

  /** Bars in title and city only, and spaced there. */
  ghost predicate Guarded(c: seq<string>)
    requires |c| == 11
  {
    && GuardedTitle(c[0]) && GuardedCity(c[4])
    && NoBar(c[1]) && NoBar(c[2]) && NoBar(c[3]) && NoBar(c[7]) && NoBar(c[8]) && NoBar(c[9])
  }

  // ---- a guarded content is told from all others ------------------------------------------------------

  /** A guarded title's bar follows a space. */
  lemma TitleBar(c: seq<string>, front: string, back: string)
    requires Proper(c) && Guarded(c) && c[0] == Barred(front, back)
    ensures front != "" && IsSpace(Last(front))
  {
    assert c[0][|front|] == '|' && c[0][..|front|] == front;
  }

  /** A title cannot end where a guarded one has a bar. */
  lemma TitleReaches(c: seq<string>, e: seq<string>)
    requires Proper(c) && Guarded(c) && Proper(e) && Join(c) == Join(e)
    ensures |c[0]| <= |e[0]| && Bars(c[0]) <= Bars(e[0])
    ensures Bars(c[0]) == Bars(e[0]) ==> c[0] == e[0]
  {
    JoinSplit(c, 1);
    JoinSplit(e, 1);
    var r, r' := Join(c[1..]), Join(e[1..]);
    assert c[..1] == [c[0]] && e[..1] == [e[0]];
    if |e[0]| < |c[0]| {
      var middle := SplitLater(e[0], r', c[0], r);
      TitleBar(c, e[0], middle);
      assert false;
    } else if |c[0]| < |e[0]| {
      var middle := SplitLater(c[0], r, e[0], r');
    } else {
      SplitAlike(c[0], r, e[0], r');
    }
  }

  lemma BarsOfParts(c: seq<string>)
    requires Proper(c) && Guarded(c)
    ensures Bars(Join(c[..4])) == 3 + Bars(c[0]) && Bars(Join(c[5..])) == 5
  {
    hide Join;
    hide Bars;
    JoinBars(c[5..]);
    TotalIsZero(c[5..]);
    JoinBars(c[..4]);
    TotalIsZero(c[..4][1..]);
    assert forall i :: 0 <= i < 6 ==> c[5..][i] == c[5 + i];
    assert forall i :: 0 <= i < 3 ==> c[..4][1..][i] == c[1 + i];
  }

  lemma BarsAtLeast(e: seq<string>)
    requires |e| == 11
    ensures Bars(Join(e[..4])) >= 3 + Bars(e[0]) && Bars(Join(e[..5])) >= 4 + Bars(e[0]) && Bars(Join(e[5..])) >= 5
  {
    hide Join;
    hide Bars;
    JoinBars(e[5..]);
    JoinBars(e[..4]);
    JoinBars(e[..5]);
    assert e[..4][0] == e[0] && e[..5][0] == e[0];
  }

  /** A guarded city's bar is followed by a space. */
  lemma CityBar(c: seq<string>, front: string, back: string)
    requires Proper(c) && Guarded(c) && c[4] == Barred(front, back)
    ensures back != "" && IsSpace(back[0])
  {
    assert c[4][|front|] == '|' && c[4][|front| + 1..] == back;
  }

  lemma JoinStarts(e: seq<string>)
    requires |e| == 6 && Figure(e[0])
    ensures Join(e) != "" && !IsSpace(Join(e)[0])
  {
  }

  /** The two halves of the contents, up to the city and from the salaries on, meet at one bar. */
  lemma HalvesMeet(c: seq<string>, e: seq<string>)
    requires Proper(c) && Guarded(c) && Proper(e) && Join(c) == Join(e)
    ensures Join(c[..5]) == Join(e[..5]) && Join(c[5..]) == Join(e[5..])
  {
    TitleReaches(c, e);
    BarsOfParts(c);
    BarsAtLeast(e);
    JoinSplit(c, 5);
    JoinSplit(e, 5);
    JoinSplit(c[..5], 4);
    assert c[..5][..4] == c[..4] && c[..5][4..] == [c[4]];
    JoinStarts(e[5..]);
    var x, y, x', y', w := Join(c[..5]), Join(c[5..]), Join(e[..5]), Join(e[5..]), Join(c[..4]);
    var city := c[4];
    assert Join([city]) == city && x == Barred(w, city);
    hide Join;
    hide Bars;
    if |x| < |x'| {
      var _ := SplitLater(x, y, x', y');
      assert false;
    } else if |x'| < |x| {
      var z := SplitLater(x', y', x, y);
      NoEarlierCity(c, w, x', z, y');
      assert false;
    } else {
      SplitAlike(x, y, x', y');
    }
  }

  lemma NoEarlierCity(c: seq<string>, w: string, x': string, z: string, y': string)
    requires Proper(c) && Guarded(c) && Barred(w, c[4]) == Barred(x', z) && Bars(x') > Bars(w)
    ensures z != "" && IsSpace(z[0])
  {
    hide Bars;
    if |x'| < |w| {
      var _ := SplitLater(x', z, w, c[4]);
      assert false;
    } else if |x'| == |w| {
      SplitAlike(w, c[4], x', z);
      assert false;
    } else {
      var middle := SplitLater(w, c[4], x', z);
      CityBar(c, middle, z);
    }
  }

  /** The first halves agree field by field. */
  lemma FirstHalf(c: seq<string>, e: seq<string>)
    requires Proper(c) && Guarded(c) && Proper(e) && Join(c) == Join(e) && Join(c[..5]) == Join(e[..5])
    ensures c[..5] == e[..5]
  {
    TitleReaches(c, e);
    BarsOfParts(c);
    BarsAtLeast(e);
    JoinSplit(c[..5], 4);
    JoinSplit(e[..5], 4);
    assert c[..5][..4] == c[..4] && c[..5][4..] == [c[4]] && e[..5][..4] == e[..4] && e[..5][4..] == [e[4]];
    var w, w' := Join(c[..4]), Join(e[..4]);
    assert Barred(w, c[4]) == Barred(w', e[4]);
    if |w'| < |w| {
      hide Join;
      var _ := SplitLater(w', e[4], w, c[4]);
      assert false;
    } else if |w| < |w'| {
      hide Join;
      var middle := SplitLater(w, c[4], w', e[4]);
      CityBar(c, middle, e[4]);
      assert false;
    } else {
      SplitAlike(w, c[4], w', e[4]);
      TitleAndPlace(c, e);
      assert c[..5] == c[..4] + [c[4]] && e[..5] == e[..4] + [e[4]];
    }
  }

  lemma TitleAndPlace(c: seq<string>, e: seq<string>)
    requires Proper(c) && Guarded(c) && Proper(e) && Join(c) == Join(e) && Join(c[..4]) == Join(e[..4])
    ensures c[..4] == e[..4]
  {
    TitleReaches(c, e);
    BarsOfParts(c);
    JoinBars(e[..4]);
    assert e[..4][0] == e[0] && c[..4][0] == c[0];
    assert Bars(e[0]) == Bars(c[0]) && Total(e[..4][1..]) == 0;
    TotalIsZero(e[..4][1..]);
    JoinSplit(c[..4], 1);
    JoinSplit(e[..4], 1);
    assert c[..4][..1] == [c[0]] && e[..4][..1] == [e[0]];
    SplitAlike(c[0], Join(c[..4][1..]), e[0], Join(e[..4][1..]));
    JoinInjective(c[..4][1..], e[..4][1..]);
    assert c[..4] == [c[0]] + c[..4][1..] && e[..4] == [e[0]] + e[..4][1..];
  }

  lemma SecondHalfIsClear(c: seq<string>)
    requires Proper(c) && Guarded(c)
    ensures forall i :: 0 <= i < 6 ==> NoBar(c[5..][i])
  {
    assert forall i :: 0 <= i < 6 ==> c[5..][i] == c[5 + i];
    hide NoBar;
  }

  /** Fields that join with the least number of bars have none. */
  lemma FewestBars(fields: seq<string>)
    requires fields != [] && Bars(Join(fields)) == |fields| - 1
    ensures forall i :: 0 <= i < |fields| ==> NoBar(fields[i])
  {
    JoinBars(fields);
    TotalIsZero(fields);
  }

  lemma SecondHalf(c: seq<string>, e: seq<string>)
    requires Proper(c) && Guarded(c) && Proper(e) && Join(c[5..]) == Join(e[5..])
    ensures c[5..] == e[5..]
  {
    hide Bars;
    hide NoBar;
    hide Join;
    BarsOfParts(c);
    FewestBars(e[5..]);
    SecondHalfIsClear(c);
    JoinInjective(c[5..], e[5..]);
  }

  /** Whatever its join is read as, it is this content. */
  lemma GuardedIsUnique(c: seq<string>, e: seq<string>)
    requires Proper(c) && Guarded(c) && Proper(e) && Join(c) == Join(e)
    ensures c == e
  {
    HalvesMeet(c, e);
    FirstHalf(c, e);
    SecondHalf(c, e);
    assert c == c[..5] + c[5..] && e == e[..5] + e[5..];
  }

  // ---- any other content is mistaken for one --------------------------------------------------------

  /** Two neighbouring fields may meet at another bar. */
  lemma {:induction false} JoinSwap(c: seq<string>, i: nat, x: string, y: string)
    requires i + 1 < |c| && Barred(c[i], c[i + 1]) == Barred(x, y)
    ensures Join(c[i := x][i + 1 := y]) == Join(c)
  {
    var e := c[i := x][i + 1 := y];
    if i > 0 {
      JoinSwap(c[1..], i - 1, x, y);
      assert e[1..] == c[1..][i - 1 := x][i := y];
    } else if |c| > 2 {
      JoinSplit(c, 2);
      JoinSplit(e, 2);
      assert c[..2] == [c[0], c[1]] && e[..2] == [x, y] && e[2..] == c[2..];
      PairJoin(c[0], c[1]);
      PairJoin(x, y);
    } else {
      assert c == [c[0], c[1]] && e == [x, y];
      PairJoin(c[0], c[1]);
      PairJoin(x, y);
    }
  }

  lemma PairJoin(a: string, b: string)
    ensures Join([a, b]) == Barred(a, b)
  {
    assert [a, b][1..] == [b];
  }

  lemma BarAt(s: string) returns (k: nat)
    requires !NoBar(s)
    ensures k < |s| && s[k] == '|'
  {
    k :| 0 <= k < |s| && s[k] == '|';
  }

  lemma BarredTwice(a: string, b: string, c: string)
    ensures Barred(a, Barred(b, c)) == Barred(Barred(a, b), c)
  {
  }

  /** The bar of field i becomes the one between i and i + 1. */
  lemma ShiftRight(c: seq<string>, i: nat, k: nat) returns (e: seq<string>)
    requires i + 1 < |c| && k < |c[i]| && c[i][k] == '|'
    ensures |e| == |c| && Join(e) == Join(c) && e[i] == c[i][..k] && e[i] != c[i]
    ensures forall j :: 0 <= j < |c| && j != i && j != i + 1 ==> e[j] == c[j]
  {
    var x, z := c[i][..k], c[i][k + 1..];
    assert c[i] == Barred(x, z);
    BarredTwice(x, z, c[i + 1]);
    JoinSwap(c, i, x, Barred(z, c[i + 1]));
    e := c[i := x][i + 1 := Barred(z, c[i + 1])];
  }

  /** The bar of field i + 1 becomes the one between i and i + 1. */
  lemma ShiftLeft(c: seq<string>, i: nat, k: nat) returns (e: seq<string>)
    requires i + 1 < |c| && k < |c[i + 1]| && c[i + 1][k] == '|'
    ensures |e| == |c| && Join(e) == Join(c) && e[i + 1] == c[i + 1][k + 1..] && e[i + 1] != c[i + 1]
    ensures forall j :: 0 <= j < |c| && j != i && j != i + 1 ==> e[j] == c[j]
  {
    var x, z := c[i + 1][..k], c[i + 1][k + 1..];
    assert c[i + 1] == Barred(x, z);
    BarredTwice(c[i], x, z);
    JoinSwap(c, i, Barred(c[i], x), z);
    e := c[i := Barred(c[i], x)][i + 1 := z];
  }

  /** The parts of a content the shifts leave alone. */
  ghost predicate Realisable(c: seq<string>, e: seq<string>) {
    Proper(e) && |c| == 11 && e[5] == c[5] && e[6] == c[6] && e[10] == c[10]
  }

  lemma UnguardedIsShared(c: seq<string>) returns (e: seq<string>)
    requires Proper(c) && !Guarded(c)
    ensures Realisable(c, e) && Join(e) == Join(c) && e != c
  {
    hide Join;
    hide NoBar;
    if !GuardedTitle(c[0]) {
      var k :| 0 <= k < |c[0]| && c[0][k] == '|' && !(k > 0 && IsSpace(c[0][k - 1]));
      e := ShiftRight(c, 0, k);
    } else if !GuardedCity(c[4]) {
      var k :| 0 <= k < |c[4]| && c[4][k] == '|' && !(k + 1 < |c[4]| && IsSpace(c[4][k + 1]));
      e := ShiftLeft(c, 3, k);
    } else if !NoBar(c[1]) || !NoBar(c[7]) {
      var i := if !NoBar(c[1]) then 1 else 7;
      var k := BarAt(c[i]);
      e := ShiftRight(c, i, k);
    } else {
      var i := if !NoBar(c[2]) then 2 else if !NoBar(c[3]) then 3 else if !NoBar(c[8]) then 8 else 9;
      var k := BarAt(c[i]);
      e := ShiftLeft(c, i - 1, k);
    }
  }

  lemma StrippedIsKept(s: string)
    requires Stripped(s)
    ensures Strip(s) == s
  {
    var _, _ := StripPart(s);
  }

  /** A posting with these fields; salaries and description stay. */
  function WithContent(p: Posting, e: seq<string>): Posting
    requires |e| == 11
  {
    p.(title := e[0], companyName := None, companyExternalId := Some(e[1]), countryCode := Some(e[2]),
       stateCode := Some(e[3]), city := Some(e[4]), remoteType := Some(e[7]), employmentType := Some(e[8]),
       canonicalUrl := Some(e[9]))
  }

  lemma ContentIsReached(p: Posting, e: seq<string>, d: Digests)
    requires Realisable(ContentOf(p, d), e)
    ensures ContentOf(WithContent(p, e), d) == e
  {
    StrippedIsKept(e[0]);
    StrippedIsKept(e[4]);
    hide Strip;
    hide SalaryText;
    hide DigestText;
  }

  /** No bar in a field but title and city; white space before each of the title's, after each of the city's. */
  ghost predicate Safe(p: Posting) {
    && GuardedTitle(Strip(p.title)) && GuardedCity(Strip(p.city.GetOr(""))) && NoBar(CompanyKey(p))
    && NoBar(p.countryCode.GetOr("")) && NoBar(p.stateCode.GetOr("")) && NoBar(p.remoteType.GetOr(""))
    && NoBar(p.employmentType.GetOr("")) && NoBar(p.canonicalUrl.GetOr(""))
  }

  /** As a salary is written: nothing for none and for zero. */
  function Figured(v: Option<real>, d: Digests): string {
    if v.Some? && v.value != 0.0 then d.spell(v.value) else ""
  }

  /** The same in everything that counts; dates and status do not. */
  ghost predicate Same(p: Posting, q: Posting, d: Digests) {
    && Strip(p.title) == Strip(q.title) && CompanyKey(p) == CompanyKey(q)
    && p.countryCode.GetOr("") == q.countryCode.GetOr("") && p.stateCode.GetOr("") == q.stateCode.GetOr("")
    && Strip(p.city.GetOr("")) == Strip(q.city.GetOr(""))
    && Figured(p.salaryMin, d) == Figured(q.salaryMin, d) && Figured(p.salaryMax, d) == Figured(q.salaryMax, d)
    && p.remoteType.GetOr("") == q.remoteType.GetOr("") && p.employmentType.GetOr("") == q.employmentType.GetOr("")
    && p.canonicalUrl.GetOr("") == q.canonicalUrl.GetOr("") && DigestText(p.description, d) == DigestText(q.description, d)
  }

  lemma ContentIs(p: Posting, q: Posting, d: Digests)
    ensures ContentOf(p, d) == ContentOf(q, d) <==> Same(p, q, d)
    ensures Guarded(ContentOf(p, d)) <==> Safe(p)
  {
    hide CompanyKey;
    hide DigestText;
    hide Strip;
    hide NoBar;
    hide GuardedTitle;
    hide GuardedCity;
    var a, b := ContentOf(p, d), ContentOf(q, d);
    assert a == b <==> a[0] == b[0] && a[1] == b[1] && a[2] == b[2] && a[3] == b[3] && a[4] == b[4] && a[5] == b[5]
                       && a[6] == b[6] && a[7] == b[7] && a[8] == b[8] && a[9] == b[9] && a[10] == b[10];
  }

  lemma GuardedAlone(p: Posting, q: Posting, d: Digests)
    requires Injective(d.sha) && Plausible(d) && Guarded(ContentOf(p, d))
    ensures ContentHash(p, d) == ContentHash(q, d) <==> ContentOf(p, d) == ContentOf(q, d)
  {
    hide ContentOf;
    hide Guarded;
    ContentIsProper(p, d);
    ContentIsProper(q, d);
    if ContentHash(p, d) == ContentHash(q, d) {
      GuardedIsUnique(ContentOf(p, d), ContentOf(q, d));
    }
  }

  lemma UnguardedTwin(p: Posting, d: Digests) returns (q: Posting)
    requires Plausible(d) && !Guarded(ContentOf(p, d))
    ensures ContentHash(q, d) == ContentHash(p, d) && ContentOf(q, d) != ContentOf(p, d)
  {
    hide ContentOf;
    hide Guarded;
    ContentIsProper(p, d);
    var e := UnguardedIsShared(ContentOf(p, d));
    ContentIsReached(p, e, d);
    q := WithContent(p, e);
  }

  /** What the content hash can and cannot tell: a posting shares its hash with no posting that differs in
      anything that counts if and only if no field but title and city has a bar, each bar of the title
      follows a space, and a space follows each bar of the city. */
  lemma ContentHashExactly(p: Posting, d: Digests)
    requires Injective(d.sha) && Plausible(d)
    ensures (forall q :: ContentHash(q, d) == ContentHash(p, d) ==> Same(p, q, d)) <==> Safe(p)
  {
    hide ContentOf;
    hide Guarded;
    hide Same;
    hide Safe;
    hide ContentHash;
    ContentIs(p, p, d);
    if Safe(p) {
      forall q | ContentHash(q, d) == ContentHash(p, d)
        ensures Same(p, q, d)
      {
        GuardedAlone(p, q, d);
        ContentIs(p, q, d);
      }
    } else {
      var q := UnguardedTwin(p, d);
      ContentIs(p, q, d);
    }
  }

  /** A safe posting has the hash of those postings alone that are the same. */
  lemma ContentHashMeaning(p: Posting, q: Posting, d: Digests)
    requires Injective(d.sha) && Plausible(d) && Safe(p)
    ensures ContentHash(p, d) == ContentHash(q, d) <==> Same(p, q, d)
  {
    ContentIs(p, q, d);
    GuardedAlone(p, q, d);
    hide ContentOf;
    hide Guarded;
    hide Same;
    hide Safe;
    hide ContentHash;
  }

  /** In particular the usual clean posting is told from every other one. */
  lemma CleanIsSafe(p: Posting)
    requires NoBar(p.title) && NoBar(p.city.GetOr("")) && NoBar(CompanyKey(p)) && NoBar(p.countryCode.GetOr("")) && NoBar(p.stateCode.GetOr(""))
    requires NoBar(p.remoteType.GetOr("")) && NoBar(p.employmentType.GetOr("")) && NoBar(p.canonicalUrl.GetOr(""))
    ensures Safe(p)
  {
    StrippedHasNoBar(p.title);
    StrippedHasNoBar(p.city.GetOr(""));
    hide Strip;
    hide CompanyKey;
    hide NoBar;
  }

  lemma StrippedHasNoBar(s: string)
    requires NoBar(s)
    ensures NoBar(Strip(s)) && GuardedTitle(Strip(s)) && GuardedCity(Strip(s))
  {
    var i, j := StripPart(s);
    var t := Strip(s);
    hide Strip;
    assert forall n :: 0 <= n < |t| ==> t[n] == s[i + n];
  }

  /** A posting known by its title, its employer's identifier and its city only. */
  function Bare(title: string, company: Option<string>, city: Option<string>): Posting {
    Posting(title, None, "", "", company, None, None, city, None, None, None, None, None, None)
  }

  lemma BareContent(title: string, company: Option<string>, city: Option<string>, d: Digests)
    requires Stripped(title) && Stripped(city.GetOr(""))
    ensures ContentOf(Bare(title, company, city), d) ==
      [title, company.GetOr(""), "", "", city.GetOr(""), "", "", "", "", "", ""]
  {
    StrippedIsKept(title);
    StrippedIsKept(city.GetOr(""));
    hide Strip;
  }

  lemma TitleDecides(title: string)
    requires Stripped(title)
    ensures Safe(Bare(title, None, None)) <==> GuardedTitle(title)
  {
    StrippedIsKept(title);
    StrippedIsKept("");
    hide Strip;
    hide NormalizeKey;
  }

  /** The bar of "Nurse | Remote" is safe; that of "Nurse|Remote" is not. */
  lemma SpacedBarIsSafe()
    ensures Safe(Bare("Nurse | Remote", None, None))
    ensures !Safe(Bare("Nurse|Remote", None, None))
  {
    NurseTitles();
    TitleDecides("Nurse | Remote");
    TitleDecides("Nurse|Remote");
    hide Stripped;
    hide GuardedTitle;
    hide Safe;
  }

  lemma NurseTitles()
    ensures Stripped("Nurse | Remote") && GuardedTitle("Nurse | Remote")
    ensures Stripped("Nurse|Remote") && !GuardedTitle("Nurse|Remote")
  {
    assert "Nurse|Remote"[5] == '|' && "Nurse|Remote"[4] == 'e';
  }

  /** Two postings that differ in title and employer and hash alike, whatever the digest. */
  lemma ContentHashCollision(a: string, b: string, d: Digests)
    requires Stripped(a) && Stripped(Barred(a, b))
    ensures ContentHash(Bare(Barred(a, b), None, None), d) == ContentHash(Bare(a, Some(Barred(b, "")), None), d)
  {
    BareContent(Barred(a, b), None, None, d);
    BareContent(a, Some(Barred(b, "")), None, d);
    hide ContentOf;
    hide Join;
    var c := [Barred(a, b), "", "", "", "", "", "", "", "", "", ""];
    BarredTwice(a, b, "");
    var y := Barred(b, "");
    JoinSwap(c, 0, a, y);
    hide Barred;
    assert c[0 := a][1 := y] == [a, y, "", "", "", "", "", "", "", "", ""];
  }
}

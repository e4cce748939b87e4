/** The canonical form of an application URL, as text: the second level of the dedupe. */
module Urls {
  import opened Prelude
  import opened Text
  import opened Sorting

  /** A URL split into its parts, as urlsplit does it; the query and the fragment are still text. */
  datatype Url = Url(scheme: string, netloc: string, path: string, query: string, fragment: string)

  /** What the standard library adds: unquote_plus, quote_plus, and the network locations urlsplit
      does not refuse with a ValueError. */
  datatype Library = Library(decode: string -> string, encode: string -> string, accepts: string -> bool) {
    ghost predicate Faithful() {
      && (forall s :: decode(encode(s)) == s && (encode(s) == "" <==> s == ""))
      && (forall s :: s != "" ==> decode(s) != "")
      && (forall s, i :: 0 <= i < |encode(s)| ==> IsQuoted(encode(s)[i]))
    }
  }

  /** The characters quote_plus writes. */
  predicate IsQuoted(c: char) {
    IsAlpha(c) || IsDigit(c) || c == '_' || c == '.' || c == '-' || c == '~' || c == '%' || c == '+'
  }

  predicate IsTracking(key: string) {
    match Lower(key)
    case "utm_source" | "utm_medium" | "utm_campaign" | "utm_term" | "utm_content" | "utm_id" | "gh_src" | "gh_jid"
         | "lever-source" | "lever-origin" | "source" | "src" | "ref" | "referrer" | "referer" | "fbclid" | "gclid"
         | "msclkid" | "mc_cid" | "mc_eid" | "trackingid" | "tracking_id" | "campaign" | "medium" | "recruiter"
         | "rx_source" | "rx_campaign" | "rx_medium" | "rx_group" | "rx_job" | "sourcetype" | "iis" | "iisn" => true
    case _ => false
  }

  /** Campaign names track, in any case; a job's id does not. */
  lemma NamesThatTrack()
    ensures IsTracking("utm_source") && IsTracking("GCLID") && IsTracking("Ref") && !IsTracking("id") && !IsTracking("jobid")
  {
    assert Lower("utm_source") == "utm_source" && Lower("GCLID") == "gclid" && Lower("Ref") == "ref";
    assert Lower("id") == "id" && Lower("jobid") == "jobid";
  }

  // ---- cutting text -------------------------------------------------------------------------------

  predicate IsColon(c: char) { c == ':' }

  predicate IsAuthorityEnd(c: char) { c == '/' || c == '?' || c == '#' }

  predicate IsHash(c: char) { c == '#' }

  predicate IsQuestion(c: char) { c == '?' }

  predicate IsAmpersand(c: char) { c == '&' }

  predicate IsEquals(c: char) { c == '=' }

  ghost predicate Free(s: string, stop: char -> bool) {
    forall i :: 0 <= i < |s| ==> !stop(s[i])
  }

  /** The text before the first stop, and the text from there on. */
  function Cut(s: string, stop: char -> bool): (r: (string, string))
    ensures r.0 + r.1 == s && Free(r.0, stop) && (r.1 == "" || stop(r.1[0]))
  {
    if s == "" || stop(s[0]) then ("", s)
    else
      var r := Cut(s[1..], stop);
      assert s == [s[0]] + (r.0 + r.1);
      FreeNext(s[0], r.0, stop);
      ([s[0]] + r.0, r.1)
  }

  lemma FreeNext(c: char, s: string, stop: char -> bool)
    requires !stop(c) && Free(s, stop)
    ensures Free([c] + s, stop)
  {
  }

  /** There is one way to cut. */
  lemma {:induction false} CutExactly(a: string, b: string, stop: char -> bool)
    requires Free(a, stop) && (b == "" || stop(b[0]))
    ensures Cut(a + b, stop) == (a, b)
  {
    if a == "" {
      assert a + b == b;
    } else {
      assert (a + b)[1..] == a[1..] + b && a == [a[0]] + a[1..];
      CutExactly(a[1..], b, stop);
    }
  }

  function Behind(s: string): string {
    if s == "" then "" else s[1..]
  }

  predicate IsControlOrSpace(c: char) { c <= ' ' }

  predicate IsKept(c: char) { c != '\t' && c != '\r' && c != '\n' }

  /** strip of the code, then what urlsplit itself removes. */
  function Trimmed(text: string): string {
    Filter(DropLeft(Strip(text), IsControlOrSpace), IsKept)
  }

  predicate IsHttp(scheme: string) { Lower(scheme) == "http" || Lower(scheme) == "https" }

  function Split(s: string): Option<Url> {
    var (scheme, rest) := Cut(s, IsColon);
    if !IsHttp(scheme) || !HasPrefix(rest, "://") then None
    else
      var (netloc, tail) := Cut(rest[3..], IsAuthorityEnd);
      var (front, fragment) := Cut(tail, IsHash);
      var (path, query) := Cut(front, IsQuestion);
      Some(Url(scheme, netloc, path, Behind(query), Behind(fragment)))
  }

  // ---- the query ----------------------------------------------------------------------------------

  /** One name=value; without a value it is dropped. */
  function Item(piece: string, lib: Library): seq<(string, string)> {
    var (key, value) := Cut(piece, IsEquals);
    if |value| <= 1 then [] else [(lib.decode(key), lib.decode(value[1..]))]
  }

  function Items(query: string, lib: Library): seq<(string, string)>
    decreases |query|
  {
    if query == "" then []
    else
      var (piece, rest) := Cut(query, IsAmpersand);
      assert query == piece + rest;
      Item(piece, lib) + if rest == "" then [] else Items(rest[1..], lib)
  }

  function IsIdentifying(): ((string, string)) -> bool {
    (item: (string, string)) => !IsTracking(item.0)
  }

  function Kept(query: string, lib: Library): seq<(string, string)> {
    Filter(Items(query, lib), IsIdentifying())
  }

  function SpellItem(item: (string, string), lib: Library): string {
    lib.encode(item.0) + "=" + lib.encode(item.1)
  }

  /** urlencode. */
  function SpellItems(items: seq<(string, string)>, lib: Library): string {
    if items == [] then ""
    else if |items| == 1 then SpellItem(items[0], lib)
    else SpellItem(items[0], lib) + ("&" + SpellItems(items[1..], lib))
  }

  ghost predicate Valued(items: seq<(string, string)>) {
    forall i :: 0 <= i < |items| ==> items[i].1 != ""
  }

  lemma {:induction false} ItemsAreValued(query: string, lib: Library)
    requires lib.Faithful()
    ensures Valued(Items(query, lib))
    decreases |query|
  {
    if query != "" {
      var (piece, rest) := Cut(query, IsAmpersand);
      assert query == piece + rest;
      if rest != "" {
        ItemsAreValued(rest[1..], lib);
      }
    }
  }

  lemma ItemBack(item: (string, string), lib: Library)
    requires lib.Faithful() && item.1 != ""
    ensures Item(SpellItem(item, lib), lib) == [item] && SpellItem(item, lib) != "" && Free(SpellItem(item, lib), IsAmpersand)
    ensures IsQuoted(Last(SpellItem(item, lib)))
  {
    hide Cut;
    var value := "=" + lib.encode(item.1);
    var s := SpellItem(item, lib);
    assert s == lib.encode(item.0) + value;
    CutExactly(lib.encode(item.0), value, IsEquals);
    assert value[1..] == lib.encode(item.1);
    assert Last(s) == Last(lib.encode(item.1));
    assert forall i :: 0 <= i < |s| ==> s[i] == '=' || IsQuoted(s[i]);
  }

  /** The items of a spelled query come back in order. */
  lemma {:induction false} ItemsBack(items: seq<(string, string)>, lib: Library)
    requires lib.Faithful() && Valued(items)
    ensures Items(SpellItems(items, lib), lib) == items
    ensures items != [] ==> SpellItems(items, lib) != "" && IsQuoted(Last(SpellItems(items, lib)))
  {
    hide SpellItem;
    hide Item;
    hide Cut;
    if items != [] {
      var first := SpellItem(items[0], lib);
      ItemBack(items[0], lib);
      if |items| == 1 {
        CutExactly(first, "", IsAmpersand);
        assert first + "" == first;
      } else {
        var rest := "&" + SpellItems(items[1..], lib);
        ItemsBack(items[1..], lib);
        CutExactly(first, rest, IsAmpersand);
        assert rest[1..] == SpellItems(items[1..], lib);
        assert items == [items[0]] + items[1..];
      }
    }
  }

  lemma ItemsNext(piece: string, rest: string, lib: Library)
    requires Free(piece, IsAmpersand)
    ensures Items(piece + ("&" + rest), lib) == Item(piece, lib) + Items(rest, lib)
  {
    hide Item;
    CutExactly(piece, "&" + rest, IsAmpersand);
    hide Cut;
    assert ("&" + rest)[1..] == rest;
  }

  lemma ItemsLast(piece: string, lib: Library)
    requires Free(piece, IsAmpersand)
    ensures Items(piece, lib) == Item(piece, lib)
  {
    CutExactly(piece, "", IsAmpersand);
    assert piece + "" == piece;
    hide Cut;
    if piece == "" {
      assert Cut(piece, IsEquals) == ("", "") by {
        CutExactly("", "", IsEquals);
      }
    }
  }

  /** Items on either side of an ampersand do not touch each other. */
  lemma {:induction false} ItemsJoin(a: string, b: string, lib: Library)
    ensures Items(a + ("&" + b), lib) == Items(a, lib) + Items(b, lib)
    decreases |a|
  {
    hide Item;
    hide Items;
    var (piece, rest) := Cut(a, IsAmpersand);
    hide Cut;
    if rest == "" {
      assert a == piece;
      ItemsNext(piece, b, lib);
      ItemsLast(piece, lib);
    } else {
      assert a == piece + ("&" + rest[1..]);
      ItemsNext(piece, rest[1..], lib);
      ItemsJoin(rest[1..], b, lib);
      ItemsNext(piece, rest[1..] + ("&" + b), lib);
      assert a + ("&" + b) == piece + ("&" + (rest[1..] + ("&" + b)));
    }
  }

  // ---- the order of query items -----------------------------------------------------------------

  /** Code point by code point, a prefix first. */
  predicate StringLeq(a: string, b: string) {
    a == "" || (b != "" && (a[0] < b[0] || (a[0] == b[0] && StringLeq(a[1..], b[1..]))))
  }

  predicate ItemLeq(a: (string, string), b: (string, string)) {
    if a.0 == b.0 then StringLeq(a.1, b.1) else StringLeq(a.0, b.0)
  }

  lemma {:induction false} StringOrder(a: string, b: string, c: string)
    ensures StringLeq(a, b) || StringLeq(b, a)
    ensures StringLeq(a, b) && StringLeq(b, a) ==> a == b
    ensures StringLeq(a, b) && StringLeq(b, c) ==> StringLeq(a, c)
  {
    if a != "" && b != "" {
      StringOrder(a[1..], b[1..], if c == "" then "" else c[1..]);
      assert a == [a[0]] + a[1..] && b == [b[0]] + b[1..];
    }
  }

  lemma ItemOrder(a: (string, string), b: (string, string), c: (string, string))
    ensures ItemLeq(a, b) || ItemLeq(b, a)
    ensures ItemLeq(a, b) && ItemLeq(b, a) ==> a == b
    ensures ItemLeq(a, b) && ItemLeq(b, c) ==> ItemLeq(a, c)
  {
    hide StringLeq;
    StringOrder(a.0, b.0, c.0);
    StringOrder(b.0, c.0, a.0);
    StringOrder(c.0, a.0, b.0);
    StringOrder(a.1, b.1, c.1);
  }

  function ByItem(): ((string, string), (string, string)) -> bool {
    (a: (string, string), b: (string, string)) => ItemLeq(a, b)
  }

  /** Pairs are totally ordered. */
  lemma ItemsAreOrdered()
    ensures Transitive(ByItem()) && Antisymmetric(ByItem())
    ensures forall a, b :: ByItem()(a, b) || ByItem()(b, a)
  {
    hide ItemLeq;
    forall a, b, c
      ensures (ItemLeq(a, b) || ItemLeq(b, a)) && (ItemLeq(a, b) && ItemLeq(b, a) ==> a == b)
      ensures ItemLeq(a, b) && ItemLeq(b, c) ==> ItemLeq(a, c)
    {
      ItemOrder(a, b, c);
    }
  }

  function Sorted(items: seq<(string, string)>): seq<(string, string)> {
    SortBy(items, ByItem())
  }

  lemma SortedItems(items: seq<(string, string)>)
    ensures multiset(Sorted(items)) == multiset(items) && OrderedBy(Sorted(items), ByItem())
    ensures forall item: (string, string) :: item in Sorted(items) <==> item in items
  {
    ItemsAreOrdered();
    SortOrders(items, ByItem());
  }

  /** Lists of items sort alike exactly when they hold the same items equally often. */
  lemma SortedDecides(a: seq<(string, string)>, b: seq<(string, string)>)
    ensures Sorted(a) == Sorted(b) <==> multiset(a) == multiset(b)
  {
    SortedItems(a);
    SortedItems(b);
    ItemsAreOrdered();
    hide Sorted;
    if multiset(a) == multiset(b) {
      OrderIsUnique(Sorted(a), Sorted(b), ByItem());
    }
  }

  lemma SortedTwice(items: seq<(string, string)>)
    ensures Sorted(Sorted(items)) == Sorted(items)
  {
    SortedItems(items);
    SortedDecides(Sorted(items), items);
  }

  // ---- the canonical form ----------------------------------------------------------------------------

  /** The identity of an address. */
  datatype Form = Form(scheme: string, host: string, path: string, items: seq<(string, string)>)

  function HostOf(netloc: string): string {
    var host := Lower(netloc);
    var bare := if HasPrefix(host, "www.") then host[4..] else host;
    RemoveSuffix(RemoveSuffix(bare, ":443"), ":80")
  }

  /** The host is the network location in lower case, without one www. before it and the default ports
      behind it, first the one and then the other. */
  lemma HostExactly(netloc: string)
    ensures var host, rest := HostOf(netloc), if HasPrefix(Lower(netloc), "www.") then Lower(netloc)[4..] else Lower(netloc);
      if HasSuffix(rest, ":80:443") then rest == host + ":80:443"
      else if HasSuffix(rest, ":443") then rest == host + ":443"
      else if HasSuffix(rest, ":80") then rest == host + ":80" else rest == host
  {
    var rest := if HasPrefix(Lower(netloc), "www.") then Lower(netloc)[4..] else Lower(netloc);
    SuffixTwice(rest, ":80", ":443");
    assert ":80" + ":443" == ":80:443";
    hide Lower;
  }

  lemma SuffixTwice(s: string, a: string, b: string)
    ensures HasSuffix(s, a + b) <==> HasSuffix(s, b) && HasSuffix(s[..|s| - |b|], a)
    ensures HasSuffix(s, b) ==> s == RemoveSuffix(s, b) + b
    ensures HasSuffix(s, a + b) ==> s == RemoveSuffix(RemoveSuffix(s, b), a) + (a + b)
    ensures HasSuffix(s, a) ==> s == RemoveSuffix(s, a) + a
  {
    if HasSuffix(s, b) {
      var front := s[..|s| - |b|];
      assert s == front + b;
      if HasSuffix(front, a) {
        assert s[|s| - |a + b|..] == a + b;
      }
      if HasSuffix(s, a + b) {
        assert front[|front| - |a|..] == (a + b)[..|a|];
      }
    }
    if HasSuffix(s, a + b) {
      assert s[|s| - |b|..] == (a + b)[|a|..];
    }
  }

  predicate IsSlash(c: char) { c == '/' }

  function PathOf(path: string): string {
    var trimmed := DropRight(path, IsSlash);
    if trimmed == "" then "/" else trimmed
  }

  function FormOf(url: Url, lib: Library): Form {
    Form(Lower(url.scheme), HostOf(url.netloc), PathOf(url.path), Sorted(Kept(url.query, lib)))
  }

  function QueryOf(items: seq<(string, string)>, lib: Library): string {
    if items == [] then "" else "?" + SpellItems(items, lib)
  }

  function Address(scheme: string, netloc: string, path: string): string {
    scheme + ("://" + (netloc + path))
  }

  /** urlunsplit, without a fragment. */
  function Spell(f: Form, lib: Library): string {
    Address(f.scheme, f.host, f.path) + QueryOf(f.items, lib)
  }

  predicate Usable(url: Option<Url>, lib: Library) {
    url.Some? && url.value.netloc != "" && lib.accepts(url.value.netloc)
  }

  /** canonicalize_url, of a text that is not None; an empty text has no parts. */
  function Canonical(text: string, lib: Library): Option<string> {
    var url := Split(Trimmed(text));
    if Usable(url, lib) then Some(Spell(FormOf(url.value, lib), lib)) else None
  }

  // ---- taking a spelled address apart again ----------------------------------------------------------

  /** The parts a split can have. */
  ghost predicate WellFormed(url: Url) {
    && IsHttp(url.scheme) && Free(url.netloc, IsAuthorityEnd)
    && (url.path != "" ==> url.path[0] == '/') && Free(url.path, IsHash) && Free(url.path, IsQuestion)
    && Free(url.query, IsHash)
  }

  lemma HttpHasNoColon(scheme: string)
    requires IsHttp(scheme)
    ensures scheme != "" && Free(scheme, IsColon) && IsAlpha(scheme[0])
  {
    var lowered := Lower(scheme);
    forall i | 0 <= i < |scheme|
      ensures lowered[i] == LowerChar(scheme[i]) && IsLower(lowered[i])
    {
    }
  }

  /** What a query and a fragment add to an address. */
  predicate IsTail(tail: string) {
    tail == "" || tail[0] == '?' || tail[0] == '#'
  }

  function TailQuery(tail: string): string {
    Behind(Cut(tail, IsHash).0)
  }

  lemma QueryStarts(tail: string)
    requires IsTail(tail)
    ensures var (q, f) := Cut(tail, IsHash); tail == q + f && (q == "" || q[0] == '?') && (f == "" || IsHash(f[0])) && Free(q, IsHash)
  {
    var (q, f) := Cut(tail, IsHash);
    hide Cut;
    assert q != "" ==> q[0] == tail[0] && !IsHash(q[0]);
  }

  /** The path ends where the query or the fragment begins. */
  lemma TailIsCut(path: string, tail: string)
    requires Free(path, IsHash) && Free(path, IsQuestion) && IsTail(tail)
    ensures var q, f := Cut(tail, IsHash).0, Cut(tail, IsHash).1;
      Cut(path + tail, IsHash) == (path + q, f) && Cut(path + q, IsQuestion) == (path, q)
  {
    hide Cut;
    QueryStarts(tail);
    var q, f := Cut(tail, IsHash).0, Cut(tail, IsHash).1;
    FreeJoin(path, q, IsHash);
    hide Free;
    assert path + tail == (path + q) + f;
    CutExactly(path + q, f, IsHash);
    CutExactly(path, q, IsQuestion);
  }

  lemma FreeJoin(a: string, b: string, stop: char -> bool)
    requires Free(a, stop) && Free(b, stop)
    ensures Free(a + b, stop)
  {
  }

  /** An address with a tail splits into its parts. */
  lemma SplitExactly(scheme: string, netloc: string, path: string, tail: string)
    requires WellFormed(Url(scheme, netloc, path, "", "")) && IsTail(tail)
    ensures var url := Split(Address(scheme, netloc, path) + tail);
      url.Some? && url.value == Url(scheme, netloc, path, TailQuery(tail), Behind(Cut(tail, IsHash).1))
  {
    hide Cut;
    HttpHasNoColon(scheme);
    hide IsHttp;
    var rest := "://" + (netloc + (path + tail));
    assert Address(scheme, netloc, path) + tail == scheme + rest;
    hide Address;
    CutExactly(scheme, rest, IsColon);
    assert rest[3..] == netloc + (path + tail);
    CutExactly(netloc, path + tail, IsAuthorityEnd);
    TailIsCut(path, tail);
    hide Free;
  }

  /** And what a text splits into is well formed. */
  lemma SplitIsWellFormed(s: string)
    requires Split(s).Some?
    ensures WellFormed(Split(s).value)
  {
    hide IsHttp;
    var (scheme, rest) := Cut(s, IsColon);
    var (netloc, tail) := Cut(rest[3..], IsAuthorityEnd);
    var (front, fragment) := Cut(tail, IsHash);
    var (path, query) := Cut(front, IsQuestion);
    hide Cut;
    assert path != "" ==> path[0] == tail[0];
    assert front == path + query;
    forall i | 0 <= i < |path|
      ensures path[i] == front[i]
    {
    }
    forall i | 0 <= i < |Behind(query)|
      ensures Behind(query)[i] == front[|path| + 1 + i]
    {
    }
  }

  ghost predicate GoodForm(f: Form) {
    && WellFormed(Url(f.scheme, f.host, f.path, "", "")) && f.path != "" && Valued(f.items)
    && Lower(f.scheme) == f.scheme
  }

  lemma {:induction false} TrimmedPath(path: string, drop: char -> bool)
    ensures var trimmed := DropRight(path, drop);
      && trimmed <= path && (trimmed != "" ==> !drop(Last(trimmed)))
      && forall i :: |trimmed| <= i < |path| ==> drop(path[i])
  {
    if path != "" && drop(Last(path)) {
      TrimmedPath(Init(path), drop);
    }
  }

  lemma HostParts(netloc: string)
    ensures Lower(HostOf(netloc)) == HostOf(netloc)
    ensures forall c :: c in HostOf(netloc) ==> c in Lower(netloc)
  {
  }

  lemma KeptAreValued(query: string, lib: Library)
    requires lib.Faithful()
    ensures Valued(Sorted(Kept(query, lib)))
  {
    ItemsAreValued(query, lib);
    FilterMembers(Items(query, lib), IsIdentifying());
    SortedItems(Kept(query, lib));
    var items := Sorted(Kept(query, lib));
    hide Sorted;
    hide Items;
    forall i | 0 <= i < |items|
      ensures items[i].1 != ""
    {
      assert items[i] in Kept(query, lib) && items[i] in Items(query, lib);
    }
  }

  lemma HostIsFree(netloc: string)
    requires Free(netloc, IsAuthorityEnd)
    ensures Free(HostOf(netloc), IsAuthorityEnd)
  {
    HostParts(netloc);
    var host := HostOf(netloc);
    hide HostOf;
    forall i | 0 <= i < |host|
      ensures !IsAuthorityEnd(host[i])
    {
      assert host[i] in Lower(netloc);
    }
  }

  lemma PathIsGood(path: string)
    requires (path != "" ==> path[0] == '/') && Free(path, IsHash) && Free(path, IsQuestion)
    ensures PathOf(path) != "" && PathOf(path)[0] == '/' && Free(PathOf(path), IsHash) && Free(PathOf(path), IsQuestion)
  {
    TrimmedPath(path, IsSlash);
  }

  lemma FormIsGood(url: Url, lib: Library)
    requires WellFormed(url) && lib.Faithful()
    ensures GoodForm(FormOf(url, lib))
  {
    PathIsGood(url.path);
    HostIsFree(url.netloc);
    KeptAreValued(url.query, lib);
    assert Lower(Lower(url.scheme)) == Lower(url.scheme);
    hide Lower;
    hide Sorted;
    hide Kept;
    hide PathOf;
    hide HostOf;
  }

  /** A spelled form splits into itself. */
  lemma SpellBack(f: Form, lib: Library)
    requires GoodForm(f) && lib.Faithful()
    ensures var url := Split(Spell(f, lib));
      && url.Some? && url.value.scheme == f.scheme && url.value.netloc == f.host && url.value.path == f.path
      && Items(url.value.query, lib) == f.items
  {
    hide SpellItems;
    hide Address;
    hide IsHttp;
    hide IsQuestion;
    hide IsAuthorityEnd;
    var tail := QueryOf(f.items, lib);
    ItemsBack(f.items, lib);
    SplitExactly(f.scheme, f.host, f.path, tail);
    QueryHasNoHash(f.items, lib);
    CutExactly(tail, "", IsHash);
    assert tail + "" == tail;
    hide Split;
    hide Cut;
    hide Items;
  }

  lemma {:induction false} QueryHasNoHash(items: seq<(string, string)>, lib: Library)
    requires lib.Faithful()
    ensures forall i :: 0 <= i < |SpellItems(items, lib)| ==> IsQuoted(SpellItems(items, lib)[i]) || SpellItems(items, lib)[i] == '=' || SpellItems(items, lib)[i] == '&'
    ensures Free(QueryOf(items, lib), IsHash)
  {
    if items != [] {
      QueryHasNoHash(items[1..], lib);
      var first := SpellItem(items[0], lib);
      assert forall i :: 0 <= i < |first| ==> IsQuoted(first[i]) || first[i] == '=';
      hide SpellItem;
    }
  }

  /** So different forms are spelled differently. */
  lemma SpellIsInjective(f: Form, g: Form, lib: Library)
    requires GoodForm(f) && GoodForm(g) && lib.Faithful() && Spell(f, lib) == Spell(g, lib)
    ensures f == g
  {
    SpellBack(f, lib);
    SpellBack(g, lib);
  }

  // ---- what the form decides -------------------------------------------------------------------------

  /** Every item that does not track stands as often in the one query as in the other. */
  ghost predicate SameItems(q: string, q': string, lib: Library) {
    forall item: (string, string) :: !IsTracking(item.0) ==> multiset(Items(q, lib))[item] == multiset(Items(q', lib))[item]
  }

  lemma {:induction false} CountKept(items: seq<(string, string)>, item: (string, string))
    ensures multiset(Filter(items, IsIdentifying()))[item] == if IsTracking(item.0) then 0 else multiset(items)[item]
  {
    hide IsTracking;
    if items != [] {
      CountKept(Init(items), item);
      assert items == Init(items) + [Last(items)];
    }
  }

  lemma KeptAlike(q: string, q': string, lib: Library)
    ensures multiset(Kept(q, lib)) == multiset(Kept(q', lib)) <==> SameItems(q, q', lib)
  {
    var a, b := multiset(Kept(q, lib)), multiset(Kept(q', lib));
    forall item: (string, string)
      ensures a[item] == if IsTracking(item.0) then 0 else multiset(Items(q, lib))[item]
      ensures b[item] == if IsTracking(item.0) then 0 else multiset(Items(q', lib))[item]
    {
      CountKept(Items(q, lib), item);
      CountKept(Items(q', lib), item);
    }
    hide IsTracking;
    hide Kept;
    hide Items;
    if SameItems(q, q', lib) {
      assert forall item: (string, string) :: a[item] == b[item];
    }
  }

  /** Two addresses of one application: same scheme, host, path and identifying query items, in any
      order, whatever else they carry. */
  ghost predicate SameApplication(a: Url, b: Url, lib: Library) {
    && Lower(a.scheme) == Lower(b.scheme) && HostOf(a.netloc) == HostOf(b.netloc)
    && PathOf(a.path) == PathOf(b.path) && SameItems(a.query, b.query, lib)
  }

  /** The canonical text decides exactly that. */
  lemma CanonicalDecides(a: string, b: string, lib: Library)
    requires lib.Faithful() && Canonical(a, lib).Some? && Canonical(b, lib).Some?
    ensures Canonical(a, lib) == Canonical(b, lib) <==>
      SameApplication(Split(Trimmed(a)).value, Split(Trimmed(b)).value, lib)
  {
    var x, y := Split(Trimmed(a)).value, Split(Trimmed(b)).value;
    SplitIsWellFormed(Trimmed(a));
    SplitIsWellFormed(Trimmed(b));
    FormIsGood(x, lib);
    FormIsGood(y, lib);
    SortedDecides(Kept(x.query, lib), Kept(y.query, lib));
    KeptAlike(x.query, y.query, lib);
    hide SameItems;
    hide Split;
    hide Trimmed;
    hide Sorted;
    hide Kept;
    hide HostOf;
    hide PathOf;
    hide GoodForm;
    hide WellFormed;
    if Canonical(a, lib) == Canonical(b, lib) {
      SpellIsInjective(FormOf(x, lib), FormOf(y, lib), lib);
    }
    hide Spell;
  }

  lemma {:induction false} SlashesDropped(path: string, n: nat)
    ensures PathOf(path + seq(n, _ => '/')) == PathOf(path)
  {
    var longer := path + seq(n, _ => '/');
    if n == 0 {
      assert longer == path;
    } else {
      assert Init(longer) == path + seq(n - 1, _ => '/');
      SlashesDropped(path, n - 1);
    }
  }

  /** Trailing slashes do not count; the rest of the path keeps its case and its characters. */
  lemma PathIsKept(url: Url, n: nat, lib: Library)
    ensures FormOf(url.(path := url.path + seq(n, _ => '/')), lib) == FormOf(url, lib)
    ensures var path := FormOf(url, lib).path;
      (path == "/" && forall i :: 0 <= i < |url.path| ==> url.path[i] == '/')
      || (path <= url.path && path[|path| - 1] != '/' && forall i :: |path| <= i < |url.path| ==> url.path[i] == '/')
  {
    hide Sorted;
    hide Kept;
    SlashesDropped(url.path, n);
    TrimmedPath(url.path, IsSlash);
  }

  // ---- white space around the text -------------------------------------------------------------------

  ghost predicate Unbroken(s: string) {
    forall i :: 0 <= i < |s| ==> IsKept(s[i])
  }

  /** A text that trimming leaves alone. */
  ghost predicate Settled(s: string) {
    (s != "" ==> !IsControlOrSpace(s[0]) && !IsSpace(Last(s))) && Unbroken(s)
  }

  lemma SettledIsTrimmed(s: string)
    requires Settled(s)
    ensures Trimmed(s) == s
  {
    var _, _ := StripPart(s);
    assert s != "" ==> !IsSpace(s[0]);
    hide Strip;
    DropLeftPart(s, IsControlOrSpace);
    FilterAll(s, IsKept);
    if s == "" {
      assert Strip(s) == "";
      FilterAll("", IsKept);
    }
  }

  /** Trimming a text that is only wanting at its end. */
  lemma TrimmedAtEnd(s: string)
    requires s != "" && !IsControlOrSpace(s[0]) && Unbroken(s)
    ensures Trimmed(s) == DropRight(s, IsSpace)
  {
    assert !IsSpace(s[0]);
    DropLeftPart(s, IsSpace);
    TrimmedPath(s, IsSpace);
    var t := DropRight(s, IsSpace);
    assert Strip(s) == t;
    hide Strip;
    hide DropRight;
    assert t[0] == s[0];
    DropLeftPart(t, IsControlOrSpace);
    FilterAll(t, IsKept);
  }

  lemma {:induction false} DropRightKeeps(a: string, b: string, drop: char -> bool)
    requires b != "" && !drop(b[0])
    ensures DropRight(a + b, drop) == a + DropRight(b, drop)
  {
    if drop(Last(b)) {
      assert Init(a + b) == a + Init(b);
      DropRightKeeps(a, Init(b), drop);
    }
  }

  /** A path that ends in white space is another path without it. */
  lemma SpaceCounts(path: string)
    requires path != "" && path[0] == '/' && IsSpace(Last(path))
    ensures PathOf(path) == path && PathOf(DropRight(path, IsSpace)) != path
  {
    TrimmedPath(path, IsSpace);
    TrimmedPath(DropRight(path, IsSpace), IsSlash);
  }

  /** An address with a path and without line breaks. */
  ghost predicate Regular(scheme: string, netloc: string, path: string) {
    WellFormed(Url(scheme, netloc, path, "", "")) && path != "" && Unbroken(Address(scheme, netloc, path))
  }

  ghost predicate Plain(scheme: string, netloc: string, path: string, lib: Library) {
    Regular(scheme, netloc, path) && netloc != "" && lib.accepts(netloc)
  }

  lemma TrimmedAddress(scheme: string, netloc: string, path: string)
    requires Regular(scheme, netloc, path)
    ensures Trimmed(Address(scheme, netloc, path)) == Address(scheme, netloc, DropRight(path, IsSpace))
  {
    hide Trimmed;
    hide DropRight;
    HttpHasNoColon(scheme);
    hide IsHttp;
    var base, front := Address(scheme, netloc, path), scheme + ("://" + netloc);
    assert base == front + path && base[0] == scheme[0];
    TrimmedAtEnd(base);
    DropRightKeeps(front, path, IsSpace);
  }

  /** Without a tail the white space at its end is cut off. */
  lemma BareAddress(scheme: string, netloc: string, path: string)
    requires Regular(scheme, netloc, path)
    ensures Split(Trimmed(Address(scheme, netloc, path))) == Some(Url(scheme, netloc, DropRight(path, IsSpace), "", ""))
  {
    hide IsHttp;
    hide Trimmed;
    hide DropRight;
    TrimmedAddress(scheme, netloc, path);
    TrimmedPath(path, IsSpace);
    var path' := DropRight(path, IsSpace);
    assert path' != "" && path'[0] == '/';
    assert Address(scheme, netloc, path') + "" == Address(scheme, netloc, path');
    SplitExactly(scheme, netloc, path', "");
    CutExactly("", "", IsHash);
    hide Split;
    hide Address;
  }

  /** A settled tail keeps it. */
  lemma AddressWithTail(scheme: string, netloc: string, path: string, tail: string, lib: Library)
    requires Plain(scheme, netloc, path, lib) && tail != "" && IsTail(tail) && Settled(tail)
    ensures Split(Trimmed(Address(scheme, netloc, path) + tail))
      == Some(Url(scheme, netloc, path, TailQuery(tail), Behind(Cut(tail, IsHash).1)))
  {
    HttpHasNoColon(scheme);
    hide IsHttp;
    SettledIsTrimmed(Address(scheme, netloc, path) + tail);
    SplitExactly(scheme, netloc, path, tail);
    hide Split;
    hide Cut;
    hide Trimmed;
  }

  lemma NothingKept(lib: Library)
    ensures Kept("", lib) == []
  {
  }

  /** A fragment, and a query without identifying items, may be added to an address without
      changing its form if and only if the address does not end in white space: behind white space
      they keep strip from cutting it off. */
  lemma NoiseIsIgnored(scheme: string, netloc: string, path: string, tail: string, lib: Library)
    requires lib.Faithful() && Plain(scheme, netloc, path, lib)
    requires tail != "" && IsTail(tail) && Settled(tail) && Kept(TailQuery(tail), lib) == []
    ensures Canonical(Address(scheme, netloc, path) + tail, lib) == Canonical(Address(scheme, netloc, path), lib)
      <==> !IsSpace(Last(path))
  {
    BareAddress(scheme, netloc, path);
    AddressWithTail(scheme, netloc, path, tail, lib);
    NothingKept(lib);
    CanonicalDecides(Address(scheme, netloc, path) + tail, Address(scheme, netloc, path), lib);
    if IsSpace(Last(path)) {
      SpaceCounts(path);
    }
    hide Split;
    hide Trimmed;
    hide Spell;
    hide Address;
    hide Kept;
    hide PathOf;
    hide HostOf;
    hide Settled;
  }

  lemma ApplyTail()
    ensures IsTail("#apply") && Settled("#apply") && TailQuery("#apply") == ""
  {
    CutExactly("", "#apply", IsHash);
    assert "" + "#apply" == "#apply";
  }

  lemma UnbrokenAddress(scheme: string, netloc: string, path: string)
    requires Unbroken(scheme) && Unbroken(netloc) && Unbroken(path)
    ensures Unbroken(Address(scheme, netloc, path))
  {
  }

  lemma JobAddress(lib: Library)
    requires lib.accepts("example.com")
    ensures Plain("https", "example.com", "/jobs/42 ", lib) && IsSpace(Last("/jobs/42 "))
  {
    UnbrokenAddress("https", "example.com", "/jobs/42 ");
    hide Address;
    assert Lower("https") == "https";
    hide Lower;
    assert Last("/jobs/42 ") == ' ';
  }

  /** So the space before this fragment stays in the form. */
  lemma SpaceBeforeFragment(lib: Library)
    requires lib.Faithful() && lib.accepts("example.com")
    ensures Canonical(Address("https", "example.com", "/jobs/42 ") + "#apply", lib)
      != Canonical(Address("https", "example.com", "/jobs/42 "), lib)
  {
    hide Plain;
    hide TailQuery;
    hide Settled;
    hide Canonical;
    hide Address;
    ApplyTail();
    JobAddress(lib);
    NothingKept(lib);
    NoiseIsIgnored("https", "example.com", "/jobs/42 ", "#apply", lib);
  }

  /** At one address only the identifying items of the query count, in any order. */
  lemma QueryDecides(scheme: string, netloc: string, path: string, q: string, q': string, lib: Library)
    requires lib.Faithful() && Plain(scheme, netloc, path, lib) && Free(q, IsHash) && Free(q', IsHash)
    requires Settled("?" + q) && Settled("?" + q')
    ensures Canonical(Address(scheme, netloc, path) + ("?" + q), lib) == Canonical(Address(scheme, netloc, path) + ("?" + q'), lib)
      <==> SameItems(q, q', lib)
  {
    hide SameItems;
    QueryTail(q);
    QueryTail(q');
    AddressWithTail(scheme, netloc, path, "?" + q, lib);
    AddressWithTail(scheme, netloc, path, "?" + q', lib);
    hide Split;
    hide Trimmed;
    hide Kept;
    hide Spell;
    hide Address;
    hide Settled;
    hide PathOf;
    hide HostOf;
    hide Cut;
    CanonicalDecides(Address(scheme, netloc, path) + ("?" + q), Address(scheme, netloc, path) + ("?" + q'), lib);
  }

  /** So an item that does not identify may stand anywhere in it. */
  lemma NoiseInQuery(scheme: string, netloc: string, path: string, a: string, noise: string, b: string, lib: Library)
    requires lib.Faithful() && Plain(scheme, netloc, path, lib) && forall item: (string, string) :: item in Items(noise, lib) ==> IsTracking(item.0)
    requires Free(a, IsHash) && Free(noise, IsHash) && Free(b, IsHash)
    requires Settled("?" + (a + ("&" + b))) && Settled("?" + (a + ("&" + (noise + ("&" + b)))))
    ensures Canonical(Address(scheme, netloc, path) + ("?" + (a + ("&" + (noise + ("&" + b))))), lib)
      == Canonical(Address(scheme, netloc, path) + ("?" + (a + ("&" + b))), lib)
  {
    hide Items;
    hide IsTracking;
    hide Canonical;
    hide Address;
    hide Plain;
    NoiseCountsNothing(a, noise, b, lib);
    hide SameItems;
    assert Free(a + ("&" + b), IsHash) && Free(noise + ("&" + b), IsHash);
    assert Free(a + ("&" + (noise + ("&" + b))), IsHash);
    hide Settled;
    hide Free;
    QueryDecides(scheme, netloc, path, a + ("&" + (noise + ("&" + b))), a + ("&" + b), lib);
  }

  lemma QueryTail(query: string)
    requires Free(query, IsHash)
    ensures TailQuery("?" + query) == query
  {
    CutExactly("?" + query, "", IsHash);
    assert ("?" + query) + "" == "?" + query;
  }

  lemma NoiseCountsNothing(a: string, noise: string, b: string, lib: Library)
    requires forall item: (string, string) :: item in Items(noise, lib) ==> IsTracking(item.0)
    ensures SameItems(a + ("&" + (noise + ("&" + b))), a + ("&" + b), lib)
  {
    hide Items;
    hide IsTracking;
    ItemsJoin(a, b, lib);
    ItemsJoin(a, noise + ("&" + b), lib);
    ItemsJoin(noise, b, lib);
  }

  // ---- canonicalising twice ----------------------------------------------------------------------------

  predicate HasDefaultPort(host: string) { HasSuffix(host, ":443") || HasSuffix(host, ":80") }

  lemma HostTwice(netloc: string)
    ensures var host := HostOf(netloc); HostOf(host) == host <==> !HasPrefix(host, "www.") && !HasDefaultPort(host)
  {
    HostParts(netloc);
  }

  lemma PathTwice(path: string)
    ensures PathOf(PathOf(path)) == PathOf(path)
  {
    TrimmedPath(path, IsSlash);
    TrimmedPath(PathOf(path), IsSlash);
  }

  lemma KeptTwice(query: string, lib: Library)
    ensures Filter(Sorted(Kept(query, lib)), IsIdentifying()) == Sorted(Kept(query, lib))
  {
    FilterMembers(Items(query, lib), IsIdentifying());
    SortedItems(Kept(query, lib));
    FilterAll(Sorted(Kept(query, lib)), IsIdentifying());
  }

  lemma TrimmedIsUnbroken(text: string)
    ensures Unbroken(Trimmed(text))
  {
    var s := DropLeft(Strip(text), IsControlOrSpace);
    FilterMembers(s, IsKept);
    forall i | 0 <= i < |Trimmed(text)|
      ensures IsKept(Trimmed(text)[i])
    {
      assert Trimmed(text)[i] in Filter(s, IsKept);
    }
  }

  ghost predicate UnbrokenParts(url: Url) {
    Unbroken(url.scheme) && Unbroken(url.netloc) && Unbroken(url.path)
  }

  lemma UnbrokenPart(a: string, b: string)
    requires Unbroken(a + b)
    ensures Unbroken(a) && Unbroken(b)
  {
    assert forall i :: 0 <= i < |a| ==> a[i] == (a + b)[i];
    assert forall i :: 0 <= i < |b| ==> b[i] == (a + b)[|a| + i];
  }

  lemma SplitIsUnbroken(s: string)
    requires Unbroken(s) && Split(s).Some?
    ensures UnbrokenParts(Split(s).value)
  {
    var (scheme, rest) := Cut(s, IsColon);
    var (netloc, tail) := Cut(rest[3..], IsAuthorityEnd);
    var (front, fragment) := Cut(tail, IsHash);
    var (path, query) := Cut(front, IsQuestion);
    hide Cut;
    hide IsKept;
    UnbrokenPart(scheme, rest);
    assert rest == rest[..3] + rest[3..];
    UnbrokenPart(rest[..3], rest[3..]);
    UnbrokenPart(netloc, tail);
    UnbrokenPart(front, fragment);
    UnbrokenPart(path, query);
  }

  lemma LowerIsUnbroken(s: string)
    requires Unbroken(s)
    ensures Unbroken(Lower(s))
  {
    assert forall i :: 0 <= i < |s| ==> Lower(s)[i] == LowerChar(s[i]) && IsKept(s[i]);
  }

  lemma FormIsUnbroken(url: Url, lib: Library)
    requires UnbrokenParts(url)
    ensures var f := FormOf(url, lib); Unbroken(f.scheme) && Unbroken(f.host) && Unbroken(f.path)
  {
    LowerIsUnbroken(url.scheme);
    LowerIsUnbroken(url.netloc);
    TrimmedPath(url.path, IsSlash);
    HostParts(url.netloc);
    var host := HostOf(url.netloc);
    hide HostOf;
    hide Lower;
    hide Sorted;
    hide Kept;
    forall i | 0 <= i < |host|
      ensures IsKept(host[i])
    {
      assert host[i] in Lower(url.netloc);
    }
  }

  lemma SpellIsUnbroken(f: Form, lib: Library)
    requires lib.Faithful() && Unbroken(f.scheme) && Unbroken(f.host) && Unbroken(f.path)
    ensures Unbroken(Address(f.scheme, f.host, f.path)) && Unbroken(Spell(f, lib))
  {
    QueryHasNoHash(f.items, lib);
    hide SpellItems;
    var q := QueryOf(f.items, lib);
    assert forall i :: 0 <= i < |q| ==> IsKept(q[i]);
    hide QueryOf;
    assert forall i :: 0 <= i < |Address(f.scheme, f.host, f.path)| ==> IsKept(Address(f.scheme, f.host, f.path)[i]);
    hide Address;
    hide IsKept;
  }

  /** A form that canonicalising has already been through. */
  ghost predicate Reached(f: Form, lib: Library) {
    && GoodForm(f) && Unbroken(Address(f.scheme, f.host, f.path)) && Unbroken(Spell(f, lib))
    && PathOf(f.path) == f.path && Sorted(f.items) == f.items && Filter(f.items, IsIdentifying()) == f.items
  }

  lemma FormIsReached(text: string, lib: Library)
    requires lib.Faithful() && Split(Trimmed(text)).Some?
    ensures Reached(FormOf(Split(Trimmed(text)).value, lib), lib)
  {
    TrimmedIsUnbroken(text);
    hide Trimmed;
    var url := Split(Trimmed(text)).value;
    SplitIsWellFormed(Trimmed(text));
    SplitIsUnbroken(Trimmed(text));
    hide Split;
    FormIsGood(url, lib);
    FormIsUnbroken(url, lib);
    SpellIsUnbroken(FormOf(url, lib), lib);
    PathTwice(url.path);
    KeptTwice(url.query, lib);
    SortedTwice(Kept(url.query, lib));
    hide Spell;
    hide PathOf;
    hide HostOf;
    hide Sorted;
    hide GoodForm;
    hide Unbroken;
  }

  lemma SpellEnds(f: Form, lib: Library)
    requires f.scheme != "" && f.path != "" && (f.items != [] ==> SpellItems(f.items, lib) != "")
    ensures Spell(f, lib) != "" && Spell(f, lib)[0] == f.scheme[0]
    ensures Last(Spell(f, lib)) == if f.items != [] then Last(SpellItems(f.items, lib)) else Last(f.path)
  {
    hide SpellItems;
    if f.items == [] {
      assert Spell(f, lib) == Address(f.scheme, f.host, f.path);
    }
  }

  lemma SettledBetween(s: string)
    requires s != "" && IsAlpha(s[0]) && (IsQuoted(Last(s)) || !IsSpace(Last(s))) && Unbroken(s)
    ensures Trimmed(s) == s
  {
    SettledIsTrimmed(s);
  }

  lemma SpellBetween(f: Form, lib: Library)
    requires lib.Faithful() && GoodForm(f) && (f.items != [] || !IsSpace(Last(f.path)))
    ensures var s := Spell(f, lib); s != "" && IsAlpha(s[0]) && (IsQuoted(Last(s)) || !IsSpace(Last(s)))
  {
    HttpHasNoColon(f.scheme);
    ItemsBack(f.items, lib);
    SpellEnds(f, lib);
    hide Spell;
    hide SpellItems;
    hide Items;
    hide IsHttp;
    hide IsQuoted;
    hide IsAlpha;
    hide IsSpace;
  }

  /** With a query, or with no white space at its end, a spelled form is read as it stands. */
  lemma SettledAgain(f: Form, lib: Library)
    requires lib.Faithful() && Reached(f, lib) && (f.items != [] || !IsSpace(Last(f.path)))
    ensures Trimmed(Spell(f, lib)) == Spell(f, lib)
  {
    SpellBetween(f, lib);
    SettledBetween(Spell(f, lib));
    hide Spell;
    hide Trimmed;
    hide Sorted;
    hide PathOf;
    hide Unbroken;
  }

  lemma CanonicalAgain(f: Form, lib: Library)
    requires lib.Faithful() && Reached(f, lib) && (f.items != [] || !IsSpace(Last(f.path)))
    ensures Canonical(Spell(f, lib), lib) == Some(Spell(f, lib)) <==> f.host != "" && lib.accepts(f.host) && HostOf(f.host) == f.host
  {
    SettledAgain(f, lib);
    SpellBack(f, lib);
    hide Trimmed;
    hide Split;
    hide PathOf;
    hide Sorted;
    var url := Split(Spell(f, lib)).value;
    SplitIsWellFormed(Spell(f, lib));
    FormIsGood(url, lib);
    hide HostOf;
    hide GoodForm;
    if Spell(FormOf(url, lib), lib) == Spell(f, lib) {
      SpellIsInjective(FormOf(url, lib), f, lib);
    }
    hide Spell;
  }

  /** Otherwise the second pass cuts its white space off, and the form changes. */
  lemma CanonicalShrinks(f: Form, lib: Library)
    requires lib.Faithful() && Reached(f, lib) && f.items == [] && IsSpace(Last(f.path))
    ensures Canonical(Spell(f, lib), lib) != Some(Spell(f, lib))
  {
    assert Spell(f, lib) == Address(f.scheme, f.host, f.path);
    BareAddress(f.scheme, f.host, f.path);
    SpaceCounts(f.path);
    hide Trimmed;
    var s := Trimmed(Spell(f, lib));
    SplitIsWellFormed(s);
    var url := Split(s).value;
    FormIsGood(url, lib);
    hide Split;
    hide PathOf;
    hide Sorted;
    hide HostOf;
    hide GoodForm;
    if Spell(FormOf(url, lib), lib) == Spell(f, lib) {
      SpellIsInjective(FormOf(url, lib), f, lib);
    }
    hide Spell;
  }

  /** Canonicalising twice is canonicalising once, if and only if the stripped host can be read again
      (it is not empty, the library accepts it, and it neither starts with "www." nor ends in a
      default port, as after "www.www." or ":443:80"), and identifying items remain or the path does
      not end in white space. */
  lemma CanonicalTwice(text: string, lib: Library)
    requires lib.Faithful() && Canonical(text, lib).Some?
    ensures var f := FormOf(Split(Trimmed(text)).value, lib);
      && f.path != ""
      && (Canonical(Canonical(text, lib).value, lib) == Canonical(text, lib) <==>
          && f.host != "" && lib.accepts(f.host) && !HasPrefix(f.host, "www.") && !HasDefaultPort(f.host)
          && (f.items != [] || !IsSpace(Last(f.path))))
  {
    FormIsReached(text, lib);
    var f := FormOf(Split(Trimmed(text)).value, lib);
    HostTwice(Split(Trimmed(text)).value.netloc);
    hide Split;
    hide Trimmed;
    hide Sorted;
    hide Kept;
    hide HostOf;
    hide PathOf;
    hide HasDefaultPort;
    hide HasPrefix;
    hide Spell;
    if f.items != [] || !IsSpace(Last(f.path)) {
      CanonicalAgain(f, lib);
    } else {
      CanonicalShrinks(f, lib);
    }
  }

  /** The space before a fragment is such a case. */
  lemma SpaceIsCutLater(lib: Library)
    requires lib.Faithful() && lib.accepts("example.com")
    ensures var text := Address("https", "example.com", "/jobs/42 ") + "#apply";
      Canonical(text, lib).Some? && Canonical(Canonical(text, lib).value, lib) != Canonical(text, lib)
  {
    hide Plain;
    hide Settled;
    ApplyTail();
    JobAddress(lib);
    NothingKept(lib);
    AddressWithTail("https", "example.com", "/jobs/42 ", "#apply", lib);
    SpaceCounts("/jobs/42 ");
    var text := Address("https", "example.com", "/jobs/42 ") + "#apply";
    assert Sorted([]) == [];
    hide Split;
    hide Trimmed;
    hide Spell;
    hide Address;
    hide Kept;
    hide TailQuery;
    hide HostOf;
    CanonicalTwice(text, lib);
  }
}

/** The keys a job is matched on, and what equal keys mean. */
module Dedupe {
  import opened Prelude
  import opened Text
  import opened Schema
  import opened Words

  // ---- normalized keys --------------------------------------------------------------------------

  predicate IsKeyChar(c: char) { IsLower(c) || IsDigit(c) }

  /** Every run of other characters becomes one space. */
  function Squash(s: string): string {
    if s == "" then ""
    else if IsKeyChar(Last(s)) then Squash(Init(s)) + [Last(s)]
    else
      var front := Squash(Init(s));
      if front != "" && Last(front) == ' ' then front else front + " "
  }

  function NormalizeKey(value: string): string {
    Strip(Squash(Lower(value)))
  }

  /** Words of letters and digits, one space between two of them. */
  ghost predicate KeyShape(s: string) {
    && (forall i :: 0 <= i < |s| ==> IsKeyChar(s[i]) || s[i] == ' ')
    && (forall i :: 0 <= i < |s| - 1 ==> !(s[i] == ' ' && s[i + 1] == ' '))
    && (s != "" ==> s[0] != ' ' && Last(s) != ' ')
  }

  ghost predicate Squashed(s: string) {
    && (forall i :: 0 <= i < |s| ==> IsKeyChar(s[i]) || s[i] == ' ')
    && (forall i :: 0 <= i < |s| - 1 ==> !(s[i] == ' ' && s[i + 1] == ' '))
  }

  lemma {:induction false} SquashShape(s: string)
    ensures Squashed(Squash(s))
    ensures Squashed(s) ==> Squash(s) == s
  {
    if s != "" {
      SquashShape(Init(s));
      if Squashed(s) {
        assert Squashed(Init(s));
        assert s == Init(s) + [Last(s)];
      }
    }
  }

  /** A normalized key is always in the normal form, and the normal form is left alone. */
  lemma KeyIsNormalForm(s: string)
    ensures KeyShape(NormalizeKey(s))
    ensures KeyShape(s) ==> NormalizeKey(s) == s
  {
    SquashShape(Lower(s));
    var squashed := Squash(Lower(s));
    var i, j := StripPart(squashed);
    hide Strip;
    hide Squash;
    var key := NormalizeKey(s);
    assert key == squashed[i..j];
    if key != "" {
      assert key[0] == squashed[i] && Last(key) == squashed[j - 1];
    }
    forall k | 0 <= k < |key| - 1
      ensures !(key[k] == ' ' && key[k + 1] == ' ')
    {
      assert key[k] == squashed[i + k] && key[k + 1] == squashed[i + k + 1];
    }
    if KeyShape(s) {
      assert Lower(s) == s && Squashed(s);
      assert s != "" ==> IsKeyChar(s[0]) && IsKeyChar(Last(s));
    }
  }

  lemma {:induction false} SquashIsBy(s: string)
    ensures Squash(s) == SquashBy(s, IsKeyChar)
  {
    if s != "" {
      SquashIsBy(Init(s));
    }
  }

  /** A key is the words of a-z and 0-9 of the lower-cased text, one space between two of them. */
  lemma KeyOfWords(s: string)
    ensures NormalizeKey(s) == Spaced(WordsBy(Lower(s), IsKeyChar))
    ensures forall c :: IsKeyChar(c) <==> 'a' <= c <= 'z' || '0' <= c <= '9'
  {
    SquashIsBy(Lower(s));
    SquashStripped(Lower(s), IsKeyChar);
  }

  /** So two texts have one key exactly when they have those words in common: case, punctuation and white
      space do not count, and nothing else is lost. */
  lemma SameKey(a: string, b: string)
    ensures NormalizeKey(a) == NormalizeKey(b) <==> WordsBy(Lower(a), IsKeyChar) == WordsBy(Lower(b), IsKeyChar)
  {
    KeyOfWords(a);
    KeyOfWords(b);
    SameWords(Lower(a), Lower(b), IsKeyChar);
    hide NormalizeKey;
    hide WordsBy;
    hide Spaced;
  }

  lemma KeyHasNoBar(s: string)
    ensures NoBar(NormalizeKey(s))
  {
    KeyIsNormalForm(s);
  }

  // ---- joined fields ----------------------------------------------------------------------------

  ghost predicate NoBar(s: string) {
    forall i :: 0 <= i < |s| ==> s[i] != '|'
  }

  /** "|".join */
  function Join(fields: seq<string>): string {
    if fields == [] then "" else if |fields| == 1 then fields[0] else fields[0] + "|" + Join(fields[1..])
  }

  /** The first bar tells where the first of two fields ends. */
  lemma FirstFieldEnds(a: string, a': string, b: string, b': string)
    requires NoBar(a) && NoBar(b) && a + "|" + a' == b + "|" + b'
    ensures a == b && a' == b'
  {
    var x, y := a + "|" + a', b + "|" + b';
    assert x[|a|] == '|' && forall i :: 0 <= i < |a| ==> x[i] != '|';
    assert y[|b|] == '|' && forall i :: 0 <= i < |b| ==> y[i] != '|';
    assert |a| == |b|;
    assert a == x[..|a|] && b == y[..|b|];
    assert a' == x[|a| + 1..] && b' == y[|b| + 1..];
  }

  /** Joined fields can be told apart if no field but the last has a bar. */
  lemma {:induction false} JoinInjective(a: seq<string>, b: seq<string>)
    requires |a| == |b| && Join(a) == Join(b)
    requires forall i :: 0 <= i < |a| - 1 ==> NoBar(a[i]) && NoBar(b[i])
    ensures a == b
  {
    if |a| >= 2 {
      FirstFieldEnds(a[0], Join(a[1..]), b[0], Join(b[1..]));
      JoinInjective(a[1..], b[1..]);
      assert a == [a[0]] + a[1..] && b == [b[0]] + b[1..];
    }
  }

  // ---- the fourth level: the fingerprint ------------------------------------------------------------

  /** What the dedupe service is given. The outcome of the regular expressions that strip legal
      suffixes and title noise is given too. */
  datatype Posting = Posting(
    title: string, companyName: Option<string>, companyStripped: string, titleStripped: string,
    companyExternalId: Option<string>, countryCode: Option<string>, stateCode: Option<string>, city: Option<string>,
    description: Option<string>, salaryMin: Option<real>, salaryMax: Option<real>,
    remoteType: Option<string>, employmentType: Option<string>, canonicalUrl: Option<string>)

  /** SHA-256, the hexadecimal digest of a description, and the spelling of a salary. */
  datatype Digests = Digests(sha: string -> Hash, hexdigest: string -> string, spell: real -> string)

  ghost predicate Injective(sha: string -> Hash) {
    forall a, b :: sha(a) == sha(b) ==> a == b
  }

  function CompanyKey(p: Posting): string {
    var key := if p.companyName.GetOr("") == "" then "" else NormalizeKey(p.companyStripped);
    if key != "" then key else p.companyExternalId.GetOr("")
  }

  function TitleKey(p: Posting): string {
    if p.title == "" then ""
    else if NormalizeKey(p.titleStripped) != "" then NormalizeKey(p.titleStripped)
    else NormalizeKey(p.title)
  }

  const DIGEST_LIMIT := 4000

  function CollapseSpace(s: string): string {
    if s == "" then ""
    else if !IsSpace(Last(s)) then CollapseSpace(Init(s)) + [Last(s)]
    else
      var front := CollapseSpace(Init(s));
      if front != "" && Last(front) == ' ' then front else front + " "
  }

  function DigestText(text: Option<string>, d: Digests): string {
    if text.GetOr("") == "" then ""
    else
      var collapsed := Lower(Strip(CollapseSpace(text.value)));
      var hex := d.hexdigest(collapsed[..Min(|collapsed|, DIGEST_LIMIT)]);
      hex[..Min(|hex|, 32)]
  }

  /** A text in lower case, its words one space apart. */
  function Essence(text: string): string {
    Spaced(WordsBy(Lower(text), NotSpace()))
  }

  lemma {:induction false} CollapseIsBy(s: string)
    ensures CollapseSpace(s) == SquashBy(s, NotSpace())
  {
    if s != "" {
      CollapseIsBy(Init(s));
    }
  }

  lemma LowerJoin(a: string, b: string)
    ensures Lower(a + b) == Lower(a) + Lower(b)
  {
  }

  lemma LowerKeepsSpaces(c: char)
    ensures IsSpace(LowerChar(c)) <==> IsSpace(c)
    ensures LowerChar(' ') == ' '
  {
  }

  lemma {:induction false} LowerCollapse(s: string)
    ensures Lower(CollapseSpace(s)) == CollapseSpace(Lower(s))
  {
    if s != "" {
      var front := CollapseSpace(Init(s));
      LowerCollapse(Init(s));
      LowerKeepsSpaces(Last(s));
      assert Lower(s) == Lower(Init(s)) + [LowerChar(Last(s))];
      assert Init(Lower(s)) == Lower(Init(s)) && Last(Lower(s)) == LowerChar(Last(s));
      LowerJoin(front, [Last(s)]);
      LowerJoin(front, " ");
      assert Lower([Last(s)]) == [LowerChar(Last(s))] && Lower(" ") == " ";
      LowerSpaceEnd(front);
      hide Lower;
      hide LowerChar;
      hide IsSpace;
    }
  }

  lemma LowerSpaceEnd(s: string)
    ensures Lower(s) != "" && Last(Lower(s)) == ' ' <==> s != "" && Last(s) == ' '
  {
    assert s != "" ==> Last(Lower(s)) == LowerChar(Last(s));
  }

  lemma LowerStrip(s: string)
    ensures Lower(Strip(s)) == Strip(Lower(s))
  {
    var l, r := StripSplits(s, IsSpace);
    var c := Strip(s);
    LowerJoin(l + c, r);
    LowerJoin(l, c);
    LowerOfSpaces(l);
    LowerOfSpaces(r);
    if c != "" {
      LowerKeepsSpaces(c[0]);
      LowerKeepsSpaces(Last(c));
      assert Lower(c)[0] == LowerChar(c[0]) && Last(Lower(c)) == LowerChar(Last(c));
    }
    StripPadded(Lower(l), Lower(c), Lower(r), IsSpace);
  }

  lemma LowerOfSpaces(s: string)
    requires Spaces(s)
    ensures Spaces(Lower(s))
  {
    forall i | 0 <= i < |s|
      ensures IsSpace(Lower(s)[i])
    {
      LowerKeepsSpaces(s[i]);
    }
  }

  lemma EssenceIs(text: string)
    ensures Lower(Strip(CollapseSpace(text))) == Essence(text)
  {
    LowerStrip(CollapseSpace(text));
    LowerCollapse(text);
    CollapseIsBy(Lower(text));
    SquashStripped(Lower(text), NotSpace());
    hide Lower;
    hide Strip;
    hide CollapseSpace;
    hide WordsBy;
    hide Spaced;
    hide SquashBy;
  }

  function FirstOf(s: string, n: nat): string {
    if |s| <= n then s else s[..n]
  }

  /** No two texts have digests that agree in the 32 characters that are kept, and no digest is empty. */
  ghost predicate Telling(d: Digests) {
    && (forall a, b :: FirstOf(d.hexdigest(a), 32) == FirstOf(d.hexdigest(b), 32) ==> a == b)
    && forall a :: d.hexdigest(a) != ""
  }

  lemma FirstIsSlice(s: string, n: nat)
    ensures s[..Min(|s|, n)] == FirstOf(s, n)
  {
  }

  /** What the digest of a description is of: 32 characters for the first 4000 of its essence. */
  lemma DigestIsOf(text: Option<string>, d: Digests)
    ensures DigestText(text, d) ==
      if text.None? || text.value == "" then "" else FirstOf(d.hexdigest(FirstOf(Essence(text.value), 4000)), 32)
  {
    if text.Some? && text.value != "" {
      EssenceIs(text.value);
      FirstIsSlice(Essence(text.value), DIGEST_LIMIT);
      FirstIsSlice(d.hexdigest(FirstOf(Essence(text.value), DIGEST_LIMIT)), 32);
    }
    hide FirstOf;
    hide Essence;
    hide CollapseSpace;
    hide Strip;
    hide Lower;
  }

  /** Which descriptions share a digest: those with the same words, in any case and however spaced; and when
      the digests tell texts apart no others whose essence fits the limit, beyond it those that agree up to there. */
  lemma DigestExactly(a: string, b: string, d: Digests)
    requires a != "" && b != ""
    ensures WordsBy(Lower(a), NotSpace()) == WordsBy(Lower(b), NotSpace()) ==> DigestText(Some(a), d) == DigestText(Some(b), d)
    ensures Telling(d) ==>
      && (DigestText(Some(a), d) == DigestText(Some(b), d) <==> FirstOf(Essence(a), 4000) == FirstOf(Essence(b), 4000))
      && (|Essence(a)| <= 4000 && |Essence(b)| <= 4000 ==>
            (DigestText(Some(a), d) == DigestText(Some(b), d) <==> WordsBy(Lower(a), NotSpace()) == WordsBy(Lower(b), NotSpace())))
      && DigestText(Some(a), d) != "" == DigestText(None, d) == DigestText(Some(""), d)
  {
    DigestIsOf(Some(a), d);
    DigestIsOf(Some(b), d);
    SameWords(Lower(a), Lower(b), NotSpace());
    hide WordsBy;
    hide Spaced;
    hide Lower;
    hide CollapseSpace;
    hide Strip;
  }

  /** The employer: the words of its name without legal suffixes, or its id where there are none. */
  lemma CompanyKeyIs(p: Posting)
    ensures var words := WordsBy(Lower(p.companyStripped), IsKeyChar);
      CompanyKey(p) ==
        if p.companyName.Some? && p.companyName.value != "" && words != [] then Spaced(words)
        else if p.companyExternalId.Some? then p.companyExternalId.value else ""
  {
    KeyOfWords(p.companyStripped);
    NoWordsNoKey(p.companyStripped);
    hide WordsBy;
    hide Spaced;
    hide NormalizeKey;
  }

  /** The title: its words without noise, or all its words where only noise is left. */
  lemma TitleKeyIs(p: Posting)
    ensures var words := WordsBy(Lower(p.titleStripped), IsKeyChar);
      TitleKey(p) == if p.title == "" then "" else Spaced(if words != [] then words else WordsBy(Lower(p.title), IsKeyChar))
  {
    KeyOfWords(p.titleStripped);
    KeyOfWords(p.title);
    NoWordsNoKey(p.titleStripped);
    hide WordsBy;
    hide Spaced;
    hide NormalizeKey;
  }

  lemma NoWordsNoKey(s: string)
    ensures NormalizeKey(s) == "" <==> WordsBy(Lower(s), IsKeyChar) == []
  {
    KeyOfWords(s);
    WordsAreWords(Lower(s), IsKeyChar);
    hide NormalizeKey;
    hide WordsBy;
    if WordsBy(Lower(s), IsKeyChar) != [] {
      SpacedEnds(WordsBy(Lower(s), IsKeyChar), IsKeyChar);
    }
  }

  /** What the fingerprint is computed from. */
  datatype Substance = Substance(company: string, title: string, country: string, state: string, city: string, digest: string)

  function SubstanceOf(p: Posting, d: Digests): Substance {
    Substance(CompanyKey(p), TitleKey(p), p.countryCode.GetOr(""), p.stateCode.GetOr(""),
              NormalizeKey(p.city.GetOr("")), DigestText(p.description, d))
  }

  function Fields(s: Substance): seq<string> {
    [s.company, s.title, s.country, s.state, s.city, s.digest]
  }

  function Fingerprint(p: Posting, d: Digests): Hash {
    d.sha(Join(Fields(SubstanceOf(p, d))))
  }

  /** The fields no normalizer has cleaned. */
  ghost predicate CleanCodes(p: Posting) {
    NoBar(p.countryCode.GetOr("")) && NoBar(p.stateCode.GetOr("")) && NoBar(p.companyExternalId.GetOr(""))
  }

  lemma SubstanceHasNoBar(p: Posting, d: Digests)
    requires CleanCodes(p)
    ensures forall i :: 0 <= i < 5 ==> NoBar(Fields(SubstanceOf(p, d))[i])
  {
    hide NormalizeKey;
    KeyHasNoBar(p.companyStripped);
    KeyHasNoBar(p.titleStripped);
    KeyHasNoBar(p.title);
    KeyHasNoBar(p.city.GetOr(""));
  }

  /** Fingerprints are equal if and only if the postings are alike in all six. */
  lemma FingerprintMeaning(p: Posting, q: Posting, d: Digests)
    requires Injective(d.sha) && CleanCodes(p) && CleanCodes(q)
    ensures Fingerprint(p, d) == Fingerprint(q, d) <==>
      && CompanyKey(p) == CompanyKey(q) && TitleKey(p) == TitleKey(q)
      && p.countryCode.GetOr("") == q.countryCode.GetOr("") && p.stateCode.GetOr("") == q.stateCode.GetOr("")
      && NormalizeKey(p.city.GetOr("")) == NormalizeKey(q.city.GetOr(""))
      && DigestText(p.description, d) == DigestText(q.description, d)
  {
    var a, b := Fields(SubstanceOf(p, d)), Fields(SubstanceOf(q, d));
    if Fingerprint(p, d) == Fingerprint(q, d) {
      SubstanceHasNoBar(p, d);
      SubstanceHasNoBar(q, d);
      assert Join(a) == Join(b);
      JoinInjective(a, b);
      assert a[0] == b[0] && a[1] == b[1] && a[2] == b[2] && a[3] == b[3] && a[4] == b[4] && a[5] == b[5];
    }
    hide CompanyKey;
    hide TitleKey;
    hide NormalizeKey;
    hide DigestText;
    hide Join;
    hide NoBar;
  }

  // ---- the content hash ----------------------------------------------------------------------------

  function SalaryText(v: Option<real>, d: Digests): string {
    if v.None? || v.value == 0.0 then "" else d.spell(v.value)
  }

  /** What the content hash is computed from; the status and every date are not among it. */
  function ContentOf(p: Posting, d: Digests): seq<string> {
    [Strip(p.title), CompanyKey(p), p.countryCode.GetOr(""), p.stateCode.GetOr(""), Strip(p.city.GetOr("")),
     SalaryText(p.salaryMin, d), SalaryText(p.salaryMax, d), p.remoteType.GetOr(""), p.employmentType.GetOr(""),
     p.canonicalUrl.GetOr(""), DigestText(p.description, d)]
  }

  function ContentHash(p: Posting, d: Digests): Hash {
    d.sha(Join(ContentOf(p, d)))
  }
}

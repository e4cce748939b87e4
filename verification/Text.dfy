/** The string operations the services use, on ASCII text: other characters are kept as they are
    and count as neither letters, digits nor spaces. Where the code asks more of them, `Unicode`
    answers. */
module Text {
  import opened Prelude

  predicate IsSpace(c: char) { c == ' ' || '\t' <= c <= '\r' || '\U{1c}' <= c <= '\U{1f}' }

  predicate IsUpper(c: char) { 'A' <= c <= 'Z' }

  predicate IsLower(c: char) { 'a' <= c <= 'z' }

  predicate IsAlpha(c: char) { IsUpper(c) || IsLower(c) }

  predicate IsDigit(c: char) { '0' <= c <= '9' }

  function LowerChar(c: char): char {
    if IsUpper(c) then c + ('a' - 'A') else c
  }

  function UpperChar(c: char): char {
    if IsLower(c) then c - ('a' - 'A') else c
  }

  function Lower(s: string): (r: string)
    ensures |r| == |s| && forall i :: 0 <= i < |s| ==> r[i] == LowerChar(s[i]) && !IsUpper(r[i])
  {
    seq(|s|, i requires 0 <= i < |s| => LowerChar(s[i]))
  }

  function Upper(s: string): (r: string)
    ensures |r| == |s| && forall i :: 0 <= i < |s| ==> r[i] == UpperChar(s[i]) && !IsLower(r[i])
  {
    seq(|s|, i requires 0 <= i < |s| => UpperChar(s[i]))
  }

  function DropLeft(s: string, drop: char -> bool): string {
    if s != [] && drop(s[0]) then DropLeft(s[1..], drop) else s
  }

  function DropRight(s: string, drop: char -> bool): string {
    if s != [] && drop(Last(s)) then DropRight(Init(s), drop) else s
  }

  function StripBy(s: string, drop: char -> bool): string {
    DropRight(DropLeft(s, drop), drop)
  }

  function Strip(s: string): string {
    StripBy(s, IsSpace)
  }

  predicate HasPrefix(s: string, p: string) { p <= s }

  predicate HasSuffix(s: string, p: string) { |p| <= |s| && s[|s| - |p|..] == p }

  function RemoveSuffix(s: string, p: string): string {
    if HasSuffix(s, p) then s[..|s| - |p|] else s
  }

  predicate IsAscii(s: string) {
    forall i :: 0 <= i < |s| ==> s[i] < '\U{80}'
  }

  /** What the interpreter's own tables make of text: strip, upper, and isalpha of one character. */
  datatype Unicode = Unicode(strip: string -> string, upper: string -> string, isLetter: char -> bool) {
    /** isalpha of a text. */
    predicate AllLetters(s: string) {
      s != "" && forall i :: 0 <= i < |s| ==> isLetter(s[i])
    }

    /** On ASCII they say what the functions above say. */
    ghost predicate Standard() {
      && (forall c: char :: c < '\U{80}' ==> (isLetter(c) <==> IsAlpha(c)))
      && forall s: string :: IsAscii(s) ==> strip(s) == Strip(s) && upper(s) == Upper(s)
    }
  }

  lemma {:induction false} DropLeftPart(s: string, drop: char -> bool)
    ensures |DropLeft(s, drop)| <= |s| && DropLeft(s, drop) == s[|s| - |DropLeft(s, drop)|..]
    ensures DropLeft(s, drop) != "" ==> !drop(DropLeft(s, drop)[0])
    ensures s != "" && !drop(s[0]) ==> DropLeft(s, drop) == s
  {
    if s != "" && drop(s[0]) {
      DropLeftPart(s[1..], drop);
    }
  }

  lemma {:induction false} DropRightPart(s: string, drop: char -> bool)
    ensures |DropRight(s, drop)| <= |s| && DropRight(s, drop) == s[..|DropRight(s, drop)|]
    ensures DropRight(s, drop) != "" ==> !drop(Last(DropRight(s, drop)))
    ensures s != "" && !drop(Last(s)) ==> DropRight(s, drop) == s
  {
    if s != "" && drop(Last(s)) {
      DropRightPart(Init(s), drop);
    }
  }

  /** Strip cuts out a part that neither begins nor ends with a space. */
  lemma StripPart(s: string) returns (i: nat, j: nat)
    ensures i <= j <= |s| && Strip(s) == s[i..j]
    ensures Strip(s) != "" ==> !IsSpace(s[i]) && !IsSpace(s[j - 1])
    ensures s != "" && !IsSpace(s[0]) && !IsSpace(Last(s)) ==> Strip(s) == s
  {
    var left := DropLeft(s, IsSpace);
    DropLeftPart(s, IsSpace);
    DropRightPart(left, IsSpace);
    i := |s| - |left|;
    j := i + |DropRight(left, IsSpace)|;
    assert s[i..j] == left[..j - i];
    hide IsSpace;
  }

  predicate All(s: string, p: char -> bool) {
    forall i :: 0 <= i < |s| ==> p(s[i])
  }

  predicate Spaces(s: string) {
    All(s, IsSpace)
  }

  lemma {:induction false} DropLeftOf(l: string, s: string, drop: char -> bool)
    requires All(l, drop)
    ensures DropLeft(l + s, drop) == DropLeft(s, drop)
  {
    if l == "" {
      assert l + s == s;
    } else {
      assert (l + s)[1..] == l[1..] + s;
      DropLeftOf(l[1..], s, drop);
    }
  }

  lemma {:induction false} DropRightOf(s: string, r: string, drop: char -> bool)
    requires All(r, drop)
    ensures DropRight(s + r, drop) == DropRight(s, drop)
  {
    if r == "" {
      assert s + r == s;
    } else {
      assert Init(s + r) == s + Init(r);
      DropRightOf(s, Init(r), drop);
    }
  }

  /** Stripping cuts off what may be dropped, and no more. */
  lemma StripPadded(l: string, s: string, r: string, drop: char -> bool)
    requires All(l, drop) && All(r, drop) && (s != "" ==> !drop(s[0]) && !drop(Last(s)))
    ensures StripBy(l + s + r, drop) == s
  {
    assert l + s + r == l + (s + r);
    DropLeftOf(l, s + r, drop);
    if s == "" {
      assert s + r == r && r + "" == r;
      DropLeftOf(r, "", drop);
    } else {
      DropLeftPart(s + r, drop);
      DropRightOf(s, r, drop);
      DropRightPart(s, drop);
    }
  }

  lemma {:induction false} DropLeftSplits(s: string, drop: char -> bool) returns (l: string)
    ensures s == l + DropLeft(s, drop) && All(l, drop)
  {
    if s != "" && drop(s[0]) {
      var rest := DropLeftSplits(s[1..], drop);
      l := [s[0]] + rest;
    } else {
      l := "";
    }
  }

  lemma {:induction false} DropRightSplits(s: string, drop: char -> bool) returns (r: string)
    ensures s == DropRight(s, drop) + r && All(r, drop)
  {
    if s != "" && drop(Last(s)) {
      var rest := DropRightSplits(Init(s), drop);
      r := rest + [Last(s)];
    } else {
      r := "";
    }
  }

  lemma StripSplits(s: string, drop: char -> bool) returns (l: string, r: string)
    ensures s == l + StripBy(s, drop) + r && All(l, drop) && All(r, drop)
    ensures var c := StripBy(s, drop); c != "" ==> !drop(c[0]) && !drop(Last(c))
  {
    l := DropLeftSplits(s, drop);
    var mid := DropLeft(s, drop);
    r := DropRightSplits(mid, drop);
    DropLeftPart(s, drop);
    DropRightPart(mid, drop);
    assert s == l + (StripBy(s, drop) + r);
  }
}

/** The words of a text, and what squashing everything between them leaves. */
module Words {
  import opened Prelude
  import opened Text

  predicate NoneOf(s: string, p: char -> bool) {
    forall i :: 0 <= i < |s| ==> !p(s[i])
  }

  /** What white space separates. */
  function NotSpace(): char -> bool {
    (c: char) => !IsSpace(c)
  }

  /** The last word, one character longer. */
  function Grow(words: seq<string>, c: char): seq<string>
    requires words != []
  {
    Init(words) + [Last(words) + [c]]
  }

  /** The words of `s`, and then one more character. */
  function Added(s: string, words: seq<string>, c: char, p: char -> bool): seq<string>
    requires s != "" && p(Last(s)) ==> words != []
  {
    if !p(c) then words else if s != "" && p(Last(s)) then Grow(words, c) else words + [[c]]
  }

  /** The longest runs of word characters, in order. */
  function WordsBy(s: string, p: char -> bool): (words: seq<string>)
    ensures words == [] <==> NoneOf(s, p)
  {
    if s == "" then [] else Added(Init(s), WordsBy(Init(s), p), Last(s), p)
  }

  /** One space between two words. */
  function Spaced(words: seq<string>): string {
    if words == [] then "" else if |words| == 1 then words[0] else Spaced(Init(words)) + " " + Last(words)
  }

  /** Every run of other characters becomes one space. */
  function SquashBy(s: string, p: char -> bool): string {
    if s == "" then ""
    else if p(Last(s)) then SquashBy(Init(s), p) + [Last(s)]
    else
      var front := SquashBy(Init(s), p);
      if front != "" && Last(front) == ' ' then front else front + " "
  }

  // ---- what the words are --------------------------------------------------------------------------

  /** A word is its own word. */
  lemma {:induction false} WordAlone(w: string, p: char -> bool)
    requires w != "" && All(w, p)
    ensures WordsBy(w, p) == [w]
  {
    if |w| >= 2 {
      WordAlone(Init(w), p);
      assert Init(w) + [Last(w)] == w;
    } else {
      assert WordsBy(Init(w), p) == [] && [Last(w)] == w;
    }
  }

  lemma GrowJoin(a: seq<string>, b: seq<string>, c: char)
    requires b != []
    ensures a + b != [] && Grow(a + b, c) == a + Grow(b, c)
  {
    assert Init(a + b) == a + Init(b);
  }

  lemma WordsLast(s: string, p: char -> bool)
    requires s != ""
    ensures Init(s) != "" && p(Last(Init(s))) ==> WordsBy(Init(s), p) != []
    ensures WordsBy(s, p) == Added(Init(s), WordsBy(Init(s), p), Last(s), p)
  {
  }

  lemma WordsNext(s: string, c: char, p: char -> bool)
    ensures s != "" && p(Last(s)) ==> WordsBy(s, p) != []
    ensures WordsBy(s + [c], p) == Added(s, WordsBy(s, p), c, p)
  {
    hide WordsBy;
    hide Added;
    assert Init(s + [c]) == s && Last(s + [c]) == c;
    WordsLast(s + [c], p);
  }

  /** Words are apart when something else stands between them. */
  lemma {:induction false} WordsApart(a: string, x: string, b: string, p: char -> bool)
    requires x != "" && NoneOf(x, p)
    ensures WordsBy(a + x + b, p) == WordsBy(a, p) + WordsBy(b, p)
    decreases |b|
  {
    if b == "" {
      WordsEnd(a, x, p);
      assert a + x + b == a + x;
    } else {
      var front := a + x + Init(b);
      assert a + x + b == front + [Last(b)] && b == Init(b) + [Last(b)];
      assert Last(front) == if Init(b) == "" then Last(x) else Last(Init(b));
      WordsApart(a, x, Init(b), p);
      WordsNext(front, Last(b), p);
      WordsNext(Init(b), Last(b), p);
      hide WordsBy;
      hide NoneOf;
      if Init(b) != "" && p(Last(Init(b))) {
        GrowJoin(WordsBy(a, p), WordsBy(Init(b), p), Last(b));
      }
      hide Grow;
    }
  }

  lemma {:induction false} WordsEnd(a: string, x: string, p: char -> bool)
    requires NoneOf(x, p)
    ensures WordsBy(a + x, p) == WordsBy(a, p)
  {
    if x == "" {
      assert a + x == a;
    } else {
      assert a + x == (a + Init(x)) + [Last(x)];
      WordsEnd(a, Init(x), p);
      WordsNext(a + Init(x), Last(x), p);
      hide WordsBy;
    }
  }

  /** What WordsBy gives are words. */
  ghost predicate AreWords(words: seq<string>, p: char -> bool) {
    forall i :: 0 <= i < |words| ==> words[i] != "" && All(words[i], p)
  }

  lemma AddedAreWords(s: string, words: seq<string>, c: char, p: char -> bool)
    requires AreWords(words, p) && (s != "" && p(Last(s)) ==> words != [])
    ensures AreWords(Added(s, words, c, p), p)
  {
  }

  lemma {:induction false} WordsAreWords(s: string, p: char -> bool)
    ensures AreWords(WordsBy(s, p), p)
  {
    if s != "" {
      WordsAreWords(Init(s), p);
      WordsLast(s, p);
      AddedAreWords(Init(s), WordsBy(Init(s), p), Last(s), p);
      hide WordsBy;
    }
  }

  lemma SpacedNext(words: seq<string>, w: string)
    requires words != []
    ensures Spaced(words + [w]) == Spaced(words) + " " + w
  {
    assert Init(words + [w]) == words;
  }

  lemma SnocBack<T>(s: seq<T>)
    requires s != []
    ensures Init(s) + [Last(s)] == s
  {
  }

  lemma OneMoreWord(words: seq<string>, w: string, p: char -> bool)
    requires words != [] && !p(' ') && WordsBy(Spaced(words), p) == words && w != "" && All(w, p)
    ensures WordsBy(Spaced(words + [w]), p) == words + [w]
  {
    WordAlone(w, p);
    WordsApart(Spaced(words), " ", w, p);
    SpacedNext(words, w);
    hide WordsBy;
    hide Spaced;
    hide All;
  }

  /** Words that are joined come apart again. */
  lemma {:induction false} WordsOfSpaced(words: seq<string>, p: char -> bool)
    requires !p(' ') && AreWords(words, p)
    ensures WordsBy(Spaced(words), p) == words
  {
    hide WordsBy;
    if words == [] {
      NoWords(p);
    } else if |words| == 1 {
      WordAlone(words[0], p);
    } else {
      WordsOfSpaced(Init(words), p);
      OneMoreWord(Init(words), Last(words), p);
      SnocBack(words);
      hide Spaced;
    }
  }

  lemma NoWords(p: char -> bool)
    ensures WordsBy("", p) == []
  {
  }

  // ---- squashing --------------------------------------------------------------------------------------

  /** The words, joined, with a space at an end where no word stands. */
  function Edged(s: string, words: seq<string>, p: char -> bool): string
    requires s != ""
  {
    (if p(s[0]) then "" else " ") + Spaced(words) + (if p(Last(s)) || words == [] then "" else " ")
  }

  lemma SpacedGrows(words: seq<string>, c: char)
    requires words != []
    ensures Spaced(Grow(words, c)) == Spaced(words) + [c]
  {
    if |words| > 1 {
      SpacedNext(Init(words), Last(words));
      SpacedNext(Init(words), Last(words) + [c]);
      assert Init(words) + [Last(words)] == words;
      hide Spaced;
    }
  }

  lemma SquashLast(s: string, c: char, p: char -> bool)
    ensures SquashBy(s + [c], p) ==
      if p(c) then SquashBy(s, p) + [c]
      else if SquashBy(s, p) != "" && Last(SquashBy(s, p)) == ' ' then SquashBy(s, p) else SquashBy(s, p) + " "
  {
    assert Init(s + [c]) == s;
  }

  /** The squashed text ends like the text. */
  lemma SquashEnd(s: string, p: char -> bool)
    requires s != "" && !p(' ')
    ensures SquashBy(s, p) != "" && Last(SquashBy(s, p)) == if p(Last(s)) then Last(s) else ' '
  {
  }

  lemma Glue(lead: string, middle: string, trail: string, end: string)
    ensures lead + middle + trail + end == lead + (middle + trail + end)
    ensures lead + middle + "" == lead + middle
  {
  }

  /** One more word character: the words with their last space, and the character. */
  lemma SpacedAdded(s: string, c: char, p: char -> bool)
    requires s != "" && p(c) && !p(' ')
    ensures Spaced(WordsBy(s + [c], p)) == Spaced(WordsBy(s, p)) + (if p(Last(s)) || WordsBy(s, p) == [] then "" else " ") + [c]
  {
    var words := WordsBy(s, p);
    WordsNext(s, c, p);
    assert p(Last(s)) ==> words != [];
    hide WordsBy;
    if words == [] {
      assert Spaced([[c]]) == [c];
    } else if p(Last(s)) {
      SpacedGrows(words, c);
    } else {
      SpacedNext(words, [c]);
    }
    hide Spaced;
    hide Grow;
  }

  lemma SquashNext(s: string, c: char, p: char -> bool)
    requires s != "" && !p(' ') && SquashBy(s, p) == Edged(s, WordsBy(s, p), p)
    ensures SquashBy(s + [c], p) == Edged(s + [c], WordsBy(s + [c], p), p)
  {
    var words, lead := WordsBy(s, p), if p(s[0]) then "" else " ";
    var trail := if p(Last(s)) || words == [] then "" else " ";
    SquashLast(s, c, p);
    SquashEnd(s, p);
    assert (s + [c])[0] == s[0] && Last(s + [c]) == c;
    Glue(lead, Spaced(words), trail, [c]);
    if p(c) {
      SpacedAdded(s, c, p);
      Glue(lead, Spaced(WordsBy(s + [c], p)), "", "");
    } else {
      WordsNext(s, c, p);
      NothingBetween(s, p);
      Glue(lead, Spaced(words), "", " ");
    }
    hide SquashBy;
    hide WordsBy;
    hide Spaced;
    hide NoneOf;
  }

  lemma NothingBetween(s: string, p: char -> bool)
    requires s != ""
    ensures WordsBy(s, p) == [] ==> !p(s[0]) && !p(Last(s)) && Spaced(WordsBy(s, p)) == ""
  {
  }

  lemma {:induction false} SquashEdges(s: string, p: char -> bool)
    requires s != "" && !p(' ')
    ensures SquashBy(s, p) == Edged(s, WordsBy(s, p), p)
  {
    var c, front := Last(s), Init(s);
    if front != "" {
      SquashEdges(front, p);
      SquashNext(front, c, p);
      assert front + [c] == s;
    }
  }

  lemma {:induction false} SpacedEnds(words: seq<string>, p: char -> bool)
    requires AreWords(words, p) && words != []
    ensures Spaced(words) != "" && Spaced(words)[0] == words[0][0] && Last(Spaced(words)) == Last(Last(words))
    ensures p(Spaced(words)[0]) && p(Last(Spaced(words)))
  {
    assert Last(words) != "" && p(Last(Last(words)));
    if |words| > 1 {
      SpacedEnds(Init(words), p);
    }
  }

  /** Squashed and stripped, a text is its words with one space between them. */
  lemma SquashStripped(s: string, p: char -> bool)
    requires forall c :: p(c) ==> !IsSpace(c)
    ensures Strip(SquashBy(s, p)) == Spaced(WordsBy(s, p))
  {
    if s == "" {
      StripPadded("", "", "", IsSpace);
      assert "" + "" + "" == "";
    } else {
      var words := WordsBy(s, p);
      SquashEdges(s, p);
      WordsAreWords(s, p);
      if words != [] {
        SpacedEnds(words, p);
      }
      StripPadded(if p(s[0]) then "" else " ", Spaced(words), if p(Last(s)) || words == [] then "" else " ", IsSpace);
    }
    hide StripBy;
    hide WordsBy;
    hide SquashBy;
    hide Spaced;
  }

  lemma SameWords(a: string, b: string, p: char -> bool)
    requires !p(' ')
    ensures Spaced(WordsBy(a, p)) == Spaced(WordsBy(b, p)) <==> WordsBy(a, p) == WordsBy(b, p)
  {
    WordsAreWords(a, p);
    WordsAreWords(b, p);
    WordsOfSpaced(WordsBy(a, p), p);
    WordsOfSpaced(WordsBy(b, p), p);
  }
}

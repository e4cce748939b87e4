/** The opaque page token: a position as JSON text, in unpadded URL-safe base64. */
module Cursors {
  import opened Prelude
  import opened Text
  import Base64

  /** A float is carried as the text Python's repr gives it. */
  datatype Value = Null | Int(n: int) | Str(s: string) | Float(repr: string)

  datatype Cursor = Cursor(value: Value, id: nat, sort: string)

  // ---- JSON strings -------------------------------------------------------------------------

  function HexChar(d: nat): char
    requires d < 16
  {
    if d < 10 then '0' + d as char else 'a' + (d - 10) as char
  }

  function HexOf(c: char): Option<nat> {
    if IsDigit(c) then Some((c - '0') as nat)
    else if 'a' <= c <= 'f' then Some((c - 'a') as nat + 10)
    else if 'A' <= c <= 'F' then Some((c - 'A') as nat + 10)
    else None
  }

  function Hex4(n: nat): string
    requires n < 0x10000
  {
    ['\\', 'u', HexChar(n / 4096), HexChar(n / 256 % 16), HexChar(n / 16 % 16), HexChar(n % 16)]
  }

  /** A \u escape at the start of the text: its code unit. */
  function Unit(s: string): Option<nat> {
    if |s| < 6 || s[0] != '\\' || s[1] != 'u' then None
    else
      var a, b, c, d := HexOf(s[2]), HexOf(s[3]), HexOf(s[4]), HexOf(s[5]);
      if a.None? || b.None? || c.None? || d.None? then None
      else Some(a.value * 4096 + b.value * 256 + c.value * 16 + d.value)
  }

  predicate IsPlain(c: char) { ' ' <= c <= '~' && c != '"' && c != '\\' }

  /** The letter of a two-character escape. */
  function ShortEscape(c: char): Option<char> {
    if c == '"' || c == '\\' then Some(c)
    else if c == '\n' then Some('n') else if c == '\r' then Some('r') else if c == '\t' then Some('t')
    else if c == '\U{c}' then Some('f') else if c == '\U{8}' then Some('b') else None
  }

  function ShortMeaning(c: char): Option<char> {
    if c == '"' || c == '\\' || c == '/' then Some(c)
    else if c == 'n' then Some('\n') else if c == 'r' then Some('\r') else if c == 't' then Some('\t')
    else if c == 'f' then Some('\U{c}') else if c == 'b' then Some('\U{8}') else None
  }

  /** ensure_ascii: whatever is not printable ASCII is escaped, beyond the first plane as a
      surrogate pair. */
  function Escape(c: char): string {
    if IsPlain(c) then [c]
    else if ShortEscape(c).Some? then ['\\', ShortEscape(c).value]
    else if c as nat < 0x10000 then Hex4(c as nat)
    else Hex4(0xD800 + (c as nat - 0x10000) / 1024) + Hex4(0xDC00 + (c as nat - 0x10000) % 1024)
  }

  function EscapeAll(s: string): string {
    if s == "" then "" else Escape(s[0]) + EscapeAll(s[1..])
  }

  /** The first character a JSON string's inside stands for, and how much text it takes. */
  function Unescape(s: string): Option<(char, nat)>
    ensures Unescape(s).Some? ==> 1 <= Unescape(s).value.1 <= |s|
  {
    if s == "" || s[0] == '"' || s[0] < ' ' then None
    else if s[0] != '\\' then Some((s[0], 1))
    else if |s| < 2 then None
    else if s[1] != 'u' then if ShortMeaning(s[1]).None? then None else Some((ShortMeaning(s[1]).value, 2))
    else
      var unit := Unit(s);
      if unit.None? then None
      else if !(0xD800 <= unit.value < 0xE000) then Some((unit.value as char, 6))
      else
        var low := Unit(s[6..]);
        if unit.value < 0xDC00 && low.Some? && 0xDC00 <= low.value < 0xE000
        then Some(((0x10000 + (unit.value - 0xD800) * 1024 + (low.value - 0xDC00)) as char, 12))
        else None
  }

  /** The inside of a JSON string up to its closing quote, and the text after that. */
  function ParseString(s: string): Option<(string, string)> {
    if s != "" && s[0] == '"' then Some(("", s[1..]))
    else
      var first := Unescape(s);
      if first.None? then None
      else
        var rest := ParseString(s[first.value.1..]);
        if rest.None? then None else Some(([first.value.0] + rest.value.0, rest.value.1))
  }

  lemma NibblesJoin(n: nat)
    requires n < 0x10000
    ensures n / 4096 * 4096 + n / 256 % 16 * 256 + n / 16 % 16 * 16 + n % 16 == n
  {
    assert n / 256 / 16 == n / 4096;
    assert n / 16 / 16 == n / 256;
    assert n / 16 * 16 + n % 16 == n;
  }

  lemma HexCharRoundTrip(d: nat)
    requires d < 16
    ensures HexOf(HexChar(d)) == Some(d)
  {
  }

  lemma HexRoundTrip(n: nat, rest: string)
    requires n < 0x10000
    ensures Unit(Hex4(n) + rest) == Some(n)
  {
    hide HexChar;
    hide HexOf;
    HexCharRoundTrip(n / 4096);
    HexCharRoundTrip(n / 256 % 16);
    HexCharRoundTrip(n / 16 % 16);
    HexCharRoundTrip(n % 16);
    NibblesJoin(n);
  }

  lemma EscapeRoundTrip(c: char, rest: string)
    ensures Unescape(Escape(c) + rest) == Some((c, |Escape(c)|))
  {
    hide Hex4;
    hide Unit;
    if !IsPlain(c) && ShortEscape(c).None? {
      var n := c as nat;
      if n < 0x10000 {
        HexRoundTrip(n, rest);
        HexStart(n);
      } else {
        var v := n - 0x10000;
        var high, low := 0xD800 + v / 1024, 0xDC00 + v % 1024;
        HexRoundTrip(high, Hex4(low) + rest);
        HexRoundTrip(low, rest);
        HexStart(high);
        assert Escape(c) + rest == Hex4(high) + (Hex4(low) + rest);
        HexStart(low);
        assert (Escape(c) + rest)[6..] == Hex4(low) + rest;
        assert 0x10000 + (high - 0xD800) * 1024 + (low - 0xDC00) == n;
      }
    }
  }

  lemma HexStart(n: nat)
    requires n < 0x10000
    ensures |Hex4(n)| == 6 && Hex4(n)[0] == '\\' && Hex4(n)[1] == 'u'
  {
  }

  lemma {:induction false} StringRoundTrip(s: string, rest: string)
    ensures ParseString(EscapeAll(s) + "\"" + rest) == Some((s, rest))
  {
    hide Escape;
    hide Unescape;
    if s != "" {
      var tail := EscapeAll(s[1..]) + "\"" + rest;
      StringRoundTrip(s[1..], rest);
      EscapeRoundTrip(s[0], tail);
      EscapeStart(s[0]);
      assert EscapeAll(s) + "\"" + rest == Escape(s[0]) + tail;
      assert (Escape(s[0]) + tail)[|Escape(s[0])|..] == tail;
      assert s == [s[0]] + s[1..];
    } else {
      assert EscapeAll(s) + "\"" + rest == "\"" + rest;
    }
  }

  /** A quote, an accent, and a character beyond the first plane. */
  lemma EscapesWritten()
    ensures Escape('"') == "\\\"" && Escape('\U{e9}') == "\\u00e9" && Escape('\U{1F600}') == "\\ud83d" + "\\ude00"
  {
    HexOfE9();
    HexOfPair();
    hide Hex4;
  }

  lemma HexOfE9()
    ensures Hex4(0xe9) == "\\u00e9"
  {
  }

  lemma HexOfPair()
    ensures Hex4(0xd83d) == "\\ud83d" && Hex4(0xde00) == "\\ude00"
  {
  }

  lemma EscapeStart(c: char)
    ensures |Escape(c)| >= 1 && Escape(c)[0] != '"'
    ensures forall i :: 0 <= i < |Escape(c)| ==> ' ' <= Escape(c)[i] <= '~'
  {
  }

  // ---- JSON numbers --------------------------------------------------------------------------

  function Digits(n: nat): string {
    if n < 10 then ['0' + n as char] else Digits(n / 10) + ['0' + (n % 10) as char]
  }

  predicate AllDigits(s: string) { forall i :: 0 <= i < |s| ==> IsDigit(s[i]) }

  function Number(s: string): nat
    requires AllDigits(s)
  {
    if s == "" then 0 else Number(Init(s)) * 10 + (Last(s) - '0') as nat
  }

  lemma {:induction false} DigitsRoundTrip(n: nat)
    ensures Digits(n) != "" && AllDigits(Digits(n)) && Number(Digits(n)) == n
    ensures Digits(n)[0] == '0' ==> n == 0
    ensures n == 0 ==> Digits(n) == "0"
  {
    if n >= 10 {
      DigitsRoundTrip(n / 10);
      assert Init(Digits(n)) == Digits(n / 10);
    } else {
      assert Init(Digits(n)) == "" && Last(Digits(n)) == '0' + n as char;
    }
  }

  function Signed(n: int): string {
    if n < 0 then "-" + Digits(-n) else Digits(n)
  }

  predicate IsNatural(s: string) { s != "" && AllDigits(s) && (s[0] == '0' ==> |s| == 1) }

  function Magnitude(s: string): string {
    if HasPrefix(s, "-") then s[1..] else s
  }

  predicate IsInteger(s: string) { IsNatural(Magnitude(s)) }

  function ParseInteger(s: string): int
    requires IsInteger(s)
  {
    if HasPrefix(s, "-") then 0 - Number(Magnitude(s)) else Number(s)
  }

  lemma IntegerRoundTrip(n: int)
    ensures IsInteger(Signed(n)) && ParseInteger(Signed(n)) == n
    ensures forall i :: 0 <= i < |Signed(n)| ==> IsNumberChar(Signed(n)[i])
  {
    DigitsRoundTrip(if n < 0 then -n else n);
    if n < 0 {
      assert Signed(n)[1..] == Digits(-n);
    } else {
      assert !HasPrefix(Digits(n), "-");
    }
  }

  function AfterDigits(s: string): string {
    DropLeft(s, IsDigit)
  }

  predicate IsExponent(s: string) {
    && s != "" && (s[0] == 'e' || s[0] == 'E')
    && var digits := if |s| > 1 && (s[1] == '+' || s[1] == '-') then s[2..] else s[1..];
       digits != "" && AllDigits(digits)
  }

  predicate IsFraction(s: string) {
    s != "" && s[0] == '.' && var tail := AfterDigits(s[1..]); |tail| < |s| - 1 && (tail == "" || IsExponent(tail))
  }

  /** JSON's numbers that are not integers, and the three names Python adds. */
  predicate IsFloat(s: string) {
    || s == "NaN" || s == "Infinity" || s == "-Infinity"
    || (var m := Magnitude(s);
        var tail := AfterDigits(m);
        |tail| <= |m| && IsNatural(m[..|m| - |tail|]) && (IsFraction(tail) || IsExponent(tail)))
  }

  predicate IsNumberChar(c: char) { IsAlpha(c) || IsDigit(c) || c == '+' || c == '-' || c == '.' }

  function NumberLength(s: string): (n: nat)
    ensures n <= |s|
  {
    if s != "" && IsNumberChar(s[0]) then 1 + NumberLength(s[1..]) else 0
  }

  lemma {:induction false} NumberEnds(s: string, rest: string)
    requires forall i :: 0 <= i < |s| ==> IsNumberChar(s[i])
    requires rest != "" && !IsNumberChar(rest[0])
    ensures NumberLength(s + rest) == |s|
  {
    if s != "" {
      assert (s + rest)[1..] == s[1..] + rest;
      NumberEnds(s[1..], rest);
    } else {
      assert s + rest == rest;
    }
  }

  // ---- the token --------------------------------------------------------------------------------

  /** The JSON text of each field. */
  function ValueText(v: Value): string {
    match v
    case Null => "null"
    case Int(n) => Signed(n)
    case Str(s) => "\"" + EscapeAll(s) + "\""
    case Float(repr) => repr
  }

  const HEAD := "{\"value\":"
  const MIDDLE := ",\"id\":"
  const TAIL := ",\"sort\":\""

  function TextOf(c: Cursor): string {
    HEAD + (ValueText(c.value) + (MIDDLE + (Digits(c.id) + (TAIL + (EscapeAll(c.sort) + "\"" + "}")))))
  }

  /** For instance. */
  lemma TextOfOne()
    ensures TextOf(Cursor(Null, 7, "x")) == "{\"value\":" + "null" + ",\"id\":" + "7" + ",\"sort\":\"" + "x" + "\"}"
  {
    assert Digits(7) == "7" && EscapeAll("x") == "x";
  }

  /** A cursor its own model accepts, whose float is spelled as a float. */
  predicate WellFormed(c: Cursor) {
    && 1 <= |c.sort| <= 64
    && (c.value.Float? ==> IsFloat(c.value.repr))
  }

  function ParseNumber(s: string): Option<Value> {
    if s == "null" then Some(Null)
    else if IsInteger(s) then Some(Int(ParseInteger(s)))
    else if IsFloat(s) then Some(Float(s))
    else None
  }

  function ParseValue(s: string): Option<(Value, string)> {
    if s != "" && s[0] == '"' then
      var text := ParseString(s[1..]);
      if text.None? then None else Some((Str(text.value.0), text.value.1))
    else
      var n := NumberLength(s);
      if ParseNumber(s[..n]).None? then None else Some((ParseNumber(s[..n]).value, s[n..]))
  }

  function After(s: string, prefix: string): Option<string> {
    if HasPrefix(s, prefix) then Some(s[|prefix|..]) else None
  }

  function ParseSort(s: string): Option<string> {
    var tail := After(s, TAIL);
    if tail.None? then None
    else
      var sort := ParseString(tail.value);
      if sort.None? || sort.value.1 != "}" || !(1 <= |sort.value.0| <= 64) then None else Some(sort.value.0)
  }

  function ParseText(s: string): Option<Cursor> {
    var head := After(s, HEAD);
    if head.None? then None
    else
      var value := ParseValue(head.value);
      if value.None? then None
      else
        var middle := After(value.value.1, MIDDLE);
        if middle.None? then None
        else
          var n := NumberLength(middle.value);
          var id := ParseNumber(middle.value[..n]);
          var sort := ParseSort(middle.value[n..]);
          if id.None? || !id.value.Int? || id.value.n < 0 || sort.None? then None
          else Some(Cursor(value.value.0, id.value.n, sort.value))
  }

  lemma AfterPrefix(prefix: string, rest: string)
    ensures After(prefix + rest, prefix) == Some(rest)
  {
  }

  lemma {:induction false} DigitsThenTail(s: string)
    ensures |AfterDigits(s)| <= |s| && s == s[..|s| - |AfterDigits(s)|] + AfterDigits(s)
    ensures AllDigits(s[..|s| - |AfterDigits(s)|])
  {
    if s != "" && IsDigit(s[0]) {
      DigitsThenTail(s[1..]);
      assert s == [s[0]] + s[1..];
    }
  }

  predicate NumberText(s: string) {
    forall i :: 0 <= i < |s| ==> IsNumberChar(s[i])
  }

  lemma ExponentText(s: string)
    requires IsExponent(s)
    ensures s != "" && NumberText(s) && !IsDigit(s[0])
  {
  }

  lemma FractionText(s: string)
    requires IsFraction(s)
    ensures s != "" && NumberText(s) && !IsDigit(s[0])
  {
    hide IsExponent;
    hide IsNumberChar;
    var rest := s[1..];
    var tail := AfterDigits(rest);
    DigitsThenTail(rest);
    hide AfterDigits;
    DigitText(rest[..|rest| - |tail|]);
    if tail != "" {
      ExponentText(tail);
    }
    assert IsNumberChar("."[0]) by { DigitText("."); }
    assert s == "." + (rest[..|rest| - |tail|] + tail);
  }

  lemma TailText(tail: string)
    requires IsFraction(tail) || IsExponent(tail)
    ensures tail != "" && NumberText(tail) && !IsDigit(tail[0])
  {
    if IsFraction(tail) {
      FractionText(tail);
    } else {
      ExponentText(tail);
    }
  }

  lemma FloatMagnitude(s: string)
    requires IsFloat(s) && s != "NaN" && s != "Infinity" && s != "-Infinity"
    ensures NumberText(Magnitude(s)) && !AllDigits(Magnitude(s)) && Magnitude(s) != "" && IsDigit(Magnitude(s)[0])
  {
    hide IsFraction;
    hide IsExponent;
    hide IsNumberChar;
    var m := Magnitude(s);
    var tail := AfterDigits(m);
    DigitsThenTail(m);
    hide AfterDigits;
    TailText(tail);
    var whole := m[..|m| - |tail|];
    assert m[|whole|] == tail[0] && m[0] == whole[0];
    DigitText(whole);
  }

  /** No text is both an integer and a float. */
  lemma FloatText(s: string)
    requires IsFloat(s)
    ensures s != "" && NumberText(s) && !IsInteger(s) && s != "null" && s[0] != '"'
  {
    if s == "NaN" || s == "Infinity" || s == "-Infinity" {
      NameText(s);
    } else {
      FloatMagnitude(s);
      hide IsFloat;
      assert s == s[..|s| - |Magnitude(s)|] + Magnitude(s);
      assert s[0] == '-' || s[0] == Magnitude(s)[0];
    }
  }

  lemma DigitText(s: string)
    requires s == "-" || s == "." || AllDigits(s)
    ensures NumberText(s)
  {
  }

  lemma NameText(s: string)
    requires s == "NaN" || s == "Infinity" || s == "-Infinity"
    ensures NumberText(s) && !IsInteger(s)
  {
  }

  lemma ParseNumberText(v: Value)
    requires !v.Str? && (v.Float? ==> IsFloat(v.repr))
    ensures ValueText(v) != "" && NumberText(ValueText(v)) && ValueText(v)[0] != '"'
    ensures ParseNumber(ValueText(v)) == Some(v)
  {
    hide IsFloat;
    if v.Int? {
      IntegerRoundTrip(v.n);
      hide IsInteger;
      hide ParseInteger;
      assert ValueText(v)[0] == '-' || IsDigit(ValueText(v)[0]);
    } else if v.Float? {
      FloatText(v.repr);
      hide IsInteger;
    } else {
      assert IsNumberChar('n') && IsNumberChar('u') && IsNumberChar('l');
    }
  }

  lemma ParseNumberValue(text: string, rest: string)
    requires text != "" && text[0] != '"' && NumberText(text) && ParseNumber(text).Some?
    requires rest != "" && rest[0] == ','
    ensures ParseValue(text + rest) == Some((ParseNumber(text).value, rest))
  {
    NumberEnds(text, rest);
    hide ParseNumber;
    hide NumberLength;
    var s := text + rest;
    assert s[..|text|] == text && s[|text|..] == rest && s[0] == text[0];
  }

  lemma ValueRoundTrip(v: Value, rest: string)
    requires v.Float? ==> IsFloat(v.repr)
    requires rest != "" && rest[0] == ','
    ensures ParseValue(ValueText(v) + rest) == Some((v, rest))
  {
    if v.Str? {
      QuotedRoundTrip(v.s, rest);
      hide ParseValue;
    } else {
      ParseNumberText(v);
      ParseNumberValue(ValueText(v), rest);
      hide ParseValue;
      hide ParseNumber;
      hide NumberText;
      hide IsFloat;
    }
  }

  lemma QuotedRoundTrip(s: string, rest: string)
    ensures ParseValue("\"" + EscapeAll(s) + "\"" + rest) == Some((Str(s), rest))
  {
    hide ParseString;
    hide EscapeAll;
    hide NumberLength;
    hide ParseNumber;
    StringRoundTrip(s, rest);
    var text := "\"" + EscapeAll(s) + "\"" + rest;
    assert text[0] == '"' && text[1..] == EscapeAll(s) + "\"" + rest;
  }

  lemma SortRoundTrip(sort: string)
    requires 1 <= |sort| <= 64
    ensures ParseSort(TAIL + (EscapeAll(sort) + "\"" + "}")) == Some(sort)
  {
    AfterPrefix(TAIL, EscapeAll(sort) + "\"" + "}");
    StringRoundTrip(sort, "}");
  }

  lemma IdRoundTrip(id: nat, rest: string)
    requires rest != "" && rest[0] == ','
    ensures var n := NumberLength(Digits(id) + rest);
      n == |Digits(id)| && (Digits(id) + rest)[n..] == rest && ParseNumber((Digits(id) + rest)[..n]) == Some(Int(id))
  {
    IntegerRoundTrip(id);
    NumberEnds(Digits(id), rest);
    assert (Digits(id) + rest)[..|Digits(id)|] == Digits(id);
  }

  /** Every well-formed cursor is read back from its text. */
  lemma TextRoundTrip(c: Cursor)
    requires WellFormed(c)
    ensures ParseText(TextOf(c)) == Some(c)
  {
    hide After;
    hide ParseValue;
    hide ParseNumber;
    hide ParseSort;
    hide ValueText;
    hide EscapeAll;
    hide Digits;
    hide NumberLength;
    var sorted := TAIL + (EscapeAll(c.sort) + "\"" + "}");
    var ided := Digits(c.id) + sorted;
    AfterPrefix(HEAD, ValueText(c.value) + (MIDDLE + ided));
    ValueRoundTrip(c.value, MIDDLE + ided);
    AfterPrefix(MIDDLE, ided);
    IdRoundTrip(c.id, sorted);
    SortRoundTrip(c.sort);
  }

  const MAX_CURSOR_LENGTH: nat := 512

  lemma {:induction false} EscapedIsAscii(s: string)
    ensures IsAscii(EscapeAll(s))
  {
    hide Escape;
    if s != "" {
      EscapeStart(s[0]);
      EscapedIsAscii(s[1..]);
    }
  }

  lemma NumberTextIsAscii(s: string)
    requires NumberText(s)
    ensures IsAscii(s)
  {
  }

  lemma TextIsAscii(c: Cursor)
    requires WellFormed(c)
    ensures IsAscii(TextOf(c))
  {
    hide EscapeAll;
    hide Digits;
    hide IsNumberChar;
    EscapedIsAscii(c.sort);
    IntegerRoundTrip(c.id);
    NumberTextIsAscii(Digits(c.id));
    if c.value.Str? {
      EscapedIsAscii(c.value.s);
    } else {
      ParseNumberText(c.value);
      NumberTextIsAscii(ValueText(c.value));
    }
    hide ValueText;
  }

  function BytesOf(s: string): seq<Base64.byte>
    requires IsAscii(s)
  {
    seq(|s|, i requires 0 <= i < |s| => s[i] as nat)
  }

  function CharsOf(data: seq<Base64.byte>): string {
    seq(|data|, i requires 0 <= i < |data| => data[i] as char)
  }

  function EncodeCursor(c: Cursor): string
    requires WellFormed(c)
  {
    TextIsAscii(c);
    Base64.Unpadded(BytesOf(TextOf(c)))
  }

  datatype Decoded = Absent | TooLong | Malformed | Position(cursor: Cursor)

  function DecodeCursor(token: Option<string>): Decoded {
    if token.None? || token.value == "" then Absent
    else if |token.value| > MAX_CURSOR_LENGTH then TooLong
    else
      var raw := Base64.Decode(Base64.Repadded(token.value));
      if raw.None? then Malformed
      else
        var c := ParseText(CharsOf(raw.value));
        if c.None? then Malformed else Position(c.value)
  }

  lemma TokenBytes(c: Cursor)
    requires WellFormed(c)
    ensures |EncodeCursor(c)| == (|TextOf(c)| * 4 + 2) / 3
    ensures var raw := Base64.Decode(Base64.Repadded(EncodeCursor(c))); raw.Some? && CharsOf(raw.value) == TextOf(c)
  {
    hide TextOf;
    TextIsAscii(c);
    Base64.UnpaddedShape(BytesOf(TextOf(c)));
    Base64.PaddingRestored(BytesOf(TextOf(c)));
    assert CharsOf(BytesOf(TextOf(c))) == TextOf(c);
  }

  /** A cursor survives its token exactly when its text has at most 384 characters; a longer one is
      refused, never cut short. */
  lemma CursorRoundTrip(c: Cursor)
    requires WellFormed(c)
    ensures DecodeCursor(Some(EncodeCursor(c))) == if |TextOf(c)| <= 384 then Position(c) else TooLong
  {
    TextRoundTrip(c);
    TokenBytes(c);
    assert |TextOf(c)| >= |HEAD|;
    hide TextOf;
    hide EncodeCursor;
    hide ParseText;
  }

  /** Different positions have different tokens, whatever their length. */
  lemma TokensAreDistinct(a: Cursor, b: Cursor)
    requires WellFormed(a) && WellFormed(b) && EncodeCursor(a) == EncodeCursor(b)
    ensures a == b
  {
    TokenBytes(a);
    TokenBytes(b);
    TextRoundTrip(a);
    TextRoundTrip(b);
  }

  datatype Parsed = FirstPage | Refused | At(cursor: Cursor)

  /** _parse_cursor: both a bad token and another sort's token are refused, never ignored. */
  function ParseCursor(raw: Option<string>, sort: string): Parsed {
    match DecodeCursor(raw)
    case Absent => FirstPage
    case TooLong => Refused
    case Malformed => Refused
    case Position(c) => if c.sort != sort then Refused else At(c)
  }

  /** The first page is served again only to a request without a token. */
  lemma NeverRestarts(c: Cursor, sort: string)
    requires WellFormed(c)
    ensures ParseCursor(Some(EncodeCursor(c)), sort) == if sort == c.sort && |TextOf(c)| <= 384 then At(c) else Refused
  {
    CursorRoundTrip(c);
    hide EncodeCursor;
    hide TextOf;
    hide DecodeCursor;
  }

  function Pow10(k: nat): nat {
    if k == 0 then 1 else 10 * Pow10(k - 1)
  }

  lemma {:induction false} DigitsLength(n: nat, k: nat)
    requires k >= 1 && n < Pow10(k)
    ensures |Digits(n)| <= k
  {
    if n >= 10 {
      assert k > 1;
      DigitsLength(n / 10, k - 1);
    }
  }
}

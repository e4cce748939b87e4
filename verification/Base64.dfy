/** Base64 with the URL-safe alphabet (section 5 of RFC 4648), its padding stripped and restored. */
module Base64 {
  import opened Prelude
  import opened Text

  type byte = x: nat | x < 256

  type sextet = x: nat | x < 64

  function CharOf(x: sextet): char {
    if x < 26 then 'A' + x as char
    else if x < 52 then 'a' + (x - 26) as char
    else if x < 62 then '0' + (x - 52) as char
    else if x == 62 then '-' else '_'
  }

  function SextetOf(c: char): Option<sextet> {
    if IsUpper(c) then Some((c - 'A') as nat)
    else if IsLower(c) then Some((c - 'a') as nat + 26)
    else if IsDigit(c) then Some((c - '0') as nat + 52)
    else if c == '-' then Some(62) else if c == '_' then Some(63) else None
  }

  lemma CharRoundTrip(x: sextet)
    ensures SextetOf(CharOf(x)) == Some(x) && CharOf(x) != '='
  {
  }

  predicate IsPad(c: char) { c == '=' }

  function Pads(n: nat): (s: string)
    ensures |s| == n && forall i :: 0 <= i < n ==> s[i] == '='
  {
    seq(n, _ => '=')
  }

  /** How many bytes the last group lacks. */
  function Missing(n: nat): nat {
    (3 - n % 3) % 3
  }

  function Group(a: byte, b: byte, c: byte): string {
    [CharOf(a / 4), CharOf(a % 4 * 16 + b / 16), CharOf(b % 16 * 4 + c / 64), CharOf(c % 64)]
  }

  /** The letters of a last group of at most two bytes: the missing ones count as zeros. */
  function Short(data: seq<byte>): string
    requires |data| < 3
  {
    if data == [] then "" else if |data| == 1 then Group(data[0], 0, 0)[..2] else Group(data[0], data[1], 0)[..3]
  }

  /** Groups of three bytes as four characters; a last group of one or two bytes is padded. */
  function Encode(data: seq<byte>): string {
    if |data| < 3 then Short(data) + Pads(Missing(|data|)) else Group(data[0], data[1], data[2]) + Encode(data[3..])
  }

  /** Padding is read in the last group only; the bits a short group leaves over are dropped. */
  function Decode(s: string): Option<seq<byte>> {
    if s == "" then Some([])
    else if |s| < 4 then None
    else
      var a, b := SextetOf(s[0]), SextetOf(s[1]);
      var c, d := SextetOf(s[2]), SextetOf(s[3]);
      if a.None? || b.None? then None
      else if s[2..] == "==" then Some([a.value * 4 + b.value / 16])
      else if c.None? then None
      else if s[3..] == "=" then Some([a.value * 4 + b.value / 16, b.value % 16 * 16 + c.value / 4])
      else if d.None? then None
      else
        var rest := Decode(s[4..]);
        if rest.None? then None
        else Some([a.value * 4 + b.value / 16, b.value % 16 * 16 + c.value / 4, c.value % 4 * 64 + d.value] + rest.value)
  }

  lemma BytesJoin(a: byte, b: byte, c: byte)
    ensures a / 4 * 4 + (a % 4 * 16 + b / 16) / 16 == a
    ensures (a % 4 * 16 + b / 16) % 16 * 16 + (b % 16 * 4 + c / 64) / 4 == b
    ensures (b % 16 * 4 + c / 64) % 4 * 64 + c % 64 == c
  {
  }

  /** The first bytes come back from the letters of their group, whatever follows it. */
  lemma GroupRoundTrip(a: byte, b: byte, c: byte, rest: string)
    ensures Decode(rest).Some? ==> Decode(Group(a, b, c) + rest) == Some([a, b, c] + Decode(rest).value)
    ensures Decode(Group(a, b, 0)[..3] + "=") == Some([a, b])
    ensures Decode(Group(a, 0, 0)[..2] + "==") == Some([a])
  {
    hide CharOf;
    hide SextetOf;
    CharRoundTrip(a / 4);
    CharRoundTrip(a % 4 * 16 + b / 16);
    CharRoundTrip(b % 16 * 4 + c / 64);
    CharRoundTrip(c % 64);
    CharRoundTrip(a % 4 * 16);
    CharRoundTrip(b % 16 * 4);
    BytesJoin(a, b, c);
    BytesJoin(a, b, 0);
    BytesJoin(a, 0, 0);
    var s, s1, s2 := Group(a, b, c) + rest, Group(a, 0, 0)[..2] + "==", Group(a, b, 0)[..3] + "=";
    assert s[4..] == rest && s[3] != '=' && s[2..][0] != '=' && s[3..][0] != '=';
    assert s1[2..] == "==";
    assert s2[3..] == "=" && s2[2..][0] != '=';
  }

  lemma PadsAre()
    ensures Pads(1) == "=" && Pads(2) == "=="
  {
  }

  lemma OneRoundTrip(a: byte)
    ensures Decode(Short([a]) + Pads(2)) == Some([a])
  {
    hide Decode;
    GroupRoundTrip(a, 0, 0, "");
    hide Group;
    PadsAre();
    hide Pads;
  }

  lemma TwoRoundTrip(a: byte, b: byte)
    ensures Decode(Short([a, b]) + Pads(1)) == Some([a, b])
  {
    hide Decode;
    GroupRoundTrip(a, b, 0, "");
    hide Group;
    PadsAre();
    hide Pads;
  }

  lemma ShortRoundTrip(data: seq<byte>)
    requires |data| < 3
    ensures Decode(Short(data) + Pads(Missing(|data|))) == Some(data)
  {
    if |data| == 2 {
      hide Decode;
      hide Short;
      assert data == [data[0], data[1]];
      TwoRoundTrip(data[0], data[1]);
    } else if |data| == 1 {
      hide Decode;
      hide Short;
      assert data == [data[0]];
      OneRoundTrip(data[0]);
    } else {
      assert Short(data) + Pads(0) == "";
    }
  }

  /** Vectors of section 10 of RFC 4648, and the two letters of the URL-safe alphabet. */
  lemma Vectors()
    ensures Encode([0x66]) == "Zg==" && Encode([0x66, 0x6f]) == "Zm8=" && Encode([0x66, 0x6f, 0x6f]) == "Zm9v"
    ensures Encode([0x62, 0x61, 0x72]) == "YmFy" && Encode([0xfb, 0xef, 0xbf]) == "---_"
  {
    PadsAre();
    assert Short([0x66]) == "Zg" && Short([0x66, 0x6f]) == "Zm8";
    LastGroup(0x66, 0x6f, 0x6f);
    LastGroup(0x62, 0x61, 0x72);
    LastGroup(0xfb, 0xef, 0xbf);
  }

  lemma LastGroup(a: byte, b: byte, c: byte)
    ensures Encode([a, b, c]) == Group(a, b, c)
  {
    assert [a, b, c][3..] == [] && Encode([]) == "";
  }

  lemma {:induction false} RoundTrip(data: seq<byte>)
    ensures Decode(Encode(data)) == Some(data)
  {
    hide Decode;
    hide Group;
    if |data| < 3 {
      ShortRoundTrip(data);
    } else {
      RoundTrip(data[3..]);
      GroupRoundTrip(data[0], data[1], data[2], Encode(data[3..]));
      assert data == [data[0], data[1], data[2]] + data[3..];
    }
  }

  /** The encoding without its padding. */
  ghost function Letters(data: seq<byte>): string {
    if |data| < 3 then Short(data) else Group(data[0], data[1], data[2]) + Letters(data[3..])
  }

  ghost predicate UrlSafe(s: string) {
    forall i :: 0 <= i < |s| ==> SextetOf(s[i]).Some?
  }

  lemma GroupUrlSafe(a: byte, b: byte, c: byte)
    ensures UrlSafe(Group(a, b, c))
  {
  }

  lemma ShortShape(data: seq<byte>)
    requires |data| < 3
    ensures UrlSafe(Short(data)) && |Short(data)| == (|data| * 4 + 2) / 3
  {
    hide CharOf;
    hide SextetOf;
    if |data| > 0 {
      GroupUrlSafe(data[0], 0, 0);
    }
    if |data| > 1 {
      GroupUrlSafe(data[0], data[1], 0);
    }
  }

  lemma ThreeMore(n: nat)
    requires n >= 3
    ensures Missing(n) == Missing(n - 3) && (n * 4 + 2) / 3 == 4 + ((n - 3) * 4 + 2) / 3
  {
  }

  lemma {:induction false} EncodeShape(data: seq<byte>)
    ensures Encode(data) == Letters(data) + Pads(Missing(|data|))
    ensures UrlSafe(Letters(data)) && |Letters(data)| == (|data| * 4 + 2) / 3
  {
    hide SextetOf;
    hide Short;
    hide Missing;
    hide Pads;
    if |data| < 3 {
      ShortShape(data);
    } else {
      var first, rest := Group(data[0], data[1], data[2]), data[3..];
      EncodeShape(rest);
      GroupUrlSafe(data[0], data[1], data[2]);
      ThreeMore(|data|);
      assert |first| == 4 && Encode(data) == first + Encode(rest) && Letters(data) == first + Letters(rest);
      hide Group;
      hide Encode;
      hide Letters;
    }
  }

  /** rstrip("="): the token that travels. */
  function Unpadded(data: seq<byte>): string {
    DropRight(Encode(data), IsPad)
  }

  function Repadded(token: string): string {
    token + Pads((-|token|) % 4)
  }

  lemma {:induction false} DropPads(s: string, n: nat)
    requires UrlSafe(s)
    ensures DropRight(s + Pads(n), IsPad) == s
  {
    if n > 0 {
      assert Init(s + Pads(n)) == s + Pads(n - 1);
      DropPads(s, n - 1);
    } else {
      assert s + Pads(n) == s;
    }
  }

  /** A token is four thirds of its bytes, rounded up, in the URL-safe alphabet alone. */
  lemma UnpaddedShape(data: seq<byte>)
    ensures |Unpadded(data)| == (|data| * 4 + 2) / 3
    ensures UrlSafe(Unpadded(data))
  {
    hide SextetOf;
    hide Encode;
    EncodeShape(data);
    DropPads(Letters(data), Missing(|data|));
  }

  /** Minus the length modulo four is exactly the padding that was stripped. */
  lemma PaddingRestored(data: seq<byte>)
    ensures Repadded(Unpadded(data)) == Encode(data)
    ensures Decode(Repadded(Unpadded(data))) == Some(data)
  {
    hide SextetOf;
    hide Encode;
    hide Decode;
    hide Letters;
    EncodeShape(data);
    DropPads(Letters(data), Missing(|data|));
    PadCount(|data|);
    RoundTrip(data);
  }

  lemma PadCount(n: nat)
    ensures (-((n * 4 + 2) / 3)) % 4 == Missing(n)
  {
  }
}

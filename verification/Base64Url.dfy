/** The URL-safe base64 alphabet (section 5 of RFC 4648), with padding that the
    caller may strip (section 3.2) and put back. */
module Base64Url {
  import opened Wrappers
  import opened Utf8

  function SextetChar(n: int): (c: char)
    requires 0 <= n < 64
    ensures SextetValue(c) == Some(n)
  {
    if n < 26 then ('A' as int + n) as char
    else if n < 52 then ('a' as int + (n - 26)) as char
    else if n < 62 then ('0' as int + (n - 52)) as char
    else if n == 62 then '-'
    else '_'
  }

  function SextetValue(c: char): (v: Option<int>)
    ensures v.Some? ==> 0 <= v.value < 64 && c != '='
  {
    if 'A' <= c <= 'Z' then Some(c as int - 'A' as int)
    else if 'a' <= c <= 'z' then Some(c as int - 'a' as int + 26)
    else if '0' <= c <= '9' then Some(c as int - '0' as int + 52)
    else if c == '-' then Some(62)
    else if c == '_' then Some(63)
    else None
  }

  function EncodeGroup(b: string): (s: string)
    requires 1 <= |b| <= 3 && IsBytes(b)
    ensures |s| == 4
  {
    var x := b[0] as int;
    var y := if |b| > 1 then b[1] as int else 0;
    var z := if |b| > 2 then b[2] as int else 0;
    [SextetChar(x / 4), SextetChar(x % 4 * 16 + y / 16)]
    + [if |b| > 1 then SextetChar(y % 16 * 4 + z / 64) else '=']
    + [if |b| > 2 then SextetChar(z % 64) else '=']
  }

  /** Encoding with padding. */
  function Encode(b: string): string
    requires IsBytes(b)
  {
    if b == "" then ""
    else if |b| <= 3 then EncodeGroup(b)
    else EncodeGroup(b[..3]) + Encode(b[3..])
  }

  function DecodeGroup(s: string): Option<string>
    requires |s| == 4
  {
    var p, q, r, t := SextetValue(s[0]), SextetValue(s[1]), SextetValue(s[2]), SextetValue(s[3]);
    if p.None? || q.None? then None
    else
      var x := Byte(p.value * 4 + q.value / 16);
      if s[2] == '=' && s[3] == '=' then Some([x])
      else if r.None? then None
      else
        var y := Byte(q.value % 16 * 16 + r.value / 4);
        if s[3] == '=' then Some([x, y])
        else if t.None? then None
        else Some([x, y, Byte(r.value % 4 * 64 + t.value)])
  }

  /** Decoding of padded text: only the last group may be short. */
  function Decode(s: string): (b: Option<string>)
    ensures b.Some? ==> IsBytes(b.value)
  {
    if s == "" then Some("")
    else if |s| < 4 then None
    else
      var first := DecodeGroup(s[..4]);
      if first.None? then None
      else if |s| == 4 then first
      else if |first.value| < 3 then None
      else match Decode(s[4..])
        case None => None
        case Some(rest) => Some(first.value + rest)
  }

  function StripPadding(s: string): string {
    if s != "" && s[|s| - 1] == '=' then StripPadding(s[..|s| - 1]) else s
  }

  function Equals(n: nat): string {
    seq(n, _ => '=')
  }

  /** The text with as much padding as brings it to a multiple of four. */
  function Pad(s: string): string {
    s + Equals((4 - |s| % 4) % 4)
  }

  lemma GroupRoundTrip(b: string)
    requires 1 <= |b| <= 3 && IsBytes(b)
    ensures DecodeGroup(EncodeGroup(b)) == Some(b)
  {
    var x := b[0] as int;
    var y := if |b| > 1 then b[1] as int else 0;
    var z := if |b| > 2 then b[2] as int else 0;
    SextetsOfBytes(x, y, z);
    if |b| == 1 {
      assert b == [b[0]];
    } else if |b| == 2 {
      assert b == [b[0], b[1]];
    } else {
      assert b == [b[0], b[1], b[2]];
    }
  }

  /** Three bytes regrouped into four sextets, and back. */
  lemma SextetsOfBytes(x: int, y: int, z: int)
    requires 0 <= x < 256 && 0 <= y < 256 && 0 <= z < 256
    ensures var q, r := x % 4 * 16 + y / 16, y % 16 * 4 + z / 64;
            && 0 <= x / 4 < 64 && 0 <= q < 64 && 0 <= r < 64 && 0 <= z % 64 < 64
            && x / 4 * 4 + q / 16 == x && q % 16 * 16 + r / 4 == y && r % 4 * 64 + z % 64 == z
  {}

  lemma {:induction false} PaddedRoundTrip(b: string)
    requires IsBytes(b)
    ensures Decode(Encode(b)) == Some(b)
    decreases |b|
  {
    if b == "" {
    } else if |b| <= 3 {
      GroupRoundTrip(b);
      assert EncodeGroup(b)[..4] == EncodeGroup(b);
    } else {
      var s := Encode(b);
      GroupRoundTrip(b[..3]);
      PaddedRoundTrip(b[3..]);
      assert s[..4] == EncodeGroup(b[..3]) && s[4..] == Encode(b[3..]);
      assert b[..3] + b[3..] == b;
    }
  }

  /** A multiple of four characters, of which at most the last two are padding. */
  predicate HasPaddingShape(s: string) {
    |s| % 4 == 0 &&
    (s != "" ==> s[|s| - 4] != '=' && s[|s| - 3] != '=' && (s[|s| - 2] == '=' ==> s[|s| - 1] == '='))
  }

  lemma GroupShape(b: string)
    requires 1 <= |b| <= 3 && IsBytes(b)
    ensures HasPaddingShape(EncodeGroup(b))
  {}

  lemma {:induction false} ShapeAppend(group: string, rest: string)
    requires |group| == 4 && rest != "" && HasPaddingShape(rest)
    ensures HasPaddingShape(group + rest)
  {
    var s := group + rest;
    assert s[|s| - 4] == rest[|rest| - 4] && s[|s| - 3] == rest[|rest| - 3];
    assert s[|s| - 2] == rest[|rest| - 2] && s[|s| - 1] == rest[|rest| - 1];
  }

  lemma {:induction false} EncodingShape(b: string)
    requires IsBytes(b)
    ensures HasPaddingShape(Encode(b)) && (b != "" ==> Encode(b) != "")
    decreases |b|
  {
    if |b| > 3 {
      EncodingShape(b[3..]);
      ShapeAppend(EncodeGroup(b[..3]), Encode(b[3..]));
    } else if b != "" {
      GroupShape(b);
    }
  }

  lemma StripAppended(s: string, n: nat)
    requires n <= 2 && (s == "" || s[|s| - 1] != '=')
    ensures StripPadding(s + Equals(n)) == s
  {
    assert Equals(0) == "" && s + "" == s;
    if n > 0 {
      assert (s + Equals(n))[..|s| + n - 1] == s + Equals(n - 1);
      StripAppended(s, n - 1);
    }
  }

  /** Stripping the padding and putting it back by length is the identity. */
  lemma StripThenPad(s: string)
    requires HasPaddingShape(s)
    ensures Pad(StripPadding(s)) == s
  {
    var n := if s == "" || s[|s| - 1] != '=' then 0 else if s[|s| - 2] != '=' then 1 else 2;
    var t := s[..|s| - n];
    assert s == t + Equals(n);
    StripAppended(t, n);
    assert (4 - |t| % 4) % 4 == n;
  }

  /** Decoding the re-padded text undoes encoding and stripping, for all bytes. */
  lemma UnpaddedRoundTrip(b: string)
    requires IsBytes(b)
    ensures Decode(Pad(StripPadding(Encode(b)))) == Some(b)
  {
    EncodingShape(b);
    StripThenPad(Encode(b));
    PaddedRoundTrip(b);
  }

  /** The characters are those of the table in section 5 of RFC 4648: capital letters,
      small letters and digits in order, then the minus sign and the underscore. */
  lemma AlphabetExactly(n: nat)
    requires n < 63
    ensures SextetChar(0) == 'A' && SextetChar(26) == 'a' && SextetChar(52) == '0'
    ensures SextetChar(62) == '-' && SextetChar(63) == '_'
    ensures n !in {25, 51, 61, 62} ==> SextetChar(n + 1) as int == SextetChar(n) as int + 1
  {}

  /** A full group of three bytes is written as the four digits, to the base 64, of
      the number that the bytes make to the base 256. */
  lemma GroupIsNumber(b: string)
    requires |b| == 3 && IsBytes(b)
    ensures var s := EncodeGroup(b);
            && (forall i :: 0 <= i < 4 ==> SextetValue(s[i]).Some?)
            && SextetValue(s[0]).value * 262144 + SextetValue(s[1]).value * 4096
               + SextetValue(s[2]).value * 64 + SextetValue(s[3]).value
               == b[0] as int * 65536 + b[1] as int * 256 + b[2] as int
  {
    var x, y, z := b[0] as int, b[1] as int, b[2] as int;
    assert SextetValue(EncodeGroup(b)[0]) == Some(x / 4);
    assert SextetValue(EncodeGroup(b)[1]) == Some(x % 4 * 16 + y / 16);
    assert SextetValue(EncodeGroup(b)[2]) == Some(y % 16 * 4 + z / 64);
    assert SextetValue(EncodeGroup(b)[3]) == Some(z % 64);
  }

  /** Test vectors of section 10 of RFC 4648, and one of the two characters in which
      the URL-safe alphabet differs. */
  lemma TestVectors()
    ensures Encode("") == "" && Encode("f") == "Zg==" && Encode("fo") == "Zm8=" && Encode("foo") == "Zm9v"
    ensures Encode("foob") == "Zm9vYg=="
    ensures Encode([Byte(0xFB), Byte(0xFF)]) == "-_8="
  {
    assert "foob"[..3] == "foo" && "foob"[3..] == "b";
    assert Encode("b") == "Yg==";
  }
}

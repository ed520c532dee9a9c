/** UTF-8 (RFC 3629): text as a sequence of bytes, each held in a char below 256. */
module Utf8 {
  import opened Wrappers

  predicate IsBytes(s: string) {
    forall i :: 0 <= i < |s| ==> s[i] as int < 256
  }

  function Byte(n: int): (c: char)
    requires 0 <= n < 256
    ensures c as int == n
  {
    n as char
  }

  /** The code point lies outside the surrogate range, as every char does. */
  predicate IsScalar(n: int) {
    0 <= n < 0xD800 || 0xE000 <= n < 0x11_0000
  }

  function EncodeChar(c: char): (s: string)
    ensures IsBytes(s) && 1 <= |s| <= 4
    ensures c as int < 0x80 ==> s == [c]
    ensures c as int >= 0x80 ==> forall i :: 0 <= i < |s| ==> s[i] as int >= 0x80
  {
    var n := c as int;
    if n < 0x80 then [c]
    else if n < 0x800 then [Byte(0xC0 + n / 64), Byte(0x80 + n % 64)]
    else if n < 0x1_0000 then [Byte(0xE0 + n / 4096), Byte(0x80 + n / 64 % 64), Byte(0x80 + n % 64)]
    else [Byte(0xF0 + n / 262144), Byte(0x80 + n / 4096 % 64), Byte(0x80 + n / 64 % 64), Byte(0x80 + n % 64)]
  }

  function Encode(s: string): (b: string)
    ensures IsBytes(b)
  {
    if s == "" then "" else EncodeChar(s[0]) + Encode(s[1..])
  }

  predicate IsContinuation(c: char) {
    0x80 <= c as int < 0xC0
  }

  /** How many bytes the character starting with this byte has; 0 if none does. */
  function SequenceLength(lead: char): nat {
    var n := lead as int;
    if n < 0x80 then 1
    else if 0xC0 <= n < 0xE0 then 2
    else if 0xE0 <= n < 0xF0 then 3
    else if 0xF0 <= n < 0xF8 then 4
    else 0
  }

  /** The code point of a byte sequence with valid lead and continuation bytes. */
  function CodePoint(s: string): int
    requires 1 <= |s| <= 4 && IsBytes(s)
  {
    if |s| == 1 then s[0] as int
    else if |s| == 2 then (s[0] as int - 0xC0) * 64 + (s[1] as int - 0x80)
    else if |s| == 3 then (s[0] as int - 0xE0) * 4096 + (s[1] as int - 0x80) * 64 + (s[2] as int - 0x80)
    else (s[0] as int - 0xF0) * 262144 + (s[1] as int - 0x80) * 4096 + (s[2] as int - 0x80) * 64 + (s[3] as int - 0x80)
  }

  /** The least code point that needs this many bytes. */
  function LeastOfLength(k: nat): int {
    if k <= 1 then 0 else if k == 2 then 0x80 else if k == 3 then 0x800 else 0x1_0000
  }

  /** Strict decoding: no truncated, overlong, surrogate or out-of-range sequence. */
  function Decode(b: string): Option<string>
    requires IsBytes(b)
  {
    if b == "" then Some("")
    else
      var k := SequenceLength(b[0]);
      if k == 0 || k > |b| || !(forall i :: 1 <= i < k ==> IsContinuation(b[i])) then None
      else
        var n := CodePoint(b[..k]);
        if n < LeastOfLength(k) || !IsScalar(n) then None
        else match Decode(b[k..])
          case None => None
          case Some(rest) => Some([n as char] + rest)
  }

  lemma SextetDigits(n: int)
    requires n >= 0
    ensures n == n / 64 * 64 + n % 64
    ensures n / 64 == n / 4096 * 64 + n / 64 % 64
    ensures n / 4096 == n / 262144 * 64 + n / 4096 % 64
  {
    assert n / 4096 == n / 64 / 64;
    assert n / 262144 == n / 4096 / 64;
  }

  lemma CodePointOfChar(c: char)
    ensures var s := EncodeChar(c);
            && SequenceLength(s[0]) == |s|
            && (forall i :: 1 <= i < |s| ==> IsContinuation(s[i]))
    ensures CodePoint(EncodeChar(c)) == c as int
    ensures LeastOfLength(|EncodeChar(c)|) <= c as int && IsScalar(c as int)
  {
    var n := c as int;
    SextetDigits(n);
    if n < 0x80 {
    } else if n < 0x800 {
      assert n / 64 < 0x20;
    } else if n < 0x1_0000 {
      assert n / 4096 < 0x10;
    } else {
      assert n / 262144 < 8;
    }
  }

  lemma DecodeOneChar(c: char, rest: string)
    requires IsBytes(rest) && Decode(rest).Some?
    ensures Decode(EncodeChar(c) + rest) == Some([c] + Decode(rest).value)
  {
    var e := EncodeChar(c);
    CodePointOfChar(c);
    assert (e + rest)[..|e|] == e && (e + rest)[|e|..] == rest;
    assert forall i :: 0 <= i < |e| ==> (e + rest)[i] == e[i];
  }

  /** Decoding undoes encoding, for every text. */
  lemma {:induction false} RoundTrip(s: string)
    ensures Decode(Encode(s)) == Some(s)
    decreases |s|
  {
    if s != "" {
      RoundTrip(s[1..]);
      DecodeOneChar(s[0], Encode(s[1..]));
      assert [s[0]] + s[1..] == s;
    }
  }

  /** The worked examples of section 7 of RFC 3629: one to four bytes. */
  lemma KnownEncodings()
    ensures EncodeChar('A') == [Byte(0x41)]
    ensures EncodeChar('\U{0391}') == [Byte(0xCE), Byte(0x91)]
    ensures EncodeChar('\U{65E5}') == [Byte(0xE6), Byte(0x97), Byte(0xA5)]
    ensures EncodeChar('\U{0233B4}') == [Byte(0xF0), Byte(0xA3), Byte(0x8E), Byte(0xB4)]
  {}
}

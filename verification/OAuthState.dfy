/** The signed, short-lived OAuth state: created for a user, verified on return. */
module OAuthState {
  import opened Wrappers
  import opened Digits
  import Utf8
  import Base64Url

  datatype StateError = Malformed | BadSignature | NotComparable | Expired

  const MAX_AGE_SECONDS := 600

  /** The keyed digest of a payload, in hexadecimal; its value is not modelled. */
  type Signer = (string, string) -> string

  predicate IsHex(s: string) {
    forall i :: 0 <= i < |s| ==> IsDigit(s[i]) || 'a' <= s[i] <= 'f'
  }

  ghost predicate ValidSigner(sign: Signer) {
    forall payload, key :: IsHex(sign(payload, key))
  }

  /** A missing or zero instant means the wall clock. */
  function Clock(now: Option<int>, wall: int): int {
    if now.None? || now.value == 0 then wall else now.value
  }

  function IntText(n: int): string {
    if n < 0 then "-" + Decimal(-n) else Decimal(n)
  }

  function StatePayload(user: string, issued: int): string {
    user + ("." + IntText(issued))
  }

  function SignedText(user: string, issued: int, key: string, sign: Signer): string {
    StatePayload(user, issued) + ("." + sign(StatePayload(user, issued), key))
  }

  function CreateState(user: string, key: string, now: Option<int>, wall: int, sign: Signer): string {
    Base64Url.StripPadding(Base64Url.Encode(Utf8.Encode(SignedText(user, Clock(now, wall), key, sign))))
  }

  /******* Reading *******/

  /** The text up to the first dot, and the text after it. */
  function SplitDot(s: string): Option<(string, string)> {
    if s == "" then None
    else if s[0] == '.' then Some(("", s[1..]))
    else match SplitDot(s[1..])
      case None => None
      case Some((a, b)) => Some(([s[0]] + a, b))
  }

  /** The integer written by a text, with the leeway of the language's reader:
      space around it, a sign, and single underscores between digits. */
  function ReadInt(s: string): Option<int> {
    if s != "" && IsSpace(s[0]) then ReadInt(s[1..])
    else if s != "" && IsSpace(s[|s| - 1]) then ReadInt(s[..|s| - 1])
    else if s != "" && s[0] == '-' then
      match ReadDigits(s[1..]) case None => None case Some(n) => Some(-(n as int))
    else
      match ReadDigits(if s != "" && s[0] == '+' then s[1..] else s) case None => None case Some(n) => Some(n)
  }

  /** Digits with single underscores between them. */
  function ReadDigits(s: string): Option<nat> {
    if s == "" then None
    else if !IsDigit(s[|s| - 1]) then None
    else if |s| == 1 then Some(DigitValue(s[0]))
    else
      var front := s[..|s| - 1];
      var rest := if front[|front| - 1] == '_' then ReadDigits(front[..|front| - 1]) else ReadDigits(front);
      match rest
      case None => None
      case Some(n) => Some(n * 10 + DigitValue(s[|s| - 1]))
  }

  predicate IsAscii(s: string) {
    forall i :: 0 <= i < |s| ==> s[i] as int < 128
  }

  function VerifyState(state: string, key: string, now: Option<int>, wall: int,
                       sign: Signer): Result<string, StateError> {
    match Base64Url.Decode(Base64Url.Pad(state))
    case None => Err(Malformed)
    case Some(bytes) =>
      match Utf8.Decode(bytes)
      case None => Err(Malformed)
      case Some(text) => VerifyText(text, key, now, wall, sign)
  }

  function VerifyText(text: string, key: string, now: Option<int>, wall: int,
                      sign: Signer): Result<string, StateError> {
    match SplitDot(text)
    case None => Err(Malformed)
    case Some((user, rest)) =>
      match SplitDot(rest)
      case None => Err(Malformed)
      case Some((issuedText, signature)) =>
        match ReadInt(issuedText)
        case None => Err(Malformed)
        case Some(issued) =>
          if !IsAscii(signature) then Err(NotComparable)
          else if signature != sign(StatePayload(user, issued), key) then Err(BadSignature)
          else
            var current := Clock(now, wall);
            if issued > current || current - issued > MAX_AGE_SECONDS then Err(Expired) else Ok(user)
  }

  /******* Round trip *******/

  lemma {:induction false} SplitAtDot(a: string, b: string)
    requires '.' !in a
    ensures SplitDot(a + ("." + b)) == Some((a, b))
    decreases |a|
  {
    if a == "" {
      assert a + ("." + b) == "." + b && ("." + b)[1..] == b;
    } else {
      assert (a + ("." + b))[1..] == a[1..] + ("." + b);
      SplitAtDot(a[1..], b);
      assert [a[0]] + a[1..] == a;
    }
  }

  lemma {:induction false} ReadDigitsIsNumber(s: string)
    requires s != "" && AllDigits(s)
    ensures ReadDigits(s) == Some(Number(s))
    decreases |s|
  {
    if |s| == 1 {
      assert s[..0] == "";
      assert Number("") == 0;
    } else {
      ReadDigitsIsNumber(s[..|s| - 1]);
    }
  }

  lemma ReadIntOfDecimal(n: nat)
    ensures ReadInt(IntText(n)) == Some(n)
  {
    var s := Decimal(n);
    ReadDigitsIsNumber(s);
    NumberOfDecimal(n);
    assert IsDigit(s[0]) && IsDigit(s[|s| - 1]);
  }

  lemma NoDotInDigits(s: string)
    requires AllDigits(s) || IsHex(s)
    ensures '.' !in s
  {}

  /** Encoding and transport do not matter: verification sees the signed text. */
  lemma {:induction false} TransportIsTransparent(user: string, issued: Option<int>, key: string, now: Option<int>,
                                                  wall: int, wall': int, sign: Signer)
    ensures VerifyState(CreateState(user, key, issued, wall, sign), key, now, wall', sign)
         == VerifyText(SignedText(user, Clock(issued, wall), key, sign), key, now, wall', sign)
  {
    var text := SignedText(user, Clock(issued, wall), key, sign);
    Utf8.RoundTrip(text);
    Base64Url.UnpaddedRoundTrip(Utf8.Encode(text));
  }

  lemma {:induction false} VerifyPlainUser(user: string, key: string, t: nat, now: Option<int>, wall: int, sign: Signer)
    requires ValidSigner(sign) && '.' !in user
    ensures VerifyText(SignedText(user, t, key, sign), key, now, wall, sign)
         == if t <= Clock(now, wall) <= t + MAX_AGE_SECONDS then Ok(user) else Err(Expired)
  {
    var signature := sign(StatePayload(user, t), key);
    var rest := IntText(t) + ("." + signature);
    assert SignedText(user, t, key, sign) == user + ("." + rest);
    SplitAtDot(user, rest);
    NoDotInDigits(IntText(t));
    SplitAtDot(IntText(t), signature);
    ReadIntOfDecimal(t);
    assert IsHex(signature);
    assert IsAscii(signature);
  }

  lemma {:induction false} FirstDot(s: string) returns (a: string, b: string)
    requires '.' in s
    ensures s == a + ("." + b) && '.' !in a
  {
    if s[0] == '.' {
      a, b := "", s[1..];
    } else {
      a, b := FirstDot(s[1..]);
      a := [s[0]] + a;
    }
  }

  lemma {:induction false} DottedSignatureIsRefused(a: string, c: string, signature: string, key: string,
                                                    now: Option<int>, wall: int, sign: Signer)
    requires ValidSigner(sign) && '.' !in a && '.' !in c && '.' in signature
    ensures VerifyText(a + ("." + (c + ("." + signature))), key, now, wall, sign).Err?
  {
    SplitAtDot(a, c + ("." + signature));
    SplitAtDot(c, signature);
    var i :| 0 <= i < |signature| && signature[i] == '.';
    NotHex(signature, i);
    if ReadInt(c).Some? {
      assert IsHex(sign(StatePayload(a, ReadInt(c).value), key));
    }
  }

  /** A dotted user id is never accepted: what verification takes for the signature
      still has a dot in it. */
  lemma {:induction false} DottedUserIsRefused(user: string, key: string, t: nat, now: Option<int>, wall: int,
                                               sign: Signer)
    requires ValidSigner(sign) && '.' in user
    ensures VerifyText(SignedText(user, t, key, sign), key, now, wall, sign).Err?
  {
    var issued, end := IntText(t), "." + sign(StatePayload(user, t), key);
    var a, b := FirstDot(user);
    var c, signature;
    if '.' in b {
      var d;
      c, d := FirstDot(b);
      signature := d + ("." + issued) + end;
      assert signature[|d|] == '.';
    } else {
      c, signature := b, issued + end;
      assert signature[|issued|] == '.';
    }
    assert SignedText(user, t, key, sign) == a + ("." + (c + ("." + signature)));
    DottedSignatureIsRefused(a, c, signature, key, now, wall, sign);
  }

  lemma NotHex(s: string, i: nat)
    requires i < |s| && s[i] == '.'
    ensures !IsHex(s)
  {}

  /** The state created at `t` for any user verifies at `n` if and only if the user
      id has no dot and `n` is between `t` and ten minutes later; it never verifies
      as another user. */
  lemma {:induction false} StateVerifiesExactly(user: string, key: string, t: int, n: int, wall: int, wall': int,
                                                sign: Signer)
    requires ValidSigner(sign) && t > 0 && n > 0
    ensures var r := VerifyState(CreateState(user, key, Some(t), wall, sign), key, Some(n), wall', sign);
            && (r.Ok? <==> '.' !in user && t <= n <= t + MAX_AGE_SECONDS)
            && (r.Ok? ==> r.value == user)
  {
    TransportIsTransparent(user, Some(t), key, Some(n), wall, wall', sign);
    if '.' in user {
      DottedUserIsRefused(user, key, t, Some(n), wall', sign);
    } else {
      VerifyPlainUser(user, key, t, Some(n), wall', sign);
    }
  }

  /** A user called "a.b" cannot use the state created for them, not even at once. */
  lemma DottedUserExample(key: string, wall: int, sign: Signer)
    requires ValidSigner(sign)
    ensures VerifyState(CreateState("a.b", key, Some(1), wall, sign), key, Some(1), wall, sign).Err?
  {
    assert "a.b"[1] == '.';
    StateVerifiesExactly("a.b", key, 1, 1, wall, wall, sign);
  }

  /** The text carries the signature of the user and the time that it names. */
  ghost predicate IsSigned(text: string, user: string, issued: int, key: string, sign: Signer) {
    exists issuedText: string ::
      text == user + ("." + (issuedText + ("." + sign(StatePayload(user, issued), key))))
      && ReadInt(issuedText) == Some(issued)
  }

  lemma {:induction false} SplitJoins(s: string)
    requires SplitDot(s).Some?
    ensures s == SplitDot(s).value.0 + ("." + SplitDot(s).value.1) && '.' !in SplitDot(s).value.0
    decreases |s|
  {
    if s[0] == '.' {
      assert s == "." + s[1..];
    } else {
      SplitJoins(s[1..]);
      assert s == [s[0]] + s[1..];
    }
  }

  /** Whatever state is accepted, whoever made it, is the encoding of a text that
      carries the key's signature of the accepted user and of a time that is at most
      ten minutes old and not in the future. */
  lemma AcceptedIsSigned(state: string, key: string, now: Option<int>, wall: int, sign: Signer)
    returns (text: string, issued: int)
    requires VerifyState(state, key, now, wall, sign).Ok?
    ensures Base64Url.Decode(Base64Url.Pad(state)).Some?
    ensures Utf8.Decode(Base64Url.Decode(Base64Url.Pad(state)).value) == Some(text)
    ensures var user := VerifyState(state, key, now, wall, sign).value;
            IsSigned(text, user, issued, key, sign) && '.' !in user
    ensures issued <= Clock(now, wall) <= issued + MAX_AGE_SECONDS
  {
    text := Utf8.Decode(Base64Url.Decode(Base64Url.Pad(state)).value).value;
    var (user, rest) := SplitDot(text).value;
    var (issuedText, signature) := SplitDot(rest).value;
    issued := ReadInt(issuedText).value;
    SplitJoins(text);
    SplitJoins(rest);
    assert text == user + ("." + (issuedText + ("." + sign(StatePayload(user, issued), key))));
  }

  /** Without instants of their own, creation and verification read the wall clock: the
      state made at `t` verifies at `n` exactly as if they had been given. */
  lemma WallClockIsRead(user: string, key: string, t: int, n: int, sign: Signer)
    requires ValidSigner(sign) && t > 0 && n > 0
    ensures forall none, none' :: none in {None, Some(0)} && none' in {None, Some(0)} ==>
              var r := VerifyState(CreateState(user, key, none, t, sign), key, none', n, sign);
              && (r.Ok? <==> '.' !in user && t <= n <= t + 600)
              && (r.Ok? ==> r.value == user)
  {
    forall none, none' | none in {None, Some(0)} && none' in {None, Some(0)}
      ensures var r := VerifyState(CreateState(user, key, none, t, sign), key, none', n, sign);
              && (r.Ok? <==> '.' !in user && t <= n <= t + 600)
              && (r.Ok? ==> r.value == user)
    {
      TransportIsTransparent(user, none, key, none', t, n, sign);
      if '.' in user {
        DottedUserIsRefused(user, key, t, none', n, sign);
      } else {
        VerifyPlainUser(user, key, t, none', n, sign);
      }
    }
  }
}

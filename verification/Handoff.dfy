/**
 The account-deletion handoff: four dot-separated parts, the third a base64url JSON
 payload, the fourth a 32-byte authentication code of the first three. The two code
 functions and JSON parsing are parameters.
 */
module Handoff {
  import opened Wrappers
  import opened Text
  import opened Base64url

  const PREFIX := "arcticrss-account-deletion-handoff"
  const MAX_BYTES := 512
  const MAX_PAYLOAD_SEGMENT := 256
  const MIN_SECRET_BYTES := 32
  const MAX_LEGACY_LIFETIME := 900

  /** Milliseconds that a JavaScript Date can hold. */
  type DateMs = t: int | -8640000000000000 <= t <= 8640000000000000

  type Code = c: seq<Byte> | |c| == 32 witness seq(32, i => 0)

  datatype Version = V1 | V2

  datatype Payload = Payload(exp: int, tokenHash: string)

  datatype HandoffError = SecretTooShort | InvalidHandoff

  datatype Parsed = Parsed(encodedPayload: string, signature: seq<Byte>, version: Version)

  /**
   What the platform provides: the authentication code per version, keyed by a secret,
   and JSON parsing of UTF-8 bytes down to an object with these two fields, if it is one.
   */
  datatype Platform = Platform(
    sign: (Version, string, string) -> Code,
    parseJson: seq<Byte> -> Option<Payload>)

  function VersionText(v: Version): string {
    if v.V1? then "v1" else "v2"
  }

  function Seconds(t: DateMs): int {
    t / 1000
  }

  predicate IsHexDigit(c: char) {
    'a' <= c <= 'f' || '0' <= c <= '9'
  }

  predicate IsPayload(p: Payload) {
    |p.tokenHash| == 64 && (forall i :: 0 <= i < 64 ==> IsHexDigit(p.tokenHash[i])) && p.exp > 0
  }

  // ---------- JSON.stringify of a payload ----------

  function Decimal(n: nat): (r: string)
    ensures r != "" && forall i :: 0 <= i < |r| ==> '0' <= r[i] <= '9'
  {
    if n < 10 then ['0' + n as char] else Decimal(n / 10) + ['0' + (n % 10) as char]
  }

  function Stringify(p: Payload): string
    requires IsPayload(p)
  {
    "{\"exp\":" + Decimal(p.exp) + ",\"tokenHash\":\"" + p.tokenHash + "\"}"
  }

  /** UTF-8 bytes of ASCII text. */
  function AsciiBytes(s: string): (r: seq<Byte>)
    requires IsAscii(s)
    ensures |r| == |s|
  {
    seq(|s|, i requires 0 <= i < |s| => s[i] as int)
  }

  lemma StringifyIsAscii(p: Payload)
    requires IsPayload(p)
    ensures IsAscii(Stringify(p)) && |Stringify(p)| == 87 + |Decimal(p.exp)|
  {
  }

  function PayloadBytes(p: Payload): (r: seq<Byte>)
    requires IsPayload(p)
    ensures |r| == 87 + |Decimal(p.exp)|
  {
    StringifyIsAscii(p);
    AsciiBytes(Stringify(p))
  }

  /** The last second a Date can hold. */
  const MAX_SECONDS := 8640000000000

  /** JSON.parse inverts JSON.stringify on payloads that a Date can expire at, all exact as doubles. */
  ghost predicate ParsesPrinted(platform: Platform) {
    forall p: Payload :: IsPayload(p) && p.exp <= MAX_SECONDS ==> platform.parseJson(PayloadBytes(p)) == Some(p)
  }

  // ---------- Print, parse, verify ----------

  function Print(v: Version, encodedPayload: string, signature: seq<Byte>): string {
    Dotted(PREFIX, VersionText(v), encodedPayload, Encode(signature))
  }

  function SigningInput(v: Version, encodedPayload: string): string {
    PREFIX + "." + VersionText(v) + "." + encodedPayload
  }

  function SignatureOf(platform: Platform, secret: string, v: Version, encodedPayload: string): Code {
    platform.sign(v, SigningInput(v, encodedPayload), secret)
  }

  /** An invalid expiry date is None. */
  function Create(expiresAt: Option<DateMs>, tokenHash: string, now: DateMs, secret: string, platform: Platform):
    Result<string, HandoffError>
  {
    if Utf8Length(secret) < MIN_SECRET_BYTES then Err(SecretTooShort)
    else if expiresAt.None? then Err(InvalidHandoff)
    else
      var p := Payload(Seconds(expiresAt.value), tokenHash);
      if !IsPayload(p) || p.exp <= Seconds(now) then Err(InvalidHandoff)
      else
        var encoded := Encode(PayloadBytes(p));
        Ok(Print(V2, encoded, SignatureOf(platform, secret, V2, encoded)))
  }

  function ParseParts(parts: seq<string>): Result<Parsed, HandoffError> {
    if |parts| != 4 || parts[0] != PREFIX || (parts[1] != "v2" && parts[1] != "v1") then Err(InvalidHandoff)
    else if parts[2] == "" || parts[3] == "" || |parts[2]| > MAX_PAYLOAD_SEGMENT then Err(InvalidHandoff)
    else
      var signature := DecodeStrict(parts[3]);
      if DecodeStrict(parts[2]).None? || signature.None? || |signature.value| != 32 then Err(InvalidHandoff)
      else Ok(Parsed(parts[2], signature.value, if parts[1] == "v2" then V2 else V1))
  }

  function Parse(handoff: string): Result<Parsed, HandoffError> {
    if Utf8Length(handoff) > MAX_BYTES then Err(InvalidHandoff) else ParseParts(Split(handoff, '.'))
  }

  function ParsePayload(encodedPayload: string, platform: Platform): Result<Payload, HandoffError> {
    var bytes := DecodeStrict(encodedPayload);
    if bytes.None? then Err(InvalidHandoff)
    else
      var p := platform.parseJson(bytes.value);
      if p.None? || !IsPayload(p.value) then Err(InvalidHandoff) else Ok(p.value)
  }

  predicate Timely(p: Payload, v: Version, now: DateMs) {
    Seconds(now) < p.exp && (v.V1? ==> p.exp <= Seconds(now) + MAX_LEGACY_LIFETIME)
  }

  function Verify(handoff: string, now: DateMs, secret: string, platform: Platform): Result<Payload, HandoffError> {
    if Utf8Length(secret) < MIN_SECRET_BYTES then Err(SecretTooShort)
    else
      var parsed :- Parse(handoff);
      var p :- ParsePayload(parsed.encodedPayload, platform);
      if !Timely(p, parsed.version, now) then Err(InvalidHandoff)
      else if parsed.signature != SignatureOf(platform, secret, parsed.version, parsed.encodedPayload) then
        Err(InvalidHandoff)
      else Ok(p)
  }

  // ---------- Printing and parsing invert each other ----------

  /** Four dot-separated parts. */
  function Dotted(a: string, b: string, c: string, d: string): string {
    a + "." + b + "." + c + "." + d
  }

  lemma DottedIsJoin(a: string, b: string, c: string, d: string)
    ensures Join([a, b, c, d], ".") == Dotted(a, b, c, d)
  {
    JoinHead(c, [d], ".");
    assert [c] + [d] == [c, d];
    JoinHead(b, [c, d], ".");
    assert [b] + [c, d] == [b, c, d];
    JoinHead(a, [b, c, d], ".");
    assert [a] + [b, c, d] == [a, b, c, d];
    var dot := ".";
    assert a + dot + (b + dot + (c + dot + d)) == a + dot + b + dot + c + dot + d;
  }

  lemma DottedSplits(a: string, b: string, c: string, d: string)
    requires Lacks(a, '.') && Lacks(b, '.') && Lacks(c, '.') && Lacks(d, '.')
    ensures Split(Dotted(a, b, c, d), '.') == [a, b, c, d]
  {
    DottedIsJoin(a, b, c, d);
    hide Dotted, Lacks;
    SplitJoin([a, b, c, d], '.');
  }

  lemma DottedLength(a: string, b: string, c: string, d: string)
    requires IsAscii(a) && IsAscii(b) && IsAscii(c) && IsAscii(d)
    ensures Utf8Length(Dotted(a, b, c, d)) == |a| + |b| + |c| + |d| + 3
  {
    Utf8LengthAscii(Dotted(a, b, c, d));
  }

  /** Every accepted string equals the reprint of its own parsed parts. */
  lemma ParsedReprints(handoff: string)
    requires Parse(handoff).Ok?
    ensures var x := Parse(handoff).value;
            && Print(x.version, x.encodedPayload, x.signature) == handoff
            && |x.signature| == 32 && 0 < |x.encodedPayload| <= MAX_PAYLOAD_SEGMENT
            && exists b :: b != [] && x.encodedPayload == Encode(b)
  {
    var x, parts := Parse(handoff).value, Split(handoff, '.');
    JoinSplit(handoff, '.');
    StrictDecodesExactlyEncodings(parts[3], x.signature);
    StrictDecodesExactlyEncodings(parts[2], DecodeStrict(parts[2]).value);
    DottedIsJoin(PREFIX, VersionText(x.version), x.encodedPayload, Encode(x.signature));
    assert parts == [PREFIX, VersionText(x.version), x.encodedPayload, Encode(x.signature)];
  }

  lemma PrintLength(v: Version, encodedPayload: string, signature: seq<Byte>)
    requires IsAscii(encodedPayload)
    ensures Utf8Length(Print(v, encodedPayload, signature)) == 39 + |encodedPayload| + (4 * |signature| + 2) / 3
  {
    EncodingsAreAscii(signature);
    assert |PREFIX| == 34 && IsAscii(PREFIX);
    DottedLength(PREFIX, VersionText(v), encodedPayload, Encode(signature));
  }

  lemma PrintSplits(v: Version, b: seq<Byte>, signature: seq<Byte>)
    ensures Split(Print(v, Encode(b), signature), '.') == [PREFIX, VersionText(v), Encode(b), Encode(signature)]
  {
    EncodingsAreAscii(b);
    EncodingsAreAscii(signature);
    DottedSplits(PREFIX, VersionText(v), Encode(b), Encode(signature));
  }

  lemma PartsParse(v: Version, b: seq<Byte>, signature: seq<Byte>)
    requires b != [] && |Encode(b)| <= MAX_PAYLOAD_SEGMENT && |signature| == 32
    ensures ParseParts([PREFIX, VersionText(v), Encode(b), Encode(signature)]) == Ok(Parsed(Encode(b), signature, v))
  {
    hide Encode, DecodeStrict;
    StrictDecodesExactlyEncodings(Encode(b), b);
    StrictDecodesExactlyEncodings(Encode(signature), signature);
  }

  /** A canonical payload segment and a 32-byte signature parse back from their print. */
  lemma PrintedParses(v: Version, b: seq<Byte>, signature: seq<Byte>)
    requires b != [] && |Encode(b)| <= MAX_PAYLOAD_SEGMENT && |signature| == 32
    ensures Parse(Print(v, Encode(b), signature)) == Ok(Parsed(Encode(b), signature, v))
  {
    hide Encode, ParseParts, Print, Split, IsAscii;
    EncodingsAreAscii(b);
    PrintLength(v, Encode(b), signature);
    PrintSplits(v, b, signature);
    PartsParse(v, b, signature);
  }

  // ---------- Main results ----------

  lemma {:induction false} DecimalLength(n: nat, digits: nat, bound: nat)
    requires n < bound && bound == Power10(digits) && 0 < digits
    ensures |Decimal(n)| <= digits
    decreases digits
  {
    if n >= 10 {
      if digits == 1 {
        assert false;
      } else {
        DecimalLength(n / 10, digits - 1, Power10(digits - 1));
      }
    }
  }

  function Power10(k: nat): nat {
    if k == 0 then 1 else 10 * Power10(k - 1)
  }

  lemma PayloadFits(p: Payload)
    requires IsPayload(p) && p.exp <= MAX_SECONDS
    ensures |Encode(PayloadBytes(p))| <= 134
  {
    assert Power10(13) == 10000000000000 by {
      assert Power10(4) == 10000;
      assert Power10(8) == 100000000;
      assert Power10(12) == 1000000000000;
    }
    DecimalLength(p.exp, 13, Power10(13));
  }

  /** A created handoff is 216 characters at most, far inside both limits. */
  lemma CreatedFits(expiresAt: Option<DateMs>, tokenHash: string, now: DateMs, secret: string, platform: Platform)
    requires Create(expiresAt, tokenHash, now, secret, platform).Ok?
    ensures var handoff := Create(expiresAt, tokenHash, now, secret, platform).value;
            && Utf8Length(handoff) <= 216 <= MAX_BYTES
            && Parse(handoff).Ok?
            && Parse(handoff).value.version == V2
            && |Parse(handoff).value.encodedPayload| <= 134 <= MAX_PAYLOAD_SEGMENT
  {
    var p := Payload(Seconds(expiresAt.value), tokenHash);
    var b := PayloadBytes(p);
    var signature := SignatureOf(platform, secret, V2, Encode(b));
    PayloadFits(p);
    EncodingsAreAscii(b);
    PrintLength(V2, Encode(b), signature);
    PrintedParses(V2, b, signature);
  }

  /** Verifying a created handoff returns its payload exactly when now is before its expiry second. */
  lemma CreatedVerifies(
    expiresAt: Option<DateMs>, tokenHash: string, created: DateMs, secret: string, platform: Platform, now: DateMs)
    requires ParsesPrinted(platform) && Create(expiresAt, tokenHash, created, secret, platform).Ok?
    ensures var p := Payload(Seconds(expiresAt.value), tokenHash);
            var handoff := Create(expiresAt, tokenHash, created, secret, platform).value;
            Verify(handoff, now, secret, platform) ==
              if now / 1000 < expiresAt.value / 1000 then Ok(p) else Err(InvalidHandoff)
  {
    var p := Payload(Seconds(expiresAt.value), tokenHash);
    var b := PayloadBytes(p);
    PayloadFits(p);
    PrintedParses(V2, b, SignatureOf(platform, secret, V2, Encode(b)));
    StrictDecodesExactlyEncodings(Encode(b), b);
  }

  /** Sixty-four lower-case hexadecimal digits. */
  predicate IsHash(h: string) {
    |h| == 64 && forall i :: 0 <= i < 64 ==> h[i] in "0123456789abcdef"
  }

  lemma PayloadsSpelledOut(p: Payload)
    ensures IsPayload(p) <==> IsHash(p.tokenHash) && p.exp >= 1
  {
    assert forall c: char :: c in "0123456789abcdef" <==> IsHexDigit(c);
  }

  /** A handoff is created exactly for a valid hash and an expiry after now, with a secret of 32 bytes. */
  lemma CreatedExactly(expiresAt: Option<DateMs>, tokenHash: string, now: DateMs, secret: string, platform: Platform)
    ensures Create(expiresAt, tokenHash, now, secret, platform) == Err(SecretTooShort) <==> Utf8Length(secret) < 32
    ensures Create(expiresAt, tokenHash, now, secret, platform).Ok? <==>
      && Utf8Length(secret) >= 32 && expiresAt.Some? && IsHash(tokenHash)
      && expiresAt.value >= 1000 && expiresAt.value / 1000 > now / 1000
  {
    if expiresAt.Some? {
      PayloadsSpelledOut(Payload(expiresAt.value / 1000, tokenHash));
    }
  }

  /** The secret is checked first, whatever the handoff. */
  lemma ShortSecretsRefused(handoff: string, now: DateMs, secret: string, platform: Platform)
    ensures Verify(handoff, now, secret, platform) == Err(SecretTooShort) <==> Utf8Length(secret) < 32
  {
  }

  /** The one string that carries given payload bytes under a version. */
  function Carrier(v: Version, b: seq<Byte>, secret: string, platform: Platform): string {
    var head := "arcticrss-account-deletion-handoff." + (if v == V1 then "v1" else "v2") + "." + Encode(b);
    head + "." + Encode(platform.sign(v, head, secret))
  }

  lemma CarrierIsPrinted(v: Version, b: seq<Byte>, secret: string, platform: Platform)
    ensures Carrier(v, b, secret, platform) == Print(v, Encode(b), SignatureOf(platform, secret, v, Encode(b)))
  {
    hide Encode;
    var version := VersionText(v);
    assert PREFIX + "." == "arcticrss-account-deletion-handoff.";
    assert SigningInput(v, Encode(b)) == "arcticrss-account-deletion-handoff." + version + "." + Encode(b);
  }

  /** What is created is the carrier of the payload's JSON under version 2. */
  lemma CreatedIsCarrier(expiresAt: Option<DateMs>, tokenHash: string, now: DateMs, secret: string, platform: Platform)
    requires Create(expiresAt, tokenHash, now, secret, platform).Ok?
    ensures Create(expiresAt, tokenHash, now, secret, platform).value ==
      Carrier(V2, PayloadBytes(Payload(expiresAt.value / 1000, tokenHash)), secret, platform)
  {
    CarrierIsPrinted(V2, PayloadBytes(Payload(expiresAt.value / 1000, tokenHash)), secret, platform);
  }

  /** A string, the version and the bytes it carries, acceptable now. */
  ghost predicate Carries(
    handoff: string, v: Version, b: seq<Byte>, p: Payload, now: DateMs, secret: string, platform: Platform)
  {
    && handoff == Carrier(v, b, secret, platform)
    && b != [] && |Encode(b)| <= 256
    && platform.parseJson(b) == Some(p) && IsHash(p.tokenHash) && p.exp >= 1
    && now / 1000 < p.exp && (v == V1 ==> p.exp <= now / 1000 + 15 * 60)
  }

  lemma CarrierIsAccepted(
    handoff: string, v: Version, b: seq<Byte>, p: Payload, now: DateMs, secret: string, platform: Platform)
    requires Utf8Length(secret) >= 32 && Carries(handoff, v, b, p, now, secret, platform)
    ensures Verify(handoff, now, secret, platform) == Ok(p)
  {
    hide Encode, DecodeStrict, Parse, Carrier, Print, Utf8Length, IsPayload, IsHash;
    PayloadsSpelledOut(p);
    CarrierIsPrinted(v, b, secret, platform);
    PrintedParses(v, b, SignatureOf(platform, secret, v, Encode(b)));
    StrictDecodesExactlyEncodings(Encode(b), b);
  }

  lemma AcceptedCarries(handoff: string, now: DateMs, secret: string, platform: Platform, p: Payload)
    returns (v: Version, b: seq<Byte>)
    requires Verify(handoff, now, secret, platform) == Ok(p)
    ensures Carries(handoff, v, b, p, now, secret, platform)
  {
    hide Encode, DecodeStrict, Parse, Carrier, Print, Utf8Length, IsPayload, IsHash;
    PayloadsSpelledOut(p);
    var x := Parse(handoff).value;
    ParsedReprints(handoff);
    b := DecodeStrict(x.encodedPayload).value;
    v := x.version;
    StrictDecodesExactlyEncodings(x.encodedPayload, b);
    CarrierIsPrinted(v, b, secret, platform);
  }

  /**
   What is accepted, exactly: the carriers of payload bytes that parse to a valid, timely
   payload and whose segment is short enough; version 1 at most a quarter of an hour ahead.
   */
  lemma AcceptedExactly(handoff: string, now: DateMs, secret: string, platform: Platform, p: Payload)
    requires Utf8Length(secret) >= 32
    ensures Verify(handoff, now, secret, platform) == Ok(p) <==>
            exists v, b :: Carries(handoff, v, b, p, now, secret, platform)
  {
    hide Verify, Carries;
    if Verify(handoff, now, secret, platform) == Ok(p) {
      var v, b := AcceptedCarries(handoff, now, secret, platform, p);
    }
    forall v, b | Carries(handoff, v, b, p, now, secret, platform)
      ensures Verify(handoff, now, secret, platform) == Ok(p)
    {
      CarrierIsAccepted(handoff, v, b, p, now, secret, platform);
    }
  }

  // ---------- The JSON hypothesis can be met ----------

  /** The number that decimal digits stand for. */
  function NumberOf(digits: string): int {
    if digits == "" then 0
    else 10 * NumberOf(digits[..|digits| - 1]) + (digits[|digits| - 1] as int - '0' as int)
  }

  lemma {:induction false} DecimalIsNumber(n: nat)
    ensures NumberOf(Decimal(n)) == n
  {
    var d := Decimal(n);
    if n < 10 {
      assert d[..0] == "";
    } else {
      DecimalIsNumber(n / 10);
      assert d[..|d| - 1] == Decimal(n / 10);
    }
  }

  /** Digits, a non-digit, and a rest of fixed length determine each other. */
  lemma DigitsThenRest(a: string, b: string, x: string, y: string)
    requires forall i :: 0 <= i < |a| ==> '0' <= a[i] <= '9'
    requires forall i :: 0 <= i < |b| ==> '0' <= b[i] <= '9'
    requires x != "" && y != "" && !('0' <= x[0] <= '9') && !('0' <= y[0] <= '9')
    requires a + x == b + y
    ensures a == b && x == y
  {
    assert (a + x)[|a|] == x[0] && (b + y)[|b|] == y[0];
    assert a == (a + x)[..|a|] && b == (b + y)[..|b|];
    assert x == (a + x)[|a|..] && y == (b + y)[|b|..];
  }

  lemma StringifyInjective(p: Payload, q: Payload)
    requires IsPayload(p) && IsPayload(q) && Stringify(p) == Stringify(q)
    ensures p == q
  {
    var head, mid, tail := "{\"exp\":", ",\"tokenHash\":\"", "\"}";
    var x, y := mid + p.tokenHash + tail, mid + q.tokenHash + tail;
    hide Decimal;
    assert Stringify(p) == head + (Decimal(p.exp) + x);
    assert Stringify(q) == head + (Decimal(q.exp) + y);
    assert Stringify(p)[|head|..] == Decimal(p.exp) + x && Stringify(q)[|head|..] == Decimal(q.exp) + y;
    DigitsThenRest(Decimal(p.exp), Decimal(q.exp), x, y);
    assert p.tokenHash == x[|mid|..|mid| + 64] && q.tokenHash == y[|mid|..|mid| + 64];
    DecimalIsNumber(p.exp);
    DecimalIsNumber(q.exp);
  }

  ghost function ParseByChoice(b: seq<Byte>): Option<Payload> {
    if exists p: Payload :: IsPayload(p) && PayloadBytes(p) == b then
      var p: Payload :| IsPayload(p) && PayloadBytes(p) == b;
      Some(p)
    else None
  }

  lemma ChoiceInvertsPrinter(p: Payload)
    requires IsPayload(p)
    ensures ParseByChoice(PayloadBytes(p)) == Some(p)
  {
    var q := ParseByChoice(PayloadBytes(p)).value;
    StringifyIsAscii(p);
    StringifyIsAscii(q);
    assert Stringify(p) == Stringify(q) by {
      forall i | 0 <= i < |Stringify(p)|
        ensures Stringify(p)[i] == Stringify(q)[i]
      {
        assert PayloadBytes(p)[i] == PayloadBytes(q)[i];
      }
    }
    StringifyInjective(p, q);
  }

  /** Different payloads print differently, so platforms as assumed exist, with any authentication codes. */
  lemma ParsesPrintedIsPossible(sign: (Version, string, string) -> Code) returns (platform: Platform)
    ensures platform.sign == sign && ParsesPrinted(platform)
  {
    platform := Platform(sign, b => ParseByChoice(b));
    forall p: Payload | IsPayload(p)
      ensures platform.parseJson(PayloadBytes(p)) == Some(p)
    {
      ChoiceInvertsPrinter(p);
    }
  }
}

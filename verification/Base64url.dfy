/**
 Base64url without padding, section 5 of RFC 4648. The decoder ignores stray low
 bits and a dangling last symbol as Node's does; the strict decoder accepts only what
 re-encodes to itself.
 */
module Base64url {
  import opened Wrappers
  import opened Text

  type Byte = b: int | 0 <= b < 256
  type Sextet = v: int | 0 <= v < 64

  function Symbol(v: Sextet): char {
    if v < 26 then 'A' + v as char
    else if v < 52 then 'a' + (v - 26) as char
    else if v < 62 then '0' + (v - 52) as char
    else if v == 62 then '-' else '_'
  }

  predicate IsSymbol(c: char) {
    'A' <= c <= 'Z' || 'a' <= c <= 'z' || '0' <= c <= '9' || c == '-' || c == '_'
  }

  function Value(c: char): (v: Sextet)
    requires IsSymbol(c)
    ensures Symbol(v) == c
  {
    if 'A' <= c <= 'Z' then (c - 'A') as int
    else if 'a' <= c <= 'z' then (c - 'a') as int + 26
    else if '0' <= c <= '9' then (c - '0') as int + 52
    else if c == '-' then 62 else 63
  }

  lemma ValueOfSymbol(v: Sextet)
    ensures IsSymbol(Symbol(v)) && Value(Symbol(v)) == v
  {
  }

  function ToSextets(b: seq<Byte>): (r: seq<Sextet>)
    ensures |r| == (4 * |b| + 2) / 3
  {
    if |b| == 0 then []
    else if |b| == 1 then [b[0] / 4, b[0] % 4 * 16]
    else if |b| == 2 then [b[0] / 4, b[0] % 4 * 16 + b[1] / 16, b[1] % 16 * 4]
    else [b[0] / 4, b[0] % 4 * 16 + b[1] / 16, b[1] % 16 * 4 + b[2] / 64, b[2] % 64] + ToSextets(b[3..])
  }

  function FromSextets(s: seq<Sextet>): seq<Byte> {
    if |s| < 2 then []
    else if |s| == 2 then [First(s[0], s[1])]
    else if |s| == 3 then [First(s[0], s[1]), Second(s[1], s[2])]
    else [First(s[0], s[1]), Second(s[1], s[2]), Third(s[2], s[3])] + FromSextets(s[4..])
  }

  function First(x: int, y: int): Byte
    requires 0 <= x < 64 && 0 <= y < 64
  {
    x * 4 + y / 16
  }

  function Second(x: int, y: int): Byte
    requires 0 <= x < 64 && 0 <= y < 64
  {
    x % 16 * 16 + y / 4
  }

  function Third(x: int, y: int): Byte
    requires 0 <= x < 64 && 0 <= y < 64
  {
    x % 4 * 64 + y
  }

  function Symbols(s: seq<Sextet>): (r: string)
    ensures |r| == |s|
    ensures forall i :: 0 <= i < |r| ==> IsSymbol(r[i])
  {
    if s == [] then ""
    else
      ValueOfSymbol(s[0]);
      [Symbol(s[0])] + Symbols(s[1..])
  }

  predicate AllSymbols(value: string) {
    forall i :: 0 <= i < |value| ==> IsSymbol(value[i])
  }

  function Values(value: string): (r: seq<Sextet>)
    requires AllSymbols(value)
  {
    if value == "" then [] else [Value(value[0])] + Values(value[1..])
  }

  function Encode(b: seq<Byte>): (r: string)
    ensures |r| == (4 * |b| + 2) / 3 && AllSymbols(r)
  {
    Symbols(ToSextets(b))
  }

  function Decode(value: string): seq<Byte>
    requires AllSymbols(value)
  {
    FromSextets(Values(value))
  }

  /** The segment decoder of the handoff: a non-empty canonical segment or nothing. */
  function DecodeStrict(value: string): Option<seq<Byte>> {
    if value == "" || !AllSymbols(value) then None
    else
      var decoded := Decode(value);
      if decoded == [] || Encode(decoded) != value then None else Some(decoded)
  }

  lemma {:induction false} SextetsRoundTrip(b: seq<Byte>)
    ensures FromSextets(ToSextets(b)) == b
    decreases |b|
  {
    if |b| >= 3 {
      SextetsRoundTrip(b[3..]);
      assert ToSextets(b)[4..] == ToSextets(b[3..]);
      assert b == [b[0], b[1], b[2]] + b[3..];
    }
  }

  lemma {:induction false} SymbolsRoundTrip(s: seq<Sextet>)
    ensures Values(Symbols(s)) == s
  {
    if s != [] {
      ValueOfSymbol(s[0]);
      SymbolsRoundTrip(s[1..]);
      assert Symbols(s)[1..] == Symbols(s[1..]);
    }
  }

  /** The strict decoder accepts exactly the encodings of non-empty byte strings, and inverts them. */
  lemma StrictDecodesExactlyEncodings(value: string, b: seq<Byte>)
    ensures DecodeStrict(value) == Some(b) <==> b != [] && value == Encode(b)
  {
    if b != [] && value == Encode(b) {
      SymbolsRoundTrip(ToSextets(b));
      SextetsRoundTrip(b);
    }
  }

  lemma EncodingsAreAscii(b: seq<Byte>)
    ensures IsAscii(Encode(b)) && Lacks(Encode(b), '.')
  {
  }
}

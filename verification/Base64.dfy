/** The two Base64 gates: decodeAbiBase64 in wasm/codec.ts and binary in wasm/native.ts. */
module Base64 {
  import opened Common

  const MAX_BINARY_BYTES := 0x80000

  datatype CodecError = InputTooLarge | InvalidBase64

  // ---- the encoding of RFC 4648, section 4 ----

  function Digit(v: int): char
    requires 0 <= v < 64
  {
    if v < 26 then (v + 65) as char else if v < 52 then (v + 71) as char else if v < 62 then (v - 4) as char
    else if v == 62 then '+' else '/'
  }

  predicate IsDigit(c: char) { 'A' <= c <= 'Z' || 'a' <= c <= 'z' || '0' <= c <= '9' || c == '+' || c == '/' }

  function Undigit(c: char): (v: int)
    requires IsDigit(c)
    ensures 0 <= v < 64 && Digit(v) == c
  {
    if 'A' <= c <= 'Z' then c as int - 65 else if 'a' <= c <= 'z' then c as int - 71
    else if '0' <= c <= '9' then c as int + 4 else if c == '+' then 62 else 63
  }

  lemma DigitBack(v: int)
    requires 0 <= v < 64
    ensures IsDigit(Digit(v)) && Undigit(Digit(v)) == v && Digit(v) != '='
  {
  }

  function Group(a: byte, b: byte, c: byte): (g: string)
    ensures |g| == 4
  {
    [Digit(a / 4), Digit(a % 4 * 16 + b / 16), Digit(b % 16 * 4 + c / 64), Digit(c % 64)]
  }

  function Encode(b: Bytes): string {
    if b == [] then ""
    else if |b| == 1 then Group(b[0], 0, 0)[..2] + "=="
    else if |b| == 2 then Group(b[0], b[1], 0)[..3] + "="
    else Group(b[0], b[1], b[2]) + Encode(b[3..])
  }

  // ---- what the gates let through ----

  /** The pattern of wasm/codec.ts:31. */
  predicate Strict(s: string) {
    if |s| < 4 then s == ""
    else if |s| == 4 && s[3] == '=' then IsDigit(s[0]) && IsDigit(s[1]) && (IsDigit(s[2]) || s[2] == '=')
    else IsDigit(s[0]) && IsDigit(s[1]) && IsDigit(s[2]) && IsDigit(s[3]) && Strict(s[4..])
  }

  /** The pattern of wasm/native.ts:320: digits, then at most two signs of padding. */
  ghost predicate Loose(s: string) { exists n :: |s| - 2 <= n <= |s| && Padded(s, n) }

  predicate Padded(s: string, n: int) {
    0 <= n <= |s| && (forall i | 0 <= i < n :: IsDigit(s[i])) && (forall i | n <= i < |s| :: s[i] == '=')
  }

  /** decodeBase64 on what the gates let through: unused trailing bits are ignored. */
  function Decode(s: string): Bytes
    requires Strict(s)
  {
    if s == "" then [] else
    var x, y := Undigit(s[0]), Undigit(s[1]);
    var first: byte := x * 4 + y / 16;
    if s[2] == '=' then [first] else
    var z := Undigit(s[2]);
    var second: byte := y % 16 * 16 + z / 4;
    if s[3] == '=' then [first, second] else
    [first, second, z % 4 * 64 + Undigit(s[3])] + Decode(s[4..])
  }

  function EncodedLength(n: int): int { (n + 2) / 3 * 4 }

  function DecodeAbi(s: string): Result<Bytes, CodecError> {
    if |s| % 4 != 0 || !Strict(s) || Encode(Decode(s)) != s then Err(InvalidBase64)
    else if |Decode(s)| > MAX_BINARY_BYTES then Err(InputTooLarge)
    else Ok(Decode(s))
  }

  function EncodeAbi(b: Bytes): Result<string, CodecError> {
    if |b| > MAX_BINARY_BYTES then Err(InputTooLarge) else Ok(Encode(b))
  }

  ghost function Binary(s: string, maxBytes: nat): Result<Bytes, CodecError> {
    if |s| > EncodedLength(maxBytes) then Err(InputTooLarge)
    else if |s| % 4 != 0 || !Loose(s) then Err(InvalidBase64) else
    PatternsAgree(s);
    if Encode(Decode(s)) != s then Err(InvalidBase64)
    else if |Decode(s)| > maxBytes then Err(InputTooLarge)
    else Ok(Decode(s))
  }

  lemma {:induction false} StrictPads(s: string) returns (n: int)
    requires Strict(s)
    ensures |s| - 2 <= n <= |s| && Padded(s, n) && |s| % 4 == 0
    decreases |s|
  {
    if |s| < 4 {
      n := 0;
    } else if |s| == 4 && s[3] == '=' {
      n := if s[2] == '=' then 2 else 3;
    } else {
      var m := StrictPads(s[4..]);
      n := m + 4;
      assert forall i | 4 <= i < |s| :: s[i] == s[4..][i - 4];
    }
  }

  lemma {:induction false} PadsStrict(s: string, n: int)
    requires |s| - 2 <= n && Padded(s, n) && |s| % 4 == 0
    ensures Strict(s)
    decreases |s|
  {
    if |s| > 4 || (|s| == 4 && n == 4) {
      assert Padded(s[4..], n - 4);
      PadsStrict(s[4..], n - 4);
    }
  }

  /** On lengths divisible by four the two patterns accept the same texts. */
  lemma PatternsAgree(s: string)
    ensures |s| % 4 == 0 && Loose(s) <==> Strict(s)
  {
    if Strict(s) {
      var n := StrictPads(s);
    }
    if |s| % 4 == 0 && Loose(s) {
      var n :| |s| - 2 <= n <= |s| && Padded(s, n);
      PadsStrict(s, n);
    }
  }

  lemma GroupBack(a: byte, b: byte, c: byte)
    ensures var g := Group(a, b, c);
      && (forall i | 0 <= i < 4 :: IsDigit(g[i]) && g[i] != '=')
      && a == Undigit(g[0]) * 4 + Undigit(g[1]) / 16
      && b == Undigit(g[1]) % 16 * 16 + Undigit(g[2]) / 4
      && c == Undigit(g[2]) % 4 * 64 + Undigit(g[3])
  {
    var x, y, z := Sextets(a, b, c);
    hide Digit, Undigit, IsDigit;
    DigitBack(x);
    DigitBack(y);
    DigitBack(z);
    DigitBack(c % 64);
  }

  lemma Sextets(a: byte, b: byte, c: byte) returns (x: int, y: int, z: int)
    ensures x == a / 4 && y == a % 4 * 16 + b / 16 && z == b % 16 * 4 + c / 64 && 0 <= x < 64 && 0 <= y < 64 && 0 <= z < 64
    ensures a == x * 4 + y / 16 && b == y % 16 * 16 + z / 4 && c == z % 4 * 64 + c % 64
  {
    x, y, z := a / 4, a % 4 * 16 + b / 16, b % 16 * 4 + c / 64;
  }

  /** Every encoding passes the gates, decodes to its bytes and has the announced length. */
  lemma {:induction false} RoundTrip(b: Bytes)
    ensures Strict(Encode(b)) && Decode(Encode(b)) == b
    ensures |Encode(b)| == EncodedLength(|b|)
    decreases |b|
  {
    hide Digit, Undigit, IsDigit, Group;
    if |b| == 1 {
      GroupBack(b[0], 0, 0);
    } else if |b| == 2 {
      GroupBack(b[0], b[1], 0);
    } else if |b| > 2 {
      RoundTrip(b[3..]);
      MoreBack(b);
    }
  }

  /** The three bytes of a full group. */
  function Ungroup(g: string): Bytes
    requires |g| == 4 && forall i | 0 <= i < 4 :: IsDigit(g[i])
  {
    [Undigit(g[0]) * 4 + Undigit(g[1]) / 16, Undigit(g[1]) % 16 * 16 + Undigit(g[2]) / 4, Undigit(g[2]) % 4 * 64 + Undigit(g[3])]
  }

  predicate FullGroup(g: string) { |g| == 4 && forall i | 0 <= i < 4 :: IsDigit(g[i]) && g[i] != '=' }

  lemma UngroupGroup(a: byte, b: byte, c: byte)
    ensures FullGroup(Group(a, b, c)) && Ungroup(Group(a, b, c)) == [a, b, c]
  {
    hide Digit, Undigit, IsDigit, Group;
    GroupBack(a, b, c);
  }

  lemma DecodeGroup(g: string, rest: string)
    requires FullGroup(g) && Strict(rest)
    ensures Strict(g + rest) && Decode(g + rest) == Ungroup(g) + Decode(rest)
  {
    hide IsDigit, Undigit;
    assert (g + rest)[4..] == rest;
  }

  lemma LengthOn(n: int)
    ensures EncodedLength(n) == 4 + EncodedLength(n - 3)
  {
  }

  lemma MoreBack(b: Bytes)
    requires |b| > 2
    requires Strict(Encode(b[3..])) && Decode(Encode(b[3..])) == b[3..] && |Encode(b[3..])| == EncodedLength(|b| - 3)
    ensures Strict(Encode(b)) && Decode(Encode(b)) == b && |Encode(b)| == EncodedLength(|b|)
  {
    hide Digit, Undigit, IsDigit, Group, Strict, Decode, Ungroup, FullGroup, EncodedLength;
    UngroupGroup(b[0], b[1], b[2]);
    DecodeGroup(Group(b[0], b[1], b[2]), Encode(b[3..]));
    LengthOn(|b|);
    assert b == [b[0], b[1], b[2]] + b[3..];
  }

  /** The re-encoding check accepts exactly the image of the encoder. */
  lemma Canonical(s: string, b: Bytes)
    ensures s == Encode(b) <==> Strict(s) && Encode(Decode(s)) == s && Decode(s) == b
  {
    RoundTrip(b);
  }

  lemma LengthGrows(m: int, n: int)
    requires 0 <= m <= n
    ensures EncodedLength(m) <= EncodedLength(n)
  {
  }

  // ---- main results ----

  /** binary() accepts exactly the encodings of at most `maxBytes` bytes: the early length test never turns one away. */
  lemma BinaryAccepts(s: string, maxBytes: nat, b: Bytes)
    ensures Binary(s, maxBytes) == Ok(b) <==> s == Encode(b) && |b| <= maxBytes
  {
    Canonical(s, b);
    RoundTrip(b);
    PatternsAgree(s);
    if |b| <= maxBytes { LengthGrows(|b|, maxBytes); }
  }

  /** Which of its two errors binary() reports. */
  lemma BinaryRejects(s: string, maxBytes: nat)
    ensures Binary(s, maxBytes) == Err(InputTooLarge) <==>
      |s| > EncodedLength(maxBytes) || exists b :: s == Encode(b) && |b| > maxBytes
    ensures Binary(s, maxBytes) == Err(InvalidBase64) <==>
      |s| <= EncodedLength(maxBytes) && forall b :: s != Encode(b)
  {
    PatternsAgree(s);
    forall b ensures s == Encode(b) <==> Strict(s) && Encode(Decode(s)) == s && Decode(s) == b {
      Canonical(s, b);
    }
    if Strict(s) { assert s == Encode(Decode(s)) || Encode(Decode(s)) != s; }
  }

  /** The two gates accept the same texts with the same bytes. */
  lemma GatesAgree(s: string, b: Bytes)
    ensures DecodeAbi(s) == Ok(b) <==> s == Encode(b) && |b| <= MAX_BINARY_BYTES
    ensures DecodeAbi(s) == Ok(b) <==> Binary(s, MAX_BINARY_BYTES) == Ok(b)
    ensures DecodeAbi(s) == Ok(b) <==> EncodeAbi(b) == Ok(s)
  {
    Canonical(s, b);
    PatternsAgree(s);
    BinaryAccepts(s, MAX_BINARY_BYTES, b);
  }
}

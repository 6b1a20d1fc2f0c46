/** TextEncoder and TextDecoder on well-formed text: UTF-8 (RFC 3629), replacement characters and the byte order mark. */
module Utf8 {
  import opened Common

  const REPLACEMENT: char := 0xFFFD as char
  const BOM: char := 0xFEFF as char

  function EncodeChar(c: char): (r: Bytes)
    ensures 1 <= |r| <= 4
  {
    var n := c as int;
    var q := n / 0x40;
    var p := q / 0x40;
    if n < 0x80 then [n]
    else if n < 0x800 then [0xC0 + q, Tail(n)]
    else if n < 0x10000 then [0xE0 + p, Tail(q), Tail(n)]
    else [0xF0 + p / 0x40, Tail(p), Tail(q), Tail(n)]
  }

  function Tail(n: int): (r: byte)
    ensures 0x80 <= r < 0xC0 && r % 0x40 == n % 0x40
  {
    0x80 + n % 0x40
  }

  function Encode(s: string): Bytes { if s == "" then [] else EncodeChar(s[0]) + Encode(s[1..]) }

  function Two(x: int, y: int): int { x % 0x20 * 0x40 + y % 0x40 }
  function Three(x: int, y: int, z: int): int { x % 0x10 * 0x1000 + y % 0x40 * 0x40 + z % 0x40 }
  function Four(x: int, y: int, z: int, w: int): int { x % 8 * 0x40000 + y % 0x40 * 0x1000 + z % 0x40 * 0x40 + w % 0x40 }

  predicate Between(b: Bytes, i: nat, low: int, high: int) { i < |b| && low <= b[i] <= high }

  /** The next character of a non-empty input and the bytes it takes; an ill-formed start becomes U+FFFD. */
  function Next(b: Bytes): (r: (char, nat))
    requires b != []
    ensures 1 <= r.1 <= |b|
  {
    var lead := b[0];
    if lead < 0x80 then (lead as char, 1)
    else if lead < 0xC2 || lead > 0xF4 then (REPLACEMENT, 1)
    else if lead < 0xE0 then
      if !Between(b, 1, 0x80, 0xBF) then (REPLACEMENT, 1) else (Two(lead, b[1]) as char, 2)
    else if !Between(b, 1, if lead == 0xE0 then 0xA0 else if lead == 0xF0 then 0x90 else 0x80,
                           if lead == 0xED then 0x9F else if lead == 0xF4 then 0x8F else 0xBF) then (REPLACEMENT, 1)
    else if !Between(b, 2, 0x80, 0xBF) then (REPLACEMENT, 2)
    else if lead < 0xF0 then (Three(lead, b[1], b[2]) as char, 3)
    else if !Between(b, 3, 0x80, 0xBF) then (REPLACEMENT, 3)
    else (Four(lead, b[1], b[2], b[3]) as char, 4)
  }

  function Chars(b: Bytes): string
    decreases |b|
  {
    if b == [] then "" else var (c, n) := Next(b); [c] + Chars(b[n..])
  }

  /** TextDecoder.decode with its defaults. */
  function Decode(b: Bytes): string { if [0xEF, 0xBB, 0xBF] <= b then Chars(b[3..]) else Chars(b) }

  lemma Sixes(n: int, q: int, p: int)
    requires 0 <= n < 0x110000 && q == n / 0x40 && p == q / 0x40
    ensures n == q * 0x40 + n % 0x40 && q == p * 0x40 + q % 0x40 && p == p / 0x40 * 0x40 + p % 0x40 && p / 0x40 <= 4
    ensures n < 0x800 ==> (0xC0 + q) % 0x20 == q
    ensures n < 0x10000 ==> (0xE0 + p) % 0x10 == p
    ensures (0xF0 + p / 0x40) % 8 == p / 0x40
  {
  }

  lemma NextOfChar(c: char, rest: Bytes)
    ensures Next(EncodeChar(c) + rest) == (c, |EncodeChar(c)|)
  {
    var n := c as int;
    Sixes(n, n / 0x40, n / 0x40 / 0x40);
    hide Tail;
    var e, b := EncodeChar(c), EncodeChar(c) + rest;
    assert forall i | 0 <= i < |e| :: b[i] == e[i];
    if n < 0x80 {
    } else if n < 0x800 {
      assert Two(b[0], b[1]) == n;
    } else if n < 0x10000 {
      assert Three(b[0], b[1], b[2]) == n;
    } else {
      assert Four(b[0], b[1], b[2], b[3]) == n;
    }
  }

  lemma {:induction false} CharsOfEncoded(s: string)
    ensures Chars(Encode(s)) == s
    decreases |s|
  {
    if s != "" {
      NextOfChar(s[0], Encode(s[1..]));
      CharsOfEncoded(s[1..]);
      hide EncodeChar, Next;
      var b := Encode(s);
      assert b[|EncodeChar(s[0])|..] == Encode(s[1..]);
      assert s == [s[0]] + s[1..];
    }
  }

  predicate StartsWithBom(s: string) { s != "" && s[0] == BOM }

  lemma BomFirst(s: string)
    ensures [0xEF, 0xBB, 0xBF] <= Encode(s) <==> StartsWithBom(s)
  {
    if s != "" {
      var b := Encode(s);
      assert b[..|EncodeChar(s[0])|] == EncodeChar(s[0]);
      if [0xEF, 0xBB, 0xBF] <= b {
        assert b[0] == 0xEF && b[1] == 0xBB && b[2] == 0xBF;
        assert EncodeChar(s[0])[0] == 0xEF && |EncodeChar(s[0])| == 3;
        assert b[1] == EncodeChar(s[0])[1] && b[2] == EncodeChar(s[0])[2];
      }
    }
  }

  /** Decoding what was encoded gives the text back, less a leading byte order mark. */
  lemma RoundTrip(s: string)
    ensures Decode(Encode(s)) == if StartsWithBom(s) then s[1..] else s
  {
    BomFirst(s);
    CharsOfEncoded(s);
    if StartsWithBom(s) {
      assert EncodeChar(BOM) == [0xEF, 0xBB, 0xBF];
      assert Encode(s)[3..] == Encode(s[1..]);
      CharsOfEncoded(s[1..]);
    }
  }

  /** The number whose bits are the low `bits` of the first octet and six of each that follows. */
  function Joined(lead: int, rest: seq<int>): int
    decreases |rest|
  {
    if rest == [] then lead else Joined(lead, rest[..|rest| - 1]) * 0x40 + rest[|rest| - 1] % 0x40
  }

  lemma JoinedFrom(lead: int, x: int, y: int, z: int)
    ensures Joined(lead, [x]) == lead * 0x40 + x % 0x40
    ensures Joined(lead, [x, y]) == lead * 0x1000 + x % 0x40 * 0x40 + y % 0x40
    ensures Joined(lead, [x, y, z]) == lead * 0x40000 + x % 0x40 * 0x1000 + y % 0x40 * 0x40 + z % 0x40
  {
    assert [x][..0] == [] && [x, y][..1] == [x] && [x, y, z][..2] == [x, y];
  }

  /** The octets of a character (RFC 3629, section 3): as many as its number needs, with their leading bits. */
  lemma EncodeCharMeans(c: char)
    ensures var n, b := c as int, EncodeChar(c);
      && |b| == (if n < 0x80 then 1 else if n < 0x800 then 2 else if n < 0x10000 then 3 else 4)
      && (|b| == 1 ==> b[0] == n) && (|b| == 2 ==> b[0] / 0x20 == 6) && (|b| == 3 ==> b[0] / 0x10 == 14) && (|b| == 4 ==> b[0] / 8 == 30)
      && (forall i | 1 <= i < |b| :: b[i] / 0x40 == 2)
      && n == Joined(if |b| == 1 then b[0] else b[0] % (if |b| == 2 then 0x20 else if |b| == 3 then 0x10 else 8), b[1..])
  {
    var n, b := c as int, EncodeChar(c);
    if |b| == 2 { JoinedFrom(b[0] % 0x20, b[1], 0, 0); assert b[1..] == [b[1]]; }
    if |b| == 3 { JoinedFrom(b[0] % 0x10, b[1], b[2], 0); assert b[1..] == [b[1], b[2]]; }
    if |b| == 4 { JoinedFrom(b[0] % 8, b[1], b[2], b[3]); assert b[1..] == [b[1], b[2], b[3]]; }
  }
}

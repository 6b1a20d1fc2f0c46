/** The minimal DER writer and reader of encrypt/pkcs11/keys.ts, with JavaScript's 32-bit shifts and out-of-range reads. */
module Der {
  import opened Common

  const LIMIT := 0x8000_0000

  /** The result of a bitwise operator: a signed 32-bit number. */
  function ToInt32(x: int): (r: int)
    ensures -LIMIT <= r < LIMIT && (r - x) % 0x1_0000_0000 == 0
  {
    var u := x % 0x1_0000_0000;
    if u >= LIMIT then u - 0x1_0000_0000 else u
  }

  // ---- the writer ----

  /** `n >>> 8` keeps 32 bits. */
  function Shift8(n: nat): (r: nat)
    ensures r < 0x1000000 && (n > 0 ==> r < n) && (n < 0x1_0000_0000 ==> r * 256 + n % 256 == n)
  {
    n % 0x1_0000_0000 / 256
  }

  /** The loop of derLength. */
  function LengthBytes(n: nat): (r: Bytes)
    ensures |r| <= if n == 0 then 0 else if n < 0x100 then 1 else if n < 0x10000 then 2 else if n < 0x1000000 then 3 else 4
  {
    if n == 0 then [] else LengthBytes(Shift8(n)) + [n % 256]
  }

  function DerLength(n: nat): Bytes { if n < 0x80 then [n] else [0x80 + |LengthBytes(n)|] + LengthBytes(n) }

  method WriteLength(length: nat) returns (r: Bytes)
    ensures r == DerLength(length)
  {
    if length < 0x80 {
      return [length];
    }
    var bytes: Bytes := [];
    var value := length;
    while value > 0
      invariant LengthBytes(length) == LengthBytes(value) + bytes
    {
      bytes := [value % 256] + bytes;
      value := Shift8(value);
    }
    r := [0x80 + |bytes|] + bytes;
  }

  function Tagged(tag: byte, content: Bytes): Bytes { [tag] + DerLength(|content|) + content }
  function Sequence(content: Bytes): Bytes { Tagged(0x30, content) }
  function BitString(content: Bytes): Bytes { Tagged(0x03, [0x00] + content) }

  function Trim(magnitude: Bytes): (r: Bytes)
    ensures |r| <= |magnitude| && (magnitude != [] ==> r != [])
  {
    if |magnitude| > 1 && magnitude[0] == 0 then Trim(magnitude[1..]) else magnitude
  }

  function IntegerContent(magnitude: Bytes): Bytes {
    var trimmed := Trim(magnitude);
    if trimmed != [] && trimmed[0] >= 0x80 then [0x00] + trimmed else trimmed
  }

  function Integer(magnitude: Bytes): Bytes { Tagged(0x02, IntegerContent(magnitude)) }

  method WriteInteger(magnitude: Bytes) returns (r: Bytes)
    ensures r == Integer(magnitude)
  {
    var start := 0;
    while start < |magnitude| - 1 && magnitude[start] == 0
      invariant 0 <= start <= |magnitude|
      invariant Trim(magnitude) == Trim(magnitude[start..])
    {
      assert magnitude[start..][1..] == magnitude[start + 1..];
      start := start + 1;
    }
    var trimmed := magnitude[start..];
    r := Tagged(0x02, if trimmed != [] && trimmed[0] >= 0x80 then [0x00] + trimmed else trimmed);
  }

  // ---- the reader ----

  /** An undefined tag, or a position that is not a number, is None. */
  datatype Element = Element(tag: Option<byte>, start: Option<int>, end: Option<int>)

  function At(b: Bytes, i: int): Option<byte> { if 0 <= i < |b| then Some(b[i]) else None }

  /** The loop over the length bytes: `(length << 8) | byte`. */
  function Length32(bytes: Bytes): (r: int)
    ensures -LIMIT <= r < LIMIT
    decreases |bytes|
  {
    if bytes == [] then 0 else ToInt32(Length32(bytes[..|bytes| - 1]) * 256) + bytes[|bytes| - 1]
  }

  function Bounded(b: Bytes, tag: Option<byte>, cursor: int, length: int): Option<Element> {
    if cursor + length > |b| then None else Some(Element(tag, Some(cursor), Some(cursor + length)))
  }

  function ReadElement(b: Bytes, offset: Option<int>): Option<Element> {
    if offset == None then Some(Element(None, None, None)) else
    var o := offset.value;
    if o + 2 > |b| then None
    else if o + 1 < 0 then Some(Element(None, Some(o + 2), None))   // the length is undefined
    else if b[o + 1] < 0x80 then Bounded(b, At(b, o), o + 2, b[o + 1])
    else
      var count := b[o + 1] - 0x80;
      if count == 0 || count > 4 || o + 2 + count > |b| then None
      else Bounded(b, At(b, o), o + 2 + count, Length32(b[o + 2..o + 2 + count]))
  }

  lemma LengthOn(bytes: Bytes, x: byte)
    ensures Length32(bytes + [x]) == ToInt32(Length32(bytes) * 256) + x
  {
    assert (bytes + [x])[..|bytes|] == bytes;
    hide ToInt32;
  }

  /** The length octets of the long form. */
  method ReadLength(b: Bytes, start: nat, count: nat) returns (length: int)
    requires start + count <= |b|
    ensures length == Length32(b[start..start + count])
  {
    length := 0;
    assert b[start..start] == [] && Length32([]) == 0;
    hide ToInt32, Length32;
    for index := 0 to count
      invariant length == Length32(b[start..start + index])
    {
      LengthOn(b[start..start + index], b[start + index]);
      assert b[start..start + index + 1] == b[start..start + index] + [b[start + index]];
      length := ToInt32(length * 256) + b[start + index];
    }
  }

  method Read(b: Bytes, offset: nat) returns (r: Option<Element>)
    ensures r == ReadElement(b, Some(offset))
  {
    hide Length32;
    if offset + 2 > |b| {
      return None;
    }
    var tag := b[offset];
    var cursor := offset + 1;
    var length: int := b[cursor];
    cursor := cursor + 1;
    if length >= 0x80 {
      var count := length % 0x80;
      if count == 0 || count > 4 || cursor + count > |b| {
        return None;
      }
      length := ReadLength(b, cursor, count);
      cursor := cursor + count;
    }
    if cursor + length > |b| {
      return None;
    }
    r := Some(Element(Some(tag), Some(cursor), Some(cursor + length)));
  }

  lemma {:induction false} LengthRead(n: nat)
    requires n < 0x1_0000_0000
    ensures Length32(LengthBytes(n)) == ToInt32(n)
  {
    if n > 0 {
      LengthRead(Shift8(n));
      assert LengthBytes(n)[..|LengthBytes(n)| - 1] == LengthBytes(Shift8(n));
      ShiftIn(n);
    }
  }

  lemma ShiftIn(n: nat)
    requires n < 0x1_0000_0000
    ensures ToInt32(ToInt32(Shift8(n)) * 256) + n % 256 == ToInt32(n)
  {
    hide Shift8;
  }

  /** The length a reader takes from what derLength wrote for `n`. */
  function ReadBack(n: nat): int { if n < 0x80 then n else Length32(LengthBytes(n)) }

  lemma SmallInt(n: int)
    requires 0 <= n < LIMIT
    ensures ToInt32(n) == n
  {
  }

  lemma ReadBackIs(n: nat)
    ensures ReadBack(n) == if n < 0x80 then n else Length32(LengthBytes(n))
  {
    hide Length32, LengthBytes;
  }

  lemma ReadBackIff(n: nat)
    ensures ReadBack(n) == n <==> n < LIMIT
  {
    hide ToInt32, Length32, LengthBytes, ReadBack;
    ReadBackIs(n);
    if 0x80 <= n < LIMIT {
      LengthRead(n);
      SmallInt(n);
    }
  }

  function HeaderSize(n: nat): nat { 1 + |DerLength(n)| }

  lemma ReadShort(b: Bytes, at: int, tag: byte, n: nat)
    requires n < 0x80 && 0 <= at && at + 2 <= |b| && b[at] == tag && b[at + 1] == n
    ensures ReadElement(b, Some(at)) == Bounded(b, Some(tag), at + 2, n)
  {
    hide Bounded, Length32;
  }

  lemma ReadAt(b: Bytes, at: int, count: int)
    requires 0 <= at && 0 < count <= 4 && at + 2 + count <= |b| && b[at + 1] == 0x80 + count
    ensures ReadElement(b, Some(at)) == Bounded(b, At(b, at), at + 2 + count, Length32(b[at + 2..at + 2 + count]))
  {
    hide Bounded, Length32, At;
  }

  lemma ReadLong(b: Bytes, at: int, tag: byte, bytes: Bytes)
    requires 0 < |bytes| <= 4 && 0 <= at && at + 2 + |bytes| <= |b|
    requires b[at] == tag && b[at + 1] == 0x80 + |bytes| && b[at + 2..at + 2 + |bytes|] == bytes
    ensures ReadElement(b, Some(at)) == Bounded(b, Some(tag), at + 2 + |bytes|, Length32(bytes))
  {
    ReadAt(b, at, |bytes|);
    assert At(b, at) == Some(tag);
    hide *;
  }

  lemma HoldsFirst(b: Bytes, at: int, x: byte, rest: Bytes)
    requires Holds(b, at, [x] + rest)
    ensures 0 <= at < |b| && b[at] == x && Holds(b, at + 1, rest)
  {
    HoldsParts(b, at, [x], rest);
    assert b[at] == b[at..at + 1][0];
  }

  lemma ReadHeader(b: Bytes, at: int, tag: byte, n: nat)
    requires Holds(b, at, [tag] + DerLength(n))
    ensures ReadElement(b, Some(at)) == Bounded(b, Some(tag), at + HeaderSize(n), ReadBack(n))
  {
    hide ReadElement, Bounded, LengthBytes, Length32;
    HoldsFirst(b, at, tag, DerLength(n));
    if n >= 0x80 {
      var bytes := LengthBytes(n);
      LongForm(n);
      HoldsFirst(b, at + 1, 0x80 + |bytes|, bytes);
      ReadLong(b, at, tag, bytes);
    } else {
      assert [n] == [n] + [];
      HoldsFirst(b, at + 1, n, []);
      ReadShort(b, at, tag, n);
    }
  }

  lemma LongForm(n: nat)
    requires n >= 0x80
    ensures 0 < |LengthBytes(n)| <= 4
  {
  }

  /** The element tagged() wrote, as readElement should find it. */
  function Written(at: int, tag: byte, content: Bytes): Element {
    Element(Some(tag), Some(at + HeaderSize(|content|)), Some(at + HeaderSize(|content|) + |content|))
  }

  /** readElement recovers exactly what tagged() wrote, wherever it stands, precisely for content below 2^31 bytes. */
  lemma ReadRecovers(b: Bytes, at: int, tag: byte, content: Bytes)
    requires Holds(b, at, Tagged(tag, content))
    ensures ReadElement(b, Some(at)) == Some(Written(at, tag, content)) <==> |content| < LIMIT
  {
    hide ReadElement, DerLength, ReadBack;
    HoldsParts(b, at, [tag] + DerLength(|content|), content);
    ReadHeader(b, at, tag, |content|);
    ReadBackIff(|content|);
  }

  // ---- INTEGER ----

  /** A big-endian magnitude. */
  function Value(bytes: Bytes): nat
    decreases |bytes|
  {
    if bytes == [] then 0 else Value(bytes[..|bytes| - 1]) * 256 + bytes[|bytes| - 1]
  }

  /** The content octets of a non-negative INTEGER in DER: not negative, and no octet too many (X.690, section 8.3). */
  predicate Minimal(c: Bytes) { c != [] && c[0] < 0x80 && (|c| > 1 && c[0] == 0 ==> c[1] >= 0x80) }

  lemma {:induction false} LeadingZero(bytes: Bytes)
    ensures Value([0] + bytes) == Value(bytes)
    decreases |bytes|
  {
    var padded := [0] + bytes;
    if bytes == [] {
      assert padded[..0] == [];
    } else {
      assert padded[..|bytes|] == [0] + bytes[..|bytes| - 1];
      LeadingZero(bytes[..|bytes| - 1]);
    }
  }

  lemma {:induction false} TrimValue(magnitude: Bytes)
    ensures Value(Trim(magnitude)) == Value(magnitude)
    ensures |Trim(magnitude)| > 1 ==> Trim(magnitude)[0] != 0
    decreases |magnitude|
  {
    if |magnitude| > 1 && magnitude[0] == 0 {
      assert [0] + magnitude[1..] == magnitude;
      LeadingZero(magnitude[1..]);
      TrimValue(magnitude[1..]);
    }
  }

  /** integer() writes the minimal non-negative content with the magnitude's value. */
  lemma IntegerMeaning(magnitude: Bytes)
    requires magnitude != []
    ensures Value(IntegerContent(magnitude)) == Value(magnitude) && Minimal(IntegerContent(magnitude))
  {
    TrimValue(magnitude);
    LeadingZero(Trim(magnitude));
  }

  predicate NoLead(bytes: Bytes) { bytes == [] || bytes[0] != 0 }

  lemma {:induction false} Positive(bytes: Bytes)
    requires NoLead(bytes) && bytes != []
    ensures Value(bytes) > 0
    decreases |bytes|
  {
    var init := bytes[..|bytes| - 1];
    if init != [] { Positive(init); }
  }

  lemma {:induction false} SameDigits(a: Bytes, b: Bytes)
    requires NoLead(a) && NoLead(b) && Value(a) == Value(b)
    ensures a == b
    decreases |a|
  {
    if a == [] || b == [] {
      if a != [] { Positive(a); }
      if b != [] { Positive(b); }
    } else {
      var i, j := a[..|a| - 1], b[..|b| - 1];
      assert Value(i) == Value(j) && a[|a| - 1] == b[|b| - 1];
      SameDigits(i, j);
      assert a == i + [a[|a| - 1]] && b == j + [b[|b| - 1]];
    }
  }

  function Digits(c: Bytes): Bytes { if c != [] && c[0] == 0 then c[1..] else c }

  lemma DigitsValue(c: Bytes)
    requires Minimal(c)
    ensures NoLead(Digits(c)) && Value(Digits(c)) == Value(c)
  {
    if c[0] == 0 {
      assert c == [0] + c[1..];
      LeadingZero(c[1..]);
    }
  }

  /** No other content octets are minimal and have that value: integer() writes the one DER form. */
  lemma MinimalUnique(a: Bytes, b: Bytes)
    requires Minimal(a) && Minimal(b) && Value(a) == Value(b)
    ensures a == b
  {
    DigitsValue(a);
    DigitsValue(b);
    SameDigits(Digits(a), Digits(b));
    assert (a[0] == 0 ==> a == [0] + Digits(a)) && (b[0] == 0 ==> b == [0] + Digits(b));
  }
}

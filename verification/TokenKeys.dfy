/** What encrypt/pkcs11/keys.ts makes of token attributes: SPKI keys, EC points and the key inside a certificate. */
module TokenKeys {
  import opened Common
  import opened Der

  datatype KeyError =
    | NoModulus | NoExponent | Unusable                            // rsaPublicKeyFrom
    | NotSequence | NoTbs | Truncated | NoSpki                     // subjectPublicKeyInfo
    | EmptyPoint | NoPoint                                         // decodeEcPoint

  const ED25519_PUBLIC_KEY_BYTES := 32

  // ---- RSA ----

  /** The object identifier rsaEncryption and its NULL parameters. */
  function RsaAlgorithm(): Bytes { [0x06, 0x09, 0x2a, 0x86, 0x48, 0x86, 0xf7, 0x0d, 0x01, 0x01, 0x01] + [0x05, 0x00] }

  predicate IsZero(b: Bytes) { forall x | x in b :: x == 0 }

  function RsaKey(modulus: Bytes, exponent: Bytes): Bytes { Sequence(Integer(modulus) + Integer(exponent)) }

  function RsaContent(modulus: Bytes, exponent: Bytes): Bytes {
    Sequence(RsaAlgorithm()) + BitString(RsaKey(modulus, exponent))
  }

  /** Up to the final Base64. */
  function RsaPublicKeyFrom(modulus: Option<Bytes>, exponent: Option<Bytes>): Result<Bytes, KeyError> {
    if modulus == None then Err(NoModulus)
    else if exponent == None then Err(NoExponent)
    else if IsZero(modulus.value) || IsZero(exponent.value) then Err(Unusable)
    else Ok(Sequence(RsaContent(modulus.value, exponent.value)))
  }

  /** A positive element with the expected tag: where its content starts and ends. */
  function Expect(b: Bytes, at: int, tag: byte): Option<(int, int)> {
    match ReadElement(b, Some(at))
    case Some(Element(Some(t), Some(start), Some(end))) =>
      if t == tag && 0 <= start <= end <= |b| then Some((start, end)) else None
    case _ => None
  }

  /** Reads an RSAPublicKey (RFC 8017, appendix A.1.1): its two numbers, and where it ends. */
  function DecodeRsaKey(b: Bytes, at: int): Option<(nat, nat, int)> {
    match Expect(b, at, 0x30) case None => None case Some((start, end)) =>
    match Expect(b, start, 0x02) case None => None case Some((n, e)) =>
    match Expect(b, e, 0x02) case None => None case Some((x, last)) =>
    if last == end && Minimal(b[n..e]) && Minimal(b[x..last]) then Some((Value(b[n..e]), Value(b[x..last]), end)) else None
  }

  /** Reads a SubjectPublicKeyInfo for RSA (RFC 3279, section 2.3.1) down to the two numbers. */
  function DecodeRsa(b: Bytes): Option<(nat, nat)> {
    match Expect(b, 0, 0x30) case None => None case Some((start, end)) =>
    match Expect(b, start, 0x30) case None => None case Some((algorithm, bits)) =>
    match Expect(b, bits, 0x03) case None => None case Some((unused, last)) =>
    match DecodeRsaKey(b, unused + 1) case None => None case Some((n, e, done)) =>
    if end == last == done == |b| && b[algorithm..bits] == RsaAlgorithm() && unused < last && b[unused] == 0
    then Some((n, e)) else None
  }

  lemma ExpectWritten(b: Bytes, at: int, tag: byte, content: Bytes)
    requires Holds(b, at, Tagged(tag, content)) && |content| < LIMIT
    ensures var start := at + HeaderSize(|content|);
      Expect(b, at, tag) == Some((start, start + |content|)) && Holds(b, start, content)
      && start + |content| == at + |Tagged(tag, content)|
  {
    ReadRecovers(b, at, tag, content);
    HoldsParts(b, at, [tag] + DerLength(|content|), content);
  }

  lemma RsaLengths(modulus: Bytes, exponent: Bytes)
    ensures |IntegerContent(modulus)| < |RsaContent(modulus, exponent)| && |IntegerContent(exponent)| < |RsaContent(modulus, exponent)|
    ensures |Integer(modulus) + Integer(exponent)| + 1 < |RsaContent(modulus, exponent)|
  {
  }

  lemma IntegerReads(b: Bytes, at: int, magnitude: Bytes)
    requires Holds(b, at, Integer(magnitude)) && magnitude != [] && |IntegerContent(magnitude)| < LIMIT
    ensures var r := Expect(b, at, 0x02);
      r.Some? && 0 <= r.value.0 <= r.value.1 <= |b| && r.value.1 == at + |Integer(magnitude)|
      && Minimal(b[r.value.0..r.value.1]) && Value(b[r.value.0..r.value.1]) == Value(magnitude)
  {
    hide Expect, HeaderSize, DerLength, IntegerContent, Tagged, Value, Minimal;
    var content := IntegerContent(magnitude);
    IntegerMeaning(magnitude);
    ExpectWritten(b, at, 0x02, content);
    var start := Expect(b, at, 0x02).value.0;
    assert b[start..start + |content|] == content;
  }

  /** The key inside the BIT STRING, at its place in a longer string of bytes. */
  lemma RsaKeyReads(b: Bytes, at: int, modulus: Bytes, exponent: Bytes)
    requires Holds(b, at, RsaKey(modulus, exponent)) && modulus != [] && exponent != []
    requires |Integer(modulus) + Integer(exponent)| < LIMIT && |IntegerContent(modulus)| < LIMIT && |IntegerContent(exponent)| < LIMIT
    ensures DecodeRsaKey(b, at) == Some((Value(modulus), Value(exponent), at + |RsaKey(modulus, exponent)|))
  {
    hide Expect, HeaderSize, DerLength, Integer, IntegerContent, Tagged, Value, Minimal;
    ExpectWritten(b, at, 0x30, Integer(modulus) + Integer(exponent));
    var start := Expect(b, at, 0x30).value.0;
    HoldsParts(b, start, Integer(modulus), Integer(exponent));
    IntegerReads(b, start, modulus);
    IntegerReads(b, start + |Integer(modulus)|, exponent);
  }

  /** The same modulus and exponent come back, precisely when the whole key is below 2^31 bytes. */
  lemma RsaRoundTrip(modulus: Bytes, exponent: Bytes)
    requires !IsZero(modulus) && !IsZero(exponent)
    ensures var r := RsaPublicKeyFrom(Some(modulus), Some(exponent));
      r.Ok? && (DecodeRsa(r.value) == Some((Value(modulus), Value(exponent))) <==> |RsaContent(modulus, exponent)| < LIMIT)
  {
    hide RsaContent;
    var content := RsaContent(modulus, exponent);
    var b := Sequence(content);
    HoldsWhole([], b, []);
    assert [] + b + [] == b;
    if |content| < LIMIT {
      RsaReads(modulus, exponent);
    } else {
      ReadTooLong(b, 0x30, content);
    }
  }

  lemma ReadTooLong(b: Bytes, tag: byte, content: Bytes)
    requires b == Tagged(tag, content) && |content| >= LIMIT
    ensures Expect(b, 0, tag) == None || Expect(b, 0, tag).value.1 != |b|
  {
    assert Holds(b, 0, Tagged(tag, content));
    HoldsParts(b, 0, [tag] + DerLength(|content|), content);
    ReadHeader(b, 0, tag, |content|);
    ReadBackIff(|content|);
  }

  /** Where the parts of the key stand. */
  lemma RsaLayout(modulus: Bytes, exponent: Bytes) returns (start: int, inner: int)
    requires |RsaContent(modulus, exponent)| < LIMIT
    ensures var b := Sequence(RsaContent(modulus, exponent));
      && Expect(b, 0, 0x30) == Some((start, |b|))
      && (var algorithm := Expect(b, start, 0x30);
         && algorithm.Some? && b[algorithm.value.0..algorithm.value.1] == RsaAlgorithm()
         && Expect(b, algorithm.value.1, 0x03) == Some((inner, |b|)))
      && 0 <= inner < |b| && b[inner] == 0 && inner + 1 + |RsaKey(modulus, exponent)| == |b|
      && Holds(b, inner + 1, RsaKey(modulus, exponent))
  {
    hide Expect, HeaderSize, DerLength, RsaKey, RsaAlgorithm;
    var content := RsaContent(modulus, exponent);
    var algorithm, key := RsaAlgorithm(), RsaKey(modulus, exponent);
    assert |algorithm| < LIMIT && |[0x00] + key| < LIMIT;
    hide Tagged;
    var b := Sequence(content);
    assert b[..|b|] == b;
    ExpectWritten(b, 0, 0x30, content);
    start := Expect(b, 0, 0x30).value.0;
    HoldsParts(b, start, Sequence(algorithm), BitString(key));
    ExpectWritten(b, start, 0x30, algorithm);
    var bits := start + |Sequence(algorithm)|;
    ExpectWritten(b, bits, 0x03, [0x00] + key);
    inner := Expect(b, bits, 0x03).value.0;
    HoldsParts(b, inner, [0x00], key);
    assert b[inner] == b[inner..inner + 1][0];
  }

  lemma RsaReads(modulus: Bytes, exponent: Bytes)
    requires modulus != [] && exponent != [] && |RsaContent(modulus, exponent)| < LIMIT
    ensures DecodeRsa(Sequence(RsaContent(modulus, exponent))) == Some((Value(modulus), Value(exponent)))
  {
    RsaLengths(modulus, exponent);
    hide Expect, HeaderSize, DerLength, DecodeRsaKey, IntegerContent, Integer, RsaContent, RsaKey, Sequence, RsaAlgorithm, Value;
    var b := Sequence(RsaContent(modulus, exponent));
    var start, inner := RsaLayout(modulus, exponent);
    RsaKeyReads(b, inner + 1, modulus, exponent);
  }

  /** A key comes back exactly when both numbers are there and are not zero. */
  lemma RsaAccepts(modulus: Option<Bytes>, exponent: Option<Bytes>)
    ensures RsaPublicKeyFrom(modulus, exponent).Ok? <==>
      modulus.Some? && exponent.Some? && Value(modulus.value) > 0 && Value(exponent.value) > 0
  {
    if modulus.Some? { ZeroValue(modulus.value); }
    if exponent.Some? { ZeroValue(exponent.value); }
  }

  lemma {:induction false} ZeroValue(b: Bytes)
    ensures Value(b) == 0 <==> IsZero(b)
    decreases |b|
  {
    if b != [] {
      var init := b[..|b| - 1];
      ZeroValue(init);
      assert b[|b| - 1] in b && forall x | x in b :: x in init || x == b[|b| - 1];
      assert forall x | x in init :: x in b;
    }
  }

  // ---- the key inside a certificate ----

  /** Skips `n` elements. */
  function Walk(b: Bytes, cursor: Option<int>, n: nat): Option<Option<int>>
    decreases n
  {
    if n == 0 then Some(cursor) else
    match ReadElement(b, cursor) case None => None case Some(element) => Walk(b, element.end, n - 1)
  }

  /** Uint8Array.slice: a position that is not a number counts as 0, a negative one from the end. */
  function Slice(b: Bytes, from: Option<int>, to: Option<int>): Bytes {
    var i, j := Clamp(from, |b|), Clamp(to, |b|);
    if i <= j then b[i..j] else []
  }

  function Clamp(x: Option<int>, length: nat): (r: nat)
    ensures r <= length
  {
    if x == None then 0 else if x.value < 0 then (if x.value + length < 0 then 0 else x.value + length)
    else if x.value > length then length else x.value
  }

  function SubjectPublicKeyInfo(certificate: Bytes): Result<Bytes, KeyError> {
    var outer := ReadElement(certificate, Some(0));
    if outer == None || outer.value.tag != Some(0x30) then Err(NotSequence) else
    var tbs := ReadElement(certificate, outer.value.start);
    if tbs == None || tbs.value.tag != Some(0x30) then Err(NoTbs) else
    var first := ReadElement(certificate, tbs.value.start);
    if first == None then Err(Truncated) else
    var versioned := first.value.tag == Some(0xa0);
    var walked := Walk(certificate, if versioned then first.value.end else tbs.value.start, if versioned then 5 else 4);
    if walked == None then Err(Truncated) else
    var spki := ReadElement(certificate, walked.value);
    if spki == None || spki.value.tag != Some(0x30) then Err(NoSpki) else Ok(Slice(certificate, walked.value, spki.value.end))
  }

  /** The walk in its own form. */
  method ExtractSpki(certificate: Bytes) returns (r: Result<Bytes, KeyError>)
    ensures r == SubjectPublicKeyInfo(certificate)
  {
    hide ReadElement, Slice;
    var outer := ReadElement(certificate, Some(0));
    if outer == None || outer.value.tag != Some(0x30) {
      return Err(NotSequence);
    }
    var tbs := ReadElement(certificate, outer.value.start);
    if tbs == None || tbs.value.tag != Some(0x30) {
      return Err(NoTbs);
    }
    var cursor := tbs.value.start;
    var first := ReadElement(certificate, cursor);
    if first == None {
      return Err(Truncated);
    }
    var remaining := if first.value.tag == Some(0xa0) then 6 else 5;
    if first.value.tag == Some(0xa0) {
      cursor := first.value.end;
    }
    ghost var from, skipped := cursor, remaining - 1;
    while remaining > 1
      invariant 1 <= remaining && Walk(certificate, from, skipped) == Walk(certificate, cursor, remaining - 1)
    {
      var element := ReadElement(certificate, cursor);
      if element == None {
        return Err(Truncated);
      }
      cursor := element.value.end;
      remaining := remaining - 1;
    }
    var spki := ReadElement(certificate, cursor);
    if spki == None || spki.value.tag != Some(0x30) {
      return Err(NoSpki);
    }
    r := Ok(Slice(certificate, cursor, spki.value.end));
  }

  datatype Tlv = Tlv(tag: byte, content: Bytes)

  /** A certificate as X.509 nests it (RFC 5280, section 4.1); `rest` is what follows a sequence's last element here. */
  datatype Certificate = Certificate(
    version: Option<Bytes>, serial: Tlv, signature: Tlv, issuer: Tlv, validity: Tlv, subject: Tlv,
    spki: Bytes, extensions: Bytes, rest: Bytes)

  function Write(t: Tlv): Bytes { Tagged(t.tag, t.content) }

  function WriteAll(ts: seq<Tlv>): Bytes { if ts == [] then [] else Write(ts[0]) + WriteAll(ts[1..]) }

  function Version(c: Certificate): seq<Tlv> { if c.version == None then [] else [Tlv(0xa0, c.version.value)] }

  function Names(c: Certificate): seq<Tlv> { [c.serial, c.signature, c.issuer, c.validity, c.subject] }

  function Spki(c: Certificate): Tlv { Tlv(0x30, c.spki) }

  function TbsContent(c: Certificate): Bytes { WriteAll(Version(c)) + WriteAll(Names(c)) + Write(Spki(c)) + c.extensions }

  function CertificateContent(c: Certificate): Bytes { Sequence(TbsContent(c)) + c.rest }

  function WriteCertificate(c: Certificate): Bytes { Sequence(CertificateContent(c)) }

  lemma WalkStep(b: Bytes, at: int, t: Tlv, n: nat)
    requires n > 0 && Holds(b, at, Write(t)) && |t.content| < LIMIT
    ensures Walk(b, Some(at), n) == Walk(b, Some(at + |Write(t)|), n - 1)
  {
    hide ReadElement, DerLength;
    ReadRecovers(b, at, t.tag, t.content);
  }

  lemma WriteParts(ts: seq<Tlv>)
    requires ts != []
    ensures WriteAll(ts) == Write(ts[0]) + WriteAll(ts[1..])
    ensures |ts[0].content| <= |Write(ts[0])|
  {
    hide DerLength;
  }

  lemma {:induction false} WalkOver(b: Bytes, at: int, ts: seq<Tlv>)
    requires Holds(b, at, WriteAll(ts)) && |WriteAll(ts)| < LIMIT
    ensures Walk(b, Some(at), |ts|) == Some(Some(at + |WriteAll(ts)|))
    decreases |ts|
  {
    hide *;
    if ts == [] {
      NoWalk(b, at);
    } else {
      var t, rest := ts[0], ts[1..];
      WriteParts(ts);
      HoldsParts(b, at, Write(t), WriteAll(rest));
      WalkStep(b, at, t, |ts|);
      WalkOver(b, at + |Write(t)|, rest);
    }
  }

  lemma NoWalk(b: Bytes, at: int)
    ensures WriteAll([]) == [] && Walk(b, Some(at), 0) == Some(Some(at))
  {
  }

  /** Where the parts of a certificate stand. */
  lemma Layout(c: Certificate)
    requires |CertificateContent(c)| < LIMIT
    ensures var b := WriteCertificate(c);
      var tbs := HeaderSize(|CertificateContent(c)|);
      var first := tbs + HeaderSize(|TbsContent(c)|);
      var names := first + |WriteAll(Version(c))|;
      && ReadElement(b, Some(0)) == Some(Written(0, 0x30, CertificateContent(c)))
      && ReadElement(b, Some(tbs)) == Some(Written(tbs, 0x30, TbsContent(c)))
      && Holds(b, first, WriteAll(Version(c))) && Holds(b, names, WriteAll(Names(c)))
      && Holds(b, names + |WriteAll(Names(c))|, Write(Spki(c)))
  {
    hide ReadElement, DerLength;
    var b, content, inner := WriteCertificate(c), CertificateContent(c), TbsContent(c);
    assert Holds(b, 0, Tagged(0x30, content));
    ReadRecovers(b, 0, 0x30, content);
    HoldsParts(b, 0, [0x30] + DerLength(|content|), content);
    var tbs := HeaderSize(|content|);
    HoldsParts(b, tbs, Sequence(inner), c.rest);
    ReadRecovers(b, tbs, 0x30, inner);
    HoldsParts(b, tbs, [0x30] + DerLength(|inner|), inner);
    var first := tbs + HeaderSize(|inner|);
    HoldsParts(b, first, WriteAll(Version(c)) + WriteAll(Names(c)) + Write(Spki(c)), c.extensions);
    HoldsParts(b, first, WriteAll(Version(c)) + WriteAll(Names(c)), Write(Spki(c)));
    HoldsParts(b, first, WriteAll(Version(c)), WriteAll(Names(c)));
  }

  lemma ReturnsElement(b: Bytes, at: int, t: Tlv)
    requires Holds(b, at, Write(t)) && |t.content| < LIMIT
    ensures ReadElement(b, Some(at)) == Some(Written(at, t.tag, t.content))
    ensures Slice(b, Some(at), Written(at, t.tag, t.content).end) == Write(t)
  {
    ReadRecovers(b, at, t.tag, t.content);
  }

  /** A certificate that carries its version yields its exact SubjectPublicKeyInfo. */
  lemma SpkiWithVersion(c: Certificate)
    requires c.version.Some? && |CertificateContent(c)| < LIMIT
    ensures SubjectPublicKeyInfo(WriteCertificate(c)) == Ok(Write(Spki(c)))
  {
    hide ReadElement, DerLength, TbsContent, CertificateContent;
    var b := WriteCertificate(c);
    Layout(c);
    var first := HeaderSize(|CertificateContent(c)|) + HeaderSize(|TbsContent(c)|);
    var version := Tlv(0xa0, c.version.value);
    assert Version(c) == [version] && WriteAll(Version(c)) == Write(version) by {
      assert WriteAll([version][1..]) == [];
    }
    ReadRecovers(b, first, 0xa0, c.version.value);
    var names := first + |Write(version)|;
    WalkOver(b, names, Names(c));
    ReturnsElement(b, names + |WriteAll(Names(c))|, Spki(c));
  }

  /** Without the version the walk stops one element short: it returns the subject. */
  lemma SpkiWithoutVersion(c: Certificate)
    requires c.version == None && c.serial.tag != 0xa0 && |CertificateContent(c)| < LIMIT
    ensures SubjectPublicKeyInfo(WriteCertificate(c)) ==
      if c.subject.tag == 0x30 then Ok(Write(c.subject)) else Err(NoSpki)
  {
    hide ReadElement, DerLength, TbsContent, CertificateContent;
    var b := WriteCertificate(c);
    Layout(c);
    var first := HeaderSize(|CertificateContent(c)|) + HeaderSize(|TbsContent(c)|);
    var skipped := [c.serial, c.signature, c.issuer, c.validity];
    SplitNames(c);
    HoldsParts(b, first, WriteAll(skipped), Write(c.subject));
    HoldsParts(b, first, Write(c.serial), WriteAll(skipped[1..]));
    ReadRecovers(b, first, c.serial.tag, c.serial.content);
    WalkOver(b, first, skipped);
    ReturnsElement(b, first + |WriteAll(skipped)|, c.subject);
  }

  lemma SplitNames(c: Certificate)
    ensures WriteAll(Names(c)) == WriteAll([c.serial, c.signature, c.issuer, c.validity]) + Write(c.subject)
  {
    WriteAllSnoc([c.serial, c.signature, c.issuer, c.validity], c.subject);
    assert Names(c) == [c.serial, c.signature, c.issuer, c.validity] + [c.subject];
  }

  lemma {:induction false} WriteAllSnoc(ts: seq<Tlv>, t: Tlv)
    ensures WriteAll(ts + [t]) == WriteAll(ts) + Write(t)
    decreases |ts|
  {
    if ts == [] {
      assert WriteAll([t][1..]) == [];
      assert [] + [t] == [t];
    } else {
      assert (ts + [t])[1..] == ts[1..] + [t];
      WriteAllSnoc(ts[1..], t);
    }
  }

  lemma WriteInjective(t: Tlv, u: Tlv)
    requires Write(t) == Write(u) && |t.content| < LIMIT && |u.content| < LIMIT
    ensures t == u
  {
    var b := Write(t);
    ReadRecovers(b, 0, t.tag, t.content);
    ReadRecovers(b, 0, u.tag, u.content);
    HoldsParts(b, 0, [t.tag] + DerLength(|t.content|), t.content);
    HoldsParts(b, 0, [u.tag] + DerLength(|u.content|), u.content);
  }

  /** The SPKI of a certificate comes back exactly when the version is there, or the subject happens to equal it. */
  lemma SpkiExactlyWhen(c: Certificate)
    requires c.serial.tag != 0xa0 && |CertificateContent(c)| < LIMIT
    ensures SubjectPublicKeyInfo(WriteCertificate(c)) == Ok(Write(Spki(c))) <==> c.version.Some? || c.subject == Spki(c)
  {
    if c.version.Some? {
      SpkiWithVersion(c);
    } else {
      SpkiWithoutVersion(c);
      Layout(c);
      SplitNames(c);
      if Write(c.subject) == Write(Spki(c)) { WriteInjective(c.subject, Spki(c)); }
    }
  }

  // ---- EC points ----

  /** An uncompressed SEC1 point, or 32 bytes for an Edwards point. */
  predicate Plausible(b: Bytes) { |b| == ED25519_PUBLIC_KEY_BYTES || (|b| > 1 && b[0] == 0x04 && |b| % 2 == 1) }

  function ReadOctetString(b: Bytes): Option<Bytes> {
    match ReadElement(b, Some(0))
    case Some(Element(Some(tag), Some(start), Some(end))) =>
      if tag == 0x04 && end == |b| && 0 <= start <= |b| then Some(b[start..]) else None
    case _ => None
  }

  function DecodeEcPoint(b: Bytes): Result<Bytes, KeyError> {
    if b == [] then Err(EmptyPoint) else
    var unwrapped := ReadOctetString(b);
    if unwrapped.Some? && Plausible(unwrapped.value) then Ok(unwrapped.value)
    else if Plausible(b) then Ok(b) else Err(NoPoint)
  }

  /** The length octets `form` announce `n` (X.690, section 8.1.3), not necessarily in the shortest form. */
  predicate Announces(form: Bytes, n: nat) {
    form != [] && if form[0] < 0x80 then form == [n] else 0 < |form| - 1 <= 4 && form[0] == 0x7f + |form| && Length32(form[1..]) == n
  }

  ghost predicate Wraps(b: Bytes, form: Bytes, point: Bytes) { b == [0x04] + form + point && Announces(form, |point|) }

  lemma WrapsShort(b: Bytes, form: Bytes, point: Bytes)
    requires Wraps(b, form, point) && form[0] < 0x80
    ensures ReadOctetString(b) == Some(point)
  {
    assert b[2..] == point;
    ReadShort(b, 0, 0x04, |point|);
    hide ReadElement;
  }

  lemma WrapsLong(b: Bytes, form: Bytes, point: Bytes)
    requires Wraps(b, form, point) && form[0] >= 0x80
    ensures ReadOctetString(b) == Some(point)
  {
    assert b[1] == form[0] && b[2..1 + |form|] == form[1..] && b[1 + |form|..] == point;
    hide ReadElement, Length32;
    ReadLong(b, 0, 0x04, form[1..]);
  }

  /** The length octets in front of what is read. */
  function FormOf(b: Bytes): Bytes
    requires |b| >= 2 && (b[1] < 0x80 || b[1] - 0x7f < |b|)
  {
    if b[1] < 0x80 then [b[1]] else b[1..b[1] - 0x7e]
  }

  lemma ReadFrom(b: Bytes, point: Bytes)
    requires ReadOctetString(b) == Some(point)
    ensures |b| >= 2 && b[0] == 0x04 && (b[1] < 0x80 || (0x80 < b[1] <= 0x84 && b[1] - 0x7e <= |b|))
    ensures var f := FormOf(b); point == b[1 + |f|..] && |point| == if b[1] < 0x80 then b[1] else Length32(f[1..])
  {
    if b[1] >= 0x80 { assert FormOf(b)[1..] == b[2..2 + (b[1] - 0x80)]; }
    hide Length32;
  }

  lemma OctetStringIff(b: Bytes, point: Bytes)
    ensures ReadOctetString(b) == Some(point) <==> exists form :: Wraps(b, form, point)
  {
    if ReadOctetString(b) == Some(point) {
      ReadFrom(b, point);
      hide ReadOctetString, Length32;
      assert b == [0x04] + FormOf(b) + point;
      assert Wraps(b, FormOf(b), point);
    }
    forall form | Wraps(b, form, point) ensures ReadOctetString(b) == Some(point) {
      if form[0] >= 0x80 { WrapsLong(b, form, point); } else { WrapsShort(b, form, point); }
    }
  }

  /** A wrapped point is unwrapped. */
  lemma WrappedPoint(point: Bytes)
    requires Plausible(point) && |point| < LIMIT
    ensures DecodeEcPoint(Tagged(0x04, point)) == Ok(point)
  {
    var b := Tagged(0x04, point);
    assert Holds(b, 0, b);
    ReadRecovers(b, 0, 0x04, point);
    HoldsParts(b, 0, [0x04] + DerLength(|point|), point);
  }

  /** A bare point comes back unchanged exactly when its bytes do not also read as a wrapped one. */
  lemma BarePoint(b: Bytes)
    requires Plausible(b)
    ensures DecodeEcPoint(b) == Ok(b) <==> !exists form, point :: Plausible(point) && Wraps(b, form, point)
  {
    forall form, point | Plausible(point) && Wraps(b, form, point) ensures DecodeEcPoint(b) == Ok(point) && point != b {
      OctetStringIff(b, point);
    }
    if DecodeEcPoint(b) != Ok(b) {
      var point := ReadOctetString(b).value;
      OctetStringIff(b, point);
    }
  }

  /** Whatever comes back is a plausible point, and either the value itself or what it wraps. */
  lemma PointSound(b: Bytes)
    ensures DecodeEcPoint(b).Ok? ==>
      var point := DecodeEcPoint(b).value;
      Plausible(point) && (point == b || exists form :: Wraps(b, form, point))
    ensures DecodeEcPoint(b).Err? ==> !Plausible(b)
  {
    if DecodeEcPoint(b).Ok? { OctetStringIff(b, DecodeEcPoint(b).value); }
  }

  lemma TwoOctets(a: byte, b: byte)
    ensures Length32([a, b]) == a * 0x100 + b
  {
    LengthOn([], a);
    LengthOn([a], b);
    assert [] + [a] == [a] && [a] + [b] == [a, b] && Length32([]) == 0;
    hide ToInt32, Length32;
    SmallInt(0);
    SmallInt(a * 0x100);
  }

  lemma FourOctets(a: byte, b: byte, c: byte, d: byte)
    ensures Length32([a, b, c, d]) == ToInt32((a * 0x10000 + b * 0x100 + c) * 0x100) + d
  {
    TwoOctets(a, b);
    LengthOn([a, b], c);
    LengthOn([a, b, c], d);
    assert [a, b] + [c] == [a, b, c] && [a, b, c] + [d] == [a, b, c, d];
    hide ToInt32, Length32;
    SmallInt(a * 0x10000 + b * 0x100);
  }

  lemma Exactly59(a: byte, b: byte, c: byte, d: byte)
    ensures Length32([a, b, c, d]) == 59 <==> a == 0 && b == 0 && c == 0 && d == 59
  {
    FourOctets(a, b, c, d);
    hide Length32;
  }

  lemma UnwrapsShort(b: Bytes)
    requires |b| == 65 && b[0] == 0x04 && b[1] < 0x80
    ensures DecodeEcPoint(b) != Ok(b) <==> b[1] == 0x3f && b[2] == 0x04
  {
    hide Length32;
  }

  lemma UnwrapsTwo(b: Bytes)
    requires |b| == 65 && b[0] == 0x04 && b[1] == 0x82
    ensures DecodeEcPoint(b) != Ok(b) <==> b[2] == 0x00 && b[3] == 0x3d && b[4] == 0x04
  {
    TwoOctets(b[2], b[3]);
    assert b[2..4] == [b[2], b[3]];
    hide Length32;
  }

  lemma UnwrapsFour(b: Bytes)
    requires |b| == 65 && b[0] == 0x04 && b[1] == 0x84
    ensures DecodeEcPoint(b) != Ok(b) <==> b[2] == 0x00 && b[3] == 0x00 && b[4] == 0x00 && b[5] == 0x3b && b[6] == 0x04
  {
    assert b[2..6] == [b[2], b[3], b[4], b[5]];
    Exactly59(b[2], b[3], b[4], b[5]);
    hide Length32, ToInt32;
  }

  /** One or three length octets leave an even number of bytes, too many for an Edwards point. */
  lemma UnwrapsNot(b: Bytes)
    requires |b| == 65 && b[0] == 0x04 && b[1] >= 0x80 && b[1] != 0x82 && b[1] != 0x84
    ensures DecodeEcPoint(b) == Ok(b)
  {
    hide Length32;
  }

  /** For a bare P-256 point the ambiguous bytes are these three beginnings, and no others. */
  lemma BareP256(b: Bytes)
    requires |b| == 65 && b[0] == 0x04
    ensures DecodeEcPoint(b) != Ok(b) <==>
      || b[1..3] == [0x3f, 0x04]
      || b[1..5] == [0x82, 0x00, 0x3d, 0x04]
      || b[1..7] == [0x84, 0x00, 0x00, 0x00, 0x3b, 0x04]
  {
    hide DecodeEcPoint;
    assert b[1..3] == [b[1], b[2]] && b[1..5] == [b[1], b[2], b[3], b[4]];
    assert b[1..7] == [b[1], b[2], b[3], b[4], b[5], b[6]];
    if b[1] < 0x80 { UnwrapsShort(b); }
    else if b[1] == 0x82 { UnwrapsTwo(b); }
    else if b[1] == 0x84 { UnwrapsFour(b); }
    else { UnwrapsNot(b); }
  }
}

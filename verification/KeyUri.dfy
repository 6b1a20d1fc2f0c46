/** Key URIs, encrypt/pkcs11/uri.ts (RFC 7512). A reference is text of Unicode characters. */
module KeyUris {
  import opened Common
  import opened Texts
  import Utf8

  datatype Class = Data | Certificate | PublicKey | PrivateKey | SecretKey

  datatype KeyUri = KeyUri(token: Option<string>, objectLabel: Option<string>, id: Option<Bytes>, objectClass: Option<Class>)

  datatype UriError = NotAUri | NoAttributes | PinInUri | Malformed | BadEscape | UnsupportedType | NoObjectOrId

  function Scheme(): string { "pkcs11:" }

  function TypeName(c: Class): string {
    match c case Data => "data" case Certificate => "cert" case PublicKey => "public" case PrivateKey => "private"
            case SecretKey => "secret-key"
  }

  function ClassFromType(s: string): Option<Class> {
    if s == "private" then Some(PrivateKey) else if s == "public" then Some(PublicKey)
    else if s == "secret-key" then Some(SecretKey) else if s == "cert" then Some(Certificate)
    else if s == "data" then Some(Data) else None
  }

  // ---- percent escapes ----

  predicate Unreserved(c: char) {
    'A' <= c <= 'Z' || 'a' <= c <= 'z' || '0' <= c <= '9' || c in "-._~:[]@!$'()*+,"
  }

  function HexDigit(n: int): char
    requires 0 <= n < 16
  {
    if n < 10 then (n + 48) as char else (n + 55) as char
  }

  function HexValue(c: char): (r: Option<int>)
    ensures r.Some? ==> 0 <= r.value < 16
  {
    if '0' <= c <= '9' then Some(c as int - 48) else if 'A' <= c <= 'F' then Some(c as int - 55)
    else if 'a' <= c <= 'f' then Some(c as int - 87) else None
  }

  function EscapeByte(b: byte): (r: string)
    ensures 1 <= |r| <= 3
  {
    if Unreserved(b as char) then [b as char] else ['%', HexDigit(b / 16), HexDigit(b % 16)]
  }

  function Escape(b: Bytes): string { if b == [] then "" else EscapeByte(b[0]) + Escape(b[1..]) }

  /** A character outside the first plane is two code units, each replaced on its own. */
  function LiteralBytes(c: char): Bytes {
    if c as int >= 0x10000 then Utf8.EncodeChar(Utf8.REPLACEMENT) + Utf8.EncodeChar(Utf8.REPLACEMENT) else Utf8.EncodeChar(c)
  }

  function HexAt(raw: string, i: nat): (r: Option<byte>) {
    if i + 1 < |raw| && HexValue(raw[i]).Some? && HexValue(raw[i + 1]).Some?
    then Some(HexValue(raw[i]).value * 16 + HexValue(raw[i + 1]).value) else None
  }

  function Unescape(raw: string): Option<Bytes> {
    if raw == "" then Some([])
    else if raw[0] != '%' then Prefixed(LiteralBytes(raw[0]), Unescape(raw[1..]))
    else if HexAt(raw, 1) == None then None
    else Prefixed([HexAt(raw, 1).value], Unescape(raw[3..]))
  }

  function Prefixed(b: Bytes, rest: Option<Bytes>): Option<Bytes> { if rest == None then None else Some(b + rest.value) }

  method UnescapeAttribute(raw: string) returns (r: Option<Bytes>)
    ensures r == Unescape(raw)
  {
    var out: Bytes := [];
    var index := 0;
    assert raw[0..] == raw;
    PrefixedNothing(Unescape(raw));
    while index < |raw|
      invariant 0 <= index <= |raw| && Unescape(raw) == Prefixed(out, Unescape(raw[index..]))
    {
      hide LiteralBytes, HexValue;
      var tail := raw[index..];
      if raw[index] != '%' {
        assert tail[1..] == raw[index + 1..];
        PrefixedTwice(out, LiteralBytes(raw[index]), Unescape(raw[index + 1..]));
        out := out + LiteralBytes(raw[index]);
        index := index + 1;
      } else {
        var hex := HexAt(raw, index + 1);
        HexAtTail(raw, index);
        if hex == None {
          return None;
        }
        assert tail[3..] == raw[index + 3..];
        PrefixedTwice(out, [hex.value], Unescape(raw[index + 3..]));
        out := out + [hex.value];
        index := index + 3;
      }
    }
    assert raw[index..] == "";
    assert out + [] == out;
    r := Some(out);
  }

  lemma PrefixedNothing(rest: Option<Bytes>)
    ensures Prefixed([], rest) == rest
  {
    if rest.Some? { assert [] + rest.value == rest.value; }
  }

  lemma HexAtTail(raw: string, index: nat)
    requires index < |raw|
    ensures HexAt(raw, index + 1) == HexAt(raw[index..], 1)
  {
  }

  lemma PrefixedTwice(a: Bytes, b: Bytes, rest: Option<Bytes>)
    ensures Prefixed(a, Prefixed(b, rest)) == Prefixed(a + b, rest)
  {
    if rest.Some? { assert a + (b + rest.value) == a + b + rest.value; }
  }

  method EscapeAttribute(value: Bytes) returns (out: string)
    ensures out == Escape(value)
  {
    out := "";
    for i := 0 to |value|
      invariant Escape(value) == out + Escape(value[i..])
    {
      hide EscapeByte;
      assert value[i..][1..] == value[i + 1..];
      assert out + (EscapeByte(value[i]) + Escape(value[i + 1..])) == out + EscapeByte(value[i]) + Escape(value[i + 1..]);
      out := out + EscapeByte(value[i]);
    }
    assert out + "" == out;
  }

  /** Printable ASCII that does not start a query. */
  predicate Visible(c: char) { '!' <= c <= '~' && c != '?' }

  lemma HexBack(b: byte)
    ensures HexValue(HexDigit(b / 16)) == Some(b / 16) && HexValue(HexDigit(b % 16)) == Some(b % 16)
    ensures Visible(HexDigit(b / 16)) && Visible(HexDigit(b % 16)) && HexDigit(b / 16) !in ";=" && HexDigit(b % 16) !in ";="
  {
  }

  lemma EscapeByteBack(b: byte, rest: string)
    ensures Unescape(EscapeByte(b) + rest) == Prefixed([b], Unescape(rest))
    ensures forall c | c in EscapeByte(b) :: Visible(c) && c !in ";="
  {
    HexBack(b);
    var e, s := EscapeByte(b), EscapeByte(b) + rest;
    if Unreserved(b as char) {
      assert s[1..] == rest;
    } else {
      assert s[3..] == rest && s[1] == HexDigit(b / 16) && s[2] == HexDigit(b % 16);
      assert HexAt(s, 1) == Some(b / 16 * 16 + b % 16);
    }
  }

  /** Percent escapes carry arbitrary bytes. */
  lemma {:induction false} EscapeRoundTrip(b: Bytes)
    ensures Unescape(Escape(b)) == Some(b)
    ensures forall c | c in Escape(b) :: Visible(c) && c !in ";="
    decreases |b|
  {
    if b != [] {
      EscapeRoundTrip(b[1..]);
      EscapeByteBack(b[0], Escape(b[1..]));
      hide EscapeByte, Visible;
      assert b == [b[0]] + b[1..];
    }
  }

  // ---- parsing ----

  predicate CarriesPin(query: string) {
    exists segment :: segment in Split(query, '&') && PinName(segment[..Find(segment, '=')])
  }

  predicate PinName(name: string) { name == "pin-value" || name == "pin-source" }

  function SetAttribute(u: KeyUri, name: string, value: Bytes): Result<KeyUri, UriError> {
    if name == "token" then Ok(u.(token := Some(Utf8.Decode(value))))
    else if name == "object" then Ok(u.(objectLabel := Some(Utf8.Decode(value))))
    else if name == "id" then Ok(u.(id := Some(value)))
    else if name == "type" then
      var c := ClassFromType(Utf8.Decode(value));
      if c == None then Err(UnsupportedType) else Ok(u.(objectClass := c))
    else Ok(u)
  }

  function ParseSegment(u: KeyUri, segment: string): Result<KeyUri, UriError> {
    if segment == "" then Ok(u) else
    var at := Find(segment, '=');
    if at == |segment| then Err(Malformed) else
    var value := Unescape(segment[at + 1..]);
    if value == None then Err(BadEscape) else SetAttribute(u, segment[..at], value.value)
  }

  function ParseSegments(u: KeyUri, segments: seq<string>): Result<KeyUri, UriError>
    decreases |segments|
  {
    if segments == [] then Ok(u) else
    match ParseSegment(u, segments[0]) case Err(e) => Err(e) case Ok(v) => ParseSegments(v, segments[1..])
  }

  predicate Addresses(u: KeyUri) {
    (u.objectLabel.Some? && u.objectLabel.value != "") || (u.id.Some? && u.id.value != [])
  }

  const EMPTY := KeyUri(None, None, None, None)

  /** The attributes of a reference, up to its query. */
  function ParseBody(body: string): Result<KeyUri, UriError> {
    if body == "" then Err(NoAttributes) else
    match ParseSegments(EMPTY, Split(body, ';'))
    case Err(e) => Err(e)
    case Ok(u) => if Addresses(u) then Ok(u) else Err(NoObjectOrId)
  }

  /** What follows the scheme. */
  function ParseRest(rest: string): Result<KeyUri, UriError> {
    var query := Find(rest, '?');
    if query < |rest| && rest[query + 1..] != "" && CarriesPin(rest[query + 1..]) then Err(PinInUri) else ParseBody(rest[..query])
  }

  function Parse(reference: string): Result<KeyUri, UriError> {
    var trimmed := Trim(reference);
    if !(Scheme() <= Trim(trimmed)) then Err(NotAUri) else
    TrimTwice(reference);
    ParseRest(trimmed[|Scheme()|..])
  }

  method ParseKeyUri(reference: string) returns (r: Result<KeyUri, UriError>)
    ensures r == Parse(reference)
  {
    TrimTwice(reference);
    var trimmed := Trim(reference);
    if !(Scheme() <= trimmed) {
      return Err(NotAUri);
    }
    var body := trimmed[|Scheme()|..];
    var queryStart := Find(body, '?');
    if queryStart < |body| {
      var refused := RejectPinAttributes(body[queryStart + 1..]);
      if refused {
        return Err(PinInUri);
      }
    }
    body := body[..queryStart];
    if body == "" {
      return Err(NoAttributes);
    }
    var parsed, segments := EMPTY, Split(body, ';');
    for i := 0 to |segments|
      invariant ParseSegments(EMPTY, segments) == ParseSegments(parsed, segments[i..])
    {
      hide ParseSegment;
      assert segments[i..][1..] == segments[i + 1..];
      var next := ParseSegment(parsed, segments[i]);
      if next.Err? {
        return Err(next.error);
      }
      parsed := next.value;
    }
    r := if Addresses(parsed) then Ok(parsed) else Err(NoObjectOrId);
  }

  method RejectPinAttributes(query: string) returns (refused: bool)
    ensures refused == (query != "" && CarriesPin(query))
  {
    if query == "" {
      return false;
    }
    var segments := Split(query, '&');
    for i := 0 to |segments|
      invariant forall j | 0 <= j < i :: !PinName(segments[j][..Find(segments[j], '=')])
    {
      if PinName(segments[i][..Find(segments[i], '=')]) {
        return true;
      }
    }
    return false;
  }

  // ---- formatting ----

  function Attribute(name: string, value: Bytes): seq<string> { [name + "=" + Escape(value)] }

  function TextPart(name: string, text: Option<string>): seq<string> {
    if text == None || text.value == "" then [] else Attribute(name, Utf8.Encode(text.value))
  }

  function IdPart(u: KeyUri): seq<string> { if u.id == None || u.id.value == [] then [] else Attribute("id", u.id.value) }

  function TypePart(u: KeyUri): seq<string> { if u.objectClass == None then [] else ["type=" + TypeName(u.objectClass.value)] }

  function Parts(u: KeyUri): seq<string> {
    TextPart("token", u.token) + TextPart("object", u.objectLabel) + IdPart(u) + TypePart(u)
  }

  function Format(u: KeyUri): string { Scheme() + Join(Parts(u), ';') }

  /** What survives: empty attributes are not written, and a leading byte order mark is not read back. */
  function Kept(text: Option<string>): Option<string> {
    if text == None || text.value == "" then None
    else if Utf8.StartsWithBom(text.value) then Some(text.value[1..]) else text
  }

  function Surviving(u: KeyUri): KeyUri {
    KeyUri(Kept(u.token), Kept(u.objectLabel), if u.id == None || u.id.value == [] then None else u.id, u.objectClass)
  }

  predicate Clean(part: string) { forall c | c in part :: Visible(c) && c != ';' }

  lemma {:induction false} SegmentsOn(u: KeyUri, xs: seq<string>, ys: seq<string>)
    requires ParseSegments(u, xs).Ok?
    ensures ParseSegments(u, xs + ys) == ParseSegments(ParseSegments(u, xs).value, ys)
    decreases |xs|
  {
    if xs == [] {
      assert xs + ys == ys;
    } else {
      assert (xs + ys)[1..] == xs[1..] + ys;
      SegmentsOn(ParseSegment(u, xs[0]).value, xs[1..], ys);
    }
  }

  lemma OneSegment(u: KeyUri, segment: string)
    ensures ParseSegments(u, [segment]) == ParseSegment(u, segment)
  {
    assert [segment][1..] == [];
  }

  predicate Plain(name: string) { '=' !in name && Clean(name) }

  lemma SegmentParses(u: KeyUri, name: string, raw: string, value: Bytes)
    requires Plain(name) && Clean(raw) && Unescape(raw) == Some(value)
    ensures ParseSegments(u, [name + "=" + raw]) == SetAttribute(u, name, value)
    ensures Clean(name + "=" + raw)
  {
    assert Clean("=");
    CleanBoth(name, "=");
    CleanBoth(name + "=", raw);
    hide Unescape, Clean, SetAttribute;
    var segment := name + "=" + raw;
    assert segment == name + ['='] + raw;
    FindAt(name, '=', raw);
    assert segment[..|name|] == name && segment[|name| + 1..] == raw;
    OneSegment(u, segment);
  }

  lemma CleanBoth(a: string, b: string)
    requires Clean(a) && Clean(b)
    ensures Clean(a + b)
  {
  }

  lemma AttributeParses(u: KeyUri, name: string, value: Bytes)
    requires Plain(name)
    ensures ParseSegments(u, Attribute(name, value)) == SetAttribute(u, name, value)
    ensures Clean(Attribute(name, value)[0])
  {
    EscapeRoundTrip(value);
    assert Clean(Escape(value));
    hide Unescape, Escape, Clean, SetAttribute;
    SegmentParses(u, name, Escape(value), value);
  }

  lemma TextParses(u: KeyUri, name: string, text: Option<string>)
    requires Plain(name)
    ensures ParseSegments(u, TextPart(name, text)) ==
      if TextPart(name, text) == [] then Ok(u) else SetAttribute(u, name, Utf8.Encode(text.value))
    ensures TextPart(name, text) != [] ==> Some(Utf8.Decode(Utf8.Encode(text.value))) == Kept(text)
    ensures forall p | p in TextPart(name, text) :: Clean(p)
  {
    if TextPart(name, text) != [] {
      AttributeParses(u, name, Utf8.Encode(text.value));
      Utf8.RoundTrip(text.value);
    }
  }

  lemma TypeParses(u: KeyUri, c: Option<Class>)
    requires u.objectClass == None
    ensures ParseSegments(u, TypePart(EMPTY.(objectClass := c))) == Ok(u.(objectClass := c))
    ensures forall p | p in TypePart(EMPTY.(objectClass := c)) :: Clean(p)
  {
    if c.Some? {
      assert Plain("type");
      hide Unescape, Clean, TypeName, ClassFromType, Utf8.Decode, Utf8.Encode, ParseSegments;
      var name := TypeName(c.value);
      TypeNameBack(c.value);
      SegmentParses(u, "type", name, Utf8.Encode(name));
      assert "type" + "=" + name == "type=" + name;
    }
  }

  predicate IsAscii(s: string) { forall c | c in s :: c as int < 0x80 && c != '%' }

  lemma {:induction false} AsciiUnescapes(s: string)
    requires IsAscii(s)
    ensures Unescape(s) == Some(Utf8.Encode(s))
    decreases |s|
  {
    if s != "" {
      assert s[0] in s && forall c | c in s[1..] :: c in s;
      AsciiUnescapes(s[1..]);
    }
  }

  lemma TypeNamePlain(c: Class)
    ensures var s := TypeName(c); Clean(s) && IsAscii(s) && !Utf8.StartsWithBom(s) && ClassFromType(s) == Some(c)
  {
  }

  lemma TypeNameBack(c: Class)
    ensures Unescape(TypeName(c)) == Some(Utf8.Encode(TypeName(c))) && Clean(TypeName(c))
    ensures ClassFromType(Utf8.Decode(Utf8.Encode(TypeName(c)))) == Some(c)
  {
    TypeNamePlain(c);
    hide TypeName, ClassFromType, IsAscii, Clean, Unescape, Utf8.Encode, Utf8.Decode;
    AsciiUnescapes(TypeName(c));
    Utf8.RoundTrip(TypeName(c));
  }

  lemma IdParses(u: KeyUri, v: KeyUri)
    requires v.id == None
    ensures ParseSegments(v, IdPart(u)) == Ok(v.(id := if u.id == None || u.id.value == [] then None else u.id))
    ensures forall p | p in IdPart(u) :: Clean(p)
  {
    if IdPart(u) != [] { AttributeParses(v, "id", u.id.value); }
  }

  lemma PartsParse(u: KeyUri)
    ensures ParseSegments(EMPTY, Parts(u)) == Ok(Surviving(u))
    ensures forall p | p in Parts(u) :: Clean(p)
  {
    var token, named, id, kind := TextPart("token", u.token), TextPart("object", u.objectLabel), IdPart(u), TypePart(u);
    var one := EMPTY.(token := Kept(u.token));
    var two := one.(objectLabel := Kept(u.objectLabel));
    var three := two.(id := if u.id == None || u.id.value == [] then None else u.id);
    TextParses(EMPTY, "token", u.token);
    TextParses(one, "object", u.objectLabel);
    IdParses(u, two);
    TypeParses(three, u.objectClass);
    assert kind == TypePart(EMPTY.(objectClass := u.objectClass));
    assert ParseSegments(EMPTY, token) == Ok(one) && ParseSegments(one, named) == Ok(two);
    hide TextPart, IdPart, TypePart, ParseSegments, Clean;
    SegmentsOn(EMPTY, token, named);
    SegmentsOn(EMPTY, token + named, id);
    SegmentsOn(EMPTY, token + named + id, kind);
  }

  lemma {:induction false} JoinClean(parts: seq<string>)
    requires forall p | p in parts :: Clean(p)
    ensures forall c | c in Join(parts, ';') :: Visible(c)
    decreases |parts|
  {
    if parts != [] {
      assert parts[0] in parts && forall p | p in parts[1..] :: p in parts;
      JoinClean(parts[1..]);
      assert |parts| > 1 ==>
        forall c | c in Join(parts, ';') :: c in parts[0] || c == ';' || c in Join(parts[1..], ';');
    }
  }

  lemma JoinEmpty(parts: seq<string>)
    requires forall p | p in parts :: p != ""
    ensures Join(parts, ';') == "" <==> parts == []
  {
    if parts != [] { assert parts[0] in parts; }
  }

  lemma FormatIs(u: KeyUri)
    ensures Format(u) == Scheme() + Join(Parts(u), ';')
  {
  }

  lemma SchemeVisible(rest: string)
    requires forall c | c in rest :: Visible(c)
    ensures (forall c | c in Scheme() + rest :: Visible(c)) && '?' !in rest
  {
    assert !Visible('?');
    assert forall c | c in Scheme() :: Visible(c);
    hide Visible, Scheme;
  }

  lemma FormatClean(u: KeyUri)
    ensures Trim(Format(u)) == Scheme() + Join(Parts(u), ';') && '?' !in Join(Parts(u), ';')
  {
    hide *;
    PartsParse(u);
    JoinClean(Parts(u));
    SchemeVisible(Join(Parts(u), ';'));
    VisibleTrims(Scheme() + Join(Parts(u), ';'));
    FormatIs(u);
  }

  lemma FormatIsReference(u: KeyUri)
    ensures Parse(Format(u)) == ParseBody(Join(Parts(u), ';'))
  {
    var body := Join(Parts(u), ';');
    FormatClean(u);
    hide Parts, Join, ParseBody, Trim, Scheme, Parse, Format;
    ParseTrimmed(Format(u), body);
    FindNone(body, '?');
    assert body[..|body|] == body;
  }

  lemma ParseTrimmed(reference: string, rest: string)
    requires Trim(reference) == Scheme() + rest
    ensures Parse(reference) == ParseRest(rest)
  {
    TrimTwice(reference);
    hide Trim, Scheme, ParseRest;
    assert Trim(reference)[|Scheme()|..] == rest;
  }

  lemma VisibleTrims(s: string)
    requires forall c | c in s :: Visible(c)
    ensures Trim(s) == s
  {
    if s != "" { assert s[0] in s && s[|s| - 1] in s; }
    Trimmed(s);
  }

  // ---- main results ----

  /** Reading back what was written, for every URI: exactly what survives, if that names an object or an id. */
  lemma ParseFormat(u: KeyUri)
    ensures Parse(Format(u)) ==
      if Parts(u) == [] then Err(NoAttributes) else if Addresses(Surviving(u)) then Ok(Surviving(u)) else Err(NoObjectOrId)
  {
    FormatIsReference(u);
    PartsParse(u);
    PartsNotEmpty(u);
    JoinEmpty(Parts(u));
    hide Parts, ParseSegments, Surviving, Parse, Format;
    if Parts(u) != [] { SplitJoin(Parts(u), ';'); }
  }

  lemma PartsNotEmpty(u: KeyUri)
    ensures forall p | p in Parts(u) :: p != ""
  {
    hide Escape;
    assert forall p | p in TextPart("token", u.token) || p in TextPart("object", u.objectLabel) :: p != "";
    assert forall p | p in IdPart(u) || p in TypePart(u) :: p != "";
  }

  predicate NoBom(text: Option<string>) { text.Some? ==> !Utf8.StartsWithBom(text.value) }

  /** A URI with a non-empty object or id, whatever its id bytes, comes back unchanged up to empty attributes exactly
      when neither text starts with a byte order mark. */
  lemma RoundTrip(u: KeyUri)
    requires Addresses(u)
    ensures Parse(Format(u)) == Ok(Normal(u)) <==> NoBom(u.token) && NoBom(u.objectLabel)
  {
    ParseFormat(u);
  }

  function Normal(u: KeyUri): KeyUri {
    KeyUri(if u.token == Some("") then None else u.token, if u.objectLabel == Some("") then None else u.objectLabel,
           if u.id == Some([]) then None else u.id, u.objectClass)
  }

  function Total(parts: seq<string>): nat { if parts == [] then 0 else |parts[0]| + 1 + Total(parts[1..]) }

  lemma {:induction false} TotalOn(xs: seq<string>, ys: seq<string>)
    ensures Total(xs + ys) == Total(xs) + Total(ys)
    decreases |xs|
  {
    if xs == [] {
      assert xs + ys == ys;
    } else {
      assert (xs + ys)[1..] == xs[1..] + ys;
      TotalOn(xs[1..], ys);
    }
  }

  lemma {:induction false} JoinTotal(parts: seq<string>)
    ensures parts != [] ==> |Join(parts, ';')| + 1 == Total(parts)
    decreases |parts|
  {
    if |parts| > 1 { JoinTotal(parts[1..]); }
    if |parts| == 1 { assert parts[1..] == []; }
  }

  lemma PartsTotal(u: KeyUri)
    ensures Total(Parts(u)) ==
      Total(TextPart("token", u.token)) + Total(TextPart("object", u.objectLabel)) + Total(IdPart(u)) + Total(TypePart(u))
  {
    hide TextPart, IdPart, TypePart;
    TotalOn(TextPart("token", u.token) + TextPart("object", u.objectLabel) + IdPart(u), TypePart(u));
    TotalOn(TextPart("token", u.token) + TextPart("object", u.objectLabel), IdPart(u));
    TotalOn(TextPart("token", u.token), TextPart("object", u.objectLabel));
  }

  lemma KeptShorter(name: string, text: Option<string>)
    ensures NoBom(text) ==> TextPart(name, Kept(text)) == TextPart(name, text)
    ensures !NoBom(text) ==> Total(TextPart(name, Kept(text))) < Total(TextPart(name, text))
  {
    if !NoBom(text) {
      var rest := Utf8.Encode(text.value[1..]);
      assert Utf8.EncodeChar(Utf8.BOM) == [0xEF, 0xBB, 0xBF];
      assert Utf8.Encode(text.value) == [0xEF, 0xBB, 0xBF] + rest;
      EscapeLonger([0xEF, 0xBB, 0xBF], rest);
      AttributeTotal(name, Utf8.Encode(text.value));
      AttributeTotal(name, rest);
    }
  }

  lemma AttributeTotal(name: string, value: Bytes)
    ensures Total(Attribute(name, value)) == |name| + |Escape(value)| + 2
  {
    assert Attribute(name, value)[1..] == [];
  }

  lemma {:induction false} EscapeLonger(b: Bytes, rest: Bytes)
    ensures |Escape(b + rest)| >= |b| + |Escape(rest)|
    decreases |b|
  {
    if b == [] {
      assert b + rest == rest;
    } else {
      assert (b + rest)[1..] == b[1..] + rest;
      EscapeLonger(b[1..], rest);
    }
  }

  lemma FormatLength(u: KeyUri)
    ensures Parts(u) != [] ==> |Format(u)| + 1 == |Scheme()| + Total(Parts(u))
  {
    JoinTotal(Parts(u));
  }

  lemma SurvivingShorter(u: KeyUri)
    ensures var v := Surviving(u);
      if NoBom(u.token) && NoBom(u.objectLabel) then Parts(v) == Parts(u) else Total(Parts(v)) < Total(Parts(u))
  {
    var v := Surviving(u);
    KeptShorter("token", u.token);
    KeptShorter("object", u.objectLabel);
    PartsTotal(u);
    PartsTotal(v);
    assert IdPart(u) == IdPart(v) && TypePart(u) == TypePart(v);
    hide TextPart, IdPart, TypePart, Total, NoBom, Kept;
    assert NoBom(u.token) && NoBom(u.objectLabel) ==> Parts(v) == Parts(u);
  }

  /** Once parsed, formatting is stable: parsing and formatting again changes nothing, exactly when neither parsed text
      starts with a byte order mark. */
  lemma Idempotent(reference: string)
    requires Parse(reference).Ok?
    ensures var u := Parse(reference).value;
      (Parse(Format(u)).Ok? && Format(Parse(Format(u)).value) == Format(u)) <==> NoBom(u.token) && NoBom(u.objectLabel)
  {
    var u := Parse(reference).value;
    var v := Surviving(u);
    assert Addresses(u) && Parts(u) != [];
    assert NoBom(u.token) && NoBom(u.objectLabel) ==> Addresses(v);
    assert Addresses(v) ==> Parts(v) != [];
    assert Parts(v) == Parts(u) ==> Format(v) == Format(u);
    ParseFormat(u);
    hide Parts, NoBom, Surviving, Parse, Format, Addresses, Total;
    SurvivingShorter(u);
    FormatLength(u);
    FormatLength(v);
  }

  lemma PinFound(before: seq<string>, segment: string, after: seq<string>)
    requires forall p | p in before + [segment] + after :: '&' !in p
    requires PinName(segment[..Find(segment, '=')])
    ensures var query := Join(before + [segment] + after, '&'); query != "" && CarriesPin(query)
  {
    hide Find, PinName;
    var segments := before + [segment] + after;
    SplitJoin(segments, '&');
    assert segments[|before|] == segment;
    if Join(segments, '&') == "" {
      SplitWhole("", '&');
      assert segments == [segment] == [""];
      NoNamelessPin();
    }
  }

  lemma NoNamelessPin()
    ensures !PinName(""[..Find("", '=')])
  {
  }

  lemma QueryRefused(path: string, query: string)
    requires '?' !in path && query != "" && CarriesPin(query)
    ensures ParseRest(path + ['?'] + query) == Err(PinInUri)
  {
    hide CarriesPin, ParseBody;
    FindAt(path, '?', query);
    assert (path + ['?'] + query)[|path| + 1..] == query;
  }

  /** A reference whose query names the PIN is refused, wherever the attribute stands in the query. */
  lemma PinRefused(reference: string, path: string, before: seq<string>, segment: string, after: seq<string>)
    requires '?' !in path && (forall p | p in before + [segment] + after :: '&' !in p)
    requires Trim(reference) == Scheme() + path + "?" + Join(before + [segment] + after, '&')
    requires PinName(segment[..Find(segment, '=')])
    ensures Parse(reference) == Err(PinInUri)
  {
    hide *;
    var query := Join(before + [segment] + after, '&');
    PinFound(before, segment, after);
    QueryRefused(path, query);
    assert Trim(reference) == Scheme() + (path + ['?'] + query);
    ParseTrimmed(reference, path + ['?'] + query);
  }
}

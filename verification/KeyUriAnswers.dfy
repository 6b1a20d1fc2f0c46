/** What each part of a key URI means, whatever its order and case, encrypt/pkcs11/uri.ts. */
module KeyUriAnswers {
  import opened Common
  import opened Texts
  import opened KeyUris
  import Utf8

  // ---- percent escapes ----

  const Lower := "0123456789abcdef"
  const Upper := "0123456789ABCDEF"

  /** A character is a hexadecimal digit exactly when it stands among the sixteen, in either case, and counts its place. */
  lemma HexIff(c: char, n: int)
    ensures HexValue(c) == Some(n) <==> 0 <= n < 16 && (c == Lower[n] || c == Upper[n])
  {
  }

  lemma HexOf(n: int)
    requires 0 <= n < 16
    ensures HexValue(Lower[n]) == Some(n) && HexValue(Upper[n]) == Some(n)
  {
    HexIff(Lower[n], n);
    HexIff(Upper[n], n);
  }

  /** An escape stands for its byte in either case, digit by digit. */
  lemma EscapeReads(hi: char, lo: char, x: int, y: int, rest: string)
    requires 0 <= x < 16 && 0 <= y < 16 && hi in [Lower[x], Upper[x]] && lo in [Lower[y], Upper[y]]
    ensures Unescape(['%', hi, lo] + rest) == Prefixed([x * 16 + y], Unescape(rest))
  {
    hide *;
    HexGiven(hi, x);
    HexGiven(lo, y);
    EscapeIs(hi, lo, x, y, rest);
  }

  lemma HexGiven(c: char, n: int)
    requires 0 <= n < 16 && c in [Lower[n], Upper[n]]
    ensures HexValue(c) == Some(n)
  {
    HexIff(c, n);
    hide HexValue;
  }

  lemma EscapeIs(hi: char, lo: char, x: int, y: int, rest: string)
    requires HexValue(hi) == Some(x) && HexValue(lo) == Some(y)
    ensures Unescape(['%', hi, lo] + rest) == Prefixed([x * 16 + y], Unescape(rest))
  {
    hide HexValue;
    var raw := ['%', hi, lo] + rest;
    assert raw[1] == hi && raw[2] == lo && raw[3..] == rest;
  }

  /** A percent sign without two digits behind it is refused, wherever it stands. */
  lemma EscapeRefused(before: string, rest: string)
    requires |rest| < 2 || HexValue(rest[0]) == None || HexValue(rest[1]) == None
    requires Unescape(before).Some?
    ensures Unescape(before + ['%'] + rest) == None
  {
    var tail := ['%'] + rest;
    assert tail[0] == '%' && (|rest| > 0 ==> tail[1] == rest[0]) && (|rest| > 1 ==> tail[2] == rest[1]);
    assert Unescape(tail) == None;
    assert before + ['%'] + rest == before + tail;
    UnescapeOn(before, tail);
  }

  lemma {:induction false} UnescapeOn(before: string, rest: string)
    requires Unescape(before).Some?
    ensures Unescape(before + rest) == Prefixed(Unescape(before).value, Unescape(rest))
    decreases |before|
  {
    hide HexValue, LiteralBytes;
    var s := before + rest;
    if before == "" {
      assert s == rest;
      PrefixedNothing(Unescape(rest));
    } else if before[0] != '%' {
      assert s[1..] == before[1..] + rest;
      UnescapeOn(before[1..], rest);
      PrefixedTwice(LiteralBytes(before[0]), Unescape(before[1..]).value, Unescape(rest));
    } else {
      assert HexAt(before, 1) == HexAt(s, 1);
      assert s[3..] == before[3..] + rest;
      UnescapeOn(before[3..], rest);
      PrefixedTwice([HexAt(before, 1).value], Unescape(before[3..]).value, Unescape(rest));
    }
  }

  /** Any other character stands for its UTF-8 octets; one outside the first plane, being two code units, for two
      replacement characters. */
  lemma PlainReads(c: char, rest: string)
    requires c != '%'
    ensures Unescape([c] + rest) ==
      Prefixed(if c as int < 0x10000 then Utf8.EncodeChar(c) else [0xEF, 0xBF, 0xBD, 0xEF, 0xBF, 0xBD], Unescape(rest))
  {
    assert ([c] + rest)[1..] == rest;
    assert Utf8.EncodeChar(Utf8.REPLACEMENT) == [0xEF, 0xBF, 0xBD];
    assert [0xEF, 0xBF, 0xBD] + [0xEF, 0xBF, 0xBD] == [0xEF, 0xBF, 0xBD, 0xEF, 0xBF, 0xBD];
    assert ([c] + rest)[0] == c;
  }

  const Letters := "ABCDEFGHIJKLMNOPQRSTUVWXYZ"
  const SmallLetters := "abcdefghijklmnopqrstuvwxyz"
  const Digits := "0123456789"
  const Marks := "-._~:[]@!$'()*+,"

  predicate Plain(c: char) { c in Letters || c in SmallLetters || c in Digits || c in Marks }

  /** A byte is written as its character exactly when that is a letter, a digit or one of the marks; otherwise as an escape
      with upper-case digits. */
  lemma EscapeIff(b: byte)
    ensures EscapeByte(b) == (if Plain(b as char) then [b as char] else ['%', Upper[b / 16], Upper[b % 16]])
  {
    UpperDigit(b / 16);
    UpperDigit(b % 16);
    PlainIff(b as char);
    hide KeyUris.Unreserved, HexDigit;
  }

  lemma UpperDigit(n: int)
    requires 0 <= n < 16
    ensures HexDigit(n) == Upper[n]
  {
  }

  lemma LetterAt(i: int)
    requires 0 <= i < 26
    ensures Letters[i] as int == 65 + i && SmallLetters[i] as int == 97 + i
  {
  }

  lemma DigitAt(i: int)
    requires 0 <= i < 10
    ensures Digits[i] as int == 48 + i
  {
  }

  lemma LettersAre(c: char)
    ensures c in Letters <==> 'A' <= c <= 'Z'
    ensures c in SmallLetters <==> 'a' <= c <= 'z'
    ensures c in Digits <==> '0' <= c <= '9'
  {
    assert |Letters| == 26 && |SmallLetters| == 26 && |Digits| == 10;
    forall i | 0 <= i < 26 ensures Letters[i] as int == 65 + i && SmallLetters[i] as int == 97 + i { LetterAt(i); }
    forall i | 0 <= i < 10 ensures Digits[i] as int == 48 + i { DigitAt(i); }
    hide *;
    if 'A' <= c <= 'Z' { assert Letters[c as int - 65] == c; }
    if 'a' <= c <= 'z' { assert SmallLetters[c as int - 97] == c; }
    if '0' <= c <= '9' { assert Digits[c as int - 48] == c; }
  }

  lemma PlainIff(c: char)
    ensures KeyUris.Unreserved(c) <==> Plain(c)
  {
    LettersAre(c);
  }

  /** The five types by their names (RFC 7512, section 2.3), and no others. */
  lemma TypeIff(s: string, c: Class)
    ensures ClassFromType(s) == Some(c) <==> s == TypeName(c)
    ensures ClassFromType(s) == None <==> s !in ["data", "cert", "public", "private", "secret-key"]
  {
    assert "private"[1] != "public"[1];
    assert |"private"| == 7 && |"public"| == 6 && |"secret-key"| == 10 && |"cert"| == 4 && |"data"| == 4;
    assert "cert"[0] != "data"[0];
  }

  /** A query names the PIN when one of its segments is called pin-value or pin-source. */
  lemma PinIff(query: string)
    ensures CarriesPin(query) <==> exists segment :: segment in Split(query, '&') && Called(segment)
  {
    hide Split;
    forall segment | segment in Split(query, '&') ensures Called(segment) <==> PinName(segment[..Find(segment, '=')]) { }
  }

  predicate Called(segment: string) {
    var name := segment[..Find(segment, '=')]; name in ["pin-value", "pin-source"]
  }

  // ---- attributes ----

  predicate Named(segment: string, name: string) { '=' in segment && segment[..Find(segment, '=')] == name }

  function Raw(segment: string): string
    requires '=' in segment
  {
    segment[Find(segment, '=') + 1..]
  }

  /** Blank, or a name and a value that decodes; and a type that is known. */
  predicate Good(segment: string) {
    segment == "" ||
    ('=' in segment && Unescape(Raw(segment)).Some? &&
     (Named(segment, "type") ==> ClassFromType(Utf8.Decode(Unescape(Raw(segment)).value)).Some?))
  }

  /** The value of the last segment of that name. */
  function LastNamed(segments: seq<string>, name: string): Option<Bytes>
    decreases |segments|
  {
    if segments == [] then None else
    var last := segments[|segments| - 1];
    if Named(last, name) then Unescape(Raw(last)) else LastNamed(segments[..|segments| - 1], name)
  }

  function TextOf(value: Option<Bytes>): Option<string> { if value == None then None else Some(Utf8.Decode(value.value)) }

  function ClassOf(value: Option<Bytes>): Option<Class> { if value == None then None else ClassFromType(Utf8.Decode(value.value)) }

  function ByName(segments: seq<string>): KeyUri {
    KeyUri(TextOf(LastNamed(segments, "token")), TextOf(LastNamed(segments, "object")), LastNamed(segments, "id"),
           ClassOf(LastNamed(segments, "type")))
  }

  lemma NamesApart()
    ensures "token" != "object" && "token" != "id" && "token" != "type" && "object" != "id" && "object" != "type" && "id" != "type"
  {
    assert |"token"| == 5 && |"object"| == 6 && |"id"| == 2 && |"type"| == 4;
  }

  lemma SegmentIff(segment: string, u: KeyUri)
    ensures ParseSegment(u, segment).Ok? <==> Good(segment)
    ensures Good(segment) ==> var v := ParseSegment(u, segment).value;
      && v.token == (if Named(segment, "token") then TextOf(Unescape(Raw(segment))) else u.token)
      && v.objectLabel == (if Named(segment, "object") then TextOf(Unescape(Raw(segment))) else u.objectLabel)
      && v.id == (if Named(segment, "id") then Unescape(Raw(segment)) else u.id)
      && v.objectClass == (if Named(segment, "type") then ClassOf(Unescape(Raw(segment))) else u.objectClass)
  {
    NamesApart();
    FindIff(segment, '=');
    hide Unescape, ClassFromType, Utf8.Decode, Find;
  }

  lemma FindIff(s: string, c: char)
    ensures Find(s, c) < |s| <==> c in s
  {
    if c !in s { FindNone(s, c); }
  }

  lemma {:induction false} ParseSplits(u: KeyUri, xs: seq<string>, x: string)
    ensures ParseSegments(u, xs + [x]) ==
      match ParseSegments(u, xs) case Err(e) => Err(e) case Ok(v) => ParseSegment(v, x)
    decreases |xs|
  {
    hide ParseSegment;
    if xs == [] {
      assert xs + [x] == [x] && [x][1..] == [];
      assert forall v :: ParseSegments(v, []) == Ok(v);
    } else {
      assert (xs + [x])[1..] == xs[1..] + [x];
      if ParseSegment(u, xs[0]).Ok? { ParseSplits(ParseSegment(u, xs[0]).value, xs[1..], x); }
    }
  }

  /** The attributes of a URI are taken when each is good, and mean what the last one of each name says, whatever their
      order; unknown names are passed over. */
  lemma {:induction false} AttributesIff(segments: seq<string>)
    ensures ParseSegments(EMPTY, segments).Ok? <==> forall s | s in segments :: Good(s)
    ensures ParseSegments(EMPTY, segments).Ok? ==> ParseSegments(EMPTY, segments).value == ByName(segments)
    decreases |segments|
  {
    if segments != [] {
      var front, last := segments[..|segments| - 1], segments[|segments| - 1];
      assert segments == front + [last];
      hide ParseSegments, ParseSegment, Good, Named, TextOf, ClassOf;
      AttributesIff(front);
      ParseSplits(EMPTY, front, last);
      if ParseSegments(EMPTY, front).Ok? { SegmentIff(last, ParseSegments(EMPTY, front).value); }
      assert last in segments && forall s | s in front :: s in segments;
      assert forall s | s in segments :: s == last || s in front;
      LastMeans(segments);
    } else {
      NothingParsed();
    }
  }

  lemma NothingParsed()
    ensures ParseSegments(EMPTY, []) == Ok(ByName([]))
  {
  }

  lemma LastMeans(segments: seq<string>)
    requires segments != []
    ensures var front, last := segments[..|segments| - 1], segments[|segments| - 1];
      forall name :: LastNamed(segments, name) == if Named(last, name) then Unescape(Raw(last)) else LastNamed(front, name)
  {
    hide Named, Unescape, Raw;
  }

  /** A reference is taken exactly when it has the scheme, names no PIN in its query, and its attributes are good and
      address a key; then they say what it means. */
  lemma ParseIff(rest: string, u: KeyUri)
    requires Trim(Scheme() + rest) == Scheme() + rest
    ensures var at := Find(rest, '?'); var segments := Split(rest[..at], ';');
      Parse(Scheme() + rest) == Ok(u) <==>
        && !(at < |rest| && rest[at + 1..] != "" && CarriesPin(rest[at + 1..]))
        && rest[..at] != "" && (forall s | s in segments :: Good(s)) && Addresses(u) && u == ByName(segments)
  {
    hide *;
    var at := Find(rest, '?');
    ParseTrimmed(Scheme() + rest, rest);
    AttributesIff(Split(rest[..at], ';'));
    RestIs(rest);
  }

  lemma RestIs(rest: string)
    ensures var at := Find(rest, '?'); var parsed := ParseSegments(EMPTY, Split(rest[..at], ';'));
      at <= |rest| && ParseRest(rest) ==
        if at < |rest| && rest[at + 1..] != "" && CarriesPin(rest[at + 1..]) then Err(PinInUri)
        else if rest[..at] == "" then Err(NoAttributes)
        else if parsed.Err? then parsed else if Addresses(parsed.value) then parsed else Err(NoObjectOrId)
  {
    hide ParseSegments, Split, CarriesPin, Addresses;
  }

  /** Anything else is no key URI. */
  lemma NotAUriIff(reference: string)
    ensures Parse(reference) == Err(NotAUri) ==> !(Scheme() <= Trim(reference))
    ensures !(Scheme() <= Trim(reference)) ==> Parse(reference) == Err(NotAUri)
  {
    TrimTwice(reference);
    hide Trim, Scheme, ParseSegments, Split, CarriesPin;
    if Scheme() <= Trim(reference) {
      NeverNotAUri(Trim(reference)[|Scheme()|..]);
    }
  }

  lemma NeverNotAUri(rest: string)
    ensures ParseRest(rest) != Err(NotAUri)
  {
    SegmentsNever(EMPTY, Split(rest[..Find(rest, '?')], ';'));
    hide Split, CarriesPin, ParseSegments;
  }

  lemma {:induction false} SegmentsNever(u: KeyUri, segments: seq<string>)
    ensures ParseSegments(u, segments) != Err(NotAUri)
    decreases |segments|
  {
    if segments != [] && ParseSegment(u, segments[0]).Ok? {
      SegmentsNever(ParseSegment(u, segments[0]).value, segments[1..]);
      hide ParseSegment;
    }
  }
}

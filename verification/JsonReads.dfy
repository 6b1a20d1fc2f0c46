/** Scanning and parsing a rendered value: both read exactly the value, whatever its white space and escapes. */
module JsonReads {
  import opened Common
  import opened JsonText
  import opened JsonScan
  import Texts

  // ---- what the scanner should say, on the tree ----

  /** The first complaint in document order. */
  function Verdict(v: Json, depth: nat): Option<ScanError> {
    if depth > MAX_JSON_DEPTH then Some(TooDeep) else
    match v
    case Arr(_, items) => ItemsVerdict(items, depth + 1)
    case Obj(_, members) => MembersVerdict(members, depth + 1, {})
    case _ => None
  }

  function ItemsVerdict(items: Items, depth: nat): Option<ScanError> {
    if items.NoItems? then None else
    var first := Verdict(items.value, depth);
    if first.Some? then first else ItemsVerdict(items.others, depth)
  }

  function MembersVerdict(ms: Members, depth: nat, keys: set<Text>): Option<ScanError> {
    if ms.NoMembers? then None
    else if PiecesValue(ms.key) in keys then Some(Duplicate)
    else
      var first := Verdict(ms.field, depth);
      if first.Some? then first else MembersVerdict(ms.remaining, depth, keys + {PiecesValue(ms.key)})
  }

  function Outcome(e: Option<ScanError>, at: nat): Scan { if e.Some? then Failed(e.value) else Done(at) }

  // ---- the pieces of a text ----

  /** A scalar that ends at `k` ends there for the scanner and for the parser. */
  ghost predicate Delimited(json: Text, k: nat) { k == |json| || (k < |json| && EndsToken(json[k])) }

  lemma {:induction false} WsSkipped(json: Text, at: nat, space: Text)
    requires Holds(json, at, space) && AllWs(space) && (at + |space| < |json| ==> !IsWs(json[at + |space|]))
    ensures SkipWs(json, at) == at + |space|
    decreases |space|
  {
    if space != [] {
      assert space[0] in space && forall u | u in space[1..] :: u in space;
      assert IsWs(space[0]) && AllWs(space[1..]);
      hide Holds, AllWs, IsWs;
      FirstHeld(json, at, space);
      RestHeld(json, at, space);
      WsSkipped(json, at + 1, space[1..]);
    }
  }

  lemma RestHeld(json: Text, at: nat, token: Text)
    requires token != [] && Holds(json, at, token)
    ensures Holds(json, at + 1, token[1..])
  {
    assert [token[0]] + token[1..] == token;
    HoldsParts(json, at, [token[0]], token[1..]);
  }

  lemma {:induction false} TokenScanned(json: Text, at: nat, token: Text)
    requires Holds(json, at, token) && (forall u | u in token :: TokenUnit(u)) && Delimited(json, at + |token|)
    ensures ScalarEnd(json, at) == TokenEnd(json, at) == at + |token|
    decreases |token|
  {
    if token == [] {
      hide TokenUnit;
    } else {
      assert token[0] in token && !EndsScalar(token[0]) && !EndsToken(token[0]);
      hide EndsScalar, EndsToken, TokenUnit, Holds, Delimited;
      RestHeld(json, at, token);
      FirstHeld(json, at, token);
      assert forall u | u in token[1..] :: u in token;
      TokenScanned(json, at + 1, token[1..]);
    }
  }

  lemma {:induction false} StringScanned(json: Text, at: nat, ps: seq<Piece>)
    requires Holds(json, at, PiecesText(ps) + [QUOTE]) && GoodPieces(ps)
    ensures StringEnd(json, at) == Some(at + |PiecesText(ps)| + 1)
    decreases |ps|
  {
    hide *;
    if ps == [] {
      NoPieces(json, at);
    } else {
      var next := FirstScanned(json, at, ps);
      StringScanned(json, next, ps[1..]);
    }
  }

  lemma FirstScanned(json: Text, at: nat, ps: seq<Piece>) returns (next: nat)
    requires ps != [] && Holds(json, at, PiecesText(ps) + [QUOTE]) && GoodPieces(ps)
    ensures StringEnd(json, at) == StringEnd(json, next) && next + |PiecesText(ps[1..])| == at + |PiecesText(ps)|
    ensures Holds(json, next, PiecesText(ps[1..]) + [QUOTE]) && GoodPieces(ps[1..])
  {
    hide *;
    FirstPiece(ps);
    HoldsParts(json, at, PieceText(ps[0]), PiecesText(ps[1..]) + [QUOTE]);
    PieceScanned(json, at, ps[0]);
    next := at + |PieceText(ps[0])|;
  }

  lemma NoPieces(json: Text, at: nat)
    requires Holds(json, at, PiecesText([]) + [QUOTE])
    ensures StringEnd(json, at) == Some(at + 1) && |PiecesText([])| == 0
  {
    assert PiecesText([]) == [] && [] + [QUOTE] == [QUOTE];
    FirstHeld(json, at, [QUOTE]);
  }

  lemma FirstPiece(ps: seq<Piece>)
    requires ps != [] && GoodPieces(ps)
    ensures PiecesText(ps) + [QUOTE] == PieceText(ps[0]) + (PiecesText(ps[1..]) + [QUOTE])
    ensures |PiecesText(ps)| == |PieceText(ps[0])| + |PiecesText(ps[1..])|
    ensures GoodPiece(ps[0]) && GoodPieces(ps[1..])
  {
    hide PieceText, GoodPiece;
  }

  lemma OneScanned(json: Text, at: nat)
    requires at < |json| && json[at] != BACKSLASH && json[at] != QUOTE
    ensures StringEnd(json, at) == StringEnd(json, at + 1)
  {
  }

  lemma EscapeScanned(json: Text, at: nat)
    requires at < |json| && json[at] == BACKSLASH
    ensures StringEnd(json, at) == StringEnd(json, at + 2)
  {
  }

  lemma PieceScanned(json: Text, at: nat, p: Piece)
    requires Holds(json, at, PieceText(p)) && GoodPiece(p)
    ensures StringEnd(json, at) == StringEnd(json, at + |PieceText(p)|)
  {
    hide StringEnd;
    var t := PieceText(p);
    var s := json[at..at + |t|];
    assert s == t && s[0] == json[at];
    if p.Plain? {
      OneScanned(json, at);
    } else {
      EscapeScanned(json, at);
      if p.Hex? {
        assert s[2] == json[at + 2] && s[3] == json[at + 3] && s[4] == json[at + 4] && s[5] == json[at + 5];
        OneScanned(json, at + 2);
        OneScanned(json, at + 3);
        OneScanned(json, at + 4);
        OneScanned(json, at + 5);
      }
    }
  }

  lemma LiteralScanned(json: Text, at: nat, ps: seq<Piece>)
    requires Holds(json, at, StringText(ps)) && GoodPieces(ps)
    ensures StringToken(json, at) == Token(PiecesValue(ps), at + |StringText(ps)|)
    ensures at < |json| && json[at] == QUOTE
  {
    hide *;
    StringTextIs(ps);
    var text, inner := StringText(ps), PiecesText(ps) + [QUOTE];
    HoldsParts(json, at, [QUOTE], inner);
    FirstHeld(json, at, text);
    StringScanned(json, at + 1, ps);
    LiteralDecodes(ps);
    TokenIs(json, at, at + |text|, PiecesValue(ps), text);
  }

  lemma StringTextIs(ps: seq<Piece>)
    ensures StringText(ps) == [QUOTE] + (PiecesText(ps) + [QUOTE]) && StringText(ps)[0] == QUOTE
    ensures |StringText(ps)| == |PiecesText(ps)| + 2
  {
    hide PiecesText;
  }

  lemma TokenIs(json: Text, at: nat, end: nat, value: Text, text: Text)
    requires StringEnd(json, at + 1) == Some(end) && end <= |json| && Holds(json, at, text) && end == at + |text|
    requires DecodeLiteral(text) == Some(value)
    ensures StringToken(json, at) == Token(value, end)
  {
    hide StringEnd, DecodeLiteral;
    assert json[at..end] == text;
  }

  lemma FirstUnit(v: Json)
    requires Good(v)
    ensures Render(v) != [] && !IsWs(Render(v)[0]) && Render(v)[0] != RBRACKET
  {
    if v.Scalar? {
      TokenUnits(v.token);
      assert v.token[0] in v.token;
    }
  }

  lemma FirstHeld(json: Text, at: nat, part: Text)
    requires Holds(json, at, part) && part != []
    ensures at < |json| && json[at] == part[0]
  {
    assert json[at..at + |part|][0] == json[at];
  }

  /** White space before something that is not white space. */
  lemma Reach(json: Text, at: nat, space: Text, part: Text)
    requires Holds(json, at, space) && AllWs(space) && Holds(json, at + |space|, part) && part != [] && !IsWs(part[0])
    ensures SkipWs(json, at) == at + |space| < |json| && json[at + |space|] == part[0]
  {
    FirstHeld(json, at + |space|, part);
    WsSkipped(json, at, space);
  }

  /** What follows a value inside a container delimits it. */
  lemma TailDelimits(json: Text, at: nat, space: Text, tail: Text)
    requires Holds(json, at, space) && AllWs(space) && Holds(json, at + |space|, tail) && tail != [] && EndsToken(tail[0]) && !IsWs(tail[0])
    ensures Delimited(json, at)
  {
    FirstHeld(json, at + |space|, tail);
    if space != [] {
      FirstHeld(json, at, space);
      assert space[0] in space;
    }
  }

  lemma {:induction false} SkipTwice(json: Text, i: nat)
    ensures SkipWs(json, SkipWs(json, i)) == SkipWs(json, i)
  {
  }

  lemma ItemsFromSpace(json: Text, i: nat, depth: nat)
    requires SkipWs(json, i) < |json|
    ensures ScanItems(json, SkipWs(json, i), depth) == ScanItems(json, i, depth)
  {
    SkipTwice(json, i);
    assert Value(json, SkipWs(json, i), depth) == Value(json, i, depth);
  }

  lemma MembersFromSpace(json: Text, i: nat, depth: nat, fields: set<Text>)
    requires SkipWs(json, i) < |json|
    ensures ScanMembers(json, SkipWs(json, i), depth, fields) == ScanMembers(json, i, depth, fields)
  {
    SkipTwice(json, i);
    hide SkipWs, StringToken, Value;
  }

  // ---- the induction ----

  /** Scanner and parser read `v` at `at`, up to `end`. */
  ghost predicate Reads(json: Text, at: nat, v: Json, depth: nat, end: nat) {
    Value(json, at, depth) == Outcome(Verdict(v, depth), end) && ParseValue(json, at) == Got(TreeOf(v), end)
  }

  ghost predicate ReadsItems(json: Text, at: nat, items: Items, depth: nat, end: nat) {
    ScanItems(json, at, depth) == Outcome(ItemsVerdict(items, depth), end) && ParseItems(json, at) == Got(TreesOf(items), end)
  }

  ghost predicate ReadsMembers(json: Text, at: nat, ms: Members, depth: nat, keys: set<Text>, fields: seq<Field>, end: nat) {
    && ScanMembers(json, at, depth, keys) == Outcome(MembersVerdict(ms, depth, keys), end)
    && ParseMembers(json, at, fields) == Got(Object(FieldsOf(ms, fields)), end)
  }

  lemma ScalarReads(json: Text, at: nat, space: Text, token: Text, depth: nat)
    requires Holds(json, at, space) && AllWs(space) && Holds(json, at + |space|, token) && IsToken(token)
    requires Delimited(json, at + |space| + |token|)
    ensures Reads(json, at, Scalar(token), depth, at + |space| + |token|)
  {
    hide *;
    TokenUnits(token);
    TokenStart(token);
    Reach(json, at, space, token);
    TokenScanned(json, at + |space|, token);
    ScalarIs(json, at, at + |space|, at + |space| + |token|, token, depth);
  }

  lemma TokenStart(token: Text)
    requires token != [] && forall u | u in token :: TokenUnit(u)
    ensures !IsWs(token[0]) && token[0] != LBRACE && token[0] != LBRACKET && token[0] != QUOTE
  {
    assert token[0] in token;
  }

  lemma ScalarIs(json: Text, at: nat, p: nat, end: nat, token: Text, depth: nat)
    requires SkipWs(json, at) == p < |json| && json[p] != LBRACE && json[p] != LBRACKET && json[p] != QUOTE
    requires ScalarEnd(json, p) == TokenEnd(json, p) == end && Holds(json, p, token) && end == p + |token| && IsToken(token)
    ensures Reads(json, at, Scalar(token), depth, end)
  {
    hide SkipWs, ScalarEnd, TokenEnd, IsToken;
    assert json[p..end] == token;
  }

  lemma StringReads(json: Text, at: nat, space: Text, ps: seq<Piece>, depth: nat)
    requires Holds(json, at, space) && AllWs(space) && Holds(json, at + |space|, StringText(ps)) && GoodPieces(ps)
    ensures Reads(json, at, Str(ps), depth, at + |space| + |StringText(ps)|)
  {
    StringStart(ps);
    hide *;
    Reach(json, at, space, StringText(ps));
    LiteralScanned(json, at + |space|, ps);
    StringIs(json, at, at + |space|, at + |space| + |StringText(ps)|, ps, depth);
  }

  lemma StringStart(ps: seq<Piece>)
    ensures StringText(ps) != [] && StringText(ps)[0] == QUOTE && !IsWs(StringText(ps)[0])
  {
    hide PiecesText;
  }

  lemma StringIs(json: Text, at: nat, p: nat, end: nat, ps: seq<Piece>, depth: nat)
    requires SkipWs(json, at) == p < |json| && json[p] == QUOTE && StringToken(json, p) == Token(PiecesValue(ps), end)
    ensures Reads(json, at, Str(ps), depth, end)
  {
    hide SkipWs, StringToken, PiecesValue;
  }

  /** One item, and what follows it. */
  lemma ItemReads(json: Text, at: nat, items: Items, depth: nat, k: nat, j: nat, end: nat)
    requires items.Item? && Reads(json, at, items.value, depth, k)
    requires k <= |json| && SkipWs(json, k) == j < |json| && at < |json|
    requires if items.others.NoItems? then json[j] == RBRACKET && end == j + 1
             else json[j] == COMMA && ReadsItems(json, j + 1, items.others, depth, end)
    ensures ReadsItems(json, at, items, depth, end)
  {
    hide Value, ParseValue, Verdict, SkipWs, TreeOf;
    assert ScanItems(json, at, depth) == Outcome(ItemsVerdict(items, depth), end);
    assert ParseValue(json, at) == Got(TreeOf(items.value), k);
    assert At(json, j) == json[j];
    if items.others.NoItems? {
      assert TreesOf(items.others) == [];
      assert TreesOf(items) == [TreeOf(items.value)];
      assert ParseItems(json, at) == Got([TreeOf(items.value)], end);
    } else {
      assert ParseItems(json, j + 1) == Got(TreesOf(items.others), end);
      assert ParseItems(json, at) == Got(TreesOf(items), end);
    }
  }

  /** Where the parts of an item stand. */
  lemma ItemLayout(json: Text, at: nat, items: Items) returns (k: nat, j: nat)
    requires items.Item? && Holds(json, at, RenderItems(items)) && GoodItems(items)
    ensures at < |json| && AllWs(items.before) && Good(items.value) && GoodItems(items.others)
    ensures Holds(json, at, items.before) && Holds(json, at + |items.before|, Render(items.value))
    ensures k == at + |items.before| + |Render(items.value)| && Delimited(json, k) && SkipWs(json, k) == j < |json|
    ensures if items.others.NoItems? then json[j] == RBRACKET && at + |RenderItems(items)| == j + 1
            else json[j] == COMMA && Holds(json, j + 1, RenderItems(items.others)) &&
                 at + |RenderItems(items)| == j + 1 + |RenderItems(items.others)|
  {
    hide *;
    ItemText(items);
    FieldLayout(json, at, items.before, Render(items.value), items.after, ItemsTail(items.others));
    k := at + |items.before| + |Render(items.value)|;
    j := k + |items.after|;
    if items.others.Item? { HoldsParts(json, j, [COMMA], RenderItems(items.others)); }
  }

  /** How an item is written. */
  lemma ItemText(items: Items)
    requires items.Item? && GoodItems(items)
    ensures var tail := ItemsTail(items.others);
      && RenderItems(items) == items.before + (Render(items.value) + (items.after + tail))
      && EndsToken(tail[0]) && !IsWs(tail[0])
      && tail == if items.others.Item? then [COMMA] + RenderItems(items.others) else [RBRACKET]
    ensures AllWs(items.before) && AllWs(items.after) && Good(items.value) && GoodItems(items.others)
  {
    hide Render, AllWs, Good;
  }

  lemma {:induction false} AllItemsRead(json: Text, at: nat, items: Items, depth: nat)
    requires items.Item? && Holds(json, at, RenderItems(items)) && GoodItems(items)
    ensures ReadsItems(json, at, items, depth, at + |RenderItems(items)|)
    decreases items, 0
  {
    hide *;
    var k, j := ItemLayout(json, at, items);
    ValueReads(json, at, items.before, items.value, depth);
    if items.others.Item? { AllItemsRead(json, j + 1, items.others, depth); }
    ItemReads(json, at, items, depth, k, j, at + |RenderItems(items)|);
  }

  /** One member, and what follows it, to the scanner. */
  lemma MemberScans(json: Text, at: nat, ms: Members, depth: nat, keys: set<Text>,
                    start: nat, stop: nat, colon: nat, k: nat, j: nat, end: nat)
    requires ms.Member? && at < |json|
    requires SkipWs(json, at) == start < |json| && json[start] == QUOTE && StringToken(json, start) == Token(PiecesValue(ms.key), stop)
    requires SkipWs(json, stop) == colon < |json| && json[colon] == COLON
    requires Value(json, colon + 1, depth) == Outcome(Verdict(ms.field, depth), k) && SkipWs(json, k) == j < |json|
    requires ms.remaining.NoMembers? ==> json[j] == RBRACE && end == j + 1
    requires ms.remaining.Member? ==> json[j] == COMMA
    requires ms.remaining.Member? ==>
      ScanMembers(json, j + 1, depth, keys + {PiecesValue(ms.key)}) ==
      Outcome(MembersVerdict(ms.remaining, depth, keys + {PiecesValue(ms.key)}), end)
    ensures ScanMembers(json, at, depth, keys) == Outcome(MembersVerdict(ms, depth, keys), end)
  {
    hide Value, Verdict, SkipWs, StringToken, PiecesValue;
  }

  /** One member, and what follows it, to the parser. */
  lemma MemberParses(json: Text, at: nat, ms: Members, fields: seq<Field>, start: nat, stop: nat, colon: nat, k: nat, j: nat, end: nat)
    requires ms.Member? && at < |json|
    requires SkipWs(json, at) == start < |json| && json[start] == QUOTE && StringToken(json, start) == Token(PiecesValue(ms.key), stop)
    requires SkipWs(json, stop) == colon < |json| && json[colon] == COLON
    requires ParseValue(json, colon + 1) == Got(TreeOf(ms.field), k) && SkipWs(json, k) == j < |json|
    requires ms.remaining.NoMembers? ==> json[j] == RBRACE && end == j + 1
    requires ms.remaining.Member? ==> json[j] == COMMA
    requires ms.remaining.Member? ==>
      ParseMembers(json, j + 1, SetField(fields, PiecesValue(ms.key), TreeOf(ms.field))) ==
      Got(Object(FieldsOf(ms.remaining, SetField(fields, PiecesValue(ms.key), TreeOf(ms.field)))), end)
    ensures ParseMembers(json, at, fields) == Got(Object(FieldsOf(ms, fields)), end)
  {
    hide ParseValue, SkipWs, TreeOf, StringToken, SetField, PiecesValue;
    var key, value := PiecesValue(ms.key), TreeOf(ms.field);
    assert At(json, start) == QUOTE && At(json, colon) == COLON && At(json, j) == json[j];
    assert FieldsOf(ms, fields) == FieldsOf(ms.remaining, SetField(fields, key, value));
    if ms.remaining.NoMembers? {
      assert FieldsOf(ms, fields) == SetField(fields, key, value);
    } else {
      assert ParseMembers(json, at, fields) == ParseMembers(json, j + 1, SetField(fields, key, value));
    }
  }

  lemma ReadsSplit(json: Text, at: nat, v: Json, depth: nat, end: nat)
    ensures Reads(json, at, v, depth, end) <==>
      Value(json, at, depth) == Outcome(Verdict(v, depth), end) && ParseValue(json, at) == Got(TreeOf(v), end)
  {
  }

  lemma ReadsMembersIs(json: Text, at: nat, ms: Members, depth: nat, keys: set<Text>, fields: seq<Field>, end: nat)
    ensures ReadsMembers(json, at, ms, depth, keys, fields, end) <==>
      && ScanMembers(json, at, depth, keys) == Outcome(MembersVerdict(ms, depth, keys), end)
      && ParseMembers(json, at, fields) == Got(Object(FieldsOf(ms, fields)), end)
  {
  }

  lemma {:induction false} AllMembersRead(json: Text, at: nat, ms: Members, depth: nat, keys: set<Text>, fields: seq<Field>)
    requires ms.Member? && Holds(json, at, RenderMembers(ms)) && GoodMembers(ms)
    ensures ReadsMembers(json, at, ms, depth, keys, fields, at + |RenderMembers(ms)|)
    decreases ms, 0
  {
    hide *;
    var start, stop, colon, k, j := MemberLayout(json, at, ms);
    LiteralScanned(json, start, ms.key);
    ValueReads(json, colon + 1, ms.gap, ms.field, depth);
    var key, value := PiecesValue(ms.key), TreeOf(ms.field);
    var end := at + |RenderMembers(ms)|;
    ReadsSplit(json, colon + 1, ms.field, depth, k);
    if ms.remaining.Member? {
      AllMembersRead(json, j + 1, ms.remaining, depth, keys + {key}, SetField(fields, key, value));
      ReadsMembersIs(json, j + 1, ms.remaining, depth, keys + {key}, SetField(fields, key, value), end);
    }
    MemberScans(json, at, ms, depth, keys, start, stop, colon, k, j, end);
    MemberParses(json, at, ms, fields, start, stop, colon, k, j, end);
    ReadsMembersIs(json, at, ms, depth, keys, fields, end);
  }

  /** How a member is written. */
  lemma MemberText(ms: Members)
    requires ms.Member? && GoodMembers(ms)
    ensures var key, text, tail := StringText(ms.key), Render(ms.field), MembersTail(ms.remaining);
      && RenderMembers(ms) == ms.front + (key + (ms.between + ([COLON] + (ms.gap + (text + (ms.back + tail))))))
      && key != [] && key[0] == QUOTE && !IsWs(key[0]) && !IsWs(COLON)
      && EndsToken(tail[0]) && !IsWs(tail[0])
      && tail == if ms.remaining.Member? then [COMMA] + RenderMembers(ms.remaining) else [RBRACE]
    ensures AllWs(ms.front) && AllWs(ms.between) && AllWs(ms.back) && AllWs(ms.gap)
    ensures GoodPieces(ms.key) && Good(ms.field) && GoodMembers(ms.remaining)
  {
    hide Render, GoodPieces, AllWs, Good;
  }

  lemma KeyLayout(json: Text, at: nat, front: Text, key: Text, more: Text)
    requires Holds(json, at, front + (key + more)) && AllWs(front) && key != [] && key[0] == QUOTE
    ensures SkipWs(json, at) == at + |front| < |json| && json[at + |front|] == QUOTE
    ensures Holds(json, at + |front|, key) && Holds(json, at + |front| + |key|, more)
  {
    assert !IsWs(QUOTE);
    hide *;
    HoldsParts(json, at, front, key + more);
    HoldsParts(json, at + |front|, key, more);
    Reach(json, at, front, key);
  }

  lemma ColonLayout(json: Text, at: nat, between: Text, rest: Text)
    requires Holds(json, at, between + ([COLON] + rest)) && AllWs(between)
    ensures SkipWs(json, at) == at + |between| < |json| && json[at + |between|] == COLON && Holds(json, at + |between| + 1, rest)
  {
    assert !IsWs(COLON);
    hide *;
    HoldsParts(json, at, between, [COLON] + rest);
    HoldsParts(json, at + |between|, [COLON], rest);
    Reach(json, at, between, [COLON]);
  }

  lemma FieldLayout(json: Text, at: nat, gap: Text, text: Text, back: Text, tail: Text)
    requires Holds(json, at, gap + (text + (back + tail)))
    requires AllWs(back) && tail != [] && EndsToken(tail[0]) && !IsWs(tail[0])
    ensures Holds(json, at, gap) && Holds(json, at + |gap|, text)
    ensures var k := at + |gap| + |text|;
      Delimited(json, k) && SkipWs(json, k) == k + |back| < |json| && json[k + |back|] == tail[0] && Holds(json, k + |back|, tail)
  {
    hide *;
    HoldsParts(json, at, gap, text + (back + tail));
    HoldsParts(json, at + |gap|, text, back + tail);
    var k := at + |gap| + |text|;
    HoldsParts(json, k, back, tail);
    Reach(json, k, back, tail);
    TailDelimits(json, k, back, tail);
  }

  /** Where the parts of a member stand. */
  lemma MemberLayout(json: Text, at: nat, ms: Members) returns (start: nat, stop: nat, colon: nat, k: nat, j: nat)
    requires ms.Member? && Holds(json, at, RenderMembers(ms)) && GoodMembers(ms)
    ensures at < |json| && AllWs(ms.gap) && GoodPieces(ms.key) && Good(ms.field) && GoodMembers(ms.remaining)
    ensures SkipWs(json, at) == start < |json| && json[start] == QUOTE
    ensures Holds(json, start, StringText(ms.key)) && stop == start + |StringText(ms.key)|
    ensures SkipWs(json, stop) == colon < |json| && json[colon] == COLON
    ensures Holds(json, colon + 1, ms.gap) && Holds(json, colon + 1 + |ms.gap|, Render(ms.field))
    ensures k == colon + 1 + |ms.gap| + |Render(ms.field)| && Delimited(json, k) && SkipWs(json, k) == j < |json|
    ensures if ms.remaining.NoMembers? then json[j] == RBRACE && at + |RenderMembers(ms)| == j + 1
            else json[j] == COMMA && Holds(json, j + 1, RenderMembers(ms.remaining)) &&
                 at + |RenderMembers(ms)| == j + 1 + |RenderMembers(ms.remaining)|
  {
    hide *;
    MemberText(ms);
    var key, text, tail := StringText(ms.key), Render(ms.field), MembersTail(ms.remaining);
    var rest := ms.gap + (text + (ms.back + tail));
    KeyLayout(json, at, ms.front, key, ms.between + ([COLON] + rest));
    start := at + |ms.front|;
    stop := start + |key|;
    ColonLayout(json, stop, ms.between, rest);
    colon := stop + |ms.between|;
    FieldLayout(json, colon + 1, ms.gap, text, ms.back, tail);
    k := colon + 1 + |ms.gap| + |text|;
    j := k + |ms.back|;
    if ms.remaining.Member? { HoldsParts(json, j, [COMMA], RenderMembers(ms.remaining)); }
  }

  lemma ArrayScans(json: Text, at: nat, v: Json, depth: nat, p: nat, end: nat)
    requires v.Arr? && SkipWs(json, at) == p < |json| && json[p] == LBRACKET
    requires var j := SkipWs(json, p + 1);
      && j < |json|
      && (v.items.NoItems? ==> json[j] == RBRACKET && end == j + 1)
      && (!v.items.NoItems? ==> json[j] != RBRACKET)
      && (!v.items.NoItems? ==>
          ScanItems(json, p + 1, depth + 1) == Outcome(ItemsVerdict(v.items, depth + 1), end))
    ensures Value(json, at, depth) == Outcome(Verdict(v, depth), end)
  {
    hide SkipWs;
    var j := SkipWs(json, p + 1);
    assert At(json, p) == LBRACKET && At(json, j) == json[j];
    if !v.items.NoItems? { ItemsFromSpace(json, p + 1, depth + 1); }
    hide ScanItems;
  }

  lemma ArrayParses(json: Text, at: nat, v: Json, p: nat, end: nat)
    requires v.Arr? && SkipWs(json, at) == p < |json| && json[p] == LBRACKET
    requires var j := SkipWs(json, p + 1);
      && j < |json|
      && (v.items.NoItems? ==> json[j] == RBRACKET && end == j + 1)
      && (!v.items.NoItems? ==> json[j] != RBRACKET && ParseItems(json, p + 1) == Got(TreesOf(v.items), end))
    ensures ParseValue(json, at) == Got(TreeOf(v), end)
  {
    assert v.items.NoItems? ==> TreesOf(v.items) == [];
    hide SkipWs, ParseItems, TreesOf;
    var j := SkipWs(json, p + 1);
    assert At(json, j) == json[j] && TreeOf(v) == Array(TreesOf(v.items));
  }

  /** The container stands at `p`, after white space. */
  lemma ArrayReads(json: Text, at: nat, v: Json, depth: nat, p: nat, end: nat)
    requires v.Arr? && SkipWs(json, at) == p < |json| && json[p] == LBRACKET
    requires var j := SkipWs(json, p + 1);
      && j < |json|
      && (v.items.NoItems? ==> json[j] == RBRACKET && end == j + 1)
      && (!v.items.NoItems? ==> json[j] != RBRACKET && ReadsItems(json, p + 1, v.items, depth + 1, end))
    ensures Reads(json, at, v, depth, end)
  {
    hide SkipWs, Value, ParseValue, Verdict, TreeOf, ScanItems, ParseItems, TreesOf, ItemsVerdict;
    ArrayScans(json, at, v, depth, p, end);
    ArrayParses(json, at, v, p, end);
  }

  lemma OutcomeIs(e: Option<ScanError>, at: nat)
    ensures Outcome(e, at) == if e.Some? then Failed(e.value) else Done(at)
  {
  }

  lemma ScanObjectIs(json: Text, at: nat, depth: nat, p: nat)
    requires SkipWs(json, at) == p < |json| && json[p] == LBRACE && depth <= MAX_JSON_DEPTH
    ensures var j := SkipWs(json, p + 1);
      Value(json, at, depth) == if At(json, j) == RBRACE then Done(j + 1) else ScanMembers(json, j, depth + 1, {})
  {
    hide SkipWs, ScanMembers, ScanArray, StringToken, ScalarEnd;
  }

  lemma ObjectVerdict(json: Text, at: nat, v: Json, depth: nat)
    requires v.Obj?
    ensures Verdict(v, depth) == if depth > MAX_JSON_DEPTH then Some(TooDeep) else MembersVerdict(v.members, depth + 1, {})
    ensures v.members.NoMembers? ==> MembersVerdict(v.members, depth + 1, {}) == None
    ensures depth > MAX_JSON_DEPTH ==> Value(json, at, depth) == Failed(TooDeep)
  {
    hide SkipWs;
  }

  lemma ObjectScans(json: Text, at: nat, v: Json, depth: nat, p: nat, end: nat)
    requires v.Obj? && SkipWs(json, at) == p < |json| && json[p] == LBRACE
    requires var j := SkipWs(json, p + 1);
      && j < |json|
      && (v.members.NoMembers? ==> json[j] == RBRACE && end == j + 1)
      && (!v.members.NoMembers? ==> json[j] != RBRACE)
      && (!v.members.NoMembers? ==>
          ScanMembers(json, p + 1, depth + 1, {}) == Outcome(MembersVerdict(v.members, depth + 1, {}), end))
    ensures Value(json, at, depth) == Outcome(Verdict(v, depth), end)
  {
    hide *;
    ObjectVerdict(json, at, v, depth);
    if depth <= MAX_JSON_DEPTH {
      ScanObjectIs(json, at, depth, p);
      AtIs(json, SkipWs(json, p + 1));
      if !v.members.NoMembers? { MembersFromSpace(json, p + 1, depth + 1, {}); }
    }
    OutcomeIs(Verdict(v, depth), end);
  }

  lemma ParseObjectIs(json: Text, at: nat, p: nat)
    requires SkipWs(json, at) == p < |json| && json[p] == LBRACE
    ensures var j := SkipWs(json, p + 1);
      ParseValue(json, at) == if At(json, j) == RBRACE then Got(Object([]), j + 1) else ParseMembers(json, p + 1, [])
  {
    hide SkipWs, ParseMembers, ParseItems, StringToken, At;
  }

  lemma ObjectMeans(v: Json)
    requires v.Obj?
    ensures TreeOf(v) == Object(FieldsOf(v.members, [])) && (v.members.NoMembers? ==> FieldsOf(v.members, []) == [])
  {
  }

  lemma AtIs(json: Text, j: nat)
    requires j < |json|
    ensures At(json, j) == json[j]
  {
  }

  lemma ObjectParses(json: Text, at: nat, v: Json, p: nat, end: nat)
    requires v.Obj? && SkipWs(json, at) == p < |json| && json[p] == LBRACE
    requires var j := SkipWs(json, p + 1);
      && j < |json|
      && (v.members.NoMembers? ==> json[j] == RBRACE && end == j + 1)
      && (!v.members.NoMembers? ==> json[j] != RBRACE && ParseMembers(json, p + 1, []) == Got(Object(FieldsOf(v.members, [])), end))
    ensures ParseValue(json, at) == Got(TreeOf(v), end)
  {
    hide *;
    ParseObjectIs(json, at, p);
    ObjectMeans(v);
    AtIs(json, SkipWs(json, p + 1));
  }

  /** The container stands at `p`, after white space. */
  lemma ObjectReads(json: Text, at: nat, v: Json, depth: nat, p: nat, end: nat)
    requires v.Obj? && SkipWs(json, at) == p < |json| && json[p] == LBRACE
    requires var j := SkipWs(json, p + 1);
      && j < |json|
      && (v.members.NoMembers? ==> json[j] == RBRACE && end == j + 1)
      && (!v.members.NoMembers? ==> json[j] != RBRACE && ReadsMembers(json, p + 1, v.members, depth + 1, {}, [], end))
    ensures Reads(json, at, v, depth, end)
  {
    hide SkipWs, Value, ParseValue, Verdict, TreeOf, ScanMembers, ParseMembers, FieldsOf, MembersVerdict;
    ObjectScans(json, at, v, depth, p, end);
    ObjectParses(json, at, v, p, end);
  }

  lemma ArrayText(v: Json) returns (body: Text)
    requires v.Arr? && Good(v)
    ensures body == if v.items.NoItems? then v.space + [RBRACKET] else RenderItems(v.items)
    ensures Render(v) == [LBRACKET] + body && AllWs(v.space) && GoodItems(v.items) && !IsWs(LBRACKET) && !IsWs(RBRACKET)
    ensures Render(v)[0] == LBRACKET
  {
    hide RenderItems, AllWs;
    body := if v.items.NoItems? then v.space + [RBRACKET] else RenderItems(v.items);
  }

  lemma ObjectText(v: Json) returns (body: Text)
    requires v.Obj? && Good(v)
    ensures body == if v.members.NoMembers? then v.space + [RBRACE] else RenderMembers(v.members)
    ensures Render(v) == [LBRACE] + body && AllWs(v.space) && GoodMembers(v.members) && !IsWs(LBRACE) && !IsWs(RBRACE)
    ensures Render(v)[0] == LBRACE
  {
    hide RenderMembers, AllWs;
    body := if v.members.NoMembers? then v.space + [RBRACE] else RenderMembers(v.members);
  }

  lemma {:induction false} ArrayValueReads(json: Text, at: nat, space: Text, v: Json, depth: nat)
    requires v.Arr? && Holds(json, at, space) && AllWs(space) && Holds(json, at + |space|, Render(v)) && Good(v)
    ensures Reads(json, at, v, depth, at + |space| + |Render(v)|)
    decreases v, 0
  {
    hide *;
    var body := ArrayOpens(json, at, space, v);
    var p := at + |space|;
    if v.items.NoItems? {
      ArrayEmpty(json, p + 1, v);
    } else {
      AllItemsRead(json, p + 1, v.items, depth + 1);
      FirstItem(json, p + 1, v.items);
    }
    ArrayReads(json, at, v, depth, p, p + |Render(v)|);
  }

  lemma ArrayOpens(json: Text, at: nat, space: Text, v: Json) returns (body: Text)
    requires v.Arr? && Holds(json, at, space) && AllWs(space) && Holds(json, at + |space|, Render(v)) && Good(v)
    ensures SkipWs(json, at) == at + |space| < |json| && json[at + |space|] == LBRACKET
    ensures body == if v.items.NoItems? then v.space + [RBRACKET] else RenderItems(v.items)
    ensures |Render(v)| == 1 + |body| && Holds(json, at + |space| + 1, body) && AllWs(v.space) && GoodItems(v.items)
  {
    hide *;
    body := ArrayText(v);
    Reach(json, at, space, Render(v));
    HoldsParts(json, at + |space|, [LBRACKET], body);
  }

  lemma ArrayEmpty(json: Text, at: nat, v: Json)
    requires v.Arr? && AllWs(v.space) && Holds(json, at, v.space + [RBRACKET])
    ensures SkipWs(json, at) == at + |v.space| < |json| && json[at + |v.space|] == RBRACKET
  {
    assert !IsWs(RBRACKET);
    hide *;
    HoldsParts(json, at, v.space, [RBRACKET]);
    Reach(json, at, v.space, [RBRACKET]);
  }

  /** The list does not start with its closing bracket. */
  lemma FirstItem(json: Text, at: nat, items: Items)
    requires items.Item? && Holds(json, at, RenderItems(items)) && GoodItems(items)
    ensures SkipWs(json, at) < |json| && json[SkipWs(json, at)] != RBRACKET
  {
    hide *;
    ItemStart(json, at, items);
    FirstUnit(items.value);
    Reach(json, at, items.before, Render(items.value));
  }

  lemma ItemStart(json: Text, at: nat, items: Items)
    requires items.Item? && Holds(json, at, RenderItems(items)) && GoodItems(items)
    ensures AllWs(items.before) && Good(items.value)
    ensures Holds(json, at, items.before) && Holds(json, at + |items.before|, Render(items.value))
  {
    var text, more := Render(items.value), items.after + ItemsTail(items.others);
    hide Render, Holds, AllWs, ItemsTail, Good;
    HoldsParts(json, at, items.before, text + more);
    HoldsParts(json, at + |items.before|, text, more);
  }

  lemma FirstMember(json: Text, at: nat, ms: Members)
    requires ms.Member? && Holds(json, at, RenderMembers(ms)) && GoodMembers(ms)
    ensures SkipWs(json, at) < |json| && json[SkipWs(json, at)] != RBRACE
  {
    assert QUOTE != RBRACE;
    hide *;
    var start, stop, colon, k, j := MemberLayout(json, at, ms);
  }

  lemma {:induction false} ObjectValueReads(json: Text, at: nat, space: Text, v: Json, depth: nat)
    requires v.Obj? && Holds(json, at, space) && AllWs(space) && Holds(json, at + |space|, Render(v)) && Good(v)
    ensures Reads(json, at, v, depth, at + |space| + |Render(v)|)
    decreases v, 0
  {
    hide *;
    var body := ObjectOpens(json, at, space, v);
    var p := at + |space|;
    if v.members.NoMembers? {
      ObjectEmpty(json, p + 1, v);
    } else {
      AllMembersRead(json, p + 1, v.members, depth + 1, {}, []);
      FirstMember(json, p + 1, v.members);
    }
    ObjectReads(json, at, v, depth, p, p + |Render(v)|);
  }

  lemma ObjectOpens(json: Text, at: nat, space: Text, v: Json) returns (body: Text)
    requires v.Obj? && Holds(json, at, space) && AllWs(space) && Holds(json, at + |space|, Render(v)) && Good(v)
    ensures SkipWs(json, at) == at + |space| < |json| && json[at + |space|] == LBRACE
    ensures body == if v.members.NoMembers? then v.space + [RBRACE] else RenderMembers(v.members)
    ensures |Render(v)| == 1 + |body| && Holds(json, at + |space| + 1, body) && AllWs(v.space) && GoodMembers(v.members)
  {
    hide *;
    body := ObjectText(v);
    Reach(json, at, space, Render(v));
    HoldsParts(json, at + |space|, [LBRACE], body);
  }

  lemma ObjectEmpty(json: Text, at: nat, v: Json)
    requires v.Obj? && AllWs(v.space) && Holds(json, at, v.space + [RBRACE])
    ensures SkipWs(json, at) == at + |v.space| < |json| && json[at + |v.space|] == RBRACE
  {
    assert !IsWs(RBRACE);
    hide *;
    HoldsParts(json, at, v.space, [RBRACE]);
    Reach(json, at, v.space, [RBRACE]);
  }

  lemma LeafText(v: Json)
    requires Good(v)
    ensures v.Scalar? ==> Render(v) == v.token && IsToken(v.token)
    ensures v.Str? ==> Render(v) == StringText(v.pieces) && GoodPieces(v.pieces)
  {
  }

  /** Scanner and parser read exactly the value, whatever its white space and escapes; the parser gets its tree, and
      the scanner says what the tree definition says. */
  lemma {:induction false} ValueReads(json: Text, at: nat, space: Text, v: Json, depth: nat)
    requires Holds(json, at, space) && AllWs(space) && Holds(json, at + |space|, Render(v)) && Good(v)
    requires Delimited(json, at + |space| + |Render(v)|)
    ensures Reads(json, at, v, depth, at + |space| + |Render(v)|)
    decreases v, 1
  {
    hide *;
    LeafText(v);
    match v
    case Scalar(token) => ScalarReads(json, at, space, token, depth);
    case Str(pieces) => StringReads(json, at, space, pieces, depth);
    case Arr(_, _) => ArrayValueReads(json, at, space, v, depth);
    case Obj(_, _) => ObjectValueReads(json, at, space, v, depth);
  }

  // ---- what the verdict means ----

  lemma {:induction false} VerdictMeans(v: Json, depth: nat)
    ensures Verdict(v, depth) == None <==> depth + Height(v) <= MAX_JSON_DEPTH && Unique(v)
    ensures Verdict(v, depth) != Some(Unterminated) && Verdict(v, depth) != Some(BadString)
    decreases v
  {
    if depth <= MAX_JSON_DEPTH {
      match v
      case Arr(_, items) => ItemsVerdictMeans(items, depth);
      case Obj(_, members) => MembersVerdictMeans(members, depth, {});
      case _ =>
    }
  }

  lemma {:induction false} ItemsVerdictMeans(items: Items, depth: nat)
    requires depth <= MAX_JSON_DEPTH
    ensures var verdict := ItemsVerdict(items, depth + 1);
      && (verdict == None <==> depth + ItemsHeight(items) <= MAX_JSON_DEPTH && UniqueItems(items))
      && verdict != Some(Unterminated) && verdict != Some(BadString)
    decreases items
  {
    if items.Item? {
      VerdictMeans(items.value, depth + 1);
      ItemsVerdictMeans(items.others, depth);
    }
  }

  lemma {:induction false} MembersVerdictMeans(ms: Members, depth: nat, keys: set<Text>)
    requires depth <= MAX_JSON_DEPTH
    ensures var verdict := MembersVerdict(ms, depth + 1, keys);
      && (verdict == None <==> depth + MembersHeight(ms) <= MAX_JSON_DEPTH && UniqueMembers(ms) && !Repeats(ms) &&
                               forall k | k in Keys(ms) :: k !in keys)
      && verdict != Some(Unterminated) && verdict != Some(BadString)
    decreases ms
  {
    if ms.Member? {
      var key := PiecesValue(ms.key);
      VerdictMeans(ms.field, depth + 1);
      MembersVerdictMeans(ms.remaining, depth, keys + {key});
      assert Keys(ms) == [key] + Keys(ms.remaining);
      assert forall k | k in Keys(ms) :: k == key || k in Keys(ms.remaining);
      hide Verdict, MembersVerdict, Height, Unique, PiecesValue;
      assert key in Keys(ms) && forall k | k in Keys(ms.remaining) :: k in Keys(ms);
    }
  }

  // ---- main results: every value, every depth, any white space and escapes ----

  /** For every value printed with any white space and escapes, the scanner stops exactly behind the value and accepts
      exactly when no object repeats a decoded key and no value lies under more than 32 containers; JSON.parse of the
      same text is the value's tree. */
  lemma ScannerRefinesTree(before: Text, v: Json, after: Text)
    requires AllWs(before) && Good(v) && AllWs(after)
    ensures var json := before + Render(v) + after;
      && (Unique(v) && Height(v) <= MAX_JSON_DEPTH ==> Value(json, 0, 0) == Done(|before| + |Render(v)|))
      && (CheckUnique(json) == None <==> Unique(v) && Height(v) <= MAX_JSON_DEPTH)
      && (CheckUnique(json).Some? ==> CheckUnique(json).value == TooDeep || CheckUnique(json).value == Duplicate)
      && Parse(json) == Some(TreeOf(v))
  {
    hide *;
    var json, end := before + Render(v) + after, |before| + |Render(v)|;
    WholeReads(before, v, after);
    VerdictMeans(v, 0);
    ReadsSplit(json, 0, v, 0, end);
    CheckIs(json, Verdict(v, 0), end);
    ParseIs(json, TreeOf(v), end);
  }

  lemma CheckIs(json: Text, verdict: Option<ScanError>, end: nat)
    requires Value(json, 0, 0) == Outcome(verdict, end)
    ensures CheckUnique(json) == verdict && (verdict == None ==> Value(json, 0, 0) == Done(end))
  {
    hide Value;
  }

  lemma ParseIs(json: Text, tree: Tree, end: nat)
    requires ParseValue(json, 0) == Got(tree, end) && SkipWs(json, end) == |json|
    ensures Parse(json) == Some(tree)
  {
    hide ParseValue, SkipWs;
  }

  lemma WholeReads(before: Text, v: Json, after: Text)
    requires AllWs(before) && Good(v) && AllWs(after)
    ensures var json, end := before + Render(v) + after, |before| + |Render(v)|;
      Reads(json, 0, v, 0, end) && SkipWs(json, end) == |json|
  {
    hide *;
    var text := Render(v);
    Whereabouts(before, text, after);
    EndDelimits(before + text + after, |before| + |text|, after);
    ValueReads(before + text + after, 0, before, v, 0);
  }

  lemma Whereabouts(before: Text, text: Text, after: Text)
    ensures var json := before + text + after;
      Holds(json, 0, before) && Holds(json, |before|, text) && Holds(json, |before| + |text|, after)
  {
    var json := before + text + after;
    assert json == [] + before + (text + after) && json == (before + text) + after + [];
    HoldsWhole([], before, text + after);
    HoldsWhole(before, text, after);
    HoldsWhole(before + text, after, []);
  }

  lemma EndDelimits(json: Text, at: nat, after: Text)
    requires Holds(json, at, after) && AllWs(after) && at + |after| == |json|
    ensures Delimited(json, at) && SkipWs(json, at) == |json|
  {
    WsSkipped(json, at, after);
    if after != [] {
      FirstHeld(json, at, after);
      assert after[0] in after;
    }
  }
}

/** JSON texts (RFC 8259) as trees with all their white space and escapes, and what they mean. Text is UTF-16. */
module JsonText {
  import opened Common
  import Texts

  type unit = x: int | 0 <= x < 0x10000
  type Text = seq<unit>

  const QUOTE: unit := 34
  const COMMA: unit := 44
  const COLON: unit := 58
  const LBRACKET: unit := 91
  const BACKSLASH: unit := 92
  const RBRACKET: unit := 93
  const LBRACE: unit := 123
  const RBRACE: unit := 125

  predicate IsWs(u: unit) { u == 9 || u == 10 || u == 13 || u == 32 }
  predicate AllWs(t: Text) { forall u | u in t :: IsWs(u) }

  // ---- strings ----

  /** A character of a string, as written. */
  datatype Piece = Plain(u: unit) | Short(letter: unit) | Hex(a: unit, b: unit, c: unit, d: unit)

  predicate IsHex(u: unit) { 48 <= u <= 57 || 65 <= u <= 70 || 97 <= u <= 102 }

  function HexValue(u: unit): (r: nat)
    ensures r < 16
  {
    if 48 <= u <= 57 then u - 48 else if 65 <= u <= 70 then u - 55 else if 97 <= u <= 102 then u - 87 else 0
  }

  predicate IsShort(u: unit) { u in [34, 92, 47, 98, 102, 110, 114, 116] }

  function ShortValue(u: unit): unit {
    if u == 98 then 8 else if u == 102 then 12 else if u == 110 then 10 else if u == 114 then 13 else if u == 116 then 9 else u
  }

  predicate GoodPiece(p: Piece) {
    match p
    case Plain(u) => u >= 32 && u != QUOTE && u != BACKSLASH
    case Short(u) => IsShort(u)
    case Hex(a, b, c, d) => IsHex(a) && IsHex(b) && IsHex(c) && IsHex(d)
  }

  function PieceText(p: Piece): Text {
    match p case Plain(u) => [u] case Short(u) => [BACKSLASH, u] case Hex(a, b, c, d) => [BACKSLASH, 117, a, b, c, d]
  }

  function HexUnit(a: unit, b: unit, c: unit, d: unit): unit {
    HexValue(a) * 0x1000 + HexValue(b) * 0x100 + HexValue(c) * 0x10 + HexValue(d)
  }

  function PieceValue(p: Piece): unit {
    match p case Plain(u) => u case Short(u) => ShortValue(u) case Hex(a, b, c, d) => HexUnit(a, b, c, d)
  }

  predicate GoodPieces(ps: seq<Piece>) { forall p | p in ps :: GoodPiece(p) }
  function PiecesText(ps: seq<Piece>): Text { if ps == [] then [] else PieceText(ps[0]) + PiecesText(ps[1..]) }
  function PiecesValue(ps: seq<Piece>): Text { if ps == [] then [] else [PieceValue(ps[0])] + PiecesValue(ps[1..]) }
  function StringText(ps: seq<Piece>): Text { [QUOTE] + PiecesText(ps) + [QUOTE] }

  /** The value of what stands between the quotes of a string literal, if it is well-formed. */
  function DecodePieces(s: Text): Option<Text>
    decreases |s|
  {
    if s == [] then Some([])
    else if s[0] == BACKSLASH then
      if |s| >= 2 && IsShort(s[1]) then Before(ShortValue(s[1]), DecodePieces(s[2..]))
      else if |s| >= 6 && s[1] == 117 && IsHex(s[2]) && IsHex(s[3]) && IsHex(s[4]) && IsHex(s[5])
        then Before(HexUnit(s[2], s[3], s[4], s[5]), DecodePieces(s[6..]))
      else None
    else if s[0] < 32 || s[0] == QUOTE then None
    else Before(s[0], DecodePieces(s[1..]))
  }

  function Before(u: unit, rest: Option<Text>): Option<Text> { if rest == None then None else Some([u] + rest.value) }

  function DecodeLiteral(t: Text): Option<Text> {
    if |t| >= 2 && t[0] == QUOTE && t[|t| - 1] == QUOTE then DecodePieces(t[1..|t| - 1]) else None
  }

  lemma PieceDecodes(p: Piece, rest: Text)
    requires GoodPiece(p)
    ensures DecodePieces(PieceText(p) + rest) == Before(PieceValue(p), DecodePieces(rest))
  {
    var t, s := PieceText(p), PieceText(p) + rest;
    assert s[|t|..] == rest && forall i | 0 <= i < |t| :: s[i] == t[i];
    hide IsHex, HexValue, HexUnit, ShortValue;
    assert !IsShort(117);
  }

  lemma {:induction false} PiecesDecode(ps: seq<Piece>)
    requires GoodPieces(ps)
    ensures DecodePieces(PiecesText(ps)) == Some(PiecesValue(ps))
    decreases |ps|
  {
    if ps != [] {
      assert ps[0] in ps && forall p | p in ps[1..] :: p in ps;
      PiecesDecode(ps[1..]);
      PieceDecodes(ps[0], PiecesText(ps[1..]));
    }
  }

  lemma LiteralDecodes(ps: seq<Piece>)
    requires GoodPieces(ps)
    ensures DecodeLiteral(StringText(ps)) == Some(PiecesValue(ps))
  {
    PiecesDecode(ps);
    assert StringText(ps)[1..|StringText(ps)| - 1] == PiecesText(ps);
  }

  // ---- scalars ----

  predicate IsDigit(u: unit) { 48 <= u <= 57 }

  function DigitsEnd(t: Text, i: nat): (r: nat)
    requires i <= |t|
    ensures i <= r <= |t| && forall k | i <= k < r :: IsDigit(t[k])
    decreases |t| - i
  {
    if i < |t| && IsDigit(t[i]) then DigitsEnd(t, i + 1) else i
  }

  function FractionEnd(t: Text, i: nat): (r: Option<nat>)
    requires i <= |t|
    ensures r.Some? ==> i <= r.value <= |t| && forall k | i <= k < r.value :: TokenUnit(t[k])
  {
    if i == |t| || t[i] != 46 then Some(i) else
    var j := DigitsEnd(t, i + 1);
    if j == i + 1 then None else Some(j)
  }

  function ExponentEnd(t: Text, i: nat): (r: Option<nat>)
    requires i <= |t|
    ensures r.Some? ==> i <= r.value <= |t| && forall k | i <= k < r.value :: TokenUnit(t[k])
  {
    if i == |t| || t[i] !in [69, 101] then Some(i) else
    var from := if i + 1 < |t| && t[i + 1] in [43, 45] then i + 2 else i + 1;
    var j := DigitsEnd(t, from);
    if j == from then None else Some(j)
  }

  predicate IsNumber(t: Text) {
    var i := if t != [] && t[0] == 45 then 1 else 0;
    var j := DigitsEnd(t, i);
    j > i && (t[i] == 48 ==> j == i + 1) &&
    var k := FractionEnd(t, j);
    k.Some? && ExponentEnd(t, k.value) == Some(|t|)
  }

  const NULL: Text := [110, 117, 108, 108]
  const TRUE: Text := [116, 114, 117, 101]
  const FALSE: Text := [102, 97, 108, 115, 101]

  predicate IsToken(t: Text) { t == NULL || t == TRUE || t == FALSE || IsNumber(t) }

  /** A character of a scalar: a lower-case letter, a digit or one of `+-.E`. */
  predicate TokenUnit(u: unit) { 97 <= u <= 122 || IsDigit(u) || u in [43, 45, 46, 69] }

  lemma TokenUnits(t: Text)
    requires IsToken(t)
    ensures t != [] && forall u | u in t :: TokenUnit(u)
  {
    if IsNumber(t) {
      var i := if t[0] == 45 then 1 else 0;
      var j := DigitsEnd(t, i);
      var k := FractionEnd(t, j).value;
      assert ExponentEnd(t, k) == Some(|t|);
      forall n | 0 <= n < |t| ensures TokenUnit(t[n]) {
        assert n < i || i <= n < j || j <= n < k || k <= n < |t|;
      }
    }
  }

  // ---- values ----

  /** A value as written; `space` is the white space of an empty container. */
  datatype Json = Scalar(token: Text) | Str(pieces: seq<Piece>) | Arr(space: Text, items: Items) | Obj(space: Text, members: Members)
  datatype Items = NoItems | Item(before: Text, value: Json, after: Text, others: Items)
  datatype Members =
    NoMembers | Member(front: Text, key: seq<Piece>, between: Text, gap: Text, field: Json, back: Text, remaining: Members)

  predicate Good(v: Json) {
    match v
    case Scalar(token) => IsToken(token)
    case Str(pieces) => GoodPieces(pieces)
    case Arr(space, items) => AllWs(space) && GoodItems(items)
    case Obj(space, members) => AllWs(space) && GoodMembers(members)
  }

  predicate GoodItems(items: Items) {
    items.Item? ==> AllWs(items.before) && Good(items.value) && AllWs(items.after) && GoodItems(items.others)
  }

  predicate GoodMembers(ms: Members) {
    ms.NoMembers? ||
    (AllWs(ms.front) && GoodPieces(ms.key) && AllWs(ms.between) && AllWs(ms.gap) && Good(ms.field) && AllWs(ms.back) &&
     GoodMembers(ms.remaining))
  }

  function Render(v: Json): Text
    decreases v, 0
  {
    match v
    case Scalar(token) => token
    case Str(pieces) => StringText(pieces)
    case Arr(space, items) => [LBRACKET] + (if items.NoItems? then space + [RBRACKET] else RenderItems(items))
    case Obj(space, members) => [LBRACE] + (if members.NoMembers? then space + [RBRACE] else RenderMembers(members))
  }

  /** From after the opening bracket, or after a comma, to the closing bracket. */
  function RenderItems(items: Items): Text
    requires items.Item?
    decreases items, 0
  {
    items.before + (Render(items.value) + (items.after + ItemsTail(items.others)))
  }

  function ItemsTail(items: Items): (r: Text)
    ensures r != []
    decreases items, 1
  {
    if items.NoItems? then [RBRACKET] else [COMMA] + RenderItems(items)
  }

  function RenderMembers(ms: Members): Text
    requires ms.Member?
    decreases ms, 0
  {
    ms.front + (StringText(ms.key) + (ms.between + ([COLON] + (ms.gap + (Render(ms.field) + (ms.back + MembersTail(ms.remaining)))))))
  }

  function MembersTail(ms: Members): (r: Text)
    ensures r != []
    decreases ms, 1
  {
    if ms.NoMembers? then [RBRACE] else [COMMA] + RenderMembers(ms)
  }

  // ---- what a text means: the result of JSON.parse ----

  /** Numbers stand for themselves. Fields keep their order; a repeated key keeps its place and takes the later value. */
  datatype Tree = Atom(text: Text) | Words(text: Text) | Array(elements: seq<Tree>) | Object(fields: seq<Field>)
  datatype Field = Field(key: Text, value: Tree)

  function SetField(fields: seq<Field>, key: Text, value: Tree): seq<Field> {
    if fields == [] then [Field(key, value)]
    else if fields[0].key == key then [Field(key, value)] + fields[1..]
    else [fields[0]] + SetField(fields[1..], key, value)
  }

  function TreeOf(v: Json): Tree {
    match v
    case Scalar(token) => Atom(token)
    case Str(pieces) => Words(PiecesValue(pieces))
    case Arr(_, items) => Array(TreesOf(items))
    case Obj(_, members) => Object(FieldsOf(members, []))
  }

  function TreesOf(items: Items): seq<Tree> { if items.NoItems? then [] else [TreeOf(items.value)] + TreesOf(items.others) }

  function FieldsOf(ms: Members, fields: seq<Field>): seq<Field>
    decreases ms
  {
    if ms.NoMembers? then fields else FieldsOf(ms.remaining, SetField(fields, PiecesValue(ms.key), TreeOf(ms.field)))
  }

  // ---- the two conditions the scanner checks ----

  /** How many containers lie above the deepest value. */
  function Height(v: Json): nat {
    match v
    case Arr(_, items) => ItemsHeight(items)
    case Obj(_, members) => MembersHeight(members)
    case _ => 0
  }

  function Max(a: nat, b: nat): nat { if a < b then b else a }
  function ItemsHeight(items: Items): nat { if items.NoItems? then 0 else Max(1 + Height(items.value), ItemsHeight(items.others)) }
  function MembersHeight(ms: Members): nat { if ms.NoMembers? then 0 else Max(1 + Height(ms.field), MembersHeight(ms.remaining)) }

  /** No object repeats a key, however it is written. */
  predicate Unique(v: Json) {
    match v
    case Arr(_, items) => UniqueItems(items)
    case Obj(_, members) => UniqueMembers(members) && !Repeats(members)
    case _ => true
  }

  predicate UniqueItems(items: Items) { items.Item? ==> Unique(items.value) && UniqueItems(items.others) }
  predicate UniqueMembers(ms: Members) { ms.Member? ==> Unique(ms.field) && UniqueMembers(ms.remaining) }

  function Keys(ms: Members): seq<Text> { if ms.NoMembers? then [] else [PiecesValue(ms.key)] + Keys(ms.remaining) }
  ghost predicate RepeatsIn(keys: seq<Text>) { exists i, j :: 0 <= i < j < |keys| && keys[i] == keys[j] }

  predicate Repeats(ms: Members) { ms.Member? && (PiecesValue(ms.key) in Keys(ms.remaining) || Repeats(ms.remaining)) }

  /** Repeated keys are two equal ones at different places. */
  lemma {:induction false} RepeatsMeans(ms: Members)
    ensures Repeats(ms) <==> RepeatsIn(Keys(ms))
    decreases ms
  {
    if ms.Member? {
      RepeatsMeans(ms.remaining);
      var keys, rest := Keys(ms), Keys(ms.remaining);
      assert forall i | 0 < i < |keys| :: keys[i] == rest[i - 1];
      if RepeatsIn(rest) {
        var i, j :| 0 <= i < j < |rest| && rest[i] == rest[j];
        assert keys[i + 1] == keys[j + 1];
      }
      if keys[0] in rest {
        var j :| 0 <= j < |rest| && rest[j] == keys[0];
        assert keys[j + 1] == keys[0];
      }
      if RepeatsIn(keys) && keys[0] !in rest {
        var i, j :| 0 <= i < j < |keys| && keys[i] == keys[j];
        assert i > 0 && rest[i - 1] == rest[j - 1];
      }
    }
  }
}

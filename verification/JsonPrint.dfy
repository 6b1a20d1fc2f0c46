/** JSON.stringify on trees, as the value it writes: no white space, and its own choice of escapes. */
module JsonPrint {
  import opened Common
  import opened JsonText
  import opened JsonScan
  import opened JsonReads

  // ---- strings ----

  function HexDigit(n: int): unit
    requires 0 <= n < 16
  {
    if n < 10 then n + 48 else n + 87
  }

  function HexPiece(u: unit): Piece {
    Hex(HexDigit(u / 0x1000), HexDigit(u / 0x100 % 0x10), HexDigit(u / 0x10 % 0x10), HexDigit(u % 0x10))
  }

  predicate IsHigh(u: unit) { 0xD800 <= u < 0xDC00 }
  predicate IsLow(u: unit) { 0xDC00 <= u < 0xE000 }

  function QuoteUnit(u: unit): Piece {
    if u == 8 then Short(98) else if u == 9 then Short(116) else if u == 10 then Short(110) else if u == 12 then Short(102)
    else if u == 13 then Short(114) else if u == QUOTE || u == BACKSLASH then Short(u)
    else if u < 32 || IsHigh(u) || IsLow(u) then HexPiece(u) else Plain(u)
  }

  /** A surrogate pair is written as it is, a lone surrogate as an escape. */
  function Quote(t: Text): seq<Piece> {
    if t == [] then []
    else if |t| >= 2 && IsHigh(t[0]) && IsLow(t[1]) then [Plain(t[0]), Plain(t[1])] + Quote(t[2..])
    else [QuoteUnit(t[0])] + Quote(t[1..])
  }

  lemma HexDigits(u: unit)
    ensures var p := HexPiece(u); GoodPiece(p) && PieceValue(p) == u
  {
    var q := u / 0x10;
    assert u == q * 0x10 + u % 0x10 && q == q / 0x10 * 0x10 + q % 0x10 && q / 0x10 == u / 0x100;
    var r := u / 0x100;
    assert r == r / 0x10 * 0x10 + r % 0x10 && r / 0x10 == u / 0x1000;
    HexBack(u / 0x1000);
    HexBack(u / 0x100 % 0x10);
    HexBack(u / 0x10 % 0x10);
    HexBack(u % 0x10);
    hide HexDigit, HexValue, IsHex;
  }

  lemma HexBack(n: int)
    requires 0 <= n < 16
    ensures IsHex(HexDigit(n)) && HexValue(HexDigit(n)) == n
  {
  }

  lemma QuoteUnitBack(u: unit)
    ensures GoodPiece(QuoteUnit(u)) && PieceValue(QuoteUnit(u)) == u
  {
    HexDigits(u);
    hide HexPiece;
  }

  lemma {:induction false} PiecesOn(xs: seq<Piece>, ys: seq<Piece>)
    ensures PiecesValue(xs + ys) == PiecesValue(xs) + PiecesValue(ys)
    ensures |PiecesText(xs + ys)| == |PiecesText(xs)| + |PiecesText(ys)|
    decreases |xs|
  {
    if xs == [] {
      assert xs + ys == ys;
    } else {
      hide PieceText, PieceValue;
      assert (xs + ys)[1..] == xs[1..] + ys;
      PiecesOn(xs[1..], ys);
    }
  }

  lemma OnePiece(p: Piece)
    ensures PiecesValue([p]) == [PieceValue(p)] && |PiecesText([p])| == |PieceText(p)| <= 6
  {
    assert [p][1..] == [];
  }

  lemma TwoPieces(p: Piece, q: Piece)
    ensures PiecesValue([p, q]) == [PieceValue(p), PieceValue(q)] && |PiecesText([p, q])| <= 12
  {
    hide PieceText, PieceValue, PiecesText, PiecesValue;
    OnePiece(p);
    OnePiece(q);
    PiecesOn([p], [q]);
    assert [p] + [q] == [p, q];
  }

  /** The first one or two units of a text, and how they are written. */
  lemma QuoteFirst(t: Text) returns (n: nat, first: seq<Piece>)
    requires t != []
    ensures 1 <= n <= |t| && Quote(t) == first + Quote(t[n..])
    ensures GoodPieces(first) && PiecesValue(first) == t[..n] && |PiecesText(first)| <= 6 * n
  {
    if |t| >= 2 && IsHigh(t[0]) && IsLow(t[1]) {
      n, first := 2, [Plain(t[0]), Plain(t[1])];
      hide PiecesText, PiecesValue, Quote;
      TwoPieces(first[0], first[1]);
      assert t[..2] == [t[0], t[1]];
      QuotePair(t);
    } else {
      n, first := 1, [QuoteUnit(t[0])];
      QuoteUnitBack(t[0]);
      hide QuoteUnit, PiecesText, PiecesValue;
      OnePiece(first[0]);
      assert t[..1] == [t[0]];
    }
  }

  lemma QuotePair(t: Text)
    requires |t| >= 2 && IsHigh(t[0]) && IsLow(t[1])
    ensures Quote(t) == [Plain(t[0]), Plain(t[1])] + Quote(t[2..])
  {
  }

  /** Every string, lone surrogates included, is written so that it reads back as itself. */
  lemma {:induction false} QuoteBack(t: Text)
    ensures GoodPieces(Quote(t)) && PiecesValue(Quote(t)) == t
    ensures |PiecesText(Quote(t))| <= 6 * |t|
    decreases |t|
  {
    if t != [] {
      hide Quote, GoodPiece, PiecesValue, PiecesText;
      var n, first := QuoteFirst(t);
      QuoteBack(t[n..]);
      PiecesOn(first, Quote(t[n..]));
      assert t == t[..n] + t[n..];
    }
  }

  // ---- trees ----

  function KeysOf(fields: seq<Field>): seq<Text> { if fields == [] then [] else [fields[0].key] + KeysOf(fields[1..]) }

  predicate Distinct(fields: seq<Field>) { fields == [] || (fields[0].key !in KeysOf(fields[1..]) && Distinct(fields[1..])) }

  /** A tree that stands for a JSON value: proper scalars, and no object with the same key twice. */
  predicate Proper(t: Tree) {
    match t
    case Atom(token) => IsToken(token)
    case Words(_) => true
    case Array(elements) => forall e | e in elements :: Proper(e)
    case Object(fields) => Distinct(fields) && forall f | f in fields :: Proper(f.value)
  }

  function TreeHeight(t: Tree): nat {
    match t case Array(elements) => ElementsHeight(elements) case Object(fields) => FieldsHeight(fields) case _ => 0
  }

  function ElementsHeight(elements: seq<Tree>): nat {
    if elements == [] then 0 else Max(1 + TreeHeight(elements[0]), ElementsHeight(elements[1..]))
  }

  function FieldsHeight(fields: seq<Field>): nat {
    if fields == [] then 0 else Max(1 + TreeHeight(fields[0].value), FieldsHeight(fields[1..]))
  }

  function Print(t: Tree): Json {
    match t
    case Atom(token) => Scalar(token)
    case Words(text) => Str(Quote(text))
    case Array(elements) => Arr([], PrintItems(elements))
    case Object(fields) => Obj([], PrintMembers(fields))
  }

  function PrintItems(elements: seq<Tree>): Items {
    if elements == [] then NoItems else Item([], Print(elements[0]), [], PrintItems(elements[1..]))
  }

  function PrintMembers(fields: seq<Field>): Members {
    if fields == [] then NoMembers
    else Member([], Quote(fields[0].key), [], [], Print(fields[0].value), [], PrintMembers(fields[1..]))
  }

  function Stringify(t: Tree): Text { Render(Print(t)) }

  // ---- what is printed means the tree ----

  lemma {:induction false} PrintGood(t: Tree)
    requires Proper(t)
    ensures Good(Print(t)) && Height(Print(t)) == TreeHeight(t)
    decreases t
  {
    match t
    case Atom(_) =>
    case Words(text) => QuoteBack(text);
    case Array(elements) => ItemsGood(elements);
    case Object(fields) => MembersGood(fields);
  }

  lemma {:induction false} ItemsGood(elements: seq<Tree>)
    requires forall e | e in elements :: Proper(e)
    ensures GoodItems(PrintItems(elements)) && ItemsHeight(PrintItems(elements)) == ElementsHeight(elements)
    decreases elements
  {
    if elements != [] {
      PrintGood(elements[0]);
      ItemsGood(elements[1..]);
    }
  }

  lemma {:induction false} MembersGood(fields: seq<Field>)
    requires forall f | f in fields :: Proper(f.value)
    ensures GoodMembers(PrintMembers(fields)) && MembersHeight(PrintMembers(fields)) == FieldsHeight(fields)
    decreases fields
  {
    if fields != [] {
      assert fields[0].value < fields[0];
      PrintGood(fields[0].value);
      MembersGood(fields[1..]);
      QuoteBack(fields[0].key);
    }
  }

  lemma {:induction false} PrintUnique(t: Tree)
    requires Proper(t)
    ensures Unique(Print(t))
    decreases t
  {
    match t
    case Array(elements) => ItemsUnique(elements);
    case Object(fields) => MembersUnique(fields);
    case _ =>
  }

  lemma {:induction false} ItemsUnique(elements: seq<Tree>)
    requires forall e | e in elements :: Proper(e)
    ensures UniqueItems(PrintItems(elements))
    decreases elements
  {
    if elements != [] {
      PrintUnique(elements[0]);
      ItemsUnique(elements[1..]);
    }
  }

  lemma {:induction false} MembersUnique(fields: seq<Field>)
    requires Distinct(fields) && forall f | f in fields :: Proper(f.value)
    ensures UniqueMembers(PrintMembers(fields)) && !Repeats(PrintMembers(fields))
    ensures Keys(PrintMembers(fields)) == KeysOf(fields)
    decreases fields
  {
    if fields != [] {
      assert fields[0].value < fields[0];
      PrintUnique(fields[0].value);
      MembersUnique(fields[1..]);
      QuoteBack(fields[0].key);
    }
  }

  lemma {:induction false} SetNew(fields: seq<Field>, key: Text, value: Tree)
    requires key !in KeysOf(fields)
    ensures SetField(fields, key, value) == fields + [Field(key, value)]
    decreases |fields|
  {
    if fields != [] {
      assert KeysOf(fields)[0] in KeysOf(fields) && forall k | k in KeysOf(fields[1..]) :: k in KeysOf(fields);
      SetNew(fields[1..], key, value);
    }
  }

  lemma {:induction false} KeysOn(xs: seq<Field>, ys: seq<Field>)
    ensures KeysOf(xs + ys) == KeysOf(xs) + KeysOf(ys)
    decreases |xs|
  {
    if xs == [] {
      assert xs + ys == ys;
    } else {
      assert (xs + ys)[1..] == xs[1..] + ys;
      KeysOn(xs[1..], ys);
    }
  }

  lemma {:induction false} PrintTree(t: Tree)
    requires Proper(t)
    ensures TreeOf(Print(t)) == t
    decreases t
  {
    match t
    case Atom(_) =>
    case Words(text) => QuoteBack(text);
    case Array(elements) => ItemsTree(elements);
    case Object(fields) =>
      MembersTree(fields, []);
      assert [] + fields == fields;
  }

  lemma {:induction false} ItemsTree(elements: seq<Tree>)
    requires forall e | e in elements :: Proper(e)
    ensures TreesOf(PrintItems(elements)) == elements
    decreases elements
  {
    if elements != [] {
      PrintTree(elements[0]);
      ItemsTree(elements[1..]);
    }
  }

  lemma {:induction false} MembersTree(fields: seq<Field>, before: seq<Field>)
    requires Distinct(fields) && (forall f | f in fields :: Proper(f.value)) && Apart(fields, before)
    ensures FieldsOf(PrintMembers(fields), before) == before + fields
    decreases fields
  {
    hide *;
    if fields == [] {
      NoFields(before);
      assert before + fields == before;
    } else {
      var first, rest := fields[0], fields[1..];
      assert first in fields && first.value < first;
      KeysApart(fields, before);
      PrintTree(first.value);
      FirstField(fields, before);
      MembersTree(rest, before + [first]);
      assert before + [first] + rest == before + fields;
    }
  }

  lemma NoFields(before: seq<Field>)
    ensures FieldsOf(PrintMembers([]), before) == before
  {
  }

  predicate Apart(xs: seq<Field>, ys: seq<Field>) { forall k | k in KeysOf(xs) :: k !in KeysOf(ys) }

  lemma KeysApart(fields: seq<Field>, before: seq<Field>)
    requires fields != [] && Distinct(fields) && Apart(fields, before)
    ensures fields[0].key !in KeysOf(before) && Apart(fields[1..], before + [fields[0]])
    ensures Distinct(fields[1..])
  {
    var first, rest := fields[0], fields[1..];
    assert KeysOf(fields) == [first.key] + KeysOf(rest) && KeysOf(fields)[0] == first.key;
    assert forall k | k in KeysOf(rest) :: k in KeysOf(fields);
    KeysOn(before, [first]);
    assert KeysOf([first]) == [first.key] by { assert [first][1..] == []; }
  }

  lemma FirstField(fields: seq<Field>, before: seq<Field>)
    requires fields != [] && fields[0].key !in KeysOf(before) && TreeOf(Print(fields[0].value)) == fields[0].value
    ensures FieldsOf(PrintMembers(fields), before) == FieldsOf(PrintMembers(fields[1..]), before + [fields[0]])
  {
    QuoteBack(fields[0].key);
    SetNew(before, fields[0].key, fields[0].value);
    hide SetField, TreeOf, Print, KeysOf, Quote;
    assert Field(fields[0].key, fields[0].value) == fields[0];
  }

  /** What JSON.stringify writes is read back by JSON.parse as the same tree, and passes the scanner exactly when it is
      no deeper than 32 containers. */
  lemma StringifyParses(t: Tree)
    requires Proper(t)
    ensures Parse(Stringify(t)) == Some(t)
    ensures CheckUnique(Stringify(t)) == None <==> TreeHeight(t) <= MAX_JSON_DEPTH
  {
    PrintGood(t);
    PrintUnique(t);
    PrintTree(t);
    hide *;
    NoSpace();
    ScannerRefinesTree([], Print(t), []);
    Alone(t);
  }

  lemma Alone(t: Tree)
    ensures [] + Render(Print(t)) + [] == Stringify(t)
  {
    hide Render;
  }

  lemma NoSpace()
    ensures AllWs([])
  {
  }
}

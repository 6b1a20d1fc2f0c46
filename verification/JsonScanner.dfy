/** The duplicate-field scanner of wasm/codec.ts:481-545, as functions of the position. */
module JsonScan {
  import opened Common
  import opened JsonText
  import Texts

  const MAX_JSON_DEPTH := 32

  datatype ScanError = TooDeep | Duplicate | Unterminated | BadString

  /** The position after what was scanned; it may lie past the end of a malformed text. */
  datatype Scan = Done(at: nat) | Failed(error: ScanError)

  function At(json: Text, i: nat): int { if i < |json| then json[i] else -1 }

  function SkipWs(json: Text, i: nat): (r: nat)
    ensures i <= r && (i <= |json| ==> r <= |json|) && (r < |json| ==> !IsWs(json[r]))
    decreases |json| - i
  {
    if i < |json| && IsWs(json[i]) then SkipWs(json, i + 1) else i
  }

  predicate EndsScalar(u: unit) { Texts.IsSpaceCode(u) || u == COMMA || u == RBRACE || u == RBRACKET }

  function ScalarEnd(json: Text, i: nat): (r: nat)
    ensures i <= r && (i <= |json| ==> r <= |json|)
    decreases |json| - i
  {
    if i < |json| && !EndsScalar(json[i]) then ScalarEnd(json, i + 1) else i
  }

  /** The end of a string whose opening character stands before `i`. */
  function StringEnd(json: Text, i: nat): (r: Option<nat>)
    ensures r.Some? ==> i < r.value <= |json|
    decreases |json| - i
  {
    if i >= |json| then None
    else if json[i] == BACKSLASH then StringEnd(json, i + 2)
    else if json[i] == QUOTE then Some(i + 1)
    else StringEnd(json, i + 1)
  }

  datatype Token = Token(text: Text, end: nat) | NoToken(error: ScanError)

  function StringToken(json: Text, start: nat): (r: Token)
    ensures r.Token? ==> start + 1 < r.end <= |json|
  {
    var end := StringEnd(json, start + 1);
    if end == None then NoToken(Unterminated) else
    var text := DecodeLiteral(json[start..end.value]);
    if text == None then NoToken(BadString) else Token(text.value, end.value)
  }

  function Value(json: Text, i: nat, depth: nat): (r: Scan)
    ensures r.Done? ==> r.at >= i
    decreases |json| - i, 2
  {
    if depth > MAX_JSON_DEPTH then Failed(TooDeep) else
    var j := SkipWs(json, i);
    if At(json, j) == LBRACE then ScanObject(json, j, depth + 1)
    else if At(json, j) == LBRACKET then ScanArray(json, j, depth + 1)
    else if At(json, j) == QUOTE then
      var token := StringToken(json, j);
      if token.NoToken? then Failed(token.error) else Done(token.end)
    else Done(ScalarEnd(json, j))
  }

  function ScanObject(json: Text, i: nat, depth: nat): (r: Scan)
    requires i < |json|
    ensures r.Done? ==> r.at >= i
    decreases |json| - i, 1
  {
    var j := SkipWs(json, i + 1);
    if At(json, j) == RBRACE then Done(j + 1) else ScanMembers(json, j, depth, {})
  }

  function ScanMembers(json: Text, i: nat, depth: nat, fields: set<Text>): (r: Scan)
    ensures r.Done? ==> r.at >= i
    decreases |json| - i, 3
  {
    if i >= |json| then Done(i) else
    var token := StringToken(json, SkipWs(json, i));
    if token.NoToken? then Failed(token.error)
    else if token.text in fields then Failed(Duplicate)
    else
      var field := Value(json, SkipWs(json, token.end) + 1, depth);
      if field.Failed? then field else
      var j := SkipWs(json, field.at);
      if At(json, j) == RBRACE then Done(j + 1) else ScanMembers(json, j + 1, depth, fields + {token.text})
  }

  function ScanArray(json: Text, i: nat, depth: nat): (r: Scan)
    requires i < |json|
    ensures r.Done? ==> r.at >= i
    decreases |json| - i, 1
  {
    var j := SkipWs(json, i + 1);
    if At(json, j) == RBRACKET then Done(j + 1) else ScanItems(json, j, depth)
  }

  function ScanItems(json: Text, i: nat, depth: nat): (r: Scan)
    ensures r.Done? ==> r.at >= i
    decreases |json| - i, 3
  {
    if i >= |json| then Done(i) else
    var item := Value(json, i, depth);
    if item.Failed? then item else
    var j := SkipWs(json, item.at);
    if At(json, j) == RBRACKET then Done(j + 1) else ScanItems(json, j + 1, depth)
  }

  /** assertUniqueAbiJsonObjectFields: nothing after the value is looked at. */
  function CheckUnique(json: Text): Option<ScanError> {
    var r := Value(json, 0, 0);
    if r.Failed? then Some(r.error) else None
  }

  // ---- JSON.parse (RFC 8259), reading from a position ----

  datatype Parsed<+T> = Got(value: T, at: nat) | Malformed

  predicate EndsToken(u: unit) { IsWs(u) || u == COMMA || u == RBRACE || u == RBRACKET }

  function TokenEnd(json: Text, i: nat): (r: nat)
    ensures i <= r && (i <= |json| ==> r <= |json|)
    decreases |json| - i
  {
    if i < |json| && !EndsToken(json[i]) then TokenEnd(json, i + 1) else i
  }

  function ParseValue(json: Text, i: nat): (r: Parsed<Tree>)
    ensures r.Got? ==> i < r.at <= |json|
    decreases |json| - i, 2
  {
    var j := SkipWs(json, i);
    if j >= |json| then Malformed
    else if json[j] == LBRACE then
      var k := SkipWs(json, j + 1);
      if At(json, k) == RBRACE then Got(Object([]), k + 1) else ParseMembers(json, j + 1, [])
    else if json[j] == LBRACKET then
      var k := SkipWs(json, j + 1);
      if At(json, k) == RBRACKET then Got(Array([]), k + 1) else
      (match ParseItems(json, j + 1) case Malformed => Malformed case Got(items, at) => Got(Array(items), at))
    else if json[j] == QUOTE then
      match StringToken(json, j) case NoToken(_) => Malformed case Token(text, end) => Got(Words(text), end)
    else
      var end := TokenEnd(json, j);
      if IsToken(json[j..end]) then
        assert end > j by { TokenUnits(json[j..end]); }
        Got(Atom(json[j..end]), end)
      else Malformed
  }

  function ParseItems(json: Text, i: nat): (r: Parsed<seq<Tree>>)
    ensures r.Got? ==> i < r.at <= |json|
    decreases |json| - i, 3
  {
    match ParseValue(json, i)
    case Malformed => Malformed
    case Got(item, at) =>
      var j := SkipWs(json, at);
      if At(json, j) == RBRACKET then Got([item], j + 1)
      else if At(json, j) != COMMA then Malformed
      else match ParseItems(json, j + 1) case Malformed => Malformed case Got(items, end) => Got([item] + items, end)
  }

  function ParseMembers(json: Text, i: nat, fields: seq<Field>): (r: Parsed<Tree>)
    ensures r.Got? ==> i < r.at <= |json|
    decreases |json| - i, 3
  {
    var start := SkipWs(json, i);
    if At(json, start) != QUOTE then Malformed else
    match StringToken(json, start)
    case NoToken(_) => Malformed
    case Token(key, end) =>
      var colon := SkipWs(json, end);
      if At(json, colon) != COLON then Malformed else
      match ParseValue(json, colon + 1)
      case Malformed => Malformed
      case Got(value, at) =>
        var j := SkipWs(json, at);
        if At(json, j) == RBRACE then Got(Object(SetField(fields, key, value)), j + 1)
        else if At(json, j) != COMMA then Malformed
        else ParseMembers(json, j + 1, SetField(fields, key, value))
  }

  function Parse(json: Text): Option<Tree> {
    match ParseValue(json, 0)
    case Malformed => None
    case Got(tree, at) => if SkipWs(json, at) == |json| then Some(tree) else None
  }
}

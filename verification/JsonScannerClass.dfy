/** The scanner in its own form: nested loops that advance one shared index. */
module JsonScannerClass {
  import opened Common
  import opened JsonText
  import opened JsonScan

  /** One round of the loop over the members. */
  lemma MembersStep(json: Text, i: nat, depth: nat, fields: set<Text>)
    requires i < |json|
    ensures match StringToken(json, SkipWs(json, i))
      case NoToken(e) => ScanMembers(json, i, depth, fields) == Failed(e)
      case Token(text, end) =>
        if text in fields then ScanMembers(json, i, depth, fields) == Failed(Duplicate) else
        match Value(json, SkipWs(json, end) + 1, depth)
        case Failed(e) => ScanMembers(json, i, depth, fields) == Failed(e)
        case Done(at) =>
          var j := SkipWs(json, at);
          ScanMembers(json, i, depth, fields) ==
            if At(json, j) == RBRACE then Done(j + 1) else ScanMembers(json, j + 1, depth, fields + {text})
  {
    hide StringToken, Value, SkipWs;
  }

  lemma MembersEnd(json: Text, i: nat, depth: nat, fields: set<Text>)
    requires i >= |json|
    ensures ScanMembers(json, i, depth, fields) == Done(i)
  {
  }

  class Scanner {
    const json: Text
    var index: nat

    constructor (text: Text)
      ensures json == text && index == 0
    {
      json, index := text, 0;
    }

    method Whitespace()
      modifies this
      ensures index == SkipWs(json, old(index))
    {
      while index < |json| && IsWs(json[index])
        invariant SkipWs(json, index) == SkipWs(json, old(index))
      {
        index := index + 1;
      }
    }

    method ReadString() returns (r: Result<Text, ScanError>)
      modifies this
      ensures match StringToken(json, old(index))
        case NoToken(error) => r == Err(error)
        case Token(text, end) => r == Ok(text) && index == end
    {
      var start := index;
      index := index + 1;
      while index < |json|
        invariant index >= start + 1 && StringEnd(json, index) == StringEnd(json, start + 1)
      {
        var character := json[index];
        index := index + 1;
        if character == BACKSLASH {
          index := index + 1;
        } else if character == QUOTE {
          var text := DecodeLiteral(json[start..index]);
          if text == None {
            return Err(BadString);
          }
          return Ok(text.value);
        }
      }
      return Err(Unterminated);
    }

    /** `error` is the exception, if one is thrown; otherwise the index stands where the function says. */
    ghost predicate Agrees(r: Scan, error: Option<ScanError>)
      reads this
    {
      match r case Failed(e) => error == Some(e) case Done(at) => error == None && index == at
    }

    method ReadValue(depth: nat) returns (error: Option<ScanError>)
      modifies this
      ensures Agrees(Value(json, old(index), depth), error)
      decreases |json| - index, 2
    {
      if depth > MAX_JSON_DEPTH {
        return Some(TooDeep);
      }
      Whitespace();
      ghost var from := index;
      if index < |json| && json[index] == LBRACE {
        error := ReadObject(depth + 1);
        return;
      }
      if index < |json| && json[index] == LBRACKET {
        error := ReadArray(depth + 1);
        return;
      }
      if index < |json| && json[index] == QUOTE {
        var token := ReadString();
        return if token.Err? then Some(token.error) else None;
      }
      while index < |json| && !EndsScalar(json[index])
        invariant ScalarEnd(json, index) == ScalarEnd(json, from)
      {
        index := index + 1;
      }
      return None;
    }

    method ReadObject(depth: nat) returns (error: Option<ScanError>)
      requires index < |json|
      modifies this
      ensures Agrees(ScanObject(json, old(index), depth), error)
      decreases |json| - index, 1
    {
      index := index + 1;
      Whitespace();
      if index < |json| && json[index] == RBRACE {
        index := index + 1;
        return None;
      }
      error := ReadMembers(depth);
    }

    method ReadMembers(depth: nat) returns (error: Option<ScanError>)
      modifies this
      ensures Agrees(ScanMembers(json, old(index), depth, {}), error)
      decreases |json| - index, 3
    {
      hide StringToken, Value, SkipWs, ScanMembers;
      var fields: set<Text> := {};
      ghost var whole := ScanMembers(json, index, depth, {});
      while index < |json|
        invariant index >= old(index) && ScanMembers(json, index, depth, fields) == whole
        decreases |json| - index
      {
        MembersStep(json, index, depth, fields);
        var key := ReadKey(fields);
        if key.Err? {
          return Some(key.error);
        }
        fields := fields + {key.value};
        error := ReadField(depth);
        if error.Some? {
          return error;
        }
        Whitespace();
        index := index + 1;
        if index <= |json| && json[index - 1] == RBRACE {
          return None;
        }
      }
      MembersEnd(json, index, depth, fields);
      return None;
    }

    method ReadKey(fields: set<Text>) returns (r: Result<Text, ScanError>)
      modifies this
      ensures match StringToken(json, SkipWs(json, old(index)))
        case NoToken(error) => r == Err(error)
        case Token(text, end) => if text in fields then r == Err(Duplicate) else r == Ok(text) && index == end
    {
      Whitespace();
      r := ReadString();
      if r.Ok? && r.value in fields {
        return Err(Duplicate);
      }
    }

    /** Whatever stands where the colon should be is skipped. */
    method ReadField(depth: nat) returns (error: Option<ScanError>)
      requires index <= |json|
      modifies this
      ensures Agrees(Value(json, SkipWs(json, old(index)) + 1, depth), error)
      decreases |json| - index, 0
    {
      Whitespace();
      index := index + 1;
      error := ReadValue(depth);
    }

    method ReadArray(depth: nat) returns (error: Option<ScanError>)
      requires index < |json|
      modifies this
      ensures Agrees(ScanArray(json, old(index), depth), error)
      decreases |json| - index, 1
    {
      index := index + 1;
      Whitespace();
      if index < |json| && json[index] == RBRACKET {
        index := index + 1;
        return None;
      }
      ghost var whole := ScanItems(json, index, depth);
      while index < |json|
        invariant index > old(index) && ScanItems(json, index, depth) == whole
        decreases |json| - index
      {
        hide Value, SkipWs;
        var failed := ReadValue(depth);
        if failed.Some? {
          return failed;
        }
        Whitespace();
        index := index + 1;
        if index <= |json| && json[index - 1] == RBRACKET {
          return None;
        }
      }
      return None;
    }
  }

  /** assertUniqueAbiJsonObjectFields; it terminates on every text, malformed ones included. */
  method AssertUniqueFields(json: Text) returns (error: Option<ScanError>)
    ensures error == CheckUnique(json)
  {
    var scanner := new Scanner(json);
    error := scanner.ReadValue(0);
  }
}

/** What a response must look like to be accepted, wasm/codec.ts: for every tree, every JSON text and every error. */
module AbiAnswers {
  import opened Common
  import opened ErrorCatalog
  import opened JsonText
  import opened JsonScan
  import opened JsonPrint
  import opened AbiResponses
  import JsonReads
  import Utf8

  /** The object `t` has exactly the fields of the object `u`, in any order. */
  ghost predicate SameFields(t: Tree, u: Tree) {
    && t.Object? && u.Object? && |t.fields| == |u.fields|
    && forall f | f in u.fields :: Get(t.fields, f.key) == Some(f.value)
  }

  /** The tree stands for the response: the same fields in the envelope, and in the error object. */
  ghost predicate StandsFor(tree: Tree, r: Response) {
    match r
    case Success(_, _) => SameFields(tree, ToTree(r))
    case Failure(id, code, field) =>
      tree.Object? && Get(tree.fields, ErrorKey()).Some? &&
      var error := Get(tree.fields, ErrorKey()).value;
      SameFields(tree, Envelope(id, false, ErrorKey(), error)) && SameFields(error, ErrorTree(code, field))
  }

  /** What a result and a blamed field may be. */
  predicate Lawful(r: Response) {
    match r
    case Success(_, result) => TreeHeight(result) <= MAX_JSON_DEPTH && Unreserved(result)
    case Failure(_, _, field) => field.Some? ==> IsLabel(field.value, MAX_FIELD_BYTES)
  }

  // ---- envelopes and error objects by their fields ----

  predicate InEnvelope(t: Tree, id: Text, ok: bool, name: Text, content: Tree) {
    && t.Object? && |t.fields| == 4
    && Get(t.fields, AbiKey()) == Some(Words(AbiVersion())) && Get(t.fields, IdKey()) == Some(Words(id))
    && Get(t.fields, OkKey()) == Some(Truth(ok)) && Get(t.fields, name) == Some(content)
  }

  predicate InError(t: Tree, code: ErrorCode, field: Option<Text>) {
    && t.Object? && |t.fields| == (if field.Some? then 4 else 3)
    && Get(t.fields, CodeKey()) == Some(Words(Units(Name(code))))
    && Get(t.fields, MessageKey()) == Some(Words(Units(Message(code))))
    && Get(t.fields, RetryableKey()) == Some(Truth(Retryable(code)))
    && (field.Some? ==> Get(t.fields, FieldKey()) == Some(Words(field.value)))
  }

  lemma EnvelopeFields(t: Tree, id: Text, ok: bool, name: Text, content: Tree)
    ensures SameFields(t, Envelope(id, ok, name, content)) <==> InEnvelope(t, id, ok, name, content)
  {
    hide Get, AbiKey, IdKey, OkKey, AbiVersion, Truth;
    var a, b := Field(AbiKey(), Words(AbiVersion())), Field(IdKey(), Words(id));
    var c, d := Field(OkKey(), Truth(ok)), Field(name, content);
    var fields := [a, b, c, d];
    assert Envelope(id, ok, name, content) == Object(fields);
    assert a in fields && b in fields && c in fields && d in fields;
    assert forall f | f in fields :: f == a || f == b || f == c || f == d;
  }

  lemma PlainErrorIs(code: ErrorCode, field: Option<Text>)
    requires field == None
    ensures ErrorTree(code, field) == Object([Field(CodeKey(), Words(Units(Name(code)))), Field(MessageKey(), Words(Units(Message(code)))),
                                              Field(RetryableKey(), Truth(Retryable(code)))])
  {
    hide CodeKey, MessageKey, RetryableKey, FieldKey, Units, Name, Message, Retryable, Truth;
  }

  lemma PlainErrorFields(t: Tree, code: ErrorCode, field: Option<Text>)
    requires field == None
    ensures SameFields(t, ErrorTree(code, field)) <==> InError(t, code, field)
  {
    hide Get, CodeKey, MessageKey, RetryableKey, FieldKey, Units, Name, Message, Retryable, Truth, ErrorTree;
    PlainErrorIs(code, field);
    var a, b := Field(CodeKey(), Words(Units(Name(code)))), Field(MessageKey(), Words(Units(Message(code))));
    var c := Field(RetryableKey(), Truth(Retryable(code)));
    ThreeSame(t, a, b, c);
  }

  lemma ThreeSame(t: Tree, a: Field, b: Field, c: Field)
    ensures SameFields(t, Object([a, b, c])) <==>
      t.Object? && |t.fields| == 3 && Get(t.fields, a.key) == Some(a.value) && Get(t.fields, b.key) == Some(b.value) &&
      Get(t.fields, c.key) == Some(c.value)
  {
    hide Get;
    var fields := [a, b, c];
    assert a in fields && b in fields && c in fields;
    assert forall f | f in fields :: f == a || f == b || f == c;
  }

  lemma BlamingErrorFields(t: Tree, code: ErrorCode, field: Text)
    ensures SameFields(t, ErrorTree(code, Some(field))) <==> InError(t, code, Some(field))
  {
    hide Get, CodeKey, MessageKey, RetryableKey, FieldKey, Units, Name, Message, Retryable, Truth;
    var a, b := Field(CodeKey(), Words(Units(Name(code)))), Field(MessageKey(), Words(Units(Message(code))));
    var c, d := Field(RetryableKey(), Truth(Retryable(code))), Field(FieldKey(), Words(field));
    var fields := [a, b, c, d];
    assert ErrorTree(code, Some(field)) == Object(fields);
    assert a in fields && b in fields && c in fields && d in fields;
    assert forall f | f in fields :: f == a || f == b || f == c || f == d;
  }

  lemma ErrorFields(t: Tree, code: ErrorCode, field: Option<Text>)
    ensures SameFields(t, ErrorTree(code, field)) <==> InError(t, code, field)
  {
    hide *;
    if field.Some? { BlamingErrorFields(t, code, field.value); } else { PlainErrorFields(t, code, field); }
  }

  lemma StandsForFields(tree: Tree, r: Response)
    ensures StandsFor(tree, r) <==>
      match r
      case Success(id, result) => InEnvelope(tree, id, true, ResultKey(), result)
      case Failure(id, code, field) =>
        tree.Object? && Get(tree.fields, ErrorKey()).Some? &&
        InEnvelope(tree, id, false, ErrorKey(), Get(tree.fields, ErrorKey()).value) &&
        InError(Get(tree.fields, ErrorKey()).value, code, field)
  {
    hide SameFields, Get, InEnvelope, InError, Envelope, ErrorTree;
    match r
    case Success(id, result) => EnvelopeFields(tree, id, true, ResultKey(), result);
    case Failure(id, code, field) =>
      if tree.Object? && Get(tree.fields, ErrorKey()).Some? {
        EnvelopeFields(tree, id, false, ErrorKey(), Get(tree.fields, ErrorKey()).value);
        ErrorFields(Get(tree.fields, ErrorKey()).value, code, field);
      }
  }

  // ---- the error object ----

  lemma {:induction false} LookupMeans(codes: seq<ErrorCode>, name: Text)
    ensures Lookup(codes, name).Some? ==> Units(Name(Lookup(codes, name).value)) == name
    decreases |codes|
  {
    hide Units, Name;
    if codes != [] && Units(Name(codes[0])) != name { LookupMeans(codes[1..], name); }
  }

  lemma LookupIff(name: Text, code: ErrorCode)
    ensures Lookup(Codes(), name) == Some(code) <==> name == Units(Name(code))
  {
    hide Units, Name, Codes, Lookup;
    LookupMeans(Codes(), name);
    AllCodes(code);
    LookupFinds(Codes(), code);
    if Lookup(Codes(), name) == Some(code) { assert Units(Name(code)) == name; }
  }

  lemma KeysThere(fields: seq<Field>, field: Option<Tree>)
    requires field == Get(fields, FieldKey())
    ensures ExactKeys(fields, [CodeKey(), MessageKey(), RetryableKey()] + if field.Some? then [FieldKey()] else []) <==>
      |fields| == (if field.Some? then 4 else 3) && Get(fields, CodeKey()).Some? && Get(fields, MessageKey()).Some? &&
      Get(fields, RetryableKey()).Some?
  {
    hide Get, CodeKey, MessageKey, RetryableKey, FieldKey;
    var names := [CodeKey(), MessageKey(), RetryableKey()] + if field.Some? then [FieldKey()] else [];
    assert names[0] == CodeKey() && names[1] == MessageKey() && names[2] == RetryableKey();
    assert forall n | n in names :: n == CodeKey() || n == MessageKey() || n == RetryableKey() || (field.Some? && n == FieldKey());
  }

  lemma {:induction false} Among(fields: seq<Field>, key: Text) returns (i: nat)
    requires Get(fields, key).Some?
    ensures i < |fields| && fields[i].key == key
    decreases |fields|
  {
    if fields[0].key == key { i := 0; } else {
      var j := Among(fields[1..], key);
      i := j + 1;
    }
  }

  /** With three fields of other names there is no room for a fourth. */
  lemma NoRoom(fields: seq<Field>)
    requires |fields| == 3 && Get(fields, CodeKey()).Some? && Get(fields, MessageKey()).Some? && Get(fields, RetryableKey()).Some?
    ensures Get(fields, FieldKey()) == None
  {
    KeysDiffer();
    hide CodeKey, MessageKey, RetryableKey, FieldKey, Get;
    var i := Among(fields, CodeKey());
    var j := Among(fields, MessageKey());
    var k := Among(fields, RetryableKey());
    if Get(fields, FieldKey()).Some? {
      var l := Among(fields, FieldKey());
      assert false;
    }
  }

  lemma ErrorTaken(error: Tree, code: ErrorCode, field: Option<Text>)
    requires ValidateError(error) == Ok((code, field))
    ensures error.Object?
    ensures var found := Get(error.fields, FieldKey());
      && ExactKeys(error.fields, [CodeKey(), MessageKey(), RetryableKey()] + if found.Some? then [FieldKey()] else [])
      && found == (if field.Some? then Some(Words(field.value)) else None)
      && (field.Some? ==> IsLabel(field.value, MAX_FIELD_BYTES))
    ensures Get(error.fields, CodeKey()).Some? ==>
      Get(error.fields, CodeKey()).value.Words? && Lookup(Codes(), Get(error.fields, CodeKey()).value.text) == Some(code)
    ensures Get(error.fields, MessageKey()).Some? ==> Get(error.fields, MessageKey()).value == Words(Units(Message(code)))
    ensures Get(error.fields, RetryableKey()).Some? ==> Get(error.fields, RetryableKey()).value == Truth(Retryable(code))
  {
    hide Get, CodeKey, MessageKey, RetryableKey, FieldKey, Units, Name, Message, Retryable, Truth, IsLabel, ExactKeys, Lookup, Codes;
  }

  lemma ErrorSound(error: Tree, code: ErrorCode, field: Option<Text>)
    requires ValidateError(error) == Ok((code, field))
    ensures InError(error, code, field) && (field.Some? ==> IsLabel(field.value, MAX_FIELD_BYTES))
  {
    hide Get, CodeKey, MessageKey, RetryableKey, FieldKey, Units, Name, Message, Retryable, Truth, IsLabel, ExactKeys, Lookup, Codes, ValidateError;
    ErrorTaken(error, code, field);
    KeysThere(error.fields, Get(error.fields, FieldKey()));
    LookupIff(Get(error.fields, CodeKey()).value.text, code);
  }

  lemma ErrorComplete(error: Tree, code: ErrorCode, field: Option<Text>)
    requires InError(error, code, field) && (field.Some? ==> IsLabel(field.value, MAX_FIELD_BYTES))
    ensures ValidateError(error) == Ok((code, field))
  {
    if field == None { NoRoom(error.fields); }
    LookupIff(Units(Name(code)), code);
    hide Get, CodeKey, MessageKey, RetryableKey, FieldKey, Units, Name, Message, Retryable, Truth, IsLabel, ValidateError, Lookup, Codes;
    ValidateErrorFields(error, code, field);
  }

  // ---- the envelope ----

  lemma EnvelopeThere(fields: seq<Field>, name: Text)
    ensures ExactKeys(fields, [AbiKey(), IdKey(), OkKey(), name]) <==>
      |fields| == 4 && Get(fields, AbiKey()).Some? && Get(fields, IdKey()).Some? && Get(fields, OkKey()).Some? && Get(fields, name).Some?
  {
    hide Get, AbiKey, IdKey, OkKey;
    var names := [AbiKey(), IdKey(), OkKey(), name];
    assert names[0] == AbiKey() && names[1] == IdKey() && names[2] == OkKey() && names[3] == name;
    assert forall n | n in names :: n == AbiKey() || n == IdKey() || n == OkKey() || n == name;
  }

  lemma ValidateSound(tree: Tree, expectedId: Text, r: Response)
    requires Validate(tree, expectedId) == Ok(r)
    ensures IsLabel(expectedId, MAX_ID_BYTES) && r.id == expectedId
    ensures match r
      case Success(id, result) => InEnvelope(tree, id, true, ResultKey(), result) && Copy(result, 0).Ok?
      case Failure(id, code, field) =>
        tree.Object? && Get(tree.fields, ErrorKey()).Some? &&
        var error := Get(tree.fields, ErrorKey()).value;
        InEnvelope(tree, id, false, ErrorKey(), error) && ValidateError(error) == Ok((code, field))
  {
    EnvelopeThere(tree.fields, ResultKey());
    EnvelopeThere(tree.fields, ErrorKey());
    hide Get, AbiKey, IdKey, OkKey, ResultKey, ErrorKey, AbiVersion, Truth, IsLabel, Copy, ValidateError, ExactKeys;
    if Get(tree.fields, ResultKey()).Some? { CopyMeans(Get(tree.fields, ResultKey()).value, 0); }
  }

  lemma SuccessComplete(tree: Tree, id: Text, result: Tree)
    requires IsLabel(id, MAX_ID_BYTES) && InEnvelope(tree, id, true, ResultKey(), result) && Copy(result, 0).Ok?
    ensures Validate(tree, id) == Ok(Success(id, result))
  {
    EnvelopeThere(tree.fields, ResultKey());
    CopyMeans(result, 0);
    hide Get, AbiKey, IdKey, OkKey, ResultKey, ErrorKey, AbiVersion, Truth, IsLabel, Copy, ValidateError, ExactKeys;
  }

  lemma FailureComplete(tree: Tree, id: Text, error: Tree, code: ErrorCode, field: Option<Text>)
    requires IsLabel(id, MAX_ID_BYTES) && InEnvelope(tree, id, false, ErrorKey(), error) && ValidateError(error) == Ok((code, field))
    ensures Validate(tree, id) == Ok(Failure(id, code, field))
  {
    EnvelopeThere(tree.fields, ErrorKey());
    TruthTokens(true);
    hide Get, AbiKey, IdKey, OkKey, ResultKey, ErrorKey, AbiVersion, Truth, IsLabel, Copy, ValidateError, ExactKeys;
  }

  // ---- main results ----

  /** A tree is accepted as a response to a request exactly when it stands for that response to that request: no field
      less, none more, the ABI's version, and for a failure the catalog's message and retryability for its code. */
  lemma ValidateIff(tree: Tree, expectedId: Text, r: Response)
    ensures Validate(tree, expectedId) == Ok(r) <==>
      IsLabel(expectedId, MAX_ID_BYTES) && r.id == expectedId && StandsFor(tree, r) && Lawful(r)
  {
    hide Get, AbiKey, IdKey, OkKey, ResultKey, ErrorKey, IsLabel, Copy, Validate, ValidateError, InEnvelope, InError, StandsFor, Lawful,
      TreeHeight, Unreserved;
    StandsForFields(tree, r);
    LawfulMeans(r);
    if Validate(tree, expectedId) == Ok(r) { ValidateSound(tree, expectedId, r); }
    match r
    case Success(id, result) =>
      CopyMeans(result, 0);
      if IsLabel(id, MAX_ID_BYTES) && InEnvelope(tree, id, true, ResultKey(), result) && Copy(result, 0).Ok? {
        SuccessComplete(tree, id, result);
      }
    case Failure(id, code, field) =>
      if tree.Object? && Get(tree.fields, ErrorKey()).Some? {
        var error := Get(tree.fields, ErrorKey()).value;
        if ValidateError(error) == Ok((code, field)) { ErrorSound(error, code, field); }
        if InError(error, code, field) && Lawful(r) { ErrorComplete(error, code, field); }
        if IsLabel(id, MAX_ID_BYTES) && InEnvelope(tree, id, false, ErrorKey(), error) && ValidateError(error) == Ok((code, field)) {
          FailureComplete(tree, id, error, code, field);
        }
      }
  }

  lemma LawfulMeans(r: Response)
    ensures Lawful(r) <==> match r
      case Success(_, result) => 0 + TreeHeight(result) <= MAX_JSON_DEPTH && Unreserved(result)
      case Failure(_, _, field) => field.Some? ==> IsLabel(field.value, MAX_FIELD_BYTES)
  {
  }

  /** A JSON text, with any white space and escapes, is read as a response exactly when it is within the limits, repeats no
      key, and its tree stands for that response to that request. */
  lemma ParseResponseIff(before: Text, v: Json, after: Text, expectedId: Text, r: Response)
    requires AllWs(before) && Good(v) && AllWs(after)
    ensures var json := before + Render(v) + after;
      ParseResponse(json, expectedId) == Ok(r) <==>
        && Utf8Length(json) <= MAX_RESPONSE_BYTES && Unique(v) && Height(v) <= MAX_JSON_DEPTH
        && IsLabel(expectedId, MAX_ID_BYTES) && r.id == expectedId && StandsFor(TreeOf(v), r) && Lawful(r)
  {
    JsonReads.ScannerRefinesTree(before, v, after);
    ValidateIff(TreeOf(v), expectedId, r);
    hide Utf8Length, Parse, CheckUnique, Validate, Render, StandsFor, Lawful, IsLabel, TreeOf, Unique, Height;
  }

  /** A failure can be made exactly from a lawful id and field and what the catalog says of its code, or nothing. */
  lemma CreateFailureIff(id: Text, code: ErrorCode, message: Option<string>, retryable: Option<bool>, field: Option<Text>)
    ensures var r := CreateFailure(id, code, message, retryable, field);
      && (r.Ok? <==> IsLabel(id, MAX_ID_BYTES) && (message == None || message.value == Message(code)) &&
                     (retryable == None || retryable.value == Retryable(code)) && (field == None || IsLabel(field.value, MAX_FIELD_BYTES)))
      && (r.Ok? ==> r.value == Failure(id, code, field))
  {
    hide Message, Retryable, IsLabel;
  }

  /** A success can be made exactly from a lawful id and a result that copyAbiValue takes; it holds that result. */
  lemma CreateSuccessIff(id: Text, result: Tree)
    ensures var r := CreateSuccess(id, result);
      && (r.Ok? <==> IsLabel(id, MAX_ID_BYTES) && TreeHeight(result) <= MAX_JSON_DEPTH && Unreserved(result))
      && (r.Ok? ==> r.value == Success(id, result))
  {
    CopyMeans(result, 0);
    hide Copy, TreeHeight, Unreserved, IsLabel;
  }

  // ---- lengths and labels ----

  /** A character's UTF-16 code units. */
  function CodeUnits(c: char): Text {
    var n := c as int;
    if n < 0x10000 then [n] else [0xD800 + (n - 0x10000) / 0x400, 0xDC00 + (n - 0x10000) % 0x400]
  }

  function AllUnits(s: string): Text { if s == "" then [] else CodeUnits(s[0]) + AllUnits(s[1..]) }

  /** The byte length that limits a text is that of its UTF-8 encoding; a lone surrogate counts as its replacement. */
  lemma {:induction false} Utf8LengthIs(s: string)
    ensures Utf8Length(AllUnits(s)) == |Utf8.Encode(s)|
    decreases |s|
  {
    if s != "" {
      Utf8LengthIs(s[1..]);
      FirstLength(s[0], AllUnits(s[1..]));
    }
  }

  lemma FirstLength(c: char, rest: Text)
    ensures Utf8Length(CodeUnits(c) + rest) == |Utf8.EncodeChar(c)| + Utf8Length(rest)
  {
    var t := CodeUnits(c) + rest;
    if c as int < 0x10000 { assert t[1..] == rest; } else { assert t[2..] == rest; }
  }

  lemma LoneSurrogate(u: unit, rest: Text)
    requires 0xD800 <= u < 0xE000 && (u < 0xDC00 ==> rest == [] || !(0xDC00 <= rest[0] < 0xE000))
    ensures Utf8Length([u] + rest) == 3 + Utf8Length(rest)
  {
    assert ([u] + rest)[1..] == rest;
  }

  /** Printable ASCII is a label when it is not empty and no longer than the limit; a control character never is. */
  lemma LabelIff(t: Text, maxBytes: nat)
    ensures (forall u | u in t :: 32 <= u < 127) ==> (IsLabel(t, maxBytes) <==> 1 <= |t| <= maxBytes)
    ensures (exists u :: u in t && (u < 32 || 127 <= u < 160)) ==> !IsLabel(t, maxBytes)
  {
    if forall u | u in t :: 32 <= u < 127 { AsciiLength(t); }
  }

  lemma {:induction false} AsciiLength(t: Text)
    requires forall u | u in t :: u < 128
    ensures Utf8Length(t) == |t|
    decreases |t|
  {
    if t != [] {
      assert t[0] in t && forall u | u in t[1..] :: u in t;
      AsciiLength(t[1..]);
    }
  }

  /** The truth values are written by their names. */
  lemma TruthWrites()
    ensures Stringify(Truth(true)) == Units("true") && Stringify(Truth(false)) == Units("false")
  {
  }
}

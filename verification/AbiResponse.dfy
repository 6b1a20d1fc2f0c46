/** ABI v1 responses, wasm/codec.ts: made, written as JSON, read back and validated. */
module AbiResponses {
  import opened Common
  import opened ErrorCatalog
  import opened JsonText
  import opened JsonScan
  import opened JsonPrint
  import JsonReads

  const MAX_RESPONSE_BYTES := 0x100000
  const MAX_ID_BYTES := 128
  const MAX_FIELD_BYTES := 512

  datatype CodecError =
    | BadIdentifier | DataTooDeep | ReservedKey | NotCatalog | BadField        // making
    | OverLimit | NotJson | NotUnique(why: ScanError)                          // reading
    | NotRecord | WrongKeys | WrongAbi | WrongId | WrongOk | BadError          // validating

  /** `field` is the request field an error blames, if any. */
  datatype Response = Success(id: Text, result: Tree) | Failure(id: Text, code: ErrorCode, field: Option<Text>)

  function Units(s: string): (t: Text)
    ensures |t| == |s|
  {
    seq(|s|, i requires 0 <= i < |s| => if s[i] as int < 0x10000 then s[i] as int else 0xFFFD)
  }

  // ---- the fixed keys and texts ----

  function AbiKey(): Text { Units("abi") }
  function IdKey(): Text { Units("id") }
  function OkKey(): Text { Units("ok") }
  function ResultKey(): Text { Units("result") }
  function ErrorKey(): Text { Units("error") }
  function CodeKey(): Text { Units("code") }
  function MessageKey(): Text { Units("message") }
  function RetryableKey(): Text { Units("retryable") }
  function FieldKey(): Text { Units("field") }
  function AbiVersion(): Text { Units("goforge.abi.v1") }

  // ---- identifiers ----

  /** The bytes TextEncoder makes of a text: three for a lone surrogate, which becomes U+FFFD. */
  function Utf8Length(t: Text): (n: nat)
    ensures |t| <= n <= 3 * |t|
  {
    if t == [] then 0
    else if |t| >= 2 && IsHigh(t[0]) && IsLow(t[1]) then 4 + Utf8Length(t[2..])
    else (if t[0] < 0x80 then 1 else if t[0] < 0x800 then 2 else 3) + Utf8Length(t[1..])
  }

  predicate IsControl(u: unit) { u < 32 || 127 <= u < 160 }

  /** assertIdentifier and assertErrorField. */
  predicate IsLabel(t: Text, maxBytes: nat) { t != [] && Utf8Length(t) <= maxBytes && forall u | u in t :: !IsControl(u) }

  // ---- copyAbiValue ----

  predicate IsReserved(key: Text) { key == Units("__proto__") || key == Units("constructor") || key == Units("prototype") }

  function Copy(t: Tree, depth: nat): Result<Tree, CodecError>
    decreases t
  {
    if depth > MAX_JSON_DEPTH then Err(DataTooDeep) else
    match t
    case Array(elements) => (match CopyElements(elements, depth + 1) case Err(e) => Err(e) case Ok(es) => Ok(Array(es)))
    case Object(fields) => (match CopyFields(fields, depth + 1) case Err(e) => Err(e) case Ok(fs) => Ok(Object(fs)))
    case _ => Ok(t)
  }

  function CopyElements(elements: seq<Tree>, depth: nat): Result<seq<Tree>, CodecError>
    decreases elements
  {
    if elements == [] then Ok([]) else
    match Copy(elements[0], depth) case Err(e) => Err(e) case Ok(first) =>
    match CopyElements(elements[1..], depth) case Err(e) => Err(e) case Ok(rest) => Ok([first] + rest)
  }

  function CopyFields(fields: seq<Field>, depth: nat): Result<seq<Field>, CodecError>
    decreases fields
  {
    if fields == [] then Ok([])
    else if IsReserved(fields[0].key) then Err(ReservedKey) else
    assert fields[0].value < fields[0];
    match Copy(fields[0].value, depth) case Err(e) => Err(e) case Ok(first) =>
    match CopyFields(fields[1..], depth) case Err(e) => Err(e) case Ok(rest) => Ok([Field(fields[0].key, first)] + rest)
  }

  predicate Unreserved(t: Tree) {
    match t
    case Array(elements) => forall e | e in elements :: Unreserved(e)
    case Object(fields) => forall f | f in fields :: !IsReserved(f.key) && Unreserved(f.value)
    case _ => true
  }

  /** copyAbiValue accepts exactly what lies under at most 32 containers and has no reserved key, and copies it. */
  lemma {:induction false} CopyMeans(t: Tree, depth: nat)
    ensures Copy(t, depth).Ok? <==> depth + TreeHeight(t) <= MAX_JSON_DEPTH && Unreserved(t)
    ensures Copy(t, depth).Ok? ==> Copy(t, depth).value == t
    decreases t
  {
    if depth <= MAX_JSON_DEPTH {
      match t
      case Array(elements) => CopyElementsMeans(elements, depth);
      case Object(fields) => CopyFieldsMeans(fields, depth);
      case _ =>
    }
  }

  lemma {:induction false} CopyElementsMeans(elements: seq<Tree>, depth: nat)
    requires depth <= MAX_JSON_DEPTH
    ensures var r := CopyElements(elements, depth + 1);
      && (r.Ok? <==> depth + ElementsHeight(elements) <= MAX_JSON_DEPTH && forall e | e in elements :: Unreserved(e))
      && (r.Ok? ==> r.value == elements)
    decreases elements
  {
    if elements != [] {
      CopyMeans(elements[0], depth + 1);
      CopyElementsMeans(elements[1..], depth);
      hide Copy, TreeHeight, Unreserved;
      assert elements == [elements[0]] + elements[1..];
    }
  }

  lemma FirstUnreserved(fields: seq<Field>)
    requires fields != []
    ensures (forall f | f in fields :: !IsReserved(f.key) && Unreserved(f.value)) <==>
      !IsReserved(fields[0].key) && Unreserved(fields[0].value) &&
      forall f | f in fields[1..] :: !IsReserved(f.key) && Unreserved(f.value)
  {
    hide IsReserved, Unreserved;
    assert forall f | f in fields :: f == fields[0] || f in fields[1..];
  }

  lemma FirstCopied(fields: seq<Field>, depth: nat)
    requires fields != []
    ensures var first, rest, all := Copy(fields[0].value, depth), CopyFields(fields[1..], depth), CopyFields(fields, depth);
      && (all.Ok? <==> !IsReserved(fields[0].key) && first.Ok? && rest.Ok?)
      && (all.Ok? && first.value == fields[0].value && rest.value == fields[1..] ==> all.value == fields)
    ensures FieldsHeight(fields) == Max(1 + TreeHeight(fields[0].value), FieldsHeight(fields[1..]))
  {
    hide Copy, TreeHeight, IsReserved;
    assert fields == [fields[0]] + fields[1..] && Field(fields[0].key, fields[0].value) == fields[0];
  }

  lemma {:induction false} CopyFieldsMeans(fields: seq<Field>, depth: nat)
    requires depth <= MAX_JSON_DEPTH
    ensures var r := CopyFields(fields, depth + 1);
      && (r.Ok? <==> depth + FieldsHeight(fields) <= MAX_JSON_DEPTH && forall f | f in fields :: !IsReserved(f.key) && Unreserved(f.value))
      && (r.Ok? ==> r.value == fields)
    decreases fields
  {
    if fields != [] {
      hide *;
      assert fields[0].value < fields[0];
      CopyMeans(fields[0].value, depth + 1);
      CopyFieldsMeans(fields[1..], depth);
      FirstUnreserved(fields);
      FirstCopied(fields, depth + 1);
    }
  }

  // ---- making ----

  function CreateSuccess(id: Text, result: Tree): Result<Response, CodecError> {
    if !IsLabel(id, MAX_ID_BYTES) then Err(BadIdentifier) else
    match Copy(result, 0) case Err(e) => Err(e) case Ok(copy) => Ok(Success(id, copy))
  }

  function CreateFailure(id: Text, code: ErrorCode, message: Option<string>, retryable: Option<bool>, field: Option<Text>)
    : Result<Response, CodecError>
  {
    if !IsLabel(id, MAX_ID_BYTES) then Err(BadIdentifier)
    else if message.Some? && message.value != Message(code) then Err(NotCatalog)
    else if retryable.Some? && retryable.value != Retryable(code) then Err(NotCatalog)
    else if field.Some? && !IsLabel(field.value, MAX_FIELD_BYTES) then Err(BadField)
    else Ok(Failure(id, code, field))
  }

  // ---- writing ----

  function Truth(b: bool): Tree { Atom(if b then TRUE else FALSE) }

  function Envelope(id: Text, ok: bool, name: Text, content: Tree): Tree {
    Object([Field(AbiKey(), Words(AbiVersion())), Field(IdKey(), Words(id)), Field(OkKey(), Truth(ok)),
            Field(name, content)])
  }

  function ErrorTree(code: ErrorCode, field: Option<Text>): Tree {
    Object([Field(CodeKey(), Words(Units(Name(code)))), Field(MessageKey(), Words(Units(Message(code)))),
            Field(RetryableKey(), Truth(Retryable(code)))] +
           if field.Some? then [Field(FieldKey(), Words(field.value))] else [])
  }

  function ToTree(r: Response): Tree {
    match r
    case Success(id, result) => Envelope(id, true, ResultKey(), result)
    case Failure(id, code, field) => Envelope(id, false, ErrorKey(), ErrorTree(code, field))
  }

  function Serialize(r: Response): Text { Stringify(ToTree(r)) }

  // ---- reading and validating ----

  function Get(fields: seq<Field>, key: Text): Option<Tree> {
    if fields == [] then None else if fields[0].key == key then Some(fields[0].value) else Get(fields[1..], key)
  }

  /** For an object, whose keys are distinct. */
  predicate ExactKeys(fields: seq<Field>, names: seq<Text>) {
    |fields| == |names| && forall n | n in names :: Get(fields, n).Some?
  }

  function Codes(): seq<ErrorCode> {
    [InvalidJson, UnknownField, DuplicateField, RequestTooLarge, ResponseTooLarge, InvalidAbi, InvalidRequest, UnknownOperation,
     CapabilityUnavailable, ExecutionStateRequired, DeadlineExceeded, CancellationRequested, InvalidBase64, InvalidUtf8,
     InputTooLarge, InvalidKey, InvalidNonce, AuthenticationFailed, Internal]
  }

  function Lookup(codes: seq<ErrorCode>, name: Text): Option<ErrorCode> {
    if codes == [] then None else if Units(Name(codes[0])) == name then Some(codes[0]) else Lookup(codes[1..], name)
  }

  /** The error object of a failure: its code, and the field it blames. */
  function ValidateError(error: Tree): Result<(ErrorCode, Option<Text>), CodecError> {
    if !error.Object? then Err(NotRecord) else
    var field := Get(error.fields, FieldKey());
    var names := [CodeKey(), MessageKey(), RetryableKey()] + if field.Some? then [FieldKey()] else [];
    if !ExactKeys(error.fields, names) then Err(WrongKeys) else
    var code := Get(error.fields, CodeKey()).value;
    if !code.Words? || Lookup(Codes(), code.text) == None then Err(BadError) else
    var c := Lookup(Codes(), code.text).value;
    if Get(error.fields, MessageKey()).value != Words(Units(Message(c))) then Err(BadError)
    else if Get(error.fields, RetryableKey()).value != Truth(Retryable(c)) then Err(BadError)
    else if field == None then Ok((c, None))
    else if !field.value.Words? || !IsLabel(field.value.text, MAX_FIELD_BYTES) then Err(BadField)
    else Ok((c, Some(field.value.text)))
  }

  function Validate(tree: Tree, expectedId: Text): Result<Response, CodecError> {
    if !IsLabel(expectedId, MAX_ID_BYTES) then Err(BadIdentifier)
    else if !tree.Object? then Err(NotRecord) else
    var succeeded := Get(tree.fields, OkKey()) == Some(Truth(true));
    var last := if succeeded then ResultKey() else ErrorKey();
    if !ExactKeys(tree.fields, [AbiKey(), IdKey(), OkKey(), last]) then Err(WrongKeys)
    else if Get(tree.fields, AbiKey()).value != Words(AbiVersion()) then Err(WrongAbi)
    else if Get(tree.fields, IdKey()).value != Words(expectedId) then Err(WrongId)
    else if succeeded then
      match Copy(Get(tree.fields, last).value, 0) case Err(e) => Err(e) case Ok(result) => Ok(Success(expectedId, result))
    else if Get(tree.fields, OkKey()).value != Truth(false) then Err(WrongOk)
    else match ValidateError(Get(tree.fields, last).value) case Err(e) => Err(e) case Ok((c, f)) => Ok(Failure(expectedId, c, f))
  }

  function ParseResponse(json: Text, expectedId: Text): Result<Response, CodecError> {
    if Utf8Length(json) > MAX_RESPONSE_BYTES then Err(OverLimit) else
    match Parse(json)
    case None => Err(NotJson)
    case Some(tree) => if CheckUnique(json).Some? then Err(NotUnique(CheckUnique(json).value)) else Validate(tree, expectedId)
  }

  // ---- names ----

  lemma UnitsApart(s: string, t: string)
    requires |s| != |t| || exists i :: 0 <= i < |s| && s[i] as int < 0x10000 && t[i] as int < 0x10000 && s[i] != t[i]
    ensures Units(s) != Units(t)
  {
    if |s| == |t| {
      var i :| 0 <= i < |s| && s[i] as int < 0x10000 && t[i] as int < 0x10000 && s[i] != t[i];
      assert Units(s)[i] != Units(t)[i];
    }
  }

  /** The keys of an envelope and of an error object are different from each other. */
  lemma KeysDiffer()
    ensures |AbiKey()| == 3 && |IdKey()| == 2 && |OkKey()| == 2 && |ResultKey()| == 6 && |ErrorKey()| == 5 && IdKey() != OkKey()
    ensures |CodeKey()| == 4 && |MessageKey()| == 7 && |RetryableKey()| == 9 && |FieldKey()| == 5 && |AbiVersion()| == 14
  {
    assert "id"[0] != "ok"[0];
    UnitsApart("id", "ok");
  }

  /** Enough of a name to tell it from the other eighteen. */
  function Mark(t: Text): (nat, unit, unit, unit) { if |t| > 8 then (|t|, t[0], t[2], t[8]) else (|t|, 0, 0, 0) }

  lemma NameInjective(c: ErrorCode, d: ErrorCode)
    requires Units(Name(c)) == Units(Name(d))
    ensures c == d
  {
    hide *;
    MarkApart(c, d);
  }

  function MarkOf(c: ErrorCode): (nat, unit, unit, unit) {
    match c
    case InvalidJson => (12, 105, 118, 106)
    case UnknownField => (13, 117, 107, 102)
    case DuplicateField => (15, 100, 112, 101)
    case RequestTooLarge => (17, 114, 113, 116)
    case ResponseTooLarge => (18, 114, 115, 95)
    case InvalidAbi => (11, 105, 118, 97)
    case InvalidRequest => (15, 105, 118, 114)
    case UnknownOperation => (17, 117, 107, 111)
    case CapabilityUnavailable => (22, 99, 112, 116)
    case ExecutionStateRequired => (24, 101, 101, 110)
    case DeadlineExceeded => (17, 100, 97, 95)
    case CancellationRequested => (22, 99, 110, 116)
    case InvalidBase64 => (14, 105, 118, 98)
    case InvalidUtf8 => (12, 105, 118, 117)
    case InputTooLarge => (15, 105, 112, 111)
    case InvalidKey => (11, 105, 118, 107)
    case InvalidNonce => (13, 105, 118, 110)
    case AuthenticationFailed => (21, 97, 116, 99)
    case Internal => (8, 0, 0, 0)
  }

  lemma MarkIs(c: ErrorCode)
    ensures Mark(Units(Name(c))) == MarkOf(c)
  {
  }

  lemma MarkApart(c: ErrorCode, d: ErrorCode)
    requires Mark(Units(Name(c))) == Mark(Units(Name(d)))
    ensures c == d
  {
    hide Mark, Units, Name;
    MarkIs(c);
    MarkIs(d);
  }

  lemma {:induction false} LookupFinds(codes: seq<ErrorCode>, c: ErrorCode)
    requires c in codes
    ensures Lookup(codes, Units(Name(c))) == Some(c)
    decreases |codes|
  {
    hide Name, Units;
    if Units(Name(codes[0])) == Units(Name(c)) { NameInjective(codes[0], c); } else { LookupFinds(codes[1..], c); }
  }

  lemma AllCodes(c: ErrorCode)
    ensures c in Codes()
  {
    var all := Codes();
    assert all[0] == InvalidJson && all[1] == UnknownField && all[2] == DuplicateField && all[3] == RequestTooLarge;
    assert all[4] == ResponseTooLarge && all[5] == InvalidAbi && all[6] == InvalidRequest && all[7] == UnknownOperation;
    assert all[8] == CapabilityUnavailable && all[9] == ExecutionStateRequired && all[10] == DeadlineExceeded;
    assert all[11] == CancellationRequested && all[12] == InvalidBase64 && all[13] == InvalidUtf8;
    assert all[14] == InputTooLarge && all[15] == InvalidKey && all[16] == InvalidNonce;
    assert all[17] == AuthenticationFailed && all[18] == Internal;
  }

  /** What four fields with different keys hold. */
  lemma FourFields(a: Field, b: Field, c: Field, d: Field)
    requires a.key != b.key && a.key != c.key && a.key != d.key && b.key != c.key && b.key != d.key && c.key != d.key
    ensures var fields := [a, b, c, d];
      && Get(fields, a.key) == Some(a.value) && Get(fields, b.key) == Some(b.value)
      && Get(fields, c.key) == Some(c.value) && Get(fields, d.key) == Some(d.value)
      && Distinct(fields) && FieldsHeight(fields) == 1 + Max(Max(TreeHeight(a.value), TreeHeight(b.value)),
                                                             Max(TreeHeight(c.value), TreeHeight(d.value)))
  {
    hide TreeHeight;
    ThreeFields(b, c, d);
    assert [a, b, c, d][1..] == [b, c, d];
  }

  lemma GetLater(first: Field, rest: seq<Field>, key: Text)
    requires first.key != key
    ensures Get([first] + rest, key) == Get(rest, key)
  {
    assert ([first] + rest)[1..] == rest;
  }

  lemma ThreeFields(b: Field, c: Field, d: Field)
    requires b.key != c.key && b.key != d.key && c.key != d.key
    ensures var fields := [b, c, d];
      && Get(fields, b.key) == Some(b.value) && Get(fields, c.key) == Some(c.value) && Get(fields, d.key) == Some(d.value)
      && KeysOf(fields) == [b.key, c.key, d.key] && Distinct(fields)
      && FieldsHeight(fields) == 1 + Max(Max(TreeHeight(b.value), TreeHeight(c.value)), TreeHeight(d.value))
    ensures forall k | k != b.key && k != c.key && k != d.key :: Get([b, c, d], k) == None
  {
    hide TreeHeight;
    assert [b, c, d][1..] == [c, d] && [c, d][1..] == [d] && [d][1..] == [];
    assert KeysOf([d]) == [d.key] && KeysOf([c, d]) == [c.key] + KeysOf([d]);
    assert Distinct([d]) by { assert Distinct([]); }
    assert c.key !in KeysOf([d]);
    assert Distinct([c, d]);
    assert Get([d], d.key) == Some(d.value) && Get([c, d], c.key) == Some(c.value);
    GetLater(c, [d], d.key);
    GetLater(b, [c, d], d.key);
    GetLater(b, [c, d], c.key);
    assert [d] + [] == [d] && [c] + [d] == [c, d] && [b] + [c, d] == [b, c, d];
    assert FieldsHeight([d]) == 1 + TreeHeight(d.value);
    assert FieldsHeight([c, d]) == 1 + Max(TreeHeight(c.value), TreeHeight(d.value));
    forall k | k != b.key && k != c.key && k != d.key ensures Get([b, c, d], k) == None {
      GetLater(d, [], k);
      GetLater(c, [d], k);
      GetLater(b, [c, d], k);
    }
  }

  lemma TruthTokens(b: bool)
    ensures Proper(Truth(b)) && TreeHeight(Truth(b)) == 0 && Truth(true) != Truth(false)
  {
    assert TRUE[0] != FALSE[0];
  }

  /** An envelope is a proper tree one container above its content, and its fields are what was put there. */
  lemma EnvelopeHolds(id: Text, ok: bool, name: Text, content: Tree)
    requires Proper(content) && |name| > 3
    ensures var t := Envelope(id, ok, name, content);
      && Proper(t) && TreeHeight(t) == 1 + TreeHeight(content)
      && |t.fields| == 4 && Get(t.fields, AbiKey()) == Some(Words(AbiVersion()))
      && Get(t.fields, IdKey()) == Some(Words(id)) && Get(t.fields, OkKey()) == Some(Truth(ok))
      && Get(t.fields, name) == Some(content)
  {
    KeysDiffer();
    TruthTokens(ok);
    hide AbiKey, IdKey, OkKey, ResultKey, ErrorKey, CodeKey, MessageKey, RetryableKey, FieldKey, AbiVersion, Truth, Get;
    var a, b := Field(AbiKey(), Words(AbiVersion())), Field(IdKey(), Words(id));
    var c, d := Field(OkKey(), Truth(ok)), Field(name, content);
    FourFields(a, b, c, d);
    assert forall f | f in [a, b, c, d] :: f == a || f == b || f == c || f == d;
  }

  /** Validation undoes the envelope. */
  lemma ValidateEnvelope(id: Text, expectedId: Text, ok: bool, content: Tree)
    requires Proper(content) && IsLabel(expectedId, MAX_ID_BYTES)
    ensures var r := Validate(Envelope(id, ok, if ok then ResultKey() else ErrorKey(), content), expectedId);
      r == if id != expectedId then Err(WrongId)
           else if ok then (match Copy(content, 0) case Err(e) => Err(e) case Ok(copy) => Ok(Success(id, copy)))
           else match ValidateError(content) case Err(e) => Err(e) case Ok((c, f)) => Ok(Failure(id, c, f))
  {
    var name := if ok then ResultKey() else ErrorKey();
    EnvelopeHolds(id, ok, name, content);
    TruthTokens(true);
    KeysDiffer();
    hide AbiKey, IdKey, OkKey, ResultKey, ErrorKey, CodeKey, MessageKey, RetryableKey, FieldKey, AbiVersion, Truth, Get, IsLabel, Copy, ValidateError, Proper, TreeHeight, Envelope;
    var t := Envelope(id, ok, name, content);
    assert (Get(t.fields, OkKey()) == Some(Truth(true))) == ok;
    assert ExactKeys(t.fields, [AbiKey(), IdKey(), OkKey(), name]);
  }

  ghost predicate ErrorHeld(t: Tree, code: ErrorCode, field: Option<Text>) {
    && Proper(t) && TreeHeight(t) == 1 && t.Object? && |t.fields| == (if field.Some? then 4 else 3)
    && Get(t.fields, CodeKey()) == Some(Words(Units(Name(code))))
    && Get(t.fields, MessageKey()) == Some(Words(Units(Message(code))))
    && Get(t.fields, RetryableKey()) == Some(Truth(Retryable(code)))
    && Get(t.fields, FieldKey()) == if field.Some? then Some(Words(field.value)) else None
  }

  lemma ThreeHeld(a: Field, b: Field, c: Field)
    requires a.key != b.key && a.key != c.key && b.key != c.key
    requires Proper(a.value) && Proper(b.value) && Proper(c.value)
    requires TreeHeight(a.value) == 0 && TreeHeight(b.value) == 0 && TreeHeight(c.value) == 0
    ensures Proper(Object([a, b, c])) && TreeHeight(Object([a, b, c])) == 1
  {
    ThreeFields(a, b, c);
    hide Get, KeysOf, Distinct;
    assert forall f | f in [a, b, c] :: f == a || f == b || f == c;
  }

  lemma FourHeld(a: Field, b: Field, c: Field, d: Field)
    requires a.key != b.key && a.key != c.key && a.key != d.key && b.key != c.key && b.key != d.key && c.key != d.key
    requires Proper(a.value) && Proper(b.value) && Proper(c.value) && Proper(d.value)
    requires TreeHeight(a.value) == 0 && TreeHeight(b.value) == 0 && TreeHeight(c.value) == 0 && TreeHeight(d.value) == 0
    ensures Proper(Object([a, b, c, d])) && TreeHeight(Object([a, b, c, d])) == 1
  {
    FourFields(a, b, c, d);
    hide Get, KeysOf, Distinct;
    assert forall f | f in [a, b, c, d] :: f == a || f == b || f == c || f == d;
  }

  lemma WordsHeld(t: Text)
    ensures Proper(Words(t)) && TreeHeight(Words(t)) == 0
  {
  }

  lemma PlainErrorHeld(code: ErrorCode, field: Option<Text>)
    requires field == None
    ensures ErrorHeld(ErrorTree(code, field), code, field)
  {
    KeysDiffer();
    TruthTokens(Retryable(code));
    hide CodeKey, MessageKey, RetryableKey, FieldKey, Units, Truth, Name, Message, Retryable, Get, Proper, TreeHeight, Distinct, KeysOf;
    var a, b := Field(CodeKey(), Words(Units(Name(code)))), Field(MessageKey(), Words(Units(Message(code))));
    var c := Field(RetryableKey(), Truth(Retryable(code)));
    WordsHeld(Units(Name(code)));
    WordsHeld(Units(Message(code)));
    ThreeFields(a, b, c);
    ThreeHeld(a, b, c);
    assert ErrorTree(code, field) == Object([a, b, c]);
  }

  lemma BlamingErrorHeld(code: ErrorCode, field: Text)
    ensures ErrorHeld(ErrorTree(code, Some(field)), code, Some(field))
  {
    KeysDiffer();
    TruthTokens(Retryable(code));
    hide CodeKey, MessageKey, RetryableKey, FieldKey, Units, Truth, Name, Message, Retryable, Get, Proper, TreeHeight, Distinct, KeysOf;
    var a, b := Field(CodeKey(), Words(Units(Name(code)))), Field(MessageKey(), Words(Units(Message(code))));
    var c, d := Field(RetryableKey(), Truth(Retryable(code))), Field(FieldKey(), Words(field));
    WordsHeld(Units(Name(code)));
    WordsHeld(Units(Message(code)));
    WordsHeld(field);
    FourFields(a, b, c, d);
    FourHeld(a, b, c, d);
    assert ErrorTree(code, Some(field)) == Object([a, b, c, d]);
  }

  /** An error object is a proper tree, and its fields are what was put there. */
  lemma ErrorHolds(code: ErrorCode, field: Option<Text>)
    ensures var t := ErrorTree(code, field);
      && Proper(t) && TreeHeight(t) == 1 && t.Object? && |t.fields| == (if field.Some? then 4 else 3)
      && Get(t.fields, CodeKey()) == Some(Words(Units(Name(code))))
      && Get(t.fields, MessageKey()) == Some(Words(Units(Message(code))))
      && Get(t.fields, RetryableKey()) == Some(Truth(Retryable(code)))
      && Get(t.fields, FieldKey()) == if field.Some? then Some(Words(field.value)) else None
  {
    if field.Some? { BlamingErrorHeld(code, field.value); } else { PlainErrorHeld(code, field); }
    hide ErrorTree, CodeKey, MessageKey, RetryableKey, FieldKey, Units, Truth, Name, Message, Retryable, Get, Proper, TreeHeight;
  }

  /** Validation undoes the error object. */
  lemma ValidateErrorTree(code: ErrorCode, field: Option<Text>)
    requires field.Some? ==> IsLabel(field.value, MAX_FIELD_BYTES)
    ensures ValidateError(ErrorTree(code, field)) == Ok((code, field))
  {
    hide *;
    ErrorHolds(code, field);
    AllCodes(code);
    LookupFinds(Codes(), code);
    ValidateErrorFields(ErrorTree(code, field), code, field);
  }

  lemma ValidateErrorFields(t: Tree, code: ErrorCode, field: Option<Text>)
    requires field.Some? ==> IsLabel(field.value, MAX_FIELD_BYTES)
    requires t.Object? && |t.fields| == (if field.Some? then 4 else 3)
    requires Get(t.fields, CodeKey()) == Some(Words(Units(Name(code)))) && Lookup(Codes(), Units(Name(code))) == Some(code)
    requires Get(t.fields, MessageKey()) == Some(Words(Units(Message(code))))
    requires Get(t.fields, RetryableKey()) == Some(Truth(Retryable(code)))
    requires Get(t.fields, FieldKey()) == if field.Some? then Some(Words(field.value)) else None
    ensures ValidateError(t) == Ok((code, field))
  {
    hide CodeKey, MessageKey, RetryableKey, FieldKey, Codes, Units, Truth, Name, Message, Retryable, Lookup, IsLabel, Get;
    var names := [CodeKey(), MessageKey(), RetryableKey()] + if field.Some? then [FieldKey()] else [];
    assert ExactKeys(t.fields, names);
  }

  // ---- main results ----

  /** Reading what was written, for every made response and every expected id. */
  lemma ParseSerialized(r: Response, expectedId: Text)
    requires IsLabel(expectedId, MAX_ID_BYTES) && Proper(ToTree(r))
    ensures var read := ParseResponse(Serialize(r), expectedId);
      if Utf8Length(Serialize(r)) > MAX_RESPONSE_BYTES || TreeHeight(ToTree(r)) > MAX_JSON_DEPTH then read.Err?
      else read == Validate(ToTree(r), expectedId)
  {
    StringifyParses(ToTree(r));
    hide Stringify, Validate, ToTree, Utf8Length, Parse, CheckUnique, TreeHeight;
  }

  /** A success comes back as it was made exactly when its result lies under at most 31 containers, one fewer than
      making it allows, and its text is within the limit. */
  lemma SuccessRoundTrip(id: Text, result: Tree)
    requires Proper(result) && CreateSuccess(id, result).Ok?
    ensures var r := CreateSuccess(id, result).value;
      && r == Success(id, result)
      && (ParseResponse(Serialize(r), id) == Ok(r) <==>
          TreeHeight(result) <= MAX_JSON_DEPTH - 1 && Utf8Length(Serialize(r)) <= MAX_RESPONSE_BYTES)
  {
    CopyMeans(result, 0);
    EnvelopeHolds(id, true, ResultKey(), result);
    ValidateEnvelope(id, id, true, result);
    assert ToTree(Success(id, result)) == Envelope(id, true, ResultKey(), result);
    hide Copy, Envelope, ParseResponse, Serialize, Utf8Length, Validate, Proper, IsLabel, TreeHeight, ToTree;
    ParseSerialized(Success(id, result), id);
  }

  /** Every failure that can be made comes back as it was made. */
  lemma FailureRoundTrip(id: Text, code: ErrorCode, message: Option<string>, retryable: Option<bool>, field: Option<Text>)
    requires CreateFailure(id, code, message, retryable, field).Ok?
    ensures var r := CreateFailure(id, code, message, retryable, field).value;
      r == Failure(id, code, field) && ParseResponse(Serialize(r), id) == Ok(r)
  {
    var r, content := Failure(id, code, field), ErrorTree(code, field);
    ErrorHolds(code, field);
    ValidateErrorTree(code, field);
    EnvelopeHolds(id, false, ErrorKey(), content);
    ValidateEnvelope(id, id, false, content);
    FailureSize(id, code, field);
    assert ToTree(r) == Envelope(id, false, ErrorKey(), content);
    hide Envelope, ParseResponse, Serialize, Utf8Length, Validate, Proper, IsLabel, TreeHeight, ToTree, ValidateError, ErrorTree;
    ParseSerialized(r, id);
  }

  /** A response for another request is never accepted. */
  lemma OtherIdRefused(id: Text, result: Tree, expectedId: Text)
    requires Proper(result) && CreateSuccess(id, result).Ok? && id != expectedId
    ensures ParseResponse(Serialize(Success(id, result)), expectedId).Err?
  {
    if IsLabel(expectedId, MAX_ID_BYTES) {
      EnvelopeHolds(id, true, ResultKey(), result);
      ValidateEnvelope(id, expectedId, true, result);
      assert ToTree(Success(id, result)) == Envelope(id, true, ResultKey(), result);
      hide Copy, Envelope, ParseResponse, Serialize, Utf8Length, Validate, Proper, IsLabel, TreeHeight, ToTree;
      ParseSerialized(Success(id, result), expectedId);
    }
  }

  // ---- a failure is never over the limit ----

  /** How long the members of an object can get. */
  function FieldsSize(fields: seq<Field>): nat {
    if fields == [] then 0 else 6 * |fields[0].key| + |Stringify(fields[0].value)| + 4 + FieldsSize(fields[1..])
  }

  lemma {:induction false} MembersSize(fields: seq<Field>)
    requires fields != []
    ensures |RenderMembers(PrintMembers(fields))| <= FieldsSize(fields)
    decreases |fields|
  {
    QuoteBack(fields[0].key);
    hide Print, Quote, PiecesText, GoodPieces, PiecesValue;
    if |fields| > 1 { MembersSize(fields[1..]); }
  }

  lemma ObjectSize(fields: seq<Field>)
    requires fields != []
    ensures |Stringify(Object(fields))| <= 1 + FieldsSize(fields)
  {
    MembersSize(fields);
    hide RenderMembers, FieldsSize, Quote;
  }

  lemma WordsSize(t: Text)
    ensures |Stringify(Words(t))| <= 6 * |t| + 2
  {
    QuoteBack(t);
    hide Quote, PiecesText, PiecesValue, GoodPieces;
  }

  lemma NameSize(code: ErrorCode)
    ensures |Name(code)| <= 64
  {
  }

  lemma InputMessageSize(code: ErrorCode)
    requires code.InvalidJson? || code.UnknownField? || code.DuplicateField? || code.RequestTooLarge? || code.ResponseTooLarge?
      || code.InvalidAbi? || code.InvalidRequest? || code.UnknownOperation? || code.CapabilityUnavailable?
    ensures |Message(code)| <= 64
  {
  }

  lemma MessageSize(code: ErrorCode)
    ensures |Message(code)| <= 64
  {
    if code.InvalidJson? || code.UnknownField? || code.DuplicateField? || code.RequestTooLarge? || code.ResponseTooLarge?
      || code.InvalidAbi? || code.InvalidRequest? || code.UnknownOperation? || code.CapabilityUnavailable? {
      hide Message;
      InputMessageSize(code);
    }
  }

  lemma CatalogSize(code: ErrorCode)
    ensures |Stringify(Words(Units(Name(code))))| <= 386 && |Stringify(Words(Units(Message(code))))| <= 386
  {
    hide Name, Message, Stringify;
    NameSize(code);
    MessageSize(code);
    WordsSize(Units(Name(code)));
    WordsSize(Units(Message(code)));
  }

  lemma PlainErrorSize(code: ErrorCode, field: Option<Text>)
    requires field == None
    ensures |Stringify(ErrorTree(code, field))| <= 1000
  {
    CatalogSize(code);
    TruthSize(Retryable(code));
    KeysDiffer();
    hide CodeKey, MessageKey, RetryableKey, FieldKey, Units, Name, Message, Retryable, Truth, Stringify;
    var a, b := Field(CodeKey(), Words(Units(Name(code)))), Field(MessageKey(), Words(Units(Message(code))));
    var c := Field(RetryableKey(), Truth(Retryable(code)));
    ThreeSize(a, b, c);
    assert ErrorTree(code, field) == Object([a, b, c]);
  }

  lemma BlamingErrorSize(code: ErrorCode, field: Text)
    ensures |Stringify(ErrorTree(code, Some(field)))| <= 1000 + 6 * |field|
  {
    CatalogSize(code);
    WordsSize(field);
    TruthSize(Retryable(code));
    KeysDiffer();
    hide CodeKey, MessageKey, RetryableKey, FieldKey, Units, Name, Message, Retryable, Truth, Stringify;
    var a, b := Field(CodeKey(), Words(Units(Name(code)))), Field(MessageKey(), Words(Units(Message(code))));
    var c, d := Field(RetryableKey(), Truth(Retryable(code))), Field(FieldKey(), Words(field));
    FourSize(a, b, c, d);
    assert ErrorTree(code, Some(field)) == Object([a, b, c, d]);
  }

  lemma ErrorSize(code: ErrorCode, field: Option<Text>)
    requires field.Some? ==> |field.value| <= MAX_FIELD_BYTES
    ensures |Stringify(ErrorTree(code, field))| <= 5000
  {
    hide Stringify, ErrorTree;
    if field.Some? { BlamingErrorSize(code, field.value); } else { PlainErrorSize(code, field); }
  }

  lemma TruthSize(b: bool)
    ensures |Stringify(Truth(b))| <= 5
  {
  }

  lemma ThreeSize(a: Field, b: Field, c: Field)
    ensures |Stringify(Object([a, b, c]))| <= 13 + 6 * (|a.key| + |b.key| + |c.key|) +
      |Stringify(a.value)| + |Stringify(b.value)| + |Stringify(c.value)|
  {
    ObjectSize([a, b, c]);
    hide Stringify;
    assert [a, b, c][1..] == [b, c] && [b, c][1..] == [c] && [c][1..] == [];
    assert FieldsSize([c]) == 6 * |c.key| + |Stringify(c.value)| + 4;
  }

  lemma FourSize(a: Field, b: Field, c: Field, d: Field)
    ensures |Stringify(Object([a, b, c, d]))| <= 17 + 6 * (|a.key| + |b.key| + |c.key| + |d.key|) +
      |Stringify(a.value)| + |Stringify(b.value)| + |Stringify(c.value)| + |Stringify(d.value)|
  {
    ObjectSize([a, b, c, d]);
    hide Stringify;
    assert [a, b, c, d][1..] == [b, c, d] && [b, c, d][1..] == [c, d] && [c, d][1..] == [d] && [d][1..] == [];
    assert FieldsSize([d]) == 6 * |d.key| + |Stringify(d.value)| + 4;
    assert FieldsSize([c, d]) == 6 * |c.key| + |Stringify(c.value)| + 4 + FieldsSize([d]);
  }

  lemma FailedSize(id: Text, content: Tree)
    ensures |Stringify(Envelope(id, false, ErrorKey(), content))| <= 200 + 6 * |id| + |Stringify(content)|
  {
    WordsSize(id);
    WordsSize(AbiVersion());
    TruthSize(false);
    KeysDiffer();
    hide AbiKey, IdKey, OkKey, ErrorKey, AbiVersion, Stringify, Truth;
    FourSize(Field(AbiKey(), Words(AbiVersion())), Field(IdKey(), Words(id)), Field(OkKey(), Truth(false)), Field(ErrorKey(), content));
  }

  lemma FailureIs(id: Text, code: ErrorCode, field: Option<Text>)
    ensures Serialize(Failure(id, code, field)) == Stringify(Envelope(id, false, ErrorKey(), ErrorTree(code, field)))
  {
    hide Stringify, Envelope, ErrorTree;
  }

  lemma LabelSize(t: Text, maxBytes: nat)
    ensures IsLabel(t, maxBytes) ==> |t| <= maxBytes
  {
    hide Utf8Length;
  }

  lemma FailureSize(id: Text, code: ErrorCode, field: Option<Text>)
    requires IsLabel(id, MAX_ID_BYTES) && (field.Some? ==> IsLabel(field.value, MAX_FIELD_BYTES))
    ensures Utf8Length(Serialize(Failure(id, code, field))) <= MAX_RESPONSE_BYTES
  {
    hide Utf8Length, Serialize, IsLabel, Envelope, ErrorTree, Stringify, ErrorKey;
    LabelSize(id, MAX_ID_BYTES);
    if field.Some? { LabelSize(field.value, MAX_FIELD_BYTES); }
    ErrorSize(code, field);
    FailedSize(id, ErrorTree(code, field));
    FailureIs(id, code, field);
  }

  // ---- the scanner and copyAbiValue use the same bound ----

  lemma {:induction false} HeightsAgree(v: Json)
    requires Unique(v)
    ensures TreeHeight(TreeOf(v)) == Height(v)
    decreases v
  {
    match v
    case Arr(_, items) => ItemsHeightsAgree(items);
    case Obj(_, members) =>
      MembersHeightsAgree(members, []);
    case _ =>
  }

  lemma {:induction false} ItemsHeightsAgree(items: Items)
    requires UniqueItems(items)
    ensures ElementsHeight(TreesOf(items)) == ItemsHeight(items)
    decreases items
  {
    if items.Item? {
      HeightsAgree(items.value);
      ItemsHeightsAgree(items.others);
    }
  }

  lemma {:induction false} FieldsHeightOn(xs: seq<Field>, f: Field)
    ensures FieldsHeight(xs + [f]) == Max(FieldsHeight(xs), 1 + TreeHeight(f.value))
    decreases |xs|
  {
    hide TreeHeight;
    if xs == [] {
      assert [] + [f] == [f] && [f][1..] == [];
    } else {
      assert (xs + [f])[1..] == xs[1..] + [f];
      FieldsHeightOn(xs[1..], f);
    }
  }

  lemma {:induction false} MembersHeightsAgree(ms: Members, before: seq<Field>)
    requires UniqueMembers(ms) && !Repeats(ms) && forall k | k in Keys(ms) :: k !in KeysOf(before)
    ensures FieldsHeight(FieldsOf(ms, before)) == Max(FieldsHeight(before), MembersHeight(ms))
    decreases ms
  {
    if ms.Member? {
      var key, value := PiecesValue(ms.key), TreeOf(ms.field);
      HeightsAgree(ms.field);
      assert Keys(ms)[0] == key && Keys(ms) == [key] + Keys(ms.remaining);
      SetNew(before, key, value);
      var next := before + [Field(key, value)];
      FieldsHeightOn(before, Field(key, value));
      KeysOn(before, [Field(key, value)]);
      NewKeys(before, key, value, Keys(ms.remaining));
      MembersHeightsAgree(ms.remaining, next);
      hide TreeHeight, PiecesValue, TreeOf, Height, SetField;
      assert FieldsOf(ms, before) == FieldsOf(ms.remaining, next);
    }
  }

  lemma NewKeys(before: seq<Field>, key: Text, value: Tree, keys: seq<Text>)
    requires key !in keys && forall k | k in keys :: k !in KeysOf(before)
    ensures forall k | k in keys :: k !in KeysOf(before + [Field(key, value)])
  {
    KeysOn(before, [Field(key, value)]);
    assert KeysOf([Field(key, value)]) == [key] by { assert [Field(key, value)][1..] == []; }
  }

  /** On a text without repeated keys the scanner accepts exactly the nesting copyAbiValue accepts. */
  lemma SameBound(before: Text, v: Json, after: Text)
    requires AllWs(before) && Good(v) && AllWs(after) && Unique(v) && Unreserved(TreeOf(v))
    ensures CheckUnique(before + Render(v) + after) == None <==> Copy(TreeOf(v), 0).Ok?
  {
    JsonReads.ScannerRefinesTree(before, v, after);
    CopyMeans(TreeOf(v), 0);
    HeightsAgree(v);
  }

  /** A response text in which any object repeats a key, however it is escaped, is refused. */
  lemma RepeatsRefused(before: Text, v: Json, after: Text, expectedId: Text)
    requires AllWs(before) && Good(v) && AllWs(after) && !Unique(v)
    ensures ParseResponse(before + Render(v) + after, expectedId).Err?
  {
    JsonReads.ScannerRefinesTree(before, v, after);
    hide Utf8Length, Parse, CheckUnique, Validate, Render;
  }
}

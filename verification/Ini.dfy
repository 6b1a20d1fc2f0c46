/** INI overlays, tools/utilities/ini.ts. `lower` and `typed` stand for String.toLowerCase and the typing of an unquoted
    value at its path; every result holds for any such functions. */
module Ini {
  import opened Common
  import opened Texts
  import opened SettingsTree

  type Lower = string -> string
  type Typed = (Path, string) -> Tree

  datatype Problem = Unterminated | AfterHeader | NoSeparator | NoKey
  datatype IniError = IniError(line: nat, problem: Problem)

  /** One `key = value` line, with its full path. */
  datatype Entry = Entry(path: Path, value: Tree)

  // ---- keys ----

  function Segments(parts: seq<string>, lower: Lower): Path {
    if parts == [] then [] else
    var part := lower(Trim(parts[0]));
    if part == "" then Segments(parts[1..], lower) else [part] + Segments(parts[1..], lower)
  }

  function SplitKey(key: string, lower: Lower): Path { Segments(Split(key, '.'), lower) }

  lemma {:induction false} SegmentsOn(xs: seq<string>, ys: seq<string>, lower: Lower)
    ensures Segments(xs + ys, lower) == Segments(xs, lower) + Segments(ys, lower)
    decreases |xs|
  {
    if xs == [] {
      assert xs + ys == ys;
    } else {
      assert (xs + ys)[1..] == xs[1..] + ys;
      SegmentsOn(xs[1..], ys, lower);
    }
  }

  /** A dotted key is its first part's path followed by the rest's. */
  lemma DottedKey(a: string, b: string, lower: Lower)
    ensures SplitKey(a + "." + b, lower) == SplitKey(a, lower) + SplitKey(b, lower)
  {
    SplitAt(a, '.', b);
    assert a + "." + b == a + ['.'] + b;
    SegmentsOn(Split(a, '.'), Split(b, '.'), lower);
  }

  lemma {:induction false} KeyTrimStart(a: string, lower: Lower)
    ensures SplitKey(TrimStart(a), lower) == SplitKey(a, lower)
    decreases |a|
  {
    if a != "" && IsSpace(a[0]) {
      KeyTrimStart(a[1..], lower);
      var rest := Split(a[1..], '.');
      assert Split(a, '.') == [[a[0]] + rest[0]] + rest[1..];
      assert ([a[0]] + rest[0])[1..] == rest[0];
      assert Trim([a[0]] + rest[0]) == Trim(rest[0]);
      assert rest == [rest[0]] + rest[1..];
    }
  }

  // ---- values ----

  /** The first `;` or `#` that follows a blank; the length when there is none. */
  function CommentAt(value: string, i: nat): (r: nat)
    requires 1 <= i
    ensures i <= |value| ==> i <= r <= |value|
    decreases |value| - i
  {
    if i >= |value| then |value|
    else if value[i] in ";#" && value[i - 1] in " \t" then i else CommentAt(value, i + 1)
  }

  function StripComment(value: string): string { value[..CommentAt(value, 1)] }

  method StripTrailingComment(value: string) returns (r: string)
    ensures r == StripComment(value)
  {
    var index := 1;
    while index < |value|
      invariant 1 <= index && (index <= |value| || value == "") && CommentAt(value, 1) == CommentAt(value, index)
    {
      if value[index] in ";#" && value[index - 1] in " \t" {
        return value[..index];
      }
      index := index + 1;
    }
    r := value;
  }

  datatype Raw = Raw(value: string, quoted: bool)

  function TrimValue(raw: string): Raw {
    var value := Trim(raw);
    if value == "" then Raw("", false)
    else if value[0] in "\"'" && Find(value[1..], value[0]) < |value| - 1
      then Raw(value[1..1 + Find(value[1..], value[0])], true)
    else Raw(Trim(StripComment(value)), false)
  }

  function ParseValue(path: Path, raw: string, typed: Typed): Tree {
    var r := TrimValue(raw);
    if r.quoted then Leaf(Text(r.value)) else typed(path, r.value)
  }

  // ---- lines ----

  datatype Line = Blank | Header(name: string) | Pair(key: string, raw: string) | Bad(problem: Problem)

  predicate Comment(text: string) { text != "" && text[0] in ";#" }

  /** A trimmed line. */
  function Read(text: string): Line {
    if text == "" || Comment(text) then Blank
    else if text[0] == '[' then
      var end := Find(text, ']');
      if end == |text| then Bad(Unterminated) else
      var rest := Trim(text[end + 1..]);
      if rest != "" && !Comment(rest) then Bad(AfterHeader) else Header(text[1..end])
    else
      var at := Find(text, '=');
      if at == |text| then Bad(NoSeparator) else Pair(text[..at], text[at + 1..])
  }

  function ReadLine(line: string, section: Path, lower: Lower, typed: Typed): Result<(Path, seq<Entry>), Problem> {
    match Read(Trim(line))
    case Blank => Ok((section, []))
    case Header(name) => Ok((SplitKey(name, lower), []))
    case Bad(problem) => Err(problem)
    case Pair(key, raw) =>
      var leaf := SplitKey(key, lower);
      if leaf == [] then Err(NoKey) else Ok((section, [Entry(section + leaf, ParseValue(section + leaf, raw, typed))]))
  }

  /** The entries of a file, in order, from line `at` on. */
  function Entries(lines: seq<string>, at: nat, section: Path, lower: Lower, typed: Typed): Result<seq<Entry>, IniError>
    requires at <= |lines|
    decreases |lines| - at
  {
    if at == |lines| then Ok([]) else
    match ReadLine(lines[at], section, lower, typed)
    case Err(problem) => Err(IniError(at + 1, problem))
    case Ok((next, found)) =>
      match Entries(lines, at + 1, next, lower, typed) case Err(e) => Err(e) case Ok(rest) => Ok(found + rest)
  }

  // ---- the tree ----

  function AsList(value: Tree): seq<Tree> { if value.List? then value.items else [value] }

  function SetValue(s: Settings, e: Entry): Settings {
    match ReadPath(s, e.path)
    case None => WritePath(s, e.path, e.value)
    case Some(existing) => WritePath(s, e.path, List(AsList(existing) + AsList(e.value)))
  }

  function Build(s: Settings, entries: seq<Entry>): Settings
    decreases |entries|
  {
    if entries == [] then s else Build(SetValue(s, entries[0]), entries[1..])
  }

  /** The carriage return before a line feed is white space, which trim removes from the line anyway. */
  function Parse(content: string, lower: Lower, typed: Typed): Result<Settings, IniError> {
    match Entries(Split(content, '\n'), 0, [], lower, typed) case Err(e) => Err(e) case Ok(entries) => Ok(Build(map[], entries))
  }

  /** What is still to come ends as `all` does. */
  ghost predicate OnTheWay(all: Result<seq<Entry>, IniError>, s: Settings, rest: Result<seq<Entry>, IniError>) {
    if rest.Err? then all == rest else all.Ok? && Build(map[], all.value) == Build(s, rest.value)
  }

  lemma {:induction false} BuildOn(s: Settings, xs: seq<Entry>, ys: seq<Entry>)
    ensures Build(s, xs + ys) == Build(Build(s, xs), ys)
    decreases |xs|
  {
    if xs == [] {
      assert xs + ys == ys;
    } else {
      assert (xs + ys)[1..] == xs[1..] + ys;
      BuildOn(SetValue(s, xs[0]), xs[1..], ys);
    }
  }

  lemma LineRead(all: Result<seq<Entry>, IniError>, s: Settings, lines: seq<string>, at: nat, section: Path, lower: Lower, typed: Typed)
    requires at < |lines| && OnTheWay(all, s, Entries(lines, at, section, lower, typed))
    ensures match Read(Trim(lines[at]))
      case Blank => OnTheWay(all, s, Entries(lines, at + 1, section, lower, typed))
      case Header(name) => OnTheWay(all, s, Entries(lines, at + 1, SplitKey(name, lower), lower, typed))
      case Bad(problem) => all == Err(IniError(at + 1, problem))
      case Pair(key, raw) =>
        var path := section + SplitKey(key, lower);
        if SplitKey(key, lower) == [] then all == Err(IniError(at + 1, NoKey))
        else OnTheWay(all, SetValue(s, Entry(path, ParseValue(path, raw, typed))), Entries(lines, at + 1, section, lower, typed))
  {
    hide Read, SetValue, SplitKey, ParseValue, Trim;
    match ReadLine(lines[at], section, lower, typed)
    case Err(_) =>
    case Ok((next, found)) =>
      if |found| == 1 { BuildOne(s, found[0]); }
      var rest := Entries(lines, at + 1, next, lower, typed);
      if rest.Ok? { BuildOn(s, found, rest.value); }
  }

  lemma BuildOne(s: Settings, e: Entry)
    ensures Build(s, [e]) == SetValue(s, e)
  {
    assert [e][1..] == [];
  }

  /** The loop of parseIni. */
  method ParseIni(content: string, lower: Lower, typed: Typed) returns (r: Result<Settings, IniError>)
    ensures r == Parse(content, lower, typed)
  {
    var settings: Settings, section: Path := map[], [];
    var lines := Split(content, '\n');
    ghost var all := Entries(lines, 0, [], lower, typed);
    var index := 0;
    while index < |lines|
      invariant 0 <= index <= |lines| && OnTheWay(all, settings, Entries(lines, index, section, lower, typed))
    {
      hide *;
      LineRead(all, settings, lines, index, section, lower, typed);
      match Read(Trim(lines[index])) {
        case Blank =>
        case Header(name) =>
          section := SplitKey(name, lower);
        case Bad(problem) =>
          return Err(IniError(index + 1, problem));
        case Pair(key, raw) =>
          var leaf := SplitKey(key, lower);
          if leaf == [] {
            return Err(IniError(index + 1, NoKey));
          }
          var path := section + leaf;
          var value := ParseValue(path, raw, typed);
          settings := SetValue(settings, Entry(path, value));
      }
      index := index + 1;
    }
    r := Ok(settings);
  }

  // ---- sections are dotted keys ----

  /** The header in force at line `at`; at first, none. */
  function NameAt(lines: seq<string>, at: nat): string
    requires at <= |lines|
  {
    if at == 0 then "" else
    match Read(Trim(lines[at - 1])) case Header(name) => name case _ => NameAt(lines, at - 1)
  }

  /** A line with its section written out in front of its key. */
  function DottedLine(line: string, name: string): string {
    match Read(Trim(line)) case Pair(_, _) => name + "." + Trim(line) case Header(_) => "" case _ => line
  }

  function DottedLines(lines: seq<string>): (r: seq<string>)
    ensures |r| == |lines| && forall i | 0 <= i < |r| :: r[i] == DottedLine(lines[i], NameAt(lines, i))
  {
    seq(|lines|, i requires 0 <= i < |lines| => DottedLine(lines[i], NameAt(lines, i)))
  }

  /** A section name that can stand in front of a key. */
  predicate Plain(name: string) { '=' !in name && (TrimStart(name) == "" || TrimStart(name)[0] !in "[;#") }

  ghost predicate PlainHeaders(lines: seq<string>) {
    forall line | line in lines && Read(Trim(line)).Header? :: Plain(Read(Trim(line)).name)
  }

  lemma {:induction false} TrimStartOn(a: string, b: string)
    requires b != "" && !IsSpace(b[0])
    ensures TrimStart(a + b) == TrimStart(a) + b
    decreases |a|
  {
    if a == "" {
      assert a + b == b;
    } else {
      assert (a + b)[1..] == a[1..] + b;
      TrimStartOn(a[1..], b);
    }
  }

  lemma {:induction false} TrimStartSub(a: string)
    ensures forall c | c in TrimStart(a) :: c in a
    decreases |a|
  {
    if a != "" && IsSpace(a[0]) { TrimStartSub(a[1..]); }
  }

  lemma TrimQualified(name: string, text: string)
    requires text != "" && Trim(text) == text
    ensures Trim(name + "." + text) == TrimStart(name) + "." + text
  {
    TrimIdle(text);
    TrimStartDot(name, text);
    LastStays(TrimStart(name) + ".", text);
    hide *;
    TrimIs(name + "." + text);
  }

  lemma TrimIs(s: string)
    ensures Trim(s) == TrimEnd(TrimStart(s))
  {
  }

  lemma TrimStartDot(name: string, text: string)
    ensures TrimStart(name + "." + text) == TrimStart(name) + "." + text
  {
    assert !IsSpace('.');
    hide *;
    var dotted := "." + text;
    assert dotted[0] == '.';
    TrimStartOn(name, dotted);
    assert name + "." + text == name + dotted && TrimStart(name) + "." + text == TrimStart(name) + dotted;
  }

  lemma LastStays(before: string, text: string)
    requires text != "" && !IsSpace(text[|text| - 1])
    ensures TrimEnd(before + text) == before + text
  {
    hide IsSpace;
    assert (before + text)[|before + text| - 1] == text[|text| - 1];
  }

  lemma TrimIdle(text: string)
    requires text != "" && Trim(text) == text
    ensures !IsSpace(text[|text| - 1])
  {
    hide IsSpace, TrimStart;
    assert TrimEnd(TrimStart(text)) == text;
  }

  lemma ReadPair(text: string)
    requires Read(text).Pair?
    ensures '=' !in Read(text).key && text == Read(text).key + ['='] + Read(text).raw
  {
    hide Trim;
  }

  lemma PairRead(key: string, raw: string)
    requires key != "" && key[0] !in "[;#" && '=' !in key
    ensures Read(key + ['='] + raw) == Pair(key, raw)
  {
    var t := key + ['='] + raw;
    FindAt(key, '=', raw);
    assert t[0] == key[0] && t[..|key|] == key && t[|key| + 1..] == raw;
    hide Trim, Find;
  }

  /** The key and value of a line with its section in front of it. */
  lemma ReadQualified(name: string, text: string)
    requires Plain(name) && Read(text).Pair?
    ensures Read(TrimStart(name) + "." + text) == Pair(TrimStart(name) + "." + Read(text).key, Read(text).raw)
  {
    ReadPair(text);
    TrimStartSub(name);
    hide Read, TrimStart;
    var Pair(key, raw) := Read(text);
    var front := TrimStart(name);
    assert (front + "." + key)[0] == if front == "" then '.' else front[0];
    assert front + "." + text == front + "." + key + ['='] + raw;
    PairRead(front + "." + key, raw);
  }

  lemma QualifiedKey(name: string, key: string, lower: Lower)
    ensures SplitKey(TrimStart(name) + "." + key, lower) == SplitKey(name, lower) + SplitKey(key, lower)
  {
    hide SplitKey, TrimStart;
    DottedKey(TrimStart(name), key, lower);
    KeyTrimStart(name, lower);
  }

  lemma LineSame(line: string, name: string, lower: Lower, typed: Typed)
    requires Plain(name) && ReadLine(line, SplitKey(name, lower), lower, typed).Ok?
    ensures var found := ReadLine(line, SplitKey(name, lower), lower, typed).value.1;
      ReadLine(DottedLine(line, name), [], lower, typed) == Ok(([], found))
  {
    TrimTwice(line);
    var text := Trim(line);
    match Read(text)
    case Pair(key, raw) =>
      TrimQualified(name, text);
      ReadQualified(name, text);
      QualifiedKey(name, key, lower);
      var path := SplitKey(name, lower) + SplitKey(key, lower);
      assert [] + path == path;
    case _ =>
  }

  lemma {:induction false} EntriesSame(lines: seq<string>, at: nat, lower: Lower, typed: Typed)
    requires at <= |lines| && PlainHeaders(lines)
    requires Entries(lines, at, SplitKey(NameAt(lines, at), lower), lower, typed).Ok?
    ensures Entries(DottedLines(lines), at, [], lower, typed) ==
      Entries(lines, at, SplitKey(NameAt(lines, at), lower), lower, typed)
    decreases |lines| - at
  {
    if at < |lines| {
      NamePlain(lines, at);
      NextName(lines, at, lower, typed);
      hide SplitKey, Read, Trim, DottedLine, NameAt, PlainHeaders, Plain, ReadLine, DottedLines;
      LineSame(lines[at], NameAt(lines, at), lower, typed);
      EntriesSame(lines, at + 1, lower, typed);
    }
  }

  lemma NextName(lines: seq<string>, at: nat, lower: Lower, typed: Typed)
    requires at < |lines| && ReadLine(lines[at], SplitKey(NameAt(lines, at), lower), lower, typed).Ok?
    ensures ReadLine(lines[at], SplitKey(NameAt(lines, at), lower), lower, typed).value.0 ==
      SplitKey(NameAt(lines, at + 1), lower)
  {
    hide SplitKey, Trim;
  }

  lemma {:induction false} NamePlain(lines: seq<string>, at: nat)
    requires at <= |lines| && PlainHeaders(lines)
    ensures Plain(NameAt(lines, at))
    decreases at
  {
    if at > 0 {
      assert lines[at - 1] in lines;
      NamePlain(lines, at - 1);
    }
  }

  lemma RootKey(lower: Lower)
    requires lower("") == ""
    ensures SplitKey("", lower) == []
  {
    assert Split("", '.') == [""];
    assert [""][1..] == [];
  }

  // ---- repeated keys ----

  function ValuesAt(entries: seq<Entry>, path: Path): seq<Tree>
    decreases |entries|
  {
    if entries == [] then [] else
    (if entries[0].path == path then [entries[0].value] else []) + ValuesAt(entries[1..], path)
  }

  function Flat(values: seq<Tree>): seq<Tree> { if values == [] then [] else AsList(values[0]) + Flat(values[1..]) }

  /** One value stays as it is; several become a list, in order, lists spread out. */
  function Collected(values: seq<Tree>): Option<Tree> {
    if values == [] then None else if |values| == 1 then Some(values[0]) else Some(List(Flat(values)))
  }

  /** What a path holds once more values have been appended to it. */
  function Appended(before: Option<Tree>, values: seq<Tree>): Option<Tree> {
    if values == [] then before else if before == None then Collected(values)
    else Some(List(AsList(before.value) + Flat(values)))
  }

  lemma AppendStep(before: Option<Tree>, values: seq<Tree>)
    requires values != []
    ensures Appended(before, values) ==
      Appended(Some(if before == None then values[0] else List(AsList(before.value) + AsList(values[0]))), values[1..])
  {
    if |values| == 1 {
      assert Flat(values[1..]) == [];
      assert before.Some? ==> AsList(before.value) + Flat(values) == AsList(before.value) + AsList(values[0]);
    } else if before.Some? {
      assert AsList(before.value) + (AsList(values[0]) + Flat(values[1..])) ==
        AsList(before.value) + AsList(values[0]) + Flat(values[1..]);
    }
  }

  lemma SetReads(s: Settings, e: Entry, path: Path)
    requires path != [] && (e.path == path || Diverge(e.path, path))
    ensures ReadPath(SetValue(s, e), path) ==
      if e.path != path then ReadPath(s, path)
      else Some(match ReadPath(s, path) case None => e.value case Some(x) => List(AsList(x) + AsList(e.value)))
  {
    var value := match ReadPath(s, e.path) case None => e.value case Some(x) => List(AsList(x) + AsList(e.value));
    assert SetValue(s, e) == WritePath(s, e.path, value);
    hide ReadPath, WritePath, SetValue, Diverge;
    if e.path == path { WriteRead(s, path, value); } else { WriteFrame(s, e.path, value, path); }
  }

  lemma {:induction false} BuildReads(s: Settings, entries: seq<Entry>, path: Path)
    requires path != [] && forall e | e in entries :: e.path == path || Diverge(e.path, path)
    ensures ReadPath(Build(s, entries), path) == Appended(ReadPath(s, path), ValuesAt(entries, path))
    decreases |entries|
  {
    if entries != [] {
      hide ReadPath, SetValue, Appended, Diverge;
      assert entries[0] in entries && forall e | e in entries[1..] :: e in entries;
      SetReads(s, entries[0], path);
      BuildReads(SetValue(s, entries[0]), entries[1..], path);
      var rest := ValuesAt(entries[1..], path);
      if entries[0].path == path {
        assert ValuesAt(entries, path)[1..] == rest;
        AppendStep(ReadPath(s, path), ValuesAt(entries, path));
      } else {
        assert ValuesAt(entries, path) == rest;
      }
    } else {
      assert Appended(ReadPath(s, path), []) == ReadPath(s, path);
    }
  }

  // ---- broken paths ----

  /** As the lines of a file are: each has a key, and its value is no record, though a list may hold some. */
  predicate Written(entries: seq<Entry>) { forall e | e in entries :: e.path != [] && !e.value.Record? }

  /** The entry's path leads through `path`, strictly. */
  predicate Above(e: Entry, path: Path) { e.path < path }

  predicate Below(e: Entry, path: Path) { path < e.path }

  /** The number of entries up to the last one whose path leads through `path`, or the other way round. */
  function LastBreak(entries: seq<Entry>, path: Path): (n: nat)
    ensures n <= |entries| && (n > 0 ==> Above(entries[n - 1], path) || Below(entries[n - 1], path))
    ensures forall i | n <= i < |entries| :: !Above(entries[i], path) && !Below(entries[i], path)
    decreases |entries|
  {
    if entries == [] then 0 else
    var last := entries[|entries| - 1];
    if Above(last, path) || Below(last, path) then |entries| else LastBreak(entries[..|entries| - 1], path)
  }

  /** No line above the path follows one of its values, and each line below it is followed by a line above it. */
  ghost predicate Undisturbed(entries: seq<Entry>, path: Path) {
    && (forall i, j | 0 <= i < j < |entries| && entries[i].path == path :: !Above(entries[j], path))
    && (forall i | 0 <= i < |entries| && Below(entries[i], path) :: exists j :: i < j < |entries| && Above(entries[j], path))
  }

  /** What the last break left at a path, and the values written before and after it. */
  function Left(entries: seq<Entry>, path: Path): Option<Tree> {
    ReadPath(Build(map[], entries[..LastBreak(entries, path)]), path)
  }

  function Lost(entries: seq<Entry>, path: Path): seq<Tree> { ValuesAt(entries[..LastBreak(entries, path)], path) }

  function Kept(entries: seq<Entry>, path: Path): seq<Tree> { ValuesAt(entries[LastBreak(entries, path)..], path) }

  // ---- the tree of a file, from its lines alone ----

  function Size(entries: seq<Entry>): nat {
    if entries == [] then 0 else |entries[|entries| - 1].path| + Size(entries[..|entries| - 1])
  }

  /** The lines below a path since the last line at it or above it, with what their paths add to it. */
  function Under(entries: seq<Entry>, path: Path): (r: seq<Entry>)
    ensures Size(r) <= Size(entries)
    ensures path != [] && entries != [] && Below(entries[|entries| - 1], path) ==> Size(r) < Size(entries)
    decreases |entries|
  {
    if entries == [] then [] else
    var front, last := entries[..|entries| - 1], entries[|entries| - 1];
    if last.path <= path then []
    else if path < last.path then
      var under := Under(front, path) + [Entry(last.path[|path|..], last.value)];
      assert under[..|under| - 1] == Under(front, path);
      under
    else Under(front, path)
  }

  lemma {:induction false} PrefixSize(entries: seq<Entry>, n: nat)
    requires n <= |entries|
    ensures Size(entries[..n]) <= Size(entries)
    decreases |entries|
  {
    if n < |entries| {
      assert entries[..|entries| - 1][..n] == entries[..n];
      PrefixSize(entries[..|entries| - 1], n);
    } else {
      assert entries[..n] == entries;
    }
  }

  /** What the last break left at a path: a line for a prefix nothing, one for an extension the record of the lines below. */
  function Remains(entries: seq<Entry>, path: Path): Option<Tree>
    requires path != []
    decreases Size(entries), 0
  {
    var n := LastBreak(entries, path);
    if n == 0 || Above(entries[n - 1], path) then None else
    PrefixSize(entries, n);
    assert entries[..n][n - 1] == entries[n - 1];
    Some(Record(Grown(Under(entries[..n], path))))
  }

  /** What the lines of a file give a path. */
  function Held(entries: seq<Entry>, path: Path): Option<Tree>
    requires path != []
    decreases Size(entries), 1
  {
    Appended(Remains(entries, path), Kept(entries, path))
  }

  function Keys(entries: seq<Entry>): set<string> { set e | e in entries && e.path != [] :: e.path[0] }

  /** The tree of a file. */
  function Grown(entries: seq<Entry>): Settings
    decreases Size(entries), 2
  {
    map key | key in Keys(entries) && Held(entries, [key]).Some? :: Held(entries, [key]).value
  }

  function OptionList(x: Option<Tree>): seq<Tree> { if x == None then [] else [x.value] }

  /** Values are lost, but what is read afterwards looks the same: they were empty lists, or together the one record that
      the break left there. */
  predicate Unseen(left: Option<Tree>, lost: seq<Tree>, kept: seq<Tree>) {
    && lost != [] && kept != [] && Flat(lost) == OptionList(left)
    && (left.Some? || |kept| >= 2 || kept[0].List?)
  }

  predicate LossUnseen(entries: seq<Entry>, path: Path)
    requires path != []
  {
    Unseen(Remains(entries, path), Lost(entries, path), Kept(entries, path))
  }

  lemma UnbrokenAfter(entries: seq<Entry>, path: Path)
    ensures forall e | e in entries[LastBreak(entries, path)..] :: e.path == path || Diverge(e.path, path)
  {
    hide LastBreak;
  }

  lemma PartsMean(entries: seq<Entry>, path: Path)
    requires path != []
    ensures var n := LastBreak(entries, path);
      && entries == entries[..n] + entries[n..]
      && Left(entries, path) == ReadPath(Build(map[], entries[..n]), path)
      && Lost(entries, path) == ValuesAt(entries[..n], path) && Kept(entries, path) == ValuesAt(entries[n..], path)
      && (LossUnseen(entries, path) <==> Unseen(Remains(entries, path), Lost(entries, path), Kept(entries, path)))
  {
    hide LastBreak, ReadPath, Build, ValuesAt, Unseen, Remains;
  }

  predicate Shows(v: Tree) { v.List? ==> v.items != [] && forall x | x in v.items :: !x.Record? }

  lemma {:induction false} BelowValue(s: Settings, p: Path, path: Path)
    requires p != [] && p < path && ReadPath(s, p).Some? && !ReadPath(s, p).value.Record?
    ensures ReadPath(s, path) == None
    decreases |p|
  {
    if |p| > 1 {
      assert p[1..] < path[1..];
      BelowValue(s[p[0]].fields, p[1..], path[1..]);
    }
  }

  lemma {:induction false} AboveValue(s: Settings, p: Path, value: Tree, path: Path)
    requires path != [] && path < p
    ensures ReadPath(WritePath(s, p, value), path).Some? && ReadPath(WritePath(s, p, value), path).value.Record?
    decreases |path|
  {
    if |path| > 1 {
      assert path[1..] < p[1..];
      AboveValue(Child(s, p[0]), p[1..], value, path[1..]);
    }
  }

  /** A line for a strict prefix leaves nothing at a path, one for a strict extension a record. */
  lemma SetBreaks(s: Settings, e: Entry, path: Path)
    requires path != [] && e.path != [] && !e.value.Record? && (Above(e, path) || Below(e, path))
    ensures var r := ReadPath(SetValue(s, e), path); if Above(e, path) then r == None else r.Some? && r.value.Record?
  {
    var value := match ReadPath(s, e.path) case None => e.value case Some(x) => List(AsList(x) + AsList(e.value));
    assert SetValue(s, e) == WritePath(s, e.path, value);
    hide ReadPath, WritePath, SetValue;
    if Above(e, path) {
      WriteRead(s, e.path, value);
      BelowValue(WritePath(s, e.path, value), e.path, path);
    } else {
      AboveValue(s, e.path, value, path);
    }
  }

  lemma BreakLeaves(entries: seq<Entry>, path: Path)
    requires path != [] && Written(entries)
    ensures var n := LastBreak(entries, path); var base := ReadPath(Build(map[], entries[..n]), path);
      (base == None <==> n == 0 || Above(entries[n - 1], path)) && (base.Some? ==> base.value.Record?)
  {
    var n := LastBreak(entries, path);
    if n == 0 {
      assert Build(map[], []) == map[];
    } else {
      var front, last := entries[..n - 1], entries[n - 1];
      assert entries[..n] == front + [last] && last in entries;
      hide ReadPath, SetValue, LastBreak;
      BuildOn(map[], front, [last]);
      BuildOne(Build(map[], front), last);
      SetBreaks(Build(map[], front), last, path);
    }
  }

  lemma DisturbedBy(entries: seq<Entry>, path: Path)
    requires Undisturbed(entries, path) && LastBreak(entries, path) > 0
    ensures Above(entries[LastBreak(entries, path) - 1], path)
    ensures forall i | 0 <= i < LastBreak(entries, path) :: entries[i].path != path
  {
    BreakElsewhere(entries[LastBreak(entries, path) - 1], path);
    hide Above, Below, LastBreak;
  }

  lemma NotDisturbed(entries: seq<Entry>, path: Path)
    requires var n := LastBreak(entries, path); n == 0 || Above(entries[n - 1], path)
    requires forall i | 0 <= i < LastBreak(entries, path) :: entries[i].path != path
    ensures Undisturbed(entries, path)
  {
    var n := LastBreak(entries, path);
    forall i | 0 <= i < |entries| && Below(entries[i], path) ensures exists j :: i < j < |entries| && Above(entries[j], path) {
      BreakElsewhere(entries[i], path);
      hide Above, Below, LastBreak;
      assert i < n - 1 && Above(entries[n - 1], path);
    }
  }

  /** Undisturbed: nothing was written before the last break, and it left nothing. */
  lemma OrderMeans(entries: seq<Entry>, path: Path)
    ensures var n := LastBreak(entries, path);
      Undisturbed(entries, path) <==> ValuesAt(entries[..n], path) == [] && (n == 0 || Above(entries[n - 1], path))
  {
    hide *;
    var n := LastBreak(entries, path);
    NoneAt(entries[..n], path);
    assert forall i :: 0 <= i < n ==> entries[..n][i] == entries[i];
    if Undisturbed(entries, path) {
      if n > 0 { DisturbedBy(entries, path); }
    } else if ValuesAt(entries[..n], path) == [] && (n == 0 || Above(entries[n - 1], path)) {
      NotDisturbed(entries, path);
    }
  }

  lemma BreakElsewhere(e: Entry, path: Path)
    ensures Above(e, path) || Below(e, path) ==> e.path != path && !(Above(e, path) && Below(e, path))
  {
  }

  lemma {:induction false} NoneAt(entries: seq<Entry>, path: Path)
    ensures ValuesAt(entries, path) == [] <==> forall i | 0 <= i < |entries| :: entries[i].path != path
    decreases |entries|
  {
    if entries != [] {
      NoneAt(entries[1..], path);
      assert forall i | 1 <= i < |entries| :: entries[i] == entries[1..][i - 1];
    }
  }

  lemma {:induction false} ValuesOn(entries: seq<Entry>, n: nat, path: Path)
    requires n <= |entries|
    ensures ValuesAt(entries, path) == ValuesAt(entries[..n], path) + ValuesAt(entries[n..], path)
    decreases n
  {
    if n > 0 {
      ValuesOn(entries[1..], n - 1, path);
      assert entries[1..][..n - 1] == entries[..n][1..] && entries[1..][n - 1..] == entries[n..];
    } else {
      assert entries[0..] == entries && entries[..0] == [];
    }
  }

  lemma ValuesWritten(entries: seq<Entry>, n: nat, path: Path)
    requires n <= |entries| && Written(entries)
    ensures forall v | v in ValuesAt(entries[..n], path) :: !v.Record?
    ensures forall v | v in ValuesAt(entries[n..], path) :: !v.Record?
  {
    ValuesFrom(entries[..n], path);
    ValuesFrom(entries[n..], path);
    hide ValuesAt;
    assert forall e | e in entries[..n] :: e in entries;
    assert forall e | e in entries[n..] :: e in entries;
  }

  lemma {:induction false} ValuesFrom(entries: seq<Entry>, path: Path)
    ensures forall v | v in ValuesAt(entries, path) :: exists e :: e in entries && e.path == path && e.value == v
    decreases |entries|
  {
    if entries != [] {
      assert entries[0] in entries && forall e | e in entries[1..] :: e in entries;
      ValuesFrom(entries[1..], path);
    }
  }

  lemma {:induction false} FlatOn(xs: seq<Tree>, ys: seq<Tree>)
    ensures Flat(xs + ys) == Flat(xs) + Flat(ys)
    decreases |xs|
  {
    if xs == [] {
      assert xs + ys == ys;
    } else {
      assert (xs + ys)[1..] == xs[1..] + ys;
      FlatOn(xs[1..], ys);
    }
  }

  lemma FlatOne(x: Tree)
    ensures Flat([x]) == AsList(x)
  {
    assert [x][1..] == [];
  }

  lemma SameBehind(a: seq<Tree>, b: seq<Tree>, rest: seq<Tree>)
    ensures a + rest == b + rest <==> a == b
  {
    if a + rest == b + rest { assert (a + rest)[..|a|] == a && (b + rest)[..|b|] == b; }
  }

  /** No value is a record: losing some shows, unless they are unseen. */
  lemma LossShows(left: Option<Tree>, lost: seq<Tree>, kept: seq<Tree>)
    requires left.Some? ==> left.value.Record?
    requires lost != [] && forall v | v in lost :: !v.Record?
    ensures Appended(left, kept) == Collected(lost + kept) <==> Unseen(left, lost, kept)
  {
    FlatOn(lost, kept);
    if |kept| == 1 { FlatOne(kept[0]); }
    var l, k := Flat(lost), Flat(kept);
    assert lost[0] in lost;
    hide Flat;
    if kept == [] {
      assert lost + kept == lost;
    } else {
      assert Collected(lost + kept) == Some(List(l + k));
      SameBehind(OptionList(left), l, k);
      assert left == None ==> [] + k == k;
    }
  }

  lemma NothingLost(left: Option<Tree>, kept: seq<Tree>)
    requires left.Some? ==> left.value.Record?
    requires forall v | v in kept :: !v.Record?
    ensures Appended(left, kept) == Collected(kept) <==> left == None
  {
    if |kept| == 1 { FlatOne(kept[0]); }
    var k := Flat(kept);
    hide Flat;
    if left.Some? && kept != [] { SameBehind([left.value], [], k); assert [] + k == k; }
  }

  // ---- main results ----

  /** Writing every section header into its keys as a dotted prefix gives the same entries, so the same tree. */
  lemma SectionsAreDottedKeys(lines: seq<string>, lower: Lower, typed: Typed)
    requires PlainHeaders(lines) && lower("") == "" && Entries(lines, 0, [], lower, typed).Ok?
    ensures Entries(DottedLines(lines), 0, [], lower, typed) == Entries(lines, 0, [], lower, typed)
    ensures forall line | line in DottedLines(lines) :: !Read(Trim(line)).Header?
  {
    RootKey(lower);
    EntriesSame(lines, 0, lower, typed);
    forall i | 0 <= i < |lines| ensures !Read(Trim(DottedLines(lines)[i])).Header? {
      NamePlain(lines, i);
      NoHeaderLeft(lines[i], NameAt(lines, i));
    }
  }

  lemma NoHeaderLeft(line: string, name: string)
    requires Plain(name)
    ensures !Read(Trim(DottedLine(line, name))).Header?
  {
    TrimTwice(line);
    if Read(Trim(line)).Pair? {
      TrimQualified(name, Trim(line));
      ReadQualified(name, Trim(line));
    }
  }

  /** What a path holds after any file: the values written since it was last broken, behind what the break left there. */
  lemma BreakRead(entries: seq<Entry>, path: Path)
    requires path != [] && Written(entries)
    ensures ReadPath(Build(map[], entries), path) == Appended(Left(entries, path), Kept(entries, path))
    ensures var n := LastBreak(entries, path); Left(entries, path) == None <==> n == 0 || Above(entries[n - 1], path)
    ensures Left(entries, path).Some? ==> Left(entries, path).value.Record?
  {
    hide *;
    var n := LastBreak(entries, path);
    PartsMean(entries, path);
    BreakLeaves(entries, path);
    BuildOn(map[], entries[..n], entries[n..]);
    UnbrokenAfter(entries, path);
    BuildReads(Build(map[], entries[..n]), entries[n..], path);
  }

  function Sub(s: Settings, path: Path): Settings {
    match ReadPath(s, path) case Some(Record(fields)) => fields case _ => map[]
  }

  lemma SubChild(s: Settings, path: Path)
    requires |path| > 1
    ensures Sub(s, path) == Sub(Child(s, path[0]), path[1..])
  {
    ChildRead(s, path);
  }

  lemma {:induction false} ReadUnder(s: Settings, path: Path, rest: Path)
    requires path != [] && rest != []
    ensures ReadPath(s, path + rest) == ReadPath(Sub(s, path), rest)
    decreases |path|
  {
    var all := path + rest;
    assert all[0] == path[0] && all[1..] == path[1..] + rest;
    ChildRead(s, all);
    if |path| > 1 {
      SubChild(s, path);
      hide Sub, ReadPath;
      ReadUnder(Child(s, path[0]), path[1..], rest);
    } else {
      assert path[1..] + rest == rest;
    }
  }

  lemma {:induction false} WriteUnder(s: Settings, path: Path, rest: Path, value: Tree)
    requires path != [] && rest != []
    ensures Sub(WritePath(s, path + rest, value), path) == WritePath(Sub(s, path), rest, value)
    decreases |path|
  {
    var all := path + rest;
    assert all[0] == path[0] && all[1..] == path[1..] + rest;
    var q := WritePath(s, all, value);
    assert Child(q, path[0]) == WritePath(Child(s, path[0]), all[1..], value);
    if |path| > 1 {
      SubChild(s, path);
      SubChild(q, path);
      hide Sub, WritePath;
      WriteUnder(Child(s, path[0]), path[1..], rest, value);
    } else {
      assert path[1..] + rest == rest;
      assert Sub(s, path) == Child(s, path[0]) && Sub(q, path) == Child(q, path[0]);
    }
  }

  lemma SetUnder(s: Settings, e: Entry, path: Path)
    requires path != [] && path < e.path
    ensures Sub(SetValue(s, e), path) == SetValue(Sub(s, path), Entry(e.path[|path|..], e.value))
  {
    var rest := e.path[|path|..];
    assert e.path == path + rest;
    ReadUnder(s, path, rest);
    var value := match ReadPath(s, e.path) case None => e.value case Some(x) => List(AsList(x) + AsList(e.value));
    WriteUnder(s, path, rest, value);
    hide Sub, ReadPath, WritePath;
  }

  lemma SetNotUnder(s: Settings, e: Entry, path: Path)
    requires path != [] && e.path != [] && !e.value.Record? && !(path < e.path)
    ensures Sub(SetValue(s, e), path) == if e.path <= path then map[] else Sub(s, path)
  {
    if Above(e, path) { SetBreaks(s, e, path); } else { SetReads(s, e, path); }
    hide SetValue, ReadPath;
  }

  lemma BuildLast(entries: seq<Entry>)
    requires entries != []
    ensures var front, last := entries[..|entries| - 1], entries[|entries| - 1];
      Build(map[], entries) == SetValue(Build(map[], front), last)
  {
    hide *;
    var front, last := entries[..|entries| - 1], entries[|entries| - 1];
    assert entries == front + [last];
    BuildOn(map[], front, [last]);
    BuildOne(Build(map[], front), last);
  }

  lemma BuildMore(entries: seq<Entry>, e: Entry)
    ensures Build(map[], entries + [e]) == SetValue(Build(map[], entries), e)
  {
    hide *;
    BuildOn(map[], entries, [e]);
    BuildOne(Build(map[], entries), e);
  }

  /** Below a path, a file builds the tree of the lines below it. */
  lemma {:induction false} SubBuild(entries: seq<Entry>, path: Path)
    requires path != [] && Written(entries)
    ensures Sub(Build(map[], entries), path) == Build(map[], Under(entries, path))
    decreases |entries|
  {
    if entries == [] {
      assert Build(map[], []) == map[];
    } else {
      var front, last := entries[..|entries| - 1], entries[|entries| - 1];
      assert last in entries && forall e | e in front :: e in entries;
      hide Build, SetValue, Sub;
      BuildLast(entries);
      SubBuild(front, path);
      var s := Build(map[], front);
      if path < last.path {
        SetUnder(s, last, path);
        BuildMore(Under(front, path), Entry(last.path[|path|..], last.value));
      } else {
        SetNotUnder(s, last, path);
        NothingBuilt();
      }
    }
  }

  lemma NothingBuilt()
    ensures Build(map[], []) == map[]
  {
  }

  lemma {:induction false} UnderWritten(entries: seq<Entry>, path: Path)
    requires Written(entries)
    ensures Written(Under(entries, path))
    decreases |entries|
  {
    if entries != [] {
      var front, last := entries[..|entries| - 1], entries[|entries| - 1];
      assert last in entries && forall e | e in front :: e in entries;
      UnderWritten(front, path);
    }
  }

  lemma LeftIs(entries: seq<Entry>, path: Path)
    requires path != [] && Written(entries) && Left(entries, path).Some? && Left(entries, path).value.Record?
    ensures var part := Under(entries[..LastBreak(entries, path)], path);
      Left(entries, path) == Some(Record(Build(map[], part))) && Written(part)
  {
    var front := entries[..LastBreak(entries, path)];
    assert Written(front) by { assert forall e | e in front :: e in entries; }
    hide LastBreak, Under, Build, ReadPath, Written;
    UnderWritten(front, path);
    SubBuild(front, path);
  }

  lemma RemainsIs(entries: seq<Entry>, path: Path)
    requires path != []
    ensures var n := LastBreak(entries, path); var part := Under(entries[..n], path);
      if n == 0 || Above(entries[n - 1], path) then Remains(entries, path) == None
      else Remains(entries, path) == Some(Record(Grown(part))) && Size(part) < Size(entries)
  {
    var n := LastBreak(entries, path);
    PrefixSize(entries, n);
    if n > 0 { assert entries[..n][n - 1] == entries[n - 1]; }
    hide LastBreak, Grown;
  }

  lemma HeldIs(entries: seq<Entry>, path: Path)
    requires path != []
    ensures Held(entries, path) == Appended(Remains(entries, path), Kept(entries, path))
  {
    hide Remains, Kept, Appended;
  }

  lemma KeyWritten(entries: seq<Entry>, key: string)
    ensures Held(entries, [key]).Some? ==> key in Keys(entries)
  {
    var path, n := [key], LastBreak(entries, [key]);
    HeldIs(entries, path);
    RemainsIs(entries, path);
    hide Remains, Held, LastBreak;
    if n > 0 && !Above(entries[n - 1], path) {
      assert entries[n - 1] in entries && entries[n - 1].path[0] == key;
    } else if Kept(entries, path) != [] {
      ValuesFrom(entries[n..], path);
      assert Kept(entries, path)[0] in Kept(entries, path);
      var e :| e in entries[n..] && e.path == path;
      assert e in entries && e.path[0] == key;
    }
  }

  lemma GrownAt(entries: seq<Entry>, key: string)
    ensures ReadPath(Grown(entries), [key]) == Held(entries, [key])
  {
    KeyWritten(entries, key);
    hide Held, Keys;
  }

  lemma SameTree(s: Settings, t: Settings)
    requires forall key :: ReadPath(s, [key]) == ReadPath(t, [key])
    ensures s == t
  {
    forall key ensures (key in s <==> key in t) && (key in s ==> s[key] == t[key]) {
      assert ReadPath(s, [key]) == ReadPath(t, [key]);
    }
  }

  /** The tree a file builds is the one its lines describe. */
  lemma {:induction false} BuildGrows(entries: seq<Entry>)
    requires Written(entries)
    ensures Build(map[], entries) == Grown(entries)
    decreases Size(entries), 1
  {
    hide *;
    forall key ensures ReadPath(Build(map[], entries), [key]) == ReadPath(Grown(entries), [key]) {
      LedThrough(entries, [key]);
      GrownAt(entries, key);
    }
    SameTree(Build(map[], entries), Grown(entries));
  }

  /** What a path holds after any file, from the lines alone: the values written since it was last broken, behind what
      the break left there, which is nothing after a line for a strict prefix and otherwise the record of the lines
      below the path. */
  lemma {:induction false} LedThrough(entries: seq<Entry>, path: Path)
    requires path != [] && Written(entries)
    ensures ReadPath(Build(map[], entries), path) == Held(entries, path) == Appended(Remains(entries, path), Kept(entries, path))
    ensures var n := LastBreak(entries, path); Remains(entries, path) == None <==> n == 0 || Above(entries[n - 1], path)
    ensures Remains(entries, path).Some? ==> Remains(entries, path).value.Record?
    decreases Size(entries), 0
  {
    hide *;
    BreakRead(entries, path);
    RemainsIs(entries, path);
    HeldIs(entries, path);
    if Left(entries, path).Some? {
      LeftIs(entries, path);
      BuildGrows(Under(entries[..LastBreak(entries, path)], path));
    }
  }

  /** A repeated key holds its values in order, a single one as it is and several as one list, exactly when no line for a
      strict prefix of it follows one of its values, and every line for a strict extension is followed by one for a
      strict prefix; or when the values that are lost spread out to just what the break left there. */
  lemma RepeatedKeys(entries: seq<Entry>, path: Path)
    requires path != [] && Written(entries)
    ensures ReadPath(Build(map[], entries), path) == Collected(ValuesAt(entries, path)) <==>
      Undisturbed(entries, path) || LossUnseen(entries, path)
  {
    hide *;
    LedThrough(entries, path);
    PartsMean(entries, path);
    OrderMeans(entries, path);
    ValuesOn(entries, LastBreak(entries, path), path);
    ValuesWritten(entries, LastBreak(entries, path), path);
    var left, lost, kept := Remains(entries, path), Lost(entries, path), Kept(entries, path);
    if lost == [] {
      assert lost + kept == kept;
      NothingLost(left, kept);
      UnseenLoses(left, lost, kept);
    } else {
      LossShows(left, lost, kept);
    }
  }

  /** So by order alone when every value shows: each is a single value, or a list that is not empty and holds no record. */
  lemma RepeatedKeysInOrder(entries: seq<Entry>, path: Path)
    requires path != [] && Written(entries) && forall e | e in entries && e.path == path :: Shows(e.value)
    ensures ReadPath(Build(map[], entries), path) == Collected(ValuesAt(entries, path)) <==> Undisturbed(entries, path)
  {
    hide *;
    RepeatedKeys(entries, path);
    LedThrough(entries, path);
    PartsMean(entries, path);
    ValuesOn(entries, LastBreak(entries, path), path);
    ValuesWritten(entries, LastBreak(entries, path), path);
    var left, lost, kept := Remains(entries, path), Lost(entries, path), Kept(entries, path);
    UnseenLoses(left, lost, kept);
    ValuesFrom(entries, path);
    if lost != [] {
      assert lost[0] in lost + kept;
      LossSeen(left, lost, kept);
    }
  }

  lemma UnseenLoses(left: Option<Tree>, lost: seq<Tree>, kept: seq<Tree>)
    ensures Unseen(left, lost, kept) ==> lost != []
  {
  }

  lemma LossSeen(left: Option<Tree>, lost: seq<Tree>, kept: seq<Tree>)
    requires lost != [] && Shows(lost[0]) && !lost[0].Record?
    requires left.Some? ==> left.value.Record?
    ensures !Unseen(left, lost, kept)
  {
    assert AsList(lost[0]) != [] && !AsList(lost[0])[0].Record?;
    assert Flat(lost)[0] == AsList(lost[0])[0];
  }

  /** Two lines are enough to lose a value: a key and one below it, in either order. */
  lemma LosesValue(a: string, b: string, x: Scalar, y: Scalar)
    ensures var up, down := Entry([a], Leaf(x)), Entry([a, b], Leaf(y));
      && ReadPath(Build(map[], [up, down]), [a]) != Collected(ValuesAt([up, down], [a]))
      && ReadPath(Build(map[], [down, up]), [a, b]) != Collected(ValuesAt([down, up], [a, b]))
  {
    var up, down := Entry([a], Leaf(x)), Entry([a, b], Leaf(y));
    assert [a] < [a, b] && !([a, b] < [a]);
    hide ReadPath, Build, Collected;
    assert [up, down][1].path == [a, b] && [up, down][1..] == [down] && [down, up][1..] == [up];
    RepeatedKeysInOrder([up, down], [a]);
    assert [down, up][0].path == [a, b] && [down, up][1].path == [a];
    RepeatedKeysInOrder([down, up], [a, b]);
  }

  /** The entries of every file qualify, when no unquoted value is typed as a record. */
  lemma {:induction false} EntriesWritten(lines: seq<string>, at: nat, section: Path, lower: Lower, typed: Typed)
    requires at <= |lines| && forall path, raw :: !typed(path, raw).Record?
    requires Entries(lines, at, section, lower, typed).Ok?
    ensures Written(Entries(lines, at, section, lower, typed).value)
    decreases |lines| - at
  {
    if at < |lines| {
      LineWritten(lines[at], section, lower, typed);
      hide ReadLine;
      EntriesWritten(lines, at + 1, ReadLine(lines[at], section, lower, typed).value.0, lower, typed);
    }
  }

  lemma LineWritten(line: string, section: Path, lower: Lower, typed: Typed)
    requires forall path, raw :: !typed(path, raw).Record?
    ensures var r := ReadLine(line, section, lower, typed); r.Ok? ==> Written(r.value.1)
  {
    hide Read, Trim, SplitKey, TrimValue;
  }

  /** So parsing gives the tree its lines describe, or the first error. */
  lemma ParseGrows(content: string, lower: Lower, typed: Typed)
    requires forall path, raw :: !typed(path, raw).Record?
    ensures Parse(content, lower, typed) ==
      match Entries(Split(content, '\n'), 0, [], lower, typed) case Err(e) => Err(e) case Ok(entries) => Ok(Grown(entries))
  {
    var entries := Entries(Split(content, '\n'), 0, [], lower, typed);
    hide Entries, Build, Grown, Split, Written;
    if entries.Ok? {
      EntriesWritten(Split(content, '\n'), 0, [], lower, typed);
      BuildGrows(entries.value);
    }
  }

  predicate Marker(value: string, i: int) { 1 <= i < |value| && value[i] in ";#" && value[i - 1] in " \t" }

  /** A trailing comment starts at the first marker that follows a blank, and nowhere else. */
  lemma {:induction false} CommentStart(value: string, from: nat)
    requires 1 <= from
    ensures var at := CommentAt(value, from);
      (at == |value| || Marker(value, at)) && forall i | from <= i < at :: !Marker(value, i)
    decreases |value| - from
  {
    if from < |value| && !Marker(value, from) { CommentStart(value, from + 1); }
  }

  lemma {:induction false} TrimEndKeeps(a: string, c: char, b: string)
    requires !IsSpace(c)
    ensures TrimEnd(a + [c] + b) == a + [c] + TrimEnd(b)
    decreases |b|
  {
    var s := a + [c] + b;
    if b == "" {
      assert s[|s| - 1] == c;
    } else {
      assert s[|s| - 1] == b[|b| - 1] && s[..|s| - 1] == a + [c] + b[..|b| - 1];
      TrimEndKeeps(a, c, b[..|b| - 1]);
    }
  }

  lemma QuotedTrim(quote: char, value: string, rest: string)
    requires quote in "\"'"
    ensures Trim([quote] + value + [quote] + rest) == [quote] + value + [quote] + TrimEnd(rest)
  {
    var raw := [quote] + value + [quote] + rest;
    assert !IsSpace(quote);
    TrimEndKeeps([quote] + value, quote, rest);
    assert raw[0] == quote;
    assert TrimStart(raw) == raw;
    hide IsSpace, TrimStart, TrimEnd;
    TrimIs(raw);
  }

  /** Quotes protect a value: whatever stands between them, comment markers and blanks included, is kept as text. */
  lemma QuotedIsText(quote: char, value: string, rest: string, path: Path, typed: Typed)
    requires quote in "\"'" && quote !in value
    ensures ParseValue(path, [quote] + value + [quote] + rest, typed) == Leaf(Text(value))
  {
    QuotedTrim(quote, value, rest);
    var kept := TrimEnd(rest);
    hide Trim, TrimEnd, Find, StripComment;
    var t := [quote] + value + [quote] + kept;
    assert t[1..] == value + [quote] + kept;
    FindAt(value, quote, kept);
    assert t[1..1 + |value|] == value;
  }
}

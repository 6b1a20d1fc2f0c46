/** What a line of an INI file does, from its characters alone, tools/utilities/ini.ts. */
module IniAnswers {
  import opened Common
  import opened Texts
  import opened SettingsTree
  import opened Ini

  predicate BlankOrComment(text: string) { text == "" || text[0] in ";#" }

  /** The entries of line `at` in front of the others, or the first error. */
  function Then(first: seq<Entry>, others: Result<seq<Entry>, IniError>): Result<seq<Entry>, IniError> {
    match others case Err(e) => Err(e) case Ok(rest) => Ok(first + rest)
  }

  lemma EntriesAt(lines: seq<string>, at: nat, section: Path, lower: Lower, typed: Typed)
    requires at < |lines|
    ensures Entries(lines, at, section, lower, typed) ==
      match ReadLine(lines[at], section, lower, typed)
      case Err(problem) => Err(IniError(at + 1, problem))
      case Ok((next, found)) => Then(found, Entries(lines, at + 1, next, lower, typed))
  {
    hide ReadLine;
  }

  lemma ThenNothing(others: Result<seq<Entry>, IniError>)
    ensures Then([], others) == others
  {
    if others.Ok? { assert [] + others.value == others.value; }
  }

  lemma HeaderReads(text: string, name: string, rest: string)
    requires text == "[" + name + "]" + rest && ']' !in name
    ensures Ini.Read(text) == if BlankOrComment(Trim(rest)) then Header(name) else Bad(AfterHeader)
  {
    var front := "[" + name;
    assert text == front + [']'] + rest;
    assert ']' !in front;
    FindAt(front, ']', rest);
    hide Trim, Find;
    assert text[0] == '[';
    assert text[|front| + 1..] == rest && text[1..|front|] == name;
  }

  // ---- main results ----

  /** A section header puts the lines after it under the path of what stands between its brackets, whatever section was in
      force before; a bracket that is not closed, or text after it that is no comment, is an error of that line. */
  lemma HeaderLine(lines: seq<string>, at: nat, section: Path, name: string, rest: string, lower: Lower, typed: Typed)
    requires at < |lines| && Trim(lines[at]) == "[" + name + "]" + rest && ']' !in name
    ensures Entries(lines, at, section, lower, typed) ==
      if BlankOrComment(Trim(rest)) then Entries(lines, at + 1, SplitKey(name, lower), lower, typed)
      else Err(IniError(at + 1, AfterHeader))
  {
    EntriesAt(lines, at, section, lower, typed);
    HeaderReads(Trim(lines[at]), name, rest);
    hide Entries, Ini.Read, Trim, SplitKey, Then;
    ThenNothing(Entries(lines, at + 1, SplitKey(name, lower), lower, typed));
  }

  lemma OpenHeaderLine(lines: seq<string>, at: nat, section: Path, lower: Lower, typed: Typed)
    requires at < |lines| && Trim(lines[at]) != "" && Trim(lines[at])[0] == '[' && ']' !in Trim(lines[at])
    ensures Entries(lines, at, section, lower, typed) == Err(IniError(at + 1, Unterminated))
  {
    EntriesAt(lines, at, section, lower, typed);
    FindNone(Trim(lines[at]), ']');
    hide Entries, Trim, Find;
  }

  /** A blank line or a comment does nothing. */
  lemma IdleLine(lines: seq<string>, at: nat, section: Path, lower: Lower, typed: Typed)
    requires at < |lines| && BlankOrComment(Trim(lines[at]))
    ensures Entries(lines, at, section, lower, typed) == Entries(lines, at + 1, section, lower, typed)
  {
    EntriesAt(lines, at, section, lower, typed);
    hide Entries, Trim, Then;
    ThenNothing(Entries(lines, at + 1, section, lower, typed));
  }

  /** Any other line without an equals sign is an error of that line. */
  lemma BareLine(lines: seq<string>, at: nat, section: Path, lower: Lower, typed: Typed)
    requires at < |lines| && !BlankOrComment(Trim(lines[at])) && Trim(lines[at])[0] != '[' && '=' !in Trim(lines[at])
    ensures Entries(lines, at, section, lower, typed) == Err(IniError(at + 1, NoSeparator))
  {
    EntriesAt(lines, at, section, lower, typed);
    FindNone(Trim(lines[at]), '=');
    hide Entries, Trim, Find;
  }

  /** And with one it is an entry: the key stands before the first equals sign, under the section in force, and the value
      after it; a key of no segment is an error of that line. */
  lemma PairLine(lines: seq<string>, at: nat, section: Path, key: string, raw: string, lower: Lower, typed: Typed)
    requires at < |lines| && Trim(lines[at]) == key + "=" + raw && '=' !in key && (key == "" || key[0] !in "[;#")
    ensures var path := section + SplitKey(key, lower);
      Entries(lines, at, section, lower, typed) ==
        if SplitKey(key, lower) == [] then Err(IniError(at + 1, NoKey))
        else Then([Entry(path, ParseValue(path, raw, typed))], Entries(lines, at + 1, section, lower, typed))
  {
    EntriesAt(lines, at, section, lower, typed);
    PairReads(Trim(lines[at]), key, raw);
    hide Entries, Ini.Read, Trim, SplitKey, Then, ParseValue;
  }

  lemma PairReads(text: string, key: string, raw: string)
    requires text == key + "=" + raw && '=' !in key && (key == "" || key[0] !in "[;#")
    ensures Ini.Read(text) == Pair(key, raw)
  {
    assert text == key + ['='] + raw;
    if key == "" { assert text[0] == '='; } else { assert text[0] == key[0]; }
    FindAt(key, '=', raw);
    hide Trim, Find;
    assert text[..|key|] == key && text[|key| + 1..] == raw;
  }

  /** A key without dots is one segment, trimmed and lowered, or none when nothing is left of it. */
  lemma PlainKey(key: string, lower: Lower)
    requires '.' !in key
    ensures SplitKey(key, lower) == if lower(Trim(key)) == "" then [] else [lower(Trim(key))]
  {
    SplitNone(key, '.');
    hide Trim, Split;
    assert [key][1..] == [] && Segments([], lower) == [];
    assert Segments([key], lower) == if lower(Trim(key)) == "" then [] else [lower(Trim(key))] + [];
  }

  lemma {:induction false} SplitNone(s: string, c: char)
    requires c !in s
    ensures Split(s, c) == [s]
    decreases |s|
  {
    if s != "" {
      assert s[0] in s && forall x | x in s[1..] :: x in s;
      SplitNone(s[1..], c);
      assert [s[0]] + s[1..] == s;
    }
  }

  /** A value without quotes around it is typed from what stands before its comment, which starts at the first marker behind a blank. */
  lemma UnquotedIsTyped(path: Path, raw: string, at: nat, typed: Typed)
    requires Trim(raw) == "" || Trim(raw)[0] !in "\"'" || Trim(raw)[0] !in Trim(raw)[1..]
    requires at <= |Trim(raw)| && (at == |Trim(raw)| || Marker(Trim(raw), at)) && forall i | 1 <= i < at :: !Marker(Trim(raw), i)
    ensures ParseValue(path, raw, typed) == typed(path, Trim(Trim(raw)[..at]))
  {
    var value := Trim(raw);
    hide Trim;
    if value == "" {
      NoText();
    } else {
      CommentStart(value, 1);
      if value[0] !in value[1..] { FindNone(value[1..], value[0]); }
    }
  }

  lemma NoText()
    ensures Trim("") == ""
  {
  }

  /** The same key again appends to what is there, lists spread out. */
  lemma AppendsTo(path: Path, items: seq<Tree>, x: Scalar, y: Scalar)
    requires path != []
    ensures ReadPath(Build(map[], [Entry(path, Leaf(x)), Entry(path, Leaf(y))]), path) == Some(List([Leaf(x), Leaf(y)]))
    ensures ReadPath(Build(map[], [Entry(path, List(items)), Entry(path, Leaf(y))]), path) == Some(List(items + [Leaf(y)]))
    ensures ReadPath(Build(map[], [Entry(path, Leaf(x)), Entry(path, List(items))]), path) == Some(List([Leaf(x)] + items))
  {
    Twice(path, Leaf(x), Leaf(y));
    Twice(path, List(items), Leaf(y));
    Twice(path, Leaf(x), List(items));
    hide Build, ReadPath;
    assert [Leaf(x)] + [Leaf(y)] == [Leaf(x), Leaf(y)];
  }

  lemma Twice(path: Path, x: Tree, y: Tree)
    requires path != []
    ensures ReadPath(Build(map[], [Entry(path, x), Entry(path, y)]), path) == Some(List(AsList(x) + AsList(y)))
  {
    var a, b := Entry(path, x), Entry(path, y);
    var s := SetValue(map[], a);
    BuildOne(map[], a);
    BuildOne(s, b);
    BuildOn(map[], [a], [b]);
    assert [a] + [b] == [a, b];
    SetReads(map[], a, path);
    SetReads(s, b, path);
    assert ReadPath(map[], path) == None;
    hide Build, ReadPath, SetValue;
  }
}

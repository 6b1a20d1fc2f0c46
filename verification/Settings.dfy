/** Settings trees and their key paths, tools/utilities/values.ts. */
module SettingsTree {
  import opened Common
  import opened Texts

  datatype Scalar = Text(text: string) | Number(number: real) | Flag(flag: bool) | Null

  datatype Tree = Leaf(scalar: Scalar) | List(items: seq<Tree>) | Record(fields: map<string, Tree>)

  type Settings = map<string, Tree>
  type Path = seq<string>

  /** An empty path names the whole tree. */
  function ReadPath(s: Settings, path: Path): Option<Tree>
    decreases |path|
  {
    if path == [] then Some(Record(s))
    else if path[0] !in s then None
    else if |path| == 1 then Some(s[path[0]])
    else if s[path[0]].Record? then ReadPath(s[path[0]].fields, path[1..])
    else None
  }

  function Child(s: Settings, key: string): Settings { if key in s && s[key].Record? then s[key].fields else map[] }

  function WritePath(s: Settings, path: Path, value: Tree): Settings
    decreases |path|
  {
    if path == [] then s
    else if |path| == 1 then s[path[0] := value]
    else s[path[0] := Record(WritePath(Child(s, path[0]), path[1..], value))]
  }

  /** Neither path leads through the other. */
  predicate Diverge(p: Path, q: Path) { !(p <= q) && !(q <= p) }

  lemma {:induction false} WriteRead(s: Settings, path: Path, value: Tree)
    requires path != []
    ensures ReadPath(WritePath(s, path, value), path) == Some(value)
    decreases |path|
  {
    if |path| > 1 { WriteRead(Child(s, path[0]), path[1..], value); }
  }

  /** Writing one path leaves every path that diverges from it as it was. */
  lemma {:induction false} WriteFrame(s: Settings, path: Path, value: Tree, other: Path)
    requires Diverge(path, other)
    ensures ReadPath(WritePath(s, path, value), other) == ReadPath(s, other)
    decreases |path|
  {
    if path[0] == other[0] {
      assert (|path| == 1 ==> path <= other) && (|other| == 1 ==> other <= path);
      assert Diverge(path[1..], other[1..]) by {
        assert path == [path[0]] + path[1..] && other == [other[0]] + other[1..];
      }
      WriteFrame(Child(s, path[0]), path[1..], value, other[1..]);
      ChildRead(s, other);
    }
  }

  lemma ChildRead(s: Settings, path: Path)
    requires |path| > 1
    ensures ReadPath(s, path) == ReadPath(Child(s, path[0]), path[1..])
  {
  }

  // ---- merging ----

  function Merge(target: Settings, source: Settings): Settings { MergeFields(target, Record(source)) }

  function MergeFields(target: Settings, source: Tree): (r: Settings)
    requires source.Record?
    ensures r.Keys == target.Keys + source.fields.Keys
    decreases source, 0
  {
    map key | key in target.Keys + source.fields.Keys ::
      if key !in source.fields then target[key] else MergeField(target, key, source.fields[key])
  }

  function MergeField(target: Settings, key: string, value: Tree): Tree
    decreases value, 1
  {
    if key in target && target[key].Record? && value.Record? then Record(MergeFields(target[key].fields, value)) else value
  }

  /** What a merged tree holds at one key. */
  function Merged(target: Settings, source: Settings, key: string): Tree
    requires key in target || key in source
  {
    if key !in source then target[key]
    else if key in target && target[key].Record? && source[key].Record?
      then Record(Merge(target[key].fields, source[key].fields))
    else source[key]
  }

  lemma MergeAt(target: Settings, source: Settings)
    ensures Merge(target, source).Keys == target.Keys + source.Keys
    ensures forall key | key in target.Keys + source.Keys :: Merge(target, source)[key] == Merged(target, source, key)
  {
    forall key | key in target.Keys + source.Keys ensures Merge(target, source)[key] == Merged(target, source, key) {
      if key in source {
        assert Merge(target, source)[key] == MergeField(target, key, source[key]);
        if source[key].Record? { assert Record(source[key].fields) == source[key]; }
      }
    }
  }

  /** `merged` after the keys in `done`. */
  ghost predicate Partly(target: Settings, source: Settings, merged: Settings, done: set<string>) {
    && merged.Keys == target.Keys + done
    && (forall key | key in done && key in source :: merged[key] == Merged(target, source, key))
    && (forall key | key in target && key !in done :: merged[key] == target[key])
  }

  lemma AllDone(target: Settings, source: Settings, merged: Settings)
    requires Partly(target, source, merged, source.Keys)
    ensures merged == Merge(target, source)
  {
    MergeAt(target, source);
  }

  lemma Untouched(target: Settings, source: Settings, merged: Settings, done: set<string>, key: string)
    requires Partly(target, source, merged, done) && key !in done
    ensures key in merged <==> key in target
    ensures key in target ==> merged[key] == target[key]
  {
  }

  lemma OneDone(target: Settings, source: Settings, merged: Settings, done: set<string>, key: string)
    requires Partly(target, source, merged, done) && key in source
    ensures Partly(target, source, merged[key := Merged(target, source, key)], done + {key})
  {
    hide Merged;
  }

  /** The loop over the entries of `source`, in whatever order they come. */
  method MergeSettings(target: Settings, source: Settings) returns (merged: Settings)
    ensures merged == Merge(target, source)
    decreases Record(source), 0
  {
    merged := target;
    var left := source.Keys;
    ghost var done: set<string> := {};
    while left != {}
      invariant left == source.Keys - done && done <= source.Keys && Partly(target, source, merged, done)
      decreases left
    {
      hide Merge, Merged, Partly;
      var key :| key in left;
      Smaller(source, key);
      Untouched(target, source, merged, done, key);
      OneDone(target, source, merged, done, key);
      var value := MergeOne(target, source, key);
      merged := merged[key := value];
      left, done := left - {key}, done + {key};
    }
    assert done == source.Keys;
    AllDone(target, source, merged);
  }

  lemma Smaller(source: Settings, key: string)
    requires key in source
    ensures source[key] < Record(source)
  {
  }

  /** The body of that loop; `target` still holds its own value at `key`. */
  method MergeOne(target: Settings, source: Settings, key: string) returns (value: Tree)
    requires key in source && source[key] < Record(source)
    ensures value == Merged(target, source, key)
    decreases source[key], 1
  {
    value := source[key];
    if key in target && target[key].Record? && value.Record? {
      var nested := MergeSettings(target[key].fields, value.fields);
      value := Record(nested);
    }
  }

  ghost predicate BothRecords(t: Settings, s: Settings, path: Path) {
    var x, y := ReadPath(t, path), ReadPath(s, path);
    x.Some? && y.Some? && x.value.Record? && y.value.Record?
  }

  lemma ChildBoth(t: Settings, s: Settings, path: Path, i: nat)
    requires 0 < i <= |path| && BothRecords(t, s, path[..1])
    ensures path[0] in t && path[0] in s && t[path[0]].Record? && s[path[0]].Record?
    ensures BothRecords(t, s, path[..i]) <==> BothRecords(t[path[0]].fields, s[path[0]].fields, path[1..][..i - 1])
    ensures Merge(t, s)[path[0]] == Record(Merge(t[path[0]].fields, s[path[0]].fields))
  {
    assert path[..i][1..] == path[1..][..i - 1] && path[..i][0] == path[0];
    MergeAt(t, s);
  }

  /** After a merge, a path is answered by the overlay from the first segment where it is not record over record,
      if the overlay has anything there, and otherwise by the earlier tree. */
  lemma {:induction false} MergeAnswers(t: Settings, s: Settings, path: Path, first: nat)
    requires first <= |path| && !BothRecords(t, s, path[..first])
    requires forall i | 0 <= i < first :: BothRecords(t, s, path[..i])
    ensures ReadPath(Merge(t, s), path) == if ReadPath(s, path[..first]).Some? then ReadPath(s, path) else ReadPath(t, path)
    decreases |path|
  {
    MergeAt(t, s);
    hide Merge;
    assert path[..0] == [];
    assert first > 0 && path[..first][0] == path[0];
    if first == 1 {
      assert path[..1] == [path[0]];
    } else {
      assert BothRecords(t, s, path[..1]);
      var k, rest := path[0], path[1..];
      ChildBoth(t, s, path, first);
      forall i | 0 <= i < first - 1 ensures BothRecords(t[k].fields, s[k].fields, rest[..i]) {
        assert BothRecords(t, s, path[..i + 1]);
        ChildBoth(t, s, path, i + 1);
      }
      MergeAnswers(t[k].fields, s[k].fields, rest, first - 1);
      assert path[..first][1..] == rest[..first - 1];
    }
  }

  /** Where both trees hold a record, the merged tree holds the merged record. */
  lemma {:induction false} MergeRecords(t: Settings, s: Settings, path: Path)
    requires forall i | 0 <= i <= |path| :: BothRecords(t, s, path[..i])
    ensures BothRecords(t, s, path)
    ensures ReadPath(Merge(t, s), path) ==
      Some(Record(Merge(ReadPath(t, path).value.fields, ReadPath(s, path).value.fields)))
    decreases |path|
  {
    assert path[..|path|] == path;
    if path != [] {
      assert BothRecords(t, s, path[..1]);
      var k, rest := path[0], path[1..];
      ChildBoth(t, s, path, 1);
      forall i | 0 <= i <= |rest| ensures BothRecords(t[k].fields, s[k].fields, rest[..i]) {
        assert BothRecords(t, s, path[..i + 1]);
        ChildBoth(t, s, path, i + 1);
      }
      MergeRecords(t[k].fields, s[k].fields, rest);
    }
  }
}

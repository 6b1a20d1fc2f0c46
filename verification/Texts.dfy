/** Splitting text, as String.split and String.trim do. */
module Texts {
  import opened Common

  /** The white space of String.prototype.trim and of `\s` in a pattern. */
  predicate IsSpace(c: char) { IsSpaceCode(c as int) }

  predicate IsSpaceCode(n: int) {
    9 <= n <= 13 || n == 0x20 || n == 0xA0 || n == 0x1680 || 0x2000 <= n <= 0x200A || n == 0x2028 || n == 0x2029 ||
    n == 0x202F || n == 0x205F || n == 0x3000 || n == 0xFEFF
  }

  function TrimStart(s: string): (r: string)
    ensures |r| <= |s| && (r != "" ==> !IsSpace(r[0]))
  {
    if s != "" && IsSpace(s[0]) then TrimStart(s[1..]) else s
  }

  function TrimEnd(s: string): (r: string)
    ensures r <= s && (r != "" ==> !IsSpace(r[|r| - 1]))
    decreases |s|
  {
    if s != "" && IsSpace(s[|s| - 1]) then TrimEnd(s[..|s| - 1]) else s
  }

  function Trim(s: string): string { TrimEnd(TrimStart(s)) }

  lemma Trimmed(s: string)
    requires s != "" ==> !IsSpace(s[0]) && !IsSpace(s[|s| - 1])
    ensures Trim(s) == s
  {
  }

  lemma TrimTwice(s: string)
    ensures Trim(Trim(s)) == Trim(s)
  {
    var r := Trim(s);
    if r != "" { assert r[0] == TrimStart(s)[0]; }
    Trimmed(r);
  }

  /** String.indexOf; the length when there is none. */
  function Find(s: string, c: char): (i: nat)
    ensures i <= |s| && (i < |s| ==> s[i] == c) && c !in s[..i]
  {
    if s == "" || s[0] == c then 0 else
    assert s[..1 + Find(s[1..], c)] == [s[0]] + s[1..][..Find(s[1..], c)];
    1 + Find(s[1..], c)
  }

  lemma {:induction false} FindAt(a: string, c: char, b: string)
    requires c !in a
    ensures Find(a + [c] + b, c) == |a|
    decreases |a|
  {
    var s := a + [c] + b;
    if a != "" {
      assert a[0] in a && forall x | x in a[1..] :: x in a;
      assert s[1..] == a[1..] + [c] + b;
      FindAt(a[1..], c, b);
    }
  }

  lemma FindNone(s: string, c: char)
    requires c !in s
    ensures Find(s, c) == |s|
  {
    assert forall i | 0 <= i < |s| :: s[i] in s;
  }

  function Split(s: string, sep: char): (r: seq<string>)
    ensures r != []
  {
    if s == "" then [""] else
    var rest := Split(s[1..], sep);
    if s[0] == sep then [""] + rest else [[s[0]] + rest[0]] + rest[1..]
  }

  function Join(parts: seq<string>, sep: char): string {
    if parts == [] then "" else if |parts| == 1 then parts[0] else parts[0] + [sep] + Join(parts[1..], sep)
  }

  lemma {:induction false} SplitWhole(s: string, sep: char)
    requires sep !in s
    ensures Split(s, sep) == [s]
    decreases |s|
  {
    if s != "" {
      assert s[0] in s && forall x | x in s[1..] :: x in s;
      SplitWhole(s[1..], sep);
      assert s == [s[0]] + s[1..];
    }
  }

  lemma {:induction false} SplitAt(a: string, sep: char, b: string)
    ensures Split(a + [sep] + b, sep) == Split(a, sep) + Split(b, sep)
    decreases |a|
  {
    var s := a + [sep] + b;
    if a == "" {
      assert s == [sep] + b && s[1..] == b;
    } else {
      assert s[1..] == a[1..] + [sep] + b;
      SplitAt(a[1..], sep, b);
    }
  }

  lemma {:induction false} SplitJoin(parts: seq<string>, sep: char)
    requires parts != [] && forall p | p in parts :: sep !in p
    ensures Split(Join(parts, sep), sep) == parts
    decreases |parts|
  {
    assert parts[0] in parts;
    SplitWhole(parts[0], sep);
    if |parts| > 1 {
      assert forall p | p in parts[1..] :: p in parts;
      SplitJoin(parts[1..], sep);
      SplitAt(parts[0], sep, Join(parts[1..], sep));
    }
  }
}

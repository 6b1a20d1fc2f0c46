/** Values shared by the codec models. */
module Common {
  datatype Option<+T> = None | Some(value: T)
  datatype Result<+T, +E> = Ok(value: T) | Err(error: E)

  type byte = x: int | 0 <= x < 256
  type Bytes = seq<byte>

  ghost predicate Increasing(s: seq<int>) { forall i, j | 0 <= i < j < |s| :: s[i] < s[j] }

  /** `part` stands in `b` at `at`. */
  ghost predicate Holds<T>(b: seq<T>, at: int, part: seq<T>) {
    0 <= at <= at + |part| <= |b| && b[at..at + |part|] == part
  }

  lemma HoldsParts<T>(b: seq<T>, at: int, x: seq<T>, y: seq<T>)
    requires Holds(b, at, x + y)
    ensures Holds(b, at, x) && Holds(b, at + |x|, y)
  {
    var part := b[at..at + |x| + |y|];
    assert part == x + y;
    assert part[..|x|] == x && part[|x|..] == y;
    assert b[at..at + |x|] == part[..|x|];
    assert b[at + |x|..at + |x| + |y|] == part[|x|..];
  }

  lemma HoldsWhole<T>(before: seq<T>, part: seq<T>, after: seq<T>)
    ensures Holds(before + part + after, |before|, part)
  {
    assert (before + part + after)[|before|..|before| + |part|] == part;
  }
}

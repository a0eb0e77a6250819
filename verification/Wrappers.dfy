/** The optional value every module shares, and a few facts about lists. */
module Wrappers {
  /** Python's `None` against a value. */
  datatype Option<+T> = None | Some(value: T) {
    function GetOr(default: T): T {
      match this
      case Some(v) => v
      case None => default
    }
  }

  /** The two sides of a concatenation. */
  lemma Cut<T>(a: seq<T>, b: seq<T>)
    ensures (a + b)[..|a|] == a && (a + b)[|a|..] == b
  {
  }

  lemma CutFirst<T>(x: T, rest: seq<T>)
    ensures ([x] + rest)[0] == x && ([x] + rest)[1..] == rest
  {
  }

  lemma CutLast<T>(front: seq<T>, x: T)
    ensures (front + [x])[|front|] == x && (front + [x])[..|front|] == front
  {
  }

  predicate Distinct<T(==)>(s: seq<T>) {
    forall i, j | 0 <= i < j < |s| :: s[i] != s[j]
  }

  lemma DistinctFirst<T>(s: seq<T>)
    requires s != []
    ensures Distinct(s) <==> s[0] !in s[1..] && Distinct(s[1..])
  {
    var first, rest := s[0], s[1..];
    assert s == [first] + rest;
    if first !in rest && Distinct(rest) {
      forall i, j | 0 <= i < j < |s| ensures s[i] != s[j] {
        assert s[j] == rest[j - 1] && rest[j - 1] in rest;
        if i > 0 { assert s[i] == rest[i - 1]; }
      }
    }
    if Distinct(s) {
      forall i | 0 <= i < |rest| ensures rest[i] != first { assert rest[i] == s[i + 1]; }
    }
  }
}

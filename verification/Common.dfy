/** Small types and predicates shared by the models. */
module Common {

  // nanoseconds in a second and in a millisecond
  const NS: int := 1_000_000_000
  const MS: int := 1_000_000

  datatype Option<+T> = None | Some(value: T) {
    function GetOr(default: T): T {
      match this
      case Some(v) => v
      case None => default
    }
  }

  ghost predicate Distinct<T>(s: seq<T>) {
    forall i, j :: 0 <= i < j < |s| ==> s[i] != s[j]
  }

  /** a can be obtained from b by leaving elements out. */
  ghost predicate Subsequence<T>(a: seq<T>, b: seq<T>)
    decreases |b|
  {
    || a == []
    || (b != [] && Subsequence(a, b[1..]))
    || (b != [] && a[0] == b[0] && Subsequence(a[1..], b[1..]))
  }

  lemma Assoc<T>(a: seq<T>, b: seq<T>, c: seq<T>)
    ensures (a + b) + c == a + (b + c)
  {
  }

  lemma Uncons<T>(a: seq<T>, b: seq<T>)
    requires a != []
    ensures a + b != [] && (a + b)[0] == a[0] && (a + b)[1..] == a[1..] + b
  {
  }

  lemma {:induction false} SubsequenceAppend<T>(a: seq<T>, b: seq<T>, x: T)
    requires Subsequence(a, b)
    ensures Subsequence(a, b + [x]) && Subsequence(a + [x], b + [x])
    decreases |b|
  {
    if b == [] {
      assert a + [x] == [x] && b + [x] == [x];
    } else {
      Uncons(b, [x]);
      if Subsequence(a, b[1..]) {
        SubsequenceAppend(a, b[1..], x);
      } else {
        Uncons(a, [x]);
        SubsequenceAppend(a[1..], b[1..], x);
      }
    }
  }
}

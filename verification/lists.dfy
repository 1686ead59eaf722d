/**
 * Order-preserving subsequences, the shape of every list the pages derive
 * from the fetched jobs with `Array.prototype.filter`.
 */
module Lists {

  /** `a` is `b` with some entries dropped and the rest kept in order. */
  predicate SubsequenceOf<T(==)>(a: seq<T>, b: seq<T>)
    decreases |b|
  {
    if b == [] then a == []
    else (a != [] && a[0] == b[0] && SubsequenceOf(a[1..], b[1..])) || SubsequenceOf(a, b[1..])
  }

  /** A subsequence is no longer than the sequence, and holds only its entries. */
  lemma {:induction false} SubsequenceBounds<T>(a: seq<T>, b: seq<T>)
    requires SubsequenceOf(a, b)
    ensures |a| <= |b|
    ensures forall x :: x in a ==> x in b
    decreases |b|
  {
    if b != [] {
      if a != [] && a[0] == b[0] && SubsequenceOf(a[1..], b[1..]) {
        SubsequenceBounds(a[1..], b[1..]);
        assert a == [a[0]] + a[1..];
        assert b == [b[0]] + b[1..];
      } else {
        SubsequenceBounds(a, b[1..]);
        assert b == [b[0]] + b[1..];
      }
    }
  }
}

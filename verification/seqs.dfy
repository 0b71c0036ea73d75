/** Small facts about sequence concatenation, stated once so that the
    proofs can name the step they take instead of asking the solver to
    rediscover it on large terms. */
module Seqs {
  lemma SplitHead<T>(a: seq<T>, b: seq<T>)
    requires |a| > 0
    ensures a + b == [a[0]] + (a[1..] + b)
  {
  }

  lemma AppendAssoc<T>(a: seq<T>, b: seq<T>, c: seq<T>)
    ensures (a + b) + c == a + (b + c)
  {
  }

  lemma AppendEmpty<T>(a: seq<T>)
    ensures [] + a == a
  {
  }

  /** Position `i` of a list is position `i - 1` of its tail. */
  lemma TailAt<T>(xs: seq<T>)
    requires |xs| > 0
    ensures forall i :: 1 <= i < |xs| ==> xs[i] == xs[1..][i - 1]
  {
  }

  /** Position `i` of `[x] + rest` is position `i - 1` of `rest`. */
  lemma ConsAt<T>(x: T, rest: seq<T>)
    ensures ([x] + rest)[0] == x && forall i :: 1 <= i <= |rest| ==> ([x] + rest)[i] == rest[i - 1]
  {
  }

  lemma FiveThen<T>(a: T, b: T, c: T, d: T, e: T, rest: seq<T>)
    ensures [a, b, c, d, e] + rest == [a] + ([b] + ([c] + ([d] + ([e] + rest))))
  {
  }
}

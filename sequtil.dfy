/** Order-preserving selection from a sequence, used for `filter` results. */
module SeqUtil {

  /** `s` can be obtained from `t` by deleting elements, keeping relative order. */
  predicate Subsequence<T(==)>(s: seq<T>, t: seq<T>)
    decreases |t|
  {
    if s == [] then true
    else if t == [] then false
    else if s[0] == t[0] then Subsequence(s[1..], t[1..])
    else Subsequence(s, t[1..])
  }

  /** An element in front of `t` may always be skipped. */
  lemma {:induction false} SubsequenceSkipHead<T>(x: T, s: seq<T>, t: seq<T>)
    requires Subsequence(s, t)
    ensures Subsequence(s, [x] + t)
    decreases |t|, 1
  {
    assert ([x] + t)[1..] == t;
    if s != [] && s[0] == x {
      SubsequenceDropHead(s, t);
    }
  }

  /** Dropping the first element of a subsequence keeps it a subsequence. */
  lemma {:induction false} SubsequenceDropHead<T>(s: seq<T>, t: seq<T>)
    requires s != [] && Subsequence(s, t)
    ensures Subsequence(s[1..], t)
    decreases |t|, 0
  {
    assert t == [t[0]] + t[1..];
    if s[0] == t[0] {
      SubsequenceSkipHead(t[0], s[1..], t[1..]);
    } else {
      SubsequenceDropHead(s, t[1..]);
      SubsequenceSkipHead(t[0], s[1..], t[1..]);
    }
  }
}

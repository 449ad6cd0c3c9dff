/** Shared value types. */
module Prelude {

  datatype Option<+T> = None | Some(value: T)

  /** The value stored at a key, if any. */
  function Lookup<K, V>(m: map<K, V>, k: K): Option<V> {
    if k in m then Some(m[k]) else None
  }

  /** A map with `k` set to `v`, or without `k` when there is no value. */
  function Put<K, V>(m: map<K, V>, k: K, v: Option<V>): map<K, V> {
    match v
    case Some(x) => m[k := x]
    case None => m - {k}
  }

  lemma PutChangesOneKey<K, V>(m: map<K, V>, k: K, v: Option<V>)
    ensures Lookup(Put(m, k, v), k) == v && Put(m, k, v) - {k} == m - {k}
  {
  }

  lemma FirstMark(mark: char, a: string, b: string)
    requires mark !in a
    ensures var s := a + [mark] + b;
            s[|a|] == mark && (forall i | 0 <= i < |a| :: s[i] != mark) && s[..|a|] == a && s[|a| + 1..] == b
  {
    assert forall i | 0 <= i < |a| :: a[i] in a;
  }

  /** A text is cut in one way at the first occurrence of a mark. */
  lemma SplitAtMark(mark: char, a: string, b: string, a': string, b': string)
    requires mark !in a && mark !in a' && a + [mark] + b == a' + [mark] + b'
    ensures a == a' && b == b'
  {
    FirstMark(mark, a, b);
    FirstMark(mark, a', b');
  }
}

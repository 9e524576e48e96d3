/**
 * Small facts about sequences, stated for any element type so that the
 * solver does not look inside the elements (lists of lines and of tokens
 * are sequences of sequences).
 */
module Seqs {
  lemma TakeAppend<T>(s: seq<T>, t: seq<T>)
    ensures (s + t)[..|s|] == s && (s + t)[|s|..] == t
  {
  }

  lemma SplitLast<T>(s: seq<T>)
    requires |s| > 0
    ensures s[..|s| - 1] + [s[|s| - 1]] == s
  {
  }

  lemma SplitFirst<T>(s: seq<T>)
    requires |s| > 0
    ensures [s[0]] + s[1..] == s
  {
  }

  lemma AppendAssoc<T>(a: seq<T>, b: seq<T>, c: seq<T>)
    ensures (a + b) + c == a + (b + c)
  {
  }

  lemma DropLastOfAppend<T>(a: seq<T>, b: seq<T>)
    requires |b| > 0
    ensures (a + b)[..|a + b| - 1] == a + b[..|b| - 1] && (a + b)[|a + b| - 1] == b[|b| - 1]
  {
  }

  lemma TailOfAppend<T>(a: seq<T>, b: seq<T>)
    requires |a| > 0
    ensures (a + b)[1..] == a[1..] + b
  {
  }

  lemma UpdateLast<T>(s: seq<T>, v: T)
    requires |s| > 0
    ensures s[|s| - 1 := v] == s[..|s| - 1] + [v]
  {
  }

  lemma PrefixGrow<T>(s: seq<T>, t: seq<T>, k: nat)
    requires k < |s| && k < |t| && s[..k] == t[..k] && s[k] == t[k]
    ensures s[..k + 1] == t[..k + 1]
  {
    assert s[..k + 1] == s[..k] + [s[k]];
    assert t[..k + 1] == t[..k] + [t[k]];
  }

  lemma SuffixGrow<T>(s: seq<T>, t: seq<T>, m: nat, n: nat)
    requires 0 < m <= |s| && 0 < n <= |t| && s[m..] == t[n..] && s[m - 1] == t[n - 1]
    ensures s[m - 1..] == t[n - 1..]
  {
    assert s[m - 1..] == [s[m - 1]] + s[m..];
    assert t[n - 1..] == [t[n - 1]] + t[n..];
  }

  /** The concatenation of `f(x)` for each `x` of `s`, in order. */
  function FlatMap<T, U>(f: T -> seq<U>, s: seq<T>): (r: seq<U>) {
    if |s| == 0 then [] else f(s[0]) + FlatMap(f, s[1..])
  }

  lemma {:induction false} FlatMapAppend<T, U>(f: T -> seq<U>, a: seq<T>, b: seq<T>)
    ensures FlatMap(f, a + b) == FlatMap(f, a) + FlatMap(f, b)
  {
    if |a| == 0 {
      assert a + b == b;
    } else {
      assert (a + b)[1..] == a[1..] + b;
      FlatMapAppend(f, a[1..], b);
    }
  }

  lemma FlatMapSingle<T, U>(f: T -> seq<U>, x: T)
    ensures FlatMap(f, [x]) == f(x)
  {
    assert [x][1..] == [];
  }
}

/**
 * `GreedyMatch` (cmd/godiff.go:63-148): pairs the declarations of two files.
 * A first pass pairs every left item with the first free right item it
 * matches at cost 0; a second phase then repeatedly takes the free pair
 * whose cost, less what deleting and inserting its two items would cost, is
 * the most negative, until no free pair is profitable.
 */
module Greedy {
  import opened Alignment

  /** The three callbacks: `diff(iA, iB)`, `del(iA)` and `ins(iB)`. */
  datatype Callbacks = Callbacks(diff: (nat, nat) -> int, del: nat -> int, ins: nat -> int)

  /** The callbacks as the cost tables of the alignment model, for `lenA` and `lenB` items. */
  function Tables(cb: Callbacks, lenA: nat, lenB: nat): (c: Costs)
    ensures forall i, j :: 0 <= i < lenA && 0 <= j < lenB ==> SubCost(c, i, j) == cb.diff(i, j)
    ensures forall i :: 0 <= i < lenA ==> DelCost(c, i) == cb.del(i)
    ensures forall j :: 0 <= j < lenB ==> InsCost(c, j) == cb.ins(j)
  {
    Costs(seq(lenA, i requires 0 <= i < lenA => seq(lenB, j requires 0 <= j < lenB => cb.diff(i, j))),
          seq(lenA, i requires 0 <= i < lenA => cb.del(i)),
          seq(lenB, j requires 0 <= j < lenB => cb.ins(j)))
  }

  /** `n` entries of -1: nothing matched yet. */
  function NoMatches(n: nat): (r: seq<int>)
    ensures |r| == n && forall i :: 0 <= i < n ==> r[i] == -1
  {
    seq(n, _ => -1)
  }

  /** The first right item from `j` on that is still free and matches left item `i` at cost 0, or -1. */
  function FirstZero(cb: Callbacks, b: seq<int>, i: nat, j: nat): (r: int)
    ensures -1 <= r < |b|
    ensures r >= 0 ==> j <= r && b[r] < 0 && cb.diff(i, r) == 0
    ensures forall k :: j <= k < |b| && (r < 0 || k < r) ==> b[k] >= 0 || cb.diff(i, k) != 0
    decreases |b| - j
  {
    if j >= |b| then -1
    else if b[j] < 0 && cb.diff(i, j) == 0 then j
    else FirstZero(cb, b, i, j + 1)
  }

  /**
   * The first pass over the first `k` left items. The matching it builds
   * is valid, and only those items and earlier ones are matched.
   */
  function Pass1(cb: Callbacks, lenA: nat, lenB: nat, k: nat): (r: (seq<int>, seq<int>))
    requires k <= lenA
    ensures |r.0| == lenA && |r.1| == lenB && ValidAlignment(r.0, r.1)
    ensures forall i :: k <= i < lenA ==> r.0[i] == -1
    ensures forall j :: 0 <= j < lenB ==> r.1[j] < k
  {
    if k == 0 then (NoMatches(lenA), NoMatches(lenB))
    else
      var prev := Pass1(cb, lenA, lenB, k - 1);
      var j := FirstZero(cb, prev.1, k - 1, 0);
      if j >= 0 then (prev.0[k - 1 := j], prev.1[j := k - 1]) else prev
  }

  /**
   * Left item `i` holds the first right item that matches it at cost 0 and
   * that no earlier left item holds; if it holds nothing, no such item exists.
   */
  ghost predicate TookFirstZero(cb: Callbacks, a: seq<int>, b: seq<int>, i: nat)
    requires i < |a|
  {
    (a[i] >= 0 ==> cb.diff(i, a[i]) == 0) &&
    forall j :: 0 <= j < |b| && (a[i] < 0 || j < a[i]) ==> cb.diff(i, j) != 0 || 0 <= b[j] < i
  }

  /**
   * The first pass takes, for every left item in index order, the first
   * right item that is free at that moment (not taken by an earlier left
   * item) and matches at cost 0; an item left unmatched has no such partner.
   */
  lemma {:induction false} Pass1TakesFirstZero(cb: Callbacks, lenA: nat, lenB: nat, k: nat)
    requires k <= lenA
    ensures forall i :: 0 <= i < k ==> TookFirstZero(cb, Pass1(cb, lenA, lenB, k).0, Pass1(cb, lenA, lenB, k).1, i)
  {
    if k > 0 {
      Pass1TakesFirstZero(cb, lenA, lenB, k - 1);
      var prev := Pass1(cb, lenA, lenB, k - 1);
      var cur := Pass1(cb, lenA, lenB, k);
      var z := FirstZero(cb, prev.1, k - 1, 0);
      if z >= 0 {
        assert cur.0 == prev.0[k - 1 := z] && cur.1 == prev.1[z := k - 1];
      } else {
        assert cur == prev;
      }
      forall i | 0 <= i < k
        ensures TookFirstZero(cb, cur.0, cur.1, i)
      {
        if i < k - 1 {
          assert TookFirstZero(cb, prev.0, prev.1, i);
          assert cur.0[i] == prev.0[i];
          forall j | 0 <= j < lenB && (cur.0[i] < 0 || j < cur.0[i])
            ensures cb.diff(i, j) != 0 || 0 <= cur.1[j] < i
          {
            if z >= 0 && j == z {
              assert prev.1[j] < 0;
            } else {
              assert cur.1[j] == prev.1[j];
            }
          }
        } else {
          assert prev.0[i] == -1;
          forall j | 0 <= j < lenB && (cur.0[i] < 0 || j < cur.0[i])
            ensures cb.diff(i, j) != 0 || 0 <= cur.1[j] < i
          {
            assert prev.1[j] >= 0 || cb.diff(i, j) != 0;
            assert cur.1[j] == prev.1[j];
          }
        }
      }
    }
  }

  /** Both items of a pair are free. */
  predicate Free(a: seq<int>, b: seq<int>, i: int, j: int) {
    0 <= i < |a| && 0 <= j < |b| && a[i] < 0 && b[j] < 0
  }

  /** The cost of pairing `i` with `j` less the cost of deleting `i` and inserting `j` (`mat[iA][iB]` of the second phase). */
  function Adjusted(cb: Callbacks, i: nat, j: nat): (r: int) {
    cb.diff(i, j) - (cb.del(i) + cb.ins(j))
  }

  datatype Pick = NoPick | Pick(i: nat, j: nat)

  /** Cell `(i, j)` comes before `(i', j')` in row-major order. */
  predicate Before(i: int, j: int, i': int, j': int) {
    i < i' || (i == i' && j < j')
  }

  /**
   * The selection scan of the second phase from cell `(i, j)` on, in
   * row-major order, with `best` the pick so far: a free cell replaces it
   * only when strictly cheaper.
   */
  function Scan(cb: Callbacks, a: seq<int>, b: seq<int>, i: nat, j: nat, best: Pick): (r: Pick)
    decreases |a| - i, |b| - j
  {
    if i >= |a| then best
    else if a[i] >= 0 || j >= |b| then Scan(cb, a, b, i + 1, 0, best)
    else if b[j] < 0 && (best.NoPick? || Adjusted(cb, i, j) < Adjusted(cb, best.i, best.j)) then
      Scan(cb, a, b, i, j + 1, Pick(i, j))
    else Scan(cb, a, b, i, j + 1, best)
  }

  /** `best` is the first cheapest free cell before `(i, j)`, or there is none. */
  ghost predicate FirstCheapest(cb: Callbacks, a: seq<int>, b: seq<int>, i: int, j: int, best: Pick) {
    (best.NoPick? ==> forall i', j' :: Free(a, b, i', j') ==> !Before(i', j', i, j)) &&
    (best.Pick? ==>
      Free(a, b, best.i, best.j) && Before(best.i, best.j, i, j) &&
      forall i', j' :: Free(a, b, i', j') && Before(i', j', i, j) ==>
        Adjusted(cb, best.i, best.j) <= Adjusted(cb, i', j') &&
        (Before(i', j', best.i, best.j) ==> Adjusted(cb, best.i, best.j) < Adjusted(cb, i', j')))
  }

  lemma {:induction false} ScanFrom(cb: Callbacks, a: seq<int>, b: seq<int>, i: nat, j: nat, best: Pick)
    requires j <= |b| && FirstCheapest(cb, a, b, i, j, best)
    ensures FirstCheapest(cb, a, b, |a|, 0, Scan(cb, a, b, i, j, best))
    decreases |a| - i, |b| - j
  {
    if i >= |a| {
      assert forall i', j' :: Free(a, b, i', j') ==> Before(i', j', i, j) == Before(i', j', |a|, 0);
    } else if a[i] >= 0 || j >= |b| {
      assert forall i', j' :: Free(a, b, i', j') ==> Before(i', j', i, j) == Before(i', j', i + 1, 0);
      ScanFrom(cb, a, b, i + 1, 0, best);
    } else if b[j] < 0 && (best.NoPick? || Adjusted(cb, i, j) < Adjusted(cb, best.i, best.j)) {
      ScanFrom(cb, a, b, i, j + 1, Pick(i, j));
    } else {
      ScanFrom(cb, a, b, i, j + 1, best);
    }
  }

  /**
   * One selection of the second phase: it finds nothing exactly when no
   * pair is free, and otherwise the free pair of least adjusted cost that
   * comes first in row-major order.
   */
  lemma ScanFindsFirstCheapest(cb: Callbacks, a: seq<int>, b: seq<int>)
    ensures var p := Scan(cb, a, b, 0, 0, NoPick);
            (p.NoPick? <==> forall i, j :: !Free(a, b, i, j)) &&
            (p.Pick? ==>
              Free(a, b, p.i, p.j) &&
              forall i, j :: Free(a, b, i, j) ==>
                Adjusted(cb, p.i, p.j) <= Adjusted(cb, i, j) &&
                (Before(i, j, p.i, p.j) ==> Adjusted(cb, p.i, p.j) < Adjusted(cb, i, j)))
  {
    ScanFrom(cb, a, b, 0, 0, NoPick);
    var p := Scan(cb, a, b, 0, 0, NoPick);
    assert forall i, j :: Free(a, b, i, j) ==> Before(i, j, |a|, 0);
  }

  /** Pairing two free items keeps the matching valid and adds one match. */
  lemma PairUp(a: seq<int>, b: seq<int>, i: nat, j: nat)
    requires ValidAlignment(a, b) && Free(a, b, i, j)
    ensures ValidAlignment(a[i := j], b[j := i])
    ensures MatchedCount(a[i := j], |a|) == MatchedCount(a, |a|) + 1
    ensures forall i', j' :: Free(a[i := j], b[j := i], i', j') ==> Free(a, b, i', j')
  {
    MatchedCountUpdate(a, |a|, i, j);
  }

  /**
   * The second phase: select, and pair while the selected pair is
   * profitable. The third component counts the rounds that paired.
   */
  function Phase2(cb: Callbacks, a: seq<int>, b: seq<int>): (r: (seq<int>, seq<int>, nat))
    requires ValidAlignment(a, b)
    ensures |r.0| == |a| && |r.1| == |b| && ValidAlignment(r.0, r.1)
    decreases |a| - MatchedCount(a, |a|)
  {
    var p := Scan(cb, a, b, 0, 0, NoPick);
    if p.NoPick? || Adjusted(cb, p.i, p.j) >= 0 then (a, b, 0)
    else
      ScanFindsFirstCheapest(cb, a, b);
      PairUp(a, b, p.i, p.j);
      var r := Phase2(cb, a[p.i := p.j], b[p.j := p.i]);
      (r.0, r.1, r.2 + 1)
  }

  /**
   * The second phase keeps the pairs it starts with, adds only pairs whose
   * adjusted cost is negative, and stops only when no free pair has a
   * negative adjusted cost.
   */
  lemma {:induction false} Phase2Profitable(cb: Callbacks, a: seq<int>, b: seq<int>)
    requires ValidAlignment(a, b)
    ensures var r := Phase2(cb, a, b);
            (forall i :: 0 <= i < |a| && a[i] >= 0 ==> r.0[i] == a[i]) &&
            (forall i :: 0 <= i < |a| && a[i] < 0 && r.0[i] >= 0 ==> Adjusted(cb, i, r.0[i]) < 0) &&
            (forall i, j :: Free(r.0, r.1, i, j) ==> Adjusted(cb, i, j) >= 0)
    decreases |a| - MatchedCount(a, |a|)
  {
    var p := Scan(cb, a, b, 0, 0, NoPick);
    ScanFindsFirstCheapest(cb, a, b);
    if p.NoPick? || Adjusted(cb, p.i, p.j) >= 0 {
    } else {
      PairUp(a, b, p.i, p.j);
      Phase2Profitable(cb, a[p.i := p.j], b[p.j := p.i]);
    }
  }

  /** Every round adds one pair, so there are at most as many rounds as the shorter side has items. */
  lemma {:induction false} Phase2Rounds(cb: Callbacks, a: seq<int>, b: seq<int>)
    requires ValidAlignment(a, b)
    ensures MatchedCount(Phase2(cb, a, b).0, |a|) == MatchedCount(a, |a|) + Phase2(cb, a, b).2
    ensures Phase2(cb, a, b).2 <= |a| && Phase2(cb, a, b).2 <= |b|
    decreases |a| - MatchedCount(a, |a|)
  {
    var p := Scan(cb, a, b, 0, 0, NoPick);
    if !(p.NoPick? || Adjusted(cb, p.i, p.j) >= 0) {
      ScanFindsFirstCheapest(cb, a, b);
      PairUp(a, b, p.i, p.j);
      Phase2Rounds(cb, a[p.i := p.j], b[p.j := p.i]);
    }
    var r := Phase2(cb, a, b);
    MatchedCountsAgree(r.0, r.1);
  }

  /** Every pair the second phase ends with was there at the start or paired two items that were free at the start. */
  lemma {:induction false} Phase2Grows(cb: Callbacks, a: seq<int>, b: seq<int>)
    requires ValidAlignment(a, b)
    ensures var r := Phase2(cb, a, b);
            (forall i :: 0 <= i < |a| && r.0[i] >= 0 ==> r.0[i] == a[i] || Free(a, b, i, r.0[i])) &&
            (forall i, j :: Free(r.0, r.1, i, j) ==> Free(a, b, i, j))
    decreases |a| - MatchedCount(a, |a|)
  {
    var p := Scan(cb, a, b, 0, 0, NoPick);
    if !(p.NoPick? || Adjusted(cb, p.i, p.j) >= 0) {
      ScanFindsFirstCheapest(cb, a, b);
      PairUp(a, b, p.i, p.j);
      Phase2Grows(cb, a[p.i := p.j], b[p.j := p.i]);
    }
  }

  /** The whole matching: the first pass, then the second phase. */
  function Greedy(cb: Callbacks, lenA: nat, lenB: nat): (r: (seq<int>, seq<int>, nat))
    ensures |r.0| == lenA && |r.1| == lenB && ValidAlignment(r.0, r.1)
  {
    var p := Pass1(cb, lenA, lenB, lenA);
    Phase2(cb, p.0, p.1)
  }

  /** Two items a side: every pair costs 40 except left 1 against right 0, which costs 1; deleting or inserting costs 10. */
  function TwoByTwo(): (r: Callbacks) {
    Callbacks((i, j) => if i == 1 && j == 0 then 1 else 40, _ => 10, _ => 10)
  }

  /** On `TwoByTwo` no pair costs 0, so the first pass pairs nothing. */
  lemma TwoByTwoFirstPass()
    ensures Pass1(TwoByTwo(), 2, 2, 2) == ([-1, -1], [-1, -1])
  {
    var cb := TwoByTwo();
    var none := NoMatches(2);
    assert FirstZero(cb, none, 0, 0) < 0;
    assert Pass1(cb, 2, 2, 1) == (none, none);
    assert FirstZero(cb, none, 1, 0) < 0;
    assert Pass1(cb, 2, 2, 2) == (none, none);
    assert none == [-1, -1];
  }

  /** The first selection takes left 1 against right 0, the only pair whose adjusted cost is negative. */
  lemma TwoByTwoFirstPick()
    ensures Scan(TwoByTwo(), [-1, -1], [-1, -1], 0, 0, NoPick) == Pick(1, 0)
  {
    var cb := TwoByTwo();
    ScanFindsFirstCheapest(cb, [-1, -1], [-1, -1]);
    assert Free([-1, -1], [-1, -1], 1, 0);
  }

  /** After that only left 0 against right 1 is free, and pairing it would not pay. */
  lemma TwoByTwoStops()
    ensures Phase2(TwoByTwo(), [-1, 0], [1, -1]) == ([-1, 0], [1, -1], 0)
  {
    var cb := TwoByTwo();
    ScanFindsFirstCheapest(cb, [-1, 0], [1, -1]);
    assert Free([-1, 0], [1, -1], 0, 1);
  }

  /** The whole matching on `TwoByTwo`: only left 1 and right 0 are paired. */
  lemma TwoByTwoMatch()
    ensures Greedy(TwoByTwo(), 2, 2) == ([-1, 0], [1, -1], 1)
  {
    TwoByTwoFirstPass();
    TwoByTwoFirstPick();
    TwoByTwoStops();
    assert [-1, -1][1 := 0] == [-1, 0] && [-1, -1][0 := 1] == [1, -1];
  }

  /** What the returned `diffMat` holds: each cell 0 or its cost, the cost on every pair matched and on every free pair of rows `< n`. */
  ghost predicate DiffMatFacts(dm: array2<int>, a: seq<int>, b: seq<int>, cb: Callbacks, n: int)
    reads dm
  {
    dm.Length0 == |a| && dm.Length1 == |b| &&
    (forall i, j :: 0 <= i < |a| && 0 <= j < |b| ==> dm[i, j] == 0 || dm[i, j] == cb.diff(i, j)) &&
    (forall i :: 0 <= i < |a| && 0 <= a[i] < |b| ==> dm[i, a[i]] == cb.diff(i, a[i])) &&
    (forall i, j :: Free(a, b, i, j) && i < n ==> dm[i, j] == cb.diff(i, j))
  }

  /**
   * One row of the first pass (cmd/godiff.go:65-86): record the cost of
   * every free right item up to the first that matches at cost 0, and pair
   * with that one.
   */
  method FillRow(cb: Callbacks, a: seq<int>, b: seq<int>, dm: array2<int>, iA: nat) returns (a': seq<int>, b': seq<int>)
    requires iA < |a| && dm.Length0 == |a| && dm.Length1 == |b|
    modifies dm
    ensures FirstZero(cb, b, iA, 0) >= 0 ==>
              a' == a[iA := FirstZero(cb, b, iA, 0)] && b' == b[FirstZero(cb, b, iA, 0) := iA]
    ensures FirstZero(cb, b, iA, 0) < 0 ==> a' == a && b' == b
    ensures forall i, j :: 0 <= i < dm.Length0 && i != iA && 0 <= j < dm.Length1 ==> dm[i, j] == old(dm[i, j])
    ensures forall j :: 0 <= j < dm.Length1 ==> dm[iA, j] == old(dm[iA, j]) || dm[iA, j] == cb.diff(iA, j)
    ensures forall j ::
              0 <= j < |b| && b[j] < 0 && (FirstZero(cb, b, iA, 0) < 0 || j <= FirstZero(cb, b, iA, 0))
              ==> dm[iA, j] == cb.diff(iA, j)
  {
    a', b' := a, b;
    var iB := 0;
    while iB < |b|
      invariant 0 <= iB <= |b|
      invariant FirstZero(cb, b, iA, 0) == FirstZero(cb, b, iA, iB)
      invariant forall i, j :: 0 <= i < dm.Length0 && i != iA && 0 <= j < dm.Length1 ==> dm[i, j] == old(dm[i, j])
      invariant forall j :: 0 <= j < dm.Length1 ==> dm[iA, j] == old(dm[iA, j]) || dm[iA, j] == cb.diff(iA, j)
      invariant forall j :: 0 <= j < iB && b[j] < 0 ==> dm[iA, j] == cb.diff(iA, j)
    {
      if b[iB] >= 0 {
        iB := iB + 1;
        continue;
      }
      var d := cb.diff(iA, iB);
      dm[iA, iB] := d;
      if d == 0 {
        a', b' := a[iA := iB], b[iB := iA];
        return;
      }
      iB := iB + 1;
    }
  }

  /** Row `iA` of the first pass, which keeps the facts about `diffMat`, now for one more row. */
  method AddRow(cb: Callbacks, lenA: nat, lenB: nat, a: seq<int>, b: seq<int>, dm: array2<int>, iA: nat)
    returns (a': seq<int>, b': seq<int>)
    requires iA < lenA && (a, b) == Pass1(cb, lenA, lenB, iA)
    requires DiffMatFacts(dm, a, b, cb, iA)
    requires forall i, j :: iA <= i < dm.Length0 && 0 <= j < dm.Length1 ==> dm[i, j] == 0
    modifies dm
    ensures (a', b') == Pass1(cb, lenA, lenB, iA + 1)
    ensures DiffMatFacts(dm, a', b', cb, iA + 1)
    ensures forall i, j :: iA < i < dm.Length0 && 0 <= j < dm.Length1 ==> dm[i, j] == 0
  {
    Pass1Next(cb, lenA, lenB, iA);
    a', b' := FillRow(cb, a, b, dm, iA);
  }

  /** One more row of the first pass. */
  lemma Pass1Next(cb: Callbacks, lenA: nat, lenB: nat, k: nat)
    requires k < lenA
    ensures var prev := Pass1(cb, lenA, lenB, k);
            var z := FirstZero(cb, prev.1, k, 0);
            (z >= 0 ==> Pass1(cb, lenA, lenB, k + 1) == (prev.0[k := z], prev.1[z := k])) &&
            (z < 0 ==> Pass1(cb, lenA, lenB, k + 1) == prev)
  {
  }

  /** The first pass (cmd/godiff.go:64-87), which also fills `diffMat` on the cells it visits. */
  method FirstPass(cb: Callbacks, lenA: nat, lenB: nat) returns (a: seq<int>, b: seq<int>, dm: array2<int>)
    ensures fresh(dm)
    ensures (a, b) == Pass1(cb, lenA, lenB, lenA)
    ensures DiffMatFacts(dm, a, b, cb, lenA)
  {
    a, b := NoMatches(lenA), NoMatches(lenB);
    dm := new int[lenA, lenB]((_, _) => 0);
    for iA := 0 to lenA
      invariant (a, b) == Pass1(cb, lenA, lenB, iA)
      invariant forall i, j :: iA <= i < lenA && 0 <= j < lenB ==> dm[i, j] == 0
      invariant DiffMatFacts(dm, a, b, cb, iA)
    {
      a, b := AddRow(cb, lenA, lenB, a, b, dm, iA);
    }
  }

  /** The cloned matrix with every free cell reduced by its deletion and insertion costs, and a bound `mx` on those cells (cmd/godiff.go:89-104). */
  method Adjust(cb: Callbacks, a: seq<int>, b: seq<int>, dm: array2<int>) returns (mat: array2<int>, mx: int)
    requires DiffMatFacts(dm, a, b, cb, |a|)
    ensures fresh(mat) && mat.Length0 == |a| && mat.Length1 == |b| && mx >= 0
    ensures forall i, j :: Free(a, b, i, j) ==> mat[i, j] == Adjusted(cb, i, j) && mat[i, j] <= mx
  {
    mat := new int[|a|, |b|]((i, j) requires 0 <= i < |a| && 0 <= j < |b| reads dm => dm[i, j]);
    mx := 0;
    for iA := 0 to |a|
      invariant mx >= 0
      invariant forall i, j :: Free(a, b, i, j) && i < iA ==> mat[i, j] == Adjusted(cb, i, j) && mat[i, j] <= mx
      invariant forall i, j :: iA <= i < |a| && 0 <= j < |b| ==> mat[i, j] == dm[i, j]
    {
      if a[iA] >= 0 {
        continue;
      }
      for iB := 0 to |b|
        invariant mx >= 0
        invariant forall i, j :: Free(a, b, i, j) && (i < iA || (i == iA && j < iB)) ==>
                    mat[i, j] == Adjusted(cb, i, j) && mat[i, j] <= mx
        invariant forall i, j :: ((iA < i < |a| && 0 <= j < |b|) || (i == iA && iB <= j < |b|)) ==> mat[i, j] == dm[i, j]
      {
        if b[iB] >= 0 {
          continue;
        }
        mat[iA, iB] := mat[iA, iB] - (cb.del(iA) + cb.ins(iB));
        if mat[iA, iB] > mx {
          mx := mat[iA, iB];
        }
      }
    }
  }

  /** The pick so far of the selection scan. */
  function Current(selA: int, selB: int): (r: Pick) {
    if selA < 0 || selB < 0 then NoPick else Pick(selA, selB)
  }

  /** One selection scan of the second phase (cmd/godiff.go:107-123). */
  method Select(cb: Callbacks, a: seq<int>, b: seq<int>, mat: array2<int>, mx: int) returns (selA: int, selB: int, mn: int)
    requires mat.Length0 == |a| && mat.Length1 == |b|
    requires forall i, j :: Free(a, b, i, j) ==> mat[i, j] == Adjusted(cb, i, j) && mat[i, j] <= mx
    ensures Current(selA, selB) == Scan(cb, a, b, 0, 0, NoPick)
    ensures selA >= 0 ==> selB >= 0 && mn == Adjusted(cb, selA, selB)
  {
    mn := mx + 1;
    selA, selB := -1, -1;
    for iA := 0 to |a|
      invariant Scan(cb, a, b, iA, 0, Current(selA, selB)) == Scan(cb, a, b, 0, 0, NoPick)
      invariant selA < 0 ==> selB < 0 && mn == mx + 1
      invariant selA >= 0 ==> Free(a, b, selA, selB) && mn == Adjusted(cb, selA, selB)
    {
      if a[iA] >= 0 {
        continue;
      }
      for iB := 0 to |b|
        invariant Scan(cb, a, b, iA, iB, Current(selA, selB)) == Scan(cb, a, b, 0, 0, NoPick)
        invariant selA < 0 ==> selB < 0 && mn == mx + 1
        invariant selA >= 0 ==> Free(a, b, selA, selB) && mn == Adjusted(cb, selA, selB)
      {
        if b[iB] >= 0 {
          continue;
        }
        if mat[iA, iB] < mn {
          mn := mat[iA, iB];
          selA, selB := iA, iB;
        }
      }
    }
  }

  /** The second phase (cmd/godiff.go:106-132): select and pair until nothing profitable is left. */
  method SecondPhase(cb: Callbacks, a: seq<int>, b: seq<int>, mat: array2<int>, mx: int) returns (a': seq<int>, b': seq<int>)
    requires mat.Length0 == |a| && mat.Length1 == |b| && ValidAlignment(a, b)
    requires forall i, j :: Free(a, b, i, j) ==> mat[i, j] == Adjusted(cb, i, j) && mat[i, j] <= mx
    ensures a' == Phase2(cb, a, b).0 && b' == Phase2(cb, a, b).1
  {
    a', b' := a, b;
    while true
      invariant |a'| == |a| && |b'| == |b| && ValidAlignment(a', b')
      invariant Phase2(cb, a', b').0 == Phase2(cb, a, b).0 && Phase2(cb, a', b').1 == Phase2(cb, a, b).1
      invariant forall i, j :: Free(a', b', i, j) ==> mat[i, j] == Adjusted(cb, i, j) && mat[i, j] <= mx
      decreases |a'| - MatchedCount(a', |a'|)
    {
      var selA, selB, mn := Select(cb, a', b', mat, mx);
      if selA < 0 || mn >= 0 {
        break;
      }
      ScanFindsFirstCheapest(cb, a', b');
      PairUp(a', b', selA, selB);
      a', b' := a'[selA := selB], b'[selB := selA];
    }
  }

  /** The facts about `diffMat` carry over to a matching that only pairs items free in the old one. */
  lemma FactsCarry(dm: array2<int>, a: seq<int>, b: seq<int>, a': seq<int>, b': seq<int>, cb: Callbacks)
    requires DiffMatFacts(dm, a, b, cb, |a|) && |a'| == |a| && |b'| == |b| && ValidAlignment(a', b')
    requires forall i :: 0 <= i < |a| && a'[i] >= 0 ==> a'[i] == a[i] || Free(a, b, i, a'[i])
    requires forall i, j :: Free(a', b', i, j) ==> Free(a, b, i, j)
    ensures DiffMatFacts(dm, a', b', cb, |a'|)
  {
  }

  /** The returned cost (cmd/godiff.go:134-146): deletions, the costs of the matched pairs, insertions. */
  method TotalCost(cb: Callbacks, a: seq<int>, b: seq<int>, dm: array2<int>) returns (cost: int)
    requires ValidAlignment(a, b) && DiffMatFacts(dm, a, b, cb, |a|)
    ensures cost == AlignCost(a, b, Tables(cb, |a|, |b|))
  {
    var c := Tables(cb, |a|, |b|);
    cost := 0;
    for iA := 0 to |a|
      invariant cost == DelSideCost(a, c, iA)
    {
      if a[iA] < 0 {
        cost := cost + cb.del(iA);
      } else {
        cost := cost + dm[iA, a[iA]];
      }
    }
    for iB := 0 to |b|
      invariant cost == DelSideCost(a, c, |a|) + InsSideCost(b, c, iB)
    {
      if b[iB] < 0 {
        cost := cost + cb.ins(iB);
      }
    }
  }

  /** Both passes: the matching `Greedy` describes, and the facts about `diffMat`. */
  method Match(cb: Callbacks, lenA: nat, lenB: nat) returns (matA: seq<int>, matB: seq<int>, dm: array2<int>)
    ensures fresh(dm)
    ensures matA == Greedy(cb, lenA, lenB).0 && matB == Greedy(cb, lenA, lenB).1
    ensures DiffMatFacts(dm, matA, matB, cb, lenA)
  {
    var a, b;
    a, b, dm := FirstPass(cb, lenA, lenB);
    var mat, mx := Adjust(cb, a, b, dm);
    matA, matB := SecondPhase(cb, a, b, mat, mx);
    Phase2Grows(cb, a, b);
    FactsCarry(dm, a, b, matA, matB, cb);
  }

  /**
   * `GreedyMatch`: the matching is `Greedy`'s, the cost is the cost of that
   * matching, and `diffMat` holds, for every matched pair, its cost (other
   * cells hold their cost or 0).
   */
  method GreedyMatch(lenA: nat, lenB: nat, cb: Callbacks) returns (diffMat: seq<seq<int>>, cost: int, matA: seq<int>, matB: seq<int>)
    ensures matA == Greedy(cb, lenA, lenB).0 && matB == Greedy(cb, lenA, lenB).1
    ensures cost == AlignCost(matA, matB, Tables(cb, lenA, lenB))
    ensures |diffMat| == lenA && forall i :: 0 <= i < lenA ==> |diffMat[i]| == lenB
    ensures forall i, j :: 0 <= i < lenA && 0 <= j < lenB ==> diffMat[i][j] == 0 || diffMat[i][j] == cb.diff(i, j)
    ensures forall i :: 0 <= i < lenA && 0 <= matA[i] < lenB ==> diffMat[i][matA[i]] == cb.diff(i, matA[i])
  {
    var dm;
    matA, matB, dm := Match(cb, lenA, lenB);
    cost := TotalCost(cb, matA, matB, dm);
    diffMat := seq(lenA, i requires 0 <= i < lenA reads dm =>
                 seq(lenB, j requires 0 <= j < lenB reads dm => dm[i, j]));
  }
}

/**
 * The edit-distance contract the diff engine relies on.
 *
 * The engine calls an external edit-distance library (`ed.EditDistanceF`,
 * `ed.EditDistanceFFull`, `ed.String`) whose code is not part of this model.
 * The callbacks the engine hands it are pure, so they are modelled as cost
 * tables (`Costs`). The library's value is the classic minimum-cost
 * recursion over prefixes, and its alignment output is an `Aligner`: a
 * function value only assumed to satisfy `IsAligner` (mutually inverse,
 * order-preserving match arrays of optimal cost, -1 for unmatched).
 */
module Alignment {

  /**
   * The three callbacks: `sub[i][j]` for matching item `i` of the first side
   * with item `j` of the second, `del[i]` for dropping item `i`, `ins[j]`
   * for adding item `j`.
   */
  datatype Costs = Costs(sub: seq<seq<int>>, del: seq<int>, ins: seq<int>)

  function SubCost(c: Costs, i: int, j: int): (r: int) {
    if 0 <= i < |c.sub| && 0 <= j < |c.sub[i]| then c.sub[i][j] else 0
  }

  function DelCost(c: Costs, i: int): (r: int) {
    if 0 <= i < |c.del| then c.del[i] else 0
  }

  function InsCost(c: Costs, j: int): (r: int) {
    if 0 <= j < |c.ins| then c.ins[j] else 0
  }

  function Min3(a: int, b: int, c: int): (r: int) {
    if a <= b && a <= c then a else if b <= c then b else c
  }

  /**
   * Minimum total cost of turning the first `n` items of one side into the
   * first `m` items of the other.
   */
  function EditDistance(n: nat, m: nat, c: Costs): (r: int)
    decreases n + m
  {
    if n == 0 && m == 0 then 0
    else if n == 0 then EditDistance(0, m - 1, c) + InsCost(c, m - 1)
    else if m == 0 then EditDistance(n - 1, 0, c) + DelCost(c, n - 1)
    else Min3(EditDistance(n - 1, m - 1, c) + SubCost(c, n - 1, m - 1),
              EditDistance(n - 1, m, c) + DelCost(c, n - 1),
              EditDistance(n, m - 1, c) + InsCost(c, m - 1))
  }

  /** Total cost of deleting the first `n` items. */
  function DelSum(n: nat, c: Costs): (r: int) {
    if n == 0 then 0 else DelSum(n - 1, c) + DelCost(c, n - 1)
  }

  /** Total cost of inserting the first `m` items. */
  function InsSum(m: nat, c: Costs): (r: int) {
    if m == 0 then 0 else InsSum(m - 1, c) + InsCost(c, m - 1)
  }

  lemma {:induction false} EditDistanceNonNegative(n: nat, m: nat, c: Costs)
    requires forall i, j :: 0 <= i < n && 0 <= j < m ==> SubCost(c, i, j) >= 0
    requires forall i :: 0 <= i < n ==> DelCost(c, i) >= 0
    requires forall j :: 0 <= j < m ==> InsCost(c, j) >= 0
    ensures EditDistance(n, m, c) >= 0
    decreases n + m
  {
    if n == 0 && m == 0 {
    } else if n == 0 {
      EditDistanceNonNegative(0, m - 1, c);
    } else if m == 0 {
      EditDistanceNonNegative(n - 1, 0, c);
    } else {
      EditDistanceNonNegative(n - 1, m - 1, c);
      EditDistanceNonNegative(n - 1, m, c);
      EditDistanceNonNegative(n, m - 1, c);
    }
  }

  /** Deleting everything and inserting everything is always an option, and the only one when a side is empty. */
  lemma {:induction false} EditDistanceAtMostDeleteInsert(n: nat, m: nat, c: Costs)
    ensures EditDistance(n, m, c) <= DelSum(n, c) + InsSum(m, c)
    ensures n == 0 ==> EditDistance(n, m, c) == InsSum(m, c)
    ensures m == 0 ==> EditDistance(n, m, c) == DelSum(n, c)
    decreases n + m
  {
    if n == 0 && m == 0 {
    } else if n == 0 {
      EditDistanceAtMostDeleteInsert(0, m - 1, c);
    } else {
      EditDistanceAtMostDeleteInsert(n - 1, m, c);
    }
  }

  /** Matching every item with its twin costs nothing when twins cost nothing. */
  lemma {:induction false} EditDistanceZeroDiagonal(n: nat, c: Costs)
    requires forall i :: 0 <= i < n ==> SubCost(c, i, i) == 0
    ensures EditDistance(n, n, c) <= 0
  {
    if n > 0 {
      EditDistanceZeroDiagonal(n - 1, c);
    }
  }

  /** Only the costs inside the `n` by `m` table matter. */
  lemma {:induction false} EditDistanceCongruent(n: nat, m: nat, c: Costs, d: Costs)
    requires forall i, j :: 0 <= i < n && 0 <= j < m ==> SubCost(c, i, j) == SubCost(d, i, j)
    requires forall i :: 0 <= i < n ==> DelCost(c, i) == DelCost(d, i)
    requires forall j :: 0 <= j < m ==> InsCost(c, j) == InsCost(d, j)
    ensures EditDistance(n, m, c) == EditDistance(n, m, d)
    decreases n + m
  {
    if n == 0 && m == 0 {
    } else if n == 0 {
      EditDistanceCongruent(0, m - 1, c, d);
    } else if m == 0 {
      EditDistanceCongruent(n - 1, 0, c, d);
    } else {
      EditDistanceCongruent(n - 1, m - 1, c, d);
      EditDistanceCongruent(n - 1, m, c, d);
      EditDistanceCongruent(n, m - 1, c, d);
    }
  }

  /** Exchanging the two sides (deletions become insertions) leaves the distance unchanged. */
  lemma {:induction false} EditDistanceSwap(n: nat, m: nat, c: Costs, d: Costs)
    requires forall i, j :: 0 <= i < n && 0 <= j < m ==> SubCost(d, j, i) == SubCost(c, i, j)
    requires forall i :: 0 <= i < n ==> InsCost(d, i) == DelCost(c, i)
    requires forall j :: 0 <= j < m ==> DelCost(d, j) == InsCost(c, j)
    ensures EditDistance(n, m, c) == EditDistance(m, n, d)
    decreases n + m
  {
    if n == 0 && m == 0 {
    } else if n == 0 {
      EditDistanceSwap(0, m - 1, c, d);
    } else if m == 0 {
      EditDistanceSwap(n - 1, 0, c, d);
    } else {
      EditDistanceSwap(n - 1, m - 1, c, d);
      EditDistanceSwap(n - 1, m, c, d);
      EditDistanceSwap(n, m - 1, c, d);
    }
  }

  /**
   * With non-negative substitutions and deletions and insertions of cost at
   * least 1, a distance of 0 means both sides have the same length and every
   * item matches its twin at no cost.
   */
  lemma {:induction false} EditDistanceZero(n: nat, m: nat, c: Costs)
    requires forall i, j :: 0 <= i < n && 0 <= j < m ==> SubCost(c, i, j) >= 0
    requires forall i :: 0 <= i < n ==> DelCost(c, i) >= 1
    requires forall j :: 0 <= j < m ==> InsCost(c, j) >= 1
    requires EditDistance(n, m, c) <= 0
    ensures n == m && forall i :: 0 <= i < n ==> SubCost(c, i, i) == 0
    decreases n + m
  {
    if n == 0 && m > 0 {
      EditDistanceNonNegative(0, m - 1, c);
    } else if n > 0 && m == 0 {
      EditDistanceNonNegative(n - 1, 0, c);
    } else if n > 0 {
      EditDistanceNonNegative(n - 1, m - 1, c);
      EditDistanceNonNegative(n - 1, m, c);
      EditDistanceNonNegative(n, m - 1, c);
      ZeroStep(n, m, c);
      EditDistanceZero(n - 1, m - 1, c);
    }
  }

  /** The inductive step of `EditDistanceZero`: a zero distance can only come from a free substitution. */
  lemma ZeroStep(n: nat, m: nat, c: Costs)
    requires n > 0 && m > 0
    requires SubCost(c, n - 1, m - 1) >= 0 && DelCost(c, n - 1) >= 1 && InsCost(c, m - 1) >= 1
    requires EditDistance(n - 1, m - 1, c) >= 0 && EditDistance(n - 1, m, c) >= 0 && EditDistance(n, m - 1, c) >= 0
    requires EditDistance(n, m, c) <= 0
    ensures EditDistance(n - 1, m - 1, c) <= 0 && SubCost(c, n - 1, m - 1) == 0
  {
  }

  /** Unit deletions and insertions, substitutions of cost 0 or 1. */
  predicate UnitCosts(n: nat, m: nat, c: Costs) {
    (forall i, j :: 0 <= i < n && 0 <= j < m ==> 0 <= SubCost(c, i, j) <= 1) &&
    (forall i :: 0 <= i < n ==> DelCost(c, i) == 1) &&
    (forall j :: 0 <= j < m ==> InsCost(c, j) == 1)
  }

  lemma Min3Lower(a: int, b: int, c: int, bound: int)
    requires bound <= a && bound <= b && bound <= c
    ensures bound <= Min3(a, b, c)
  {
  }

  /** Under unit costs the distance is at least the length difference. */
  lemma EditDistanceUnitLower(n: nat, m: nat, c: Costs)
    requires UnitCosts(n, m, c)
    ensures n - m <= EditDistance(n, m, c) && m - n <= EditDistance(n, m, c)
  {
    UnitLowerWithin(n, m, n, m, c);
  }

  /** `EditDistanceUnitLower` for every pair of prefixes, with the unit costs fixed for the whole lengths. */
  lemma {:induction false} UnitLowerWithin(N: nat, M: nat, n: nat, m: nat, c: Costs)
    requires UnitCosts(N, M, c) && n <= N && m <= M
    ensures n - m <= EditDistance(n, m, c) && m - n <= EditDistance(n, m, c)
    decreases n + m
  {
    if n == 0 && m == 0 {
    } else if n == 0 {
      UnitLowerWithin(N, M, 0, m - 1, c);
    } else if m == 0 {
      UnitLowerWithin(N, M, n - 1, 0, c);
    } else {
      UnitLowerWithin(N, M, n - 1, m - 1, c);
      UnitLowerWithin(N, M, n - 1, m, c);
      UnitLowerWithin(N, M, n, m - 1, c);
      UnitLowerStep(n, m, c);
    }
  }

  /** The inductive step when both sides are non-empty. */
  lemma UnitLowerStep(n: nat, m: nat, c: Costs)
    requires n > 0 && m > 0
    requires SubCost(c, n - 1, m - 1) >= 0 && DelCost(c, n - 1) == 1 && InsCost(c, m - 1) == 1
    requires n - m <= EditDistance(n - 1, m - 1, c) && m - n <= EditDistance(n - 1, m - 1, c)
    requires n - 1 - m <= EditDistance(n - 1, m, c) && m - n + 1 <= EditDistance(n - 1, m, c)
    requires n - m + 1 <= EditDistance(n, m - 1, c) && m - 1 - n <= EditDistance(n, m - 1, c)
    ensures n - m <= EditDistance(n, m, c) && m - n <= EditDistance(n, m, c)
  {
    var n1, m1 := n - 1, m - 1;
    var sub, del, ins := EditDistance(n1, m1, c) + SubCost(c, n1, m1), EditDistance(n1, m, c) + DelCost(c, n1),
                         EditDistance(n, m1, c) + InsCost(c, m1);
    Min3Lower(sub, del, ins, n - m);
    Min3Lower(sub, del, ins, m - n);
  }

  /** Under unit costs the distance is at most the longer length. */
  lemma EditDistanceUnitUpper(n: nat, m: nat, c: Costs)
    requires UnitCosts(n, m, c)
    ensures EditDistance(n, m, c) <= (if n >= m then n else m)
  {
    UnitUpperWithin(n, m, n, m, c);
  }

  lemma {:induction false} UnitUpperWithin(N: nat, M: nat, n: nat, m: nat, c: Costs)
    requires UnitCosts(N, M, c) && n <= N && m <= M
    ensures EditDistance(n, m, c) <= (if n >= m then n else m)
    decreases n + m
  {
    if n == 0 && m == 0 {
    } else if n == 0 {
      UnitUpperWithin(N, M, 0, m - 1, c);
    } else if m == 0 {
      UnitUpperWithin(N, M, n - 1, 0, c);
    } else {
      UnitUpperWithin(N, M, n - 1, m - 1, c);
      UnitUpperStep(n, m, c);
    }
  }

  /** The inductive step when both sides are non-empty: substitute the last items. */
  lemma UnitUpperStep(n: nat, m: nat, c: Costs)
    requires n > 0 && m > 0 && SubCost(c, n - 1, m - 1) <= 1
    requires EditDistance(n - 1, m - 1, c) <= (if n - 1 >= m - 1 then n - 1 else m - 1)
    ensures EditDistance(n, m, c) <= (if n >= m then n else m)
  {
  }

  /** The unit costs of the character-level distance between `a` and `b`. */
  function CharCosts(a: string, b: string): (c: Costs)
    ensures UnitCosts(|a|, |b|, c)
    ensures forall i, j :: 0 <= i < |a| && 0 <= j < |b| ==> (SubCost(c, i, j) == 0 <==> a[i] == b[j])
  {
    Costs(seq(|a|, i requires 0 <= i < |a| => seq(|b|, j requires 0 <= j < |b| => if a[i] == b[j] then 0 else 1)),
          seq(|a|, _ => 1), seq(|b|, _ => 1))
  }

  /** The character-level Levenshtein distance (`ed.String`). */
  function StringDistance(a: string, b: string): (r: int) {
    EditDistance(|a|, |b|, CharCosts(a, b))
  }

  lemma StringDistanceBounds(a: string, b: string)
    ensures (if |a| >= |b| then |a| - |b| else |b| - |a|) <= StringDistance(a, b)
    ensures StringDistance(a, b) <= (if |a| >= |b| then |a| else |b|)
  {
    EditDistanceUnitLower(|a|, |b|, CharCosts(a, b));
    EditDistanceUnitUpper(|a|, |b|, CharCosts(a, b));
  }

  lemma StringDistanceSame(a: string)
    ensures StringDistance(a, a) == 0
  {
    EditDistanceZeroDiagonal(|a|, CharCosts(a, a));
    EditDistanceUnitLower(|a|, |a|, CharCosts(a, a));
  }

  lemma StringDistanceSymmetric(a: string, b: string)
    ensures StringDistance(a, b) == StringDistance(b, a)
  {
    EditDistanceSwap(|a|, |b|, CharCosts(a, b), CharCosts(b, a));
  }

  /**
   * `matA[i]` is the index matched with item `i` of the first side (-1 when
   * none) and `matB[j]` likewise for the second side; the two are inverse.
   */
  predicate ValidAlignment(matA: seq<int>, matB: seq<int>) {
    (forall i :: 0 <= i < |matA| ==> -1 <= matA[i] < |matB| && (matA[i] >= 0 ==> matB[matA[i]] == i)) &&
    (forall j :: 0 <= j < |matB| ==> -1 <= matB[j] < |matA| && (matB[j] >= 0 ==> matA[matB[j]] == j))
  }

  /** Matched pairs never cross. */
  predicate OrderPreserving(matA: seq<int>) {
    forall i, j :: 0 <= i < j < |matA| && matA[i] >= 0 && matA[j] >= 0 ==> matA[i] < matA[j]
  }

  /** The cost the first `k` items of the first side contribute: their deletion or their substitution. */
  function DelSideCost(matA: seq<int>, c: Costs, k: nat): (r: int)
    requires k <= |matA|
  {
    if k == 0 then 0
    else DelSideCost(matA, c, k - 1) + (if matA[k - 1] < 0 then DelCost(c, k - 1) else SubCost(c, k - 1, matA[k - 1]))
  }

  /** The cost the first `k` items of the second side contribute: their insertion when unmatched. */
  function InsSideCost(matB: seq<int>, c: Costs, k: nat): (r: int)
    requires k <= |matB|
  {
    if k == 0 then 0
    else InsSideCost(matB, c, k - 1) + (if matB[k - 1] < 0 then InsCost(c, k - 1) else 0)
  }

  /** Cost of an alignment: deletions, substitutions of matched pairs and insertions. */
  function AlignCost(matA: seq<int>, matB: seq<int>, c: Costs): (r: int) {
    DelSideCost(matA, c, |matA|) + InsSideCost(matB, c, |matB|)
  }

  /** The number of matched entries among the first `k`. */
  function MatchedCount(mat: seq<int>, k: nat): (r: nat)
    requires k <= |mat|
    ensures r <= k
  {
    if k == 0 then 0 else MatchedCount(mat, k - 1) + (if mat[k - 1] >= 0 then 1 else 0)
  }

  /** The count is the number of indices below `k` whose entry is matched. */
  lemma {:induction false} MatchedCountCard(mat: seq<int>, k: nat)
    requires k <= |mat|
    ensures MatchedCount(mat, k) == |set i | 0 <= i < k && mat[i] >= 0|
  {
    if k > 0 {
      MatchedCountCard(mat, k - 1);
      var prev := set i | 0 <= i < k - 1 && mat[i] >= 0;
      var cur := set i | 0 <= i < k && mat[i] >= 0;
      assert cur == if mat[k - 1] >= 0 then prev + {k - 1} else prev;
    }
  }

  /** Overwriting one entry changes the count by what that entry contributes. */
  lemma {:induction false} MatchedCountUpdate(mat: seq<int>, k: nat, x: nat, v: int)
    requires k <= |mat| && x < |mat|
    ensures MatchedCount(mat[x := v], k) + (if x < k && mat[x] >= 0 then 1 else 0)
         == MatchedCount(mat, k) + (if x < k && v >= 0 then 1 else 0)
  {
    if k > 0 {
      MatchedCountUpdate(mat, k - 1, x, v);
    }
  }

  /** Both sides of a valid alignment have as many matched entries. */
  lemma MatchedCountsAgree(matA: seq<int>, matB: seq<int>)
    requires ValidAlignment(matA, matB)
    ensures MatchedCount(matA, |matA|) == MatchedCount(matB, |matB|)
  {
    MatchedPartners(matA, matB, |matA|);
    MatchedCountCard(matB, |matB|);
    assert (set j | 0 <= j < |matB| && matB[j] >= 0 && matB[j] < |matA|) == (set j | 0 <= j < |matB| && matB[j] >= 0);
  }

  /** The first `k` entries of `matA` are matched with exactly the entries of `matB` pointing below `k`. */
  lemma {:induction false} MatchedPartners(matA: seq<int>, matB: seq<int>, k: nat)
    requires ValidAlignment(matA, matB) && k <= |matA|
    ensures MatchedCount(matA, k) == |set j | 0 <= j < |matB| && matB[j] >= 0 && matB[j] < k|
  {
    if k == 0 {
      assert (set j | 0 <= j < |matB| && matB[j] >= 0 && matB[j] < k) == {};
    } else {
      MatchedPartners(matA, matB, k - 1);
      var prev := set j | 0 <= j < |matB| && matB[j] >= 0 && matB[j] < k - 1;
      var cur := set j | 0 <= j < |matB| && matB[j] >= 0 && matB[j] < k;
      if matA[k - 1] >= 0 {
        assert cur == prev + {matA[k - 1]};
      } else {
        assert cur == prev;
      }
    }
  }

  /**
   * The edit-distance library's alignment entry point
   * (`ed.EditDistanceFFull`): given the two lengths and the callbacks it
   * returns `(matA, matB)`.
   */
  type Aligner = (nat, nat, Costs) -> (seq<int>, seq<int>)

  /** What the engine assumes of the library's alignment. */
  ghost predicate IsAligner(ed: Aligner) {
    forall n: nat, m: nat, c: Costs ::
      |ed(n, m, c).0| == n && |ed(n, m, c).1| == m &&
      ValidAlignment(ed(n, m, c).0, ed(n, m, c).1) &&
      OrderPreserving(ed(n, m, c).0) &&
      AlignCost(ed(n, m, c).0, ed(n, m, c).1, c) == EditDistance(n, m, c)
  }
}

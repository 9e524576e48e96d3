/**
 * The token matcher's entry points (tm/tm.go:260-341): `MatchTokens` aligns
 * the tokens of two lines and repairs the bracket pairs, `DiffOfStrings`
 * and `CalcDiffOfSourceLine` score how different two lines are.
 */
module TokenMatch {
  import opened Text
  import opened Alignment
  import opened Tokenizer
  import opened Context
  import opened Brackets

  /** The flags `nearChecks` computes, as sequences. */
  function LeftFlags(a: seq<string>): (l: seq<bool>)
    ensures |l| == |a| && forall i :: 0 <= i < |a| ==> l[i] == LeftAt(a, i)
  {
    seq(|a|, i requires 0 <= i < |a| => LeftAt(a, i))
  }

  function RightFlags(a: seq<string>): (r: seq<bool>)
    ensures |r| == |a| && forall i :: 0 <= i < |a| ==> r[i] == RightAt(a, i)
  {
    seq(|a|, i requires 0 <= i < |a| => RightAt(a, i))
  }

  /** The cost tables `MatchTokens` hands to the edit-distance library. */
  function MatchCosts(delT: seq<string>, insT: seq<string>): (r: Costs) {
    TokenCosts(delT, insT, LeftFlags(delT), RightFlags(delT))
  }

  /** The bracket pairing of a token list. */
  function TokenPairs(tks: seq<string>): (r: seq<int>) {
    Pairs(Classes(tks), |tks|)
  }

  /**
   * `MatchTokens`: the library's optimal alignment under the context-aware
   * costs, then `alignPairs` run to its fixed point. The result is still a
   * mutually inverse, order-preserving alignment with as many matched tokens
   * as the library's, no bracket rewrite applies to it any more, every
   * pair it added links two bracket tokens, and every library pair it
   * dropped has a bracket token at one end.
   */
  method MatchTokens(delT: seq<string>, insT: seq<string>, ed: Aligner) returns (matA: seq<int>, matB: seq<int>)
    requires IsAligner(ed)
    ensures |matA| == |delT| && |matB| == |insT|
    ensures Setup(matA, matB, TokenPairs(delT), TokenPairs(insT)) && OrderPreserving(matA)
    ensures MatchedCount(matA, |delT|) == MatchedCount(ed(|delT|, |insT|, MatchCosts(delT, insT)).0, |delT|)
    ensures Stable(matA, matB, TokenPairs(delT), TokenPairs(insT))
    ensures PlainPairsKept(ed(|delT|, |insT|, MatchCosts(delT, insT)).0, matA, TokenPairs(delT), TokenPairs(insT))
  {
    var delL, delR := NearChecks(delT);
    assert delL == LeftFlags(delT) && delR == RightFlags(delT);
    var r := ed(|delT|, |insT|, TokenCosts(delT, insT, delL, delR));
    var a := new int[|r.0|](i requires 0 <= i < |r.0| => r.0[i]);
    var b := new int[|r.1|](j requires 0 <= j < |r.1| => r.1[j]);
    assert a[..] == r.0 && b[..] == r.1;
    var delP := FindPairs(delT);
    var insP := FindPairs(insT);
    ProperIsInvolution(Classes(delT), delP);
    ProperIsInvolution(Classes(insT), insP);
    AlignPairs(a, b, delP, insP);
    matA, matB := a[..], b[..];
  }

  /** Distinct strings are at character distance at least 1. */
  lemma StringDistancePositive(a: string, b: string)
    requires a != b
    ensures StringDistance(a, b) >= 1
  {
    var c := CharCosts(a, b);
    if StringDistance(a, b) <= 0 {
      EditDistanceZero(|a|, |b|, c);
      assert forall i :: 0 <= i < |a| ==> a[i] == b[i];
      assert false;
    }
  }

  /**
   * `DiffOfStrings`: 0 for equal strings, otherwise the character distance
   * scaled to `mx` by the longer length, so at most `mx`.
   */
  function DiffOfStrings(a: string, b: string, mx: int): (d: int)
    ensures a == b ==> d == 0
    ensures mx >= 0 ==> 0 <= d <= mx
  {
    if a == b then 0
    else
      StringDistanceBounds(a, b);
      var dist, longest := StringDistance(a, b), Max(|a|, |b|);
      assert mx >= 0 ==> 0 <= dist * mx / longest <= mx by {
        if mx >= 0 {
          ScaleAtMost(dist, mx, longest, 1);
        }
      }
      GoDiv(dist * mx, longest)
  }

  lemma DiffOfStringsSymmetric(a: string, b: string, mx: int)
    ensures DiffOfStrings(a, b, mx) == DiffOfStrings(b, a, mx)
  {
    StringDistanceSymmetric(a, b);
  }

  /** With a scale of at least the longer length, only equal strings score 0. */
  lemma DiffOfStringsZero(a: string, b: string, mx: int)
    requires mx >= |a| && mx >= |b|
    ensures DiffOfStrings(a, b, mx) == 0 <==> a == b
  {
    if a != b {
      StringDistancePositive(a, b);
      ScaleAtLeast(StringDistance(a, b), mx, Max(|a|, |b|));
    }
  }

  /** `key_WORDS`. */
  const Keywords: set<string> := {"if", "for", "return", "switch", "case", "select", "go"}

  /** `isKeywords`: which tokens are keywords. */
  method IsKeywords(a: seq<string>) returns (res: seq<bool>)
    ensures |res| == |a|
    ensures forall i :: 0 <= i < |a| ==> (res[i] <==> a[i] in Keywords)
  {
    var r := new bool[|a|];
    for i := 0 to |a|
      invariant forall k :: 0 <= k < i ==> (r[k] <==> a[k] in Keywords)
    {
      r[i] := a[i] in Keywords;
    }
    res := r[..];
  }

  function KeywordFlags(ts: seq<string>): (k: seq<bool>)
    ensures |k| == |ts| && forall i :: 0 <= i < |ts| ==> (k[i] <==> ts[i] in Keywords)
  {
    seq(|ts|, i requires 0 <= i < |ts| => ts[i] in Keywords)
  }

  /** The callbacks of `CalcDiffOfSourceLine`: substitution 0 or 50, keywords cost 2 to drop or add, other tokens 1. */
  function FlagCosts(delT: seq<string>, insT: seq<string>, delK: seq<bool>, insK: seq<bool>): (c: Costs)
    requires |delK| == |delT| && |insK| == |insT|
    ensures forall i, j :: 0 <= i < |delT| && 0 <= j < |insT| ==>
              SubCost(c, i, j) == (if delT[i] == insT[j] then 0 else 50)
    ensures forall i :: 0 <= i < |delT| ==> DelCost(c, i) == (if delK[i] then 2 else 1)
    ensures forall j :: 0 <= j < |insT| ==> InsCost(c, j) == (if insK[j] then 2 else 1)
  {
    Costs(seq(|delT|, i requires 0 <= i < |delT| =>
            seq(|insT|, j requires 0 <= j < |insT| => if delT[i] == insT[j] then 0 else 50)),
          seq(|delT|, i requires 0 <= i < |delT| => if delK[i] then 2 else 1),
          seq(|insT|, j requires 0 <= j < |insT| => if insK[j] then 2 else 1))
  }

  function LineCosts(delT: seq<string>, insT: seq<string>): (r: Costs) {
    FlagCosts(delT, insT, KeywordFlags(delT), KeywordFlags(insT))
  }

  /** Deleting and inserting every token costs at most twice the token count. */
  lemma {:induction false} LineCostSums(delT: seq<string>, insT: seq<string>, n: nat, m: nat)
    requires n <= |delT| && m <= |insT|
    ensures DelSum(n, LineCosts(delT, insT)) <= 2 * n
    ensures InsSum(m, LineCosts(delT, insT)) <= 2 * m
  {
    if n > 0 {
      LineCostSums(delT, insT, n - 1, m);
    }
    if m > 0 {
      LineCostSums(delT, insT, n, m - 1);
    }
  }

  /** The token edit distance `CalcDiffOfSourceLine` asks the library for. */
  function TokenDistance(a: string, b: string): (r: int) {
    var delT, insT := Tokenize(a), Tokenize(b);
    EditDistance(|delT|, |insT|, LineCosts(delT, insT))
  }

  /** The token distance is at most twice the token count. */
  lemma TokenDistanceBounds(a: string, b: string)
    ensures 0 <= TokenDistance(a, b) <= 2 * (|Tokenize(a)| + |Tokenize(b)|)
  {
    var delT, insT := Tokenize(a), Tokenize(b);
    var n, m, c := |delT|, |insT|, LineCosts(delT, insT);
    EditDistanceNonNegative(n, m, c);
    EditDistanceAtMostDeleteInsert(n, m, c);
    LineCostSums(delT, insT, n, m);
  }

  /** The token distance is 0 exactly when the lines are equal. */
  lemma TokenDistanceZero(a: string, b: string)
    ensures TokenDistance(a, b) == 0 <==> a == b
  {
    var delT, insT := Tokenize(a), Tokenize(b);
    var n, m, c := |delT|, |insT|, LineCosts(delT, insT);
    EditDistanceNonNegative(n, m, c);
    if a == b {
      EditDistanceZeroDiagonal(n, c);
    } else if EditDistance(n, m, c) <= 0 {
      EditDistanceZero(n, m, c);
      assert delT == insT by {
        assert forall i :: 0 <= i < n ==> SubCost(c, i, i) == 0;
      }
      TokenizeLossless(a);
      TokenizeLossless(b);
      assert false;
    }
  }

  /**
   * The value of `CalcDiffOfSourceLine`: 0 for equal lines, otherwise the
   * token distance scaled by `mx` over the total token count (which is
   * positive, since one of the lines is not empty).
   */
  function SourceLineDiff(a: string, b: string, mx: int): (r: int) {
    if a == b then 0
    else GoDiv(TokenDistance(a, b) * mx, |Tokenize(a)| + |Tokenize(b)|)
  }

  /** The score lies within `[0, 2 * mx]`, and is 0 on equal lines. */
  lemma SourceLineDiffBounds(a: string, b: string, mx: nat)
    ensures a == b ==> SourceLineDiff(a, b, mx) == 0
    ensures 0 <= SourceLineDiff(a, b, mx) <= 2 * mx
  {
    if a != b {
      TokenDistanceBounds(a, b);
      GoDivScaleAtMost(TokenDistance(a, b), mx, |Tokenize(a)| + |Tokenize(b)|, 2);
    }
  }

  /** Exchanging the lines leaves the score unchanged. */
  lemma SourceLineDiffSymmetric(a: string, b: string, mx: int)
    ensures SourceLineDiff(a, b, mx) == SourceLineDiff(b, a, mx)
  {
    if a != b {
      var delT, insT := Tokenize(a), Tokenize(b);
      EditDistanceSwap(|delT|, |insT|, LineCosts(delT, insT), LineCosts(insT, delT));
    }
  }

  /** With a scale of at least the total length, only equal lines score 0. */
  lemma SourceLineDiffZero(a: string, b: string, mx: int)
    requires mx >= |a| + |b|
    ensures SourceLineDiff(a, b, mx) == 0 <==> a == b
  {
    if a != b {
      TokenDistanceBounds(a, b);
      TokenDistanceZero(a, b);
      TokenCount(a);
      TokenCount(b);
      GoDivScaleAtLeast(TokenDistance(a, b), mx, |Tokenize(a)| + |Tokenize(b)|);
    }
  }

  /** `CalcDiffOfSourceLine` (tm/tm.go:314-341). */
  method CalcDiffOfSourceLine(a: string, b: string, mx: int) returns (d: int)
    ensures d == SourceLineDiff(a, b, mx)
  {
    if a == b {
      return 0;
    }
    var delT := LineToTokens(a);
    var insT := LineToTokens(b);
    var delK := IsKeywords(delT);
    var insK := IsKeywords(insT);
    assert delK == KeywordFlags(delT) && insK == KeywordFlags(insT);
    var diff := EditDistance(|delT|, |insT|, FlagCosts(delT, insT, delK, insK));
    assert diff == TokenDistance(a, b);
    d := GoDiv(diff * mx, |delT| + |insT|);
  }
}

/**
 * Bracket pairing inside a token list (`findPairs`, tm/tm.go:156-191) and the
 * fix-up that keeps matched bracket pairs consistent across the two sides of
 * a token alignment (`noMatchBetween` and `alignPairs`, tm/tm.go:193-258).
 */
module Brackets {
  import opened Alignment

  datatype Shape = Round | Square | Curly

  datatype Bracket = Opening(shape: Shape) | Closing(shape: Shape) | Plain

  /** The cases of the `switch tk` in `findPairs`. */
  function BracketOf(tk: string): (r: Bracket) {
    if tk == "(" then Opening(Round)
    else if tk == ")" then Closing(Round)
    else if tk == "[" then Opening(Square)
    else if tk == "]" then Closing(Square)
    else if tk == "{" then Opening(Curly)
    else if tk == "}" then Closing(Curly)
    else Plain
  }

  /** The bracket class of every token. */
  function Classes(tks: seq<string>): (bs: seq<Bracket>)
    ensures |bs| == |tks| && forall i :: 0 <= i < |tks| ==> bs[i] == BracketOf(tks[i])
  {
    seq(|tks|, i requires 0 <= i < |tks| => BracketOf(tks[i]))
  }

  /** The stack of still unclosed openers of one shape after the first `n` tokens (`s0`, `s1`, `s2`). */
  function Open(bs: seq<Bracket>, sh: Shape, n: nat): (r: seq<int>)
    requires n <= |bs|
  {
    if n == 0 then []
    else
      var s := Open(bs, sh, n - 1);
      var b := bs[n - 1];
      if b == Opening(sh) then s + [n - 1]
      else if b == Closing(sh) && |s| > 0 then s[..|s| - 1]
      else s
  }

  /** A stack holds earlier openers of its shape, in increasing order. */
  lemma {:induction false} OpenFacts(bs: seq<Bracket>, sh: Shape, n: nat)
    requires n <= |bs|
    ensures forall x :: 0 <= x < |Open(bs, sh, n)| ==> 0 <= Open(bs, sh, n)[x] < n && bs[Open(bs, sh, n)[x]] == Opening(sh)
    ensures forall x, y :: 0 <= x < y < |Open(bs, sh, n)| ==> Open(bs, sh, n)[x] < Open(bs, sh, n)[y]
  {
    if n > 0 {
      OpenFacts(bs, sh, n - 1);
    }
  }

  /** The `pairs` array after the first `n` tokens: a closer is linked with the top of its stack. */
  function Pairs(bs: seq<Bracket>, n: nat): (p: seq<int>)
    requires n <= |bs|
    ensures |p| == n
    ensures forall i :: 0 <= i < n ==> -1 <= p[i] < n
  {
    if n == 0 then []
    else
      var i := n - 1;
      var p := Pairs(bs, i) + [-1];
      match bs[i]
      case Closing(sh) =>
        var s := Open(bs, sh, i);
        OpenFacts(bs, sh, i);
        if |s| > 0 then p[i := s[|s| - 1]][s[|s| - 1] := i] else p
      case _ => p
  }

  /** Token `i` opens a bracket that token `j`, later, closes. */
  predicate Matching(bs: seq<Bracket>, i: int, j: int)
    requires 0 <= i < |bs| && 0 <= j < |bs|
  {
    i < j && bs[i].Opening? && bs[j] == Closing(bs[i].shape)
  }

  /** A symmetric partial pairing of tokens, -1 for "no partner", that links only an opener with a later closer of its shape. */
  predicate ProperPairing(bs: seq<Bracket>, p: seq<int>)
    requires |p| <= |bs|
  {
    (forall i :: 0 <= i < |p| ==> -1 <= p[i] < |p|) &&
    (forall i :: 0 <= i < |p| && p[i] >= 0 ==>
       p[p[i]] == i && (Matching(bs, i, p[i]) || Matching(bs, p[i], i)))
  }

  /**
   * Every opener strictly between a closer and its partner (or, for a closer
   * without partner, every opener before it) of the same shape is closed
   * before that closer: a closer takes the nearest unclosed opener.
   */
  predicate NearestOpener(bs: seq<Bracket>, p: seq<int>)
    requires |p| <= |bs| && forall i :: 0 <= i < |p| ==> -1 <= p[i] < |p|
  {
    forall j, k :: 0 <= j < |p| && p[j] < k < j && bs[j].Closing? &&
                   bs[k] == Opening(bs[j].shape) ==>
      k < p[k] < j
  }

  /** The openers on the stacks are exactly those without partner so far. */
  predicate StacksUnclosed(bs: seq<Bracket>, n: nat)
    requires n <= |bs|
  {
    forall k :: 0 <= k < n && bs[k].Opening? ==>
      (Pairs(bs, n)[k] == -1 <==> k in Open(bs, bs[k].shape, n))
  }

  lemma OpenPush(bs: seq<Bracket>, i: nat, sh: Shape)
    requires i < |bs| && bs[i] == Opening(sh)
    ensures Open(bs, sh, i + 1) == Open(bs, sh, i) + [i]
  {
  }

  lemma OpenPop(bs: seq<Bracket>, i: nat, sh: Shape)
    requires i < |bs| && bs[i] == Closing(sh)
    ensures var s := Open(bs, sh, i); Open(bs, sh, i + 1) == if |s| > 0 then s[..|s| - 1] else s
  {
  }

  lemma OpenSame(bs: seq<Bracket>, i: nat, sh: Shape)
    requires i < |bs| && bs[i] != Opening(sh) && bs[i] != Closing(sh)
    ensures Open(bs, sh, i + 1) == Open(bs, sh, i)
  {
  }

  lemma PairsOther(bs: seq<Bracket>, i: nat)
    requires i < |bs| && !bs[i].Closing?
    ensures Pairs(bs, i + 1) == Pairs(bs, i) + [-1]
  {
  }

  lemma PairsClose(bs: seq<Bracket>, i: nat, sh: Shape)
    requires i < |bs| && bs[i] == Closing(sh)
    ensures var s := Open(bs, sh, i);
            (|s| > 0 ==> 0 <= s[|s| - 1] < i) &&
            Pairs(bs, i + 1) ==
              if |s| > 0 then (Pairs(bs, i) + [-1])[i := s[|s| - 1]][s[|s| - 1] := i]
              else Pairs(bs, i) + [-1]
  {
    OpenFacts(bs, sh, i);
  }

  /** An opener or a plain token adds an entry -1 and keeps the stacks of the other shapes. */
  lemma ProperStepOther(bs: seq<Bracket>, i: nat)
    requires i < |bs| && !bs[i].Closing?
    requires ProperPairing(bs, Pairs(bs, i)) && StacksUnclosed(bs, i)
    ensures ProperPairing(bs, Pairs(bs, i + 1)) && StacksUnclosed(bs, i + 1)
  {
    PairsOther(bs, i);
    PairingExtend(bs, Pairs(bs, i));
    UnclosedStepOther(bs, i);
  }

  lemma PairingExtend(bs: seq<Bracket>, p: seq<int>)
    requires |p| < |bs| && ProperPairing(bs, p)
    ensures ProperPairing(bs, p + [-1])
  {
  }

  lemma UnclosedStepOther(bs: seq<Bracket>, i: nat)
    requires i < |bs| && !bs[i].Closing? && StacksUnclosed(bs, i)
    ensures StacksUnclosed(bs, i + 1)
  {
    PairsOther(bs, i);
    forall k | 0 <= k < i + 1 && bs[k].Opening?
      ensures Pairs(bs, i + 1)[k] == -1 <==> k in Open(bs, bs[k].shape, i + 1)
    {
      var sh := bs[k].shape;
      if bs[i] == Opening(sh) {
        OpenPush(bs, i, sh);
      } else {
        OpenSame(bs, i, sh);
      }
    }
  }

  /** A closer with an empty stack adds an entry -1. */
  lemma ProperStepUnmatched(bs: seq<Bracket>, i: nat, sh: Shape)
    requires i < |bs| && bs[i] == Closing(sh) && |Open(bs, sh, i)| == 0
    requires ProperPairing(bs, Pairs(bs, i)) && StacksUnclosed(bs, i)
    ensures ProperPairing(bs, Pairs(bs, i + 1)) && StacksUnclosed(bs, i + 1)
  {
    PairsClose(bs, i, sh);
    PairingExtend(bs, Pairs(bs, i));
    UnclosedStepUnmatched(bs, i, sh);
  }

  lemma UnclosedStepUnmatched(bs: seq<Bracket>, i: nat, sh: Shape)
    requires i < |bs| && bs[i] == Closing(sh) && |Open(bs, sh, i)| == 0 && StacksUnclosed(bs, i)
    ensures StacksUnclosed(bs, i + 1)
  {
    PairsClose(bs, i, sh);
    forall k | 0 <= k < i + 1 && bs[k].Opening?
      ensures Pairs(bs, i + 1)[k] == -1 <==> k in Open(bs, bs[k].shape, i + 1)
    {
      if bs[k].shape == sh {
        OpenPop(bs, i, sh);
      } else {
        OpenSame(bs, i, bs[k].shape);
      }
    }
  }

  /** A closer with a non-empty stack is linked with the top of the stack, which it pops. */
  lemma ProperStepMatched(bs: seq<Bracket>, i: nat, sh: Shape)
    requires i < |bs| && bs[i] == Closing(sh) && |Open(bs, sh, i)| > 0
    requires ProperPairing(bs, Pairs(bs, i)) && StacksUnclosed(bs, i)
    ensures ProperPairing(bs, Pairs(bs, i + 1))
  {
    PairsClose(bs, i, sh);
    OpenFacts(bs, sh, i);
    var P, p := Pairs(bs, i), Pairs(bs, i + 1);
    var s := Open(bs, sh, i);
    var t := s[|s| - 1];
    assert P[t] == -1;
    forall x | 0 <= x < i + 1 && p[x] >= 0
      ensures p[p[x]] == x && (Matching(bs, x, p[x]) || Matching(bs, p[x], x))
    {
      if x != i && x != t {
        assert P[x] != t;
      }
    }
  }

  lemma StacksStepMatched(bs: seq<Bracket>, i: nat, sh: Shape)
    requires i < |bs| && bs[i] == Closing(sh) && |Open(bs, sh, i)| > 0
    requires StacksUnclosed(bs, i)
    ensures StacksUnclosed(bs, i + 1)
  {
    PairsClose(bs, i, sh);
    OpenPop(bs, i, sh);
    OpenFacts(bs, sh, i);
    forall sh' | sh' != sh
      ensures Open(bs, sh', i + 1) == Open(bs, sh', i)
    {
      OpenSame(bs, i, sh');
    }
    var P, p := Pairs(bs, i), Pairs(bs, i + 1);
    var s := Open(bs, sh, i);
    var t := s[|s| - 1];
    forall k | 0 <= k < i + 1 && bs[k].Opening?
      ensures p[k] == -1 <==> k in Open(bs, bs[k].shape, i + 1)
    {
      if bs[k].shape == sh {
        if k == t {
          assert t !in s[..|s| - 1];
        } else {
          assert k in s[..|s| - 1] <==> k in s;
        }
      }
    }
  }

  lemma {:induction false} PairsProper(bs: seq<Bracket>, n: nat)
    requires n <= |bs|
    ensures ProperPairing(bs, Pairs(bs, n))
    ensures StacksUnclosed(bs, n)
  {
    if n > 0 {
      var i := n - 1;
      PairsProper(bs, i);
      match bs[i]
      case Closing(sh) =>
        if |Open(bs, sh, i)| > 0 {
          ProperStepMatched(bs, i, sh);
          StacksStepMatched(bs, i, sh);
        } else {
          ProperStepUnmatched(bs, i, sh);
        }
      case _ =>
        ProperStepOther(bs, i);
    }
  }

  lemma NearestStepOther(bs: seq<Bracket>, i: nat)
    requires i < |bs| && !bs[i].Closing?
    requires NearestOpener(bs, Pairs(bs, i))
    ensures NearestOpener(bs, Pairs(bs, i + 1))
  {
    PairsOther(bs, i);
  }

  lemma NearestStepUnmatched(bs: seq<Bracket>, i: nat, sh: Shape)
    requires i < |bs| && bs[i] == Closing(sh) && |Open(bs, sh, i)| == 0
    requires NearestOpener(bs, Pairs(bs, i)) && ProperPairing(bs, Pairs(bs, i)) && StacksUnclosed(bs, i)
    ensures NearestOpener(bs, Pairs(bs, i + 1))
  {
    PairsClose(bs, i, sh);
    var P, p := Pairs(bs, i), Pairs(bs, i + 1);
    forall k | 0 <= k < i && bs[k] == Opening(sh)
      ensures k < p[k] < i
    {
      assert k !in Open(bs, sh, i);
    }
  }

  lemma NearestStepMatched(bs: seq<Bracket>, i: nat, sh: Shape)
    requires i < |bs| && bs[i] == Closing(sh) && |Open(bs, sh, i)| > 0
    requires NearestOpener(bs, Pairs(bs, i)) && ProperPairing(bs, Pairs(bs, i)) && StacksUnclosed(bs, i)
    ensures NearestOpener(bs, Pairs(bs, i + 1))
  {
    PairsClose(bs, i, sh);
    OpenFacts(bs, sh, i);
    var p := Pairs(bs, i + 1);
    forall j, k | 0 <= j < i + 1 && p[j] < k < j && bs[j].Closing? && bs[k] == Opening(bs[j].shape)
      ensures k < p[k] < j
    {
      if j == i {
        NearestMatchedNew(bs, i, sh, k);
      } else {
        NearestMatchedOld(bs, i, sh, j, k);
      }
    }
  }

  /** An opener between the new closer and the opener it takes was closed earlier. */
  lemma NearestMatchedNew(bs: seq<Bracket>, i: nat, sh: Shape, k: nat)
    requires i < |bs| && bs[i] == Closing(sh) && |Open(bs, sh, i)| > 0
    requires ProperPairing(bs, Pairs(bs, i)) && StacksUnclosed(bs, i)
    requires Open(bs, sh, i)[|Open(bs, sh, i)| - 1] < k < i && bs[k] == Opening(sh)
    ensures k < Pairs(bs, i + 1)[k] < i
  {
    PairsClose(bs, i, sh);
    OpenFacts(bs, sh, i);
    var s := Open(bs, sh, i);
    assert k !in s;
  }

  /** Links made before the new closer are untouched by it. */
  lemma NearestMatchedOld(bs: seq<Bracket>, i: nat, sh: Shape, j: nat, k: nat)
    requires i < |bs| && bs[i] == Closing(sh) && |Open(bs, sh, i)| > 0
    requires NearestOpener(bs, Pairs(bs, i)) && StacksUnclosed(bs, i)
    requires j < i && bs[j].Closing? && Pairs(bs, i + 1)[j] < k < j && bs[k] == Opening(bs[j].shape)
    ensures k < Pairs(bs, i + 1)[k] < j
  {
    PairsClose(bs, i, sh);
    OpenFacts(bs, sh, i);
    var s := Open(bs, sh, i);
    var t := s[|s| - 1];
    assert Pairs(bs, i)[t] == -1;
  }

  lemma {:induction false} PairsNearest(bs: seq<Bracket>, n: nat)
    requires n <= |bs|
    ensures NearestOpener(bs, Pairs(bs, n))
  {
    if n > 0 {
      var i := n - 1;
      PairsNearest(bs, i);
      PairsProper(bs, i);
      match bs[i]
      case Closing(sh) =>
        if |Open(bs, sh, i)| > 0 {
          NearestStepMatched(bs, i, sh);
        } else {
          NearestStepUnmatched(bs, i, sh);
        }
      case _ =>
        NearestStepOther(bs, i);
    }
  }

  /** The closing case of the scan: pop the nearest unclosed opener, if any, and link the two. */
  method Close(p: array<int>, s: seq<int>, i: nat, ghost bs: seq<Bracket>, ghost sh: Shape) returns (s': seq<int>)
    requires i < p.Length && i < |bs| && bs[i] == Closing(sh)
    requires s == Open(bs, sh, i) && p[..i + 1] == Pairs(bs, i) + [-1]
    modifies p
    ensures s' == Open(bs, sh, i + 1) && p[..i + 1] == Pairs(bs, i + 1)
  {
    OpenFacts(bs, sh, i);
    OpenPop(bs, i, sh);
    PairsClose(bs, i, sh);
    s' := s;
    if |s'| > 0 {
      var j := s'[|s'| - 1];
      s' := s'[..|s'| - 1];
      ghost var q := p[..i + 1];
      p[i], p[j] := j, i;
      assert p[..i + 1] == q[i := j][j := i];
    }
  }

  /** `findPairs`: the three-stack scan. */
  method FindPairs(tks: seq<string>) returns (pairs: seq<int>)
    ensures pairs == Pairs(Classes(tks), |tks|)
    ensures |pairs| == |tks|
    ensures ProperPairing(Classes(tks), pairs) && NearestOpener(Classes(tks), pairs)
  {
    ghost var bs := Classes(tks);
    var p := new int[|tks|];
    var s0: seq<int>, s1: seq<int>, s2: seq<int> := [], [], [];
    var i := 0;
    while i < |tks|
      invariant 0 <= i <= |tks|
      invariant s0 == Open(bs, Round, i) && s1 == Open(bs, Square, i) && s2 == Open(bs, Curly, i)
      invariant p[..i] == Pairs(bs, i)
    {
      var b := BracketOf(tks[i]);
      assert bs[i] == b;
      p[i] := -1;
      assert p[..i + 1] == Pairs(bs, i) + [-1];
      match b {
        case Opening(Round) =>
          OpenPush(bs, i, Round);
          OpenSame(bs, i, Square);
          OpenSame(bs, i, Curly);
          PairsOther(bs, i);
          s0 := s0 + [i];
        case Closing(Round) =>
          OpenSame(bs, i, Square);
          OpenSame(bs, i, Curly);
          s0 := Close(p, s0, i, bs, Round);
        case Opening(Square) =>
          OpenSame(bs, i, Round);
          OpenPush(bs, i, Square);
          OpenSame(bs, i, Curly);
          PairsOther(bs, i);
          s1 := s1 + [i];
        case Closing(Square) =>
          OpenSame(bs, i, Round);
          OpenSame(bs, i, Curly);
          s1 := Close(p, s1, i, bs, Square);
        case Opening(Curly) =>
          OpenSame(bs, i, Round);
          OpenSame(bs, i, Square);
          OpenPush(bs, i, Curly);
          PairsOther(bs, i);
          s2 := s2 + [i];
        case Closing(Curly) =>
          OpenSame(bs, i, Round);
          OpenSame(bs, i, Square);
          s2 := Close(p, s2, i, bs, Curly);
        case Plain =>
          OpenSame(bs, i, Round);
          OpenSame(bs, i, Square);
          OpenSame(bs, i, Curly);
          PairsOther(bs, i);
      }
      ghost var done := p[..i + 1];
      i := i + 1;
      assert p[..i] == done;
    }
    assert p[..] == p[..i];
    pairs := p[..];
    PairsProper(bs, |tks|);
    PairsNearest(bs, |tks|);
  }

  /** No entry strictly between positions `p1` and `p2`, in either order, is matched. */
  predicate NoneBetween(mat: seq<int>, p1: int, p2: int) {
    forall x :: 0 <= x < |mat| && (p1 < x < p2 || p2 < x < p1) ==> mat[x] < 0
  }

  /** `noMatchBetween` (tm/tm.go:193-204). */
  method NoMatchBetween(mat: array<int>, p1: int, p2: int) returns (r: bool)
    requires -1 <= p1 <= mat.Length && -1 <= p2 <= mat.Length
    ensures r <==> NoneBetween(mat[..], p1, p2)
  {
    var lo, hi := p1, p2;
    if hi < lo {
      lo, hi := hi, lo;
    }
    var i := lo + 1;
    while i < hi
      invariant lo + 1 <= i && (i <= hi || i == lo + 1)
      invariant forall x :: lo < x < i ==> mat[x] < 0
    {
      if mat[i] >= 0 {
        return false;
      }
      i := i + 1;
    }
    return true;
  }

  /** A symmetric, irreflexive partial pairing, -1 for "no partner": what `findPairs` returns. */
  predicate Involution(p: seq<int>) {
    forall i :: 0 <= i < |p| ==> -1 <= p[i] < |p| && (p[i] >= 0 ==> p[i] != i && p[p[i]] == i)
  }

  lemma ProperIsInvolution(bs: seq<Bracket>, p: seq<int>)
    requires |p| <= |bs| && ProperPairing(bs, p)
    ensures Involution(p)
  {
  }

  /** The arguments of `alignPairs`: an alignment of two token lists and the bracket pairings of both lists. */
  predicate Setup(a: seq<int>, b: seq<int>, pa: seq<int>, pb: seq<int>) {
    ValidAlignment(a, b) && |pa| == |a| && |pb| == |b| && Involution(pa) && Involution(pb)
  }

  /**
   * Token `i` of side A: matched with `k`, whose bracket partner `l` on side B
   * is matched with the same partner as that of `i`'s own bracket partner.
   */
  predicate Consistent(a: seq<int>, pa: seq<int>, pb: seq<int>, i: int) {
    0 <= i < |a| && i < |pa| && 0 <= a[i] < |pb| && 0 <= pa[i] < |a| && 0 <= pb[a[i]] && a[pa[i]] == pb[a[i]]
  }

  function Inconsistent(a: seq<int>, pa: seq<int>, pb: seq<int>): (r: set<int>) {
    set i | 0 <= i < |a| && !Consistent(a, pa, pb, i)
  }

  /**
   * The condition under which the first loop of `alignPairs` rewrites at `i`
   * (the second loop is the same with the sides swapped): `i` is matched with
   * `k`, `i`'s bracket partner `j` is unmatched, `k`'s bracket partner `l` is
   * matched with some `m`, and nothing between `j` and `m` is matched.
   */
  predicate CanRewrite(a: seq<int>, b: seq<int>, pa: seq<int>, pb: seq<int>, i: int)
    requires Setup(a, b, pa, pb) && 0 <= i < |a|
  {
    pa[i] >= 0 && a[i] >= 0 && a[pa[i]] < 0 && pb[a[i]] >= 0 && b[pb[a[i]]] >= 0 &&
    NoneBetween(a, pa[i], b[pb[a[i]]])
  }

  /** No rewrite applies on either side: the fixed point `alignPairs` stops at. */
  predicate Stable(a: seq<int>, b: seq<int>, pa: seq<int>, pb: seq<int>)
    requires Setup(a, b, pa, pb)
  {
    (forall i :: 0 <= i < |a| ==> !CanRewrite(a, b, pa, pb, i)) &&
    (forall i :: 0 <= i < |b| ==> !CanRewrite(b, a, pb, pa, i))
  }

  /** Order preservation seen from the other side. */
  lemma OrderMirror(a: seq<int>, b: seq<int>)
    requires ValidAlignment(a, b) && OrderPreserving(a)
    ensures OrderPreserving(b)
  {
    forall y1, y2 | 0 <= y1 < y2 < |b| && b[y1] >= 0 && b[y2] >= 0
      ensures b[y1] < b[y2]
    {
    }
  }

  /** The rewrite keeps a valid alignment. */
  lemma RewriteValid(a: seq<int>, b: seq<int>, pa: seq<int>, pb: seq<int>, i: int, j: int, k: int, l: int, m: int)
    requires Setup(a, b, pa, pb) && 0 <= i < |a| && CanRewrite(a, b, pa, pb, i)
    requires j == pa[i] && k == a[i] && l == pb[k] && m == b[l]
    ensures j != m
    ensures Setup(a[j := l][m := -1], b[l := j], pa, pb)
  {
  }

  /** The rewrite keeps the alignment order-preserving: nothing between `j` and `m` is matched. */
  lemma RewriteOrder(a: seq<int>, b: seq<int>, pa: seq<int>, pb: seq<int>, i: int, j: int, k: int, l: int, m: int)
    requires Setup(a, b, pa, pb) && 0 <= i < |a| && CanRewrite(a, b, pa, pb, i)
    requires j == pa[i] && k == a[i] && l == pb[k] && m == b[l]
    requires OrderPreserving(a)
    ensures OrderPreserving(a[j := l][m := -1])
  {
    var a' := a[j := l][m := -1];
    forall x, y | 0 <= x < y < |a'| && a'[x] >= 0 && a'[y] >= 0
      ensures a'[x] < a'[y]
    {
      if x == j {
        assert a[y] >= 0 && l == a[m];
      } else if y == j {
        assert a[x] >= 0 && l == a[m];
      }
    }
  }

  /** The rewrite keeps the number of matched tokens on both sides. */
  lemma RewriteCount(a: seq<int>, b: seq<int>, pa: seq<int>, pb: seq<int>, i: int, j: int, k: int, l: int, m: int)
    requires Setup(a, b, pa, pb) && 0 <= i < |a| && CanRewrite(a, b, pa, pb, i)
    requires j == pa[i] && k == a[i] && l == pb[k] && m == b[l]
    ensures MatchedCount(a[j := l][m := -1], |a|) == MatchedCount(a, |a|)
    ensures MatchedCount(b[l := j], |b|) == MatchedCount(b, |b|)
  {
    MatchedCountUpdate(a, |a|, j, l);
    MatchedCountUpdate(a[j := l], |a|, m, -1);
    MatchedCountUpdate(b, |b|, l, j);
  }

  /** The rewrite makes `i` consistent and spoils no consistent token of side A. */
  lemma RewriteProgress(a: seq<int>, b: seq<int>, pa: seq<int>, pb: seq<int>, i: int, j: int, k: int, l: int, m: int)
    requires Setup(a, b, pa, pb) && 0 <= i < |a| && CanRewrite(a, b, pa, pb, i)
    requires j == pa[i] && k == a[i] && l == pb[k] && m == b[l]
    ensures Inconsistent(a[j := l][m := -1], pa, pb) < Inconsistent(a, pa, pb)
  {
    var a' := a[j := l][m := -1];
    forall x | Consistent(a, pa, pb, x)
      ensures Consistent(a', pa, pb, x)
    {
      assert pa[j] == i && pb[l] == k && b[k] == i;
      assert x != i && x != j && x != m;
    }
    assert i in Inconsistent(a, pa, pb);
    assert i !in Inconsistent(a', pa, pb);
  }

  /** The rewrite makes `l` consistent and spoils no consistent token of side B. */
  lemma RewriteProgressOther(a: seq<int>, b: seq<int>, pa: seq<int>, pb: seq<int>, i: int, j: int, k: int, l: int, m: int)
    requires Setup(a, b, pa, pb) && 0 <= i < |a| && CanRewrite(a, b, pa, pb, i)
    requires j == pa[i] && k == a[i] && l == pb[k] && m == b[l]
    ensures Inconsistent(b[l := j], pb, pa) < Inconsistent(b, pb, pa)
  {
    var b' := b[l := j];
    forall y | Consistent(b, pb, pa, y)
      ensures Consistent(b', pb, pa, y)
    {
      assert pa[j] == i && pb[l] == k && b[k] == i;
      assert y != l && y != k;
      assert pb[y] != l;
    }
    assert l in Inconsistent(b, pb, pa);
    assert l !in Inconsistent(b', pb, pa);
  }

  /**
   * What `alignPairs` may change, seen from side A: a pair of two tokens
   * without a bracket partner is kept, and every pair that was not there
   * before links a token with a bracket partner to a token with one.
   */
  predicate PlainPairsKept(a0: seq<int>, a: seq<int>, pa: seq<int>, pb: seq<int>)
    requires |pa| == |a0|
  {
    |a| == |a0| &&
    (forall i {:trigger a[i], a0[i]} :: 0 <= i < |a0| && 0 <= a0[i] < |pb| && pa[i] < 0 && pb[a0[i]] < 0 ==> a[i] == a0[i]) &&
    (forall i {:trigger a[i], a0[i]} :: 0 <= i < |a| && a[i] >= 0 && a[i] != a0[i] ==> pa[i] >= 0 && 0 <= a[i] < |pb| && pb[a[i]] >= 0)
  }

  /** A rewrite keeps the plain pairs: it adds the bracket pair `(j, l)` and drops `(m, l)`, whose `l` is a bracket. */
  lemma RewriteKept(a: seq<int>, b: seq<int>, pa: seq<int>, pb: seq<int>, i: int, j: int, k: int, l: int, m: int)
    requires Setup(a, b, pa, pb) && 0 <= i < |a| && CanRewrite(a, b, pa, pb, i)
    requires j == pa[i] && k == a[i] && l == pb[k] && m == b[l]
    ensures PlainPairsKept(a, a[j := l][m := -1], pa, pb)
  {
    var a' := a[j := l][m := -1];
    forall x | 0 <= x < |a| && 0 <= a[x] < |pb| && pa[x] < 0 && pb[a[x]] < 0
      ensures a'[x] == a[x]
    {
      assert x != j;
    }
  }

  /** Keeping plain pairs composes. */
  lemma {:induction false} KeptTrans(a0: seq<int>, a1: seq<int>, a2: seq<int>, pa: seq<int>, pb: seq<int>)
    requires |pa| == |a0| && PlainPairsKept(a0, a1, pa, pb) && PlainPairsKept(a1, a2, pa, pb)
    ensures PlainPairsKept(a0, a2, pa, pb)
  {
    forall i | 0 <= i < |a0| && 0 <= a0[i] < |pb| && pa[i] < 0 && pb[a0[i]] < 0
      ensures a2[i] == a0[i]
    {
      assert a1[i] == a0[i];
    }
    forall i | 0 <= i < |a2| && a2[i] >= 0 && a2[i] != a0[i]
      ensures pa[i] >= 0 && 0 <= a2[i] < |pb| && pb[a2[i]] >= 0
    {
      if a2[i] == a1[i] {
        assert a1[i] >= 0 && a1[i] != a0[i];
      }
    }
  }

  /** Keeping plain pairs on side B is keeping them on side A. */
  lemma {:induction false} KeptMirror(a0: seq<int>, b0: seq<int>, a: seq<int>, b: seq<int>, pa: seq<int>, pb: seq<int>)
    requires Setup(a0, b0, pa, pb) && Setup(a, b, pa, pb)
    requires PlainPairsKept(b0, b, pb, pa)
    ensures PlainPairsKept(a0, a, pa, pb)
  {
    forall i | 0 <= i < |a0| && 0 <= a0[i] < |pb| && pa[i] < 0 && pb[a0[i]] < 0
      ensures a[i] == a0[i]
    {
      var k := a0[i];
      assert b0[k] == i && b[k] == b0[k];
    }
    forall i | 0 <= i < |a| && a[i] >= 0 && a[i] != a0[i]
      ensures pa[i] >= 0 && 0 <= a[i] < |pb| && pb[a[i]] >= 0
    {
      var k := a[i];
      assert b[k] == i;
      assert b0[k] != i;
      assert b[k] >= 0 && b[k] != b0[k];
    }
  }

  /** The rewrite itself: `j` takes over `l` from `m`. */
  method Relink(x: array<int>, y: array<int>, px: seq<int>, py: seq<int>, i: int, j: int, k: int, l: int, m: int)
    requires x != y && Setup(x[..], y[..], px, py) && OrderPreserving(x[..])
    requires 0 <= i < x.Length && CanRewrite(x[..], y[..], px, py, i)
    requires j == px[i] && k == x[i] && l == py[k] && m == y[l]
    modifies x, y
    ensures x[..] == old(x[..])[j := l][m := -1] && y[..] == old(y[..])[l := j]
    ensures Setup(x[..], y[..], px, py) && OrderPreserving(x[..])
    ensures MatchedCount(x[..], x.Length) == old(MatchedCount(x[..], x.Length))
    ensures Inconsistent(x[..], px, py) < old(Inconsistent(x[..], px, py))
    ensures Inconsistent(y[..], py, px) < old(Inconsistent(y[..], py, px))
  {
    ghost var a, b := x[..], y[..];
    RewriteValid(a, b, px, py, i, j, k, l, m);
    RewriteOrder(a, b, px, py, i, j, k, l, m);
    RewriteCount(a, b, px, py, i, j, k, l, m);
    RewriteProgress(a, b, px, py, i, j, k, l, m);
    RewriteProgressOther(a, b, px, py, i, j, k, l, m);
    x[j], x[m], y[l] := l, -1, j;
    assert x[..] == a[j := l][m := -1] && y[..] == b[l := j];
  }

  /** The body of the sweep at token `i`: the rewrite, if it applies. */
  method TryRewrite(x: array<int>, y: array<int>, px: seq<int>, py: seq<int>, i: int) returns (rewrote: bool)
    requires x != y && Setup(x[..], y[..], px, py) && OrderPreserving(x[..]) && 0 <= i < x.Length
    modifies x, y
    ensures Setup(x[..], y[..], px, py) && OrderPreserving(x[..])
    ensures MatchedCount(x[..], x.Length) == old(MatchedCount(x[..], x.Length))
    ensures rewrote ==> Inconsistent(x[..], px, py) < old(Inconsistent(x[..], px, py)) &&
                        Inconsistent(y[..], py, px) < old(Inconsistent(y[..], py, px))
    ensures !rewrote ==> x[..] == old(x[..]) && y[..] == old(y[..]) && !CanRewrite(x[..], y[..], px, py, i)
    ensures rewrote <==> old(CanRewrite(x[..], y[..], px, py, i))
    ensures rewrote ==> var j := px[i]; var l := py[old(x[i])];
              x[..] == old(x[..])[j := l][old(y[l]) := -1] && y[..] == old(y[..])[l := j]
    ensures PlainPairsKept(old(x[..]), x[..], px, py)
  {
    var j, k := px[i], x[i];
    var l, m := -1, -1;
    rewrote := false;
    if j >= 0 && k >= 0 && x[j] < 0 {
      l := py[k];
      if l >= 0 && y[l] >= 0 {
        m := y[l];
        rewrote := NoMatchBetween(x, j, m);
      }
    }
    assert rewrote <==> CanRewrite(x[..], y[..], px, py, i);
    if rewrote {
      RewriteKept(x[..], y[..], px, py, i, j, k, l, m);
      Relink(x, y, px, py, i, j, k, l, m);
    }
  }

  /**
   * One sweep of `alignPairs` over side `x` (its first loop with `x, y` =
   * `matA, matB`, its second with `x, y` = `matB, matA`).
   */
  method Sweep(x: array<int>, y: array<int>, px: seq<int>, py: seq<int>) returns (changed: bool)
    requires x != y && Setup(x[..], y[..], px, py) && OrderPreserving(x[..])
    modifies x, y
    ensures Setup(x[..], y[..], px, py) && OrderPreserving(x[..])
    ensures MatchedCount(x[..], x.Length) == old(MatchedCount(x[..], x.Length))
    ensures Inconsistent(x[..], px, py) <= old(Inconsistent(x[..], px, py))
    ensures Inconsistent(y[..], py, px) <= old(Inconsistent(y[..], py, px))
    ensures changed ==> Inconsistent(x[..], px, py) < old(Inconsistent(x[..], px, py)) &&
                        Inconsistent(y[..], py, px) < old(Inconsistent(y[..], py, px))
    ensures !changed ==> x[..] == old(x[..]) && y[..] == old(y[..]) &&
                         forall i :: 0 <= i < x.Length ==> !CanRewrite(x[..], y[..], px, py, i)
    ensures PlainPairsKept(old(x[..]), x[..], px, py)
  {
    changed := false;
    var i := 0;
    while i < x.Length
      invariant 0 <= i <= x.Length
      invariant Setup(x[..], y[..], px, py) && OrderPreserving(x[..])
      invariant MatchedCount(x[..], x.Length) == old(MatchedCount(x[..], x.Length))
      invariant Inconsistent(x[..], px, py) <= old(Inconsistent(x[..], px, py))
      invariant Inconsistent(y[..], py, px) <= old(Inconsistent(y[..], py, px))
      invariant changed ==> Inconsistent(x[..], px, py) < old(Inconsistent(x[..], px, py)) &&
                            Inconsistent(y[..], py, px) < old(Inconsistent(y[..], py, px))
      invariant !changed ==> x[..] == old(x[..]) && y[..] == old(y[..]) &&
                             forall i' :: 0 <= i' < i ==> !CanRewrite(x[..], y[..], px, py, i')
      invariant PlainPairsKept(old(x[..]), x[..], px, py)
    {
      ghost var before := x[..];
      var rewrote := TryRewrite(x, y, px, py, i);
      KeptTrans(old(x[..]), before, x[..], px, py);
      changed := changed || rewrote;
      i := i + 1;
    }
  }

  /** One round of the `for` loop of `alignPairs`: both sweeps. */
  method SweepBoth(matA: array<int>, matB: array<int>, pairA: seq<int>, pairB: seq<int>) returns (changed: bool)
    requires matA != matB && Setup(matA[..], matB[..], pairA, pairB) && OrderPreserving(matA[..])
    modifies matA, matB
    ensures Setup(matA[..], matB[..], pairA, pairB) && OrderPreserving(matA[..])
    ensures MatchedCount(matA[..], matA.Length) == old(MatchedCount(matA[..], matA.Length))
    ensures MatchedCount(matB[..], matB.Length) == old(MatchedCount(matB[..], matB.Length))
    ensures changed ==> Inconsistent(matA[..], pairA, pairB) < old(Inconsistent(matA[..], pairA, pairB))
    ensures !changed ==> Stable(matA[..], matB[..], pairA, pairB)
    ensures PlainPairsKept(old(matA[..]), matA[..], pairA, pairB)
  {
    ghost var a0, b0 := matA[..], matB[..];
    var changedA := Sweep(matA, matB, pairA, pairB);
    ghost var a1, b1 := matA[..], matB[..];
    OrderMirror(a1, b1);
    var changedB := Sweep(matB, matA, pairB, pairA);
    ghost var a2, b2 := matA[..], matB[..];
    RoundFacts(a0, b0, a1, b1, a2, b2, pairA, pairB, changedA, changedB);
    changed := changedA || changedB;
  }

  /** What the two sweeps of one round establish together, stated on the values of the two sides before, between and after them. */
  lemma {:induction false} RoundFacts(a0: seq<int>, b0: seq<int>, a1: seq<int>, b1: seq<int>, a2: seq<int>, b2: seq<int>,
                   pa: seq<int>, pb: seq<int>, changedA: bool, changedB: bool)
    requires Setup(a0, b0, pa, pb)
    requires Setup(a1, b1, pa, pb) && OrderPreserving(a1)
    requires MatchedCount(a1, |a1|) == MatchedCount(a0, |a0|)
    requires Inconsistent(a1, pa, pb) <= Inconsistent(a0, pa, pb)
    requires changedA ==> Inconsistent(a1, pa, pb) < Inconsistent(a0, pa, pb)
    requires !changedA ==> a1 == a0 && b1 == b0 && forall i :: 0 <= i < |a1| ==> !CanRewrite(a1, b1, pa, pb, i)
    requires Setup(b2, a2, pb, pa) && OrderPreserving(b2)
    requires MatchedCount(b2, |b2|) == MatchedCount(b1, |b1|)
    requires Inconsistent(a2, pa, pb) <= Inconsistent(a1, pa, pb)
    requires changedB ==> Inconsistent(a2, pa, pb) < Inconsistent(a1, pa, pb)
    requires !changedB ==> b2 == b1 && a2 == a1 && forall i :: 0 <= i < |b2| ==> !CanRewrite(b2, a2, pb, pa, i)
    requires PlainPairsKept(a0, a1, pa, pb) && PlainPairsKept(b1, b2, pb, pa)
    ensures Setup(a2, b2, pa, pb) && OrderPreserving(a2)
    ensures MatchedCount(a2, |a2|) == MatchedCount(a0, |a0|) && MatchedCount(b2, |b2|) == MatchedCount(b0, |b0|)
    ensures changedA || changedB ==> Inconsistent(a2, pa, pb) < Inconsistent(a0, pa, pb)
    ensures !(changedA || changedB) ==> Stable(a2, b2, pa, pb)
    ensures PlainPairsKept(a0, a2, pa, pb)
  {
    RoundKept(a0, a1, b1, a2, b2, pa, pb);
    OrderMirror(b2, a2);
    MatchedCountsAgree(a0, b0);
    MatchedCountsAgree(a1, b1);
    MatchedCountsAgree(a2, b2);
  }

  /** A round keeps the plain pairs when each of its sweeps does. */
  lemma RoundKept(a0: seq<int>, a1: seq<int>, b1: seq<int>, a2: seq<int>, b2: seq<int>, pa: seq<int>, pb: seq<int>)
    requires |pa| == |a0| && Setup(a1, b1, pa, pb) && Setup(a2, b2, pa, pb)
    requires PlainPairsKept(a0, a1, pa, pb) && PlainPairsKept(b1, b2, pb, pa)
    ensures PlainPairsKept(a0, a2, pa, pb)
  {
    KeptMirror(a1, b1, a2, b2, pa, pb);
    KeptTrans(a0, a1, a2, pa, pb);
  }

  /**
   * `alignPairs` (tm/tm.go:209-258): repeats both sweeps until neither
   * rewrites. Every rewrite makes a token consistent and spoils none, so the
   * set of inconsistent tokens of side A shrinks each round.
   */
  method AlignPairs(matA: array<int>, matB: array<int>, pairA: seq<int>, pairB: seq<int>)
    requires matA != matB && Setup(matA[..], matB[..], pairA, pairB) && OrderPreserving(matA[..])
    modifies matA, matB
    ensures Setup(matA[..], matB[..], pairA, pairB) && OrderPreserving(matA[..])
    ensures MatchedCount(matA[..], matA.Length) == old(MatchedCount(matA[..], matA.Length))
    ensures MatchedCount(matB[..], matB.Length) == old(MatchedCount(matB[..], matB.Length))
    ensures Stable(matA[..], matB[..], pairA, pairB)
    ensures PlainPairsKept(old(matA[..]), matA[..], pairA, pairB)
  {
    while true
      invariant Setup(matA[..], matB[..], pairA, pairB) && OrderPreserving(matA[..])
      invariant PlainPairsKept(old(matA[..]), matA[..], pairA, pairB)
      invariant MatchedCount(matA[..], matA.Length) == old(MatchedCount(matA[..], matA.Length))
      invariant MatchedCount(matB[..], matB.Length) == old(MatchedCount(matB[..], matB.Length))
      decreases Inconsistent(matA[..], pairA, pairB)
    {
      ghost var before := matA[..];
      var changed := SweepBoth(matA, matB, pairA, pairB);
      KeptTrans(old(matA[..]), before, matA[..], pairA, pairB);
      if !changed {
        break;
      }
    }
  }
}

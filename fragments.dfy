/**
 * The declaration fragments the structural diff compares
 * (cmd/godiff.go:150-227 and 395-482): a fragment is a nil `*Fragment`, a
 * `Fragment` of some kind with its parts, or a `StringFrag` leaf carrying a
 * weight and its source text. `Weight` is what dropping or adding a
 * fragment costs and `Diff` what replacing one by another costs.
 */
module Fragments {
  import opened Text
  import opened Alignment
  import opened Lines

  /** The fragment kinds, `DF_NONE` to `DF_RESULTS` in order. */
  datatype Kind =
    | NoKind | TypeDecl | ConstDecl | VarDecl | StructType | InterfaceType | FuncDecl
    | StarType | VarLine | NamePair | NameList | ValueList | BlockBody | ResultList

  /** `TYPE_NAMES`. */
  function TypeName(k: Kind): (r: string) {
    match k
    case TypeDecl => "type"
    case ConstDecl => "const"
    case VarDecl => "var"
    case StructType => "struct"
    case InterfaceType => "interface"
    case FuncDecl => "func"
    case StarType => "*"
    case _ => ""
  }

  datatype Frag = Nil | Node(kind: Kind, parts: seq<Frag>) | Leaf(weight: int, source: string)

  /**
   * The shapes the engine relies on when it indexes parts or asserts their
   * types (it would panic otherwise), and non-negative leaf weights.
   */
  predicate Shaped(k: Kind, ps: seq<Frag>) {
    match k
    case FuncDecl => |ps| == 5 && !ps[0].Leaf?
    case StarType => |ps| >= 1
    case TypeDecl => |ps| >= 2
    case VarDecl => |ps| >= 1
    case VarLine => |ps| >= 3
    case NamePair => |ps| >= 2
    case NameList => forall i :: 0 <= i < |ps| ==> ps[i].Leaf?
    case ResultList => |ps| > 0 ==> ps[0].Node? && |ps[0].parts| > 0 && ps[0].parts[0].Leaf?
    case _ => true
  }

  predicate WellFormed(f: Frag) {
    match f
    case Nil => true
    case Leaf(w, _) => w >= 0
    case Node(k, ps) => Shaped(k, ps) && forall i :: 0 <= i < |ps| ==> WellFormed(ps[i])
  }

  /** The integer square root. */
  function ISqrtFrom(n: nat, r: nat): (s: nat)
    requires r * r <= n
    ensures s * s <= n < (s + 1) * (s + 1)
    decreases n - r * r
  {
    assert (r + 1) * (r + 1) == r * r + 2 * r + 1;
    if (r + 1) * (r + 1) > n then r else ISqrtFrom(n, r + 1)
  }

  function ISqrt(n: nat): (s: nat)
    ensures s * s <= n < (s + 1) * (s + 1)
  {
    ISqrtFrom(n, 0)
  }

  lemma SquareMonotone(x: nat, y: nat)
    requires x <= y
    ensures x * x <= y * y
  {
    assert y * y - x * x == (y - x) * (y + x);
  }

  lemma ISqrtMonotone(a: nat, b: nat)
    requires a <= b
    ensures ISqrt(a) <= ISqrt(b)
  {
    var p, q := ISqrt(a), ISqrt(b);
    if p > q {
      SquareMonotone(q + 1, p);
    }
  }

  lemma ISqrtSubadditive(a: nat, b: nat)
    ensures ISqrt(a + b) <= ISqrt(a) + ISqrt(b)
  {
    var p, q, s := ISqrt(a), ISqrt(b), ISqrt(a + b);
    if s > p + q {
      SquareMonotone(p + q + 1, s);
      SquareOfSum(p, q);
    }
  }

  lemma SquareOfSum(p: nat, q: nat)
    ensures (p + q + 1) * (p + q + 1) >= (p + 1) * (p + 1) + (q + 1) * (q + 1) - 1
  {
    assert (p + q + 1) * (p + q + 1) == (p + 1) * (p + 1) + (q + 1) * (q + 1) + 2 * (p * q) - 1;
    assert p * q >= 0;
  }

  /**
   * `int(math.Sqrt(float64(x)/100.) * 100)`, that is the floor of ten times
   * the square root, on exact integers; the engine only applies it to
   * non-negative values.
   */
  function Damp(x: int): (r: nat) {
    if x <= 0 then 0 else ISqrt(100 * x)
  }

  lemma DampMonotone(x: int, y: int)
    requires x <= y
    ensures Damp(x) <= Damp(y)
  {
    if 0 < x {
      ISqrtMonotone(100 * x, 100 * y);
    }
  }

  lemma DampSubadditive(x: int, y: int)
    requires x >= 0 && y >= 0
    ensures Damp(x + y) <= Damp(x) + Damp(y)
  {
    if x > 0 && y > 0 {
      ISqrtSubadditive(100 * x, 100 * y);
    }
  }

  /**
   * `Weight`: a nil fragment weighs 10, a leaf its own weight, a function
   * its first four parts plus the damped weight of its body, any other
   * fragment the sum of its parts, plus 50 for a pointer.
   */
  function Weight(f: Frag): (w: int)
    requires WellFormed(f)
    ensures w >= 0
    decreases f, 1
  {
    match f
    case Nil => 10
    case Leaf(w, _) => w
    case Node(k, ps) =>
      (if k == FuncDecl then Weight(ps[0]) + Weight(ps[1]) + Weight(ps[2]) + Weight(ps[3]) + Damp(Weight(ps[4]))
       else SumWeights(f, |ps|)) + (if k == StarType then 50 else 0)
  }

  /** The weights of the first `k` parts. */
  function SumWeights(f: Frag, k: nat): (w: int)
    requires f.Node? && WellFormed(f) && k <= |f.parts|
    ensures w >= 0
    decreases f, 0, k
  {
    if k == 0 then 0 else SumWeights(f, k - 1) + Weight(f.parts[k - 1])
  }

  lemma {:induction false} SumWeightsPart(f: Frag, k: nat, i: nat)
    requires f.Node? && WellFormed(f) && i < k <= |f.parts|
    ensures Weight(f.parts[i]) <= SumWeights(f, k)
  {
    if i < k - 1 {
      SumWeightsPart(f, k - 1, i);
    }
  }

  /** `StringFrag.calcDiff` between two leaves: the character distance of the trimmed sources, scaled to both weights. */
  function LeafDiff(wa: int, sa: string, wb: int, sb: string): (r: int) {
    var s1, s2 := TrimSpace(sa), TrimSpace(sb);
    if |s1| + |s2| == 0 then 0
    else GoDiv(StringDistance(s1, s2) * (wa + wb), Max(|s1|, |s2|))
  }

  /** Two leaves cost at most their weights together. */
  lemma LeafDiffBounds(wa: int, sa: string, wb: int, sb: string)
    requires wa + wb >= 0
    ensures 0 <= LeafDiff(wa, sa, wb, sb) <= wa + wb
  {
    var s1, s2 := TrimSpace(sa), TrimSpace(sb);
    if |s1| + |s2| > 0 {
      StringDistanceBounds(s1, s2);
      GoDivScaleAtMost(StringDistance(s1, s2), wa + wb, Max(|s1|, |s2|), 1);
    }
  }

  lemma LeafDiffSymmetric(wa: int, sa: string, wb: int, sb: string)
    ensures LeafDiff(wa, sa, wb, sb) == LeafDiff(wb, sb, wa, sa)
  {
    StringDistanceSymmetric(TrimSpace(sa), TrimSpace(sb));
  }

  /** A leaf costs nothing against a leaf with the same source, whatever the weights. */
  lemma LeafDiffSame(wa: int, wb: int, s: string)
    ensures LeafDiff(wa, s, wb, s) == 0
  {
    StringDistanceSame(TrimSpace(s));
  }

  /**
   * The cost tables of the edit distance between the parts of two
   * fragments of the same kind: replacing costs 3/2 of the parts' `Diff`,
   * dropping or adding a part its weight.
   */
  function PartCosts(a: Frag, b: Frag, unwrapLeaf: bool): (r: Costs)
    requires a.Node? && b.Node? && WellFormed(a) && WellFormed(b)
    decreases a, b, 0
  {
    Costs(seq(|a.parts|, i requires 0 <= i < |a.parts| =>
            seq(|b.parts|, j requires 0 <= j < |b.parts| => Diff(a.parts[i], b.parts[j], unwrapLeaf) * 3 / 2)),
          seq(|a.parts|, i requires 0 <= i < |a.parts| => Weight(a.parts[i])),
          seq(|b.parts|, j requires 0 <= j < |b.parts| => Weight(b.parts[j])))
  }

  /**
   * `calcDiff` (`Fragment.calcDiff` and `StringFrag.calcDiff`). With
   * `unwrapLeaf` false this is the code as written, where a leaf facing a
   * pointer costs both weights; with it true a leaf is compared with the
   * pointee, as every other non-pointer fragment is.
   */
  function Diff(a: Frag, b: Frag, unwrapLeaf: bool): (d: int)
    requires WellFormed(a) && WellFormed(b)
    ensures a.Nil? || b.Nil? ==> d == if a.Nil? && b.Nil? then 0 else Weight(a) + Weight(b)
    decreases a, b, 1
  {
    match a
    case Nil => if b.Nil? then 0 else 10 + Weight(b)
    case Leaf(wa, sa) =>
      if b.Leaf? then LeafDiff(wa, sa, b.weight, b.source)
      else if unwrapLeaf && b.Node? && b.kind == StarType then Diff(a, b.parts[0], unwrapLeaf) + 50
      else wa + Weight(b)
    case Node(ka, pa) =>
      if b.Nil? then Weight(a) + 10
      else if b.Leaf? then
        (if unwrapLeaf && ka == StarType then Diff(pa[0], b, unwrapLeaf) + 50 else Weight(a) + b.weight)
      else if ka == StarType then
        (if b.kind == StarType then Diff(pa[0], b.parts[0], unwrapLeaf) else Diff(pa[0], b, unwrapLeaf) + 50)
      else if b.kind == StarType then Diff(a, b.parts[0], unwrapLeaf) + 50
      else if ka != b.kind then Weight(a) + Weight(b)
      else if ka == FuncDecl then
        var pb := b.parts;
        Diff(pa[0], pb[0], unwrapLeaf) + Diff(pa[1], pb[1], unwrapLeaf) + Diff(pa[2], pb[2], unwrapLeaf) +
        Diff(pa[3], pb[3], unwrapLeaf) + Damp(Diff(pa[4], pb[4], unwrapLeaf))
      else EditDistance(|pa|, |b.parts|, PartCosts(a, b, unwrapLeaf))
  }

  /** Dropping or adding every part costs the parts' weights. */
  lemma {:induction false} PartCostSums(a: Frag, b: Frag, u: bool, n: nat, m: nat)
    requires a.Node? && b.Node? && WellFormed(a) && WellFormed(b) && n <= |a.parts| && m <= |b.parts|
    ensures DelSum(n, PartCosts(a, b, u)) == SumWeights(a, n)
    ensures InsSum(m, PartCosts(a, b, u)) == SumWeights(b, m)
  {
    if n > 0 {
      PartCostSums(a, b, u, n - 1, m);
    }
    if m > 0 {
      PartCostSums(a, b, u, n, m - 1);
    }
  }

  /** The costs are never negative. */
  lemma {:induction false} DiffNonNegative(a: Frag, b: Frag, u: bool)
    requires WellFormed(a) && WellFormed(b)
    ensures Diff(a, b, u) >= 0
    decreases a, b
  {
    match a
    case Nil =>
    case Leaf(wa, sa) =>
      if b.Leaf? {
        LeafDiffBounds(wa, sa, b.weight, b.source);
      } else if u && b.Node? && b.kind == StarType {
        DiffNonNegative(a, b.parts[0], u);
      }
    case Node(ka, pa) =>
      if b.Nil? {
      } else if b.Leaf? {
        if u && ka == StarType {
          DiffNonNegative(pa[0], b, u);
        }
      } else if ka == StarType {
        if b.kind == StarType {
          DiffNonNegative(pa[0], b.parts[0], u);
        } else {
          DiffNonNegative(pa[0], b, u);
        }
      } else if b.kind == StarType {
        DiffNonNegative(a, b.parts[0], u);
      } else if ka != b.kind {
      } else if ka == FuncDecl {
        forall i | 0 <= i < 4
          ensures Diff(pa[i], b.parts[i], u) >= 0
        {
          DiffNonNegative(pa[i], b.parts[i], u);
        }
      } else {
        PartsNonNegative(a, b, u);
      }
  }

  lemma PartsNonNegative(a: Frag, b: Frag, u: bool)
    requires a.Node? && b.Node? && WellFormed(a) && WellFormed(b)
    ensures EditDistance(|a.parts|, |b.parts|, PartCosts(a, b, u)) >= 0
    decreases a, b, 0
  {
    var c := PartCosts(a, b, u);
    forall i, j | 0 <= i < |a.parts| && 0 <= j < |b.parts|
      ensures SubCost(c, i, j) >= 0
    {
      DiffNonNegative(a.parts[i], b.parts[j], u);
    }
    EditDistanceNonNegative(|a.parts|, |b.parts|, c);
  }

  /** A fragment costs nothing against itself. */
  lemma {:induction false} DiffSelf(a: Frag, u: bool)
    requires WellFormed(a)
    ensures Diff(a, a, u) == 0
    decreases a, 1
  {
    match a
    case Nil =>
    case Leaf(w, s) =>
      LeafDiffSame(w, w, s);
    case Node(k, ps) =>
      if k == StarType {
        DiffSelf(ps[0], u);
      } else if k == FuncDecl {
        FuncSelf(a, u);
      } else {
        PartsSelf(a, u);
      }
  }

  lemma FuncSelf(a: Frag, u: bool)
    requires a.Node? && a.kind == FuncDecl && WellFormed(a)
    ensures Diff(a, a, u) == 0
    decreases a, 0
  {
    var ps := a.parts;
    DiffSelf(ps[0], u);
    DiffSelf(ps[1], u);
    DiffSelf(ps[2], u);
    DiffSelf(ps[3], u);
    DiffSelf(ps[4], u);
    FuncDiff(a, a, u);
  }

  lemma PartsSelf(a: Frag, u: bool)
    requires a.Node? && WellFormed(a)
    ensures EditDistance(|a.parts|, |a.parts|, PartCosts(a, a, u)) == 0
    decreases a, 0
  {
    var c := PartCosts(a, a, u);
    forall i | 0 <= i < |a.parts|
      ensures SubCost(c, i, i) == 0
    {
      DiffSelf(a.parts[i], u);
    }
    EditDistanceZeroDiagonal(|a.parts|, c);
    PartsNonNegative(a, a, u);
  }

  /** Comparing `b` with `a` costs what comparing `a` with `b` does. */
  lemma {:induction false} DiffSymmetric(a: Frag, b: Frag, u: bool)
    requires WellFormed(a) && WellFormed(b)
    ensures Diff(a, b, u) == Diff(b, a, u)
    decreases a, b, 1
  {
    match a
    case Nil =>
    case Leaf(wa, sa) =>
      if b.Leaf? {
        LeafDiffSymmetric(wa, sa, b.weight, b.source);
      } else if u && b.Node? && b.kind == StarType {
        DiffSymmetric(a, b.parts[0], u);
      }
    case Node(ka, pa) =>
      if b.Nil? {
      } else if b.Leaf? {
        if u && ka == StarType {
          DiffSymmetric(pa[0], b, u);
        }
      } else if ka == StarType {
        if b.kind == StarType {
          DiffSymmetric(pa[0], b.parts[0], u);
        } else {
          DiffSymmetric(pa[0], b, u);
        }
      } else if b.kind == StarType {
        DiffSymmetric(a, b.parts[0], u);
      } else if ka != b.kind {
      } else if ka == FuncDecl {
        forall i | 0 <= i < 5
          ensures Diff(pa[i], b.parts[i], u) == Diff(b.parts[i], pa[i], u)
        {
          DiffSymmetric(pa[i], b.parts[i], u);
        }
      } else {
        PartsSymmetric(a, b, u);
      }
  }

  lemma PartsSymmetric(a: Frag, b: Frag, u: bool)
    requires a.Node? && b.Node? && WellFormed(a) && WellFormed(b)
    ensures EditDistance(|a.parts|, |b.parts|, PartCosts(a, b, u)) ==
            EditDistance(|b.parts|, |a.parts|, PartCosts(b, a, u))
    decreases a, b, 0
  {
    var c, d := PartCosts(a, b, u), PartCosts(b, a, u);
    forall i, j | 0 <= i < |a.parts| && 0 <= j < |b.parts|
      ensures SubCost(d, j, i) == SubCost(c, i, j)
    {
      DiffSymmetric(a.parts[i], b.parts[j], u);
    }
    EditDistanceSwap(|a.parts|, |b.parts|, c, d);
  }

  /** A pointer weighs at least its pointee plus 50. */
  lemma PointeeWeight(f: Frag)
    requires WellFormed(f) && f.Node? && f.kind == StarType
    ensures Weight(f.parts[0]) + 50 <= Weight(f)
  {
    SumWeightsPart(f, |f.parts|, 0);
  }

  /** Replacing `a` by `b` never costs more than dropping `a` and adding `b`. */
  lemma {:induction false} DiffAtMostWeights(a: Frag, b: Frag, u: bool)
    requires WellFormed(a) && WellFormed(b)
    ensures Diff(a, b, u) <= Weight(a) + Weight(b)
    decreases a, b
  {
    match a
    case Nil =>
    case Leaf(wa, sa) =>
      if b.Leaf? {
        LeafDiffBounds(wa, sa, b.weight, b.source);
      } else if u && b.Node? && b.kind == StarType {
        DiffAtMostWeights(a, b.parts[0], u);
        PointeeWeight(b);
      }
    case Node(ka, pa) =>
      if b.Nil? {
      } else if b.Leaf? {
        if u && ka == StarType {
          DiffAtMostWeights(pa[0], b, u);
          PointeeWeight(a);
        }
      } else if ka == StarType {
        PointeeWeight(a);
        if b.kind == StarType {
          DiffAtMostWeights(pa[0], b.parts[0], u);
          PointeeWeight(b);
        } else {
          DiffAtMostWeights(pa[0], b, u);
        }
      } else if b.kind == StarType {
        DiffAtMostWeights(a, b.parts[0], u);
        PointeeWeight(b);
      } else if ka != b.kind {
      } else if ka == FuncDecl {
        FuncAtMostWeights(a, b, u);
      } else {
        var c := PartCosts(a, b, u);
        EditDistanceAtMostDeleteInsert(|pa|, |b.parts|, c);
        PartCostSums(a, b, u, |pa|, |b.parts|);
      }
  }

  lemma FuncAtMostWeights(a: Frag, b: Frag, u: bool)
    requires WellFormed(a) && WellFormed(b) && a.Node? && b.Node? && a.kind == FuncDecl && b.kind == FuncDecl
    ensures Diff(a, b, u) <= Weight(a) + Weight(b)
    decreases a, b, 0
  {
    var pa, pb := a.parts, b.parts;
    var d := seq(5, i requires 0 <= i < 5 => Diff(pa[i], pb[i], u));
    var w := seq(5, i requires 0 <= i < 5 => Weight(pa[i]));
    var v := seq(5, i requires 0 <= i < 5 => Weight(pb[i]));
    forall i | 0 <= i < 5
      ensures d[i] <= w[i] + v[i]
    {
      DiffAtMostWeights(pa[i], pb[i], u);
    }
    FuncDiff(a, b, u);
    FuncWeight(a);
    FuncWeight(b);
    DampedSumBound(d, w, v);
  }

  /** The arithmetic of the function case: the bound survives the damping of the last term. */
  lemma DampedSumBound(d: seq<int>, w: seq<int>, v: seq<int>)
    requires |d| == 5 && |w| == 5 && |v| == 5
    requires forall i :: 0 <= i < 5 ==> d[i] <= w[i] + v[i]
    requires w[4] >= 0 && v[4] >= 0
    ensures d[0] + d[1] + d[2] + d[3] + Damp(d[4]) <=
            (w[0] + w[1] + w[2] + w[3] + Damp(w[4])) + (v[0] + v[1] + v[2] + v[3] + Damp(v[4]))
  {
    DampMonotone(d[4], w[4] + v[4]);
    DampSubadditive(w[4], v[4]);
  }

  /** The cost of two functions: their first four parts' costs and the damped cost of their bodies. */
  lemma FuncDiff(a: Frag, b: Frag, u: bool)
    requires WellFormed(a) && WellFormed(b) && a.Node? && b.Node? && a.kind == FuncDecl && b.kind == FuncDecl
    ensures Diff(a, b, u) == Diff(a.parts[0], b.parts[0], u) + Diff(a.parts[1], b.parts[1], u) +
      Diff(a.parts[2], b.parts[2], u) + Diff(a.parts[3], b.parts[3], u) + Damp(Diff(a.parts[4], b.parts[4], u))
  {
  }

  lemma FuncWeight(a: Frag)
    requires WellFormed(a) && a.Node? && a.kind == FuncDecl
    ensures Weight(a) == Weight(a.parts[0]) + Weight(a.parts[1]) + Weight(a.parts[2]) + Weight(a.parts[3]) + Damp(Weight(a.parts[4]))
  {
  }

  /** Two leaves that are both blank after trimming cost nothing, whatever their weights. */
  lemma LeafDiffBlank(wa: int, sa: string, wb: int, sb: string)
    requires TrimSpace(sa) == "" && TrimSpace(sb) == ""
    ensures LeafDiff(wa, sa, wb, sb) == 0
  {
  }

  /**
   * The pointer rules: two pointers cost what their pointees do, and a
   * pointer against any other fragment of kind's own (not nil, not a leaf)
   * costs its pointee's cost plus 50, on either side. The corrected rule
   * treats a leaf the same way.
   */
  lemma PointerRules(s: Frag, g: Frag, u: bool)
    requires WellFormed(s) && WellFormed(g) && s.Node? && s.kind == StarType
    ensures g.Node? && g.kind == StarType ==> Diff(s, g, u) == Diff(s.parts[0], g.parts[0], u)
    ensures (g.Node? && g.kind != StarType) || (u && g.Leaf?) ==>
      Diff(s, g, u) == Diff(s.parts[0], g, u) + 50 && Diff(g, s, u) == Diff(g, s.parts[0], u) + 50
  {
  }

  /**
   * As written, a leaf against a pointer always costs the two weights, the
   * most any pair can cost, whatever the pointee.
   */
  lemma LeafAgainstPointer(l: Frag, s: Frag)
    requires WellFormed(l) && WellFormed(s) && l.Leaf? && s.Node? && s.kind == StarType
    ensures Diff(l, s, false) == Weight(l) + Weight(s)
    ensures Diff(s, l, false) == Weight(l) + Weight(s)
  {
  }

  /** As written, `int` against `*int` costs the maximum, 150... */
  lemma IntAgainstPointer()
    ensures Diff(Leaf(50, "int"), Node(StarType, [Leaf(50, "int")]), false) == 150
  {
    var l := Leaf(50, "int");
    var p := Node(StarType, [l]);
    assert SumWeights(p, 1) == 50;
    LeafAgainstPointer(l, p);
  }

  /** ...while `struct{}` against `*struct{}` costs only the 50 of the star... */
  lemma StructAgainstPointer()
    ensures Diff(Node(StructType, []), Node(StarType, [Node(StructType, [])]), false) == 50
  {
    var st := Node(StructType, []);
    DiffSelf(st, false);
    PointerRules(Node(StarType, [st]), st, false);
  }

  /** ...and so does `int` against `*int` once a leaf is compared with the pointee. */
  lemma IntAgainstPointerUnwrapped()
    ensures Diff(Leaf(50, "int"), Node(StarType, [Leaf(50, "int")]), true) == 50
  {
    var l := Leaf(50, "int");
    LeafDiffSame(50, 50, "int");
    PointerRules(Node(StarType, [l]), l, true);
  }

  /** `StringFrag.sourceLines`: the source cut at line breaks, every line after the first indented. */
  function LeafLines(source: string, indent: string): (r: seq<string>)
    ensures |r| >= 1
  {
    IndentFrom(indent, SplitLines(source), 1)
  }

  /**
   * `Fragment.sourceLines` and `StringFrag.sourceLines`: the source text of
   * a fragment, one template per kind; `indent` is what lines after the
   * first start with.
   */
  function SourceLines(f: Frag, indent: string): (r: seq<string>)
    requires WellFormed(f)
    ensures f.Leaf? ==> JoinLines(r) == IndentText(indent, f.source)
    decreases f, 2
  {
    match f
    case Nil => []
    case Leaf(_, s) => LeafText(s, indent); LeafLines(s, indent)
    case Node(k, ps) =>
      var ind4 := indent + "    ";
      match k
      case TypeDecl =>
        CatLines(CatLines(["type"], " ", SourceLines(ps[0], indent)), " ", SourceLines(ps[1], indent))
      case ConstDecl =>
        if |ps| == 1 then CatLines(["const"], " ", SourceLines(ps[0], indent))
        else ["const("] + Indented(f, indent, |ps|) + [indent + ")"]
      case VarDecl => CatLines(["var"], " ", SourceLines(ps[0], ind4))
      case VarLine =>
        CatLines(CatLines(SourceLines(ps[0], indent), " ", SourceLines(ps[1], indent)), " = ", SourceLines(ps[2], indent))
      case FuncDecl => FuncLines(f, indent)
      case ResultList =>
        if |ps| == 0 then []
        else
          var paren := |ps| > 1 || |ps[0].parts[0].source| > 0;
          var body := Results(f, indent, |ps|, if paren then ["("] else []);
          if paren then CatLines(body, "", [")"]) else body
      case BlockBody => ["{"] + Indented(f, indent, |ps|) + [indent + "}"]
      case StructType =>
        if |ps| == 0 then ["struct{}"] else ["struct {"] + Members(f, indent, |ps|) + [indent + "}"]
      case InterfaceType =>
        if |ps| == 0 then ["interface{}"] else ["interface {"] + Members(f, indent, |ps|) + [indent + "}"]
      case StarType => CatLines(["*"], "", SourceLines(ps[0], indent))
      case NamePair => CatLines(SourceLines(ps[0], indent), " ", SourceLines(ps[1], indent))
      case NameList => [Names(f, indent, |ps|)]
      case ValueList => Values(f, indent, |ps|)
      case NoKind => Flatten(f, indent, |ps|)
  }

  /**
   * The `func` template: receiver in parentheses, name, parameters in
   * parentheses, results and body; all but the body one level deeper.
   */
  function FuncLines(f: Frag, indent: string): (r: seq<string>)
    requires f.Node? && WellFormed(f) && f.kind == FuncDecl
    decreases f, 1
  {
    var ps, ind4 := f.parts, indent + "    ";
    var recv := if ps[0].Nil? then ["func"]
                else CatLines(CatLines(["func"], " (", SourceLines(ps[0], ind4)), "", [")"]);
    HeaderLines(recv, SourceLines(ps[1], ind4), SourceLines(ps[2], ind4), SourceLines(ps[3], ind4), SourceLines(ps[4], indent))
  }

  /** The receiver part, then the name, `(`, the parameters, `)`, the results and the body, joined at seams. */
  function HeaderLines(recv: seq<string>, name: seq<string>, params: seq<string>, results: seq<string>, body: seq<string>): (r: seq<string>) {
    var named := CatLines(recv, " ", name);
    var closed := CatLines(CatLines(CatLines(named, "", ["("]), "", params), "", [")"]);
    CatLines(CatLines(closed, " ", results), " ", body)
  }

  /** The lines of the first `k` parts of a `const (...)` group or a block, each opened by a deeper indent. */
  function Indented(f: Frag, indent: string, k: nat): (r: seq<string>)
    requires f.Node? && WellFormed(f) && k <= |f.parts|
    decreases f, 1, k
  {
    if k == 0 then []
    else Indented(f, indent, k - 1) + CatLines([indent + "    "], "", SourceLines(f.parts[k - 1], indent + "    "))
  }

  /** The lines of the first `k` members of a struct or interface: non-empty ones get a deeper indent in front. */
  function Members(f: Frag, indent: string, k: nat): (r: seq<string>)
    requires f.Node? && WellFormed(f) && k <= |f.parts|
    decreases f, 1, k
  {
    if k == 0 then []
    else
      var lns := SourceLines(f.parts[k - 1], indent + "    ");
      Members(f, indent, k - 1) + (if |lns| > 0 then [indent + "    " + lns[0]] + lns[1..] else [])
  }

  /** The first `k` results, separated by `, `, after the opening lines `init`. */
  function Results(f: Frag, indent: string, k: nat, init: seq<string>): (r: seq<string>)
    requires f.Node? && WellFormed(f) && k <= |f.parts|
    decreases f, 1, k
  {
    if k == 0 then init
    else
      var prev := Results(f, indent, k - 1, init);
      CatLines(if k > 1 then CatLines(prev, "", [", "]) else prev, "", SourceLines(f.parts[k - 1], indent + "    "))
  }

  /** The first `k` names joined by `, ` on one line (the parts of a name list are leaves). */
  function Names(f: Frag, indent: string, k: nat): (r: string)
    requires f.Node? && WellFormed(f) && k <= |f.parts| && f.kind == NameList
  {
    if k == 0 then ""
    else Cat(Names(f, indent, k - 1), ", ", LeafLines(f.parts[k - 1].source, indent + "    ")[0])
  }

  /** The first `k` values joined by `, `. */
  function Values(f: Frag, indent: string, k: nat): (r: seq<string>)
    requires f.Node? && WellFormed(f) && k <= |f.parts|
    decreases f, 1, k
  {
    if k == 0 then [] else CatLines(Values(f, indent, k - 1), ", ", SourceLines(f.parts[k - 1], indent + "    "))
  }

  /** The lines of the first `k` parts, one after the other. */
  function Flatten(f: Frag, indent: string, k: nat): (r: seq<string>)
    requires f.Node? && WellFormed(f) && k <= |f.parts|
    decreases f, 1, k
  {
    if k == 0 then [] else Flatten(f, indent, k - 1) + SourceLines(f.parts[k - 1], indent)
  }

  /**
   * `oneLine`: a fragment's source squeezed onto one line, with its first
   * and last lines and the line count; for a fragment node it is a single
   * line, since its summary never spans lines.
   */
  function OneLine(f: Frag): (o: string)
    requires WellFormed(f)
    ensures f.Node? ==> '\n' !in o
  {
    match f
    case Nil => ""
    case Leaf(_, s) => s
    case Node(_, _) =>
      SourceLinesSingle(f, "");
      SummarySingle(SourceLines(f, ""));
      Summary(SourceLines(f, ""))
  }

  /** How `oneLine` squeezes the lines of a fragment node. */
  function Summary(lines: seq<string>): (r: string) {
    if |lines| == 0 then ""
    else if |lines| == 1 then lines[0]
    else lines[0] + " ... " + lines[|lines| - 1] + " (" + DecimalString(|lines|) + " lines)"
  }

  lemma AppendSingle(a: seq<string>, b: seq<string>)
    requires SingleLines(a) && SingleLines(b)
    ensures SingleLines(a + b)
  {
    forall k | 0 <= k < |a + b|
      ensures '\n' !in (a + b)[k]
    {
      if k >= |a| {
        assert (a + b)[k] == b[k - |a|];
      }
    }
  }

  /** A leaf's lines carry no line break when the indent has none. */
  lemma LeafLinesSingle(source: string, indent: string)
    requires '\n' !in indent
    ensures SingleLines(LeafLines(source, indent))
  {
    var lines := SplitLines(source);
    forall k | 0 <= k < |lines|
      ensures '\n' !in IndentFrom(indent, lines, 1)[k]
    {
      assert '\n' !in lines[k];
    }
  }

  /** Joined back, a leaf's lines give its source with the indent after every line break. */
  lemma LeafText(source: string, indent: string)
    ensures JoinLines(LeafLines(source, indent)) == IndentText(indent, source)
  {
    IndentRestText(indent, SplitLines(source));
    JoinSplit(source);
  }

  /** With no line break in the indent, every entry of `sourceLines` is a single line. */
  lemma {:induction false} SourceLinesSingle(f: Frag, indent: string)
    requires WellFormed(f) && '\n' !in indent
    ensures SingleLines(SourceLines(f, indent))
    decreases f, 2
  {
    match f
    case Nil =>
    case Leaf(_, s) =>
      LeafLinesSingle(s, indent);
    case Node(k, _) =>
      if k in {TypeDecl, ConstDecl, VarDecl, VarLine, FuncDecl, StarType, NamePair} {
        DeclLinesSingle(f, indent);
      } else {
        GroupLinesSingle(f, indent);
      }
  }

  lemma DeclLinesSingle(f: Frag, indent: string)
    requires WellFormed(f) && '\n' !in indent && f.Node?
    requires f.kind in {TypeDecl, ConstDecl, VarDecl, VarLine, FuncDecl, StarType, NamePair}
    ensures SingleLines(SourceLines(f, indent))
    decreases f, 1
  {
    var ps, ind4 := f.parts, indent + "    ";
    match f.kind
    case TypeDecl =>
      SourceLinesSingle(ps[0], indent);
      SourceLinesSingle(ps[1], indent);
      CatLinesSingle(["type"], " ", SourceLines(ps[0], indent));
      CatLinesSingle(CatLines(["type"], " ", SourceLines(ps[0], indent)), " ", SourceLines(ps[1], indent));
    case ConstDecl =>
      if |ps| == 1 {
        SourceLinesSingle(ps[0], indent);
        CatLinesSingle(["const"], " ", SourceLines(ps[0], indent));
      } else {
        IndentedSingle(f, indent, |ps|);
        AppendSingle(["const("], Indented(f, indent, |ps|));
        AppendSingle(["const("] + Indented(f, indent, |ps|), [indent + ")"]);
      }
    case VarDecl =>
      SourceLinesSingle(ps[0], ind4);
      CatLinesSingle(["var"], " ", SourceLines(ps[0], ind4));
    case VarLine =>
      var l0, l1, l2 := SourceLines(ps[0], indent), SourceLines(ps[1], indent), SourceLines(ps[2], indent);
      SourceLinesSingle(ps[0], indent);
      SourceLinesSingle(ps[1], indent);
      SourceLinesSingle(ps[2], indent);
      CatLinesSingle(l0, " ", l1);
      CatLinesSingle(CatLines(l0, " ", l1), " = ", l2);
    case FuncDecl =>
      FuncLinesSingle(f, indent);
    case StarType =>
      SourceLinesSingle(ps[0], indent);
      CatLinesSingle(["*"], "", SourceLines(ps[0], indent));
    case NamePair =>
      SourceLinesSingle(ps[0], indent);
      SourceLinesSingle(ps[1], indent);
      CatLinesSingle(SourceLines(ps[0], indent), " ", SourceLines(ps[1], indent));
  }

  lemma GroupLinesSingle(f: Frag, indent: string)
    requires WellFormed(f) && '\n' !in indent && f.Node?
    requires f.kind !in {TypeDecl, ConstDecl, VarDecl, VarLine, FuncDecl, StarType, NamePair}
    ensures SingleLines(SourceLines(f, indent))
    decreases f, 1
  {
    var ps := f.parts;
    match f.kind
    case ResultList =>
      if |ps| > 0 {
        var paren := |ps| > 1 || |ps[0].parts[0].source| > 0;
        ResultsSingle(f, indent, |ps|, if paren then ["("] else []);
        CatLinesSingle(Results(f, indent, |ps|, if paren then ["("] else []), "", [")"]);
      }
    case BlockBody =>
      IndentedSingle(f, indent, |ps|);
      AppendSingle(["{"], Indented(f, indent, |ps|));
      AppendSingle(["{"] + Indented(f, indent, |ps|), [indent + "}"]);
    case StructType =>
      if |ps| > 0 {
        MembersSingle(f, indent, |ps|);
        AppendSingle(["struct {"], Members(f, indent, |ps|));
        AppendSingle(["struct {"] + Members(f, indent, |ps|), [indent + "}"]);
      }
    case InterfaceType =>
      if |ps| > 0 {
        MembersSingle(f, indent, |ps|);
        AppendSingle(["interface {"], Members(f, indent, |ps|));
        AppendSingle(["interface {"] + Members(f, indent, |ps|), [indent + "}"]);
      }
    case NameList =>
      NamesSingle(f, indent, |ps|);
      assert [Names(f, indent, |ps|)][0] == Names(f, indent, |ps|);
    case ValueList =>
      ValuesSingle(f, indent, |ps|);
    case NoKind =>
      FlattenSingle(f, indent, |ps|);
  }

  lemma FuncLinesSingle(f: Frag, indent: string)
    requires WellFormed(f) && f.Node? && f.kind == FuncDecl && '\n' !in indent
    ensures SingleLines(SourceLines(f, indent))
    decreases f, 0
  {
    var ps, ind4 := f.parts, indent + "    ";
    var l0, l1, l2 := SourceLines(ps[0], ind4), SourceLines(ps[1], ind4), SourceLines(ps[2], ind4);
    var l3, l4 := SourceLines(ps[3], ind4), SourceLines(ps[4], indent);
    SourceLinesSingle(ps[0], ind4);
    SourceLinesSingle(ps[1], ind4);
    SourceLinesSingle(ps[2], ind4);
    SourceLinesSingle(ps[3], ind4);
    SourceLinesSingle(ps[4], indent);
    var recv := if ps[0].Nil? then ["func"] else CatLines(CatLines(["func"], " (", l0), "", [")"]);
    CatLinesSingle(["func"], " (", l0);
    CatLinesSingle(CatLines(["func"], " (", l0), "", [")"]);
    var named := CatLines(recv, " ", l1);
    CatLinesSingle(recv, " ", l1);
    CatLinesSingle(named, "", ["("]);
    CatLinesSingle(CatLines(named, "", ["("]), "", l2);
    var params := CatLines(CatLines(CatLines(named, "", ["("]), "", l2), "", [")"]);
    CatLinesSingle(CatLines(CatLines(named, "", ["("]), "", l2), "", [")"]);
    CatLinesSingle(params, " ", l3);
    CatLinesSingle(CatLines(params, " ", l3), " ", l4);
  }

  lemma {:induction false} IndentedSingle(f: Frag, indent: string, k: nat)
    requires f.Node? && WellFormed(f) && k <= |f.parts| && '\n' !in indent
    ensures SingleLines(Indented(f, indent, k))
    decreases f, 1, k
  {
    if k > 0 {
      var ind4 := indent + "    ";
      IndentedSingle(f, indent, k - 1);
      SourceLinesSingle(f.parts[k - 1], ind4);
      CatLinesSingle([ind4], "", SourceLines(f.parts[k - 1], ind4));
      AppendSingle(Indented(f, indent, k - 1), CatLines([ind4], "", SourceLines(f.parts[k - 1], ind4)));
    }
  }

  lemma {:induction false} MembersSingle(f: Frag, indent: string, k: nat)
    requires f.Node? && WellFormed(f) && k <= |f.parts| && '\n' !in indent
    ensures SingleLines(Members(f, indent, k))
    decreases f, 1, k
  {
    if k > 0 {
      var ind4 := indent + "    ";
      var lns := SourceLines(f.parts[k - 1], ind4);
      MembersSingle(f, indent, k - 1);
      SourceLinesSingle(f.parts[k - 1], ind4);
      if |lns| > 0 {
        AppendSingle([ind4 + lns[0]], lns[1..]);
        AppendSingle(Members(f, indent, k - 1), [ind4 + lns[0]] + lns[1..]);
      }
    }
  }

  lemma {:induction false} ResultsSingle(f: Frag, indent: string, k: nat, init: seq<string>)
    requires f.Node? && WellFormed(f) && k <= |f.parts| && '\n' !in indent && SingleLines(init)
    ensures SingleLines(Results(f, indent, k, init))
    decreases f, 1, k
  {
    if k > 0 {
      var prev := Results(f, indent, k - 1, init);
      ResultsSingle(f, indent, k - 1, init);
      CatLinesSingle(prev, "", [", "]);
      SourceLinesSingle(f.parts[k - 1], indent + "    ");
      CatLinesSingle(if k > 1 then CatLines(prev, "", [", "]) else prev, "", SourceLines(f.parts[k - 1], indent + "    "));
    }
  }

  lemma {:induction false} NamesSingle(f: Frag, indent: string, k: nat)
    requires f.Node? && WellFormed(f) && k <= |f.parts| && f.kind == NameList && '\n' !in indent
    ensures '\n' !in Names(f, indent, k)
  {
    if k > 0 {
      NamesSingle(f, indent, k - 1);
      LeafLinesSingle(f.parts[k - 1].source, indent + "    ");
      assert '\n' !in LeafLines(f.parts[k - 1].source, indent + "    ")[0];
      CatSingleLine(Names(f, indent, k - 1), ", ", LeafLines(f.parts[k - 1].source, indent + "    ")[0]);
    }
  }

  lemma {:induction false} ValuesSingle(f: Frag, indent: string, k: nat)
    requires f.Node? && WellFormed(f) && k <= |f.parts| && '\n' !in indent
    ensures SingleLines(Values(f, indent, k))
    decreases f, 1, k
  {
    if k > 0 {
      ValuesSingle(f, indent, k - 1);
      SourceLinesSingle(f.parts[k - 1], indent + "    ");
      CatLinesSingle(Values(f, indent, k - 1), ", ", SourceLines(f.parts[k - 1], indent + "    "));
    }
  }

  lemma {:induction false} FlattenSingle(f: Frag, indent: string, k: nat)
    requires f.Node? && WellFormed(f) && k <= |f.parts| && '\n' !in indent
    ensures SingleLines(Flatten(f, indent, k))
    decreases f, 1, k
  {
    if k > 0 {
      FlattenSingle(f, indent, k - 1);
      SourceLinesSingle(f.parts[k - 1], indent);
      AppendSingle(Flatten(f, indent, k - 1), SourceLines(f.parts[k - 1], indent));
    }
  }

  lemma SummarySingle(lines: seq<string>)
    requires SingleLines(lines)
    ensures '\n' !in Summary(lines)
  {
    if |lines| > 1 {
      var n := DecimalString(|lines|);
      assert '\n' !in n by {
        forall i | 0 <= i < |n|
          ensures n[i] != '\n'
        {
          assert IsDigit(n[i]);
        }
      }
      assert '\n' !in lines[0] && '\n' !in lines[|lines| - 1];
    }
  }

  /**
   * A summary of several lines starts with the first line and ends with
   * the line count in decimal followed by ` lines)`.
   */
  lemma SummaryShape(lines: seq<string>)
    ensures var o, n := Summary(lines), DecimalString(|lines|);
      (|lines| == 0 ==> o == "") &&
      (|lines| == 1 ==> o == lines[0]) &&
      (|lines| > 1 ==>
         |o| >= |lines[0]| + |n| + 7 && o[..|lines[0]|] == lines[0] &&
         o[|o| - |n| - 7..] == n + " lines)" && DecimalValue(n) == |lines|)
  {
    if |lines| > 1 {
      var n := DecimalString(|lines|);
      var mid := " ... " + lines[|lines| - 1] + " (";
      assert Summary(lines) == lines[0] + mid + (n + " lines)");
      DecimalRoundTrip(|lines|);
    }
  }

  /** A pointer's source is `*` followed by its pointee's. */
  lemma PointerText(f: Frag, indent: string)
    requires WellFormed(f) && f.Node? && f.kind == StarType
    ensures JoinLines(SourceLines(f, indent)) == "*" + JoinLines(SourceLines(f.parts[0], indent))
  {
    CatLinesText(["*"], "", SourceLines(f.parts[0], indent));
  }

  /** A name and its type are joined by one space, unless one side is empty at the seam. */
  lemma PairText(f: Frag, indent: string)
    requires WellFormed(f) && f.Node? && f.kind == NamePair
    requires |SourceLines(f.parts[0], indent)| > 0 && |SourceLines(f.parts[1], indent)| > 0
    ensures var a, b := SourceLines(f.parts[0], indent), SourceLines(f.parts[1], indent);
      JoinLines(SourceLines(f, indent)) ==
        JoinLines(a) + (if |a[|a| - 1]| > 0 && |b[0]| > 0 then " " else "") + JoinLines(b)
  {
    CatLinesText(SourceLines(f.parts[0], indent), " ", SourceLines(f.parts[1], indent));
  }

  /** No node of the fragment has kind `DF_NONE`, the kind whose parts are printed one after the other unindented. */
  predicate NoBareNode(f: Frag) {
    match f
    case Node(k, ps) => k != NoKind && forall i :: 0 <= i < |ps| ==> NoBareNode(ps[i])
    case _ => true
  }

  /** Every line after the first starts with `indent`. */
  predicate IndentedAfterFirst(lines: seq<string>, indent: string) {
    forall i :: 1 <= i < |lines| ==> indent <= lines[i]
  }

  /** Every line starts with `indent`. */
  predicate AllIndented(lines: seq<string>, indent: string) {
    forall i :: 0 <= i < |lines| ==> indent <= lines[i]
  }

  lemma PrefixTrans(x: string, y: string, z: string)
    requires x <= y && y <= z
    ensures x <= z
  {
    assert z[..|x|] == z[..|y|][..|x|];
  }

  /** A line that starts with the deeper indent starts with the shallower one. */
  lemma DeeperIndent(lines: seq<string>, indent: string)
    ensures IndentedAfterFirst(lines, indent + "    ") ==> IndentedAfterFirst(lines, indent)
    ensures AllIndented(lines, indent + "    ") ==> AllIndented(lines, indent)
  {
    forall i | 0 <= i < |lines| && indent + "    " <= lines[i]
      ensures indent <= lines[i]
    {
      PrefixTrans(indent, indent + "    ", lines[i]);
    }
  }

  /** Joining at a seam keeps every line after the first indented. */
  lemma CatLinesIndented(a: seq<string>, sep: string, b: seq<string>, indent: string)
    requires IndentedAfterFirst(a, indent) && IndentedAfterFirst(b, indent)
    ensures IndentedAfterFirst(CatLines(a, sep, b), indent)
  {
    var r := CatLines(a, sep, b);
    if |a| > 0 && |b| > 0 {
      var n := |a|;
      forall i | 1 <= i < |r|
        ensures indent <= r[i]
      {
        if i < n - 1 {
          assert r[i] == a[i];
        } else if i == n - 1 {
          var c := Cat(a[n - 1], sep, b[0]);
          assert r[i] == c && c[..|a[n - 1]|] == a[n - 1];
          PrefixTrans(indent, a[n - 1], c);
        } else {
          assert r[i] == b[i - n + 1];
        }
      }
    }
  }

  /** An opening line, indented lines, and a closing line at `indent`. */
  lemma BracketedIndented(open: string, mid: seq<string>, indent: string, close: string)
    requires AllIndented(mid, indent)
    ensures IndentedAfterFirst([open] + mid + [indent + close], indent)
  {
    var r := [open] + mid + [indent + close];
    forall i | 1 <= i < |r|
      ensures indent <= r[i]
    {
      if i <= |mid| {
        assert r[i] == mid[i - 1];
      }
    }
  }

  /**
   * `sourceLines(indent)` starts every line after the first with `indent`
   * ("indent is the leading chars from the second line"), as long as no
   * `DF_NONE` node prints its parts one after the other.
   */
  lemma {:induction false} SourceLinesIndent(f: Frag, indent: string)
    requires WellFormed(f) && NoBareNode(f)
    ensures IndentedAfterFirst(SourceLines(f, indent), indent)
    decreases f, 2
  {
    match f
    case Nil =>
    case Leaf(_, s) =>
      var lines := LeafLines(s, indent);
      forall i | 1 <= i < |lines|
        ensures indent <= lines[i]
      {
        assert lines[i] == indent + SplitLines(s)[i];
      }
    case Node(k, _) =>
      if k in {TypeDecl, ConstDecl, VarDecl, VarLine, StarType, NamePair} {
        DeclLinesIndent(f, indent);
      } else if k == FuncDecl {
        FuncLinesIndent(f, indent);
      } else {
        GroupLinesIndent(f, indent);
      }
  }

  lemma DeclLinesIndent(f: Frag, indent: string)
    requires WellFormed(f) && NoBareNode(f) && f.Node?
    requires f.kind in {TypeDecl, ConstDecl, VarDecl, VarLine, StarType, NamePair}
    ensures IndentedAfterFirst(SourceLines(f, indent), indent)
    decreases f, 1
  {
    var ps, ind4 := f.parts, indent + "    ";
    match f.kind
    case TypeDecl =>
      SourceLinesIndent(ps[0], indent);
      SourceLinesIndent(ps[1], indent);
      CatLinesIndented(["type"], " ", SourceLines(ps[0], indent), indent);
      CatLinesIndented(CatLines(["type"], " ", SourceLines(ps[0], indent)), " ", SourceLines(ps[1], indent), indent);
    case ConstDecl =>
      if |ps| == 1 {
        SourceLinesIndent(ps[0], indent);
        CatLinesIndented(["const"], " ", SourceLines(ps[0], indent), indent);
      } else {
        IndentedIndent(f, indent, |ps|);
        DeeperIndent(Indented(f, indent, |ps|), indent);
        BracketedIndented("const(", Indented(f, indent, |ps|), indent, ")");
      }
    case VarDecl =>
      SourceLinesIndent(ps[0], ind4);
      DeeperIndent(SourceLines(ps[0], ind4), indent);
      CatLinesIndented(["var"], " ", SourceLines(ps[0], ind4), indent);
    case VarLine =>
      var l0, l1, l2 := SourceLines(ps[0], indent), SourceLines(ps[1], indent), SourceLines(ps[2], indent);
      SourceLinesIndent(ps[0], indent);
      SourceLinesIndent(ps[1], indent);
      SourceLinesIndent(ps[2], indent);
      CatLinesIndented(l0, " ", l1, indent);
      CatLinesIndented(CatLines(l0, " ", l1), " = ", l2, indent);
    case StarType =>
      SourceLinesIndent(ps[0], indent);
      CatLinesIndented(["*"], "", SourceLines(ps[0], indent), indent);
    case NamePair =>
      SourceLinesIndent(ps[0], indent);
      SourceLinesIndent(ps[1], indent);
      CatLinesIndented(SourceLines(ps[0], indent), " ", SourceLines(ps[1], indent), indent);
  }

  lemma FuncLinesIndent(f: Frag, indent: string)
    requires WellFormed(f) && NoBareNode(f) && f.Node? && f.kind == FuncDecl
    ensures IndentedAfterFirst(SourceLines(f, indent), indent)
    decreases f, 1
  {
    var ps, ind4 := f.parts, indent + "    ";
    var l0, l1, l2 := SourceLines(ps[0], ind4), SourceLines(ps[1], ind4), SourceLines(ps[2], ind4);
    var l3, l4 := SourceLines(ps[3], ind4), SourceLines(ps[4], indent);
    SourceLinesIndent(ps[0], ind4);
    SourceLinesIndent(ps[1], ind4);
    SourceLinesIndent(ps[2], ind4);
    SourceLinesIndent(ps[3], ind4);
    SourceLinesIndent(ps[4], indent);
    DeeperIndent(l0, indent);
    DeeperIndent(l1, indent);
    DeeperIndent(l2, indent);
    DeeperIndent(l3, indent);
    var recv := if ps[0].Nil? then ["func"] else CatLines(CatLines(["func"], " (", l0), "", [")"]);
    CatLinesIndented(["func"], " (", l0, indent);
    CatLinesIndented(CatLines(["func"], " (", l0), "", [")"], indent);
    var named := CatLines(recv, " ", l1);
    CatLinesIndented(recv, " ", l1, indent);
    CatLinesIndented(named, "", ["("], indent);
    CatLinesIndented(CatLines(named, "", ["("]), "", l2, indent);
    var params := CatLines(CatLines(CatLines(named, "", ["("]), "", l2), "", [")"]);
    CatLinesIndented(CatLines(CatLines(named, "", ["("]), "", l2), "", [")"], indent);
    CatLinesIndented(params, " ", l3, indent);
    CatLinesIndented(CatLines(params, " ", l3), " ", l4, indent);
  }

  lemma GroupLinesIndent(f: Frag, indent: string)
    requires WellFormed(f) && NoBareNode(f) && f.Node?
    requires f.kind !in {TypeDecl, ConstDecl, VarDecl, VarLine, FuncDecl, StarType, NamePair}
    ensures IndentedAfterFirst(SourceLines(f, indent), indent)
    decreases f, 1
  {
    var ps := f.parts;
    match f.kind
    case ResultList =>
      if |ps| > 0 {
        var paren := |ps| > 1 || |ps[0].parts[0].source| > 0;
        ResultsIndent(f, indent, |ps|, if paren then ["("] else []);
        CatLinesIndented(Results(f, indent, |ps|, if paren then ["("] else []), "", [")"], indent);
      }
    case BlockBody =>
      IndentedIndent(f, indent, |ps|);
      DeeperIndent(Indented(f, indent, |ps|), indent);
      BracketedIndented("{", Indented(f, indent, |ps|), indent, "}");
    case StructType =>
      if |ps| > 0 {
        MembersIndent(f, indent, |ps|);
        DeeperIndent(Members(f, indent, |ps|), indent);
        BracketedIndented("struct {", Members(f, indent, |ps|), indent, "}");
      }
    case InterfaceType =>
      if |ps| > 0 {
        MembersIndent(f, indent, |ps|);
        DeeperIndent(Members(f, indent, |ps|), indent);
        BracketedIndented("interface {", Members(f, indent, |ps|), indent, "}");
      }
    case NameList =>
    case ValueList =>
      ValuesIndent(f, indent, |ps|);
  }

  lemma {:induction false} IndentedIndent(f: Frag, indent: string, k: nat)
    requires f.Node? && WellFormed(f) && NoBareNode(f) && k <= |f.parts|
    ensures AllIndented(Indented(f, indent, k), indent + "    ")
    decreases f, 1, k
  {
    if k > 0 {
      var ind4 := indent + "    ";
      IndentedIndent(f, indent, k - 1);
      SourceLinesIndent(f.parts[k - 1], ind4);
      ChunkIndented(Indented(f, indent, k - 1), ind4, SourceLines(f.parts[k - 1], ind4));
    }
  }

  /** A part opened by `ind`, whose later lines start with `ind`, after lines that all do. */
  lemma ChunkIndented(prev: seq<string>, ind: string, lns: seq<string>)
    requires AllIndented(prev, ind) && IndentedAfterFirst(lns, ind)
    ensures AllIndented(prev + CatLines([ind], "", lns), ind)
  {
    var chunk := CatLines([ind], "", lns);
    CatLinesIndented([ind], "", lns, ind);
    assert ind <= chunk[0] by {
      if |lns| > 0 {
        assert chunk[0] == Cat(ind, "", lns[0]);
      }
    }
    forall i | 0 <= i < |prev + chunk|
      ensures ind <= (prev + chunk)[i]
    {
      if i >= |prev| {
        assert (prev + chunk)[i] == chunk[i - |prev|];
      }
    }
  }

  lemma {:induction false} MembersIndent(f: Frag, indent: string, k: nat)
    requires f.Node? && WellFormed(f) && NoBareNode(f) && k <= |f.parts|
    ensures AllIndented(Members(f, indent, k), indent + "    ")
    decreases f, 1, k
  {
    if k > 0 {
      var ind4 := indent + "    ";
      MembersIndent(f, indent, k - 1);
      SourceLinesIndent(f.parts[k - 1], ind4);
      MemberIndented(Members(f, indent, k - 1), ind4, SourceLines(f.parts[k - 1], ind4));
    }
  }

  /** A member with `ind` put before its first line, whose later lines start with `ind`, after lines that all do. */
  lemma MemberIndented(prev: seq<string>, ind: string, lns: seq<string>)
    requires AllIndented(prev, ind) && IndentedAfterFirst(lns, ind)
    ensures AllIndented(prev + (if |lns| > 0 then [ind + lns[0]] + lns[1..] else []), ind)
  {
    var chunk := if |lns| > 0 then [ind + lns[0]] + lns[1..] else [];
    forall i | 0 <= i < |prev + chunk|
      ensures ind <= (prev + chunk)[i]
    {
      if i > |prev| {
        assert (prev + chunk)[i] == lns[i - |prev|];
      }
    }
  }

  lemma {:induction false} ResultsIndent(f: Frag, indent: string, k: nat, init: seq<string>)
    requires f.Node? && WellFormed(f) && NoBareNode(f) && k <= |f.parts| && IndentedAfterFirst(init, indent)
    ensures IndentedAfterFirst(Results(f, indent, k, init), indent)
    decreases f, 1, k
  {
    if k > 0 {
      var prev := Results(f, indent, k - 1, init);
      var lns := SourceLines(f.parts[k - 1], indent + "    ");
      ResultsIndent(f, indent, k - 1, init);
      CatLinesIndented(prev, "", [", "], indent);
      SourceLinesIndent(f.parts[k - 1], indent + "    ");
      DeeperIndent(lns, indent);
      CatLinesIndented(if k > 1 then CatLines(prev, "", [", "]) else prev, "", lns, indent);
    }
  }

  lemma {:induction false} ValuesIndent(f: Frag, indent: string, k: nat)
    requires f.Node? && WellFormed(f) && NoBareNode(f) && k <= |f.parts|
    ensures IndentedAfterFirst(Values(f, indent, k), indent)
    decreases f, 1, k
  {
    if k > 0 {
      var lns := SourceLines(f.parts[k - 1], indent + "    ");
      ValuesIndent(f, indent, k - 1);
      SourceLinesIndent(f.parts[k - 1], indent + "    ");
      DeeperIndent(lns, indent);
      CatLinesIndented(Values(f, indent, k - 1), ", ", lns, indent);
    }
  }

  /** An opening line, some lines, and a closing line, as text. */
  lemma BracketedText(open: string, mid: seq<string>, close: string)
    ensures JoinLines([open] + mid + [close]) == open + After(mid) + "\n" + close
  {
    JoinSnoc([open] + mid, close);
    JoinLinesAppend([open], mid);
  }

  /**
   * A non-empty struct prints as `struct {`, then every member on lines of
   * its own opened by the deeper indent, then `}` at `indent`.
   */
  lemma StructText(f: Frag, indent: string)
    requires WellFormed(f) && f.Node? && f.kind == StructType && |f.parts| > 0
    ensures JoinLines(SourceLines(f, indent)) == "struct {" + After(Members(f, indent, |f.parts|)) + "\n" + indent + "}"
  {
    BracketedText("struct {", Members(f, indent, |f.parts|), indent + "}");
  }

  /** Each member that prints at all adds a line break, the deeper indent and its own text. */
  lemma MembersText(f: Frag, indent: string, k: nat)
    requires f.Node? && WellFormed(f) && 0 < k <= |f.parts|
    ensures var lns := SourceLines(f.parts[k - 1], indent + "    ");
      After(Members(f, indent, k)) ==
        After(Members(f, indent, k - 1)) + (if |lns| > 0 then "\n" + (indent + "    ") + JoinLines(lns) else "")
  {
    var ind4 := indent + "    ";
    var lns := SourceLines(f.parts[k - 1], ind4);
    var prev := Members(f, indent, k - 1);
    if |lns| > 0 {
      FirstLineText(ind4, lns);
      ChunkAfter(prev, [ind4 + lns[0]] + lns[1..], ind4, JoinLines(lns));
    } else {
      assert Members(f, indent, k) == prev + [] == prev;
    }
  }

  /** Putting `ind` in front of the first line puts it in front of the text. */
  lemma FirstLineText(ind: string, lns: seq<string>)
    requires |lns| > 0
    ensures JoinLines([ind + lns[0]] + lns[1..]) == ind + JoinLines(lns)
  {
    var chunk := [ind + lns[0]] + lns[1..];
    JoinFirst(chunk);
    assert chunk[1..] == lns[1..];
    JoinFirst(lns);
    ConcatAssociative(ind, lns[0], After(lns[1..]));
  }

  /** Appending lines whose text is `ind + y` adds a line break, `ind` and `y`. */
  lemma ChunkAfter(prev: seq<string>, chunk: seq<string>, ind: string, y: string)
    requires |chunk| > 0 && JoinLines(chunk) == ind + y
    ensures After(prev + chunk) == After(prev) + "\n" + ind + y
  {
    JoinLinesAppend(prev, chunk);
    if |prev| == 0 {
      assert prev + chunk == chunk;
      ConcatAssociative("\n", ind, y);
    } else {
      var P := JoinLines(prev);
      var Q := P + "\n" + ind;
      ConcatAssociative(P + "\n", ind, y);
      ConcatAssociative("\n", Q, y);
      ConcatAssociative("\n", P + "\n", ind);
      ConcatAssociative("\n", P, "\n");
    }
  }

  /**
   * A group of several constants prints as `const(`, then every spec on
   * lines of its own opened by the deeper indent, then `)` at `indent`.
   */
  lemma ConstGroupText(f: Frag, indent: string)
    requires WellFormed(f) && f.Node? && f.kind == ConstDecl && |f.parts| != 1
    ensures JoinLines(SourceLines(f, indent)) == "const(" + After(Indented(f, indent, |f.parts|)) + "\n" + indent + ")"
  {
    BracketedText("const(", Indented(f, indent, |f.parts|), indent + ")");
  }

  /** Each spec of a group or statement of a block adds a line break, the deeper indent and its own text. */
  lemma IndentedText(f: Frag, indent: string, k: nat)
    requires f.Node? && WellFormed(f) && 0 < k <= |f.parts|
    ensures After(Indented(f, indent, k)) ==
      After(Indented(f, indent, k - 1)) + "\n" + (indent + "    ") + JoinLines(SourceLines(f.parts[k - 1], indent + "    "))
  {
    var ind4 := indent + "    ";
    IndentedChunkText(Indented(f, indent, k - 1), ind4, SourceLines(f.parts[k - 1], ind4));
  }

  lemma IndentedChunkText(prev: seq<string>, ind: string, lns: seq<string>)
    ensures After(prev + CatLines([ind], "", lns)) == After(prev) + "\n" + ind + JoinLines(lns)
  {
    var chunk := CatLines([ind], "", lns);
    var J := JoinLines(lns);
    assert JoinLines(chunk) == ind + J by {
      CatLinesText([ind], "", lns);
    }
    ChunkAfter(prev, chunk, ind, J);
  }

  /** A space, when the text that follows starts with a non-empty line. */
  function SpaceBefore(lines: seq<string>): (r: string) {
    if |lines| > 0 && |lines[0]| > 0 then " " else ""
  }

  /** The last line of a seam join. */
  lemma CatLinesLast(a: seq<string>, sep: string, b: seq<string>)
    requires |a| > 0
    ensures var r := CatLines(a, sep, b);
      |r| > 0 &&
      r[|r| - 1] == (if |b| == 0 then a[|a| - 1] else if |b| == 1 then Cat(a[|a| - 1], sep, b[0]) else b[|b| - 1])
  {
  }

  /** The receiver part of a function header: `func`, or `func (` receiver `)`. */
  function ReceiverText(f: Frag, indent: string): (r: string)
    requires WellFormed(f) && f.Node? && f.kind == FuncDecl
  {
    var l0 := SourceLines(f.parts[0], indent + "    ");
    if f.parts[0].Nil? then "func" else "func" + SpaceOpen(l0) + JoinLines(l0) + ")"
  }

  /** ` (` before a receiver that starts with a non-empty line. */
  function SpaceOpen(lines: seq<string>): (r: string) {
    if |lines| > 0 && |lines[0]| > 0 then " (" else ""
  }

  /** A function prints as the header text of its receiver, name, parameters, results and body. */
  lemma FuncText(f: Frag, indent: string)
    requires WellFormed(f) && f.Node? && f.kind == FuncDecl
    ensures var ps, ind4 := f.parts, indent + "    ";
      JoinLines(SourceLines(f, indent)) ==
        HeaderString(ReceiverText(f, indent), SourceLines(ps[1], ind4), SourceLines(ps[2], ind4),
                     SourceLines(ps[3], ind4), SourceLines(ps[4], indent))
  {
    var ps, ind4 := f.parts, indent + "    ";
    var l0, l1, l2 := SourceLines(ps[0], ind4), SourceLines(ps[1], ind4), SourceLines(ps[2], ind4);
    var l3, l4 := SourceLines(ps[3], ind4), SourceLines(ps[4], indent);
    var recv := if ps[0].Nil? then ["func"] else CatLines(CatLines(["func"], " (", l0), "", [")"]);
    var rt := ReceiverText(f, indent);
    assert |recv| > 0 && |recv[|recv| - 1]| > 0 && JoinLines(recv) == rt by {
      if !ps[0].Nil? {
        ReceiverLines(l0);
      }
    }
    assert SourceLines(f, indent) == FuncLines(f, indent) == HeaderLines(recv, l1, l2, l3, l4);
    HeaderText(recv, rt, l1, l2, l3, l4);
  }

  lemma ReceiverLines(l0: seq<string>)
    ensures var recv := CatLines(CatLines(["func"], " (", l0), "", [")"]);
      |recv| > 0 && |recv[|recv| - 1]| > 0 && JoinLines(recv) == "func" + SpaceOpen(l0) + JoinLines(l0) + ")"
  {
    var x := CatLines(["func"], " (", l0);
    CatLinesText(["func"], " (", l0);
    CatLinesText(x, "", [")"]);
    CatLinesLast(x, "", [")"]);
  }

  /**
   * A function header as text: the receiver part, the name, the parameters
   * in parentheses, the results and the body, one space before the name,
   * the results and the body when they start with a non-empty line and the
   * text before them does not end with an empty one.
   */
  function HeaderString(rt: string, name: seq<string>, params: seq<string>, results: seq<string>, body: seq<string>): (r: string) {
    var bodySpace := if |results| <= 1 || |results[|results| - 1]| > 0 then SpaceBefore(body) else "";
    rt + SpaceBefore(name) + JoinLines(name) + "(" + JoinLines(params) + ")" +
    SpaceBefore(results) + JoinLines(results) + bodySpace + JoinLines(body)
  }

  /** The text of the header template, from the lines of its pieces. */
  lemma HeaderText(recv: seq<string>, rt: string, l1: seq<string>, l2: seq<string>, l3: seq<string>, l4: seq<string>)
    requires |recv| > 0 && |recv[|recv| - 1]| > 0 && JoinLines(recv) == rt
    ensures JoinLines(HeaderLines(recv, l1, l2, l3, l4)) == HeaderString(rt, l1, l2, l3, l4)
  {
    var named := CatLines(recv, " ", l1);
    var params := CatLines(CatLines(CatLines(named, "", ["("]), "", l2), "", [")"]);
    ParamsText(recv, rt, l1, l2);
    TailText(params, rt + SpaceBefore(l1) + JoinLines(l1) + "(" + JoinLines(l2) + ")", l3, l4);
  }

  /** The header up to the closing parenthesis of the parameters. */
  lemma ParamsText(recv: seq<string>, rt: string, l1: seq<string>, l2: seq<string>)
    requires |recv| > 0 && |recv[|recv| - 1]| > 0 && JoinLines(recv) == rt
    ensures var named := CatLines(recv, " ", l1);
      var params := CatLines(CatLines(CatLines(named, "", ["("]), "", l2), "", [")"]);
      |params| > 0 && |params[|params| - 1]| > 0 &&
      JoinLines(params) == rt + SpaceBefore(l1) + JoinLines(l1) + "(" + JoinLines(l2) + ")"
  {
    var named := CatLines(recv, " ", l1);
    SpaceSeam(recv, l1);
    var n2 := CatLines(named, "", ["("]);
    PlainSeam(named, ["("]);
    var n3 := CatLines(n2, "", l2);
    PlainSeam(n2, l2);
    PlainSeam(n3, [")"]);
  }

  /** The results and the body after the parameters. */
  lemma TailText(params: seq<string>, pt: string, l3: seq<string>, l4: seq<string>)
    requires |params| > 0 && |params[|params| - 1]| > 0 && JoinLines(params) == pt
    ensures JoinLines(CatLines(CatLines(params, " ", l3), " ", l4)) ==
      pt + SpaceBefore(l3) + JoinLines(l3) + (if |l3| <= 1 || |l3[|l3| - 1]| > 0 then SpaceBefore(l4) else "") + JoinLines(l4)
  {
    SpaceSeam(params, l3);
    SpaceSeamAny(CatLines(params, " ", l3), l4);
  }

  /** Joining with no separator concatenates the texts; a non-empty last line of the second part stays last. */
  lemma PlainSeam(a: seq<string>, b: seq<string>)
    requires |a| > 0
    ensures var r := CatLines(a, "", b);
      JoinLines(r) == JoinLines(a) + JoinLines(b) && |r| > 0 &&
      (|b| > 0 && |b[|b| - 1]| > 0 ==> |r[|r| - 1]| > 0)
  {
    CatLinesText(a, "", b);
    CatLinesLast(a, "", b);
    assert JoinLines(a) + "" == JoinLines(a);
  }

  /** Joining with one space after a non-empty line puts the space before a non-empty first line. */
  lemma SpaceSeam(a: seq<string>, b: seq<string>)
    requires |a| > 0 && |a[|a| - 1]| > 0
    ensures var r := CatLines(a, " ", b);
      JoinLines(r) == JoinLines(a) + SpaceBefore(b) + JoinLines(b) && |r| > 0 &&
      (|r[|r| - 1]| > 0 <==> |b| <= 1 || |b[|b| - 1]| > 0)
  {
    CatLinesText(a, " ", b);
    CatLinesLast(a, " ", b);
  }

  /** Joining with one space, whatever the last line of the first part. */
  lemma SpaceSeamAny(a: seq<string>, b: seq<string>)
    requires |a| > 0
    ensures JoinLines(CatLines(a, " ", b)) ==
      JoinLines(a) + (if |a[|a| - 1]| > 0 then SpaceBefore(b) else "") + JoinLines(b)
  {
    CatLinesText(a, " ", b);
  }
}

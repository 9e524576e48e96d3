/**
 * The line diff of `DiffLinesTo` (cmd/godiff.go:1166-1257): a common head
 * and tail are cut off on large inputs, the remaining lines are aligned by
 * the edit-distance library under the engine's line costs, and a walk over
 * both sides turns the alignment into a sequence of same, deleted,
 * inserted and changed lines, counting the lines an operation shows.
 */
module LineDiff {
  import opened Seqs
  import opened Text
  import opened Alignment
  import opened TokenMatch

  /* ---------- offsetHeadTails ---------- */

  /** The end of the common prefix of `a` and `b`, searching from `k`. */
  function PrefixFrom(a: seq<string>, b: seq<string>, k: nat): (r: nat)
    requires k <= |a| && k <= |b|
    ensures k <= r <= |a| && r <= |b|
    decreases |a| - k
  {
    if k < |a| && k < |b| && a[k] == b[k] then PrefixFrom(a, b, k + 1) else k
  }

  /** The starts of the common suffix of `a[..m]` and `b[..n]` that begins after `lo`. */
  function SuffixFrom(a: seq<string>, b: seq<string>, lo: nat, m: nat, n: nat): (r: (nat, nat))
    requires lo <= m <= |a| && lo <= n <= |b|
    ensures lo <= r.0 <= m && lo <= r.1 <= n && m - r.0 == n - r.1
    decreases m
  {
    if m > lo && n > lo && a[m - 1] == b[n - 1] then SuffixFrom(a, b, lo, m - 1, n - 1) else (m, n)
  }

  /** `(start, orgEnd, newEnd)`: the longest common head, then the longest common tail of what is left. */
  function HeadTails(a: seq<string>, b: seq<string>): (r: (nat, nat, nat))
    ensures r.0 <= r.1 <= |a| && r.0 <= r.2 <= |b| && |a| - r.1 == |b| - r.2
  {
    var start := PrefixFrom(a, b, 0);
    var ends := SuffixFrom(a, b, start, |a|, |b|);
    (start, ends.0, ends.1)
  }

  lemma {:induction false} PrefixFromFacts(a: seq<string>, b: seq<string>, k: nat)
    requires k <= |a| && k <= |b| && a[..k] == b[..k]
    ensures a[..PrefixFrom(a, b, k)] == b[..PrefixFrom(a, b, k)]
    ensures PrefixFrom(a, b, k) == |a| || PrefixFrom(a, b, k) == |b| || a[PrefixFrom(a, b, k)] != b[PrefixFrom(a, b, k)]
    decreases |a| - k
  {
    if k < |a| && k < |b| && a[k] == b[k] {
      PrefixGrow(a, b, k);
      PrefixFromFacts(a, b, k + 1);
    }
  }

  lemma {:induction false} SuffixFromFacts(a: seq<string>, b: seq<string>, lo: nat, m: nat, n: nat)
    requires lo <= m <= |a| && lo <= n <= |b| && a[m..] == b[n..]
    ensures var r := SuffixFrom(a, b, lo, m, n);
            a[r.0..] == b[r.1..] && (r.0 == lo || r.1 == lo || a[r.0 - 1] != b[r.1 - 1])
    decreases m
  {
    if m > lo && n > lo && a[m - 1] == b[n - 1] {
      SuffixGrow(a, b, m, n);
      SuffixFromFacts(a, b, lo, m - 1, n - 1);
    }
  }

  /**
   * The head `[0, start)` is common and cannot be extended; the tails from
   * `orgEnd` and `newEnd` are common, equally long, and cannot be extended
   * without reaching into the head.
   */
  lemma HeadTailsFacts(a: seq<string>, b: seq<string>)
    ensures var (start, orgEnd, newEnd) := HeadTails(a, b);
            a[..start] == b[..start] &&
            (start == |a| || start == |b| || a[start] != b[start]) &&
            |a| - orgEnd == |b| - newEnd && a[orgEnd..] == b[newEnd..] &&
            (orgEnd == start || newEnd == start || a[orgEnd - 1] != b[newEnd - 1])
  {
    PrefixFromFacts(a, b, 0);
    var start := PrefixFrom(a, b, 0);
    assert a[|a|..] == b[|b|..];
    SuffixFromFacts(a, b, start, |a|, |b|);
  }

  /** `offsetHeadTails` (cmd/godiff.go:1166-1178). */
  method OffsetHeadTails(orgLines: seq<string>, newLines: seq<string>) returns (start: nat, orgEnd: nat, newEnd: nat)
    ensures (start, orgEnd, newEnd) == HeadTails(orgLines, newLines)
  {
    start := 0;
    while start < |orgLines| && start < |newLines| && orgLines[start] == newLines[start]
      invariant start <= |orgLines| && start <= |newLines|
      invariant PrefixFrom(orgLines, newLines, start) == PrefixFrom(orgLines, newLines, 0)
    {
      start := start + 1;
    }
    orgEnd, newEnd := |orgLines|, |newLines|;
    while orgEnd > start && newEnd > start && orgLines[orgEnd - 1] == newLines[newEnd - 1]
      invariant start <= orgEnd <= |orgLines| && start <= newEnd <= |newLines|
      invariant SuffixFrom(orgLines, newLines, start, orgEnd, newEnd) == SuffixFrom(orgLines, newLines, start, |orgLines|, |newLines|)
    {
      orgEnd, newEnd := orgEnd - 1, newEnd - 1;
    }
  }

  /* ---------- cost callbacks ---------- */

  /** Above this many line pairs, head and tail are cut off and the fast distance is used. */
  const FastModeProduct: nat := 1024 * 1024

  /** Deleting or inserting a line costs 100 per character left after trimming, and at least 1. */
  function IndelCost(line: string): (c: int)
    ensures c >= 1 && (c == 1 <==> TrimSpace(line) == [])
  {
    Max(1, |TrimSpace(line)| * 100)
  }

  /** The `dist` of two trimmed lines: in fast mode a line over ten times longer than the other is scored by length alone. */
  function LineDistance(sa: string, sb: string, fastMode: bool): (r: int) {
    if fastMode && |sa| > 10 * |sb| then 100 * (|sa| - |sb|)
    else if fastMode && |sb| > 10 * |sa| then 100 * (|sb| - |sa|)
    else SourceLineDiff(sa, sb, (|sa| + |sb|) * 150)
  }

  lemma LineDistanceBounds(sa: string, sb: string, fastMode: bool)
    ensures 0 <= LineDistance(sa, sb, fastMode) <= 2 * ((|sa| + |sb|) * 150)
  {
    SourceLineDiffBounds(sa, sb, (|sa| + |sb|) * 150);
  }

  /**
   * Replacing line `a` by line `b`: identical lines cost 0, lines equal
   * after trimming cost 1, and any other replacement costs at least 16 and
   * at most `285 * n + 1` for `n` characters left after trimming.
   */
  function SubstCost(a: string, b: string, fastMode: bool): (c: int)
    ensures c == 0 <==> a == b
    ensures c == 1 <==> a != b && TrimSpace(a) == TrimSpace(b)
    ensures TrimSpace(a) != TrimSpace(b) ==> 16 <= c <= 285 * (|TrimSpace(a)| + |TrimSpace(b)|) + 1
  {
    if a == b then 0
    else
      var sa, sb := TrimSpace(a), TrimSpace(b);
      if sa == sb then 1
      else
        var mx := (|sa| + |sb|) * 150;
        LineDistanceBounds(sa, sb, fastMode);
        assert |sa| + |sb| >= 1;
        GoDiv(LineDistance(sa, sb, fastMode) * 9 + mx, 10) + 1
  }

  lemma LineDistanceSymmetric(sa: string, sb: string, fastMode: bool)
    ensures LineDistance(sa, sb, fastMode) == LineDistance(sb, sa, fastMode)
  {
    SourceLineDiffSymmetric(sa, sb, (|sa| + |sb|) * 150);
    assert (|sb| + |sa|) * 150 == (|sa| + |sb|) * 150;
  }

  /** The costs do not depend on which side a line comes from. */
  lemma SubstCostSymmetric(a: string, b: string, fastMode: bool)
    ensures SubstCost(a, b, fastMode) == SubstCost(b, a, fastMode)
  {
    LineDistanceSymmetric(TrimSpace(a), TrimSpace(b), fastMode);
  }

  /** The replacement costs of line `a` against the new lines `[start, newEnd)`. */
  function SubstRow(a: string, newLines: seq<string>, start: nat, newEnd: nat, fastMode: bool): (r: seq<int>)
    requires start <= newEnd <= |newLines|
    ensures |r| == newEnd - start
    ensures forall j :: 0 <= j < newEnd - start ==> r[j] == SubstCost(a, newLines[j + start], fastMode)
  {
    seq(newEnd - start, j requires 0 <= j < newEnd - start => SubstCost(a, newLines[j + start], fastMode))
  }

  /** The deletion or insertion costs of the lines `[start, end)`. */
  function IndelRow(lines: seq<string>, start: nat, end: nat): (r: seq<int>)
    requires start <= end <= |lines|
    ensures |r| == end - start
    ensures forall k :: 0 <= k < end - start ==> r[k] == IndelCost(lines[k + start])
  {
    seq(end - start, k requires 0 <= k < end - start => IndelCost(lines[k + start]))
  }

  /** The callbacks as cost tables over the window `[start, orgEnd)` × `[start, newEnd)`: row `i` of `sub` holds the costs of original line `start + i`. */
  function LineTables(orgLines: seq<string>, newLines: seq<string>, start: nat, orgEnd: nat, newEnd: nat, fastMode: bool): (c: Costs)
    requires start <= orgEnd <= |orgLines| && start <= newEnd <= |newLines|
    ensures |c.sub| == orgEnd - start
    ensures forall i :: 0 <= i < orgEnd - start ==> c.sub[i] == SubstRow(orgLines[i + start], newLines, start, newEnd, fastMode)
  {
    Costs(seq(orgEnd - start, i requires 0 <= i < orgEnd - start => SubstRow(orgLines[i + start], newLines, start, newEnd, fastMode)),
          IndelRow(orgLines, start, orgEnd), IndelRow(newLines, start, newEnd))
  }

  /** The tables hold the callbacks' costs, entry by entry. */
  lemma LineTablesCosts(orgLines: seq<string>, newLines: seq<string>, start: nat, orgEnd: nat, newEnd: nat, fastMode: bool)
    requires start <= orgEnd <= |orgLines| && start <= newEnd <= |newLines|
    ensures forall i, j :: 0 <= i < orgEnd - start && 0 <= j < newEnd - start ==>
              SubCost(LineTables(orgLines, newLines, start, orgEnd, newEnd, fastMode), i, j) ==
              SubstCost(orgLines[i + start], newLines[j + start], fastMode)
    ensures forall i :: 0 <= i < orgEnd - start ==>
              DelCost(LineTables(orgLines, newLines, start, orgEnd, newEnd, fastMode), i) == IndelCost(orgLines[i + start])
    ensures forall j :: 0 <= j < newEnd - start ==>
              InsCost(LineTables(orgLines, newLines, start, orgEnd, newEnd, fastMode), j) == IndelCost(newLines[j + start])
  {
    var c := LineTables(orgLines, newLines, start, orgEnd, newEnd, fastMode);
    forall i, j | 0 <= i < orgEnd - start && 0 <= j < newEnd - start
      ensures SubCost(c, i, j) == SubstCost(orgLines[i + start], newLines[j + start], fastMode)
    {
      assert c.sub[i] == SubstRow(orgLines[i + start], newLines, start, newEnd, fastMode);
    }
  }

  /* ---------- the walk ---------- */

  /** What the walk reports for a line or a pair of lines (indices into the whole inputs). */
  datatype Step = Same(i: nat, j: nat) | Del(i: nat) | Ins(j: nat) | Change(i: nat, j: nat)

  function LeftOf(s: Step): (r: seq<int>) {
    match s
    case Same(i, _) => [i]
    case Del(i) => [i]
    case Ins(_) => []
    case Change(i, _) => [i]
  }

  function RightOf(s: Step): (r: seq<int>) {
    match s
    case Same(_, j) => [j]
    case Del(_) => []
    case Ins(j) => [j]
    case Change(_, j) => [j]
  }

  /** The indices of the original lines the steps visit, in order. */
  function Lefts(steps: seq<Step>): (r: seq<int>) {
    if |steps| == 0 then [] else LeftOf(steps[0]) + Lefts(steps[1..])
  }

  /** The indices of the new lines the steps visit, in order. */
  function Rights(steps: seq<Step>): (r: seq<int>) {
    if |steps| == 0 then [] else RightOf(steps[0]) + Rights(steps[1..])
  }

  /** The lines an operation shows: one for a deletion or an insertion, two for a change. */
  function Shown(s: Step): (r: nat) {
    match s
    case Same(_, _) => 0
    case Del(_) => 1
    case Ins(_) => 1
    case Change(_, _) => 2
  }

  /** The number of operation lines the steps show (the `cnt` of cmd/godiff.go:1226-1256). */
  function Count(steps: seq<Step>): (r: nat) {
    if |steps| == 0 then 0 else Shown(steps[0]) + Count(steps[1..])
  }

  /** `lo, lo + 1, ..., hi - 1`. */
  function Interval(lo: nat, hi: nat): (r: seq<int>)
    decreases hi - lo
  {
    if lo >= hi then [] else [lo] + Interval(lo + 1, hi)
  }

  lemma {:induction false} IntervalFacts(lo: nat, hi: nat)
    requires lo <= hi
    ensures |Interval(lo, hi)| == hi - lo && forall k :: 0 <= k < hi - lo ==> Interval(lo, hi)[k] == lo + k
    decreases hi - lo
  {
    if lo < hi {
      IntervalFacts(lo + 1, hi);
    }
  }

  /** The step is taken at position `(i, j)` of the walk. */
  predicate AtCursor(s: Step, i: nat, j: nat) {
    match s
    case Same(a, b) => a == i && b == j
    case Del(a) => a == i
    case Ins(b) => b == j
    case Change(a, b) => a == i && b == j
  }

  /**
   * The alignment read pair by pair: `matA` and `matB` are inverse to each
   * other on the pairs they hold (`ValidAlignment`, stated without terms
   * that name one table through the other).
   */
  predicate Paired(matA: seq<int>, matB: seq<int>) {
    (forall i :: 0 <= i < |matA| ==> -1 <= matA[i] < |matB|) &&
    (forall j :: 0 <= j < |matB| ==> -1 <= matB[j] < |matA|) &&
    (forall i, j :: 0 <= i < |matA| && 0 <= j < |matB| ==> (matA[i] == j <==> matB[j] == i))
  }

  lemma PairedOfValid(matA: seq<int>, matB: seq<int>)
    requires ValidAlignment(matA, matB)
    ensures Paired(matA, matB)
  {
  }

  /** The window and the alignment of its lines, as the walk receives them. */
  datatype Window = Window(start: nat, orgEnd: nat, newEnd: nat, matA: seq<int>, matB: seq<int>)

  /**
   * The window lies within `n` original and `m` new lines, with tails of
   * equal length after it, and the alignment of its lines is valid and
   * order-preserving.
   */
  predicate Shape(n: nat, m: nat, w: Window) {
    Sized(n, m, w) && Paired(w.matA, w.matB) && OrderPreserving(w.matA)
  }

  /** The bounds part of `Shape`. */
  predicate Sized(n: nat, m: nat, w: Window) {
    w.start <= w.orgEnd <= n && w.start <= w.newEnd <= m && n - w.orgEnd == m - w.newEnd &&
    |w.matA| == w.orgEnd - w.start && |w.matB| == w.newEnd - w.start
  }

  /** The lines before and after the window are the same on both sides. */
  predicate CommonEnds<L(==)>(orgLines: seq<L>, newLines: seq<L>, w: Window)
    requires Sized(|orgLines|, |newLines|, w)
  {
    (forall k :: 0 <= k < w.start ==> orgLines[k] == newLines[k]) &&
    (forall k :: w.orgEnd <= k < |orgLines| ==> orgLines[k] == newLines[k - w.orgEnd + w.newEnd])
  }

  predicate GoodWindow<L(==)>(orgLines: seq<L>, newLines: seq<L>, w: Window) {
    Shape(|orgLines|, |newLines|, w) && CommonEnds(orgLines, newLines, w)
  }

  /**
   * Where a step may be: outside the window a pair of lines; inside, a pair
   * only when aligned, and a single line only when unaligned.
   */
  predicate StepAligned(n: nat, m: nat, w: Window, s: Step)
    requires Sized(n, m, w)
  {
    match s
    case Same(i, j) =>
      i < n && j < m &&
      if w.start <= i < w.orgEnd then w.start <= j < w.newEnd && w.matA[i - w.start] == j - w.start
      else if i < w.start then j == i
      else i - w.orgEnd == j - w.newEnd
    case Del(i) => w.start <= i < w.orgEnd && w.matA[i - w.start] < 0
    case Ins(j) => w.start <= j < w.newEnd && w.matB[j - w.start] < 0
    case Change(i, j) => w.start <= i < w.orgEnd && w.start <= j < w.newEnd && w.matA[i - w.start] == j - w.start
  }

  /**
   * What a step says of the lines: outside the window the same line is on
   * both sides; inside, an aligned pair is a change exactly when the lines
   * differ after trimming.
   */
  predicate StepLines<L(==)>(orgLines: seq<L>, newLines: seq<L>, trim: L -> L, w: Window, s: Step) {
    match s
    case Same(i, j) =>
      i < |orgLines| && j < |newLines| &&
      if w.start <= i < w.orgEnd then trim(orgLines[i]) == trim(newLines[j]) else orgLines[i] == newLines[j]
    case Del(_) => true
    case Ins(_) => true
    case Change(i, j) => i < |orgLines| && j < |newLines| && trim(orgLines[i]) != trim(newLines[j])
  }

  /** What one step of the walk promises. */
  predicate StepOk<L(==)>(orgLines: seq<L>, newLines: seq<L>, trim: L -> L, w: Window, s: Step)
    requires Sized(|orgLines|, |newLines|, w)
  {
    StepAligned(|orgLines|, |newLines|, w, s) && StepLines(orgLines, newLines, trim, w, s)
  }

  /** Every pair aligned so far lies on the same side of the cut `(ci, cj)`. */
  ghost predicate Cut(matA: seq<int>, ci: int, cj: int) {
    forall a :: 0 <= a < |matA| && matA[a] >= 0 ==> (a < ci <==> matA[a] < cj)
  }

  /** Where the walk can be: in the head on the diagonal, in the window on a cut of the alignment, or in the tail on the diagonal. */
  ghost predicate WalkAt(n: nat, m: nat, w: Window, i: nat, j: nat)
  {
    i <= n && j <= m &&
    (i < w.start || j < w.start ==> i == j) &&
    (i > w.orgEnd || j > w.newEnd ==> i - w.orgEnd == j - w.newEnd) &&
    (w.start <= i <= w.orgEnd && w.start <= j <= w.newEnd ==> Cut(w.matA, i - w.start, j - w.start))
  }

  lemma CutDel(matA: seq<int>, ci: int, cj: int)
    requires Cut(matA, ci, cj) && 0 <= ci < |matA| && matA[ci] < 0
    ensures Cut(matA, ci + 1, cj)
  {
  }

  lemma CutIns(matA: seq<int>, matB: seq<int>, ci: int, cj: int)
    requires Paired(matA, matB) && Cut(matA, ci, cj) && 0 <= cj < |matB| && matB[cj] < 0
    ensures Cut(matA, ci, cj + 1)
  {
    forall a | 0 <= a < |matA| && matA[a] >= 0
      ensures matA[a] != cj
    {
    }
  }

  lemma CutPair(matA: seq<int>, matB: seq<int>, ci: int, cj: int)
    requires Paired(matA, matB) && Cut(matA, ci, cj) && 0 <= ci < |matA| && 0 <= cj && matA[ci] == cj
    ensures Cut(matA, ci + 1, cj + 1)
  {
    assert matB[cj] == ci;
  }

  lemma CutEnds(matA: seq<int>, matB: seq<int>)
    requires Paired(matA, matB)
    ensures Cut(matA, 0, 0) && Cut(matA, |matA|, |matB|)
  {
  }

  /** On a cut, the next original line is aligned with the next new line, or one of them is unaligned. */
  lemma CutNext(matA: seq<int>, matB: seq<int>, ci: nat, cj: nat)
    requires Paired(matA, matB) && OrderPreserving(matA) && Cut(matA, ci, cj)
    requires ci < |matA| && cj < |matB| && matA[ci] >= 0 && matB[cj] >= 0
    ensures matA[ci] == cj
  {
    var y := matB[cj];
    assert matA[y] == cj;
  }

  /** On a cut where one side is used up, the other side's next line is unaligned. */
  lemma CutExhausted(matA: seq<int>, matB: seq<int>, ci: nat, cj: nat)
    requires Paired(matA, matB) && Cut(matA, ci, cj)
    ensures ci < |matA| && cj == |matB| ==> matA[ci] < 0
    ensures cj < |matB| && ci == |matA| ==> matB[cj] < 0
  {
    if cj < |matB| && matB[cj] >= 0 {
      assert matA[matB[cj]] == cj;
    }
  }

  /** A step outside the window: both sides advance. */
  lemma SameOutside(n: nat, m: nat, w: Window, i: nat, j: nat)
    requires Shape(n, m, w) && WalkAt(n, m, w, i, j) && (i < n || j < m)
    requires i < w.start || (i >= w.orgEnd && j >= w.newEnd)
    ensures StepAligned(n, m, w, Same(i, j)) && WalkAt(n, m, w, i + 1, j + 1)
  {
    CutEnds(w.matA, w.matB);
  }

  /** A deletion inside the window. */
  lemma DelInside(n: nat, m: nat, w: Window, i: nat, j: nat)
    requires Shape(n, m, w) && WalkAt(n, m, w, i, j) && (i < n || j < m)
    requires !(i < w.start || (i >= w.orgEnd && j >= w.newEnd))
    requires j >= w.newEnd || (i < w.orgEnd && w.matA[i - w.start] < 0)
    ensures StepAligned(n, m, w, Del(i)) && WalkAt(n, m, w, i + 1, j)
  {
    var ci, cj := i - w.start, if j < w.newEnd then j - w.start else w.newEnd - w.start;
    CutExhausted(w.matA, w.matB, ci, cj);
    CutDel(w.matA, ci, cj);
  }

  /** An insertion inside the window. */
  lemma InsInside(n: nat, m: nat, w: Window, i: nat, j: nat)
    requires Shape(n, m, w) && WalkAt(n, m, w, i, j) && (i < n || j < m)
    requires !(i < w.start || (i >= w.orgEnd && j >= w.newEnd))
    requires !(j >= w.newEnd || (i < w.orgEnd && w.matA[i - w.start] < 0))
    requires i >= w.orgEnd || (j < w.newEnd && w.matB[j - w.start] < 0)
    ensures StepAligned(n, m, w, Ins(j)) && WalkAt(n, m, w, i, j + 1)
  {
    var ci, cj := if i < w.orgEnd then i - w.start else w.orgEnd - w.start, j - w.start;
    CutExhausted(w.matA, w.matB, ci, cj);
    CutIns(w.matA, w.matB, ci, cj);
  }

  /** An aligned pair inside the window. */
  lemma PairInside(n: nat, m: nat, w: Window, i: nat, j: nat)
    requires Shape(n, m, w) && WalkAt(n, m, w, i, j) && (i < n || j < m)
    requires !(i < w.start || (i >= w.orgEnd && j >= w.newEnd))
    requires !(j >= w.newEnd || (i < w.orgEnd && w.matA[i - w.start] < 0))
    requires !(i >= w.orgEnd || (j < w.newEnd && w.matB[j - w.start] < 0))
    ensures w.start <= i < w.orgEnd && w.start <= j < w.newEnd && w.matA[i - w.start] == j - w.start
    ensures WalkAt(n, m, w, i + 1, j + 1)
  {
    var ci, cj := i - w.start, j - w.start;
    CutNext(w.matA, w.matB, ci, cj);
    CutPair(w.matA, w.matB, ci, cj);
  }

  /** Entry `k` of an alignment table exists and says "unaligned" (`-1`). */
  predicate Unaligned(mat: seq<int>, k: int) {
    0 <= k < |mat| && mat[k] < 0
  }

  /**
   * Which case of the walk's `switch` applies at `(i, j)`: the step it takes,
   * with an aligned pair inside the window reported as a change before its
   * lines are compared. The table lookups are guarded only so that the
   * function is total; on a window of the right size every lookup it makes
   * is in range.
   */
  function Advance(w: Window, i: nat, j: nat): (r: Step) {
    if i < w.start || (i >= w.orgEnd && j >= w.newEnd) then Same(i, j)
    else if j >= w.newEnd || (i < w.orgEnd && Unaligned(w.matA, i - w.start)) then Del(i)
    else if i >= w.orgEnd || (j < w.newEnd && Unaligned(w.matB, j - w.start)) then Ins(j)
    else Change(i, j)
  }

  /** Every case of the `switch` is a step the alignment allows, and the walk stays on a cut. */
  lemma AdvanceOk(n: nat, m: nat, w: Window, i: nat, j: nat)
    requires Shape(n, m, w) && WalkAt(n, m, w, i, j) && (i < n || j < m)
    ensures StepAligned(n, m, w, Advance(w, i, j)) && AtCursor(Advance(w, i, j), i, j)
    ensures WalkAt(n, m, w, i + |LeftOf(Advance(w, i, j))|, j + |RightOf(Advance(w, i, j))|)
  {
    if i < w.start || (i >= w.orgEnd && j >= w.newEnd) {
      SameOutside(n, m, w, i, j);
    } else if j >= w.newEnd || (i < w.orgEnd && w.matA[i - w.start] < 0) {
      DelInside(n, m, w, i, j);
    } else if i >= w.orgEnd || (j < w.newEnd && w.matB[j - w.start] < 0) {
      InsInside(n, m, w, i, j);
    } else {
      PairInside(n, m, w, i, j);
    }
  }

  /** A step a case of the `switch` takes: one the alignment allows, never reporting a pair inside the window as the same. */
  predicate SwitchCase(n: nat, m: nat, w: Window, s: Step)
    requires Sized(n, m, w)
  {
    StepAligned(n, m, w, s) && !(s.Same? && w.start <= s.i < w.orgEnd)
  }

  /** The `default` case: an aligned pair is a change unless the lines agree after trimming. */
  function Refine<L(==)>(orgLines: seq<L>, newLines: seq<L>, trim: L -> L, s: Step): (r: Step) {
    match s
    case Change(i, j) =>
      if i < |orgLines| && j < |newLines| && trim(orgLines[i]) == trim(newLines[j]) then Same(i, j) else s
    case _ => s
  }

  /** Refining a step the alignment allows gives a step that is right about its lines, on the same lines. */
  lemma RefineOk<L>(orgLines: seq<L>, newLines: seq<L>, trim: L -> L, w: Window, s: Step)
    requires Sized(|orgLines|, |newLines|, w) && CommonEnds(orgLines, newLines, w)
    requires SwitchCase(|orgLines|, |newLines|, w, s)
    ensures StepOk(orgLines, newLines, trim, w, Refine(orgLines, newLines, trim, s))
    ensures LeftOf(Refine(orgLines, newLines, trim, s)) == LeftOf(s) && RightOf(Refine(orgLines, newLines, trim, s)) == RightOf(s)
  {
    if s.Same? && s.i < w.start {
      assert orgLines[s.i] == newLines[s.i];
    } else if s.Same? && s.i >= w.orgEnd {
      assert orgLines[s.i] == newLines[s.i - w.orgEnd + w.newEnd];
    }
  }

  /** Before the window the walk is on the diagonal. */
  predicate OnDiagonal(w: Window, i: nat, j: nat) {
    i < w.start || j < w.start ==> i == j
  }

  /** How many of `n` lines are left from `i` on. */
  function Remaining(n: nat, i: nat): (r: nat) {
    if i < n then n - i else 0
  }

  /** Every case of the `switch` moves the walk on and keeps it on the diagonal before the window. */
  lemma AdvanceProgress(n: nat, m: nat, w: Window, i: nat, j: nat)
    requires Sized(n, m, w) && OnDiagonal(w, i, j) && (i < n || j < m)
    ensures OnDiagonal(w, i + |LeftOf(Advance(w, i, j))|, j + |RightOf(Advance(w, i, j))|)
    ensures Remaining(n, i + |LeftOf(Advance(w, i, j))|) + Remaining(m, j + |RightOf(Advance(w, i, j))|)
      < Remaining(n, i) + Remaining(m, j)
  {
  }

  /**
   * The cases of the `switch` the loop of cmd/godiff.go:1228-1256 goes
   * through from `(i, j)` to the end, before the lines of aligned pairs are
   * compared.
   */
  function Moves(n: nat, m: nat, w: Window, i: nat, j: nat): (r: seq<Step>)
    requires Sized(n, m, w) && OnDiagonal(w, i, j)
    decreases Remaining(n, i) + Remaining(m, j)
  {
    if i >= n && j >= m then []
    else
      var s := Advance(w, i, j);
      AdvanceProgress(n, m, w, i, j);
      [s] + Moves(n, m, w, i + |LeftOf(s)|, j + |RightOf(s)|)
  }

  /** One move, then the rest. */
  lemma MovesStep(n: nat, m: nat, w: Window, i: nat, j: nat)
    requires Sized(n, m, w) && OnDiagonal(w, i, j) && (i < n || j < m)
    ensures OnDiagonal(w, i + |LeftOf(Advance(w, i, j))|, j + |RightOf(Advance(w, i, j))|)
    ensures Moves(n, m, w, i, j) == [Advance(w, i, j)] +
      Moves(n, m, w, i + |LeftOf(Advance(w, i, j))|, j + |RightOf(Advance(w, i, j))|)
  {
    AdvanceProgress(n, m, w, i, j);
  }

  /** The steps with every aligned pair compared: the steps the walk reports. */
  function RefineAll<L(==)>(orgLines: seq<L>, newLines: seq<L>, trim: L -> L, steps: seq<Step>): (r: seq<Step>) {
    if |steps| == 0 then [] else [Refine(orgLines, newLines, trim, steps[0])] + RefineAll(orgLines, newLines, trim, steps[1..])
  }

  /** A step at `(i, j)` the alignment allows visits `i` and `j` when it shows them, both inside the inputs. */
  lemma VisitStep(n: nat, m: nat, w: Window, s: Step, i: nat, j: nat)
    requires Sized(n, m, w) && StepAligned(n, m, w, s) && AtCursor(s, i, j)
    ensures LeftOf(s) + Interval(i + |LeftOf(s)|, n) == Interval(i, n)
    ensures RightOf(s) + Interval(j + |RightOf(s)|, m) == Interval(j, m)
  {
  }

  lemma LeftsCons(s: Step, rest: seq<Step>)
    ensures Lefts([s] + rest) == LeftOf(s) + Lefts(rest) && Rights([s] + rest) == RightOf(s) + Rights(rest)
  {
    assert ([s] + rest)[1..] == rest;
  }

  /** From a position the walk can be at, its moves visit the remaining original lines and new lines each once, in order. */
  lemma {:induction false} MovesVisit(n: nat, m: nat, w: Window, i: nat, j: nat)
    requires Shape(n, m, w) && WalkAt(n, m, w, i, j)
    ensures Lefts(Moves(n, m, w, i, j)) == Interval(i, n) && Rights(Moves(n, m, w, i, j)) == Interval(j, m)
    decreases Remaining(n, i) + Remaining(m, j)
  {
    if i < n || j < m {
      var s := Advance(w, i, j);
      AdvanceOk(n, m, w, i, j);
      MovesStep(n, m, w, i, j);
      var i', j' := i + |LeftOf(s)|, j + |RightOf(s)|;
      MovesVisit(n, m, w, i', j');
      LeftsCons(s, Moves(n, m, w, i', j'));
      VisitStep(n, m, w, s, i, j);
    }
  }

  lemma SwitchCasesCons(n: nat, m: nat, w: Window, s: Step, rest: seq<Step>)
    requires Sized(n, m, w) && SwitchCase(n, m, w, s)
    requires forall k :: 0 <= k < |rest| ==> SwitchCase(n, m, w, rest[k])
    ensures forall k :: 0 <= k < |[s] + rest| ==> SwitchCase(n, m, w, ([s] + rest)[k])
  {
    forall k | 0 <= k < |[s] + rest|
      ensures SwitchCase(n, m, w, ([s] + rest)[k])
    {
      if k > 0 {
        assert ([s] + rest)[k] == rest[k - 1];
      }
    }
  }

  /** From a position the walk can be at, each of its moves is a case of the `switch` the alignment allows. */
  lemma {:induction false} MovesAligned(n: nat, m: nat, w: Window, i: nat, j: nat)
    requires Shape(n, m, w) && WalkAt(n, m, w, i, j)
    ensures forall k :: 0 <= k < |Moves(n, m, w, i, j)| ==> SwitchCase(n, m, w, Moves(n, m, w, i, j)[k])
    decreases Remaining(n, i) + Remaining(m, j)
  {
    if i < n || j < m {
      var s := Advance(w, i, j);
      AdvanceOk(n, m, w, i, j);
      MovesStep(n, m, w, i, j);
      var i', j' := i + |LeftOf(s)|, j + |RightOf(s)|;
      MovesAligned(n, m, w, i', j');
      SwitchCasesCons(n, m, w, s, Moves(n, m, w, i', j'));
    }
  }

  lemma RefineAllCons<L>(orgLines: seq<L>, newLines: seq<L>, trim: L -> L, s: Step, rest: seq<Step>)
    ensures RefineAll(orgLines, newLines, trim, [s] + rest) == [Refine(orgLines, newLines, trim, s)] + RefineAll(orgLines, newLines, trim, rest)
  {
    assert ([s] + rest)[1..] == rest;
  }

  /** One step of the walk, then the rest. */
  lemma WalkStepsStep<L>(orgLines: seq<L>, newLines: seq<L>, trim: L -> L, w: Window, i: nat, j: nat)
    requires Sized(|orgLines|, |newLines|, w) && OnDiagonal(w, i, j) && (i < |orgLines| || j < |newLines|)
    ensures OnDiagonal(w, i + |LeftOf(Advance(w, i, j))|, j + |RightOf(Advance(w, i, j))|)
    ensures RefineAll(orgLines, newLines, trim, Moves(|orgLines|, |newLines|, w, i, j)) ==
      [Refine(orgLines, newLines, trim, Advance(w, i, j))] +
      RefineAll(orgLines, newLines, trim, Moves(|orgLines|, |newLines|, w,
        i + |LeftOf(Advance(w, i, j))|, j + |RightOf(Advance(w, i, j))|))
  {
    var a := Advance(w, i, j);
    MovesStep(|orgLines|, |newLines|, w, i, j);
    RefineAllCons(orgLines, newLines, trim, a, Moves(|orgLines|, |newLines|, w, i + |LeftOf(a)|, j + |RightOf(a)|));
  }

  /** Refining keeps the lines every step visits, and makes every allowed step right about its lines. */
  lemma {:induction false} RefineAllOk<L>(orgLines: seq<L>, newLines: seq<L>, trim: L -> L, w: Window, steps: seq<Step>)
    requires Sized(|orgLines|, |newLines|, w) && CommonEnds(orgLines, newLines, w)
    requires forall k :: 0 <= k < |steps| ==> SwitchCase(|orgLines|, |newLines|, w, steps[k])
    ensures Lefts(RefineAll(orgLines, newLines, trim, steps)) == Lefts(steps)
    ensures Rights(RefineAll(orgLines, newLines, trim, steps)) == Rights(steps)
    ensures forall k :: 0 <= k < |RefineAll(orgLines, newLines, trim, steps)| ==>
      StepOk(orgLines, newLines, trim, w, RefineAll(orgLines, newLines, trim, steps)[k])
  {
    if |steps| > 0 {
      RefineOk(orgLines, newLines, trim, w, steps[0]);
      RefineAllOk(orgLines, newLines, trim, w, steps[1..]);
      var r := RefineAll(orgLines, newLines, trim, steps[1..]);
      assert ([Refine(orgLines, newLines, trim, steps[0])] + r)[1..] == r;
    }
  }

  /** The steps the walk reports: the moves from the start, refined. */
  function WalkSteps<L(==)>(orgLines: seq<L>, newLines: seq<L>, trim: L -> L, w: Window): (r: seq<Step>)
    requires Sized(|orgLines|, |newLines|, w)
  {
    RefineAll(orgLines, newLines, trim, Moves(|orgLines|, |newLines|, w, 0, 0))
  }

  /**
   * The walk visits every original line and every new line once, in order,
   * pairing lines only as the alignment does, and reports each pair as the
   * same exactly when its lines agree (after trimming, inside the window).
   */
  lemma WalkStepsOk<L>(orgLines: seq<L>, newLines: seq<L>, trim: L -> L, w: Window)
    requires GoodWindow(orgLines, newLines, w)
    ensures Lefts(WalkSteps(orgLines, newLines, trim, w)) == Interval(0, |orgLines|)
    ensures Rights(WalkSteps(orgLines, newLines, trim, w)) == Interval(0, |newLines|)
    ensures forall k :: 0 <= k < |WalkSteps(orgLines, newLines, trim, w)| ==>
      StepOk(orgLines, newLines, trim, w, WalkSteps(orgLines, newLines, trim, w)[k])
  {
    CutEnds(w.matA, w.matB);
    MovesVisit(|orgLines|, |newLines|, w, 0, 0);
    MovesAligned(|orgLines|, |newLines|, w, 0, 0);
    RefineAllOk(orgLines, newLines, trim, w, Moves(|orgLines|, |newLines|, w, 0, 0));
  }

  /** The walk of cmd/godiff.go:1226-1256, returning its steps and the count of operation lines. */
  method Walk<L(==)>(orgLines: seq<L>, newLines: seq<L>, trim: L -> L, w: Window) returns (steps: seq<Step>, cnt: nat)
    requires Sized(|orgLines|, |newLines|, w)
    ensures steps == WalkSteps(orgLines, newLines, trim, w) && cnt == Count(steps)
  {
    steps, cnt := [], 0;
    var i: nat, j: nat := 0, 0;
    ghost var todo := WalkSteps(orgLines, newLines, trim, w);
    while i < |orgLines| || j < |newLines|
      invariant OnDiagonal(w, i, j) && todo == RefineAll(orgLines, newLines, trim, Moves(|orgLines|, |newLines|, w, i, j))
      invariant steps + todo == WalkSteps(orgLines, newLines, trim, w)
      invariant cnt + Count(todo) == Count(WalkSteps(orgLines, newLines, trim, w))
      decreases Remaining(|orgLines|, i) + Remaining(|newLines|, j)
    {
      var a := Advance(w, i, j);
      var s := Refine(orgLines, newLines, trim, a);
      var i', j' := i + |LeftOf(a)|, j + |RightOf(a)|;
      WalkStepsStep(orgLines, newLines, trim, w, i, j);
      AdvanceProgress(|orgLines|, |newLines|, w, i, j);
      ghost var rest := RefineAll(orgLines, newLines, trim, Moves(|orgLines|, |newLines|, w, i', j'));
      assert todo == [s] + rest;
      assert ([s] + rest)[1..] == rest;
      assert Count(todo) == Shown(s) + Count(rest);
      AppendAssoc(steps, [s], rest);
      steps, cnt, todo := steps + [s], cnt + Shown(s), rest;
      i, j := i', j';
    }
  }

  /* ---------- DiffLinesTo ---------- */

  /** Large inputs (more than 1024 × 1024 line pairs) are cut to a window and scored in fast mode. */
  function FastMode(orgLines: seq<string>, newLines: seq<string>): (r: bool) {
    |orgLines| * |newLines| > FastModeProduct
  }

  /** `(start, orgEnd, newEnd)`: the inputs less their common head and tail on large inputs, the whole inputs otherwise. */
  function DiffEnds(orgLines: seq<string>, newLines: seq<string>): (r: (nat, nat, nat))
    ensures r.0 <= r.1 <= |orgLines| && r.0 <= r.2 <= |newLines| && |orgLines| - r.1 == |newLines| - r.2
  {
    if FastMode(orgLines, newLines) then HeadTails(orgLines, newLines) else (0, |orgLines|, |newLines|)
  }

  /** The line costs over the window. */
  function DiffCosts(orgLines: seq<string>, newLines: seq<string>): (r: Costs) {
    var e := DiffEnds(orgLines, newLines);
    LineTables(orgLines, newLines, e.0, e.1, e.2, FastMode(orgLines, newLines))
  }

  /** The window the line diff walks, with the library's alignment of its lines. */
  function DiffWindow(orgLines: seq<string>, newLines: seq<string>, ed: Aligner): (r: Window) {
    var e := DiffEnds(orgLines, newLines);
    var mats := ed(e.1 - e.0, e.2 - e.0, DiffCosts(orgLines, newLines));
    Window(e.0, e.1, e.2, mats.0, mats.1)
  }

  /** Within the common head and the common tails the lines agree index by index. */
  lemma HeadTailsCommon(a: seq<string>, b: seq<string>)
    ensures var (start, orgEnd, newEnd) := HeadTails(a, b);
            (forall k :: 0 <= k < start ==> a[k] == b[k]) &&
            |a| - orgEnd == |b| - newEnd &&
            (forall k :: orgEnd <= k < |a| ==> a[k] == b[k - orgEnd + newEnd])
  {
    HeadTailsFacts(a, b);
    var (start, orgEnd, newEnd) := HeadTails(a, b);
    forall k | 0 <= k < start
      ensures a[k] == b[k]
    {
      assert a[..start][k] == b[..start][k];
    }
    forall k | orgEnd <= k < |a|
      ensures a[k] == b[k - orgEnd + newEnd]
    {
      assert a[orgEnd..][k - orgEnd] == b[newEnd..][k - orgEnd];
    }
  }

  /** The window lies within the inputs with tails of equal length, and the library's alignment of it is valid and order-preserving. */
  lemma DiffWindowShape(orgLines: seq<string>, newLines: seq<string>, ed: Aligner)
    requires IsAligner(ed)
    ensures Shape(|orgLines|, |newLines|, DiffWindow(orgLines, newLines, ed))
  {
    var e := DiffEnds(orgLines, newLines);
    var mats := ed(e.1 - e.0, e.2 - e.0, DiffCosts(orgLines, newLines));
    PairedOfValid(mats.0, mats.1);
  }

  /** The lines before and after the window's bounds are common to both inputs. */
  lemma DiffEndsCommon(orgLines: seq<string>, newLines: seq<string>, w: Window)
    requires Sized(|orgLines|, |newLines|, w) && (w.start, w.orgEnd, w.newEnd) == DiffEnds(orgLines, newLines)
    ensures CommonEnds(orgLines, newLines, w)
  {
    if FastMode(orgLines, newLines) {
      HeadTailsCommon(orgLines, newLines);
    }
  }

  /**
   * The window is one the walk can take: common lines before and after it,
   * a valid order-preserving alignment inside it, and on inputs of at most
   * 1024 × 1024 line pairs it is all of both inputs.
   */
  lemma DiffWindowGood(orgLines: seq<string>, newLines: seq<string>, ed: Aligner)
    requires IsAligner(ed)
    ensures GoodWindow(orgLines, newLines, DiffWindow(orgLines, newLines, ed))
    ensures !FastMode(orgLines, newLines) ==>
            DiffWindow(orgLines, newLines, ed).start == 0 && DiffWindow(orgLines, newLines, ed).orgEnd == |orgLines| &&
            DiffWindow(orgLines, newLines, ed).newEnd == |newLines|
  {
    DiffWindowShape(orgLines, newLines, ed);
    var w := DiffWindow(orgLines, newLines, ed);
    assert (w.start, w.orgEnd, w.newEnd) == DiffEnds(orgLines, newLines);
    DiffEndsCommon(orgLines, newLines, w);
  }

  /** The steps the line diff reports. */
  function LineDiffSteps(orgLines: seq<string>, newLines: seq<string>, ed: Aligner): (r: seq<Step>)
    requires IsAligner(ed)
  {
    WalkSteps(orgLines, newLines, TrimSpace, DiffWindow(orgLines, newLines, ed))
  }

  /**
   * Every original line and every new line is reported once, in order; a
   * pair is reported as the same exactly when its lines agree after
   * trimming (identical lines outside the window), and as a change
   * otherwise; pairs inside the window are the library's alignment.
   */
  lemma LineDiffStepsOk(orgLines: seq<string>, newLines: seq<string>, ed: Aligner)
    requires IsAligner(ed)
    ensures Lefts(LineDiffSteps(orgLines, newLines, ed)) == Interval(0, |orgLines|)
    ensures Rights(LineDiffSteps(orgLines, newLines, ed)) == Interval(0, |newLines|)
    ensures forall k :: 0 <= k < |LineDiffSteps(orgLines, newLines, ed)| ==>
              StepOk(orgLines, newLines, TrimSpace, DiffWindow(orgLines, newLines, ed), LineDiffSteps(orgLines, newLines, ed)[k])
  {
    DiffWindowGood(orgLines, newLines, ed);
    WalkStepsOk(orgLines, newLines, TrimSpace, DiffWindow(orgLines, newLines, ed));
  }

  /** The first half of `DiffLinesTo` (cmd/godiff.go:1185-1224): the window and the library's alignment of it. */
  method AlignWindow(orgLines: seq<string>, newLines: seq<string>, ed: Aligner) returns (w: Window)
    ensures w == DiffWindow(orgLines, newLines, ed)
  {
    var start, orgEnd, newEnd := 0, |orgLines|, |newLines|;
    if |orgLines| * |newLines| > FastModeProduct {
      start, orgEnd, newEnd := OffsetHeadTails(orgLines, newLines);
    }
    var fastMode := |orgLines| * |newLines| > FastModeProduct;
    assert (start, orgEnd, newEnd) == DiffEnds(orgLines, newLines) && fastMode == FastMode(orgLines, newLines);
    var mats := ed(orgEnd - start, newEnd - start, LineTables(orgLines, newLines, start, orgEnd, newEnd, fastMode));
    w := Window(start, orgEnd, newEnd, mats.0, mats.1);
  }

  /** `DiffLinesTo` (cmd/godiff.go:1180-1257): the steps it reports to the line outputter, in order, and the number of operation lines it returns. */
  method DiffLinesTo(orgLines: seq<string>, newLines: seq<string>, ed: Aligner) returns (steps: seq<Step>, cnt: nat)
    requires IsAligner(ed)
    ensures steps == LineDiffSteps(orgLines, newLines, ed) && cnt == Count(steps)
    ensures |orgLines| + |newLines| == 0 ==> steps == [] && cnt == 0
  {
    if |orgLines| + |newLines| == 0 {
      return [], 0;
    }
    var w := AlignWindow(orgLines, newLines, ed);
    DiffWindowShape(orgLines, newLines, ed);
    steps, cnt := Walk(orgLines, newLines, TrimSpace, w);
  }
}

/**
 * What the diff shows (cmd/godiff.go:981-997, 1028-1044, 1116-1164,
 * 1262-1264, 1299-1400), as sequences of output events instead of printed
 * text: the folding of a run of same lines by the line outputter, the
 * folding of a long deleted or inserted block, the replay of the line
 * diff's steps into the line outputter, and the order in which the
 * declarations matched by `GreedyMatch` are reported.
 */
module Output {
  import opened Seqs
  import opened Alignment
  import opened LineDiff

  /** Which side a shown line comes from: `---` lines are deleted, `+++` lines inserted. */
  datatype Side = DelSide | InsSide

  /** One printed line. */
  datatype Event =
    | Context(line: string)                   // "    line": a same line
    | Marked(side: Side, line: string)        // "--- line" or "+++ line"
    | FoldedSame(count: nat)                  // "        ... (count lines)"
    | FoldedBlock(side: Side, count: nat)     // "===" or "###" "    ... (count lines)"
    | Changed(del: string, ins: string)       // a changed pair, shown token by token

  /** How many lines of the input an event stands for. */
  function Weight(e: Event): (r: nat) {
    match e
    case Context(_) => 1
    case Marked(_, _) => 1
    case FoldedSame(n) => n
    case FoldedBlock(_, n) => n
    case Changed(_, _) => 2
  }

  /** How many lines of the input the events stand for. */
  function Covered(events: seq<Event>): (r: nat) {
    if |events| == 0 then 0 else Weight(events[0]) + Covered(events[1..])
  }

  lemma {:induction false} CoveredAppend(a: seq<Event>, b: seq<Event>)
    ensures Covered(a + b) == Covered(a) + Covered(b)
  {
    if |a| == 0 {
      assert a + b == b;
    } else {
      assert (a + b)[1..] == a[1..] + b;
      CoveredAppend(a[1..], b);
    }
  }

  /** Every folding marker stands for at least two lines: a single line is never folded away. */
  predicate FoldsSeveral(events: seq<Event>) {
    forall k :: 0 <= k < |events| && (events[k].FoldedSame? || events[k].FoldedBlock?) ==> events[k].count >= 2
  }

  lemma FoldsAppend(a: seq<Event>, b: seq<Event>)
    requires FoldsSeveral(a) && FoldsSeveral(b)
    ensures FoldsSeveral(a + b)
  {
    forall k | 0 <= k < |a + b| && ((a + b)[k].FoldedSame? || (a + b)[k].FoldedBlock?)
      ensures (a + b)[k].count >= 2
    {
      if k >= |a| {
        assert (a + b)[k] == b[k - |a|];
      }
    }
  }

  /* ---------- lineOutput.end ---------- */

  /** What `end` prints for the pending same lines `same` (cmd/godiff.go:1147-1164). */
  function FoldSame(same: seq<string>): (r: seq<Event>) {
    if |same| == 0 then []
    else
      [Context(same[0])] +
      (if |same| == 3 then [Context(same[1])] else []) +
      (if |same| > 3 then [FoldedSame(|same| - 2)] else []) +
      (if |same| > 1 then [Context(same[|same| - 1])] else [])
  }

  function Contexts(lines: seq<string>): (r: seq<Event>) {
    seq(|lines|, k requires 0 <= k < |lines| => Context(lines[k]))
  }

  /**
   * A run of up to three same lines is shown whole; a longer run shows its
   * first and last line around one marker for the others. Either way every
   * line is shown or counted, and no marker stands for a single line.
   */
  lemma FoldSameOk(same: seq<string>)
    ensures Covered(FoldSame(same)) == |same| && FoldsSeveral(FoldSame(same))
    ensures |same| <= 3 ==> FoldSame(same) == Contexts(same)
    ensures |same| > 0 ==> FoldSame(same)[0] == Context(same[0]) && FoldSame(same)[|FoldSame(same)| - 1] == Context(same[|same| - 1])
  {
    var f := FoldSame(same);
    if |same| > 3 {
      assert f == [Context(same[0]), FoldedSame(|same| - 2), Context(same[|same| - 1])];
      assert Covered(f[2..]) == 1;
    } else if |same| == 3 {
      assert f == [Context(same[0]), Context(same[1]), Context(same[2])];
      assert Covered(f[2..]) == 1;
    } else if |same| == 2 {
      assert f == [Context(same[0]), Context(same[1])];
    }
  }

  /**
   * `lineOutput` (cmd/godiff.go:1124-1164): it holds back same lines until
   * the next operation or `end`. `printed` is what has gone to the output.
   */
  class LineOutput {
    var sameLines: seq<string>
    var printed: seq<Event>

    constructor ()
      ensures sameLines == [] && printed == []
    {
      sameLines, printed := [], [];
    }

    /** `end` (cmd/godiff.go:1147-1164). */
    method End()
      modifies this
      ensures printed == old(printed) + FoldSame(old(sameLines)) && sameLines == []
    {
      if |sameLines| > 0 {
        printed := printed + [Context(sameLines[0])];
        if |sameLines| == 3 {
          printed := printed + [Context(sameLines[1])];
        }
        if |sameLines| > 3 {
          printed := printed + [FoldedSame(|sameLines| - 2)];
        }
        if |sameLines| > 1 {
          printed := printed + [Context(sameLines[|sameLines| - 1])];
        }
      }
      sameLines := [];
    }

    /** `outputSame` (cmd/godiff.go:1143-1145). */
    method OutputSame(line: string)
      modifies this
      ensures sameLines == old(sameLines) + [line] && printed == old(printed)
    {
      sameLines := sameLines + [line];
    }

    /** `outputDel` (cmd/godiff.go:1133-1136). */
    method OutputDel(line: string)
      modifies this
      ensures printed == old(printed) + FoldSame(old(sameLines)) + [Marked(DelSide, line)] && sameLines == []
    {
      End();
      printed := printed + [Marked(DelSide, line)];
    }

    /** `outputIns` (cmd/godiff.go:1128-1131). */
    method OutputIns(line: string)
      modifies this
      ensures printed == old(printed) + FoldSame(old(sameLines)) + [Marked(InsSide, line)] && sameLines == []
    {
      End();
      printed := printed + [Marked(InsSide, line)];
    }

    /** `outputChange` (cmd/godiff.go:1138-1141). */
    method OutputChange(del: string, ins: string)
      modifies this
      ensures printed == old(printed) + FoldSame(old(sameLines)) + [Changed(del, ins)] && sameLines == []
    {
      End();
      printed := printed + [Changed(del, ins)];
    }
  }

  /* ---------- replaying the walk into the line outputter ---------- */

  predicate StepIn(n: nat, m: nat, s: Step) {
    match s
    case Same(i, j) => i < n && j < m
    case Del(i) => i < n
    case Ins(j) => j < m
    case Change(i, j) => i < n && j < m
  }

  /** Every step names lines of the inputs. */
  predicate InRange(n: nat, m: nat, steps: seq<Step>) {
    forall k :: 0 <= k < |steps| ==> StepIn(n, m, steps[k])
  }

  /**
   * What the line outputter prints when the walk's calls for `steps` reach
   * it with `same` pending, followed by its `end` (cmd/godiff.go:1228-1256):
   * a same pair is held back with the new side's line. Nothing is lost:
   * every pending same line and every line a step shows is printed or
   * counted by a folding marker (a change stands for two lines).
   */
  function Render(orgLines: seq<string>, newLines: seq<string>, steps: seq<Step>, same: seq<string>): (r: seq<Event>)
    requires InRange(|orgLines|, |newLines|, steps)
    ensures Covered(r) == |same| + SameCount(steps) + Count(steps)
  {
    if |steps| == 0 then FoldSameOk(same); FoldSame(same)
    else
      match steps[0]
      case Same(_, j) => Render(orgLines, newLines, steps[1..], same + [newLines[j]])
      case Del(i) =>
        var e, rest := Marked(DelSide, orgLines[i]), Render(orgLines, newLines, steps[1..], []);
        CoveredAfterFold(same, e, rest);
        FoldSame(same) + [e] + rest
      case Ins(j) =>
        var e, rest := Marked(InsSide, newLines[j]), Render(orgLines, newLines, steps[1..], []);
        CoveredAfterFold(same, e, rest);
        FoldSame(same) + [e] + rest
      case Change(i, j) =>
        var e, rest := Changed(orgLines[i], newLines[j]), Render(orgLines, newLines, steps[1..], []);
        CoveredAfterFold(same, e, rest);
        FoldSame(same) + [e] + rest
  }

  /** The event an operation step shows; none for a same pair. */
  function OpsOf(orgLines: seq<string>, newLines: seq<string>, steps: seq<Step>): (r: seq<Event>)
    requires InRange(|orgLines|, |newLines|, steps)
  {
    if |steps| == 0 then []
    else
      (match steps[0]
       case Same(_, _) => []
       case Del(i) => [Marked(DelSide, orgLines[i])]
       case Ins(j) => [Marked(InsSide, newLines[j])]
       case Change(i, j) => [Changed(orgLines[i], newLines[j])]) +
      OpsOf(orgLines, newLines, steps[1..])
  }

  /** An event that shows a deleted, inserted or changed line. */
  function OpEvent(e: Event): (r: seq<Event>) {
    if e.Marked? || e.Changed? then [e] else []
  }

  /** The number of same pairs among the steps. */
  function SameCount(steps: seq<Step>): (r: nat) {
    if |steps| == 0 then 0 else (if steps[0].Same? then 1 else 0) + SameCount(steps[1..])
  }

  lemma {:induction false} QuietOps(events: seq<Event>)
    requires forall k :: 0 <= k < |events| ==> !events[k].Marked? && !events[k].Changed?
    ensures FlatMap(OpEvent, events) == []
  {
    if |events| > 0 {
      QuietOps(events[1..]);
    }
  }

  lemma FoldSameOps(same: seq<string>)
    ensures FlatMap(OpEvent, FoldSame(same)) == []
  {
    var f := FoldSame(same);
    if |same| > 3 {
      assert f == [Context(same[0]), FoldedSame(|same| - 2), Context(same[|same| - 1])];
    } else if |same| == 3 {
      assert f == [Context(same[0]), Context(same[1]), Context(same[2])];
    } else if |same| == 2 {
      assert f == [Context(same[0]), Context(same[1])];
    }
    QuietOps(f);
  }

  /** Flushing the pending same lines before an operation shows nothing but that operation. */
  lemma OpsAfterFold(same: seq<string>, e: Event, r: seq<Event>)
    requires e.Marked? || e.Changed?
    ensures FlatMap(OpEvent, FoldSame(same) + [e] + r) == [e] + FlatMap(OpEvent, r)
  {
    FoldSameOps(same);
    FlatMapAppend(OpEvent, FoldSame(same) + [e], r);
    FlatMapAppend(OpEvent, FoldSame(same), [e]);
  }

  /** Flushing the pending same lines before an operation covers them and the operation. */
  lemma CoveredAfterFold(same: seq<string>, e: Event, r: seq<Event>)
    ensures Covered(FoldSame(same) + [e] + r) == |same| + Weight(e) + Covered(r)
  {
    FoldSameOk(same);
    CoveredAppend(FoldSame(same) + [e], r);
    CoveredAppend(FoldSame(same), [e]);
  }

  /**
   * The line outputter shows every deletion, insertion and change of the
   * steps, once each and in the walk's order; everything else it prints is
   * a same line or a folding marker.
   */
  lemma {:induction false} RenderOps(orgLines: seq<string>, newLines: seq<string>, steps: seq<Step>, same: seq<string>)
    requires InRange(|orgLines|, |newLines|, steps)
    ensures FlatMap(OpEvent, Render(orgLines, newLines, steps, same)) == OpsOf(orgLines, newLines, steps)
  {
    if |steps| == 0 {
      FoldSameOps(same);
    } else {
      var rest := steps[1..];
      match steps[0]
      case Same(_, j) =>
        RenderOps(orgLines, newLines, rest, same + [newLines[j]]);
      case Del(i) =>
        RenderOps(orgLines, newLines, rest, []);
        OpsAfterFold(same, Marked(DelSide, orgLines[i]), Render(orgLines, newLines, rest, []));
      case Ins(j) =>
        RenderOps(orgLines, newLines, rest, []);
        OpsAfterFold(same, Marked(InsSide, newLines[j]), Render(orgLines, newLines, rest, []));
      case Change(i, j) =>
        RenderOps(orgLines, newLines, rest, []);
        OpsAfterFold(same, Changed(orgLines[i], newLines[j]), Render(orgLines, newLines, rest, []));
    }
  }

  /** What the line outputter prints for one step of the walk with `same` pending. */
  function Flushed(orgLines: seq<string>, newLines: seq<string>, s: Step, same: seq<string>): (r: seq<Event>)
    requires StepIn(|orgLines|, |newLines|, s)
  {
    match s
    case Same(_, _) => []
    case Del(i) => FoldSame(same) + [Marked(DelSide, orgLines[i])]
    case Ins(j) => FoldSame(same) + [Marked(InsSide, newLines[j])]
    case Change(i, j) => FoldSame(same) + [Changed(orgLines[i], newLines[j])]
  }

  /** The same lines pending after one step of the walk. */
  function Held(newLines: seq<string>, s: Step, same: seq<string>): (r: seq<string>)
    requires s.Same? ==> s.j < |newLines|
  {
    if s.Same? then same + [newLines[s.j]] else []
  }

  lemma RenderCons(orgLines: seq<string>, newLines: seq<string>, steps: seq<Step>, same: seq<string>)
    requires InRange(|orgLines|, |newLines|, steps) && |steps| > 0
    ensures Render(orgLines, newLines, steps, same) ==
            Flushed(orgLines, newLines, steps[0], same) + Render(orgLines, newLines, steps[1..], Held(newLines, steps[0], same))
  {
    assert StepIn(|orgLines|, |newLines|, steps[0]);
  }

  /** The walk's call on the line outputter for one step (cmd/godiff.go:1236-1254). */
  method Feed(lo: LineOutput, orgLines: seq<string>, newLines: seq<string>, s: Step)
    requires StepIn(|orgLines|, |newLines|, s)
    modifies lo
    ensures lo.printed == old(lo.printed) + Flushed(orgLines, newLines, s, old(lo.sameLines))
    ensures lo.sameLines == Held(newLines, s, old(lo.sameLines))
  {
    match s
    case Same(_, j) =>
      lo.OutputSame(newLines[j]);
    case Del(i) =>
      lo.OutputDel(orgLines[i]);
    case Ins(j) =>
      lo.OutputIns(newLines[j]);
    case Change(i, j) =>
      lo.OutputChange(orgLines[i], newLines[j]);
  }

  /** The walk's calls on the line outputter for `steps`, then its `end` (cmd/godiff.go:1228-1257). */
  method Replay(lo: LineOutput, orgLines: seq<string>, newLines: seq<string>, steps: seq<Step>)
    requires InRange(|orgLines|, |newLines|, steps)
    modifies lo
    ensures lo.printed == old(lo.printed) + Render(orgLines, newLines, steps, old(lo.sameLines)) && lo.sameLines == []
  {
    var k := 0;
    while k < |steps|
      invariant k <= |steps|
      invariant lo.printed + Render(orgLines, newLines, steps[k..], lo.sameLines) ==
                old(lo.printed) + Render(orgLines, newLines, steps, old(lo.sameLines))
    {
      ghost var before, same := lo.printed, lo.sameLines;
      assert steps[k..][0] == steps[k] && steps[k..][1..] == steps[k + 1..];
      RenderCons(orgLines, newLines, steps[k..], same);
      Feed(lo, orgLines, newLines, steps[k]);
      AppendAssoc(before, Flushed(orgLines, newLines, steps[k], same), Render(orgLines, newLines, steps[k + 1..], lo.sameLines));
      k := k + 1;
    }
    assert steps[k..] == [];
    lo.End();
  }

  lemma {:induction false} StepsInRange(orgLines: seq<string>, newLines: seq<string>, ed: Aligner)
    requires IsAligner(ed)
    ensures InRange(|orgLines|, |newLines|, LineDiffSteps(orgLines, newLines, ed))
  {
    LineDiffStepsOk(orgLines, newLines, ed);
  }

  /**
   * `DiffLines` (cmd/godiff.go:1262-1264): the line diff printed through a
   * fresh line outputter, and the number of operation lines.
   */
  method DiffLines(orgLines: seq<string>, newLines: seq<string>, ed: Aligner) returns (printed: seq<Event>, cnt: nat)
    requires IsAligner(ed)
    ensures InRange(|orgLines|, |newLines|, LineDiffSteps(orgLines, newLines, ed))
    ensures printed == Render(orgLines, newLines, LineDiffSteps(orgLines, newLines, ed), [])
    ensures cnt == Count(LineDiffSteps(orgLines, newLines, ed))
  {
    var lo := new LineOutput();
    var steps;
    steps, cnt := DiffLinesTo(orgLines, newLines, ed);
    StepsInRange(orgLines, newLines, ed);
    if |orgLines| + |newLines| > 0 {
      Replay(lo, orgLines, newLines, steps);
    }
    printed := lo.printed;
  }

  /* ---------- ShowDelLines / ShowInsLines ---------- */

  function Marks(side: Side, lines: seq<string>): (r: seq<Event>) {
    seq(|lines|, k requires 0 <= k < |lines| => Marked(side, lines[k]))
  }

  /**
   * How a whole deleted or inserted declaration of `lines` is shown
   * (cmd/godiff.go:981-997, 1028-1044): a short one line by line, a long one
   * as its first `gap` lines, one marker and its last `gap` lines.
   */
  function FoldBlock(side: Side, lines: seq<string>, gap: nat): (r: seq<Event>)
    ensures |r| <= gap * 2 + 1
    ensures |lines| <= gap * 2 + 1 ==> |r| == |lines| && forall k :: 0 <= k < |r| ==> r[k] == Marked(side, lines[k])
    ensures |lines| > gap * 2 + 1 ==> |r| == gap * 2 + 1 && r[gap] == FoldedBlock(side, |lines| - gap * 2)
    ensures |lines| > gap * 2 + 1 ==> r[..gap] == Marks(side, lines[..gap]) && r[gap + 1..] == Marks(side, lines[|lines| - gap..])
  {
    if |lines| <= gap * 2 + 1 then Marks(side, lines)
    else Marks(side, lines[..gap]) + [FoldedBlock(side, |lines| - gap * 2)] + Marks(side, lines[|lines| - gap..])
  }

  lemma {:induction false} MarksCovered(side: Side, lines: seq<string>)
    ensures Covered(Marks(side, lines)) == |lines| && FoldsSeveral(Marks(side, lines))
  {
    if |lines| > 0 {
      assert Marks(side, lines)[1..] == Marks(side, lines[1..]);
      MarksCovered(side, lines[1..]);
    }
  }

  /**
   * A folded block accounts for every line of the declaration and never
   * folds a single line away.
   */
  lemma FoldBlockOk(side: Side, lines: seq<string>, gap: nat)
    ensures Covered(FoldBlock(side, lines, gap)) == |lines| && FoldsSeveral(FoldBlock(side, lines, gap))
  {
    if |lines| <= gap * 2 + 1 {
      MarksCovered(side, lines);
    } else {
      var head, tail := Marks(side, lines[..gap]), Marks(side, lines[|lines| - gap..]);
      var mark := FoldedBlock(side, |lines| - gap * 2);
      MarksCovered(side, lines[..gap]);
      MarksCovered(side, lines[|lines| - gap..]);
      CoveredAppend(head + [mark], tail);
      CoveredAppend(head, [mark]);
      assert Covered([mark]) == Weight(mark);
      FoldsAppend(head, [mark]);
      FoldsAppend(head + [mark], tail);
    }
  }

  /** What the folding loop of `ShowDelLines` has shown after its first `i` lines. */
  function BlockUpTo(side: Side, lines: seq<string>, gap: nat, i: nat): (r: seq<Event>)
    requires |lines| > gap * 2 + 1 && i <= |lines|
  {
    if i <= gap then Marks(side, lines[..i])
    else if i <= |lines| - gap then Marks(side, lines[..gap]) + [FoldedBlock(side, |lines| - gap * 2)]
    else Marks(side, lines[..gap]) + [FoldedBlock(side, |lines| - gap * 2)] + Marks(side, lines[|lines| - gap..i])
  }

  lemma MarksSnoc(side: Side, lines: seq<string>, lo: nat, hi: nat)
    requires lo <= hi < |lines|
    ensures Marks(side, lines[lo..hi + 1]) == Marks(side, lines[lo..hi]) + [Marked(side, lines[hi])]
  {
  }

  /** One round of the folding loop: line `i` if it is near an end, then the marker after the first `gap` lines. */
  lemma BlockStep(side: Side, lines: seq<string>, gap: nat, i: nat)
    requires |lines| > gap * 2 + 1 && i < |lines|
    ensures BlockUpTo(side, lines, gap, i + 1) ==
            BlockUpTo(side, lines, gap, i) +
            (if i < gap || i >= |lines| - gap then [Marked(side, lines[i])] else []) +
            (if i == gap then [FoldedBlock(side, |lines| - gap * 2)] else [])
  {
    if i < gap {
      MarksSnoc(side, lines, 0, i);
      assert lines[..i] == lines[0..i] && lines[..i + 1] == lines[0..i + 1];
    } else if i >= |lines| - gap {
      MarksSnoc(side, lines, |lines| - gap, i);
      if i == |lines| - gap {
        assert lines[|lines| - gap..i] == [];
      }
    }
  }

  /** `ShowDelLines` and `ShowInsLines` (cmd/godiff.go:981-997, 1028-1044). */
  method ShowLines(side: Side, lines: seq<string>, gap: nat) returns (shown: seq<Event>)
    ensures shown == FoldBlock(side, lines, gap)
  {
    shown := [];
    if |lines| <= gap * 2 + 1 {
      for i := 0 to |lines|
        invariant shown == Marks(side, lines[0..i])
      {
        MarksSnoc(side, lines, 0, i);
        shown := shown + [Marked(side, lines[i])];
      }
      assert lines[0..|lines|] == lines;
      return;
    }
    for i := 0 to |lines|
      invariant shown == BlockUpTo(side, lines, gap, i)
    {
      BlockStep(side, lines, gap, i);
      if i < gap || i >= |lines| - gap {
        shown := shown + [Marked(side, lines[i])];
      }
      if i == gap {
        shown := shown + [FoldedBlock(side, |lines| - gap * 2)];
      }
    }
  }

  /* ---------- the output saver of the tests ---------- */

  /** The lines the test saver records as deleted: a change records its old line (godiff_test.go:135-160). */
  function SavedDeleted(orgLines: seq<string>, newLines: seq<string>, steps: seq<Step>): (r: seq<string>)
    requires InRange(|orgLines|, |newLines|, steps)
  {
    if |steps| == 0 then []
    else
      (match steps[0]
       case Del(i) => [orgLines[i]]
       case Change(i, _) => [orgLines[i]]
       case _ => []) +
      SavedDeleted(orgLines, newLines, steps[1..])
  }

  /** The lines the test saver records as inserted: a change records its new line (godiff_test.go:135-160). */
  function SavedInserted(orgLines: seq<string>, newLines: seq<string>, steps: seq<Step>): (r: seq<string>)
    requires InRange(|orgLines|, |newLines|, steps)
  {
    if |steps| == 0 then []
    else
      (match steps[0]
       case Ins(j) => [newLines[j]]
       case Change(_, j) => [newLines[j]]
       case _ => []) +
      SavedInserted(orgLines, newLines, steps[1..])
  }

  /**
   * The count the line diff returns is exactly the number of lines the
   * saver records. In particular a count of 2 with one inserted line
   * leaves one deleted line, never none.
   */
  lemma {:induction false} SaverCount(orgLines: seq<string>, newLines: seq<string>, steps: seq<Step>)
    requires InRange(|orgLines|, |newLines|, steps)
    ensures |SavedDeleted(orgLines, newLines, steps)| + |SavedInserted(orgLines, newLines, steps)| == Count(steps)
    ensures Count(steps) == 2 && |SavedInserted(orgLines, newLines, steps)| == 1 ==> |SavedDeleted(orgLines, newLines, steps)| == 1
  {
    if |steps| > 0 {
      SaverCount(orgLines, newLines, steps[1..]);
    }
  }

  /* ---------- the order of declaration reports ---------- */

  /** What `DiffTypes`, `DiffVars` and `DiffFuncs` report about one declaration. */
  datatype Report = Removed(i: nat) | Added(j: nat) | Modified(i: nat, j: nat)

  /**
   * What the report loops index: every match of the old side points into
   * the new side, and the cost matrix has a row per old and a column per
   * new declaration.
   */
  predicate Reportable(matA: seq<int>, matB: seq<int>, mat: seq<seq<int>>) {
    |mat| == |matA| && forall i :: 0 <= i < |matA| ==> matA[i] < |matB| && |mat[i]| == |matB|
  }

  /** The unmatched positions of `mat` in `[lo, hi)`, in order. */
  function UnmatchedIn(mat: seq<int>, lo: nat, hi: nat): (r: seq<nat>)
    requires hi <= |mat|
  {
    if hi <= lo then [] else UnmatchedIn(mat, lo, hi - 1) + (if mat[hi - 1] < 0 then [hi - 1] else [])
  }

  /** The new declarations in `[lo, hi)` reported as added on the way. */
  function Additions(matB: seq<int>, lo: nat, hi: nat): (r: seq<Report>)
    requires hi <= |matB|
    ensures forall k :: 0 <= k < |r| ==> r[k].Added? && lo <= r[k].j < hi && matB[r[k].j] < 0
  {
    if hi <= lo then [] else Additions(matB, lo, hi - 1) + (if matB[hi - 1] < 0 then [Added(hi - 1)] else [])
  }

  /**
   * A report names declarations that exist: a removed old declaration from
   * `i` on is unmatched, an added new one from `j0` on is unmatched, and a
   * modified pair is matched and differs.
   */
  predicate ReportSound(matA: seq<int>, matB: seq<int>, mat: seq<seq<int>>, i: nat, j0: nat, r: Report) {
    match r
    case Removed(a) => i <= a < |matA| && matA[a] < 0
    case Added(b) => j0 <= b < |matB| && matB[b] < 0
    case Modified(a, b) => i <= a < |matA| && a < |mat| && matA[a] == b && b < |mat[a]| && mat[a][b] > 0
  }

  /**
   * The reports from old declaration `i` on, with the new declarations
   * before `j0` already passed (cmd/godiff.go:1307-1330): an unmatched old
   * declaration is removed; a matched one first reports the unmatched new
   * declarations up to its partner, then a modification if the pair
   * differs; the unmatched new declarations left are reported at the end.
   */
  function ReportFrom(matA: seq<int>, matB: seq<int>, mat: seq<seq<int>>, i: nat, j0: nat): (r: seq<Report>)
    requires Reportable(matA, matB, mat) && i <= |matA| && j0 <= |matB|
    ensures forall k :: 0 <= k < |r| ==> ReportSound(matA, matB, mat, i, j0, r[k])
    decreases |matA| - i
  {
    if i == |matA| then Additions(matB, j0, |matB|)
    else if matA[i] < 0 then [Removed(i)] + ReportFrom(matA, matB, mat, i + 1, j0)
    else
      var j := matA[i];
      Additions(matB, j0, j) + (if mat[i][j] > 0 then [Modified(i, j)] else []) +
      ReportFrom(matA, matB, mat, i + 1, if j0 < j then j else j0)
  }

  /** The report loops of `DiffTypes`, `DiffVars` and `DiffFuncs` (cmd/godiff.go:1307-1330, 1341-1367, 1379-1398). */
  method ReportOrder(matA: seq<int>, matB: seq<int>, mat: seq<seq<int>>) returns (reports: seq<Report>)
    requires Reportable(matA, matB, mat)
    ensures reports == ReportFrom(matA, matB, mat, 0, 0)
  {
    reports := [];
    var j0: nat := 0;
    for i := 0 to |matA|
      invariant j0 <= |matB|
      invariant reports + ReportFrom(matA, matB, mat, i, j0) == ReportFrom(matA, matB, mat, 0, 0)
    {
      ghost var before := reports;
      var j := matA[i];
      if j < 0 {
        reports := reports + [Removed(i)];
        AppendAssoc(before, [Removed(i)], ReportFrom(matA, matB, mat, i + 1, j0));
      } else {
        ghost var start := j0;
        while j0 < j
          invariant start <= j0 && (j0 <= j || j0 == start)
          invariant reports == before + Additions(matB, start, j0)
        {
          if matB[j0] < 0 {
            reports := reports + [Added(j0)];
          }
          j0 := j0 + 1;
        }
        ghost var adds := Additions(matB, start, j);
        assert reports == before + adds;
        ghost var mod := if mat[i][j] > 0 then [Modified(i, j)] else [];
        if mat[i][j] > 0 {
          reports := reports + [Modified(i, j)];
        }
        assert reports == before + adds + mod;
        AppendAssoc(before, adds + mod, ReportFrom(matA, matB, mat, i + 1, j0));
        AppendAssoc(before, adds, mod);
      }
    }
    ghost var before := reports;
    ghost var start := j0;
    while j0 < |matB|
      invariant start <= j0 <= |matB|
      invariant reports == before + Additions(matB, start, j0)
    {
      if matB[j0] < 0 {
        reports := reports + [Added(j0)];
      }
      j0 := j0 + 1;
    }
  }

  function RemovedOf(r: Report): (res: seq<nat>) {
    if r.Removed? then [r.i] else []
  }

  function AddedOf(r: Report): (res: seq<nat>) {
    if r.Added? then [r.j] else []
  }

  function ModifiedOf(r: Report): (res: seq<(nat, nat)>) {
    if r.Modified? then [(r.i, r.j)] else []
  }

  /** The matched pairs from old declaration `i` on whose cost is positive, in order. */
  function ChangedPairs(matA: seq<int>, matB: seq<int>, mat: seq<seq<int>>, i: nat): (r: seq<(nat, nat)>)
    requires Reportable(matA, matB, mat) && i <= |matA|
    decreases |matA| - i
  {
    if i == |matA| then []
    else (if matA[i] >= 0 && mat[i][matA[i]] > 0 then [(i, matA[i])] else []) + ChangedPairs(matA, matB, mat, i + 1)
  }

  lemma {:induction false} UnmatchedSplit(mat: seq<int>, a: nat, b: nat, c: nat)
    requires a <= b <= c <= |mat|
    ensures UnmatchedIn(mat, a, c) == UnmatchedIn(mat, a, b) + UnmatchedIn(mat, b, c)
    decreases c
  {
    if b < c {
      UnmatchedSplit(mat, a, b, c - 1);
    }
  }

  /** The positions unmatched from `i` on: the first one's and those of the rest. */
  lemma UnmatchedCons(mat: seq<int>, i: nat)
    requires i < |mat|
    ensures UnmatchedIn(mat, i, |mat|) == (if mat[i] < 0 then [i] else []) + UnmatchedIn(mat, i + 1, |mat|)
  {
    UnmatchedSplit(mat, i, i + 1, |mat|);
  }

  /** The additions on the way report the unmatched new declarations, and nothing else. */
  lemma {:induction false} AdditionsReport(matB: seq<int>, lo: nat, hi: nat)
    requires hi <= |matB|
    ensures FlatMap(AddedOf, Additions(matB, lo, hi)) == UnmatchedIn(matB, lo, hi)
    ensures FlatMap(RemovedOf, Additions(matB, lo, hi)) == []
    ensures FlatMap(ModifiedOf, Additions(matB, lo, hi)) == []
    decreases hi
  {
    if lo < hi {
      AdditionsReport(matB, lo, hi - 1);
      AdditionStep(AddedOf, matB, lo, hi);
      AdditionStep(RemovedOf, matB, lo, hi);
      AdditionStep(ModifiedOf, matB, lo, hi);
    }
  }

  lemma AdditionStep<U>(f: Report -> seq<U>, matB: seq<int>, lo: nat, hi: nat)
    requires lo < hi <= |matB|
    ensures FlatMap(f, Additions(matB, lo, hi)) ==
            FlatMap(f, Additions(matB, lo, hi - 1)) + (if matB[hi - 1] < 0 then f(Added(hi - 1)) else [])
  {
    var last := if matB[hi - 1] < 0 then [Added(hi - 1)] else [];
    FlatMapAppend(f, Additions(matB, lo, hi - 1), last);
    if matB[hi - 1] < 0 {
      FlatMapSingle(f, Added(hi - 1));
    }
  }

  /** Splits the reports for a matched old declaration into its three parts. */
  lemma MatchedParts<U>(f: Report -> seq<U>, adds: seq<Report>, mod: seq<Report>, rest: seq<Report>)
    ensures FlatMap(f, adds + mod + rest) == FlatMap(f, adds) + FlatMap(f, mod) + FlatMap(f, rest)
  {
    FlatMapAppend(f, adds + mod, rest);
    FlatMapAppend(f, adds, mod);
  }

  /**
   * Every unmatched new declaration from `j0` on is reported as added
   * exactly once, in order, however the matches cross.
   */
  lemma {:induction false} ReportsAdded(matA: seq<int>, matB: seq<int>, mat: seq<seq<int>>, i: nat, j0: nat)
    requires Reportable(matA, matB, mat) && i <= |matA| && j0 <= |matB|
    ensures FlatMap(AddedOf, ReportFrom(matA, matB, mat, i, j0)) == UnmatchedIn(matB, j0, |matB|)
    decreases |matA| - i
  {
    if i == |matA| {
      AdditionsReport(matB, j0, |matB|);
    } else if matA[i] < 0 {
      ReportsAdded(matA, matB, mat, i + 1, j0);
      FlatMapAppend(AddedOf, [Removed(i)], ReportFrom(matA, matB, mat, i + 1, j0));
      FlatMapSingle(AddedOf, Removed(i));
    } else {
      var j := matA[i];
      var next := if j0 < j then j else j0;
      var mod := if mat[i][j] > 0 then [Modified(i, j)] else [];
      ReportsAdded(matA, matB, mat, i + 1, next);
      MatchedParts(AddedOf, Additions(matB, j0, j), mod, ReportFrom(matA, matB, mat, i + 1, next));
      AdditionsReport(matB, j0, j);
      if mat[i][j] > 0 {
        FlatMapSingle(AddedOf, Modified(i, j));
      }
      if j0 < j {
        UnmatchedSplit(matB, j0, j, |matB|);
      }
    }
  }

  /** Every unmatched old declaration from `i` on is reported as removed exactly once, in order. */
  lemma {:induction false} ReportsRemoved(matA: seq<int>, matB: seq<int>, mat: seq<seq<int>>, i: nat, j0: nat)
    requires Reportable(matA, matB, mat) && i <= |matA| && j0 <= |matB|
    ensures FlatMap(RemovedOf, ReportFrom(matA, matB, mat, i, j0)) == UnmatchedIn(matA, i, |matA|)
    decreases |matA| - i
  {
    if i == |matA| {
      AdditionsReport(matB, j0, |matB|);
    } else {
      UnmatchedCons(matA, i);
      if matA[i] < 0 {
        ReportsRemoved(matA, matB, mat, i + 1, j0);
        FlatMapAppend(RemovedOf, [Removed(i)], ReportFrom(matA, matB, mat, i + 1, j0));
        FlatMapSingle(RemovedOf, Removed(i));
      } else {
        var j := matA[i];
        var next := if j0 < j then j else j0;
        var mod := if mat[i][j] > 0 then [Modified(i, j)] else [];
        ReportsRemoved(matA, matB, mat, i + 1, next);
        MatchedParts(RemovedOf, Additions(matB, j0, j), mod, ReportFrom(matA, matB, mat, i + 1, next));
        AdditionsReport(matB, j0, j);
        if mat[i][j] > 0 {
          FlatMapSingle(RemovedOf, Modified(i, j));
        }
      }
    }
  }

  /**
   * A matched pair is shown as modified exactly when its cost is positive,
   * once, in the order of the old side.
   */
  lemma {:induction false} ReportsModified(matA: seq<int>, matB: seq<int>, mat: seq<seq<int>>, i: nat, j0: nat)
    requires Reportable(matA, matB, mat) && i <= |matA| && j0 <= |matB|
    ensures FlatMap(ModifiedOf, ReportFrom(matA, matB, mat, i, j0)) == ChangedPairs(matA, matB, mat, i)
    decreases |matA| - i
  {
    if i == |matA| {
      AdditionsReport(matB, j0, |matB|);
    } else if matA[i] < 0 {
      ReportsModified(matA, matB, mat, i + 1, j0);
      FlatMapAppend(ModifiedOf, [Removed(i)], ReportFrom(matA, matB, mat, i + 1, j0));
      FlatMapSingle(ModifiedOf, Removed(i));
    } else {
      var j := matA[i];
      var next := if j0 < j then j else j0;
      var mod := if mat[i][j] > 0 then [Modified(i, j)] else [];
      ReportsModified(matA, matB, mat, i + 1, next);
      MatchedParts(ModifiedOf, Additions(matB, j0, j), mod, ReportFrom(matA, matB, mat, i + 1, next));
      AdditionsReport(matB, j0, j);
      if mat[i][j] > 0 {
        FlatMapSingle(ModifiedOf, Modified(i, j));
      }
    }
  }
}

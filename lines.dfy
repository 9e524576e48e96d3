/**
 * The text-assembly helpers of the structural printer (cmd/godiff.go:31-37
 * and 229-272): `cat` joins two strings, `catLines`/`appendLines` join two
 * line lists at a seam (the last line of the first with the first line of
 * the second), and `insertIndent`/`insertIndent2` prefix lines in place.
 */
module Lines {
  import opened Text

  /** No line break inside any line. */
  predicate SingleLines(lines: seq<string>) {
    forall k :: 0 <= k < |lines| ==> '\n' !in lines[k]
  }

  /** `cat`: `a` followed by `b`, with `sep` between them only when both are non-empty. */
  function Cat(a: string, sep: string, b: string): (r: string)
    ensures |r| == |a| + |b| + (if |a| > 0 && |b| > 0 then |sep| else 0)
    ensures r[..|a|] == a && r[|r| - |b|..] == b
  {
    if |a| > 0 && |b| > 0 then a + sep + b else a + b
  }

  /** The empty string is a unit of `cat` on both sides. */
  lemma CatUnit(a: string, sep: string)
    ensures Cat(a, sep, "") == a && Cat("", sep, a) == a
  {
  }

  /** Folding names with `cat` does not depend on grouping. */
  lemma CatAssociative(a: string, sep: string, b: string, c: string)
    ensures Cat(Cat(a, sep, b), sep, c) == Cat(a, sep, Cat(b, sep, c))
  {
    if |a| > 0 && |b| > 0 && |c| > 0 {
      assert (a + sep + b) + sep + c == a + sep + (b + sep + c);
    }
  }

  lemma CatSingleLine(a: string, sep: string, b: string)
    requires '\n' !in a && '\n' !in sep && '\n' !in b
    ensures '\n' !in Cat(a, sep, b)
  {
  }

  /**
   * `catLines`: the lines of `a`, then those of `b`, where the last line of
   * `a` and the first of `b` become one line joined by `cat`.
   */
  function CatLines(a: seq<string>, sep: string, b: seq<string>): (r: seq<string>)
    ensures |a| > 0 && |b| > 0 ==> |r| == |a| + |b| - 1
    ensures |a| == 0 || |b| == 0 ==> r == a + b
  {
    if |a| > 0 && |b| > 0 then a[..|a| - 1] + [Cat(a[|a| - 1], sep, b[0])] + b[1..]
    else a + b
  }

  lemma {:induction false} JoinLinesAppend(x: seq<string>, y: seq<string>)
    ensures JoinLines(x + y) ==
      if |x| == 0 then JoinLines(y) else if |y| == 0 then JoinLines(x) else JoinLines(x) + "\n" + JoinLines(y)
  {
    if |x| == 0 {
      assert x + y == y;
    } else if |y| == 0 {
      assert x + y == x;
    } else if |x| > 1 {
      JoinLinesAppend(x[1..], y);
      assert (x + y)[1..] == x[1..] + y;
    }
  }

  /** The text before line `s` when it follows `head`, and after it when `tail` follows. */
  function Before(head: seq<string>): (r: string) {
    if |head| > 0 then JoinLines(head) + "\n" else ""
  }

  function After(tail: seq<string>): (r: string) {
    if |tail| > 0 then "\n" + JoinLines(tail) else ""
  }

  lemma JoinMiddle(head: seq<string>, s: string, tail: seq<string>)
    ensures JoinLines(head + [s] + tail) == Before(head) + s + After(tail)
  {
    assert head + [s] + tail == head + ([s] + tail);
    JoinLinesAppend(head, [s] + tail);
    if |tail| > 0 {
      JoinLinesAppend([s], tail);
    } else {
      assert [s] + tail == [s];
    }
  }

  lemma JoinSnoc(head: seq<string>, s: string)
    ensures JoinLines(head + [s]) == Before(head) + s
  {
    JoinLinesAppend(head, [s]);
  }

  lemma JoinLast(a: seq<string>)
    requires |a| > 0
    ensures JoinLines(a) == Before(a[..|a| - 1]) + a[|a| - 1]
  {
    var head, last := a[..|a| - 1], a[|a| - 1];
    JoinSnoc(head, last);
    assert head + [last] == a;
  }

  lemma JoinFirst(b: seq<string>)
    requires |b| > 0
    ensures JoinLines(b) == b[0] + After(b[1..])
  {
    assert b == [] + [b[0]] + b[1..];
    JoinMiddle([], b[0], b[1..]);
  }

  lemma CatLinesSeam(a: seq<string>, sep: string, b: seq<string>)
    requires |a| > 0 && |b| > 0
    ensures JoinLines(CatLines(a, sep, b)) == JoinLines(a) + (if |a[|a| - 1]| > 0 && |b[0]| > 0 then sep else "") + JoinLines(b)
  {
    var head, last, first, tail := a[..|a| - 1], a[|a| - 1], b[0], b[1..];
    var seam := if |last| > 0 && |first| > 0 then sep else "";
    var H, T := Before(head), After(tail);
    assert Cat(last, sep, first) == last + seam + first;
    assert CatLines(a, sep, b) == head + [last + seam + first] + tail;
    JoinMiddle(head, last + seam + first, tail);
    JoinLast(a);
    JoinFirst(b);
    Regroup(H, last, seam, first, T);
  }

  lemma Regroup(h: string, x: string, y: string, z: string, t: string)
    ensures h + (x + y + z) + t == (h + x) + y + (z + t)
  {
  }

  /**
   * As text, `catLines` glues the two texts together, with `sep` at the
   * seam when the two lines that meet there are both non-empty.
   */
  lemma CatLinesText(a: seq<string>, sep: string, b: seq<string>)
    ensures |a| > 0 && |b| > 0 ==>
      JoinLines(CatLines(a, sep, b)) == JoinLines(a) + (if |a[|a| - 1]| > 0 && |b[0]| > 0 then sep else "") + JoinLines(b)
    ensures |a| == 0 ==> JoinLines(CatLines(a, sep, b)) == JoinLines(b)
    ensures |b| == 0 ==> JoinLines(CatLines(a, sep, b)) == JoinLines(a)
  {
    if |a| > 0 && |b| > 0 {
      CatLinesSeam(a, sep, b);
    } else {
      JoinLinesAppend(a, b);
    }
  }

  /** Joining lines without line breaks, with a separator free of them, gives lines without line breaks. */
  lemma CatLinesSingle(a: seq<string>, sep: string, b: seq<string>)
    requires SingleLines(a) && SingleLines(b) && '\n' !in sep
    ensures SingleLines(CatLines(a, sep, b))
  {
    if |a| > 0 && |b| > 0 {
      CatSingleLine(a[|a| - 1], sep, b[0]);
    }
  }

  /** `catLines` as written: it overwrites `b[0]` with the joined seam line and returns the joined list. */
  method CatLinesInPlace(a: seq<string>, sep: string, b: array<string>) returns (r: seq<string>)
    modifies b
    ensures r == CatLines(a, sep, old(b[..]))
    ensures b[..] == if |a| > 0 && b.Length > 0 then old(b[..])[0 := Cat(a[|a| - 1], sep, old(b[0]))] else old(b[..])
  {
    var front := a;
    if |a| > 0 && b.Length > 0 {
      b[0] := Cat(a[|a| - 1], sep, b[0]);
      front := a[..|a| - 1];
    }
    r := front + b[..];
  }

  /** `appendLines`: the same join, with the second list passed as variadic arguments. */
  method AppendLines(a: seq<string>, sep: string, b: array<string>) returns (r: seq<string>)
    modifies b
    ensures r == CatLines(a, sep, old(b[..]))
    ensures b[..] == if |a| > 0 && b.Length > 0 then old(b[..])[0 := Cat(a[|a| - 1], sep, old(b[0]))] else old(b[..])
  {
    r := CatLinesInPlace(a, sep, b);
  }

  /** The lines from index `k` on, prefixed with `indent`. */
  function IndentFrom(indent: string, lines: seq<string>, k: nat): (r: seq<string>)
    ensures |r| == |lines|
    ensures forall i :: 0 <= i < |lines| ==> r[i] == if i >= k then indent + lines[i] else lines[i]
  {
    seq(|lines|, i requires 0 <= i < |lines| => if i >= k then indent + lines[i] else lines[i])
  }

  /** `insertIndent`: prefixes every line, in place. */
  method InsertIndent(indent: string, lines: array<string>) returns (r: seq<string>)
    modifies lines
    ensures lines[..] == IndentFrom(indent, old(lines[..]), 0) && r == lines[..]
  {
    for i := 0 to lines.Length
      invariant forall k :: 0 <= k < i ==> lines[k] == indent + old(lines[k])
      invariant forall k :: i <= k < lines.Length ==> lines[k] == old(lines[k])
    {
      lines[i] := indent + lines[i];
    }
    r := lines[..];
  }

  /** `insertIndent2`: prefixes every line but the first, in place. */
  method InsertIndent2(indent: string, lines: array<string>) returns (r: seq<string>)
    modifies lines
    ensures lines[..] == IndentFrom(indent, old(lines[..]), 1) && r == lines[..]
  {
    for i := 0 to lines.Length
      invariant forall k :: 0 < k < i ==> lines[k] == indent + old(lines[k])
      invariant forall k :: 0 <= k < lines.Length && (k == 0 || k >= i) ==> lines[k] == old(lines[k])
    {
      if i > 0 {
        lines[i] := indent + lines[i];
      }
    }
    r := lines[..];
  }

  /** The text with `indent` inserted after every line break. */
  function IndentText(indent: string, s: string): (r: string)
    ensures '\n' !in s ==> r == s
  {
    if |s| == 0 then ""
    else (if s[0] == '\n' then "\n" + indent else [s[0]]) + IndentText(indent, s[1..])
  }

  lemma {:induction false} IndentTextAppend(indent: string, x: string, y: string)
    ensures IndentText(indent, x + y) == IndentText(indent, x) + IndentText(indent, y)
  {
    if |x| == 0 {
      assert x + y == y;
    } else {
      assert (x + y)[0] == x[0];
      assert (x + y)[1..] == x[1..] + y;
      IndentTextAppend(indent, x[1..], y);
    }
  }

  /** Indenting every line adds the indent in front of what indenting all but the first does. */
  lemma IndentFirstLine(indent: string, lines: seq<string>)
    requires |lines| > 0
    ensures JoinLines(IndentFrom(indent, lines, 0)) == indent + JoinLines(IndentFrom(indent, lines, 1))
  {
    var x, y := IndentFrom(indent, lines, 0), IndentFrom(indent, lines, 1);
    if |lines| > 1 {
      assert x[1..] == y[1..];
    }
  }

  /** Indenting the text of a first line and the lines after it. */
  lemma IndentTextStep(indent: string, first: string, rest: string)
    requires '\n' !in first
    ensures IndentText(indent, first + ("\n" + rest)) == first + ("\n" + (indent + IndentText(indent, rest)))
  {
    IndentTextAppend(indent, first, "\n" + rest);
    IndentTextAppend(indent, "\n", rest);
    assert IndentText(indent, "\n") == "\n" + indent;
    ConcatAssociative("\n", indent, IndentText(indent, rest));
  }

  lemma ConcatAssociative(x: string, y: string, z: string)
    ensures (x + y) + z == x + (y + z)
  {
  }

  lemma {:induction false} IndentRestText(indent: string, lines: seq<string>)
    requires |lines| > 0 && SingleLines(lines)
    ensures JoinLines(IndentFrom(indent, lines, 1)) == IndentText(indent, JoinLines(lines))
  {
    if |lines| > 1 {
      var first, rest := lines[0], lines[1..];
      var shifted, moved := IndentFrom(indent, lines, 1), IndentFrom(indent, rest, 0);
      var R := IndentText(indent, JoinLines(rest));
      IndentRestText(indent, rest);
      IndentFirstLine(indent, rest);
      assert shifted[0] == first && shifted[1..] == moved;
      JoinFirst(shifted);
      JoinFirst(lines);
      IndentTextStep(indent, first, JoinLines(rest));
    }
  }

  /** As text, indenting every line puts the indent in front and after every line break. */
  lemma IndentAllText(indent: string, lines: seq<string>)
    requires |lines| > 0 && SingleLines(lines)
    ensures JoinLines(IndentFrom(indent, lines, 0)) == indent + IndentText(indent, JoinLines(lines))
  {
    IndentFirstLine(indent, lines);
    IndentRestText(indent, lines);
  }
}

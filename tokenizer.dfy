/**
 * Splitting a source line into tokens (tm/tm.go:9-64): runs of digits, runs
 * of letters (a lower-case letter followed by a capital starts a new word),
 * and every other character on its own.
 */
module Tokenizer {
  import opened Seqs

  /** Character classes (`rune_SINGLE`, `rune_NUM`, `rune_CAPITAL`, `rune_LOWER`). */
  datatype RuneClass = Single | Num | Capital | Lower

  function RuneType(c: char): (r: RuneClass) {
    if '0' <= c <= '9' then Num
    else if 'A' <= c <= 'Z' then Capital
    else if 'a' <= c <= 'z' then Lower
    else Single
  }

  /** Whether a character of class `cur` after one of class `last` starts a new token. */
  predicate NewToken(last: RuneClass, cur: RuneClass) {
    if last == Single || cur == Single then true
    else if last == cur then false
    else if last == Num || cur == Num then true
    else last == Lower && cur == Capital
  }

  /** Only a capital after a capital or a lower-case letter, or a repeat of the same class, continues a token. */
  lemma NewTokenExactly(last: RuneClass, cur: RuneClass)
    ensures !NewToken(last, cur) <==>
      last != Single && cur != Single && (last == cur || (last == Capital && cur == Lower))
  {
  }

  /** The class of the character before position `i` (`Single` at the start of the line). */
  function ClassBefore(line: string, i: nat): (r: RuneClass)
    requires i <= |line|
  {
    if i == 0 then Single else RuneType(line[i - 1])
  }

  /** Whether the character at position `i` begins a token. */
  predicate StartsToken(line: string, i: nat)
    requires i < |line|
  {
    NewToken(ClassBefore(line, i), RuneType(line[i]))
  }

  /** The tokens with `c` appended to the last one. */
  function Extend(ts: seq<string>, c: char): (r: seq<string>)
    requires |ts| > 0
  {
    ts[..|ts| - 1] + [ts[|ts| - 1] + [c]]
  }

  /** The tokens, built one character at a time as the scanning loop does. */
  function Tokenize(line: string): (ts: seq<string>)
    ensures |line| > 0 <==> |ts| > 0
    decreases |line|
  {
    if |line| == 0 then []
    else
      var s, c := line[..|line| - 1], line[|line| - 1];
      if NewToken(ClassBefore(s, |s|), RuneType(c)) then Tokenize(s) + [[c]] else Extend(Tokenize(s), c)
  }

  /** A character that starts a token adds a token of its own... */
  lemma TokenizeNew(s: string, c: char)
    requires NewToken(ClassBefore(s, |s|), RuneType(c))
    ensures Tokenize(s + [c]) == Tokenize(s) + [[c]]
  {
    assert (s + [c])[..|s|] == s;
  }

  /** ...and any other character extends the last token. */
  lemma TokenizeContinue(s: string, c: char)
    requires !NewToken(ClassBefore(s, |s|), RuneType(c))
    ensures |Tokenize(s)| > 0 && Tokenize(s + [c]) == Extend(Tokenize(s), c)
  {
    assert (s + [c])[..|s|] == s;
  }

  /** Concatenation of tokens. */
  function Concat(ts: seq<string>): (r: string) {
    if |ts| == 0 then [] else Concat(ts[..|ts| - 1]) + ts[|ts| - 1]
  }

  /** The positions, in the concatenation, at which the tokens start. */
  function Starts(ts: seq<string>): (r: set<nat>) {
    if |ts| == 0 then {} else Starts(ts[..|ts| - 1]) + {|Concat(ts[..|ts| - 1])|}
  }

  lemma ConcatSnoc(ts: seq<string>, t: string)
    ensures Concat(ts + [t]) == Concat(ts) + t
    ensures Starts(ts + [t]) == Starts(ts) + {|Concat(ts)|}
  {
    TakeAppend(ts, [t]);
  }

  /** Extending the last token extends the concatenation and moves no start. */
  lemma ConcatExtend(ts: seq<string>, c: char)
    requires |ts| > 0
    ensures Concat(Extend(ts, c)) == Concat(ts) + [c]
    ensures Starts(Extend(ts, c)) == Starts(ts)
  {
    var init, last := ts[..|ts| - 1], ts[|ts| - 1];
    ConcatSnoc(init, last + [c]);
    SplitLast(ts);
    ConcatSnoc(init, last);
    AppendAssoc(Concat(init), last, [c]);
  }

  /** Tokenizing loses nothing. */
  lemma {:induction false} TokenizeLossless(line: string)
    ensures Concat(Tokenize(line)) == line
    decreases |line|
  {
    if |line| > 0 {
      var s, c := line[..|line| - 1], line[|line| - 1];
      TokenizeLossless(s);
      assert s + [c] == line;
      if NewToken(ClassBefore(s, |s|), RuneType(c)) {
        TokenizeNew(s, c);
        ConcatSnoc(Tokenize(s), [c]);
      } else {
        TokenizeContinue(s, c);
        ConcatExtend(Tokenize(s), c);
      }
    }
  }

  /** No token is empty. */
  lemma {:induction false} TokensNonEmpty(line: string)
    ensures forall k :: 0 <= k < |Tokenize(line)| ==> |Tokenize(line)[k]| > 0
    decreases |line|
  {
    if |line| > 0 {
      var s, c := line[..|line| - 1], line[|line| - 1];
      TokensNonEmpty(s);
      assert s + [c] == line;
      if NewToken(ClassBefore(s, |s|), RuneType(c)) {
        TokenizeNew(s, c);
      } else {
        TokenizeContinue(s, c);
      }
    }
  }

  /** There are never more tokens than characters. */
  lemma {:induction false} TokenCount(line: string)
    ensures |Tokenize(line)| <= |line|
    decreases |line|
  {
    if |line| > 0 {
      TokenCount(line[..|line| - 1]);
    }
  }

  /**
   * The tokens start exactly where `StartsToken` holds: together with
   * `TokenizeLossless` this determines the tokenization completely.
   */
  lemma {:induction false} TokenStarts(line: string)
    ensures forall i :: i in Starts(Tokenize(line)) ==> i < |line|
    ensures forall i :: 0 <= i < |line| ==> (StartsToken(line, i) <==> i in Starts(Tokenize(line)))
    decreases |line|
  {
    if |line| > 0 {
      var s, c := line[..|line| - 1], line[|line| - 1];
      TokenStarts(s);
      SplitLast(line);
      StartsAfter(s, c);
      StartsOfPrefix(line);
      var S := Starts(Tokenize(line));
      assert S == Starts(Tokenize(s)) + (if StartsToken(line, |s|) then {|s|} else {});
      forall i | 0 <= i < |line|
        ensures StartsToken(line, i) <==> i in S
      {
        if i < |s| {
          assert StartsToken(line, i) == StartsToken(s, i);
        }
      }
    }
  }

  /** Appending a character adds its position to the starts exactly when it starts a token. */
  lemma StartsAfter(s: string, c: char)
    ensures Starts(Tokenize(s + [c])) ==
            Starts(Tokenize(s)) + (if NewToken(ClassBefore(s, |s|), RuneType(c)) then {|s|} else {})
  {
    TokenizeLossless(s);
    if NewToken(ClassBefore(s, |s|), RuneType(c)) {
      TokenizeNew(s, c);
      ConcatSnoc(Tokenize(s), [c]);
    } else {
      TokenizeContinue(s, c);
      ConcatExtend(Tokenize(s), c);
    }
  }

  /** Whether a position starts a token depends only on the characters up to it. */
  lemma StartsOfPrefix(line: string)
    requires |line| > 0
    ensures forall i :: 0 <= i < |line| - 1 ==> (StartsToken(line, i) <==> StartsToken(line[..|line| - 1], i))
    ensures ClassBefore(line, |line| - 1) == ClassBefore(line[..|line| - 1], |line| - 1)
  {
    var s := line[..|line| - 1];
    forall i | 0 <= i < |s|
      ensures StartsToken(line, i) == StartsToken(s, i)
    {
      assert ClassBefore(line, i) == ClassBefore(s, i);
    }
  }

  /** Every character outside `[0-9A-Za-z]` is a token on its own: a token starts at it and right after it. */
  lemma SingleCharTokens(line: string, i: nat)
    requires i < |line| && RuneType(line[i]) == Single
    ensures i in Starts(Tokenize(line))
    ensures i + 1 < |line| ==> i + 1 in Starts(Tokenize(line))
  {
    TokenStarts(line);
  }

  /**
   * Inside a token, a character continues the class of the one before it,
   * except that lower-case letters may follow capitals: so a token of two or
   * more characters is all digits, or letters with no capital after a
   * lower-case letter.
   */
  lemma TokenShapes(line: string, i: nat)
    requires 0 < i < |line| && i !in Starts(Tokenize(line))
    ensures RuneType(line[i - 1]) != Single && RuneType(line[i]) != Single
    ensures RuneType(line[i - 1]) == RuneType(line[i]) ||
            (RuneType(line[i - 1]) == Capital && RuneType(line[i]) == Lower)
  {
    TokenStarts(line);
    NewTokenExactly(RuneType(line[i - 1]), RuneType(line[i]));
  }

  /** A digit next to a letter, or a capital after a lower-case letter, always starts a new token. */
  lemma ClassSwitchStartsToken(line: string, i: nat)
    requires 0 < i < |line|
    requires (RuneType(line[i - 1]) == Num) != (RuneType(line[i]) == Num) ||
             (RuneType(line[i - 1]) == Lower && RuneType(line[i]) == Capital)
    ensures i in Starts(Tokenize(line))
  {
    TokenStarts(line);
  }

  /** Updating the last token in place is `Extend`. */
  lemma ExtendLast(ts: seq<string>, c: char)
    requires |ts| > 0
    ensures ts[|ts| - 1 := ts[|ts| - 1] + [c]] == Extend(ts, c)
  {
    UpdateLast(ts, ts[|ts| - 1] + [c]);
  }

  lemma ExtendOfConcat(A: seq<string>, B: seq<string>, c: char)
    requires |B| > 0
    ensures Extend(A + B, c) == A + Extend(B, c)
  {
    DropLastOfAppend(A, B);
    AppendAssoc(A, B[..|B| - 1], [B[|B| - 1] + [c]]);
  }

  /** Tokenizing splits at a token start. */
  lemma {:induction false} TokenizeSplit(a: string, b: string)
    requires |b| > 0 && NewToken(ClassBefore(a, |a|), RuneType(b[0]))
    ensures Tokenize(a + b) == Tokenize(a) + Tokenize(b)
    decreases |b|
  {
    var b', c := b[..|b| - 1], b[|b| - 1];
    assert a + b == (a + b') + [c];
    assert b == b' + [c];
    if |b'| == 0 {
      assert a + b' == a;
      TokenizeNew(a, c);
      TokenizeNew(b', c);
    } else {
      TokenizeSplit(a, b');
      assert ClassBefore(a + b', |a + b'|) == ClassBefore(b', |b'|);
      var ta, tb := Tokenize(a), Tokenize(b');
      if NewToken(ClassBefore(b', |b'|), RuneType(c)) {
        TokenizeNew(a + b', c);
        TokenizeNew(b', c);
        AppendAssoc(ta, tb, [[c]]);
      } else {
        TokenizeContinue(a + b', c);
        TokenizeContinue(b', c);
        ExtendOfConcat(ta, tb, c);
      }
    }
  }

  /** A non-empty string in which no later position starts a token is a single token. */
  lemma {:induction false} SingleToken(w: string)
    requires |w| > 0
    requires forall i :: 0 < i < |w| ==> !StartsToken(w, i)
    ensures Tokenize(w) == [w]
    decreases |w|
  {
    var w', c := w[..|w| - 1], w[|w| - 1];
    SplitLast(w);
    if |w'| == 0 {
      TokenizeNew(w', c);
    } else {
      assert forall i :: 0 < i < |w'| ==> !StartsToken(w', i) by {
        forall i | 0 < i < |w'|
          ensures !StartsToken(w', i)
        {
          assert !StartsToken(w, i);
          assert ClassBefore(w', i) == ClassBefore(w, i);
        }
      }
      SingleToken(w');
      assert !StartsToken(w, |w'|);
      TokenizeContinue(w', c);
      ExtendSingle(w', c);
    }
  }

  lemma ExtendSingle(t: string, c: char)
    ensures Extend([t], c) == [t + [c]]
  {
  }

  /** One round of the scanning loop: a new empty token if the character starts one, then the character appended to the last token. */
  lemma ScanStep(line: string, i: nat)
    requires i < |line|
    ensures ClassBefore(line[..i], i) == ClassBefore(line, i)
    ensures NewToken(ClassBefore(line, i), RuneType(line[i])) ==>
              Extend(Tokenize(line[..i]) + [""], line[i]) == Tokenize(line[..i + 1])
    ensures !NewToken(ClassBefore(line, i), RuneType(line[i])) ==>
              |Tokenize(line[..i])| > 0 && Extend(Tokenize(line[..i]), line[i]) == Tokenize(line[..i + 1])
  {
    var s, c := line[..i], line[i];
    assert line[..i + 1] == s + [c];
    if NewToken(ClassBefore(s, |s|), RuneType(c)) {
      TokenizeNew(s, c);
      ExtendEmpty(Tokenize(s), c);
    } else {
      TokenizeContinue(s, c);
    }
  }

  lemma ExtendEmpty(ts: seq<string>, c: char)
    ensures Extend(ts + [""], c) == ts + [[c]]
  {
    TakeAppend(ts, [""]);
    assert "" + [c] == [c];
  }

  /** `LineToTokens`: the scanning loop of tm/tm.go:51-64. */
  method LineToTokens(line: string) returns (tokens: seq<string>)
    ensures tokens == Tokenize(line)
    ensures Concat(tokens) == line
    ensures forall k :: 0 <= k < |tokens| ==> |tokens[k]| > 0
    ensures |line| == 0 ==> tokens == []
  {
    tokens := [];
    var lastTp := Single;
    var i := 0;
    while i < |line|
      invariant 0 <= i <= |line|
      invariant tokens == Tokenize(line[..i])
      invariant lastTp == ClassBefore(line, i)
    {
      ScanStep(line, i);
      var tp := RuneType(line[i]);
      if NewToken(lastTp, tp) {
        tokens := tokens + [""];
      }
      ExtendLast(tokens, line[i]);
      tokens := tokens[|tokens| - 1 := tokens[|tokens| - 1] + [line[i]]];
      lastTp := tp;
      i := i + 1;
    }
    assert line[..i] == line;
    TokenizeLossless(line);
    TokensNonEmpty(line);
  }

  /** tm/tm_test.go:63-64: an upper-case letter after lower-case ones starts a new token. */
  lemma ExampleExeFile()
    ensures Tokenize("exeFile") == ["exe", "File"]
  {
    ExeToken();
    FileToken();
    assert "exe" + "File" == "exeFile";
    TokenizeSplit("exe", "File");
  }

  lemma ExeToken()
    ensures Tokenize("exe") == ["exe"]
  {
    var a := "exe";
    assert !StartsToken(a, 1) && !StartsToken(a, 2);
    SingleToken(a);
  }

  lemma FileToken()
    ensures Tokenize("File") == ["File"]
  {
    var b := "File";
    assert !StartsToken(b, 1) && !StartsToken(b, 2) && !StartsToken(b, 3);
    SingleToken(b);
  }
}

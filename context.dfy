/**
 * How the token matcher scores the context of a match (tm/tm.go:66-154 and
 * the callbacks of `MatchTokens`, tm/tm.go:260-287): whether the
 * neighbouring tokens also match (`diffAt`), and which neighbours are worth
 * looking at, decided by a quote/escape scan of the deleted line
 * (`nearChecks`).
 */
module Context {
  import opened Alignment

  /**
   * `diffAt`: 0 when both positions fall off the same end of their token
   * lists or hold equal tokens, 2 when both hold different tokens, 1 when
   * only one of them is a token.
   */
  function DiffAt(a: seq<string>, iA: int, b: seq<string>, iB: int): (d: int)
    ensures 0 <= d <= 2
    ensures d == 0 <==> (iA < 0 && iB < 0) || (iA >= |a| && iB >= |b|) ||
                        (0 <= iA < |a| && 0 <= iB < |b| && a[iA] == b[iB])
    ensures d == 2 <==> 0 <= iA < |a| && 0 <= iB < |b| && a[iA] != b[iB]
  {
    if iA < 0 then (if iB < 0 then 0 else 1)
    else if iB < 0 then 1
    else if iA >= |a| then (if iB >= |b| then 0 else 1)
    else if iB >= |b| then 1
    else if a[iA] == b[iB] then 0
    else 2
  }

  lemma DiffAtSymmetric(a: seq<string>, iA: int, b: seq<string>, iB: int)
    ensures DiffAt(a, iA, b, iB) == DiffAt(b, iB, a, iA)
  {
  }

  /** The scanner's quote status (`normal`, `doubleQuoted`, `singleQuoted`). */
  datatype Quote = Normal | DoubleQuoted | SingleQuoted

  datatype ScanState = ScanState(status: Quote, escaped: bool)

  /** The closing quote token of a quoted status. */
  function Closer(q: Quote): (r: string) {
    if q == DoubleQuoted then "\"" else "'"
  }

  /** The state after token `el`. */
  function Step(st: ScanState, el: string): (r: ScanState) {
    match st.status
    case Normal =>
      if el == "\"" then ScanState(DoubleQuoted, st.escaped)
      else if el == "'" then ScanState(SingleQuoted, st.escaped)
      else st
    case _ =>
      if el == "\\" && !st.escaped then ScanState(st.status, true)
      else if el == Closer(st.status) && !st.escaped then ScanState(Normal, false)
      else ScanState(st.status, false)
  }

  /** The state in which token `i` is met. */
  function StateAt(a: seq<string>, i: nat): (r: ScanState)
    requires i <= |a|
  {
    if i == 0 then ScanState(Normal, false) else Step(StateAt(a, i - 1), a[i - 1])
  }

  /** `l[i]`: compare the left neighbours, unless the token opens a quoted string. */
  predicate LeftFlag(st: ScanState, el: string) {
    !(st.status == Normal && (el == "\"" || el == "'"))
  }

  /** `r[i]`: compare the right neighbours, unless the token is a separator or closes a quoted string. */
  predicate RightFlag(st: ScanState, el: string) {
    match st.status
    case Normal => el != "," && el != ")"
    case _ => !(el == Closer(st.status) && !st.escaped)
  }

  /** The flags of token `i`. */
  predicate LeftAt(a: seq<string>, i: nat)
    requires i < |a|
  {
    LeftFlag(StateAt(a, i), a[i])
  }

  predicate RightAt(a: seq<string>, i: nat)
    requires i < |a|
  {
    RightFlag(StateAt(a, i), a[i])
  }

  /** Outside quotes nothing is escaped. */
  lemma {:induction false} NormalNotEscaped(a: seq<string>, i: nat)
    requires i <= |a|
    ensures StateAt(a, i).status == Normal ==> !StateAt(a, i).escaped
  {
    if i > 0 {
      NormalNotEscaped(a, i - 1);
    }
  }

  /** Inside quotes an unescaped `\` escapes the next token: a quote right after it does not close the string. */
  lemma EscapeNext(a: seq<string>, i: nat)
    requires i + 1 < |a|
    requires StateAt(a, i).status != Normal && !StateAt(a, i).escaped && a[i] == "\\"
    ensures StateAt(a, i + 1) == ScanState(StateAt(a, i).status, true)
    ensures RightFlag(StateAt(a, i + 1), a[i + 1])
    ensures StateAt(a, i + 2).status == StateAt(a, i).status && !StateAt(a, i + 2).escaped
  {
  }

  /** `l[i]` is false exactly on a quote that opens a string. */
  lemma LeftFlagFalse(a: seq<string>, i: nat)
    requires i < |a|
    ensures !LeftFlag(StateAt(a, i), a[i]) <==>
            StateAt(a, i).status == Normal && StateAt(a, i + 1).status != Normal
  {
  }

  /** `r[i]` is false exactly on `,` or `)` outside quotes, or on a quote that closes a string. */
  lemma RightFlagFalse(a: seq<string>, i: nat)
    requires i < |a|
    ensures !RightFlag(StateAt(a, i), a[i]) <==>
            (StateAt(a, i).status == Normal && (a[i] == "," || a[i] == ")")) ||
            (StateAt(a, i).status != Normal && StateAt(a, i + 1).status == Normal)
  {
    NormalNotEscaped(a, i);
  }

  /** One step of the scan (the body of the loop in tm/tm.go:107-151): the next state and the two flags of token `el`. */
  method ScanToken(status0: Quote, escaped0: bool, el: string) returns (status: Quote, escaped: bool, li: bool, ri: bool)
    ensures ScanState(status, escaped) == Step(ScanState(status0, escaped0), el)
    ensures li == LeftFlag(ScanState(status0, escaped0), el)
    ensures ri == RightFlag(ScanState(status0, escaped0), el)
  {
    status, escaped := status0, escaped0;
    li, ri := true, true;
    match status {
      case Normal =>
        if el == "\"" {
          status := DoubleQuoted;
          li := false;
        } else if el == "'" {
          status := SingleQuoted;
          li := false;
        } else if el == "," || el == ")" {
          ri := false;
        }
      case DoubleQuoted =>
        if el == "\\" && !escaped {
          escaped := true;
        } else {
          if el == "\"" && !escaped {
            status := Normal;
            ri := false;
          }
          escaped := false;
        }
      case SingleQuoted =>
        if el == "\\" && !escaped {
          escaped := true;
        } else {
          if el == "'" && !escaped {
            status := Normal;
            ri := false;
          }
          escaped := false;
        }
    }
  }

  /** `nearChecks` (tm/tm.go:96-154). */
  method NearChecks(a: seq<string>) returns (l: seq<bool>, r: seq<bool>)
    ensures |l| == |a| && |r| == |a|
    ensures forall i :: 0 <= i < |a| ==> l[i] == LeftAt(a, i)
    ensures forall i :: 0 <= i < |a| ==> r[i] == RightAt(a, i)
  {
    var la := new bool[|a|];
    var ra := new bool[|a|];
    var status := Normal;
    var escaped := false;
    var i := 0;
    while i < |a|
      invariant 0 <= i <= |a|
      invariant StateAt(a, i) == ScanState(status, escaped)
      invariant forall k :: 0 <= k < i ==> la[k] == LeftAt(a, k)
      invariant forall k :: 0 <= k < i ==> ra[k] == RightAt(a, k)
    {
      var li, ri;
      status, escaped, li, ri := ScanToken(status, escaped, a[i]);
      assert li == LeftAt(a, i) && ri == RightAt(a, i);
      la[i], ra[i] := li, ri;
      i := i + 1;
    }
    l, r := la[..], ra[..];
  }

  /**
   * The substitution callback of `MatchTokens`: equal tokens cost the
   * neighbour mismatches on the sides the context flags allow, different
   * tokens cost both lengths plus 5.
   */
  function TokenSubCost(delT: seq<string>, insT: seq<string>, delL: seq<bool>, delR: seq<bool>, iA: nat, iB: nat): (c: int)
    requires iA < |delT| && iB < |insT| && |delL| == |delT| && |delR| == |delT|
    ensures delT[iA] == insT[iB] ==> 0 <= c <= 4
    ensures delT[iA] != insT[iB] ==> c == |delT[iA]| + |insT[iB]| + 5
    ensures c < 5 <==> delT[iA] == insT[iB]
  {
    if delT[iA] == insT[iB] then
      (if delL[iA] then DiffAt(delT, iA - 1, insT, iB - 1) else 0) +
      (if delR[iA] then DiffAt(delT, iA + 1, insT, iB + 1) else 0)
    else |delT[iA]| + |insT[iB]| + 5
  }

  /** Equal tokens whose checked neighbours also match cost nothing. */
  lemma TokenSubCostZero(delT: seq<string>, insT: seq<string>, delL: seq<bool>, delR: seq<bool>, iA: nat, iB: nat)
    requires iA < |delT| && iB < |insT| && |delL| == |delT| && |delR| == |delT|
    ensures TokenSubCost(delT, insT, delL, delR, iA, iB) == 0 <==>
      delT[iA] == insT[iB] &&
      (delL[iA] ==> DiffAt(delT, iA - 1, insT, iB - 1) == 0) &&
      (delR[iA] ==> DiffAt(delT, iA + 1, insT, iB + 1) == 0)
  {
  }

  /** The deletion and insertion callbacks: a single space is free, any other token costs its length plus 2. */
  function TokenIndelCost(t: string): (c: nat)
    ensures c == 0 <==> t == " "
    ensures t != " " ==> c == |t| + 2
  {
    if t == " " then 0 else |t| + 2
  }

  /** The three callbacks of `MatchTokens` as cost tables. */
  function TokenCosts(delT: seq<string>, insT: seq<string>, delL: seq<bool>, delR: seq<bool>): (c: Costs)
    requires |delL| == |delT| && |delR| == |delT|
    ensures forall iA, iB :: 0 <= iA < |delT| && 0 <= iB < |insT| ==>
              SubCost(c, iA, iB) == TokenSubCost(delT, insT, delL, delR, iA, iB)
    ensures forall iA :: 0 <= iA < |delT| ==> DelCost(c, iA) == TokenIndelCost(delT[iA])
    ensures forall iB :: 0 <= iB < |insT| ==> InsCost(c, iB) == TokenIndelCost(insT[iB])
  {
    Costs(seq(|delT|, iA requires 0 <= iA < |delT| =>
            seq(|insT|, iB requires 0 <= iB < |insT| => TokenSubCost(delT, insT, delL, delR, iA, iB))),
          seq(|delT|, iA requires 0 <= iA < |delT| => TokenIndelCost(delT[iA]) as int),
          seq(|insT|, iB requires 0 <= iB < |insT| => TokenIndelCost(insT[iB]) as int))
  }
}

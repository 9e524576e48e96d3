# go-diff structural diff engine, modelled in Dafny

This project models the core of `godiff`, a diff tool for Go source files.
Rather than comparing files line by line, `godiff` compares their
declarations. The model covers two layers.

**The token matcher (`tm/tm.go`).** It compares two source lines token by
token:
- it cuts a line into tokens by character class (`LineToTokens`);
- it decides which neighbours of a token count as context, following the quote and escape state of the line (`nearChecks`);
- it pairs brackets (`findPairs`);
- it repairs the alignment from the edit-distance library so that matched brackets stay paired (`alignPairs`);
- it scores line similarity (`DiffOfStrings`, `CalcDiffOfSourceLine`).

**The diff engine (`cmd/godiff.go`).** It is made of:
- the greedy declaration matcher (`GreedyMatch`);
- the weight and cost rules of declaration fragments (`Fragment.Weight`, `calcDiff`);
- the source templates of fragments (`sourceLines`, `oneLine`, and the line helpers `cat`, `catLines`, `insertIndent`);
- the line diff (`offsetHeadTails`, `DiffLinesTo`);
- the presentation decisions: the folding of unchanged runs (`lineOutput`), the folding of deleted and inserted blocks (`ShowDelLines`/`ShowInsLines`), and the order in which `DiffTypes`, `DiffVars` and `DiffFuncs` report a matching.

**Edit distance.** The edit-distance library `github.com/daviddengcn/go-algs/ed` is not part of this model. In its place:
- `Alignment.EditDistance` is the classic minimum-cost recursion over prefixes, which is the value `EditDistanceF` returns;
- `Alignment.StringDistance` is unit-cost Levenshtein distance, standing in for `ed.String`;
- the alignment arrays of `EditDistanceFFull` come from an `Aligner` function parameter. The predicate `IsAligner` demands that it return arrays that are valid, mutually inverse, order-preserving and filled with `-1` for unmatched entries, at a cost equal to `EditDistance`. `TokenMatch.MatchTokens`, `LineDiff.DiffLinesTo` and `Output.DiffLines` are proved for every such aligner.

**Output.** Output is modelled as data, not text. The line outputter appends `Output.Event` values to a `printed` sequence, and the declaration reports are `Output.Report` values.

**Modules:**
- `Seqs`: generic sequence lemmas.
- `Text`: `strings.TrimSpace`, line splitting, decimal printing, Go's truncating division.
- `Alignment`: the edit-distance contract.
- `Tokenizer`, `Context`, `Brackets`, `TokenMatch`: `tm/tm.go`.
- `Greedy`, `Lines`, `Fragments`, `LineDiff`, `Output`: `cmd/godiff.go`.

**Note on `TestTrimDiff`.** The test in `godiff_test.go:162-176` expects three things at once:
- a count of 2;
- one inserted line;
- no deleted line.

`Output.SaverCount` shows these cannot all hold. With the test's `OutputSaver`, every counted operation line is recorded exactly once as deleted or inserted, because a change records one of each. So a count of 2 with one insertion forces one deletion. The model follows the code, not this test expectation.

## Model

| member | source | states |
|---|---|---|
| Text.TrimSpace | cmd/godiff.go:1201-1204 | the result is the input without its leading and trailing white space: what is cut is all white space, and the result neither starts nor ends with white space |
| Text.TrimSpaceIdempotent | cmd/godiff.go:1201-1204 | trimming twice gives the same as trimming once |
| Text.SplitLines | cmd/godiff.go:496-497 | splitting at `\n` gives at least one piece and no piece contains `\n` |
| Text.JoinSplit | cmd/godiff.go:496-497 | joining the pieces of a split with `\n` restores the text |
| Text.SplitJoin | cmd/godiff.go:496-497 | splitting the join of a non-empty list of lines that hold no `\n` gives back the lines |
| Text.DecimalRoundTrip | cmd/godiff.go:289 | the decimal line count printed by `oneLine` reads back as the number |
| Text.GoDiv | tm/tm.go:299 | Go's truncating division agrees with Euclidean division on non-negative operands and is non-negative when the signs agree |
| Text.Max | cmd/godiff.go:39-45 | `max` is at least both arguments and equals one of them |
| Tokenizer.NewTokenExactly | tm/tm.go:16-34 | a character continues the current token exactly when both classes are digits, both are letters of one case, or lower case follows upper case |
| Tokenizer.TokenizeLossless | tm/tm.go:51-64 | the tokens concatenate back to the line |
| Tokenizer.TokensNonEmpty | tm/tm.go:51-64 | every token is non-empty |
| Tokenizer.TokenCount | tm/tm.go:51-64 | there are no more tokens than characters |
| Tokenizer.TokenStarts | tm/tm.go:51-64 | a token starts at position i exactly when `newToken` holds between the previous character's class and this one's |
| Tokenizer.SingleCharTokens | tm/tm.go:36-49 | a character outside `[0-9A-Za-z]` is a token of its own: a token starts at it and right after it |
| Tokenizer.TokenShapes | tm/tm.go:16-34 | inside a token, neighbouring characters are both alphanumeric and either share a class or go from upper to lower case |
| Tokenizer.ClassSwitchStartsToken | tm/tm.go:16-34 | a switch between digit and letter, or from lower to upper case, starts a new token |
| Tokenizer.TokenizeSplit | tm/tm.go:51-64 | tokenising a line that splits at a token boundary gives the tokens of the two halves |
| Tokenizer.LineToTokens | tm/tm.go:51-64 | the loop returns the tokenisation: the tokens concatenate to the line, none is empty, and an empty line has none |
| Tokenizer.ExampleExeFile | tm/tm_test.go:64 | "exeFile" becomes "exe", "File" |
| Context.DiffAt | tm/tm.go:66-94 | the neighbour cost is in {0,1,2}; it is 0 exactly when both indices fall off the same end or the tokens agree, and 2 exactly when both are inside and differ |
| Context.DiffAtSymmetric | tm/tm.go:66-94 | swapping the two sides gives the same neighbour cost |
| Context.NormalNotEscaped | tm/tm.go:96-154 | outside quotes the scanner is never in the escaped state |
| Context.EscapeNext | tm/tm.go:127-131 | inside quotes a `\` escapes the following token: that token keeps its right check and the scanner returns to the same quote unescaped |
| Context.LeftFlagFalse | tm/tm.go:107-151 | the left check of a token is off exactly when it is a `"` or `'` opening a string from the normal state |
| Context.RightFlagFalse | tm/tm.go:107-151 | the right check is off exactly on `,` or `)` in the normal state or on an unescaped closing quote |
| Context.ScanToken | tm/tm.go:107-151 | one loop step computes the next scanner state and both flags of the token |
| Context.NearChecks | tm/tm.go:96-154 | both flag arrays have the input's length and hold the left and right check of every token |
| Context.TokenSubCost | tm/tm.go:263-274 | equal tokens cost between 0 and 4, unequal tokens cost `len+len+5`, and a cost below 5 means equal tokens |
| Context.TokenSubCostZero | tm/tm.go:263-274 | equal tokens cost 0 exactly when neither counted neighbour differs |
| Context.TokenIndelCost | tm/tm.go:275-287 | dropping or adding a token costs 0 exactly for a single space and `len+2` otherwise |
| Context.TokenCosts | tm/tm.go:263-287 | the cost table handed to the library gives those substitution, deletion and insertion costs on every index |
| Brackets.Classes | tm/tm.go:157-191 | each token is classified by the bracket it is, if any |
| Brackets.PairsProper | tm/tm.go:157-191 | the pairing links only an opener to a later closer of the same kind, both ways (`pairs[pairs[i]] == i`), so non-brackets and closers without an opener stay -1; the openers left unpaired are exactly those still on the stacks |
| Brackets.PairsNearest | tm/tm.go:157-191 | each closer is paired with the nearest opener of its kind still open |
| Brackets.FindPairs | tm/tm.go:157-191 | the three-stack loop returns the pairing: one entry per token, proper and nearest-opener |
| Brackets.NoMatchBetween | tm/tm.go:193-204 | the answer is true exactly when no entry strictly between the two positions is matched |
| Brackets.ProperIsInvolution | tm/tm.go:157-191 | a proper pairing is a symmetric partial involution |
| Brackets.OrderMirror | tm/tm.go:209-258 | if one alignment array is order-preserving, so is its inverse |
| Brackets.RewriteValid | tm/tm.go:219-231 | a rewrite keeps the arrays mutually inverse |
| Brackets.RewriteOrder | tm/tm.go:219-231 | a rewrite guarded by `noMatchBetween` keeps the alignment order-preserving |
| Brackets.RewriteCount | tm/tm.go:219-231 | a rewrite keeps the number of matched tokens on both sides |
| Brackets.RewriteProgress | tm/tm.go:219-231 | a rewrite strictly shrinks the set of matched brackets whose bracket partner is not matched with their match's bracket partner, which bounds the number of rounds |
| Brackets.RewriteKept | tm/tm.go:219-231 | a rewrite keeps every pair between two non-bracket tokens, every pair it creates links two bracket tokens, and every pair it drops has a bracket token at one end |
| Brackets.RoundKept | tm/tm.go:209-258 | a round keeps the pairs between non-bracket tokens when each of its two sweeps does |
| Brackets.TryRewrite | tm/tm.go:219-231 | one inner step keeps the alignment valid, order-preserving and of equal size; it rewrites exactly when a rewrite applies at that index, and then relinks `j` to `l`, unlinks the old partner of `l` and leaves every other entry as it was; otherwise neither array changes |
| Brackets.Sweep | tm/tm.go:219-231 | one sweep keeps the alignment valid, order-preserving and of equal size, never adds an inconsistent token, reports a change exactly when it made progress, and otherwise leaves both arrays unchanged with no rewrite left on that side; every pair it creates links two bracket tokens, and every pair it drops has a bracket token at one end |
| Brackets.SweepBoth | tm/tm.go:219-256 | both sweeps together keep the alignment and the match counts of both sides, and either make progress or leave the arrays at a fixed point; every pair they create links two bracket tokens, and every pair they drop has a bracket token at one end |
| Brackets.AlignPairs | tm/tm.go:209-258 | the fix-up loop terminates, even on unbalanced brackets, with the arrays still mutually inverse, order-preserving and with the same number of matches, and no rewrite left to apply; pairs between non-bracket tokens are as they were, every pair it creates links two bracket tokens, and every pair it drops has a bracket token at one end |
| TokenMatch.LeftFlags | tm/tm.go:96-154 | the left checks as a value, one per token |
| TokenMatch.MatchTokens | tm/tm.go:260-293 | the token alignment is valid, order-preserving, as large as the library's, and stable under the bracket fix-up; it keeps every library pair between two non-bracket tokens, every pair it adds links two bracket tokens, and every library pair it drops has a bracket token at one end |
| TokenMatch.DiffOfStrings | tm/tm.go:295-300 | equal strings score 0, and with a non-negative scale the score lies in `[0, mx]` |
| TokenMatch.DiffOfStringsSymmetric | tm/tm.go:295-300 | the score does not depend on argument order |
| TokenMatch.DiffOfStringsZero | tm/tm.go:295-300 | with a scale at least the longer length, the score is 0 exactly for equal strings |
| TokenMatch.IsKeywords | tm/tm.go:305-312 | the flags have the input's length and are true exactly on "if", "for", "return", "switch", "case", "select" and "go" |
| TokenMatch.FlagCosts | tm/tm.go:322-338 | a token substitution costs 0 on equal tokens and 50 otherwise; dropping or adding a keyword costs 2 and any other token 1 |
| TokenMatch.TokenDistanceBounds | tm/tm.go:322-338 | the token distance lies between 0 and twice the total token count |
| TokenMatch.TokenDistanceZero | tm/tm.go:322-338 | the token distance is 0 exactly for equal lines |
| TokenMatch.SourceLineDiffBounds | tm/tm.go:314-341 | equal lines score 0 and every score lies in `[0, 2*mx]` |
| TokenMatch.SourceLineDiffSymmetric | tm/tm.go:314-341 | the score does not depend on argument order |
| TokenMatch.SourceLineDiffZero | tm/tm.go:314-341 | with a scale at least the total length, the score is 0 exactly for equal lines |
| TokenMatch.CalcDiffOfSourceLine | tm/tm.go:314-341 | the method returns the line score |
| Alignment.EditDistanceAtMostDeleteInsert | cmd/godiff.go:187 | an edit distance never exceeds deleting everything and inserting everything, and equals that when one side is empty |
| Alignment.EditDistanceSwap | tm/tm.go:322-338 | exchanging the sides, with the cost table transposed, keeps the distance |
| Alignment.EditDistanceZero | tm/tm.go:322-338 | with positive deletion and insertion costs and non-negative substitution costs, a zero distance means equal lengths and a zero-cost diagonal |
| Alignment.StringDistanceBounds | tm/tm.go:299 | the character distance lies between the length difference and the longer length |
| Alignment.StringDistanceSymmetric | tm/tm.go:299 | the character distance does not depend on argument order |
| Alignment.MatchedCountsAgree | tm/tm.go:209-258 | mutually inverse arrays have equally many matched entries |
| Greedy.Tables | cmd/godiff.go:63-148 | the callbacks seen as a cost table agree with `diffF`, `delCost` and `insCost` on every index |
| Greedy.FirstZero | cmd/godiff.go:70-87 | the search finds the first unmatched right item at zero cost, or -1 when none is left |
| Greedy.Pass1 | cmd/godiff.go:64-87 | after the first pass over the first `k` left items the arrays are mutually inverse and hold only valid indices or -1; left items not yet reached are unmatched, and right items are held only by items already reached |
| Greedy.Pass1TakesFirstZero | cmd/godiff.go:70-87 | each left item, in index order, is paired with the first still-unmatched right item of zero cost, if any |
| Greedy.ScanFindsFirstCheapest | cmd/godiff.go:107-123 | the selection picks a free pair of smallest adjusted cost, the first in row-major order on ties, and picks nothing exactly when no pair is free |
| Greedy.Phase2 | cmd/godiff.go:106-132 | the second phase keeps the sizes of both arrays and leaves them a valid, mutually inverse matching |
| Greedy.Phase2Profitable | cmd/godiff.go:106-132 | the second phase keeps the pairs it starts with, adds only pairs with `diffF - delCost - insCost < 0`, and stops only when no free pair has a negative adjusted cost |
| Greedy.Phase2Rounds | cmd/godiff.go:106-132 | each round adds exactly one pair, so there are at most `min(lenA, lenB)` rounds |
| Greedy.Phase2Grows | cmd/godiff.go:106-132 | every pair at the end was there at the start or joins two items that were free at the start, and items free at the end were free at the start |
| Greedy.Greedy | cmd/godiff.go:63-148 | the final matching is valid and mutually inverse, with one entry per item on each side |
| Greedy.TwoByTwoMatch | godiff_test.go:37-52 | costs of 40 except (1,0) = 1, with deletion and insertion costing 10, give `matA = [-1, 0]` and `matB = [1, -1]` |
| Greedy.FirstPass | cmd/godiff.go:64-87 | the nested loops compute the first-pass matching and record the costs they evaluated in `diffMat` |
| Greedy.Adjust | cmd/godiff.go:89-104 | each free cell holds its adjusted cost `diffF - delCost - insCost`, bounded by the returned maximum |
| Greedy.Select | cmd/godiff.go:107-123 | the scan returns the first cheapest free pair and its adjusted cost; whether it pays off is decided by `SecondPhase` |
| Greedy.SecondPhase | cmd/godiff.go:106-132 | the selection loop computes the second-phase matching |
| Greedy.TotalCost | cmd/godiff.go:134-146 | the cost is `delCost` over unmatched left items plus `diffF` over matched pairs plus `insCost` over unmatched right items |
| Greedy.GreedyMatch | cmd/godiff.go:63-148 | the arrays are the greedy matching and the cost is its total; `diffMat` is `lenA x lenB`, each cell 0 or its `diffF`, and matched cells hold their cost |
| Lines.Cat | cmd/godiff.go:31-37 | the result starts with `a`, ends with `b`, and has the separator in between only when both sides are non-empty |
| Lines.CatAssociative | cmd/godiff.go:31-37 | joining with a fixed separator is associative |
| Lines.CatSingleLine | cmd/godiff.go:31-37 | joining single lines gives a single line |
| Lines.CatLines | cmd/godiff.go:229-236 | when both sides are non-empty the seam lines merge into one, and otherwise the sides are concatenated |
| Lines.CatLinesText | cmd/godiff.go:229-236 | as text, the result is the first text, the separator if both seam lines are non-empty, then the second text |
| Lines.CatLinesSingle | cmd/godiff.go:229-236 | joining sequences of single lines gives single lines |
| Lines.CatLinesInPlace | cmd/godiff.go:229-236 | the result is the joined lines, and `b[0]` is overwritten with the merged seam line when both sides are non-empty |
| Lines.AppendLines | cmd/godiff.go:247-254 | `appendLines` computes the same join; of the variadic lines only the first changes, and only when both sides are non-empty, to the merged seam line |
| Lines.IndentFrom | cmd/godiff.go:256-272 | lines from index k on get the indent in front, the rest are unchanged |
| Lines.InsertIndent | cmd/godiff.go:256-262 | every line is indented in place, and the array is returned |
| Lines.InsertIndent2 | cmd/godiff.go:264-272 | every line but the first is indented in place, and the array is returned |
| Lines.IndentRestText | cmd/godiff.go:264-272 | as text, indenting every line but the first is inserting the indent after every line break |
| Lines.IndentAllText | cmd/godiff.go:256-262 | as text, indenting every line is the indent followed by the text with the indent after every line break |
| Fragments.ISqrt | cmd/godiff.go:215 | the integer square root is the floor of the square root |
| Fragments.DampMonotone | cmd/godiff.go:215 | the square-root damping of a function body is monotone |
| Fragments.DampSubadditive | cmd/godiff.go:215 | damping a sum costs at most the sum of the dampings |
| Fragments.Weight | cmd/godiff.go:205-227 | every weight is non-negative |
| Fragments.SumWeightsPart | cmd/godiff.go:216-219 | each part weighs at most the sum of the parts |
| Fragments.PointeeWeight | cmd/godiff.go:223-225 | a pointer weighs at least 50 more than its pointee |
| Fragments.FuncWeight | cmd/godiff.go:211-215 | a function weighs its first four parts plus the damped weight of its body |
| Fragments.LeafDiffBounds | cmd/godiff.go:470-482 | two leaves cost between 0 and the sum of their weights |
| Fragments.LeafDiffSymmetric | cmd/godiff.go:470-482 | leaf cost does not depend on order |
| Fragments.LeafDiffSame | cmd/godiff.go:470-482 | leaves with the same source cost 0 |
| Fragments.LeafDiffBlank | cmd/godiff.go:470-482 | two leaves that are blank after trimming cost 0 |
| Fragments.PartCostSums | cmd/godiff.go:438-444 | dropping or adding parts costs their weights |
| Fragments.Diff | cmd/godiff.go:395-407 | a nil fragment against another costs the sum of the two weights, and two nils cost 0 |
| Fragments.DiffNonNegative | cmd/godiff.go:395-447 | every cost is non-negative |
| Fragments.DiffSelf | cmd/godiff.go:395-447 | a fragment compared with itself costs 0 |
| Fragments.DiffSymmetric | cmd/godiff.go:395-447 | cost does not depend on order |
| Fragments.DiffAtMostWeights | cmd/godiff.go:187 | no cost exceeds the sum of the two weights |
| Fragments.FuncDiff | cmd/godiff.go:427-435 | two functions cost the sum of the costs of their first four parts plus the damped cost of their bodies |
| Fragments.PointerRules | cmd/godiff.go:410-419 | two pointers cost what their pointees cost; a pointer against a non-pointer fragment costs the pointee against it plus 50, on either side, and with leaves unwrapped a leaf is treated the same way |
| Fragments.LeafAgainstPointer | cmd/godiff.go:470-482 | as written, a leaf against a pointer costs the sum of the weights, whatever the pointee |
| Fragments.IntAgainstPointer | cmd/godiff.go:470-482 | as written, `int` against `*int` costs 150 |
| Fragments.StructAgainstPointer | cmd/godiff.go:410-419 | `struct{}` against `*struct{}` costs 50 |
| Fragments.IntAgainstPointerUnwrapped | cmd/godiff.go:410-419 | with leaves unwrapped, `int` against `*int` costs 50 |
| Fragments.LeafLines | cmd/godiff.go:496-505 | a leaf's source gives at least one line |
| Fragments.LeafText | cmd/godiff.go:496-505 | as text, a leaf's lines are its source with the indent after every line break |
| Fragments.SourceLines | cmd/godiff.go:496-505 | a leaf's lines, joined, are its source with the indent after every line break |
| Fragments.SourceLinesSingle | cmd/godiff.go:292-393 | every template yields lines without a line break inside |
| Fragments.SourceLinesIndent | cmd/godiff.go:292-393 | as the interface comment at line 191 promises, every line after the first starts with `indent`, for every fragment without a bare `DF_NONE` node |
| Fragments.StructText | cmd/godiff.go:351-364 | as text, a non-empty struct is `struct {`, each member on lines of its own opened by the deeper indent, and `}` at `indent` |
| Fragments.MembersText | cmd/godiff.go:356-362 | each struct member that prints at all adds a line break, the deeper indent and its own text; an empty one adds nothing |
| Fragments.ConstGroupText | cmd/godiff.go:302-312 | as text, a group of several constants is `const(`, each spec on lines of its own opened by the deeper indent, and `)` at `indent` |
| Fragments.IndentedText | cmd/godiff.go:307-309 | each spec of a group or statement of a block adds a line break, the deeper indent and its own text |
| Fragments.FuncText | cmd/godiff.go:320-329 | as text, a function is the header of its receiver, name, parameters, results and body |
| Fragments.HeaderText | cmd/godiff.go:320-329 | the function template's seam joins give `func`, the receiver in ` (...)`, the name after a space, `(params)`, then results and body each after a space when they start with text; the body's space is dropped after a multi-line result list whose last line is empty |
| Fragments.PointerText | cmd/godiff.go:365-367 | a pointer's source is `*` followed by its pointee's source |
| Fragments.PairText | cmd/godiff.go:368-369 | a name and its type are joined by one space at the seam |
| Fragments.OneLine | cmd/godiff.go:274-290 | `oneLine` of a declaration gives a single line |
| Fragments.SummaryShape | cmd/godiff.go:280-289 | the summary of several lines starts with the first line and ends with the line count in decimal and ` lines)`; one line is shown as it is; no lines give the empty string |
| LineDiff.HeadTails | cmd/godiff.go:1166-1178 | `0 <= start <= orgEnd <= len(org)`, `start <= newEnd <= len(new)`, and both tails have equal length |
| LineDiff.HeadTailsFacts | cmd/godiff.go:1166-1178 | the heads agree up to `start`, the tails after `orgEnd`/`newEnd` agree, and neither can be extended |
| LineDiff.OffsetHeadTails | cmd/godiff.go:1166-1178 | the counter loops compute the head and tail bounds |
| LineDiff.IndelCost | cmd/godiff.go:1221-1224 | dropping or adding a line costs at least 1, and exactly 1 when the line is blank after trimming |
| LineDiff.LineDistanceBounds | cmd/godiff.go:1206-1216 | the line distance lies in `[0, 2*mx]` for `mx = (len+len)*150`, in fast mode too |
| LineDiff.SubstCost | cmd/godiff.go:1197-1220 | a substitution costs 0 exactly for identical lines, 1 exactly for lines that differ but agree after trimming, and otherwise between 16 and `285 * (trimmed lengths) + 1` |
| LineDiff.SubstCostSymmetric | cmd/godiff.go:1197-1220 | substitution cost does not depend on order |
| LineDiff.LineTablesCosts | cmd/godiff.go:1197-1224 | the cost table of the window gives the substitution and indel costs on every index, offset by `start` |
| LineDiff.MovesVisit | cmd/godiff.go:1227-1256 | the walk visits every original and every new index exactly once, in order |
| LineDiff.MovesAligned | cmd/godiff.go:1227-1256 | each step of the walk takes the switch case that applies at its position |
| LineDiff.RefineAllOk | cmd/godiff.go:1240-1254 | a pair inside the window is reported as the same exactly when its lines agree after trimming, and as a change otherwise |
| LineDiff.WalkStepsOk | cmd/godiff.go:1227-1256 | the reported steps cover both inputs once, in order, and pair lines only as the alignment does |
| LineDiff.Walk | cmd/godiff.go:1227-1256 | the loop reports those steps and returns deletions + insertions + 2 x changes |
| LineDiff.DiffEnds | cmd/godiff.go:1185-1190 | the window lies inside both inputs, with tails of equal length |
| LineDiff.DiffWindowGood | cmd/godiff.go:1185-1195 | the lines outside the window are common to both inputs, the alignment inside is valid, and inputs of at most 1024 x 1024 line pairs are not cut |
| LineDiff.LineDiffStepsOk | cmd/godiff.go:1180-1257 | every line of both inputs is reported once, in order; a pair is the same exactly when its lines agree after trimming, and a change otherwise |
| LineDiff.AlignWindow | cmd/godiff.go:1185-1224 | the first half of `DiffLinesTo` builds the window and the library's alignment of it |
| LineDiff.DiffLinesTo | cmd/godiff.go:1180-1257 | the reported steps are the line diff, and the count is its number of operation lines; two empty inputs give no steps and a count of 0 |
| Output.FoldSameOk | cmd/godiff.go:1147-1164 | a same-run covers exactly its lines; runs of at most 3 are printed whole; longer runs keep their first and last lines and fold only two or more lines |
| Output.LineOutput.constructor | cmd/godiff.go:1124-1126 | a fresh outputter has no pending and no printed lines |
| Output.LineOutput.End | cmd/godiff.go:1147-1164 | `end` prints the folded pending run and empties the buffer |
| Output.LineOutput.OutputSame | cmd/godiff.go:1143-1145 | an unchanged line is only buffered |
| Output.LineOutput.OutputDel | cmd/godiff.go:1133-1136 | a deletion flushes the buffer, then prints the deleted line |
| Output.LineOutput.OutputIns | cmd/godiff.go:1128-1131 | an insertion flushes the buffer, then prints the inserted line |
| Output.LineOutput.OutputChange | cmd/godiff.go:1138-1141 | a change flushes the buffer, then prints the changed pair |
| Output.RenderOps | cmd/godiff.go:1227-1257 | the deletions, insertions and changes printed are exactly the operations of the steps, in order |
| Output.Render | cmd/godiff.go:1227-1257 | the printed output accounts for every pending unchanged line, every unchanged line and every operation line exactly once (a change counts two) |
| Output.Feed | cmd/godiff.go:1236-1254 | one walk step flushes or buffers as the outputter dictates |
| Output.Replay | cmd/godiff.go:1227-1257 | feeding the steps and calling `end` prints the rendering of the steps |
| Output.DiffLines | cmd/godiff.go:1262-1264 | `DiffLines` prints the rendering of the line diff and returns its count |
| Output.FoldBlock | cmd/godiff.go:981-997 | a shown block takes at most `2*gap+1` events: a short block is shown line by line, a long one as its first `gap` lines, the fold marker counting the hidden lines, and its last `gap` lines |
| Output.FoldBlockOk | cmd/godiff.go:981-997 | a folded block covers exactly its lines and folds only two or more lines |
| Output.ShowLines | cmd/godiff.go:1028-1044 | the two loops show the first and last `gap` lines of a long block, with a fold marker between them |
| Output.SaverCount | godiff_test.go:135-160 | with the test saver, deleted plus inserted lines equal the count, so a count of 2 with one insertion means one deletion |
| Output.ReportOrder | cmd/godiff.go:1299-1331 | the report loops produce the reports in the order of the declarations |
| Output.Additions | cmd/godiff.go:1314-1318 | the additions reported on the way are unmatched new declarations inside the range passed |
| Output.ReportFrom | cmd/godiff.go:1308-1330 | every report names a declaration that exists: a removed one is an unmatched old declaration, an added one an unmatched new declaration, and a modified pair is matched and costs more than 0 |
| Output.ReportsAdded | cmd/godiff.go:1341-1367 | the added declarations reported are exactly the unmatched new ones, in order |
| Output.ReportsRemoved | cmd/godiff.go:1379-1398 | the removed declarations reported are exactly the unmatched old ones, in order |
| Output.ReportsModified | cmd/godiff.go:1307-1330 | the modifications reported are exactly the matched pairs of positive cost, in order |

## Left out

- The edit-distance library `go-algs/ed` is not part of this model. Its alignment is a parameter constrained by `Alignment.IsAligner`, and its distance is the minimum-cost recursion. `ed.String` is taken to be unit-cost Levenshtein distance. Tie-breaking is unknown, so the concrete arrays expected in `tm/tm_test.go` are not reproduced.
- Fragments.Weight, Fragments.FuncDiff: the floating-point `math.Sqrt(x/100)*100` is modelled as the exact integer square root of `100*x`. Floating-point rounding is not modelled.
- Text.TrimSpace: only ASCII white space is trimmed. Lengths are counted in characters, which equals Go's byte length only on ASCII text.
- The format string passed to `DiffLinesTo` and `DiffLines` is left out. The model reports the lines themselves, as the `%s` format every caller passes does.
- Colours, `changeColor`/`resetColor` and every `Show*` printer are left out. What they would print is returned as `Output.Event` and `Output.Report` values.
- `ShowDiffLine`, `ShowDelTokens`, `ShowInsTokens` and `DiffLineSet` are left out. They colour tokens or sort lines with `sort.Strings` and print, and they make no decision beyond those printed here.
- The `LineOutputer` interface is left out. Only the `lineOutput` implementation is a class. The test's `OutputSaver` is modelled as the functions `SavedDeleted`/`SavedInserted`.
- `Fragment.showDiff`/`StringFrag.showDiff`, `DiffPackage`, `DiffImports` and `Diff` are left out: they only print.
- The Go front end is left out: `Parse`, `FileInfo.collect`, and the `new*` constructors over `go/ast`. Fragments are built directly as `Fragments.Frag` values.
- The command line, `Exec`, `ExecWriter` and `readLines` are left out: they are I/O.
- Output.ShowLines: `gapLines` is a natural number. The callers pass 2, and a negative gap is not modelled.
- Output.ReportOrder: it returns the report order. It does not show each declaration's own diff.
- LineDiff.DiffLinesTo: it returns the steps. The outputter calls are replayed from them by `Output.Replay`.
- Fragments.SourceLinesIndent: stated only for fragments without a `DF_NONE` node. Such a node appends the lines of its parts as they are, so the first line of its second part does not start with the indent.
- Fragments.OneLine: it models `Fragment.oneLine` and `StringFrag.oneLine`. A nil `*StringFrag` is not distinguished from the nil `*Fragment`.

## Findings

| source | as written | input that shows it | evidently intended | confidence | as-written member | corrected member |
|---|---|---|---|---|---|---|
| cmd/godiff.go:470-482 | `StringFrag.calcDiff` never looks inside a pointer, and `Fragment.calcDiff` reaches its pointer rules only when both sides are `*Fragment`. So a leaf against a pointer costs the sum of the weights, the most any pair can cost. | `int` (a leaf of weight 50) against `*int` costs 150, while `struct{}` against `*struct{}` costs 50 | a pointer against a leaf costs its pointee against the leaf plus 50, as it does against any other fragment, so `int` against `*int` costs 50 | medium, not executed | Fragments.IntAgainstPointer | Fragments.IntAgainstPointerUnwrapped |

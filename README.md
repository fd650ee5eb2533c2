# mcp-logic core, modelled in Dafny

mcp-logic is an MCP server that gives a language model first-order logic
tools. It hands formulas to the Prover9 theorem prover and the Mace4 model
finder. It checks formula syntax before they are sent, and it builds
category-theory axioms and diagram-commutativity goals as Prover9 text.
This project models the parts of that server that decide what is
sent to the tools and what is reported back:

- `SyntaxValidation` (`syntax_validator.dfy`) covers the syntax validator.
  The class `SyntaxValidator` keeps its `errors` and `warnings` lists as
  fields that its check methods extend. Each check is a loop proved against
  a specification function. The file also has the batch
  `ValidateFormulas` and the help lookup `SyntaxHelp`.
- `SyntaxProperties` (`syntax_properties.dfy`) holds what those
  specification functions mean. A formula is valid exactly when its
  parentheses balance, every quantifier is followed by a parenthesised
  scope, no reserved word is called like a predicate, and `()` does not
  occur. The verdict does not depend on the order the quantifier set is
  visited in. Trailing dots are ignored.
- `Mace4` (`mace4.dfy`) covers the Mace4 wrapper:
  - the input file it writes, and how that file splits back into its lines;
  - the model parser, which finds the last `DOMAIN SIZE` and cuts out the
    interpretation block;
  - the classification of a Mace4 run;
  - `find_model` and `find_counterexample`.
- `Prover9` (`prover9.dfy`) covers the server's Prover9 engine:
  - the input file;
  - proof extraction between `PROOF =` and `====`, both as written and
    as evidently intended (see Findings);
  - the classification of a Prover9 run, including the `list index out of
    range` failure when a run says `THEOREM PROVED` but prints no proof;
  - the `check-well-formed` verdict.
- `Categorical` (`categorical.dfy`) covers the categorical helpers:
  - the fixed axiom lists;
  - the functor and naturality templates, with their lower-casing;
  - composition of a morphism path into `compose(..)` facts;
  - the premises and conclusion that state two paths commute.
- `Text` (`text.dfy`) gives Python's string operations as recursive
  functions: `find`, `in`, `count`, `split`, `join`, `strip`, `rstrip('.')`,
  `lower`, `str(int)` and `int(str)`. It also proves the lemmas used
  throughout, such as `split` undoing `join` and `int(str(i)) == i`.
- `Subprocess` (`subprocess.dfy`) states what a tool run can end in:
  - it completes with standard output and standard error;
  - it times out;
  - it raises an exception.

A run's outcome is a parameter of every operation that would start a
process.

Two places where the code is followed rather than its description:

- The parenthesis check reports the index of the leftmost unmatched `(`,
  not the end of the input.
- `_run_prover` only looks for `Fatal error` in standard error, while the
  Mace4 wrapper also looks in standard output.

## Model

| member | source | states |
|---|---|---|
| SyntaxValidation.SyntaxValidator.constructor | src/mcp_logic/syntax_validator.py:19-21 | a new validator starts with no errors and no warnings |
| SyntaxValidation.SyntaxValidator.Validate | src/mcp_logic/syntax_validator.py:23-53 | resets both lists, runs the five checks on the formula stripped of trailing dots, and returns `valid` (true exactly when no error was found), the errors and the warnings, all equal to the `Validation` specification |
| SyntaxValidation.SyntaxValidator.CheckBalancedParens | src/mcp_logic/syntax_validator.py:55-68 | appends one "unmatched closing" error per `)` met with an empty stack, in scan order, then at most one "unmatched opening" error for the bottom of the stack; warnings untouched |
| SyntaxValidation.SyntaxValidator.CheckQuantifiers | src/mcp_logic/syntax_validator.py:70-89 | appends, quantifier by quantifier in the set's visiting order, the scope errors and variable-case warnings of every match of `\b<q>\s+(\w+)` |
| SyntaxValidation.SyntaxValidator.CheckQuantifier | src/mcp_logic/syntax_validator.py:75-89 | for one quantifier, an error for each match not followed by `(` once whitespace is skipped, and a warning for each variable not starting in lower case |
| SyntaxValidation.SyntaxValidator.CheckOperators | src/mcp_logic/syntax_validator.py:91-100 | adds warnings only: a doubled `&` or a doubled vertical bar, and more than one `->` with no parenthesis at all |
| SyntaxValidation.SyntaxValidator.CheckNaming | src/mcp_logic/syntax_validator.py:102-122 | for every `name(` call, an error when the name is reserved and not a quantifier, and a warning when it starts with a capital letter |
| SyntaxValidation.SyntaxValidator.CheckCommonMistakes | src/mcp_logic/syntax_validator.py:124-139 | warnings for `->` or `<->` written between word characters and for quote characters; an error for an empty `()` |
| SyntaxValidation.ScopedAtIsLStrip | src/mcp_logic/syntax_validator.py:84 | the scope test is exactly `formula[end:].lstrip().startswith('(')` |
| SyntaxValidation.AllValidAppend | src/mcp_logic/syntax_validator.py:156-164 | the batch is valid after one more formula exactly when it was valid before and that formula is valid |
| SyntaxValidation.ValidateFormulas | src/mcp_logic/syntax_validator.py:142-164 | one result per formula, in order, each equal to what `validate` gives for it; the batch is valid exactly when every formula is |
| SyntaxProperties.DepthIsNetAboveLowest | src/mcp_logic/syntax_validator.py:55-68 | the stack height after a prefix is its net count of `(` minus `)` less the lowest net count reached, which is never positive |
| SyntaxProperties.LowestNetIsMinimum | src/mcp_logic/syntax_validator.py:55-68 | that lowest value is the minimum of the net counts over all prefixes and is reached by one of them |
| SyntaxProperties.ClosingErrorsCount | src/mcp_logic/syntax_validator.py:61-63 | the number of "unmatched closing" errors equals how far the net count dips below zero |
| SyntaxProperties.ClosingErrorsExactly | src/mcp_logic/syntax_validator.py:61-63 | index `k` is reported as unmatched closing iff `k` holds `)` and no `(` is open before it |
| SyntaxProperties.ClosingErrorsAscending | src/mcp_logic/syntax_validator.py:57-63 | the unmatched-closing errors come in strictly increasing position order |
| SyntaxProperties.BottomStaysOpen | src/mcp_logic/syntax_validator.py:57-60 | while the stack is not empty, its bottom is a `(` opened at depth zero and never closed since |
| SyntaxProperties.UnmatchedOpeningIsLeftmost | src/mcp_logic/syntax_validator.py:65-67 | the reported unmatched `(` is never closed and no earlier `(` is unmatched; with an empty stack no `(` is unmatched |
| SyntaxProperties.ParenErrorsEmptyIffBalanced | src/mcp_logic/syntax_validator.py:55-68 | the parenthesis check is silent exactly when the formula is balanced in the textbook sense |
| SyntaxProperties.ScopeErrorsEmptyIff | src/mcp_logic/syntax_validator.py:80-86 | no scope error for a quantifier iff each of its matches is followed by `(` |
| SyntaxProperties.ScopeErrorsExactly | src/mcp_logic/syntax_validator.py:80-86 | a scope error for a variable is reported iff some match binding that variable lacks its `(` |
| SyntaxProperties.QuantifierErrorsEmptyIff | src/mcp_logic/syntax_validator.py:70-89 | no quantifier error iff every `all` and `exists` match in the formula is scoped |
| SyntaxProperties.QuantifierOrderIrrelevant | src/mcp_logic/syntax_validator.py:74 | visiting `exists` or `all` first yields the same errors and warnings up to order |
| SyntaxProperties.NameErrorsEmptyIff | src/mcp_logic/syntax_validator.py:110-122 | no naming error iff every called name is a quantifier or not reserved |
| SyntaxProperties.KindsAreSeparate | src/mcp_logic/syntax_validator.py:23-139 | every error is an unmatched parenthesis, an unscoped quantifier, a reserved call or an empty `()`, and no warning is one of those |
| SyntaxProperties.ValidityExactly | src/mcp_logic/syntax_validator.py:23-53 | a formula is valid iff, without its trailing dots, it is balanced, all quantifiers are scoped, no reserved word is called and `()` does not occur |
| SyntaxProperties.ValidIffNoErrors | src/mcp_logic/syntax_validator.py:53 | `valid` is the emptiness of the error list |
| SyntaxProperties.VerdictOrderIrrelevant | src/mcp_logic/syntax_validator.py:74 | the verdict is the same whichever way the quantifier set is iterated, and the findings agree up to order |
| SyntaxProperties.TrailingDotsIgnored | src/mcp_logic/syntax_validator.py:36 | appending any number of dots to a formula changes nothing in its validation |
| SyntaxValidation.SyntaxHelp | src/mcp_logic/syntax_validator.py:168-191 | the help text for a topic: one of three fixed messages, or the fallback; its properties are stated by `SyntaxHelpFallback` |
| SyntaxProperties.SyntaxHelpFallback | src/mcp_logic/syntax_validator.py:168-191 | help exists for exactly `quantifier`, `implication` and `parentheses`; every other topic gets the fallback text |
| SyntaxProperties.UnbalancedExample | tests/test_enhancements.py:53 | `all x (P(x) -> Q(x)` is invalid and its first error is the unmatched `(` at index 6 |
| SyntaxProperties.NestedQuantifierExample | src/mcp_logic/syntax_validator.py:80-86 | `all x all y (p(x,y))` is rejected because `x` is not followed by a parenthesised scope |
| Mace4.HeaderLines | src/mcp_logic/mace4_wrapper.py:53-57 | one `assign(domain_size, n).` line for a given size, else the two lines for the 2..10 search |
| Mace4.CreateInputContent | src/mcp_logic/mace4_wrapper.py:39-78 | the text written is the newline join of the header, settings, dotted premises, list end and optional negated goal |
| Mace4.AppendPremises | src/mcp_logic/mace4_wrapper.py:65-66 | the loop appends each premise in order, with a final dot added when it has none |
| Mace4.AppendGoal | src/mcp_logic/mace4_wrapper.py:71-76 | for a present, non-empty goal, appends `formulas(goals).`, the negated goal with its trailing dots dropped, and `end_of_list.`; otherwise appends nothing |
| Mace4.InputLayout | src/mcp_logic/mace4_wrapper.py:50-76 | the file has header + premises + 5 lines, plus 3 for a non-empty goal, in this order: the domain-size header, the time limit, a blank line and `formulas(assumptions).`, the dotted premises, the list end and a blank line, then the goal section |
| Mace4.GoalDotsIgnored | src/mcp_logic/mace4_wrapper.py:74 | trailing dots on the goal do not change the file |
| Mace4.InputReadsBack | src/mcp_logic/mace4_wrapper.py:78 | when no premise or goal holds a newline, splitting the file on newlines gives back exactly its lines |
| Mace4.ModelOf | src/mcp_logic/mace4_wrapper.py:131-167 | the parsed model: the last reported domain size and the raw interpretation; specified through `DomainSizeIsLast` and `RawInterpretationShape` |
| Mace4.InterpretationBlock | src/mcp_logic/mace4_wrapper.py:152-156 | the text from the first `interpretation(` through the first `end_of_list` after it, if any; specified through `InterpretationBlockShape` |
| Mace4.RawInterpretation | src/mcp_logic/mace4_wrapper.py:157-165 | the stripped block followed by its signature lines, or empty; specified through `RawInterpretationShape` |
| Mace4.ScanDomainSize | src/mcp_logic/mace4_wrapper.py:143-149 | the loop yields the size on the last `DOMAIN SIZE` line whose last word parses as an integer |
| Mace4.DomainSizeIsLast | src/mcp_logic/mace4_wrapper.py:143-149 | no size iff no line reports one; otherwise the size comes from a reporting line after which no line reports one |
| Mace4.AppendSignatures | src/mcp_logic/mace4_wrapper.py:161-165 | appends a newline and the stripped line for every line of the block starting with `function(` or `relation(` |
| Mace4.ParseModel | src/mcp_logic/mace4_wrapper.py:131-167 | the parsed model is the domain size and raw interpretation of the `ModelOf` specification |
| Mace4.InterpretationBlockShape | src/mcp_logic/mace4_wrapper.py:152-156 | a block exists iff `interpretation(` occurs and `end_of_list` follows it; the block starts with the first `interpretation(`, ends with the first `end_of_list` after it, and holds no earlier `end_of_list` |
| Mace4.RawInterpretationShape | src/mcp_logic/mace4_wrapper.py:152-165 | the raw interpretation is empty iff there is no block; otherwise it is the whole block, which the strip leaves untouched, followed by the signature lines of the block's lines |
| Mace4.SignaturesKept | src/mcp_logic/mace4_wrapper.py:160-164 | after the block, each line that stripped starts with `function(` or `relation(` appears again as a newline and the stripped line, right after those of the lines before it |
| Mace4.Classify | src/mcp_logic/mace4_wrapper.py:107-124 | the result record of `_run_mace4` for a run; specified through `ClassificationOrder`, `StderrOnlyForErrors`, `InputErrorText` and `ClassificationTotal` |
| Mace4.ClassificationOrder | src/mcp_logic/mace4_wrapper.py:108-117 | a completed run is `model_found` iff both markers occur, `no_model_found` iff not that and a search-end marker occurs, an input error iff neither and `Fatal error` occurs in either stream, otherwise `unknown` |
| Mace4.StderrOnlyForErrors | src/mcp_logic/mace4_wrapper.py:108-115 | standard error only matters when standard output has no verdict: when it reports a model (`DOMAIN SIZE` and `interpretation(`) or a search end (`SEARCH FAILED` or `SEARCH TERMINATED`), the record does not depend on standard error |
| Mace4.InputErrorText | src/mcp_logic/mace4_wrapper.py:115 | the text of an input error is never empty: it is standard error when there is any, else standard output |
| Mace4.ClassificationTotal | src/mcp_logic/mace4_wrapper.py:107-124 | every run gets one of the five result tags; `timeout` iff the run timed out; a raised exception becomes an error carrying its message |
| Mace4.FindModel | src/mcp_logic/mace4_wrapper.py:169-180 | the input has no goal section and the result is the classification of the run with the 60-second timeout |
| Mace4.FindCounterexample | src/mcp_logic/mace4_wrapper.py:182-203 | the input is the Mace4 file with the conclusion as goal; the result has the run's tag and equals its classification, except that a counterexample note naming the conclusion is added exactly when a model is found |
| Prover9.ProverInputLayout | src/mcp_logic/server.py:29-41 | the file has premises + 6 lines: the assumptions header, each premise dotted, the list end, a blank line, the goals header, the dotted goal and the list end |
| Prover9.ProverInputReadsBack | src/mcp_logic/server.py:41 | without newlines inside premises or goal, splitting the file gives back exactly its lines |
| Prover9.ExtractProof | src/mcp_logic/server.py:69 | the proof text the code cuts out, as written; specified through `ProofExtraction` |
| Prover9.ProofExtraction | src/mcp_logic/server.py:69 | as written, a proof is extracted iff `PROOF =` occurs; it is the stripped span that starts right after the first `PROOF =` and ends at the first place after it where `====` or `PROOF =` begins (or at the end), a span `ProofSpanUnique` shows to be unique; the proof holds neither marker |
| Prover9.ProofSpanUnique | src/mcp_logic/server.py:69 | the end of a proof span is determined by its start: the first place a marker begins |
| Prover9.EmptyProofAfterRule | src/mcp_logic/server.py:69 | as written, when `====` follows the first `PROOF =` immediately, as in a banner line, the extracted proof is empty |
| Prover9.BannerAsWritten | src/mcp_logic/server.py:69 | as written, the output `PROOF =====x` yields the empty proof |
| Prover9.ProofBodyExtraction | src/mcp_logic/server.py:69 | the intended proof is there iff `PROOF =` occurs; it skips the run of `=` completing the banner and is the stripped span from there to the first `====` or `PROOF =`, holding neither marker |
| Prover9.ProofBodyAgrees | src/mcp_logic/server.py:69 | when no `=` follows the marker, the intended proof is exactly what the code extracts |
| Prover9.BannerIntended | src/mcp_logic/server.py:69 | the intended reading of `PROOF =====x` yields the proof `x` |
| Prover9.Classify | src/mcp_logic/server.py:68-105 | the result record of `_run_prover` for a run, with the code's own cut `ExtractProof` as the proof of a proved run; specified through `ClassificationOrder`, `StderrOnlyForErrors` and `ClassificationTotal` |
| Prover9.ClassificationOrder | src/mcp_logic/server.py:68-93 | a completed run is proved iff `THEOREM PROVED` and `PROOF =` occur, with the code's own cut `ExtractProof` as its proof; proving without a proof fails with `list index out of range`; else unprovable iff `SEARCH FAILED`; else a syntax error iff standard error has `Fatal error`; else unexpected output |
| Prover9.ClassifyIntended | src/mcp_logic/server.py:68-105 | `_run_prover` with the corrected proof `ProofBody`; specified through `IntendedDiffersOnlyInProof` |
| Prover9.IntendedDiffersOnlyInProof | src/mcp_logic/server.py:68-105 | the corrected record is proved exactly when the code's is, with the same complete output and the `ProofBody` proof; every other record is the code's; when no `=` follows the first `PROOF =` the two records are equal |
| Prover9.StderrOnlyForErrors | src/mcp_logic/server.py:68-86 | standard error is consulted only when standard output has neither verdict |
| Prover9.ClassificationTotal | src/mcp_logic/server.py:68-105 | every run gets one of the four tags; `timeout` iff the run timed out; an exception becomes an error carrying its message |
| Prover9.TimeoutReasonReadsBack | src/mcp_logic/server.py:98 | the timeout reason names the timeout, and parsing the number back out gives the same timeout |
| Prover9.Prove | src/mcp_logic/server.py:164-170 | the `prove` tool: the Prover9 file for premises and conclusion, and the classified run with the 60-second timeout; specified through `ProverInputLayout` and `ProveTimeoutReason` |
| Prover9.ProveTimeoutReason | src/mcp_logic/server.py:164-170 | a timed-out `prove` reports that the search exceeded 60 seconds |
| Prover9.CheckWellFormed | src/mcp_logic/server.py:172-182 | `valid` is false exactly for a syntax error, which happens iff the run completed without a verdict and standard error has `Fatal error`; a timeout reports 5 seconds |
| Prover9.WellFormedInput | src/mcp_logic/server.py:173-176 | the check writes the statements as dotted assumptions and `true.` as the goal |
| Categorical.CategoryAxioms | src/mcp_logic/categorical_helpers.py:14-33 | the six category axioms, verbatim; sizes stated by `AxiomListSizes` |
| Categorical.MonoidAxioms | src/mcp_logic/categorical_helpers.py:157-166 | the three monoid axioms, verbatim; sizes stated by `AxiomListSizes` |
| Categorical.GroupAxioms | src/mcp_logic/categorical_helpers.py:169-174 | the monoid axioms followed by the inverse axiom; stated by `AxiomListSizes` |
| Categorical.FunctorAxioms | src/mcp_logic/categorical_helpers.py:36-51 | the two functor laws under the lower-cased name; stated by `FunctorNameCase` |
| Categorical.NaturalityCondition | src/mcp_logic/categorical_helpers.py:106-127 | the naturality square under the lower-cased functor names; stated by `NaturalityNameCase` |
| Categorical.AxiomListSizes | src/mcp_logic/categorical_helpers.py:14-33 | six category axioms, three monoid axioms, and the group axioms are the monoid axioms plus one |
| Categorical.FunctorNameCase | src/mcp_logic/categorical_helpers.py:36-51 | two functor laws, which depend on the functor's name only through its lower-case form |
| Categorical.NaturalityNameCase | src/mcp_logic/categorical_helpers.py:106-127 | one naturality statement, which depends on the functor names only through their lower-cased forms; it opens with the quantifier head and contains `f(morph)` and `g(morph)` for the lower-cased names and `c(a)` and `c(b)` for the component `c` as given |
| Categorical.Compose | src/mcp_logic/categorical_helpers.py:130-151 | what `_compose_path_helper` returns, `None` for an empty path; stated by `ComposeChain` |
| Categorical.ComposePath | src/mcp_logic/categorical_helpers.py:130-151 | the loop builds exactly the `Compose` result: no facts and the morphism itself for a one-step path, none for an empty path |
| Categorical.ComposeChain | src/mcp_logic/categorical_helpers.py:140-151 | a path of n morphisms gives n-1 `compose` facts; each composes the next morphism with the previous name, the last one naming the result |
| Categorical.TempNamesDistinct | src/mcp_logic/categorical_helpers.py:147 | the intermediate names differ from the result name and from each other |
| Categorical.AppendPathFacts | src/mcp_logic/categorical_helpers.py:72-91 | the loop appends the `PathFacts` specification to the premises |
| Categorical.PathFactsShape | src/mcp_logic/categorical_helpers.py:72-91 | a non-empty path gives one `morphism` fact per morphism, a `source` fact for the first and a `target` fact for the last, in that order: length + 2 facts |
| Categorical.Commute | src/mcp_logic/categorical_helpers.py:54-103 | the premises and conclusion of `verify_commutativity`, `None` when a path is empty; stated by `CommutationCount` and `PathFactsShape` |
| Categorical.VerifyCommutativity | src/mcp_logic/categorical_helpers.py:54-103 | the method computes exactly the `Commute` specification |
| Categorical.CommutationCount | src/mcp_logic/categorical_helpers.py:54-103 | a result exists iff both paths are non-empty; it has 2a+1 plus 2b+1 premises, and its conclusion equates the composites or the single morphisms |
| Categorical.CommutationExample | tests/test_enhancements.py:83 | for paths `[f, g]` and `[h]` from `A` to `C`, the premises are the eight listed facts and the conclusion is `comp_a = h` |
| Text.WithFinalDotShape | src/mcp_logic/mace4_wrapper.py:66 | a line already ending in a dot is kept, otherwise one dot is added |
| Text.DottedAll | src/mcp_logic/server.py:33 | one dotted line per premise, in order |
| Text.SplitJoin | src/mcp_logic/mace4_wrapper.py:78 | splitting a join of newline-free lines on the newline gives back the lines |
| Text.RStripDotsDots | src/mcp_logic/syntax_validator.py:36 | removing trailing dots ignores any dots already appended |
| Text.ParseIntToString | src/mcp_logic/mace4_wrapper.py:146 | `int(str(i)) == i` for every integer |
| Text.LowerIdempotent | src/mcp_logic/categorical_helpers.py:45 | lower-casing twice is lower-casing once |

## Findings

| source | as written | input that shows it | evidently intended | confidence | as-written member | corrected member |
|---|---|---|---|---|---|---|
| src/mcp_logic/server.py:69 | the proof is cut at the first `====` after `PROOF =`, and Prover9's banner line `=== PROOF ====...` puts a run of `=` right after the marker, so the proof comes out empty | `PROOF =====x`, whose proof `x` is extracted as the empty text | skip the rest of the banner's rule of `=`, then cut at the closing `====` | medium, not executed | Prover9.BannerAsWritten | Prover9.BannerIntended |

`Prover9.ExtractProof` keeps the code as written, and `Prover9.EmptyProofAfterRule` states the defect for every output. `Prover9.Classify` and the `prove` and `check-well-formed` tools use it, as the code does. `Prover9.ProofBody` is the corrected extraction. Its properties are proved by `Prover9.ProofBodyExtraction` and `Prover9.ProofBodyAgrees`. `Prover9.ClassifyIntended` uses it, and `Prover9.IntendedDiffersOnlyInProof` relates the two classifications.

## Left out

- Process control is not modelled. This covers `subprocess.run`, temporary files and their deletion, working directories, logging, and the checks that the Prover9 and Mace4 binaries exist. A run's outcome is a `RunOutcome` parameter. The model does not relate that outcome to the input file, because what Prover9 or Mace4 print is outside this code.
- The MCP wiring is not modelled: tool listing, argument dictionaries, the `str(...)` rendering of result dictionaries, and the outer exception handler of `call_tool`. Results are datatypes instead of dictionaries.
- Mace4.ParseModel: the `predicates`, `functions` and `constants` entries are not modelled. The source never fills them, so they are always empty.
- Regular expressions are modelled by scanning functions with ASCII classes. `\w` is letters, digits and `_`, and `\s` is the ASCII whitespace. `isupper`, `islower` and `lower()` are ASCII only. `int()` accepts an optional sign, ASCII digits and single underscores between digits; it does not accept non-ASCII digits or surrounding whitespace, since `split()` has already removed that.
- The iteration order of the set `{"all", "exists"}` depends on string hashing. It is a constructor parameter (`allFirst`). Both orders are proved to give the same verdict and the same findings up to order.
- Categorical.ComposePath, Categorical.VerifyCommutativity: an empty path makes the source raise `IndexError`. The model returns `None` for it instead of modelling the exception.
- The default arguments `"F"`, `"G"` and `"alpha"` of the functor and naturality helpers are not modelled. Callers pass the names explicitly.
- The axiom texts are kept verbatim as strings. Their logical content is not interpreted, and no claim is made about what Prover9 or Mace4 conclude from them.
- Prover9.Prove has no contract of its own beyond its definition. Its input layout and timeout text are stated through Prover9.ProverInputLayout and Prover9.ProveTimeoutReason.
- Mace4.FindModel, Mace4.FindCounterexample: the `timeout` argument of `_run_mace4` is always the default of 60 seconds, so it is fixed at that value.

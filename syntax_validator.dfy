/**
 * The pre-flight formula checker run before a formula is handed to Prover9
 * or Mace4 (src/mcp_logic/syntax_validator.py).
 *
 * It is a set of scanning heuristics, not a parser. Each check appends to
 * one of two lists kept by the validator: errors, which decide whether the
 * formula is valid, and warnings, which never do. The regular-expression
 * scans of the source are the `...MatchAt` / `...Matches` functions below:
 * they play the part of `re.finditer`, reporting the same non-overlapping
 * left-to-right matches with `\w` and `\s` read as ASCII classes.
 */
module SyntaxValidation {
  import opened Text

  /** One finding of the validator; `Message` is the text the source reports. */
  datatype Diagnostic =
    | UnmatchedClosing(position: nat)
    | UnmatchedOpening(position: nat)
    | VariableCase(variable: string)
    | UnscopedQuantifier(quantifier: string, variable: string)
    | DoubleOperator(op: string)
    | ImplicationChain
    | UppercaseName(name: string)
    | ReservedName(name: string)
    | OperatorSpacing(op: string)
    | QuotedString
    | EmptyParentheses
  {
    function Message(): string
    {
      match this
      case UnmatchedClosing(i) => "Unmatched closing parenthesis at position " + NatToString(i)
      case UnmatchedOpening(i) => "Unmatched opening parenthesis at position " + NatToString(i)
      case VariableCase(v) => "Quantifier variable '" + v + "' should start with lowercase"
      case UnscopedQuantifier(q, v) =>
        "Quantifier '" + q + " " + v + "' must be followed by a formula in parentheses"
      case DoubleOperator(op) => "Double operator '" + op + op + "' found - did you mean to use it twice?"
      case ImplicationChain =>
        "Multiple implications without parentheses - consider adding parentheses for clarity"
      case UppercaseName(n) =>
        "Predicate/function '" + n + "' starts with uppercase - consider using lowercase for consistency"
      case ReservedName(n) => "'" + n + "' is a reserved keyword and cannot be used as a predicate/function"
      case OperatorSpacing(op) => "Consider adding spaces around '" + op + "' for readability"
      case QuotedString =>
        "Strings in quotes are not standard in first-order logic - use predicates or constants instead"
      case EmptyParentheses => "Empty parentheses found - predicates and functions must have arguments"
    }
  }

  const QuantifierNames: set<string> := {"all", "exists"}
  const ReservedNames: set<string> := QuantifierNames + {"true", "false", "end_of_list"}

  /**
   * The order in which a loop over the quantifier set visits its members.
   * Python does not fix the iteration order of a set of strings, so the
   * validator is given it when it is created.
   */
  function QuantifierOrder(allFirst: bool): seq<string>
  {
    if allFirst then ["all", "exists"] else ["exists", "all"]
  }

  // =====================================================================
  // Parentheses
  // =====================================================================

  /** Height of the stack of open `(` after scanning `s[..i]`. */
  function DepthAt(s: string, i: nat): nat
    requires i <= |s|
  {
    if i == 0 then 0
    else
      var d := DepthAt(s, i - 1);
      if s[i - 1] == '(' then d + 1
      else if s[i - 1] == ')' && d > 0 then d - 1
      else d
  }

  /** The "unmatched closing" errors raised while scanning `s[..i]`. */
  function ClosingErrorsAt(s: string, i: nat): (ds: seq<Diagnostic>)
    requires i <= |s|
    ensures forall k :: 0 <= k < |ds| ==>
      ds[k].UnmatchedClosing? && ds[k].position < i && s[ds[k].position] == ')'
  {
    if i == 0 then []
    else
      var closes := s[i - 1] == ')' && DepthAt(s, i - 1) == 0;
      ClosingErrorsAt(s, i - 1) + (if closes then [UnmatchedClosing(i - 1)] else [])
  }

  /** Index of the `(` at the bottom of the stack after scanning `s[..i]`. */
  function BottomAt(s: string, i: nat): nat
    requires i <= |s|
  {
    if i == 0 then 0
    else if s[i - 1] == '(' && DepthAt(s, i - 1) == 0 then i - 1
    else BottomAt(s, i - 1)
  }

  /** All errors of the parenthesis check on `s`. */
  function ParenErrors(s: string): seq<Diagnostic>
  {
    ClosingErrorsAt(s, |s|) +
    (if DepthAt(s, |s|) > 0 then [UnmatchedOpening(BottomAt(s, |s|))] else [])
  }

  /** Number of `(` minus number of `)` in `s[..i]`. */
  function NetAt(s: string, i: nat): int
    requires i <= |s|
  {
    if i == 0 then 0
    else NetAt(s, i - 1) + (if s[i - 1] == '(' then 1 else if s[i - 1] == ')' then -1 else 0)
  }

  /** The least of `NetAt(s, k)` over `k <= i`. */
  function LowestNetAt(s: string, i: nat): int
    requires i <= |s|
  {
    if i == 0 then 0
    else var low := LowestNetAt(s, i - 1); var n := NetAt(s, i); if n < low then n else low
  }

  /** The textbook notion: no prefix closes more than it opens, and the whole opens as many as it closes. */
  predicate Balanced(s: string)
  {
    NetAt(s, |s|) == 0 && forall k :: 0 <= k <= |s| ==> NetAt(s, k) >= 0
  }

  // =====================================================================
  // Quantifiers: the scan of `\b<q>\s+(\w+)`
  // =====================================================================

  datatype QuantMatch = QuantMatch(variable: string, end: nat)

  function SkipWord(s: string, j: nat): (k: nat)
    requires j <= |s|
    decreases |s| - j
    ensures j <= k <= |s|
    ensures forall i :: j <= i < k ==> IsWordChar(s[i])
    ensures k == |s| || !IsWordChar(s[k])
  {
    if j < |s| && IsWordChar(s[j]) then SkipWord(s, j + 1) else j
  }

  /** The match of `\b<q>\s+(\w+)` that starts at index `i`, if there is one. */
  function QuantMatchAt(s: string, q: string, i: nat): (m: Option<QuantMatch>)
    requires i <= |s|
    ensures m.Some? ==> i < m.value.end <= |s| && |m.value.variable| > 0
  {
    if (i == 0 || !IsWordChar(s[i - 1])) && OccursAt(s, q, i) && i + |q| < |s| && IsSpace(s[i + |q|]) then
      var j := SkipSpace(s, i + |q|);
      if j < |s| && IsWordChar(s[j]) then
        var k := SkipWord(s, j);
        Some(QuantMatch(s[j..k], k))
      else None
    else None
  }

  /** Well-formed matches: a non-empty variable and an end inside `s`. */
  predicate QuantMatchesIn(s: string, ms: seq<QuantMatch>)
  {
    forall m :: m in ms ==> 0 < |m.variable| && m.end <= |s|
  }

  /** `re.finditer` for the quantifier pattern, from index `i` on. */
  function QuantMatchesFrom(s: string, q: string, i: nat): (ms: seq<QuantMatch>)
    requires i <= |s|
    decreases |s| - i
    ensures QuantMatchesIn(s, ms)
  {
    if i == |s| then []
    else match QuantMatchAt(s, q, i)
      case Some(m) => [m] + QuantMatchesFrom(s, q, m.end)
      case None => QuantMatchesFrom(s, q, i + 1)
  }

  function QuantMatches(s: string, q: string): (ms: seq<QuantMatch>)
    ensures QuantMatchesIn(s, ms)
  {
    QuantMatchesFrom(s, q, 0)
  }

  /** What follows index `end`, leading whitespace dropped, opens with `(`. */
  predicate ScopedAt(s: string, end: nat)
    requires end <= |s|
  {
    var j := SkipSpace(s, end);
    j < |s| && s[j] == '('
  }

  /** `ScopedAt` is the test `s[end:].lstrip().startswith('(')`. */
  lemma ScopedAtIsLStrip(s: string, end: nat)
    requires end <= |s|
    ensures ScopedAt(s, end) <==> (var r := LStrip(s[end..]); |r| > 0 && r[0] == '(')
  {
    var k := SkipSpace(s[end..], 0);
    var j := SkipSpace(s, end);
    assert forall i :: end <= i < end + k ==> s[i] == s[end..][i - end];
    assert end + k < |s| ==> s[end + k] == s[end..][k];
    assert j == end + k;
  }

  function ScopeErrors(s: string, q: string, ms: seq<QuantMatch>): seq<Diagnostic>
    requires QuantMatchesIn(s, ms)
  {
    if |ms| == 0 then []
    else
      var m := ms[|ms| - 1];
      ScopeErrors(s, q, ms[..|ms| - 1]) +
      (if ScopedAt(s, m.end) then [] else [UnscopedQuantifier(q, m.variable)])
  }

  function VariableWarnings(s: string, ms: seq<QuantMatch>): seq<Diagnostic>
    requires QuantMatchesIn(s, ms)
  {
    if |ms| == 0 then []
    else
      var m := ms[|ms| - 1];
      VariableWarnings(s, ms[..|ms| - 1]) +
      (if IsLower(m.variable[0]) then [] else [VariableCase(m.variable)])
  }

  function ScopeErrorsFor(s: string, qs: seq<string>): seq<Diagnostic>
  {
    if |qs| == 0 then []
    else
      var q := qs[|qs| - 1];
      ScopeErrorsFor(s, qs[..|qs| - 1]) + ScopeErrors(s, q, QuantMatches(s, q))
  }

  function VariableWarningsFor(s: string, qs: seq<string>): seq<Diagnostic>
  {
    if |qs| == 0 then []
    else
      var q := qs[|qs| - 1];
      VariableWarningsFor(s, qs[..|qs| - 1]) + VariableWarnings(s, QuantMatches(s, q))
  }

  /** One more pass of the loop over the quantifier set adds that quantifier's findings. */
  lemma QuantifierPassStep(s: string, qs: seq<string>, n: nat)
    requires n < |qs|
    ensures ScopeErrorsFor(s, qs[..n + 1]) == ScopeErrorsFor(s, qs[..n]) + ScopeErrors(s, qs[n], QuantMatches(s, qs[n]))
    ensures VariableWarningsFor(s, qs[..n + 1]) == VariableWarningsFor(s, qs[..n]) + VariableWarnings(s, QuantMatches(s, qs[n]))
  {
    assert qs[..n + 1][..n] == qs[..n];
  }

  function QuantifierErrors(s: string, allFirst: bool): seq<Diagnostic>
  {
    ScopeErrorsFor(s, QuantifierOrder(allFirst))
  }

  function QuantifierWarnings(s: string, allFirst: bool): seq<Diagnostic>
  {
    VariableWarningsFor(s, QuantifierOrder(allFirst))
  }

  // =====================================================================
  // Operators
  // =====================================================================

  /** Warnings for the operators of `ops` found written twice in a row. */
  function DoubledWarnings(s: string, ops: seq<char>): seq<Diagnostic>
  {
    if |ops| == 0 then []
    else
      var op := ops[|ops| - 1];
      DoubledWarnings(s, ops[..|ops| - 1]) + (if Contains(s, [op, op]) then [DoubleOperator([op])] else [])
  }

  /** More than one `->` and no `(` at all. */
  predicate UnparenthesisedChain(s: string)
  {
    Count(s, "->", 0) > 1 && Count(s, "(", 0) == 0
  }

  function OperatorWarnings(s: string): seq<Diagnostic>
  {
    DoubledWarnings(s, "&|") + (if UnparenthesisedChain(s) then [ImplicationChain] else [])
  }

  // =====================================================================
  // Names: the scan of `\b([a-zA-Z_][a-zA-Z0-9_]*)\s*\(`
  // =====================================================================

  datatype NameMatch = NameMatch(name: string, end: nat)

  predicate IsNameStart(c: char) { IsLower(c) || IsUpper(c) || c == '_' }

  function NameMatchAt(s: string, i: nat): (m: Option<NameMatch>)
    requires i < |s|
    ensures m.Some? ==> i < m.value.end <= |s| && |m.value.name| > 0
  {
    if (i == 0 || !IsWordChar(s[i - 1])) && IsNameStart(s[i]) then
      var k := SkipWord(s, i);
      var j := SkipSpace(s, k);
      if j < |s| && s[j] == '(' then Some(NameMatch(s[i..k], j + 1)) else None
    else None
  }

  predicate NameMatchesIn(ms: seq<NameMatch>)
  {
    forall m :: m in ms ==> 0 < |m.name|
  }

  function NameMatchesFrom(s: string, i: nat): (ms: seq<NameMatch>)
    requires i <= |s|
    decreases |s| - i
    ensures NameMatchesIn(ms)
  {
    if i == |s| then []
    else match NameMatchAt(s, i)
      case Some(m) => [m] + NameMatchesFrom(s, m.end)
      case None => NameMatchesFrom(s, i + 1)
  }

  function NameMatches(s: string): (ms: seq<NameMatch>)
    ensures NameMatchesIn(ms)
  {
    NameMatchesFrom(s, 0)
  }

  function NameErrors(ms: seq<NameMatch>): seq<Diagnostic>
  {
    if |ms| == 0 then []
    else
      var name := ms[|ms| - 1].name;
      NameErrors(ms[..|ms| - 1]) +
      (if name !in QuantifierNames && name in ReservedNames then [ReservedName(name)] else [])
  }

  function NameWarnings(ms: seq<NameMatch>): seq<Diagnostic>
    requires NameMatchesIn(ms)
  {
    if |ms| == 0 then []
    else
      var name := ms[|ms| - 1].name;
      NameWarnings(ms[..|ms| - 1]) +
      (if name !in QuantifierNames && IsUpper(name[0]) then [UppercaseName(name)] else [])
  }

  // =====================================================================
  // Common mistakes
  // =====================================================================

  /** `re.search(r"\w<op>\w", s)` looking from index `i` on. */
  predicate TightOperatorFrom(s: string, op: string, i: nat)
    decreases |s| - i
  {
    |s| >= i + |op| + 2 &&
    ((IsWordChar(s[i]) && OccursAt(s, op, i + 1) && IsWordChar(s[i + |op| + 1]))
     || TightOperatorFrom(s, op, i + 1))
  }

  function SpacingWarnings(s: string, ops: seq<string>): seq<Diagnostic>
  {
    if |ops| == 0 then []
    else
      var op := ops[|ops| - 1];
      SpacingWarnings(s, ops[..|ops| - 1]) + (if TightOperatorFrom(s, op, 0) then [OperatorSpacing(op)] else [])
  }

  predicate HasQuote(s: string)
  {
    Contains(s, "\"") || Contains(s, "'")
  }

  function MistakeWarnings(s: string): seq<Diagnostic>
  {
    SpacingWarnings(s, ["->", "<->"]) + (if HasQuote(s) then [QuotedString] else [])
  }

  function MistakeErrors(s: string): seq<Diagnostic>
  {
    if Contains(s, "()") then [EmptyParentheses] else []
  }

  // =====================================================================
  // The whole check
  // =====================================================================

  /** Errors for an already cleaned formula, in the order the checks run. */
  function ErrorsOf(s: string, allFirst: bool): seq<Diagnostic>
  {
    ParenErrors(s) + QuantifierErrors(s, allFirst) + NameErrors(NameMatches(s)) + MistakeErrors(s)
  }

  /** Warnings for an already cleaned formula, in the order the checks run. */
  function WarningsOf(s: string, allFirst: bool): seq<Diagnostic>
  {
    QuantifierWarnings(s, allFirst) + OperatorWarnings(s) + NameWarnings(NameMatches(s)) + MistakeWarnings(s)
  }

  datatype Verdict = Verdict(valid: bool, errors: seq<Diagnostic>, warnings: seq<Diagnostic>)

  /** What `validate(formula)` returns. */
  function Validation(formula: string, allFirst: bool): Verdict
  {
    var s := RStripDots(formula);
    Verdict(ErrorsOf(s, allFirst) == [], ErrorsOf(s, allFirst), WarningsOf(s, allFirst))
  }

  class SyntaxValidator {
    /** Whether the loop over the quantifier set visits `all` first. */
    const allFirst: bool
    var errors: seq<Diagnostic>
    var warnings: seq<Diagnostic>

    constructor (allFirst: bool)
      ensures this.allFirst == allFirst && errors == [] && warnings == []
    {
      this.allFirst := allFirst;
      errors := [];
      warnings := [];
    }

    /** Runs every check on the formula with its trailing dots removed. */
    method Validate(formula: string) returns (valid: bool, errs: seq<Diagnostic>, warns: seq<Diagnostic>)
      modifies this
      ensures Verdict(valid, errs, warns) == Validation(formula, allFirst)
      ensures errors == errs && warnings == warns
    {
      errors := [];
      warnings := [];
      var clean := RStripDots(formula);
      CheckBalancedParens(clean);
      assert errors == ParenErrors(clean) && warnings == [];
      CheckQuantifiers(clean);
      assert errors == ParenErrors(clean) + QuantifierErrors(clean, allFirst);
      assert warnings == QuantifierWarnings(clean, allFirst);
      CheckOperators(clean);
      CheckNaming(clean);
      CheckCommonMistakes(clean);
      assert errors == ErrorsOf(clean, allFirst);
      assert warnings == WarningsOf(clean, allFirst);
      return |errors| == 0, errors, warnings;
    }

    method CheckBalancedParens(s: string)
      modifies this
      ensures errors == old(errors) + ParenErrors(s)
      ensures warnings == old(warnings)
    {
      var stack: seq<nat> := [];
      for i := 0 to |s|
        invariant |stack| == DepthAt(s, i)
        invariant |stack| > 0 ==> stack[0] == BottomAt(s, i)
        invariant errors == old(errors) + ClosingErrorsAt(s, i)
        invariant warnings == old(warnings)
      {
        if s[i] == '(' {
          stack := stack + [i];
        } else if s[i] == ')' {
          if |stack| == 0 {
            AppendAssoc(old(errors), ClosingErrorsAt(s, i), [UnmatchedClosing(i)]);
            errors := errors + [UnmatchedClosing(i)];
          } else {
            stack := stack[..|stack| - 1];
          }
        }
      }
      if |stack| > 0 {
        errors := errors + [UnmatchedOpening(stack[0])];
      }
    }

    method CheckQuantifiers(s: string)
      modifies this
      ensures errors == old(errors) + QuantifierErrors(s, allFirst)
      ensures warnings == old(warnings) + QuantifierWarnings(s, allFirst)
    {
      var order := QuantifierOrder(allFirst);
      for n := 0 to |order|
        invariant errors == old(errors) + ScopeErrorsFor(s, order[..n])
        invariant warnings == old(warnings) + VariableWarningsFor(s, order[..n])
      {
        QuantifierPassStep(s, order, n);
        AppendAssoc(old(errors), ScopeErrorsFor(s, order[..n]), ScopeErrors(s, order[n], QuantMatches(s, order[n])));
        AppendAssoc(old(warnings), VariableWarningsFor(s, order[..n]), VariableWarnings(s, QuantMatches(s, order[n])));
        CheckQuantifier(s, order[n]);
      }
      assert order[..|order|] == order;
    }

    /** One pass of the loop over the quantifier set: every match of one quantifier. */
    method CheckQuantifier(s: string, q: string)
      modifies this
      ensures errors == old(errors) + ScopeErrors(s, q, QuantMatches(s, q))
      ensures warnings == old(warnings) + VariableWarnings(s, QuantMatches(s, q))
    {
      var ms := QuantMatches(s, q);
      for k := 0 to |ms|
        invariant errors == old(errors) + ScopeErrors(s, q, ms[..k])
        invariant warnings == old(warnings) + VariableWarnings(s, ms[..k])
      {
        var m := ms[k];
        assert ms[..k + 1][..k] == ms[..k];
        if !IsLower(m.variable[0]) {
          AppendAssoc(old(warnings), VariableWarnings(s, ms[..k]), [VariableCase(m.variable)]);
          warnings := warnings + [VariableCase(m.variable)];
        }
        if !ScopedAt(s, m.end) {
          AppendAssoc(old(errors), ScopeErrors(s, q, ms[..k]), [UnscopedQuantifier(q, m.variable)]);
          errors := errors + [UnscopedQuantifier(q, m.variable)];
        }
      }
      assert ms[..|ms|] == ms;
    }

    method CheckOperators(s: string)
      modifies this
      ensures errors == old(errors)
      ensures warnings == old(warnings) + OperatorWarnings(s)
    {
      var ops := "&|";
      for k := 0 to |ops|
        invariant errors == old(errors)
        invariant warnings == old(warnings) + DoubledWarnings(s, ops[..k])
      {
        assert ops[..k + 1][..k] == ops[..k];
        if Contains(s, [ops[k], ops[k]]) {
          AppendAssoc(old(warnings), DoubledWarnings(s, ops[..k]), [DoubleOperator([ops[k]])]);
          warnings := warnings + [DoubleOperator([ops[k]])];
        }
      }
      assert ops[..|ops|] == ops;
      if Count(s, "->", 0) > 1 && Count(s, "(", 0) == 0 {
        warnings := warnings + [ImplicationChain];
      }
    }

    method CheckNaming(s: string)
      modifies this
      ensures errors == old(errors) + NameErrors(NameMatches(s))
      ensures warnings == old(warnings) + NameWarnings(NameMatches(s))
    {
      var ms := NameMatches(s);
      for k := 0 to |ms|
        invariant errors == old(errors) + NameErrors(ms[..k])
        invariant warnings == old(warnings) + NameWarnings(ms[..k])
      {
        assert ms[..k + 1][..k] == ms[..k];
        var name := ms[k].name;
        if name in QuantifierNames {
          continue;
        }
        if IsUpper(name[0]) {
          AppendAssoc(old(warnings), NameWarnings(ms[..k]), [UppercaseName(name)]);
          warnings := warnings + [UppercaseName(name)];
        }
        if name in ReservedNames {
          AppendAssoc(old(errors), NameErrors(ms[..k]), [ReservedName(name)]);
          errors := errors + [ReservedName(name)];
        }
      }
      assert ms[..|ms|] == ms;
    }

    method CheckCommonMistakes(s: string)
      modifies this
      ensures errors == old(errors) + MistakeErrors(s)
      ensures warnings == old(warnings) + MistakeWarnings(s)
    {
      var ops := ["->", "<->"];
      for k := 0 to |ops|
        invariant errors == old(errors)
        invariant warnings == old(warnings) + SpacingWarnings(s, ops[..k])
      {
        assert ops[..k + 1][..k] == ops[..k];
        if TightOperatorFrom(s, ops[k], 0) {
          AppendAssoc(old(warnings), SpacingWarnings(s, ops[..k]), [OperatorSpacing(ops[k])]);
          warnings := warnings + [OperatorSpacing(ops[k])];
        }
      }
      assert ops[..|ops|] == ops;
      if Contains(s, "\"") || Contains(s, "'") {
        warnings := warnings + [QuotedString];
      }
      if Contains(s, "()") {
        errors := errors + [EmptyParentheses];
      }
    }
  }

  // =====================================================================
  // The batch aggregator and the help lookup
  // =====================================================================

  datatype FormulaResult = FormulaResult(formula: string, valid: bool, errors: seq<Diagnostic>, warnings: seq<Diagnostic>)

  datatype BatchResult = BatchResult(valid: bool, formulaResults: seq<FormulaResult>)

  function ResultFor(formula: string, allFirst: bool): FormulaResult
  {
    var v := Validation(formula, allFirst);
    FormulaResult(formula, v.valid, v.errors, v.warnings)
  }

  predicate AllValid(results: seq<FormulaResult>)
  {
    forall j :: 0 <= j < |results| ==> results[j].valid
  }

  lemma AllValidAppend(results: seq<FormulaResult>, result: FormulaResult)
    ensures AllValid(results + [result]) <==> AllValid(results) && result.valid
  {
    var extended := results + [result];
    assert extended[|results|] == result;
    assert forall j :: 0 <= j < |results| ==> extended[j] == results[j];
  }

  /** `validate_formulas`: one result per formula, in order; valid when every one is. */
  method ValidateFormulas(formulas: seq<string>, allFirst: bool) returns (r: BatchResult)
    ensures |r.formulaResults| == |formulas|
    ensures forall i :: 0 <= i < |formulas| ==> r.formulaResults[i] == ResultFor(formulas[i], allFirst)
    ensures r.valid <==> forall i :: 0 <= i < |formulas| ==> r.formulaResults[i].valid
  {
    var validator := new SyntaxValidator(allFirst);
    var valid := true;
    var results: seq<FormulaResult> := [];
    ghost var expected := seq(|formulas|, j requires 0 <= j < |formulas| => ResultFor(formulas[j], allFirst));
    for i := 0 to |formulas|
      invariant results == expected[..i]
      invariant valid <==> AllValid(results)
    {
      PrefixStep(expected, i);
      var isValid, errors, warnings := validator.Validate(formulas[i]);
      var result := FormulaResult(formulas[i], isValid, errors, warnings);
      AllValidAppend(results, result);
      results := results + [result];
      if !isValid {
        valid := false;
      }
    }
    r := BatchResult(valid, results);
  }

  const NoHelp := "No specific help available"

  const QuantifierHelp: string :=
    "\n" + "Quantifier syntax: all variable (formula) or exists variable (formula)\nExamples:\n"
    + "  - all x (man(x) -> mortal(x))\n  - exists y (happy(y) & wise(y))\n"

  const ImplicationHelp: string :=
    "\n" + "Implication syntax: premise -> conclusion\nFor multiple premises, use conjunction:\n"
    + "  - (premise1 & premise2) -> conclusion\n  - all x ((p(x) & q(x)) -> r(x))\n"

  const ParenthesesHelp: string :=
    "\n" + "Parentheses must be balanced. Common mistakes:\n  - Missing closing: all x (p(x) -> q(x)\n"
    + "  - Extra closing: all x (p(x) -> q(x)))\n"
    + "  - Missing around quantifier scope: all x p(x) -> q(x)  [should be: all x (p(x) -> q(x))]\n"

  /** The `help_messages` table of `get_syntax_help`. */
  const HelpMessages: map<string, string> :=
    map["quantifier" := QuantifierHelp, "implication" := ImplicationHelp, "parentheses" := ParenthesesHelp]

  /** `get_syntax_help`: the table's entry, or the fallback text. */
  function SyntaxHelp(errorType: string): string
  {
    if errorType in HelpMessages then HelpMessages[errorType] else NoHelp
  }
}

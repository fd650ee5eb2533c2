/**
 * What the pre-flight checker promises, proved about the specification
 * functions of module SyntaxValidation (and so, through the contract of
 * `SyntaxValidator.Validate`, about the validator itself).
 */
module SyntaxProperties {
  import opened Text
  import opened SyntaxValidation

  // =====================================================================
  // Parentheses
  // =====================================================================

  /** The stack height is how far the running count has climbed above its lowest point. */
  lemma {:induction false} DepthIsNetAboveLowest(s: string, i: nat)
    requires i <= |s|
    ensures DepthAt(s, i) == NetAt(s, i) - LowestNetAt(s, i)
    ensures LowestNetAt(s, i) <= 0
  {
    if i > 0 {
      DepthIsNetAboveLowest(s, i - 1);
    }
  }

  /** `LowestNetAt` is a lower bound of the running count, and one it reaches. */
  lemma {:induction false} LowestNetIsMinimum(s: string, i: nat)
    requires i <= |s|
    ensures forall k :: 0 <= k <= i ==> LowestNetAt(s, i) <= NetAt(s, k)
    ensures exists k :: 0 <= k <= i && LowestNetAt(s, i) == NetAt(s, k)
  {
    if i == 0 {
      assert LowestNetAt(s, 0) == NetAt(s, 0);
    } else {
      LowestNetIsMinimum(s, i - 1);
      if NetAt(s, i) < LowestNetAt(s, i - 1) {
        assert LowestNetAt(s, i) == NetAt(s, i);
      } else {
        var k :| 0 <= k <= i - 1 && LowestNetAt(s, i - 1) == NetAt(s, k);
        assert LowestNetAt(s, i) == NetAt(s, k);
      }
    }
  }

  /** One "unmatched closing" error for each unit the running count dips below zero. */
  lemma {:induction false} ClosingErrorsCount(s: string, i: nat)
    requires i <= |s|
    ensures |ClosingErrorsAt(s, i)| == -LowestNetAt(s, i)
  {
    if i > 0 {
      ClosingErrorsCount(s, i - 1);
      DepthIsNetAboveLowest(s, i - 1);
    }
  }

  /** An "unmatched closing" error names exactly the `)` met when the stack is empty. */
  lemma {:induction false} ClosingErrorsExactly(s: string, i: nat, k: nat)
    requires i <= |s|
    ensures UnmatchedClosing(k) in ClosingErrorsAt(s, i) <==> k < i && s[k] == ')' && DepthAt(s, k) == 0
  {
    if i > 0 {
      ClosingErrorsExactly(s, i - 1, k);
    }
  }

  /** The errors of the scan are reported left to right. */
  lemma {:induction false} ClosingErrorsAscending(s: string, i: nat)
    requires i <= |s|
    ensures forall a, b :: 0 <= a < b < |ClosingErrorsAt(s, i)| ==>
      ClosingErrorsAt(s, i)[a].position < ClosingErrorsAt(s, i)[b].position
  {
    if i > 0 {
      ClosingErrorsAscending(s, i - 1);
    }
  }

  /** The `(` at index `j` is never closed: every later depth stays above the one before it. */
  predicate UnmatchedOpenAt(s: string, j: nat)
  {
    j < |s| && s[j] == '(' && forall k :: j < k <= |s| ==> DepthAt(s, k) > DepthAt(s, j)
  }

  lemma {:induction false} BottomStaysOpen(s: string, i: nat)
    requires i <= |s|
    requires DepthAt(s, i) > 0
    ensures BottomAt(s, i) < i && s[BottomAt(s, i)] == '(' && DepthAt(s, BottomAt(s, i)) == 0
    ensures forall k :: BottomAt(s, i) < k <= i ==> DepthAt(s, k) > 0
  {
    if !(s[i - 1] == '(' && DepthAt(s, i - 1) == 0) {
      BottomStaysOpen(s, i - 1);
    }
  }

  /**
   * When some `(` is left open, the one reported is the leftmost unmatched
   * `(`; when none is left open, no `(` is unmatched.
   */
  lemma UnmatchedOpeningIsLeftmost(s: string)
    ensures DepthAt(s, |s|) > 0 ==>
      UnmatchedOpenAt(s, BottomAt(s, |s|)) &&
      forall j :: 0 <= j < BottomAt(s, |s|) ==> !UnmatchedOpenAt(s, j)
    ensures DepthAt(s, |s|) == 0 ==> forall j :: 0 <= j < |s| ==> !UnmatchedOpenAt(s, j)
  {
    if DepthAt(s, |s|) > 0 {
      BottomStaysOpen(s, |s|);
      var b := BottomAt(s, |s|);
      forall j | 0 <= j < b
        ensures !UnmatchedOpenAt(s, j)
      {
        assert DepthAt(s, b) <= DepthAt(s, j);
      }
    }
  }

  /** The parenthesis check is silent exactly on balanced text. */
  lemma ParenErrorsEmptyIffBalanced(s: string)
    ensures ParenErrors(s) == [] <==> Balanced(s)
  {
    ClosingErrorsCount(s, |s|);
    DepthIsNetAboveLowest(s, |s|);
    LowestNetIsMinimum(s, |s|);
  }

  // =====================================================================
  // Quantifiers and names
  // =====================================================================

  /** Every match of either quantifier is followed, past any whitespace, by `(`. */
  predicate QuantifiersScoped(s: string)
  {
    forall q, m :: q in QuantifierNames && m in QuantMatches(s, q) ==> ScopedAt(s, m.end)
  }

  lemma {:induction false} ScopeErrorsEmptyIff(s: string, q: string, ms: seq<QuantMatch>)
    requires QuantMatchesIn(s, ms)
    ensures ScopeErrors(s, q, ms) == [] <==> forall m :: m in ms ==> ScopedAt(s, m.end)
  {
    if |ms| > 0 {
      var init := ms[..|ms| - 1];
      assert forall m :: m in ms <==> m in init || m == ms[|ms| - 1] by {
        assert ms == init + [ms[|ms| - 1]];
      }
      ScopeErrorsEmptyIff(s, q, init);
    }
  }

  /** Each scope error names the quantifier and the variable of one unscoped match. */
  lemma {:induction false} ScopeErrorsExactly(s: string, q: string, ms: seq<QuantMatch>, d: Diagnostic)
    requires QuantMatchesIn(s, ms)
    ensures d in ScopeErrors(s, q, ms) <==>
      exists m :: m in ms && !ScopedAt(s, m.end) && d == UnscopedQuantifier(q, m.variable)
  {
    if |ms| > 0 {
      var init := ms[..|ms| - 1];
      assert forall m :: m in ms <==> m in init || m == ms[|ms| - 1] by {
        assert ms == init + [ms[|ms| - 1]];
      }
      ScopeErrorsExactly(s, q, init, d);
    }
  }

  /** A quantifier check raises errors exactly when some quantifier is left unscoped. */
  lemma QuantifierErrorsEmptyIff(s: string, allFirst: bool)
    ensures QuantifierErrors(s, allFirst) == [] <==> QuantifiersScoped(s)
  {
    var order := QuantifierOrder(allFirst);
    assert order[..1] == [order[0]];
    assert ScopeErrorsFor(s, order) == ScopeErrorsFor(s, []) + ScopeErrors(s, order[0], QuantMatches(s, order[0]))
      + ScopeErrors(s, order[1], QuantMatches(s, order[1]));
    ScopeErrorsEmptyIff(s, "all", QuantMatches(s, "all"));
    ScopeErrorsEmptyIff(s, "exists", QuantMatches(s, "exists"));
  }

  /** Whichever order the quantifier set is visited in, the same findings come out. */
  lemma QuantifierOrderIrrelevant(s: string)
    ensures multiset(QuantifierErrors(s, true)) == multiset(QuantifierErrors(s, false))
    ensures multiset(QuantifierWarnings(s, true)) == multiset(QuantifierWarnings(s, false))
  {
    var forAll, forSome := QuantMatches(s, "all"), QuantMatches(s, "exists");
    assert ["all", "exists"][..1] == ["all"];
    assert ["exists", "all"][..1] == ["exists"];
    assert ["all"][..0] == [] && ["exists"][..0] == [];
    assert ScopeErrorsFor(s, ["all"]) == ScopeErrors(s, "all", forAll);
    assert ScopeErrorsFor(s, ["exists"]) == ScopeErrors(s, "exists", forSome);
    assert VariableWarningsFor(s, ["all"]) == VariableWarnings(s, forAll);
    assert VariableWarningsFor(s, ["exists"]) == VariableWarnings(s, forSome);
    assert QuantifierErrors(s, true) == ScopeErrors(s, "all", forAll) + ScopeErrors(s, "exists", forSome);
    assert QuantifierErrors(s, false) == ScopeErrors(s, "exists", forSome) + ScopeErrors(s, "all", forAll);
    assert QuantifierWarnings(s, true) == VariableWarnings(s, forAll) + VariableWarnings(s, forSome);
    assert QuantifierWarnings(s, false) == VariableWarnings(s, forSome) + VariableWarnings(s, forAll);
  }

  /** Some name other than a quantifier, written as a call, is a reserved word. */
  predicate ReservedCall(s: string)
  {
    exists m :: m in NameMatches(s) && m.name !in QuantifierNames && m.name in ReservedNames
  }

  lemma {:induction false} NameErrorsEmptyIff(ms: seq<NameMatch>)
    ensures NameErrors(ms) == [] <==> forall m :: m in ms ==> m.name in QuantifierNames || m.name !in ReservedNames
  {
    if |ms| > 0 {
      var init, last := ms[..|ms| - 1], ms[|ms| - 1];
      NameErrorsEmptyIff(init);
      var flagged := last.name !in QuantifierNames && last.name in ReservedNames;
      assert NameErrors(ms) == [] <==> NameErrors(init) == [] && !flagged;
      assert forall m :: m in ms <==> m in init || m == last by {
        assert ms == init + [last];
      }
    }
  }

  // =====================================================================
  // The whole check
  // =====================================================================

  /** The findings that can make a formula invalid. */
  predicate IsErrorKind(d: Diagnostic)
  {
    d.UnmatchedClosing? || d.UnmatchedOpening? || d.UnscopedQuantifier? || d.ReservedName? || d.EmptyParentheses?
  }

  /**
   * The errors list holds only the five error kinds, the warnings list only
   * the other six: style findings never decide validity.
   */
  lemma {:induction false} KindsAreSeparate(s: string, allFirst: bool)
    ensures forall d :: d in ErrorsOf(s, allFirst) ==> IsErrorKind(d)
    ensures forall d :: d in WarningsOf(s, allFirst) ==> !IsErrorKind(d)
  {
    ErrorKindsOfScope(s, QuantifierOrder(allFirst));
    WarningKindsOfScope(s, QuantifierOrder(allFirst));
    ErrorKindsOfNames(NameMatches(s));
    WarningKindsOfNames(NameMatches(s));
    WarningKindsOfDoubled(s, "&|");
    WarningKindsOfSpacing(s, ["->", "<->"]);
  }

  lemma {:induction false} ErrorKindsOfScope(s: string, qs: seq<string>)
    ensures forall d :: d in ScopeErrorsFor(s, qs) ==> d.UnscopedQuantifier?
  {
    if |qs| > 0 {
      var q := qs[|qs| - 1];
      ErrorKindsOfScope(s, qs[..|qs| - 1]);
      forall d | d in ScopeErrors(s, q, QuantMatches(s, q))
        ensures d.UnscopedQuantifier?
      {
        ScopeErrorsExactly(s, q, QuantMatches(s, q), d);
      }
    }
  }

  lemma {:induction false} VariableWarningKinds(s: string, ms: seq<QuantMatch>)
    requires QuantMatchesIn(s, ms)
    ensures forall d :: d in VariableWarnings(s, ms) ==> d.VariableCase?
  {
    if |ms| > 0 {
      VariableWarningKinds(s, ms[..|ms| - 1]);
    }
  }

  lemma {:induction false} WarningKindsOfScope(s: string, qs: seq<string>)
    ensures forall d :: d in VariableWarningsFor(s, qs) ==> d.VariableCase?
  {
    if |qs| > 0 {
      var q := qs[|qs| - 1];
      WarningKindsOfScope(s, qs[..|qs| - 1]);
      VariableWarningKinds(s, QuantMatches(s, q));
    }
  }

  lemma {:induction false} ErrorKindsOfNames(ms: seq<NameMatch>)
    ensures forall d :: d in NameErrors(ms) ==> d.ReservedName?
  {
    if |ms| > 0 {
      ErrorKindsOfNames(ms[..|ms| - 1]);
    }
  }

  lemma {:induction false} WarningKindsOfNames(ms: seq<NameMatch>)
    requires NameMatchesIn(ms)
    ensures forall d :: d in NameWarnings(ms) ==> d.UppercaseName?
  {
    if |ms| > 0 {
      WarningKindsOfNames(ms[..|ms| - 1]);
    }
  }

  lemma {:induction false} WarningKindsOfDoubled(s: string, ops: seq<char>)
    ensures forall d :: d in DoubledWarnings(s, ops) ==> d.DoubleOperator?
  {
    if |ops| > 0 {
      WarningKindsOfDoubled(s, ops[..|ops| - 1]);
    }
  }

  lemma {:induction false} WarningKindsOfSpacing(s: string, ops: seq<string>)
    ensures forall d :: d in SpacingWarnings(s, ops) ==> d.OperatorSpacing?
  {
    if |ops| > 0 {
      WarningKindsOfSpacing(s, ops[..|ops| - 1]);
    }
  }

  /**
   * A formula is valid exactly when, once its trailing dots are dropped, its
   * parentheses balance, every quantifier is scoped, no reserved word is used
   * as a call and `()` does not occur.
   */
  lemma ValidityExactly(formula: string, allFirst: bool)
    ensures Validation(formula, allFirst).valid <==>
      var s := RStripDots(formula);
      Balanced(s) && QuantifiersScoped(s) && !ReservedCall(s) && !Contains(s, "()")
  {
    var s := RStripDots(formula);
    ParenErrorsEmptyIffBalanced(s);
    QuantifierErrorsEmptyIff(s, allFirst);
    NameErrorsEmptyIff(NameMatches(s));
  }

  /** `valid` is the emptiness of the errors list, for every formula. */
  lemma ValidIffNoErrors(formula: string, allFirst: bool)
    ensures Validation(formula, allFirst).valid <==> |Validation(formula, allFirst).errors| == 0
  {
  }

  /** The order the quantifier set is visited in changes no verdict and no finding, only their order. */
  lemma VerdictOrderIrrelevant(formula: string)
    ensures Validation(formula, true).valid == Validation(formula, false).valid
    ensures multiset(Validation(formula, true).errors) == multiset(Validation(formula, false).errors)
    ensures multiset(Validation(formula, true).warnings) == multiset(Validation(formula, false).warnings)
  {
    var s := RStripDots(formula);
    QuantifierOrderIrrelevant(s);
    ValidityExactly(formula, true);
    ValidityExactly(formula, false);
  }

  /** `f`, `f.`, `f..` and so on are judged identically. */
  lemma TrailingDotsIgnored(formula: string, n: nat, allFirst: bool)
    ensures Validation(formula + Dots(n), allFirst) == Validation(formula, allFirst)
  {
    RStripDotsDots(formula, n);
  }

  /**
   * `get_syntax_help` knows exactly three topics, and falls back to its
   * default text exactly for the keys it has no entry for.
   */
  lemma SyntaxHelpFallback(errorType: string)
    ensures HelpMessages.Keys == {"quantifier", "implication", "parentheses"}
    ensures SyntaxHelp(errorType) == NoHelp <==> errorType !in HelpMessages
  {
    assert NoHelp[0] == 'N';
    assert QuantifierHelp[0] == '\n';
    assert ImplicationHelp[0] == '\n';
    assert ParenthesesHelp[0] == '\n';
  }

  // =====================================================================
  // The formulas of the source's own checks
  // =====================================================================

  /** Characters other than parentheses leave the scan's state alone. */
  lemma {:induction false} PlainRun(s: string, i: nat, j: nat)
    requires i <= j <= |s|
    requires forall k :: i <= k < j ==> s[k] != '(' && s[k] != ')'
    ensures DepthAt(s, j) == DepthAt(s, i) && BottomAt(s, j) == BottomAt(s, i)
    ensures ClosingErrorsAt(s, j) == ClosingErrorsAt(s, i)
  {
    if i < j {
      PlainRun(s, i, j - 1);
    }
  }

  /** The scan of `all x (P(x) -> Q(x)`, one parenthesis at a time. */
  lemma UnbalancedScan(s: string)
    requires s == "all x (P(x) -> Q(x)"
    ensures ParenErrors(s) == [UnmatchedOpening(6)]
  {
    PlainRun(s, 0, 6);
    assert DepthAt(s, 7) == 1 && BottomAt(s, 7) == 6 && ClosingErrorsAt(s, 7) == [];
    assert DepthAt(s, 8) == 1 && BottomAt(s, 8) == 6 && ClosingErrorsAt(s, 8) == [];
    assert DepthAt(s, 9) == 2 && BottomAt(s, 9) == 6 && ClosingErrorsAt(s, 9) == [];
    assert DepthAt(s, 10) == 2 && BottomAt(s, 10) == 6 && ClosingErrorsAt(s, 10) == [];
    assert DepthAt(s, 11) == 1 && BottomAt(s, 11) == 6 && ClosingErrorsAt(s, 11) == [];
    PlainRun(s, 11, 16);
    assert DepthAt(s, 17) == 2 && BottomAt(s, 17) == 6 && ClosingErrorsAt(s, 17) == [];
    assert DepthAt(s, 18) == 2 && BottomAt(s, 18) == 6 && ClosingErrorsAt(s, 18) == [];
    assert DepthAt(s, 19) == 1 && BottomAt(s, 19) == 6 && ClosingErrorsAt(s, 19) == [];
  }

  /**
   * The missing closing parenthesis of `all x (P(x) -> Q(x)`: invalid, and
   * the error names index 6, the `(` left open (not the end of the text).
   */
  lemma UnbalancedExample(s: string)
    requires s == "all x (P(x) -> Q(x)"
    ensures ParenErrors(s) == [UnmatchedOpening(6)]
    ensures forall allFirst :: !Validation(s, allFirst).valid && Validation(s, allFirst).errors[0] == UnmatchedOpening(6)
  {
    assert RStripDots(s) == s;
    UnbalancedScan(s);
  }

  /** The scan of `all x all y (p(x,y))` finds `all x` first, with no `(` after it. */
  lemma NestedScan(s: string)
    requires s == "all x all y (p(x,y))"
    ensures QuantMatch("x", 5) in QuantMatches(s, "all") && !ScopedAt(s, 5)
  {
    assert OccursAt(s, "all", 0) by { assert s[0..3] == "all"; }
    assert SkipSpace(s, 3) == 4;
    assert s[4..5] == "x";
    assert SkipWord(s, 4) == 5;
    assert QuantMatchAt(s, "all", 0) == Some(QuantMatch("x", 5));
    assert QuantMatches(s, "all")[0] == QuantMatch("x", 5);
    assert SkipSpace(s, 5) == 6;
  }

  /** A quantifier directly followed by another is rejected: the first is not followed by `(`. */
  lemma NestedQuantifierExample(s: string)
    requires s == "all x all y (p(x,y))"
    ensures forall allFirst :: !Validation(s, allFirst).valid
  {
    assert RStripDots(s) == s;
    NestedScan(s);
    assert !QuantifiersScoped(s);
    ValidityExactly(s, true);
    ValidityExactly(s, false);
  }
}

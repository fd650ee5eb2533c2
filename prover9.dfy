/**
 * The string logic of the Prover9 engine behind the `prove` and
 * `check-well-formed` tools (src/mcp_logic/server.py): the text of the
 * input file, the classification of what a run of the binary hands back,
 * the extraction of the proof from its output, and the `valid` verdict of
 * the well-formedness check. Running the binary is the `RunOutcome` given
 * as a parameter.
 */
module Prover9 {
  import opened Text
  import opened Subprocess

  // =====================================================================
  // The input file
  // =====================================================================

  /** The lines after the premises: the close of the assumptions, then the goal, kept as given. */
  function GoalBlock(goal: string): seq<string>
  {
    ["end_of_list.", "", "formulas(goals).", WithFinalDot(goal), "end_of_list."]
  }

  /** The lines of `_create_input_file`'s content, before they are joined with newlines. */
  function ProverInputLines(premises: seq<string>, goal: string): seq<string>
  {
    ["formulas(assumptions)."] + DottedAll(premises) + GoalBlock(goal)
  }

  /** The text written to the temporary input file. */
  function ProverInput(premises: seq<string>, goal: string): string
  {
    Join(ProverInputLines(premises, goal), "\n")
  }

  /**
   * Where each line sits: the premises in order, each ending in `.`, inside
   * the assumptions block, and the goal itself (not negated, unlike the
   * Mace4 file) as the one line of the goals block.
   */
  lemma ProverInputLayout(premises: seq<string>, goal: string)
    ensures var lines := ProverInputLines(premises, goal);
      && |lines| == |premises| + 6
      && lines[0] == "formulas(assumptions)."
      && lines[1..|premises| + 1] == DottedAll(premises)
      && lines[|premises| + 1..] == GoalBlock(goal)
      && lines[|premises| + 4] == WithFinalDot(goal)
      && lines[|premises| + 4][..|goal|] == goal
  {
    var head := ["formulas(assumptions)."] + DottedAll(premises);
    ConcatSplit(head, GoalBlock(goal));
    ConcatSplit(["formulas(assumptions)."], DottedAll(premises));
    SliceOfSlice(head + GoalBlock(goal), 0, |head|, 1, |head|);
  }

  lemma GoalBlockNoNewline(goal: string)
    requires '\n' !in goal
    ensures NewlineFree(GoalBlock(goal))
  {
    var line := WithFinalDot(goal);
    assert line == goal || line == goal + ".";
    assert '\n' !in line;
  }

  /**
   * Reading the file back line by line gives exactly the lines written,
   * as long as no premise and not the goal holds a newline of its own.
   */
  lemma ProverInputReadsBack(premises: seq<string>, goal: string)
    requires forall i :: 0 <= i < |premises| ==> '\n' !in premises[i]
    requires '\n' !in goal
    ensures Split(ProverInput(premises, goal), "\n") == ProverInputLines(premises, goal)
  {
    var opening: seq<string> := ["formulas(assumptions)."];
    assert NewlineFree(opening);
    DottedNoNewline(premises);
    GoalBlockNoNewline(goal);
    NewlineFreeConcat(opening, DottedAll(premises));
    NewlineFreeConcat(opening + DottedAll(premises), GoalBlock(goal));
    SplitJoin(ProverInputLines(premises, goal), '\n');
  }

  // =====================================================================
  // The proof in the output
  // =====================================================================

  const ProofMarker := "PROOF ="
  const ProofEnd := "===="

  /**
   * `stdout.split("PROOF =")[1].split("====")[0].strip()`; `None` where the
   * first split has no second piece and the indexing raises.
   */
  function ExtractProof(out: string): Option<string>
  {
    var parts := Split(out, ProofMarker);
    if |parts| < 2 then None else Some(Strip(Split(parts[1], ProofEnd)[0]))
  }

  /** A stripped text is a slice of the text, so it holds no `t` the text does not. */
  lemma StripKeepsOut(s: string, t: string)
    requires |t| > 0 && !Contains(s, t)
    ensures !Contains(Strip(s), t)
  {
    var a := SkipSpace(s, 0);
    NotContainsSlice(s, t, a, |s|);
    assert s[a..] == s[a..|s|];
    var l := LStrip(s);
    NotContainsSlice(l, t, 0, SpaceStart(l, |l|));
  }

  /** A `====` that begins before a `PROOF =` ends before it: the marker opens with `P`. */
  lemma NoEndAcrossMarker(rest: string, p: nat, i: nat)
    requires i < p && OccursAt(rest, ProofMarker, p)
    ensures OccursAt(rest, ProofEnd, i) ==> i + |ProofEnd| <= p
  {
    assert rest[p] == rest[p..p + |ProofMarker|][0] == 'P';
    if OccursAt(rest, ProofEnd, i) {
      assert forall j :: i <= j < i + |ProofEnd| ==> rest[j] == rest[i..i + |ProofEnd|][j - i];
    }
  }

  /**
   * The piece `split("PROOF =")[1].split("====")[0]` takes from what follows
   * the first marker: a prefix in which neither marker begins, and which
   * runs to the end or stops where one of them begins.
   */
  lemma SectionCut(rest: string)
    ensures var cut := Split(Split(rest, ProofMarker)[0], ProofEnd)[0];
      && |cut| <= |rest| && cut == rest[..|cut|]
      && !Contains(cut, ProofEnd) && !Contains(cut, ProofMarker)
      && (forall i: nat :: i < |cut| ==> !OccursAt(rest, ProofEnd, i) && !OccursAt(rest, ProofMarker, i))
      && (|cut| == |rest| || OccursAt(rest, ProofEnd, |cut|) || OccursAt(rest, ProofMarker, |cut|))
  {
    var section := Split(rest, ProofMarker)[0];
    var cut := Split(section, ProofEnd)[0];
    SplitHead(rest, ProofMarker);
    SplitHead(section, ProofEnd);
    NotContainsSlice(section, ProofMarker, 0, |cut|);
    assert section[..|cut|] == cut;
    if |cut| < |section| {
      SliceOfSlice(rest, 0, |section|, |cut|, |cut| + |ProofEnd|);
    }
    forall i: nat | i < |cut|
      ensures !OccursAt(rest, ProofEnd, i)
    {
      if |section| < |rest| {
        NoEndAcrossMarker(rest, |section|, i);
      }
      assert OccursAt(rest, ProofEnd, i) ==> section[i..i + |ProofEnd|] == rest[i..i + |ProofEnd|];
      assert OccursAt(rest, ProofEnd, i) ==> OccursAt(section, ProofEnd, i);
    }
  }

  /** An occurrence in a suffix is an occurrence in the whole, shifted, and the other way round. */
  lemma SuffixOccurrence(s: string, t: string, start: nat, k: nat)
    requires start <= |s|
    ensures OccursAt(s[start..], t, k) <==> OccursAt(s, t, start + k)
  {
    if start + k + |t| <= |s| {
      SliceOfSlice(s, start, |s|, k, k + |t|);
    }
  }

  /**
   * `out[start..e]` is a span a proof is cut from: no `====` and no
   * `PROOF =` begins inside it, and it ends at the end of the output or
   * where one of them begins. `ProofSpanUnique` shows that at most one
   * `e` qualifies.
   */
  predicate ProofSpan(out: string, start: nat, e: nat)
  {
    && start <= e <= |out|
    && (forall i: nat :: start <= i < e ==> !OccursAt(out, ProofEnd, i) && !OccursAt(out, ProofMarker, i))
    && (e == |out| || OccursAt(out, ProofEnd, e) || OccursAt(out, ProofMarker, e))
  }

  /** The span ends at the first place a marker begins: it is determined by its start. */
  lemma ProofSpanUnique(out: string, start: nat, e1: nat, e2: nat)
    requires ProofSpan(out, start, e1) && ProofSpan(out, start, e2)
    ensures e1 == e2
  {
  }

  /** `SectionCut` read in the coordinates of the whole output. */
  lemma CutSpan(out: string, start: nat, cut: string)
    requires start <= |out| && cut == Split(Split(out[start..], ProofMarker)[0], ProofEnd)[0]
    ensures start + |cut| <= |out| && out[start..start + |cut|] == cut
    ensures ProofSpan(out, start, start + |cut|)
    ensures !Contains(cut, ProofEnd) && !Contains(cut, ProofMarker)
  {
    var rest := out[start..];
    SectionCut(rest);
    assert out[start..start + |cut|] == rest[..|cut|];
    SpanFromSuffix(out, start, |cut|);
  }

  /** A span found in `out[start..]` is a span of `out`, shifted by `start`. */
  lemma SpanFromSuffix(out: string, start: nat, n: nat)
    requires start + n <= |out|
    requires forall i: nat :: i < n ==> !OccursAt(out[start..], ProofEnd, i) && !OccursAt(out[start..], ProofMarker, i)
    requires start + n == |out| || OccursAt(out[start..], ProofEnd, n) || OccursAt(out[start..], ProofMarker, n)
    ensures ProofSpan(out, start, start + n)
  {
    forall i: nat | start <= i < start + n
      ensures !OccursAt(out, ProofEnd, i) && !OccursAt(out, ProofMarker, i)
    {
      SuffixOccurrence(out, ProofEnd, start, i - start);
      SuffixOccurrence(out, ProofMarker, start, i - start);
    }
    SuffixOccurrence(out, ProofEnd, start, n);
    SuffixOccurrence(out, ProofMarker, start, n);
  }

  /** The stripped cut taken from `start` on: its span, and no marker in it. */
  lemma ProofFromCut(out: string, start: nat, cut: string)
    requires start <= |out| && cut == Split(Split(out[start..], ProofMarker)[0], ProofEnd)[0]
    ensures var proof := Strip(cut);
      && !Contains(proof, ProofEnd) && !Contains(proof, ProofMarker)
      && exists e: nat :: ProofSpan(out, start, e) && proof == Strip(out[start..e])
  {
    CutSpan(out, start, cut);
    StripKeepsOut(cut, ProofEnd);
    StripKeepsOut(cut, ProofMarker);
    SpanWitness(out, start, cut);
  }

  /** A span `out[start..e]` equal to `cut` is a witness for the stripped cut. */
  lemma SpanWitness(out: string, start: nat, cut: string)
    requires start + |cut| <= |out| && out[start..start + |cut|] == cut && ProofSpan(out, start, start + |cut|)
    ensures exists e: nat :: ProofSpan(out, start, e) && Strip(cut) == Strip(out[start..e])
  {
    var e := start + |cut|;
    assert ProofSpan(out, start, e) && Strip(cut) == Strip(out[start..e]);
  }

  /**
   * What `server.py` extracts, as written: present exactly when the output
   * holds `PROOF =`, and then the text that follows the first `PROOF =`, up
   * to the first place `====` or another `PROOF =` begins (or the end of
   * the output), with the surrounding white space stripped; so it never
   * holds either marker.
   */
  lemma ProofExtraction(out: string)
    ensures ExtractProof(out).Some? <==> Contains(out, ProofMarker)
    ensures ExtractProof(out).Some? ==>
      var start := Find(out, ProofMarker, 0) + |ProofMarker|;
      exists e: nat :: ProofSpan(out, start, e) && ExtractProof(out).value == Strip(out[start..e])
    ensures ExtractProof(out).Some? ==>
      !Contains(ExtractProof(out).value, ProofEnd) && !Contains(ExtractProof(out).value, ProofMarker)
  {
    SplitSecond(out, ProofMarker);
    if Contains(out, ProofMarker) {
      var start := Find(out, ProofMarker, 0) + |ProofMarker|;
      var cut := Split(Split(out[start..], ProofMarker)[0], ProofEnd)[0];
      assert ExtractProof(out) == Some(Strip(cut));
      ProofFromCut(out, start, cut);
    }
  }

  /**
   * As written, the cut stops at the first `====` after `PROOF =`, and a
   * banner line `=== PROOF ====...` puts one right there: whatever the
   * proof that follows, the extracted text is empty.
   */
  lemma EmptyProofAfterRule(out: string)
    requires Contains(out, ProofMarker)
    requires OccursAt(out, ProofEnd, Find(out, ProofMarker, 0) + |ProofMarker|)
    ensures ExtractProof(out) == Some("")
  {
    ProofExtraction(out);
    var start := Find(out, ProofMarker, 0) + |ProofMarker|;
    var e: nat :| ProofSpan(out, start, e) && ExtractProof(out).value == Strip(out[start..e]);
    ProofSpanUnique(out, start, e, start);
    assert out[start..e] == "";
  }

  /** The length of the run of `=` that opens `s`: the rest of a banner line. */
  function RuleLength(s: string): (n: nat)
    ensures n <= |s|
    ensures forall i :: 0 <= i < n ==> s[i] == '='
    ensures n == |s| || s[n] != '='
  {
    if |s| > 0 && s[0] == '=' then 1 + RuleLength(s[1..]) else 0
  }

  /** Where the intended proof starts: after the first `PROOF =` and the run of `=` that completes its banner. */
  function BodyStart(out: string): (b: nat)
    requires Contains(out, ProofMarker)
    ensures b <= |out|
  {
    var start := Find(out, ProofMarker, 0) + |ProofMarker|;
    start + RuleLength(out[start..])
  }

  /**
   * The proof as evidently intended: the text after the `PROOF =` banner,
   * once the rest of the banner's rule of `=` is skipped, up to the next
   * `====` (the closing banner) or `PROOF =`, stripped.
   */
  function ProofBody(out: string): Option<string>
  {
    if !Contains(out, ProofMarker) then None
    else Some(Strip(Split(Split(out[BodyStart(out)..], ProofMarker)[0], ProofEnd)[0]))
  }

  /**
   * The intended proof is there exactly when `PROOF =` is; it starts after
   * the rule of `=` that completes the banner and runs to the first marker
   * after that, so a banner no longer swallows the proof.
   */
  lemma ProofBodyExtraction(out: string)
    ensures ProofBody(out).Some? <==> Contains(out, ProofMarker)
    ensures ProofBody(out).Some? ==>
      var start, body := Find(out, ProofMarker, 0) + |ProofMarker|, BodyStart(out);
      && (forall i :: start <= i < body ==> out[i] == '=')
      && (body == |out| || out[body] != '=')
    ensures ProofBody(out).Some? ==>
      exists e: nat :: ProofSpan(out, BodyStart(out), e) && ProofBody(out).value == Strip(out[BodyStart(out)..e])
    ensures ProofBody(out).Some? ==>
      !Contains(ProofBody(out).value, ProofEnd) && !Contains(ProofBody(out).value, ProofMarker)
  {
    if Contains(out, ProofMarker) {
      RuleAt(out, Find(out, ProofMarker, 0) + |ProofMarker|);
      ProofFromCut(out, BodyStart(out), Split(Split(out[BodyStart(out)..], ProofMarker)[0], ProofEnd)[0]);
    }
  }

  /** `RuleLength` read in the coordinates of the whole output. */
  lemma RuleAt(out: string, start: nat)
    requires start <= |out|
    ensures var body := start + RuleLength(out[start..]);
      && body <= |out|
      && (forall i :: start <= i < body ==> out[i] == '=')
      && (body == |out| || out[body] != '=')
  {
    var n := RuleLength(out[start..]);
    assert forall i :: start <= i < start + n ==> out[i] == out[start..][i - start];
    assert start + n < |out| ==> out[start + n] == out[start..][n];
  }

  /** Where no `=` follows the marker, the intended proof is the one the code extracts. */
  lemma ProofBodyAgrees(out: string)
    requires Contains(out, ProofMarker)
    requires var start := Find(out, ProofMarker, 0) + |ProofMarker|; start == |out| || out[start] != '='
    ensures ProofBody(out) == ExtractProof(out)
  {
    SplitSecond(out, ProofMarker);
    var start := Find(out, ProofMarker, 0) + |ProofMarker|;
    assert start < |out| ==> out[start..][0] == out[start];
    assert RuleLength(out[start..]) == 0;
    assert BodyStart(out) == start;
  }

  /** A banner line with one character of proof after it. */
  const BannerOutput := "PROOF =====x"

  /** On the banner output the code's cut is empty: the proof `x` is lost. */
  lemma BannerAsWritten()
    ensures ExtractProof(BannerOutput) == Some("")
  {
    var out := BannerOutput;
    assert OccursAt(out, ProofMarker, 0);
    assert OccursAt(out, ProofEnd, 7);
    EmptyProofAfterRule(out);
  }

  /** On the same output the intended reading finds the proof `x`. */
  lemma BannerIntended()
    ensures ProofBody(BannerOutput) == Some("x")
  {
    var out := BannerOutput;
    assert OccursAt(out, ProofMarker, 0);
    assert out[7..] == "====x";
    assert RuleLength("====x") == 4;
    assert out[11..] == "x";
    assert Split("x", ProofMarker) == ["x"];
    assert Split("x", ProofEnd) == ["x"];
    assert Strip("x") == "x";
  }

  // =====================================================================
  // Classifying a run
  // =====================================================================

  /** The record `_run_prover` returns, one variant per branch. */
  datatype ProverResult =
    | Proved(proof: string, completeOutput: string)
    | Unprovable(completeOutput: string)
    | SyntaxError(error: string)
    | UnexpectedOutput(output: string, error: string)
    | Timeout(seconds: int)
    | Failed(reason: string)
  {
    /** The `result` field. */
    function Tag(): string
    {
      match this
      case Proved(_, _) => "proved"
      case Unprovable(_) => "unprovable"
      case SyntaxError(_) => "error"
      case UnexpectedOutput(_, _) => "error"
      case Timeout(_) => "timeout"
      case Failed(_) => "error"
    }

    /** The `reason` field, where the record has one. */
    function Reason(): Option<string>
    {
      match this
      case Proved(_, _) => None
      case Unprovable(_) => Some("Proof search failed")
      case SyntaxError(_) => Some("Syntax error")
      case UnexpectedOutput(_, _) => Some("Unexpected output")
      case Timeout(t) => Some("Proof search exceeded " + IntToString(t) + " seconds")
      case Failed(e) => Some(e)
    }

    /** `results.get("error", "")`. */
    function ErrorText(): string
    {
      match this
      case SyntaxError(e) => e
      case UnexpectedOutput(_, e) => e
      case _ => ""
    }
  }

  /** What `str(e)` gives for the `IndexError` of a proof without `PROOF =`. */
  const IndexErrorText := "list index out of range"

  /**
   * The if/elif chain of `_run_prover` and its two exception handlers, with
   * the code's own cut `ExtractProof` as the proof; `ClassifyIntended` uses
   * the corrected `ProofBody` instead.
   */
  function Classify(run: RunOutcome, timeout: int): ProverResult
  {
    match run
    case TimedOut => Timeout(timeout)
    case Raised(e) => Failed(e)
    case Completed(out, err) => Verdict(out, err, ExtractProof(out))
  }

  /** The branches for a completed run, given the proof cut from its output. */
  function Verdict(out: string, err: string, proof: Option<string>): ProverResult
  {
    if Contains(out, "THEOREM PROVED") then
      match proof
      case Some(p) => Proved(p, out)
      case None => Failed(IndexErrorText)
    else if Contains(out, "SEARCH FAILED") then Unprovable(out)
    else if Contains(err, "Fatal error") then SyntaxError(err)
    else UnexpectedOutput(out, err)
  }

  /** `_run_prover` as evidently intended: the proof after a banner is kept. */
  function ClassifyIntended(run: RunOutcome, timeout: int): ProverResult
  {
    match run
    case Completed(out, err) => Verdict(out, err, ProofBody(out))
    case _ => Classify(run, timeout)
  }

  /**
   * The intended record differs from the code's only in the proof of a
   * proved run, and not at all when no `=` follows the first `PROOF =`.
   */
  lemma IntendedDiffersOnlyInProof(run: RunOutcome, timeout: int)
    ensures var r, s := Classify(run, timeout), ClassifyIntended(run, timeout);
      && (r.Proved? <==> s.Proved?)
      && (r.Proved? ==> s.completeOutput == r.completeOutput && s.proof == ProofBody(run.stdout).value)
      && (!r.Proved? ==> s == r)
    ensures run.Completed? && Contains(run.stdout, ProofMarker) ==>
      var start := Find(run.stdout, ProofMarker, 0) + |ProofMarker|;
      (start == |run.stdout| || run.stdout[start] != '=') ==> ClassifyIntended(run, timeout) == Classify(run, timeout)
  {
    if run.Completed? {
      var out := run.stdout;
      ProofExtraction(out);
      ProofBodyExtraction(out);
      var start := Find(out, ProofMarker, 0) + |ProofMarker|;
      if Contains(out, ProofMarker) && (start == |out| || out[start] != '=') {
        ProofBodyAgrees(out);
      }
    }
  }

  /**
   * The branches of a completed run, in order of priority: a proof wins
   * over a failed search, a failed search over a fatal error on standard
   * error, and a proof with no `PROOF =` marker is an error record.
   */
  lemma ClassificationOrder(out: string, err: string, timeout: int)
    ensures var r, proved, failed := Classify(Completed(out, err), timeout),
      Contains(out, "THEOREM PROVED"), Contains(out, "SEARCH FAILED");
      && (r.Proved? <==> proved && Contains(out, ProofMarker))
      && (r.Proved? ==> r == Proved(ExtractProof(out).value, out))
      && (r.Failed? <==> proved && !Contains(out, ProofMarker))
      && (r.Unprovable? <==> !proved && failed)
      && (r.SyntaxError? <==> !proved && !failed && Contains(err, "Fatal error"))
      && (r.UnexpectedOutput? <==> !proved && !failed && !Contains(err, "Fatal error"))
  {
    SplitSecond(out, ProofMarker);
  }

  /** Standard error only matters once standard output reports neither a proof nor a failed search. */
  lemma StderrOnlyForErrors(out: string, err1: string, err2: string, timeout: int)
    requires Contains(out, "THEOREM PROVED") || Contains(out, "SEARCH FAILED")
    ensures Classify(Completed(out, err1), timeout) == Classify(Completed(out, err2), timeout)
  {
  }

  /** Every path yields a record whose `result` is one of four values; only a timeout says `timeout`. */
  lemma ClassificationTotal(run: RunOutcome, timeout: int)
    ensures Classify(run, timeout).Tag() in {"proved", "unprovable", "error", "timeout"}
    ensures Classify(run, timeout).Tag() == "timeout" <==> run.TimedOut?
    ensures run.Raised? ==> Classify(run, timeout) == Failed(run.message)
  {
  }

  /** The seconds in a timeout's reason read back as the limit that was applied. */
  lemma TimeoutReasonReadsBack(t: int)
    ensures var r := Timeout(t).Reason().value;
      && |r| == |"Proof search exceeded "| + |IntToString(t)| + |" seconds"|
      && ParseInt(r[|"Proof search exceeded "|..|r| - |" seconds"|]) == Some(t)
  {
    var r := Timeout(t).Reason().value;
    assert r[|"Proof search exceeded "|..|r| - |" seconds"|] == IntToString(t);
    ParseIntToString(t);
  }

  // =====================================================================
  // The two tools
  // =====================================================================

  /** `_run_prover`'s default, used by `prove`. */
  const ProveTimeout := 60

  /** The limit `check-well-formed` passes. */
  const WellFormedTimeout := 5

  /** The dummy goal `check-well-formed` writes after the statements. */
  const DummyGoal := "true"

  /** The file a tool call writes and the record its run yields. */
  datatype ToolRun = ToolRun(input: string, result: ProverResult)

  /** `prove`: the premises and the conclusion as the goal, run with the default limit. */
  function Prove(premises: seq<string>, conclusion: string, run: RunOutcome): ToolRun
  {
    ToolRun(ProverInput(premises, conclusion), Classify(run, ProveTimeout))
  }

  /** `is_valid`: the record's error text, if any, does not mention a fatal error. */
  predicate IsValid(r: ProverResult)
  {
    !Contains(r.ErrorText(), "Fatal error")
  }

  /** What `check-well-formed` reports: the verdict and the record it came from. */
  datatype WellFormedReport = WellFormedReport(input: string, valid: bool, details: ProverResult)

  /** `check-well-formed`: the statements with the dummy goal, run with the short limit. */
  function CheckWellFormed(statements: seq<string>, run: RunOutcome): (r: WellFormedReport)
    ensures r.valid <==> !r.details.SyntaxError?
    ensures !r.valid <==>
      && run.Completed? && !Contains(run.stdout, "THEOREM PROVED")
      && !Contains(run.stdout, "SEARCH FAILED") && Contains(run.stderr, "Fatal error")
    ensures r.details.Timeout? ==> r.details.Reason() == Some("Proof search exceeded 5 seconds")
  {
    var details := Classify(run, WellFormedTimeout);
    assert IntToString(WellFormedTimeout) == "5" by {
      assert DigitChar(5) == '5';
    }
    assert "Proof search exceeded " + "5" + " seconds" == "Proof search exceeded 5 seconds";
    WellFormedReport(ProverInput(statements, DummyGoal), IsValid(details), details)
  }

  /** A timed-out `prove` call reports the full minute. */
  lemma ProveTimeoutReason(premises: seq<string>, conclusion: string)
    ensures Prove(premises, conclusion, TimedOut).result.Reason() == Some("Proof search exceeded 60 seconds")
  {
    assert IntToString(ProveTimeout) == "60" by {
      assert NatToString(6) == [DigitChar(6)] && DigitChar(6) == '6';
      assert NatToString(60) == NatToString(6) + [DigitChar(0)] && DigitChar(0) == '0';
    }
    assert "Proof search exceeded " + "60" + " seconds" == "Proof search exceeded 60 seconds";
  }

  /** The well-formedness file holds the statements as premises and `true.` as its goal. */
  lemma WellFormedInput(statements: seq<string>, run: RunOutcome)
    ensures CheckWellFormed(statements, run).input == Join(ProverInputLines(statements, DummyGoal), "\n")
    ensures var lines := ProverInputLines(statements, DummyGoal);
      && lines[1..|statements| + 1] == DottedAll(statements)
      && lines[|statements| + 4] == "true."
  {
    DummyGoalLines(statements);
  }

  lemma DummyGoalLines(statements: seq<string>)
    ensures var lines := ProverInputLines(statements, DummyGoal);
      && lines[1..|statements| + 1] == DottedAll(statements)
      && lines[|statements| + 4] == "true."
  {
    assert WithFinalDot(DummyGoal) == "true." by {
      assert DummyGoal[|DummyGoal| - 1] == 'e';
      assert DummyGoal + "." == "true.";
    }
    ProverInputLayout(statements, DummyGoal);
  }
}

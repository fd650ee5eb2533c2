/**
 * The string logic of the Mace4 wrapper (src/mcp_logic/mace4_wrapper.py):
 * the text of the input file, the classification of what a run of the
 * binary hands back, the small parser that pulls a model out of its
 * output, and the shaping of the results of `find_model` and
 * `find_counterexample`. Running the binary is the `RunOutcome` given as a
 * parameter.
 */
module Mace4 {
  import opened Text
  import opened Subprocess

  // =====================================================================
  // The input file
  // =====================================================================

  /** The domain-size settings: the size asked for, or a search from 2 up to 10. */
  function HeaderLines(domainSize: Option<int>): (r: seq<string>)
    ensures |r| == (if domainSize.Some? then 1 else 2)
  {
    match domainSize
    case Some(n) => ["assign(domain_size, " + IntToString(n) + ")."]
    case None => ["assign(domain_size, 2).", "assign(end_size, 10)."]
  }

  /** `if goal:` in the source: no goal, or the empty goal, means no goals block. */
  predicate HasGoal(goal: Option<string>)
  {
    goal.Some? && goal.value != ""
  }

  /** The goal, trailing dots removed, negated so that a model of it refutes the goal. */
  function NegatedGoal(goal: string): string
  {
    "-((" + RStripDots(goal) + "))."
  }

  function GoalLines(goal: Option<string>): seq<string>
  {
    if HasGoal(goal) then ["formulas(goals).", NegatedGoal(goal.value), "end_of_list."] else []
  }

  /** The time limit, then the opening of the assumptions block. */
  const SettingsLines: seq<string> := ["assign(max_seconds, 60).", "", "formulas(assumptions)."]

  /** The close of the assumptions block. */
  const AssumptionsEnd: seq<string> := ["end_of_list.", ""]

  /** The lines of the input file, before they are joined with newlines. */
  function InputLines(premises: seq<string>, goal: Option<string>, domainSize: Option<int>): seq<string>
  {
    HeaderLines(domainSize) + SettingsLines + DottedAll(premises) + AssumptionsEnd + GoalLines(goal)
  }

  /** The content-building part of `_create_input_file`. */
  method CreateInputContent(premises: seq<string>, goal: Option<string>, domainSize: Option<int>)
    returns (content: string)
    ensures content == Join(InputLines(premises, goal, domainSize), "\n")
  {
    var lines: seq<string> := [];
    if domainSize.Some? {
      lines := lines + ["assign(domain_size, " + IntToString(domainSize.value) + ")."];
    } else {
      lines := lines + ["assign(domain_size, 2)."];
      lines := lines + ["assign(end_size, 10)."];
    }
    assert lines == HeaderLines(domainSize);
    lines := lines + ["assign(max_seconds, 60)."];
    lines := lines + [""];
    lines := lines + ["formulas(assumptions)."];
    assert lines == HeaderLines(domainSize) + SettingsLines;
    lines := AppendPremises(lines, premises);
    lines := lines + ["end_of_list."];
    lines := lines + [""];
    assert lines == HeaderLines(domainSize) + SettingsLines + DottedAll(premises) + AssumptionsEnd;
    lines := AppendGoal(lines, goal);
    content := Join(lines, "\n");
  }

  /** The goals block of `_create_input_file`, written only for a goal that is present and non-empty. */
  method AppendGoal(lines: seq<string>, goal: Option<string>) returns (r: seq<string>)
    ensures r == lines + GoalLines(goal)
  {
    r := lines;
    if goal.Some? && goal.value != "" {
      r := r + ["formulas(goals)."];
      r := r + ["-((" + RStripDots(goal.value) + "))."];
      r := r + ["end_of_list."];
      assert r == lines + ["formulas(goals).", NegatedGoal(goal.value), "end_of_list."];
    } else {
      assert GoalLines(goal) == [];
    }
  }

  /** The loop of `_create_input_file` that writes each premise, with a final dot added when it has none. */
  method AppendPremises(lines: seq<string>, premises: seq<string>) returns (r: seq<string>)
    ensures r == lines + DottedAll(premises)
  {
    r := lines;
    for i := 0 to |premises|
      invariant r == lines + DottedAll(premises[..i])
    {
      assert premises[..i + 1][..i] == premises[..i];
      AppendAssoc(lines, DottedAll(premises[..i]), [WithFinalDot(premises[i])]);
      r := r + [WithFinalDot(premises[i])];
    }
    assert premises[..|premises|] == premises;
  }

  /**
   * Where each line sits: the header, the time limit, the premises in order
   * between `formulas(assumptions).` and `end_of_list.`, then the goals
   * block exactly when there is a non-empty goal.
   */
  lemma InputLayout(premises: seq<string>, goal: Option<string>, domainSize: Option<int>)
    ensures |InputLines(premises, goal, domainSize)|
      == |HeaderLines(domainSize)| + |premises| + 5 + (if HasGoal(goal) then 3 else 0)
    ensures var lines, h := InputLines(premises, goal, domainSize), |HeaderLines(domainSize)|;
      && lines[..h] == HeaderLines(domainSize)
      && lines[h..h + 3] == SettingsLines
      && lines[h + 3..h + 3 + |premises|] == DottedAll(premises)
      && lines[h + 3 + |premises|..h + 5 + |premises|] == AssumptionsEnd
      && lines[h + 5 + |premises|..] == GoalLines(goal)
  {
    assert |SettingsLines| == 3 && |AssumptionsEnd| == 2;
    ConcatParts(HeaderLines(domainSize), SettingsLines, DottedAll(premises), AssumptionsEnd, GoalLines(goal));
  }

  /** A goal given with or without its trailing dots yields the same file. */
  lemma GoalDotsIgnored(premises: seq<string>, goal: string, n: nat, domainSize: Option<int>)
    requires goal != ""
    ensures InputLines(premises, Some(goal + Dots(n)), domainSize) == InputLines(premises, Some(goal), domainSize)
  {
    RStripDotsDots(goal, n);
  }

  /** `IntToString` never produces a newline. */
  lemma IntToStringNoNewline(n: int)
    ensures '\n' !in IntToString(n)
  {
    var r := NatToString(if n < 0 then -n else n);
    assert forall i :: 0 <= i < |r| ==> r[i] != '\n';
  }

  lemma HeaderNoNewline(domainSize: Option<int>)
    ensures NewlineFree(HeaderLines(domainSize))
  {
    if domainSize.Some? {
      IntToStringNoNewline(domainSize.value);
      assert '\n' !in HeaderLines(domainSize)[0];
    }
  }

  lemma GoalNoNewline(goal: Option<string>)
    requires goal.Some? ==> '\n' !in goal.value
    ensures NewlineFree(GoalLines(goal))
  {
    if HasGoal(goal) {
      var g := RStripDots(goal.value);
      assert g == goal.value[..|g|];
      assert '\n' !in g;
      assert '\n' !in GoalLines(goal)[1];
    }
  }

  lemma FixedLinesNoNewline()
    ensures NewlineFree(SettingsLines) && NewlineFree(AssumptionsEnd)
  {
    assert NewlineFree(SettingsLines) && NewlineFree(AssumptionsEnd);
  }

  lemma LinesHaveNoNewline(premises: seq<string>, goal: Option<string>, domainSize: Option<int>)
    requires forall i :: 0 <= i < |premises| ==> '\n' !in premises[i]
    requires goal.Some? ==> '\n' !in goal.value
    ensures NewlineFree(InputLines(premises, goal, domainSize))
  {
    var header, dotted, goals := HeaderLines(domainSize), DottedAll(premises), GoalLines(goal);
    HeaderNoNewline(domainSize);
    DottedNoNewline(premises);
    GoalNoNewline(goal);
    var middle, tail := SettingsLines, AssumptionsEnd;
    FixedLinesNoNewline();
    NewlineFreeConcat(header, middle);
    NewlineFreeConcat(header + middle, dotted);
    NewlineFreeConcat(header + middle + dotted, tail);
    NewlineFreeConcat(header + middle + dotted + tail, goals);
  }

  /**
   * Reading the file back line by line gives exactly the lines written,
   * as long as no premise and not the goal holds a newline of its own.
   */
  lemma InputReadsBack(premises: seq<string>, goal: Option<string>, domainSize: Option<int>)
    requires forall i :: 0 <= i < |premises| ==> '\n' !in premises[i]
    requires goal.Some? ==> '\n' !in goal.value
    ensures Split(Join(InputLines(premises, goal, domainSize), "\n"), "\n") == InputLines(premises, goal, domainSize)
  {
    LinesHaveNoNewline(premises, goal, domainSize);
    SplitJoin(InputLines(premises, goal, domainSize), '\n');
  }

  // =====================================================================
  // The model parser
  // =====================================================================

  /** What `_parse_model` reports; its `predicates`, `functions` and `constants` stay empty. */
  datatype Model = Model(domainSize: Option<int>, rawInterpretation: string)

  const Opening := "interpretation("
  const Closing := "end_of_list"

  /** The number a `DOMAIN SIZE` line ends with, if it ends with one. */
  function SizeReported(line: string): Option<int>
  {
    if Contains(line, "DOMAIN SIZE") then
      match LastWord(line)
      case None => None
      case Some(word) => ParseInt(word)
    else None
  }

  /** The last of the values present in `sizes`. */
  function LastPresent(sizes: seq<Option<int>>): Option<int>
  {
    if |sizes| == 0 then None
    else if sizes[|sizes| - 1].Some? then sizes[|sizes| - 1]
    else LastPresent(sizes[..|sizes| - 1])
  }

  function SizesReported(lines: seq<string>): (r: seq<Option<int>>)
    ensures |r| == |lines| && forall i :: 0 <= i < |lines| ==> r[i] == SizeReported(lines[i])
  {
    seq(|lines|, i requires 0 <= i < |lines| => SizeReported(lines[i]))
  }

  /** The size of the last line of `lines` that reports one. */
  function LastDomainSize(lines: seq<string>): Option<int>
  {
    LastPresent(SizesReported(lines))
  }

  /** From the first `interpretation(` through the first `end_of_list` after it, if there is one. */
  function InterpretationBlock(output: string): Option<string>
  {
    if Contains(output, Opening) then
      var start := Find(output, Opening, 0);
      var end := Find(output, Closing, start as nat);
      if end > start then Some(output[start..end + |Closing|]) else None
    else None
  }

  /** What the loop over the block's lines adds for one line: the stripped line, if it is a signature. */
  function SignatureLine(line: string): string
  {
    var stripped := Strip(line);
    if StartsWith(stripped, "function(") || StartsWith(stripped, "relation(") then "\n" + stripped else ""
  }

  function SignatureLines(lines: seq<string>): string
  {
    if |lines| == 0 then "" else SignatureLines(lines[..|lines| - 1]) + SignatureLine(lines[|lines| - 1])
  }

  lemma SignatureLinesStep(lines: seq<string>, k: nat)
    requires k < |lines|
    ensures SignatureLines(lines[..k + 1]) == SignatureLines(lines[..k]) + SignatureLine(lines[k])
  {
    assert lines[..k + 1][..k] == lines[..k];
  }

  /** One more line adds its own signature text at the end. */
  lemma SignatureLinesSnoc(lines: seq<string>, line: string)
    ensures SignatureLines(lines + [line]) == SignatureLines(lines) + SignatureLine(line)
  {
    ConcatSplit(lines, [line]);
  }

  /** The signature lines of two runs of lines, one after the other, are those of each in turn. */
  lemma {:induction false} SignatureLinesConcat(a: seq<string>, b: seq<string>)
    ensures SignatureLines(a + b) == SignatureLines(a) + SignatureLines(b)
    decreases |b|
  {
    if |b| == 0 {
      assert a + b == a;
    } else {
      var init, last := b[..|b| - 1], b[|b| - 1];
      SliceJoin(b, |b| - 1);
      assert b[|b| - 1..] == [last];
      AppendAssoc(a, init, [last]);
      SignatureLinesConcat(a, init);
      AppendAssoc(SignatureLines(a), SignatureLines(init), SignatureLine(last));
      SignatureLinesSnoc(a + init, last);
      SignatureLinesSnoc(init, last);
    }
  }

  /** Each line's signature text sits between those of the lines before it and those after it. */
  lemma SignatureLineKept(lines: seq<string>, k: nat)
    requires k < |lines|
    ensures SignatureLines(lines) == SignatureLines(lines[..k]) + SignatureLine(lines[k]) + SignatureLines(lines[k + 1..])
  {
    SliceJoin(lines, k + 1);
    SignatureLinesConcat(lines[..k + 1], lines[k + 1..]);
    SignatureLinesStep(lines, k);
  }

  function RawInterpretation(output: string): string
  {
    match InterpretationBlock(output)
    case None => ""
    case Some(block) => Strip(block) + SignatureLines(Split(block, "\n"))
  }

  function ModelOf(output: string): Model
  {
    Model(LastDomainSize(Split(output, "\n")), RawInterpretation(output))
  }

  /** The loop of `_parse_model` over the lines of the output. */
  method ScanDomainSize(lines: seq<string>) returns (size: Option<int>)
    ensures size == LastDomainSize(lines)
  {
    size := None;
    ghost var sizes := SizesReported(lines);
    for k := 0 to |lines|
      invariant size == LastPresent(sizes[..k])
    {
      assert sizes[..k + 1][..k] == sizes[..k];
      var line := lines[k];
      if Contains(line, "DOMAIN SIZE") {
        var word := LastWord(line);
        if word.Some? {
          var value := ParseInt(word.value);
          if value.Some? {
            size := Some(value.value);
          }
        }
      }
    }
    assert sizes[..|sizes|] == sizes;
  }

  /** The loop of `_parse_model` over the lines of the block, appending to `raw`. */
  method AppendSignatures(raw: string, lines: seq<string>) returns (r: string)
    ensures r == raw + SignatureLines(lines)
  {
    r := raw;
    for k := 0 to |lines|
      invariant r == raw + SignatureLines(lines[..k])
    {
      SignatureLinesStep(lines, k);
      var line := Strip(lines[k]);
      if StartsWith(line, "function(") || StartsWith(line, "relation(") {
        AppendAssoc(raw, SignatureLines(lines[..k]), "\n" + line);
        r := r + ("\n" + line);
      }
    }
    assert lines[..|lines|] == lines;
  }

  /** The block `_parse_model` cuts out, from the positions it finds. */
  lemma BlockAt(output: string, start: int, end: int)
    requires Contains(output, Opening) && start == Find(output, Opening, 0)
    requires end == Find(output, Closing, start as nat)
    ensures end > start ==>
      && end + |Closing| <= |output|
      && InterpretationBlock(output) == Some(output[start..end + |Closing|])
    ensures end <= start ==> InterpretationBlock(output).None? && RawInterpretation(output) == ""
  {
  }

  /** `_parse_model`. */
  method ParseModel(output: string) returns (model: Model)
    ensures model == ModelOf(output)
  {
    var size := ScanDomainSize(Split(output, "\n"));
    var raw := "";
    if Contains(output, Opening) {
      var start := Find(output, Opening, 0);
      var end := Find(output, Closing, start as nat);
      BlockAt(output, start, end);
      if end > start {
        var interpretation := output[start..end + |Closing|];
        raw := Strip(interpretation);
        raw := AppendSignatures(raw, Split(interpretation, "\n"));
      }
    } else {
      assert InterpretationBlock(output).None?;
    }
    model := Model(size, raw);
  }

  lemma {:induction false} LastPresentIsLast(sizes: seq<Option<int>>)
    ensures LastPresent(sizes).None? <==> forall i :: 0 <= i < |sizes| ==> sizes[i].None?
    ensures LastPresent(sizes).Some? ==>
      exists i :: 0 <= i < |sizes| && sizes[i] == LastPresent(sizes) && forall j :: i < j < |sizes| ==> sizes[j].None?
  {
    if |sizes| > 0 {
      var n := |sizes| - 1;
      var front := sizes[..n];
      LastPresentIsLast(front);
      assert forall i :: 0 <= i < n ==> front[i] == sizes[i];
      if sizes[n].Some? {
        assert sizes[n] == LastPresent(sizes);
      } else if LastPresent(sizes).Some? {
        var i :| 0 <= i < n && front[i] == LastPresent(front) && forall j :: i < j < n ==> front[j].None?;
        assert sizes[i] == LastPresent(sizes);
      }
    }
  }

  /**
   * The domain size is that of the last line that reports one: none when
   * no line does, and otherwise a reporting line after which no line reports.
   */
  lemma DomainSizeIsLast(lines: seq<string>)
    ensures LastDomainSize(lines).None? <==> forall i :: 0 <= i < |lines| ==> SizeReported(lines[i]).None?
    ensures LastDomainSize(lines).Some? ==>
      exists i :: 0 <= i < |lines| && SizeReported(lines[i]) == LastDomainSize(lines)
        && forall j :: i < j < |lines| ==> SizeReported(lines[j]).None?
  {
    LastPresentIsLast(SizesReported(lines));
  }

  /** `end_of_list` cannot begin inside `interpretation(`. */
  lemma ClosingNotInsideOpening(output: string, start: nat, end: nat)
    requires OccursAt(output, Opening, start) && OccursAt(output, Closing, end) && start <= end
    ensures start + |Opening| <= end
  {
    assert output[start..start + |Opening|] == Opening;
    assert output[end..end + |Closing|] == Closing;
    assert output[end] == 'e' && output[end + 1] == 'n' by {
      assert output[end] == output[end..end + |Closing|][0];
      assert output[end + 1] == output[end..end + |Closing|][1];
    }
  }

  /** A slice that runs up to the first `end_of_list` holds no earlier one. */
  lemma NoEarlierClosing(output: string, start: nat, end: nat, block: string)
    requires start <= end && end + |Closing| <= |output| && block == output[start..end + |Closing|]
    requires forall i: nat :: start <= i < end ==> !OccursAt(output, Closing, i)
    ensures forall i: nat :: i < end - start ==> !OccursAt(block, Closing, i)
  {
    forall i: nat | i < end - start
      ensures !OccursAt(block, Closing, i)
    {
      if OccursAt(block, Closing, i) {
        SliceOfSlice(output, start, end + |Closing|, i, i + |Closing|);
        assert OccursAt(output, Closing, start + i);
      }
    }
  }

  /** The slice from an `interpretation(` through the first `end_of_list` after it. */
  lemma BlockShape(output: string, start: nat, end: nat)
    requires OccursAt(output, Opening, start) && OccursAt(output, Closing, end) && start <= end
    requires forall i: nat :: start <= i < end ==> !OccursAt(output, Closing, i)
    ensures var block := output[start..end + |Closing|];
      && StartsWith(block, Opening)
      && |block| >= |Opening| + |Closing|
      && block[|block| - |Closing|..] == Closing
      && (forall i: nat :: i < |block| - |Closing| ==> !OccursAt(block, Closing, i))
      && OccursAt(output, block, start)
  {
    ClosingNotInsideOpening(output, start, end);
    var block := output[start..end + |Closing|];
    NoEarlierClosing(output, start, end, block);
    SliceOfSlice(output, start, end + |Closing|, 0, |Opening|);
    SliceOfSlice(output, start, end + |Closing|, |block| - |Closing|, |block|);
  }

  /**
   * The block, when there is one, starts at the first `interpretation(`,
   * ends with `end_of_list` and holds no earlier `end_of_list`; there is
   * none exactly when no `end_of_list` follows the first `interpretation(`.
   */
  lemma InterpretationBlockShape(output: string)
    ensures InterpretationBlock(output).Some? <==>
      Contains(output, Opening) && Find(output, Closing, Find(output, Opening, 0) as nat) >= 0
    ensures InterpretationBlock(output).Some? ==>
      var block := InterpretationBlock(output).value;
      && StartsWith(block, Opening)
      && |block| >= |Opening| + |Closing|
      && block[|block| - |Closing|..] == Closing
      && (forall i: nat :: i < |block| - |Closing| ==> !OccursAt(block, Closing, i))
      && OccursAt(output, block, Find(output, Opening, 0) as nat)
  {
    if Contains(output, Opening) {
      var start := Find(output, Opening, 0) as nat;
      var end := Find(output, Closing, start);
      if end >= 0 {
        BlockShape(output, start, end as nat);
        assert InterpretationBlock(output) == Some(output[start..end + |Closing|]);
      }
    }
  }

  /** The block begins with the `i` of `interpretation(` and ends with the `t` of `end_of_list`. */
  lemma BlockEnds(output: string)
    ensures InterpretationBlock(output).Some? ==>
      var block := InterpretationBlock(output).value;
      |block| > 0 && block[0] == 'i' && block[|block| - 1] == 't'
  {
    if InterpretationBlock(output).Some? {
      var block := InterpretationBlock(output).value;
      InterpretationBlockShape(output);
      assert block[0] == Opening[0] by { assert block[..|Opening|] == Opening; }
      assert block[|block| - 1] == Closing[|Closing| - 1] by {
        assert block[|block| - |Closing|..] == Closing;
      }
    }
  }

  /**
   * The raw interpretation is empty exactly when there is no block, and
   * otherwise opens with the block itself, untouched by the strip.
   */
  lemma RawInterpretationShape(output: string)
    ensures RawInterpretation(output) == "" <==> InterpretationBlock(output).None?
    ensures InterpretationBlock(output).Some? ==>
      StartsWith(RawInterpretation(output), InterpretationBlock(output).value)
    ensures InterpretationBlock(output).Some? ==>
      var block := InterpretationBlock(output).value;
      RawInterpretation(output) == block + SignatureLines(Split(block, "\n"))
  {
    match InterpretationBlock(output)
    case None =>
    case Some(block) =>
      BlockEnds(output);
      StripUntrimmed(block);
      var extra := SignatureLines(Split(block, "\n"));
      assert RawInterpretation(output) == block + extra;
      ConcatSplit(block, extra);
  }

  /**
   * Every line of the block that, stripped, opens with `function(` or
   * `relation(` is appended again after the block, on a line of its own,
   * in the order of the block's lines; with `RawInterpretationShape` this is
   * where each such line sits in the raw interpretation.
   */
  lemma SignaturesKept(block: string, lines: seq<string>, k: nat)
    requires k < |lines| && (StartsWith(Strip(lines[k]), "function(") || StartsWith(Strip(lines[k]), "relation("))
    ensures OccursAt(block + SignatureLines(lines), "\n" + Strip(lines[k]), |block| + |SignatureLines(lines[..k])|)
  {
    SignatureLineKept(lines, k);
    OccursInside(block, SignatureLines(lines[..k]), SignatureLine(lines[k]), SignatureLines(lines[k + 1..]));
  }

  // =====================================================================
  // Classifying a run
  // =====================================================================

  /** The record `_run_mace4` returns, one variant per branch. */
  datatype Mace4Result =
    | ModelFound(model: Model, completeOutput: string, interpretation: Option<string>)
    | NoModelFound(completeOutput: string)
    | InputError(error: string)
    | Unknown(output: string, error: string)
    | Timeout(seconds: int)
    | Failed(reason: string)
  {
    /** The `result` field. */
    function Tag(): string
    {
      match this
      case ModelFound(_, _, _) => "model_found"
      case NoModelFound(_) => "no_model_found"
      case InputError(_) => "error"
      case Unknown(_, _) => "unknown"
      case Timeout(_) => "timeout"
      case Failed(_) => "error"
    }

    /** The `reason` field, where the record has one. */
    function Reason(): Option<string>
    {
      match this
      case ModelFound(_, _, _) => None
      case NoModelFound(_) => Some("No finite model found within domain size limits")
      case InputError(_) => Some("Syntax error or invalid input")
      case Unknown(_, _) => Some("Unexpected Mace4 output")
      case Timeout(t) => Some("Model search exceeded " + IntToString(t) + " seconds")
      case Failed(e) => Some(e)
    }
  }

  predicate ReportsModel(stdout: string)
  {
    Contains(stdout, "DOMAIN SIZE") && Contains(stdout, Opening)
  }

  predicate ReportsNoModel(stdout: string)
  {
    Contains(stdout, "SEARCH FAILED") || Contains(stdout, "SEARCH TERMINATED")
  }

  predicate ReportsFatal(stdout: string, stderr: string)
  {
    Contains(stderr, "Fatal error") || Contains(stdout, "Fatal error")
  }

  /** The if/elif chain of `_run_mace4` and its two exception handlers. */
  function Classify(run: RunOutcome, timeout: int): Mace4Result
  {
    match run
    case TimedOut => Timeout(timeout)
    case Raised(e) => Failed(e)
    case Completed(out, err) =>
      if ReportsModel(out) then ModelFound(ModelOf(out), out, None)
      else if ReportsNoModel(out) then NoModelFound(out)
      else if ReportsFatal(out, err) then InputError(if err != "" then err else out)
      else Unknown(out, err)
  }

  /**
   * The tags of a completed run, in order of priority: a model wins over a
   * failed search, a failed search over a fatal error, and only a run with
   * none of them is unknown.
   */
  lemma ClassificationOrder(out: string, err: string, timeout: int)
    ensures var tag := Classify(Completed(out, err), timeout).Tag();
      && (tag == "model_found" <==> ReportsModel(out))
      && (tag == "no_model_found" <==> !ReportsModel(out) && ReportsNoModel(out))
      && (tag == "error" <==> !ReportsModel(out) && !ReportsNoModel(out) && ReportsFatal(out, err))
      && (tag == "unknown" <==> !ReportsModel(out) && !ReportsNoModel(out) && !ReportsFatal(out, err))
  {
  }

  /** Standard error only matters once standard output reports neither a model nor a failed search. */
  lemma StderrOnlyForErrors(out: string, err1: string, err2: string, timeout: int)
    requires ReportsModel(out) || ReportsNoModel(out)
    ensures Classify(Completed(out, err1), timeout) == Classify(Completed(out, err2), timeout)
  {
  }

  /** The `error` text of an input error is never empty: it is whichever stream has text. */
  lemma InputErrorText(out: string, err: string, timeout: int)
    ensures Classify(Completed(out, err), timeout).InputError? ==>
      var e := Classify(Completed(out, err), timeout).error;
      e != "" && (e == err || (err == "" && e == out))
  {
    var r := Classify(Completed(out, err), timeout);
    if r.InputError? && err == "" {
      assert Contains(out, "Fatal error");
    }
  }

  /** Every path yields a record whose `result` is one of five values; only a timeout says `timeout`. */
  lemma ClassificationTotal(run: RunOutcome, timeout: int)
    ensures Classify(run, timeout).Tag() in {"model_found", "no_model_found", "error", "unknown", "timeout"}
    ensures Classify(run, timeout).Tag() == "timeout" <==> run.TimedOut?
    ensures run.Raised? ==> Classify(run, timeout) == Failed(run.message)
  {
  }

  // =====================================================================
  // The public entry points
  // =====================================================================

  /** `_run_mace4`'s default, which neither entry point overrides. */
  const SearchTimeout := 60

  /** `find_model`: the file it writes, and the classified run. */
  method FindModel(premises: seq<string>, domainSize: Option<int>, run: RunOutcome)
    returns (input: string, result: Mace4Result)
    ensures input == Join(InputLines(premises, None, domainSize), "\n")
    ensures |InputLines(premises, None, domainSize)| == |HeaderLines(domainSize)| + |premises| + 5
    ensures result == Classify(run, SearchTimeout)
  {
    input := CreateInputContent(premises, None, domainSize);
    result := Classify(run, SearchTimeout);
  }

  function CounterexampleNote(conclusion: string): string
  {
    "Counterexample found: The premises are satisfied but the conclusion '" + conclusion
    + "' is FALSE in this model."
  }

  /**
   * `find_counterexample`: the classified run, with the `interpretation`
   * note added when, and only when, a model was found.
   */
  method FindCounterexample(premises: seq<string>, conclusion: string, domainSize: Option<int>, run: RunOutcome)
    returns (input: string, result: Mace4Result)
    ensures input == Join(InputLines(premises, Some(conclusion), domainSize), "\n")
    ensures result.Tag() == Classify(run, SearchTimeout).Tag()
    ensures result.ModelFound? ==>
      result == Classify(run, SearchTimeout).(interpretation := Some(CounterexampleNote(conclusion)))
    ensures !result.ModelFound? ==> result == Classify(run, SearchTimeout)
  {
    input := CreateInputContent(premises, Some(conclusion), domainSize);
    result := Classify(run, SearchTimeout);
    if result.ModelFound? {
      result := result.(interpretation := Some(CounterexampleNote(conclusion)));
    }
  }
}

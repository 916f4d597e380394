/**
 * `process_file` for one recording: parse the expected note, classify the
 * analysis against it, and review the mismatch when the policy asks for it.
 */
module FileProcessor {
  import opened Wrappers
  import opened FilenameCodec
  import opened MatchClassifier
  import opened ReviewWorkflow

  /** Loading and pitch tracking either raised (the exception is caught and reported) or gave a detection. */
  datatype Analysis = AnalysisFailed | Analysed(detection: Detection)

  /** How the processing of one file ended. */
  datatype FileReport =
    | NoExpectedNote
    | ProcessingError(expected: string)
    | Matched(expected: string, detected: string)
    | OctaveReviewSkipped(expected: string, detected: string)
    | Reviewed(expected: string, detected: string, verdict: Verdict, decision: Decision, effect: Effect)
      /** The operator had no further line to give: the program waits at a prompt for ever. */
    | Blocked(expected: string, detected: string, verdict: Verdict)

  /** The verdict the program computes for a name and an analysis. */
  function VerdictOf(expected: string, d: Detection): Verdict {
    Classify(DetectedNote(d), expected)
  }

  /**
   * `process_file` for the file called `name`, and the first operator line
   * it leaves unread. The operator's lines are `inputs`, read from index
   * `from`. A review reads one line at the "press spacebar" prompt before
   * the action loop. `renameOk` is whether an `os.rename`, if one is
   * attempted, succeeds.
   */
  function Outcome(name: string, analysis: Analysis, notesOnly: bool, renameOk: bool, inputs: seq<string>, from: nat): (FileReport, nat)
    requires from <= |inputs|
  {
    match ParseExpected(name)
    case None => (NoExpectedNote, from)
    case Some(expected) =>
      match analysis
      case AnalysisFailed => (ProcessingError(expected), from)
      case Analysed(d) =>
        var detected := DetectedNote(d);
        var verdict := Classify(detected, expected);
        if verdict == Match then (Matched(expected, detected), from)
        else if verdict == OctaveOnlyMismatch && notesOnly then (OctaveReviewSkipped(expected, detected), from)
        else ReviewOutcome(name, expected, detected, verdict, renameOk, inputs, from)
  }

  /** The review of a mismatch: the spacebar prompt reads line `from`, the action loop starts after it. */
  function ReviewOutcome(name: string, expected: string, detected: string, verdict: Verdict, renameOk: bool, inputs: seq<string>, from: nat): (FileReport, nat)
    requires from <= |inputs|
  {
    if from == |inputs| then (Blocked(expected, detected, verdict), |inputs|)
    else
      match ReviewFrom(ReviewContext(detected, verdict == OctaveOnlyMismatch), inputs, from + 1)
      case AwaitingInput => (Blocked(expected, detected, verdict), |inputs|)
      case Decided(decision, next) =>
        (Reviewed(expected, detected, verdict, decision, ApplyDecision(name, decision, renameOk)), next)
  }

  /**
   * Which way a file goes: skipped without an expected note, an analysis
   * error, a match, an octave-only mismatch with review skipped under
   * `--notes-only`, or a review (finished or waiting for a line) exactly
   * when the review policy asks for one.
   */
  lemma OutcomeKind(name: string, analysis: Analysis, notesOnly: bool, renameOk: bool, inputs: seq<string>, from: nat)
    requires from <= |inputs|
    ensures var report := Outcome(name, analysis, notesOnly, renameOk, inputs, from).0;
      && (report.NoExpectedNote? <==> ParseExpected(name).None?)
      && (report.ProcessingError? <==> ParseExpected(name).Some? && analysis.AnalysisFailed?)
      && (report.Matched? <==>
            ParseExpected(name).Some? && analysis.Analysed? && VerdictOf(ParseExpected(name).value, analysis.detection) == Match)
      && (report.OctaveReviewSkipped? <==>
            ParseExpected(name).Some? && analysis.Analysed? && notesOnly
            && VerdictOf(ParseExpected(name).value, analysis.detection) == OctaveOnlyMismatch)
      && (report.Reviewed? || report.Blocked? <==>
            ParseExpected(name).Some? && analysis.Analysed?
            && NeedsReview(VerdictOf(ParseExpected(name).value, analysis.detection), notesOnly))
  {
    if ParseExpected(name).Some? && analysis.Analysed? {
      var expected := ParseExpected(name).value;
      var detected := DetectedNote(analysis.detection);
      var verdict := Classify(detected, expected);
      assert VerdictOf(expected, analysis.detection) == verdict;
      ReviewOutcomeLines(name, expected, detected, verdict, renameOk, inputs, from);
    }
  }

  /** The expected note, detected note and verdict a report carries are the ones the program computed. */
  lemma OutcomeFields(name: string, analysis: Analysis, notesOnly: bool, renameOk: bool, inputs: seq<string>, from: nat)
    requires from <= |inputs|
    ensures var report := Outcome(name, analysis, notesOnly, renameOk, inputs, from).0;
      && (!report.NoExpectedNote? ==> report.expected == ParseExpected(name).value)
      && (report.Matched? || report.OctaveReviewSkipped? || report.Reviewed? || report.Blocked? ==>
            analysis.Analysed? && report.detected == DetectedNote(analysis.detection))
      && (report.Reviewed? || report.Blocked? ==>
            analysis.Analysed? && report.verdict == VerdictOf(report.expected, analysis.detection))
  {
    if ParseExpected(name).Some? && analysis.Analysed? {
      var expected := ParseExpected(name).value;
      var detected := DetectedNote(analysis.detection);
      var verdict := Classify(detected, expected);
      assert VerdictOf(expected, analysis.detection) == verdict;
      ReviewOutcomeLines(name, expected, detected, verdict, renameOk, inputs, from);
    }
  }

  /**
   * A finished review is the review loop run from the line after the
   * spacebar prompt, and its effect is its decision applied to the name; a
   * review left waiting has read every line.
   */
  lemma ReviewOutcomeLines(name: string, expected: string, detected: string, verdict: Verdict, renameOk: bool, inputs: seq<string>, from: nat)
    requires from <= |inputs|
    ensures var (report, next) := ReviewOutcome(name, expected, detected, verdict, renameOk, inputs, from);
      && (report.Reviewed? || report.Blocked?)
      && report.expected == expected && report.detected == detected && report.verdict == verdict
      && from <= next <= |inputs|
      && (report.Reviewed? ==>
            from + 1 < next
            && ReviewFrom(ReviewContext(detected, verdict == OctaveOnlyMismatch), inputs, from + 1) == Decided(report.decision, next)
            && report.effect == ApplyDecision(name, report.decision, renameOk))
      && (report.Blocked? ==> next == |inputs|)
  {
    if from < |inputs| {
      ReviewAdvances(ReviewContext(detected, verdict == OctaveOnlyMismatch), inputs, from + 1);
    }
  }

  /** Only a review reads operator lines; the lines it reads are described by `ReviewOutcomeLines`. */
  lemma OutcomeLines(name: string, analysis: Analysis, notesOnly: bool, renameOk: bool, inputs: seq<string>, from: nat)
    requires from <= |inputs|
    ensures var (report, next) := Outcome(name, analysis, notesOnly, renameOk, inputs, from);
      && from <= next <= |inputs|
      && (report.Reviewed? ==>
            from + 1 < next
            && ReviewFrom(ReviewContext(report.detected, report.verdict == OctaveOnlyMismatch), inputs, from + 1)
               == Decided(report.decision, next)
            && report.effect == ApplyDecision(name, report.decision, renameOk))
      && (report.Blocked? ==> next == |inputs|)
      && (!report.Reviewed? && !report.Blocked? ==> next == from)
  {
    if ParseExpected(name).Some? && analysis.Analysed? {
      var expected := ParseExpected(name).value;
      var detected := DetectedNote(analysis.detection);
      var verdict := Classify(detected, expected);
      ReviewOutcomeLines(name, expected, detected, verdict, renameOk, inputs, from);
    }
  }

  /** A finished review of an octave-only mismatch never decides on flagging. */
  lemma ReviewNeverFlagsOctaveOnly(name: string, expected: string, detected: string, renameOk: bool, inputs: seq<string>, from: nat)
    requires from <= |inputs|
    ensures var report := ReviewOutcome(name, expected, detected, OctaveOnlyMismatch, renameOk, inputs, from).0;
      report.Reviewed? ==> report.decision != FlagFile
  {
    if from < |inputs| {
      ReviewExit(ReviewContext(detected, true), inputs, from + 1);
    }
  }

  /**
   * An octave-only mismatch is never flagged: a finished review of one never
   * decides on flagging, and under `--notes-only` such a file is never
   * reviewed at all.
   */
  lemma OctaveOnlyNeverFlagged(name: string, analysis: Analysis, notesOnly: bool, renameOk: bool, inputs: seq<string>, from: nat)
    requires from <= |inputs|
    ensures var report := Outcome(name, analysis, notesOnly, renameOk, inputs, from).0;
      && (report.Reviewed? && report.verdict == OctaveOnlyMismatch ==> report.decision != FlagFile)
      && ((report.Reviewed? || report.Blocked?) && report.verdict == OctaveOnlyMismatch ==> !notesOnly)
  {
    if ParseExpected(name).Some? && analysis.Analysed? {
      var expected := ParseExpected(name).value;
      var detected := DetectedNote(analysis.detection);
      var verdict := Classify(detected, expected);
      ReviewOutcomeLines(name, expected, detected, verdict, renameOk, inputs, from);
      if verdict == OctaveOnlyMismatch {
        ReviewNeverFlagsOctaveOnly(name, expected, detected, renameOk, inputs, from);
      }
    }
  }

  /** The steps of `process_file`, with the review loop run as a loop. */
  method ProcessFile(name: string, analysis: Analysis, notesOnly: bool, renameOk: bool, inputs: seq<string>, from: nat)
    returns (report: FileReport, next: nat)
    requires from <= |inputs|
    ensures (report, next) == Outcome(name, analysis, notesOnly, renameOk, inputs, from)
  {
    next := from;
    var parsed := ParseExpected(name);
    if parsed.None? {
      return NoExpectedNote, next;
    }
    var expected := parsed.value;
    if analysis.AnalysisFailed? {
      return ProcessingError(expected), next;
    }
    var detected := DetectedNote(analysis.detection);
    var verdict := Classify(detected, expected);
    var octaveOnly := verdict == OctaveOnlyMismatch;
    if verdict == Match {
      return Matched(expected, detected), next;
    } else if octaveOnly && notesOnly {
      return OctaveReviewSkipped(expected, detected), next;
    }
    report, next := ReviewMismatch(name, expected, detected, verdict, renameOk, inputs, from);
  }

  /** The review part of `process_file`, from the spacebar prompt to the end of the action loop. */
  method ReviewMismatch(name: string, expected: string, detected: string, verdict: Verdict, renameOk: bool, inputs: seq<string>, from: nat)
    returns (report: FileReport, next: nat)
    requires from <= |inputs|
    ensures (report, next) == ReviewOutcome(name, expected, detected, verdict, renameOk, inputs, from)
  {
    if from == |inputs| {
      return Blocked(expected, detected, verdict), |inputs|;
    }
    var state := ReviewLoop(ReviewContext(detected, verdict == OctaveOnlyMismatch), inputs, from + 1);
    if state.AwaitingInput? {
      return Blocked(expected, detected, verdict), |inputs|;
    }
    var effect := ApplyDecision(name, state.decision, renameOk);
    return Reviewed(expected, detected, verdict, state.decision, effect), state.next;
  }
}

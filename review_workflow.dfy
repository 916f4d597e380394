/**
 * The review of a non-matching file (`process_file`, lines 124-225): whether
 * review happens, which actions are offered, the `while True` loop over the
 * operator's lines, and the rename or flag that a decision applies.
 */
module ReviewWorkflow {
  import opened Wrappers
  import opened Text
  import opened NoteMapper
  import opened FilenameCodec
  import opened MatchClassifier

  /** Review is entered unless the verdict is a match, or octave-only with `--notes-only` set. */
  predicate NeedsReview(v: Verdict, notesOnly: bool) {
    v != Match && !(v == OctaveOnlyMismatch && notesOnly)
  }

  /** The entries of the action prompt. */
  datatype Action = Keep | RenameToDetected | RenameManually | FlagForReview

  /** The menu: flagging is offered only when the mismatch is not octave-only. */
  function OfferedActions(octaveOnly: bool): seq<Action> {
    [Keep, RenameToDetected, RenameManually] + (if octaveOnly then [] else [FlagForReview])
  }

  /** The key that selects an action. */
  function ActionKey(a: Action): char {
    match a
    case Keep => 'k'
    case RenameToDetected => 'r'
    case RenameManually => 'm'
    case FlagForReview => 'f'
  }

  /** The text of `options`: the flag entry is listed exactly when it is offered. */
  function OptionsPrompt(octaveOnly: bool): (r: string)
    ensures EndsWith(r, ", [f]lag for review: ") <==> FlagForReview in OfferedActions(octaveOnly)
  {
    var r := "[k]eep, [r]ename to detected note, [m]anually input" + (if octaveOnly then "" else ", [f]lag for review") + ": ";
    assert octaveOnly ==> r[|r| - 3] == 't' && ", [f]lag for review: "[18] == 'w';
    r
  }

  /**
   * One line at the action prompt, stripped and lower-cased; "f" selects
   * flagging only when it is offered. Anything else is an invalid choice.
   * The lower-cased line equals a one-letter key exactly when the stripped
   * line is a single character whose lower case is that key, so only that
   * character is lowered.
   */
  function ParseChoice(raw: string, octaveOnly: bool): Option<Action> {
    var c := Strip(raw);
    if |c| != 1 then None
    else
      var key := LowerChar(c[0]);
      if key == 'k' then Some(Keep)
      else if key == 'r' then Some(RenameToDetected)
      else if key == 'm' then Some(RenameManually)
      else if key == 'f' && !octaveOnly then Some(FlagForReview)
      else None
  }

  /**
   * An action is accepted exactly when it is offered: its key selects it when
   * listed, and no line selects an action the menu does not list.
   */
  lemma ChoiceAcceptedIffOffered(raw: string, octaveOnly: bool)
    ensures ParseChoice(raw, octaveOnly).Some? ==> ParseChoice(raw, octaveOnly).value in OfferedActions(octaveOnly)
    ensures forall a :: a in OfferedActions(octaveOnly) <==> ParseChoice([ActionKey(a)], octaveOnly) == Some(a)
  {
    forall a ensures a in OfferedActions(octaveOnly) <==> ParseChoice([ActionKey(a)], octaveOnly) == Some(a) {
      var k := [ActionKey(a)];
      assert TrimLeft(k) == k && TrimRight(k) == k && Strip(k) == k;
    }
  }

  /** The manual note as the program reads it: the line stripped and upper-cased. */
  function ManualNote(raw: string): string {
    Upper(Strip(raw))
  }

  /** `re.match(r"^[A-G][#b]?\d$", note)`, case-sensitive; `$` also accepts a final newline. */
  predicate ManualNoteAccepted(note: string) {
    var t := note[..DollarEnd(note)];
    (|t| == 2 && IsLetter(t[0]) && IsDigit(t[1]))
    || (|t| == 3 && IsLetter(t[0]) && IsAccidental(t[1]) && IsDigit(t[2]))
  }

  /**
   * An accepted manual note is a note token with no trailing newline (strip
   * removed it) and no flat (upper-casing turned any 'b' into 'B').
   */
  lemma ManualNoteIsToken(raw: string)
    requires ManualNoteAccepted(ManualNote(raw))
    ensures var n := ManualNote(raw);
      IsExpectedToken(n) && IsTokenCI(n) && Upper(n) == n && (|n| == 3 ==> n[1] == '#')
  {
    var s := Strip(raw);
    var n := ManualNote(raw);
    StripEnds(raw);
    assert |n| > 0;
    assert n[|n| - 1] == UpperChar(s[|s| - 1]);
    assert DollarEnd(n) == |n|;
    assert n[..DollarEnd(n)] == n;
    assert |n| == 3 ==> n[1] == UpperChar(s[1]);
    UpperFixed(n);
  }

  /** What the loop settles on. */
  datatype Decision = KeepName | RenameTo(note: string) | FlagFile

  /** A decision with the index of the first line not consumed, or the loop still waiting for a line. */
  datatype ReviewState = Decided(decision: Decision, next: nat) | AwaitingInput

  /** What the loop depends on: the detected note string and whether the mismatch is octave-only. */
  datatype ReviewContext = ReviewContext(detected: string, octaveOnly: bool)

  /** One pass of the loop body at line i: a final state, or the line at which the prompt is shown again. */
  datatype Step = Finish(state: ReviewState) | Continue(next: nat)

  function ReviewStep(ctx: ReviewContext, inputs: seq<string>, i: nat): (r: Step)
    requires i < |inputs|
    ensures r.Continue? ==> i < r.next <= |inputs|
  {
    match ParseChoice(inputs[i], ctx.octaveOnly)
    case None => Continue(i + 1)
    case Some(Keep) => Finish(Decided(KeepName, i + 1))
    case Some(RenameToDetected) => Finish(Decided(RenameTo(ctx.detected), i + 1))
    case Some(RenameManually) =>
      if i + 1 == |inputs| then Finish(AwaitingInput)
      else if ManualNoteAccepted(ManualNote(inputs[i + 1])) then Finish(Decided(RenameTo(ManualNote(inputs[i + 1])), i + 2))
      else Continue(i + 2)
    case Some(FlagForReview) => Finish(Decided(FlagFile, i + 1))
  }

  /**
   * The loop from line i on. `k`, `r`, an accepted manual note and an offered
   * `f` end it; an invalid choice, and a manual note that is not accepted,
   * go back to the action prompt. `r` takes the detected string whatever it
   * is, "None" included. When the lines run out the loop is still waiting.
   */
  function ReviewFrom(ctx: ReviewContext, inputs: seq<string>, i: nat): ReviewState
    requires i <= |inputs|
    decreases |inputs| - i, 1
  {
    if i == |inputs| then AwaitingInput else ReviewAt(ctx, inputs, i)
  }

  /** The loop at a line that exists. */
  function ReviewAt(ctx: ReviewContext, inputs: seq<string>, i: nat): ReviewState
    requires i < |inputs|
    decreases |inputs| - i, 0
  {
    match ReviewStep(ctx, inputs, i)
    case Finish(state) => state
    case Continue(next) => ReviewFrom(ctx, inputs, next)
  }

  /**
   * The line that ended the loop with decision d, `next` being the first line
   * not read: `k`; `r`, renaming to the detected string; an accepted manual
   * note right after `m`; or `f`, offered only when not octave-only.
   */
  predicate TerminalAt(ctx: ReviewContext, inputs: seq<string>, d: Decision, next: nat)
    requires 0 < next <= |inputs|
  {
    match d
    case KeepName => ParseChoice(inputs[next - 1], ctx.octaveOnly) == Some(Keep)
    case FlagFile => !ctx.octaveOnly && ParseChoice(inputs[next - 1], ctx.octaveOnly) == Some(FlagForReview)
    case RenameTo(note) =>
      (ParseChoice(inputs[next - 1], ctx.octaveOnly) == Some(RenameToDetected) && note == ctx.detected)
      || (next >= 2 && ParseChoice(inputs[next - 2], ctx.octaveOnly) == Some(RenameManually)
          && note == ManualNote(inputs[next - 1]) && ManualNoteAccepted(note))
  }

  lemma StepExit(ctx: ReviewContext, inputs: seq<string>, i: nat)
    requires i < |inputs|
    ensures var r := ReviewStep(ctx, inputs, i);
      r.Finish? && r.state.Decided? ==>
        i < r.state.next <= i + 2 && r.state.next <= |inputs| && TerminalAt(ctx, inputs, r.state.decision, r.state.next)
  {
  }

  /** The `while True` loop, reading the operator's lines from index `from`. */
  method ReviewLoop(ctx: ReviewContext, inputs: seq<string>, from: nat) returns (r: ReviewState)
    requires from <= |inputs|
    ensures r == ReviewFrom(ctx, inputs, from)
  {
    var i := from;
    while i < |inputs|
      invariant from <= i <= |inputs|
      invariant ReviewFrom(ctx, inputs, i) == ReviewFrom(ctx, inputs, from)
      decreases |inputs| - i
    {
      var choice := ParseChoice(inputs[i], ctx.octaveOnly);
      if choice == Some(Keep) {
        return Decided(KeepName, i + 1);
      } else if choice == Some(RenameToDetected) {
        return Decided(RenameTo(ctx.detected), i + 1);
      } else if choice == Some(RenameManually) {
        if i + 1 == |inputs| {
          return AwaitingInput;
        }
        var note := ManualNote(inputs[i + 1]);
        if ManualNoteAccepted(note) {
          return Decided(RenameTo(note), i + 2);
        }
        i := i + 2;
      } else if choice == Some(FlagForReview) {
        return Decided(FlagFile, i + 1);
      } else {
        i := i + 1;
      }
    }
    return AwaitingInput;
  }

  /**
   * The loop ends only on a terminal line: the last line it consumed is `k`,
   * `r` (renaming to the detected string), an accepted manual note right
   * after `m`, or an offered `f`; flagging never ends an octave-only review.
   */
  lemma {:induction false} ReviewExit(ctx: ReviewContext, inputs: seq<string>, i: nat)
    requires i <= |inputs|
    decreases |inputs| - i
    ensures var r := ReviewFrom(ctx, inputs, i);
      r.Decided? ==> i < r.next <= |inputs| && TerminalAt(ctx, inputs, r.decision, r.next)
  {
    if i < |inputs| {
      StepExit(ctx, inputs, i);
      if ReviewStep(ctx, inputs, i).Continue? {
        ReviewExit(ctx, inputs, ReviewStep(ctx, inputs, i).next);
      }
    }
  }

  /**
   * A terminal line ends the loop right there: `k`, `r` and an offered `f`
   * decide on the line itself; `m` followed by an accepted note decides on
   * the note's line, and `m` on the last line leaves the loop waiting for
   * the note. With `ReviewSkipsInvalid`, the loop stops at its first
   * terminal line.
   */
  lemma ReviewStopsAtTerminal(ctx: ReviewContext, inputs: seq<string>, i: nat)
    requires i < |inputs|
    ensures var c := ParseChoice(inputs[i], ctx.octaveOnly);
      && (c == Some(Keep) ==> ReviewFrom(ctx, inputs, i) == Decided(KeepName, i + 1))
      && (c == Some(RenameToDetected) ==> ReviewFrom(ctx, inputs, i) == Decided(RenameTo(ctx.detected), i + 1))
      && (c == Some(FlagForReview) ==> !ctx.octaveOnly && ReviewFrom(ctx, inputs, i) == Decided(FlagFile, i + 1))
      && (c == Some(RenameManually) && i + 1 == |inputs| ==> ReviewFrom(ctx, inputs, i) == AwaitingInput)
      && (c == Some(RenameManually) && i + 1 < |inputs| && ManualNoteAccepted(ManualNote(inputs[i + 1])) ==>
            ReviewFrom(ctx, inputs, i) == Decided(RenameTo(ManualNote(inputs[i + 1])), i + 2))
  {
    ChoiceAcceptedIffOffered(inputs[i], ctx.octaveOnly);
  }

  /** A decided review consumed at least the line it started on, and no line past the end. */
  lemma ReviewAdvances(ctx: ReviewContext, inputs: seq<string>, i: nat)
    requires i <= |inputs|
    ensures ReviewFrom(ctx, inputs, i).Decided? ==> i < ReviewFrom(ctx, inputs, i).next <= |inputs|
  {
    ReviewExit(ctx, inputs, i);
  }

  /**
   * There is no retry limit: a run of invalid choices is passed over, and a
   * review of nothing but invalid choices is still waiting at the end.
   */
  lemma {:induction false} ReviewSkipsInvalid(ctx: ReviewContext, inputs: seq<string>, i: nat, j: nat)
    requires i <= j <= |inputs|
    requires forall k :: i <= k < j ==> ParseChoice(inputs[k], ctx.octaveOnly).None?
    ensures ReviewFrom(ctx, inputs, i) == ReviewFrom(ctx, inputs, j)
    decreases j - i
  {
    if i < j {
      InvalidChoiceSkipped(ctx, inputs, i);
      ReviewSkipsInvalid(ctx, inputs, i + 1, j);
    }
  }

  /** A single line that selects no offered action is passed over. */
  lemma InvalidChoiceSkipped(ctx: ReviewContext, inputs: seq<string>, i: nat)
    requires i < |inputs| && ParseChoice(inputs[i], ctx.octaveOnly).None?
    ensures ReviewFrom(ctx, inputs, i) == ReviewFrom(ctx, inputs, i + 1)
  {
    assert ReviewStep(ctx, inputs, i) == Continue(i + 1);
  }

  /** An invalid manual note goes back to the action prompt, not to another note prompt. */
  lemma ReviewRetriesAfterInvalidManualNote(ctx: ReviewContext, inputs: seq<string>, i: nat)
    requires i + 1 < |inputs|
    requires ParseChoice(inputs[i], ctx.octaveOnly) == Some(RenameManually)
    requires !ManualNoteAccepted(ManualNote(inputs[i + 1]))
    ensures ReviewFrom(ctx, inputs, i) == ReviewFrom(ctx, inputs, i + 2)
  {
  }

  /** What applying a decision does to the file. */
  datatype Effect = NameKept | Renamed(newName: string) | RenameFailed(target: string) | AlreadyFlagged

  /** `os.rename`, whose success is given: a failure leaves the file as it was and ends the loop all the same. */
  function Attempt(target: string, renameOk: bool): Effect {
    if renameOk then Renamed(target) else RenameFailed(target)
  }

  /** The filesystem effect of a decision on the file called `name`. */
  function ApplyDecision(name: string, d: Decision, renameOk: bool): Effect {
    match d
    case KeepName => NameKept
    case RenameTo(note) => Attempt(RewriteSuffix(name, note), renameOk)
    case FlagFile =>
      match FlagTarget(name)
      case None => AlreadyFlagged
      case Some(target) => Attempt(target, renameOk)
  }

  /** The name the file has afterwards. */
  function FinalName(name: string, e: Effect): string {
    if e.Renamed? then e.newName else name
  }

  /**
   * Keeping, a failed rename and re-flagging leave the name; a rename to a
   * note token leaves a name whose expected note is that token; a flag keeps
   * the expected note and leaves the name starting with '_'.
   */
  lemma DecisionOutcome(name: string, d: Decision, renameOk: bool)
    requires ParseExpected(name).Some?
    ensures var after := FinalName(name, ApplyDecision(name, d, renameOk));
      && (d == KeepName || !renameOk ==> after == name)
      && (d.RenameTo? && IsTokenCI(d.note) && renameOk ==> ParseExpected(after) == Some(Upper(d.note)))
      && (d == FlagFile ==> ParseExpected(after) == ParseExpected(name))
      && (d == FlagFile && renameOk ==> StartsWith(after, "_"))
      && (d == FlagFile && StartsWith(name, "_") ==> ApplyDecision(name, d, renameOk) == AlreadyFlagged)
  {
    if d.RenameTo? && IsTokenCI(d.note) {
      RewriteRoundTrip(name, d.note);
    }
    if d == FlagFile {
      FlagKeepsExpected(name);
    }
  }

  /**
   * Renaming to the detected note leaves a parseable name exactly when the
   * detected octave is a single digit (MIDI 12 to 131); "None" never does.
   */
  lemma RenameToDetectedParses(name: string, d: Detection)
    requires ParseExpected(name).Some?
    ensures var after := RewriteSuffix(name, DetectedNote(d));
      ParseExpected(after).Some? <==> d.Pitch? && 12 <= d.midi < 132
    ensures d.Pitch? && 12 <= d.midi < 132 ==> ParseExpected(RewriteSuffix(name, DetectedNote(d))) == Some(NoteName(d.midi))
  {
    match d
    case NoVoicedFrames => RewriteUnparseable(name, NoPitchNote);
    case NamingError => RewriteUnparseable(name, NamingErrorNote);
    case Pitch(midi) => RenameToNoteNameParses(name, midi);
  }

  lemma RenameToNoteNameParses(name: string, midi: int)
    requires ParseExpected(name).Some?
    ensures ParseExpected(RewriteSuffix(name, NoteName(midi))) == if 12 <= midi < 132 then Some(NoteName(midi)) else None
  {
    var n := NoteName(midi);
    NoteNameOctaveDigits(midi);
    if 12 <= midi < 132 {
      TableIndex(midi % 12);
      assert IsTokenCI(n);
      RewriteRoundTrip(name, n);
      NoteNameUpper(midi);
    } else {
      RewriteUnparseable(name, n);
    }
  }
}

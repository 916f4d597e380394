# note-detector, modelled in Dafny

`note-detector.py` checks a batch of WAV recordings whose file names carry the
note they are meant to sound (`piano-C4.wav`). For each one it detects the
pitch, compares it with the note in the name, and lets an operator fix a
mismatch. The operator can keep the name, rename the file to the detected note,
type a note, or flag the file with a leading `_`. This project models the
string-and-decision layer around the audio analysis and proves what it does.

- `wrappers.dfy` (`Wrappers`): `Option`.
- `text.dfy` (`Text`): the Python string builtins the program relies on:
  - `str.strip` (with Python's whitespace set), `upper`, `lower`, `endswith`,
    `startswith` and `in`;
  - `str(int)` and its inverse, with a round-trip proof.
- `note_mapper.dfy` (`NoteMapper`): the integer step of `freq_to_note_name`
  (a sharp-only table indexed by `midi % 12`, octave `midi / 12 - 1`, floor
  division as in Python), and `note_letter`.
- `filename_codec.dfy` (`FilenameCodec`):
  - the `re.search` of `-([A-G][#b]?\d)\.wav$` under `re.IGNORECASE`, including
    Python's `$` also matching before a final newline;
  - the expected note, upper-cased;
  - the `re.sub` that rewrites the note token;
  - the `_` prefix used for flagging.
- `match_classifier.dfy` (`MatchClassifier`): the detected note
  (a MIDI name, the `"None"` placeholder, or `"Error"`) and the three-way
  verdict.
- `review_workflow.dfy` (`ReviewWorkflow`):
  - whether review happens and which actions are offered;
  - the `while True` loop over the operator's lines, as a function
    `ReviewFrom` and a method `ReviewLoop` proved equal to it;
  - the effect of each decision on the file name.
- `file_processor.dfy` (`FileProcessor`): `process_file` for one file, from
  the name and an abstract analysis result to a report.
- `batch_runner.dfy` (`BatchRunner`): the candidate list that `main` builds
  with nested loops, and the run over it, numbered 1 to total.

The model keeps these behaviours of the code:

- Octaves in file names are one digit. `bass-C10.wav` has no expected note.
- A flat in a file name is upper-cased to `BB4`. No detected name has that
  form, so a flat file never matches and is never an octave-only mismatch.
- `r` renames to whatever the detected string is. `RenameToDetectedParses`
  proves the renamed file still carries an expected note exactly when the
  detection was a pitch with MIDI number 12 to 131. With `"None"`, `"Error"`,
  a negative octave or a two-digit octave, the new name is skipped on the
  next run.
- An invalid manual note goes back to the action prompt.
- `f` is neither listed nor accepted for an octave-only mismatch.
- The `fx` exclusion applies only to files found by scanning a directory.
  A file named on the command line is kept with `fx` in its name.
- The review first reads one line at the "Press spacebar" prompt, then the
  action loop starts on the next line. All files share one stream of
  operator lines.

Two further behaviours of the code:

- There is no separate "undetected" outcome. An empty voiced set gives the
  string `"None"`, which takes the ordinary mismatch path with the full menu
  (`UndetectedIsMismatch`).
- The `fx` test in a directory scan looks only at the file's own name, not at
  the directories above it.

## Model

| member | source | states |
|---|---|---|
| Text.NaturalDigitsRoundTrip | note-detector.py:71 | reading back the decimal digits of a natural number gives that number |
| Text.DecimalRoundTrip | note-detector.py:71 | `str(n)` for any integer n, negative octaves included, reads back as n |
| Text.StripEnds | note-detector.py:178 | `strip()` removes whitespace at the two ends and nothing else: the result is the slice of s that starts after the leading whitespace, every character cut off on either side is whitespace, and a non-empty result neither starts nor ends with whitespace |
| Text.Upper | note-detector.py:120-124 | `str.upper`: same length, each character mapped by `UpperChar` |
| Text.Lower | note-detector.py:257-259 | `str.lower`: same length, each character mapped by `LowerChar` |
| Text.Strip | note-detector.py:178 | `str.strip()`; characterised by `StripEnds` |
| Text.DecimalString | note-detector.py:71 | `str(int)`: a non-empty string of digits, with a leading '-' exactly for a negative number; `DecimalRoundTrip` proves it reads back as the number |
| Text.HasSubstring | note-detector.py:257 | `t in s`; characterised by `HasSubstringAt` and `NoSubstringWithoutFirst` |
| Text.HasSubstringAt | note-detector.py:257 | `t in s` holds exactly when t occurs at some position of s |
| Text.NoSubstringWithoutFirst | note-detector.py:257 | `t in s` fails when no character of s is the first character of t |
| NoteMapper.NoteName | note-detector.py:69-71 | the name of a MIDI number: the table entry for midi mod 12 followed by the octave midi div 12 - 1 in decimal (floor division); characterised by `NoteNameParses`, `NoteNameRoundTrip`, `NoteNameInjective`, `NoteNameShape` and `NoteNameOctaveDigits` |
| NoteMapper.NoteLetter | note-detector.py:74-76 | `note_letter`: the leading `[A-G][#b]?` when a digit follows it, else the whole string; characterised by `NoteLetterCharacterised`, `NoteLetterIdempotent` and `NoteLetterOfNoteName` |
| NoteMapper.TableIndex | note-detector.py:69 | each of the 12 table entries is found at its own index; it is a letter A-G, optionally followed by '#' |
| NoteMapper.NoteNameParses | note-detector.py:69-71 | the name of MIDI number m reads back as the pair (table entry m mod 12, octave m div 12 - 1) |
| NoteMapper.NoteNameRoundTrip | note-detector.py:69-71 | the MIDI number recovered from a note name is the number it was made from, for every integer |
| NoteMapper.NoteNameInjective | note-detector.py:69-71 | two MIDI numbers have the same name if and only if they are equal |
| NoteMapper.NoteNameShape | note-detector.py:69-71 | a name is a letter A-G followed by '#', '-' or a digit; below MIDI 12 it has at least three characters |
| NoteMapper.NoteNameOctaveDigits | note-detector.py:69-71 | from MIDI 12 to 131 the name is the table entry plus one octave digit; outside that range the octave has a sign or two digits |
| NoteMapper.NoteNameUpper | note-detector.py:69-71 | a note name is unchanged by upper-casing |
| NoteMapper.NoteLetterOfNoteName | note-detector.py:69-76 | `note_letter` of a name is its table entry when the octave is not negative, and the whole name otherwise |
| NoteMapper.OctaveApart | note-detector.py:69-76 | MIDI numbers 12 apart have the same pitch class and octaves differing by exactly one, and the same `note_letter` from MIDI 12 up |
| NoteMapper.NoteLetterCharacterised | note-detector.py:74-76 | `note_letter` returns either its argument or a leading `[A-G][#b]?` followed by a digit; whenever such a prefix exists, it is the one returned |
| NoteMapper.NoteLetterIdempotent | note-detector.py:74-76 | applying `note_letter` twice is the same as applying it once |
| NoteMapper.NoteLetterExamples | note-detector.py:74-76 | "None", "Error", "BB4" and "C-1" are returned unchanged; "Bb4" gives "Bb" and "C#10" gives "C#" |
| FilenameCodec.FindSuffix | note-detector.py:81 | a match ends where `$` can match and is a '-', a one-digit note token and ".wav" in any case; it is the only position that fits, so it is the leftmost one `re.search` reports; no match means no position fits |
| FilenameCodec.ParseExpected | note-detector.py:80-85 | there is an expected note exactly when the suffix matches; it is upper-case: a letter A-G, optionally '#' or 'B', then one digit |
| FilenameCodec.RewriteSuffix | note-detector.py:184-186 | a name without the suffix is left as it is |
| FilenameCodec.RewriteShape | note-detector.py:184-186 | a rewrite keeps the text before the '-', puts the new note after it, and keeps the original extension text and any final newline |
| FilenameCodec.RewriteRoundTrip | note-detector.py:197-202 | after rewriting with a note token, the expected note of the new name is that token upper-cased |
| FilenameCodec.RewriteUnparseable | note-detector.py:184-186 | rewriting with a string whose second-to-last character is neither a letter A-G nor an accidental (such as "None", "Error", "C10", "C-1") leaves a name with no expected note |
| FilenameCodec.RewriteTwice | note-detector.py:184-186 | after a rewrite with a note token, a second rewrite equals a single rewrite with the second note (after a rewrite with a non-token such as "None" the name no longer matches and a second rewrite changes nothing, see `RewriteUnparseable`) |
| FilenameCodec.RewriteIdentity | note-detector.py:184-186 | rewriting with the matched token text gives back the original name |
| FilenameCodec.FlagTarget | note-detector.py:213-214 | no flag name exactly when the name already starts with '_'; otherwise the name with '_' in front |
| FilenameCodec.FlagShiftsMatch | note-detector.py:213-214 | behind a '_' prefix a name has a suffix match exactly when it had one, and it is the same match one position further on |
| FilenameCodec.FlagKeepsExpected | note-detector.py:213-214 | the '_' prefix does not change the expected note |
| FilenameCodec.FlagIdempotent | note-detector.py:213-222 | a flagged name is seen as already flagged |
| FilenameCodec.CodecExamples | note-detector.py:81-85 | "piano-C4.wav" gives C4 and rewrites to "piano-D4.wav"; "fx-noise.wav" gives none; "sample-A4.wav" is flagged as "_sample-A4.wav" and a name starting with '_' is not flagged |
| FilenameCodec.FlatAndLongOctaveExamples | note-detector.py:81-85 | "horn-bb4.WAV" gives BB4; "bass-C10.wav", with a two-digit octave, gives none |
| MatchClassifier.DetectedNote | note-detector.py:102-111 | `detected_note`: "None" without voiced frames, the MIDI name of the pitch, or "Error" when naming fails; what these give is stated by `UndetectedIsMismatch` and `ReviewWorkflow.RenameToDetectedParses` |
| MatchClassifier.Classify | note-detector.py:118-124 | the verdict: a match when the upper-cased strings agree, else octave-only when the `note_letter` values agree, else a mismatch; characterised by `ClassifyNoteNames`, `ClassifyAgainstExpected`, `UndetectedIsMismatch` and `FlatExpectedIsMismatch` |
| MatchClassifier.TableDistinct | note-detector.py:69 | the 12 table entries are pairwise distinct |
| MatchClassifier.ClassifyNoteNames | note-detector.py:118-124 | for a detected MIDI number against an expected one of octave 0 or more: a match if and only if they are equal; octave-only if and only if they differ, the detected one is at least 12, and both have the same pitch class |
| MatchClassifier.ClassifyAgainstExpected | note-detector.py:124 | a detected name matches an expected note exactly when the strings are equal |
| MatchClassifier.UndetectedIsMismatch | note-detector.py:102-124 | "None" (no voiced frames) and "Error" are a full mismatch for every expected note, never octave-only |
| MatchClassifier.FlatExpectedIsMismatch | note-detector.py:118-124 | an expected note with B as accidental is a full mismatch for every detected pitch |
| MatchClassifier.ClassifyExamples | note-detector.py:118-128 | A4/A4 match, A5/A4 octave-only, B4/A4 and None/A4 mismatch |
| ReviewWorkflow.NeedsReview | note-detector.py:124-150 | a review follows exactly a mismatch, or an octave-only mismatch without `--notes-only`; `FileProcessor.OutcomeKind` proves a file is reviewed exactly then |
| ReviewWorkflow.OfferedActions | note-detector.py:172-175 | the prompt's actions: keep, rename to detected and manual input, then flagging unless the mismatch is octave-only; `OptionsPrompt` and `ChoiceAcceptedIffOffered` are about it |
| ReviewWorkflow.ParseChoice | note-detector.py:178-225 | the action an operator line selects: after `strip().lower()` it must be one of k, r, m, or f when flagging is offered; `ChoiceAcceptedIffOffered` proves it selects exactly the offered actions by their keys |
| ReviewWorkflow.ManualNote | note-detector.py:195 | the typed note, stripped and upper-cased; `ManualNoteIsToken` is about what is accepted |
| ReviewWorkflow.ManualNoteAccepted | note-detector.py:196 | `re.match` of `^[A-G][#b]?\d$`, with `$` also before a final newline; `ManualNoteIsToken` proves an accepted note is an upper-case one-digit token |
| ReviewWorkflow.ReviewFrom | note-detector.py:177-225 | the `while True` loop from a given line: decided with the line after the decision, or waiting when the lines run out; characterised by `ReviewExit`, `ReviewStopsAtTerminal`, `ReviewAdvances`, `ReviewSkipsInvalid` and `ReviewRetriesAfterInvalidManualNote`, and computed by `ReviewLoop` |
| ReviewWorkflow.ApplyDecision | note-detector.py:179-223 | the effect of a decision on the name: kept, renamed by the suffix rewrite, flagged with '_', or already flagged; characterised by `DecisionOutcome`, `RenameToNoteNameParses` and `RenameToDetectedParses` |
| ReviewWorkflow.OptionsPrompt | note-detector.py:172-175 | the prompt ends with the flag entry exactly when flagging is offered |
| ReviewWorkflow.ChoiceAcceptedIffOffered | note-detector.py:178-225 | a line selects only an offered action, and every offered action is selected by its key |
| ReviewWorkflow.ManualNoteIsToken | note-detector.py:195-196 | an accepted manual note is an upper-case one-digit note token with '#' as its only accidental |
| ReviewWorkflow.ReviewStep | note-detector.py:178-225 | a pass that goes back to the prompt consumes at least one line |
| ReviewWorkflow.StepExit | note-detector.py:178-223 | a pass that decides consumes one or two lines, and its last line is a terminal choice |
| ReviewWorkflow.ReviewLoop | note-detector.py:177-225 | the loop over the operator's lines ends in the state the reference function `ReviewFrom` gives |
| ReviewWorkflow.ReviewExit | note-detector.py:177-225 | the loop decides only on a terminal line: `k`, `r` with the detected string, an accepted note after `m`, or an offered `f` |
| ReviewWorkflow.ReviewStopsAtTerminal | note-detector.py:177-223 | the converse of `ReviewExit`: `k`, `r` and an offered `f` decide with the next line; `m` followed by an accepted note decides two lines on, and `m` on the last line leaves the review waiting |
| ReviewWorkflow.ReviewAdvances | note-detector.py:177-225 | a decided review consumes at least one line and no line past the end |
| ReviewWorkflow.InvalidChoiceSkipped | note-detector.py:224-225 | one line that selects no offered action is passed over |
| ReviewWorkflow.ReviewSkipsInvalid | note-detector.py:224-225 | lines that select no offered action are passed over without effect |
| ReviewWorkflow.ReviewRetriesAfterInvalidManualNote | note-detector.py:194-211 | `m` followed by an unaccepted note returns to the action prompt |
| ReviewWorkflow.DecisionOutcome | note-detector.py:179-223 | keeping or a failed rename leaves the name; a successful rename to a token gives that token as the new expected note; flagging keeps the expected note and, when it succeeds, leaves a name starting with '_'; an already-flagged file is not renamed |
| ReviewWorkflow.RenameToNoteNameParses | note-detector.py:182-186 | renaming to a MIDI name gives a name whose expected note is that name for MIDI 12 to 131, and no expected note otherwise |
| ReviewWorkflow.RenameToDetectedParses | note-detector.py:182-186 | the name after `r` has an expected note exactly when the detection was a pitch with MIDI number 12 to 131 |
| FileProcessor.Outcome | note-detector.py:79-225 | `process_file` on one file as a reference function: the report and the line position after it; characterised by `OutcomeKind`, `OutcomeFields`, `OutcomeLines` and `OctaveOnlyNeverFlagged`, and computed by `ProcessFile` |
| FileProcessor.OutcomeKind | note-detector.py:80-150 | a file is skipped without an expected note exactly when its name does not parse; an analysis error, a match, and an octave-only mismatch skipped under `--notes-only` each happen under their exact conditions; a review happens exactly when the review policy asks for one |
| FileProcessor.OutcomeFields | note-detector.py:85-124 | a report carries the parsed expected note, the detected note string and the computed verdict |
| FileProcessor.ReviewOutcomeLines | note-detector.py:150-225 | a review reads the spacebar line and then runs the action loop from the next line; a finished review applies its decision to the name; a review left waiting has read every line |
| FileProcessor.OutcomeLines | note-detector.py:79-225 | only a review reads operator lines, and a finished one ends in the state the review loop gives |
| FileProcessor.ReviewOutcome | note-detector.py:150-225 | the review of a mismatch as a reference function: the spacebar prompt reads one line, the action loop `ReviewFrom` starts on the next, and the decision is applied with `ApplyDecision`; when the lines run out the file is left waiting; characterised by `ReviewOutcomeLines` and `ReviewNeverFlagsOctaveOnly`, and computed by `ReviewMismatch` |
| FileProcessor.ReviewMismatch | note-detector.py:150-225 | the review steps, with the loop run as a loop, give exactly `ReviewOutcome` |
| FileProcessor.ReviewNeverFlagsOctaveOnly | note-detector.py:172-223 | a finished review of an octave-only mismatch never decides to flag the file |
| FileProcessor.OctaveOnlyNeverFlagged | note-detector.py:118-223 | an octave-only mismatch that is reviewed is never flagged; with `--notes-only` such a file is never reviewed and never left waiting |
| FileProcessor.ProcessFile | note-detector.py:79-225 | the steps of `process_file` give the reference outcome `Outcome`, whose properties are `OutcomeKind`, `OutcomeFields` and `OutcomeLines` |
| BatchRunner.KeptInScan | note-detector.py:257 | the scan filter: the lower-cased name ends in ".wav" and holds no "fx"; characterised by `ScanFilesMembers`, `ScanDropsFx`, `ScanKeepsWav` and `ScanDropsOtherExtensions` |
| BatchRunner.KeptExplicit | note-detector.py:259 | an explicit file is kept when its lower-cased name ends in ".wav", with no "fx" test; characterised by `SelectedMembers` and `ExplicitFilterExamples` |
| BatchRunner.Candidates | note-detector.py:248-263 | the candidate list, argument by argument; characterised by `CandidateMembers` and `CandidatesAppend`, and computed by `CollectCandidates` |
| BatchRunner.ScanFiles | note-detector.py:256-258 | the files of one directory listing that pass `KeptInScan`, joined to their root, in listing order; characterised by `ScanFilesMembers`, and computed by `ScanListing` |
| BatchRunner.ScanWalk | note-detector.py:255-258 | the files a walk contributes, step by step in walk order; characterised by `ScanWalkMembers`, and computed by `ScanTree` |
| BatchRunner.Selected | note-detector.py:252-263 | what one path argument contributes: the scanned files of a directory, an explicit file kept by `KeptExplicit`, nothing otherwise; characterised by `SelectedMembers` |
| BatchRunner.ScanListing | note-detector.py:256-258 | the loop over one directory listing keeps exactly `ScanFiles` of its files |
| BatchRunner.ScanTree | note-detector.py:255-258 | the loop over the steps of a walk keeps exactly `ScanWalk` of the walk |
| BatchRunner.CollectCandidates | note-detector.py:248-263 | the loop over the path arguments builds exactly `Candidates` of the arguments |
| BatchRunner.CandidatesAppend | note-detector.py:251-261 | candidates follow argument order: those of a + b are those of a followed by those of b |
| BatchRunner.ScanFilesMembers | note-detector.py:256-258 | a file is kept from a directory listing exactly when it is listed there and its lower-cased name ends in ".wav" and holds no "fx" |
| BatchRunner.ScanWalkMembers | note-detector.py:255-258 | a file is kept from a walk exactly when some step of the walk lists it and its name passes the scan filter |
| BatchRunner.SelectedMembers | note-detector.py:252-263 | what one argument contributes: scanned files passing the filter, an explicit file ending in ".wav", nothing otherwise |
| BatchRunner.CandidateMembers | note-detector.py:251-263 | a file is a candidate exactly when some argument contributes it |
| BatchRunner.ScanDropsFx | note-detector.py:257 | a scanned name with "fx" or "FX" is dropped |
| BatchRunner.ScanKeepsWav | note-detector.py:257 | a scanned ".WAV" name without "fx" is kept |
| BatchRunner.ScanDropsOtherExtensions | note-detector.py:257 | a scanned ".txt" name is dropped |
| BatchRunner.ExplicitFilterExamples | note-detector.py:259-261 | an explicit ".wav" file with "fx" in its name is kept; an explicit ".mp3" is not |
| BatchRunner.BatchLog | note-detector.py:265-275 | the run of `main` from file k at a line position as a reference function: each file gets its number and the outcome of `process_file`, lines pass on from one file to the next, and the run ends after a file left waiting; characterised by `BatchLogStep`, `BatchLogNumbering`, `BatchLogSkips` and `BatchLogStops` |
| BatchRunner.BatchLogStep | note-detector.py:271-275 | the run from file k reports file k as number k+1 of total with the outcome `Outcome` gives at the current line position; unless that file is left waiting, it goes on with file k+1 at the position that file leaves, which is never earlier and never past the lines |
| BatchRunner.BatchLogTail | note-detector.py:271-275 | the log of a run from file k opens with the entry for file k; after it comes nothing when that file is left waiting, else the run from file k+1 |
| BatchRunner.BatchLogNumbering | note-detector.py:270-274 | a run from file k numbers its files k+1, k+2, ... of total in candidate order and takes at most the remaining files |
| BatchRunner.BatchLogFirstSkip | note-detector.py:80-84 | the first file of a run is skipped for want of an expected note exactly when its name does not parse |
| BatchRunner.BatchLogSkips | note-detector.py:80-84 | every file of a run is skipped for want of an expected note exactly when its name does not parse |
| BatchRunner.AllSkippedIffUnparsedAt | note-detector.py:80-84 | the skip fact for every entry of a log, position by position |
| BatchRunner.BatchLogStops | note-detector.py:271-275 | no file but the last of a run is left waiting, and a run that ends before the last candidate ends with a file left waiting |
| BatchRunner.ProcessEntry | note-detector.py:271-275 | "Processing file k+1 of total" for files[k]: the entry carries exactly the report `Outcome` gives at the current line position, and the position moves to where that file leaves it, never back and never past the lines |
| BatchRunner.RunCandidates | note-detector.py:265-275 | the loop over the candidates builds exactly the log `BatchLog` gives from the first file at the first line, and the empty log when there is no candidate |
| BatchRunner.RunBatch | note-detector.py:265-275 | the log is `BatchLog` from the first file at the first line, so the operator's lines pass from file to file in order; files are numbered 1 to total in order, each skipped exactly when its name does not parse; every file is processed unless a review waits for a line, and the run stops at that file |

## Left out

- Audio playback (`play_wav`, `play_tone`): platform audio I/O. The model assumes playback never raises. `play_wav` catches every exception, and so does the expected-tone `try` at lines 154-161. But `play_tone` at note-detector.py:116 (under `--play`) and at note-detector.py:168 runs outside any `try`. Line 168 runs in every review with a detected frequency above 0, before the action prompt. If the audio device raises there, the exception ends `process_file` and the whole run of `main`. The model does not capture this.
- `librosa.load`, `librosa.pyin`, `librosa.note_to_hz` and `np.median`: foreign signal processing. An analysis is either a failure or an abstract `Detection`: no voiced frames, a MIDI number, or an error while naming.
- Floating point: the log2/round step of `freq_to_note_name` is replaced by its integer MIDI number; the "at … Hz" parts of messages are not modelled.
- `os.walk`, `os.path.isdir`/`isfile`/`join`/`basename`/`dirname`: a path argument is given as a directory with its walk (roots and file names in listing order), a regular file as a directory and a name, or anything else. The ".wav" test on an explicit path is made on its base name, which ends with the same four characters.
- `os.rename`: given as a flag saying whether the rename succeeds. A failed rename leaves the name and still ends the review.
- `argparse`, the `--play` and `--play-file` options, and ANSI colours: command-line parsing and presentation.
- Printed messages other than the options prompt: the outcome of each file is a `FileReport` instead.
- Blocking `input()`: the operator's lines are a given sequence. When the sequence runs out, the model reports the file as waiting (`Blocked`) and the run stops; the program would wait at the prompt, or raise at end of input.
- Reading an action key lowers only the one character left after stripping (`ParseChoice`); this selects the same action as lowering the whole line.
- `\d` is modelled as the ASCII digits 0-9; Python's Unicode `\d` also accepts other decimal digits.
- `str.lower` is modelled for ASCII letters and the Kelvin sign (the one non-ASCII character that lowers to one of k, r, m, f); `str.upper` for ASCII letters.
- BatchRunner.RunBatch: the progress percentage is not modelled; the analysis and rename outcome of each file are given in advance, so a rename cannot affect a later file of the same run.

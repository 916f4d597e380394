/**
 * Match classification (`process_file`, lines 102-124): the detected note
 * string, including the "None" placeholder for a recording with no voiced
 * frame, compared with the expected note as an exact match, an octave-only
 * mismatch or a mismatch.
 */
module MatchClassifier {
  import opened Text
  import opened NoteMapper
  import opened FilenameCodec

  /**
   * What the analysis of a recording yields once the median of its voiced
   * frames has been rounded to a MIDI number: no voiced frame at all, a MIDI
   * number, or a failure inside the note naming (the "Error" branch).
   */
  datatype Detection = NoVoicedFrames | Pitch(midi: int) | NamingError

  /** The placeholder for a recording with no voiced frame. */
  const NoPitchNote: string := "None"

  /** The placeholder for a note naming that raised. */
  const NamingErrorNote: string := "Error"

  /** `detected_note`. */
  function DetectedNote(d: Detection): string {
    match d
    case NoVoicedFrames => NoPitchNote
    case Pitch(midi) => NoteName(midi)
    case NamingError => NamingErrorNote
  }

  datatype Verdict = Match | OctaveOnlyMismatch | Mismatch

  /**
   * Exact match compares the upper-cased strings; octave-only needs them to
   * differ while their `note_letter` values (taken without upper-casing) agree.
   */
  function Classify(detected: string, expected: string): Verdict {
    if Upper(detected) == Upper(expected) then Match
    else if NoteLetter(detected) == NoteLetter(expected) then OctaveOnlyMismatch
    else Mismatch
  }

  /** Table entries are distinct. */
  lemma TableDistinct(i: nat, j: nat)
    requires i < 12 && j < 12
    ensures NoteTable[i] == NoteTable[j] <==> i == j
  {
    TableIndex(i);
    TableIndex(j);
  }

  /**
   * Between two note names, the expected one with a non-negative octave: a
   * match exactly when the MIDI numbers agree; octave-only exactly when they
   * differ by octaves and the detected octave is not negative (a negative
   * octave hides the pitch class from `note_letter`).
   */
  lemma ClassifyNoteNames(detected: int, expected: int)
    requires expected >= 12
    ensures Classify(NoteName(detected), NoteName(expected)) == Match <==> detected == expected
    ensures Classify(NoteName(detected), NoteName(expected)) == OctaveOnlyMismatch
        <==> detected != expected && detected >= 12 && detected % 12 == expected % 12
  {
    var d, e := NoteName(detected), NoteName(expected);
    NoteNameUpper(detected);
    NoteNameUpper(expected);
    NoteNameInjective(detected, expected);
    assert Upper(d) == Upper(e) <==> detected == expected;
    NoteLetterOfNoteName(detected);
    NoteLetterOfNoteName(expected);
    assert NoteLetter(e) == NoteTable[expected % 12];
    TableIndex(expected % 12);
    if detected >= 12 {
      TableDistinct(detected % 12, expected % 12);
      assert NoteLetter(d) == NoteTable[detected % 12];
    } else {
      NoteNameShape(detected);
      assert NoteLetter(d) == d;
    }
  }

  /** Against an expected note taken from a name, a detected note name matches exactly when it is that note. */
  lemma ClassifyAgainstExpected(midi: int, expected: string)
    requires IsExpectedToken(expected)
    ensures Classify(NoteName(midi), expected) == Match <==> NoteName(midi) == expected
  {
    NoteNameUpper(midi);
    UpperFixed(expected);
  }

  /**
   * With no voiced frame (detected "None"), or after a naming error, the
   * verdict against any expected note is a full mismatch, never octave-only.
   */
  lemma UndetectedIsMismatch(expected: string)
    requires IsExpectedToken(expected)
    ensures Classify(DetectedNote(NoVoicedFrames), expected) == Mismatch
    ensures Classify(DetectedNote(NamingError), expected) == Mismatch
  {
    UpperFixed(expected);
  }

  /**
   * An expected flat such as "Bb4" is held as "BB4": no detected note name
   * can match it, exactly or by octave.
   */
  lemma FlatExpectedIsMismatch(midi: int, expected: string)
    requires IsExpectedToken(expected) && |expected| == 3 && expected[1] == 'B'
    ensures Classify(NoteName(midi), expected) == Mismatch
  {
    var d := NoteName(midi);
    NoteNameUpper(midi);
    UpperFixed(expected);
    NoteNameShape(midi);
    assert d[1] != expected[1];
    assert Upper(d) != Upper(expected);
    assert NoteLetter(expected) == expected;
    NoteLetterOfNoteName(midi);
    if midi >= 12 {
      TableIndex(midi % 12);
      assert |NoteLetter(d)| <= 2;
    }
    assert NoteLetter(d) != NoteLetter(expected);
  }

  /** The classifier on the cases its comparisons are about. */
  lemma ClassifyExamples()
    ensures Classify("A4", "A4") == Match
    ensures Classify("A5", "A4") == OctaveOnlyMismatch
    ensures Classify("B4", "A4") == Mismatch
    ensures Classify(NoPitchNote, "A4") == Mismatch
  {
    UpperFixed("A4");
    UpperFixed("A5");
    UpperFixed("B4");
    assert Upper(NoPitchNote)[1] == 'O';
  }
}

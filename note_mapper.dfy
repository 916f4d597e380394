/**
 * Note naming under twelve-tone equal temperament (`freq_to_note_name`, from
 * the integer MIDI number on) and pitch-class extraction (`note_letter`).
 */
module NoteMapper {
  import opened Wrappers
  import opened Text

  /** The sharp-only table, indexed by MIDI number modulo 12, starting at C. */
  const NoteTable: seq<string> := ["C", "C#", "D", "D#", "E", "F", "F#", "G", "G#", "A", "A#", "B"]

  /**
   * The name of a MIDI note: the table entry for `midi mod 12` followed by
   * `str(midi div 12 - 1)`. Python's floor `%` and `//` agree with Dafny's
   * `%` and `/` for the positive divisor 12, negative MIDI numbers included.
   */
  function NoteName(midi: int): string {
    NoteTable[midi % 12] + DecimalString(midi / 12 - 1)
  }

  /** A case-sensitive `[A-G]`. */
  predicate IsLetter(c: char) { 'A' <= c <= 'G' }

  /** A case-sensitive `[#b]`. */
  predicate IsAccidental(c: char) { c == '#' || c == 'b' }

  /** A pitch class as `note_letter` extracts it: `[A-G][#b]?`. */
  predicate IsPitchClass(pc: string) {
    (|pc| == 1 && IsLetter(pc[0])) || (|pc| == 2 && IsLetter(pc[0]) && IsAccidental(pc[1]))
  }

  /**
   * `note_letter`: `re.match(r"([A-G][#b]?)(\d+)", note)` anchors only at the
   * start, so the leading pitch class is returned whenever a digit follows it,
   * whatever comes after; any other string is returned unchanged.
   */
  function NoteLetter(note: string): string {
    if |note| >= 2 && IsLetter(note[0]) && IsDigit(note[1]) then note[..1]
    else if |note| >= 3 && IsLetter(note[0]) && IsAccidental(note[1]) && IsDigit(note[2]) then note[..2]
    else note
  }

  /** A note as a (pitch class, octave) pair. */
  datatype Note = Note(pitchClass: string, octave: int)

  /** The position of a pitch class in NoteTable. */
  function PitchClassIndex(pc: string): (r: Option<nat>)
    ensures r.Some? ==> r.value < 12 && NoteTable[r.value] == pc
  {
    if pc == "C" then Some(0) else if pc == "C#" then Some(1)
    else if pc == "D" then Some(2) else if pc == "D#" then Some(3)
    else if pc == "E" then Some(4) else if pc == "F" then Some(5)
    else if pc == "F#" then Some(6) else if pc == "G" then Some(7)
    else if pc == "G#" then Some(8) else if pc == "A" then Some(9)
    else if pc == "A#" then Some(10) else if pc == "B" then Some(11)
    else None
  }

  function NoteFrom(pc: string, rest: string): Option<Note> {
    if PitchClassIndex(pc).Some? && ParseDecimal(rest).Some? then Some(Note(pc, ParseDecimal(rest).value))
    else None
  }

  /** Reads a note name of the form NoteName produces: a table entry and a signed decimal octave. */
  function ParseNote(s: string): Option<Note> {
    if |s| >= 2 && s[1] == '#' then NoteFrom(s[..2], s[2..])
    else if |s| >= 1 then NoteFrom(s[..1], s[1..])
    else None
  }

  /** The MIDI number of a note whose pitch class is in the table. */
  function MidiOf(n: Note): int
    requires PitchClassIndex(n.pitchClass).Some?
  {
    PitchClassIndex(n.pitchClass).value + 12 * (n.octave + 1)
  }

  lemma TableIndex(i: nat)
    requires i < 12
    ensures PitchClassIndex(NoteTable[i]) == Some(i)
    ensures 1 <= |NoteTable[i]| <= 2 && IsLetter(NoteTable[i][0])
    ensures |NoteTable[i]| == 2 ==> NoteTable[i][1] == '#'
    ensures |NoteTable[i]| == 2 ==> IsPitchClass(NoteTable[i])
  {
  }

  /** A note name splits back into its table entry and its octave `midi div 12 - 1`. */
  lemma NoteNameParses(midi: int)
    ensures ParseNote(NoteName(midi)) == Some(Note(NoteTable[midi % 12], midi / 12 - 1))
  {
    var pc, dec := NoteTable[midi % 12], DecimalString(midi / 12 - 1);
    TableIndex(midi % 12);
    DecimalRoundTrip(midi / 12 - 1);
    var s := NoteName(midi);
    assert s[..|pc|] == pc && s[|pc|..] == dec;
    if |pc| == 1 {
      assert s[1] == dec[0];
    }
  }

  /** NoteName has an inverse: the MIDI number can be read back from the name. */
  lemma NoteNameRoundTrip(midi: int)
    ensures ParseNote(NoteName(midi)).Some?
    ensures PitchClassIndex(ParseNote(NoteName(midi)).value.pitchClass).Some?
    ensures MidiOf(ParseNote(NoteName(midi)).value) == midi
  {
    NoteNameParses(midi);
    TableIndex(midi % 12);
  }

  /** Distinct MIDI numbers have distinct names. */
  lemma NoteNameInjective(a: int, b: int)
    ensures NoteName(a) == NoteName(b) <==> a == b
  {
    NoteNameRoundTrip(a);
    NoteNameRoundTrip(b);
  }

  /**
   * The outline of a note name: a letter, then '#', a digit or the '-' of a
   * negative octave; at least three characters below octave 0.
   */
  lemma NoteNameShape(midi: int)
    ensures var s := NoteName(midi);
      |s| >= 2 && IsLetter(s[0]) && (s[1] == '#' || s[1] == '-' || IsDigit(s[1]))
      && (midi < 12 ==> |s| >= 3)
  {
    var pc, dec := NoteTable[midi % 12], DecimalString(midi / 12 - 1);
    TableIndex(midi % 12);
    var s := NoteName(midi);
    assert s[..|pc|] == pc;
    assert |pc| == 1 ==> s[1] == dec[0];
  }

  /**
   * An octave from 0 to 9 is one digit; any other octave leaves a digit or
   * the '-' sign in the second-to-last place.
   */
  lemma NoteNameOctaveDigits(midi: int)
    ensures var s := NoteName(midi);
      if 12 <= midi < 132 then s == NoteTable[midi % 12] + [s[|s| - 1]] && IsDigit(s[|s| - 1])
      else |s| >= 3 && (IsDigit(s[|s| - 2]) || s[|s| - 2] == '-')
  {
    var pc, dec := NoteTable[midi % 12], DecimalString(midi / 12 - 1);
    TableIndex(midi % 12);
    var s := NoteName(midi);
    assert s[|pc|..] == dec;
    if !(12 <= midi < 132) {
      var k := midi / 12 - 1;
      if k >= 0 {
        assert |NaturalDigits(k)| >= 2;
      }
      assert |dec| >= 2;
      assert s[|s| - 2] == dec[|dec| - 2];
      assert dec[|dec| - 2] == '-' || IsDigit(dec[|dec| - 2]) by {
        if k < 0 && |dec| > 2 {
          assert dec[|dec| - 2] == dec[1..][|dec| - 3];
        }
      }
    }
  }

  /** Every character of a note name is unchanged by `str.upper`. */
  lemma NoteNameUpper(midi: int)
    ensures Upper(NoteName(midi)) == NoteName(midi)
  {
    var s := NoteName(midi);
    TableIndex(midi % 12);
    forall i | 0 <= i < |s| ensures UpperChar(s[i]) == s[i] {
      var pc := NoteTable[midi % 12];
      if i >= |pc| {
        assert s[i] == DecimalString(midi / 12 - 1)[i - |pc|];
      }
    }
    UpperFixed(s);
  }

  /**
   * `note_letter` of a note name: the table entry when the octave is at least
   * 0 (a digit follows the pitch class); the whole name when the octave is
   * negative, because the '-' of "-1" is not a digit.
   */
  lemma NoteLetterOfNoteName(midi: int)
    ensures NoteLetter(NoteName(midi)) == if midi >= 12 then NoteTable[midi % 12] else NoteName(midi)
  {
    var pc, dec := NoteTable[midi % 12], DecimalString(midi / 12 - 1);
    TableIndex(midi % 12);
    var s := NoteName(midi);
    assert s[..|pc|] == pc;
    assert s[|pc|] == dec[0];
    assert IsDigit(dec[0]) <==> midi >= 12;
  }

  /**
   * MIDI numbers 12 apart share their pitch class and their octaves differ by
   * exactly one; from octave 0 up they also share their `note_letter`.
   */
  lemma OctaveApart(midi: int)
    ensures ParseNote(NoteName(midi + 12)).Some? && ParseNote(NoteName(midi)).Some?
    ensures ParseNote(NoteName(midi + 12)).value.pitchClass == ParseNote(NoteName(midi)).value.pitchClass
    ensures ParseNote(NoteName(midi + 12)).value.octave == ParseNote(NoteName(midi)).value.octave + 1
    ensures midi >= 12 ==> NoteLetter(NoteName(midi + 12)) == NoteLetter(NoteName(midi))
  {
    assert (midi + 12) % 12 == midi % 12;
    assert (midi + 12) / 12 - 1 == midi / 12;
    NoteNameParses(midi);
    NoteNameParses(midi + 12);
    if midi >= 12 {
      NoteLetterOfNoteName(midi);
      NoteLetterOfNoteName(midi + 12);
    }
  }

  /**
   * `note_letter` returns a pitch class followed in its input by a digit, or
   * its input unchanged; a pitch class followed by a digit is always found.
   */
  lemma NoteLetterCharacterised(note: string)
    ensures var r := NoteLetter(note);
      r == note || (IsPitchClass(r) && |r| < |note| && note[..|r|] == r && IsDigit(note[|r|]))
    ensures forall k :: 1 <= k <= 2 && k < |note| && IsPitchClass(note[..k]) && IsDigit(note[k]) ==> NoteLetter(note) == note[..k]
  {
  }

  /** A pitch class has no digit after it, so `note_letter` is idempotent. */
  lemma NoteLetterIdempotent(note: string)
    ensures NoteLetter(NoteLetter(note)) == NoteLetter(note)
  {
  }

  /** The cases the classifier depends on. */
  lemma NoteLetterExamples()
    ensures NoteLetter("None") == "None" && NoteLetter("Error") == "Error"
    ensures NoteLetter("BB4") == "BB4" && NoteLetter("Bb4") == "Bb"
    ensures NoteLetter("C#10") == "C#" && NoteLetter("C-1") == "C-1"
  {
  }
}

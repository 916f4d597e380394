/**
 * The filename codec of `process_file`: the expected note parsed from a
 * trailing `-NOTE.wav` (line 81), the rewrite of that token on a rename
 * (lines 184 and 197), and the underscore prefix of a flag (line 213).
 */
module FilenameCodec {
  import opened Wrappers
  import opened Text
  import NoteMapper

  /** `[A-G]` under re.IGNORECASE. */
  predicate LetterCI(c: char) { 'A' <= c <= 'G' || 'a' <= c <= 'g' }

  /** `[#b]` under re.IGNORECASE. */
  predicate AccidentalCI(c: char) { c == '#' || c == 'b' || c == 'B' }

  /** `\.wav` under re.IGNORECASE. */
  predicate IsWavCI(e: string) {
    |e| == 4 && e[0] == '.' && (e[1] == 'w' || e[1] == 'W') && (e[2] == 'a' || e[2] == 'A') && (e[3] == 'v' || e[3] == 'V')
  }

  /** The note token `[A-G][#b]?\d` under re.IGNORECASE: one octave digit only. */
  predicate IsTokenCI(t: string) {
    (|t| == 2 && LetterCI(t[0]) && IsDigit(t[1]))
    || (|t| == 3 && LetterCI(t[0]) && AccidentalCI(t[1]) && IsDigit(t[2]))
  }

  /** An expected note as the program holds it: an upper-cased token, so a flat reads as 'B'. */
  predicate IsExpectedToken(t: string) {
    (|t| == 2 && NoteMapper.IsLetter(t[0]) && IsDigit(t[1]))
    || (|t| == 3 && NoteMapper.IsLetter(t[0]) && (t[1] == '#' || t[1] == 'B') && IsDigit(t[2]))
  }

  /**
   * The one position where `$` can close a match that ends in "wav": the end
   * of the string, or just before a final newline, which Python's `$` also
   * accepts.
   */
  function DollarEnd(s: string): (e: nat)
    ensures e <= |s| && (e == |s| || (e == |s| - 1 && s[e] == '\n'))
  {
    if |s| > 0 && s[|s| - 1] == '\n' then |s| - 1 else |s|
  }

  /** `-([A-G][#b]?\d)(\.wav)` occupies s[k..e]. */
  predicate SuffixAt(s: string, k: nat, e: nat) {
    k + 5 <= e <= |s| && s[k] == '-' && IsTokenCI(s[k + 1..e - 4]) && IsWavCI(s[e - 4..e])
  }

  /** A match: '-' at `start`, the note token after it, and the extension ending at `end`. */
  datatype SuffixMatch = SuffixMatch(start: nat, tokenLen: nat, end: nat)

  /**
   * The match of `re.search(r"-([A-G][#b]?\d)\.wav$", s, re.IGNORECASE)`.
   * A match must end at DollarEnd(s), and the shapes with and without an
   * accidental cannot both fit there, so the match is unique when it exists:
   * the leftmost match `re.search` returns is the only one.
   */
  function FindSuffix(s: string): (r: Option<SuffixMatch>)
    ensures r.Some? ==> r.value.end == DollarEnd(s) && r.value.start + 5 + r.value.tokenLen == r.value.end
    ensures r.Some? ==> SuffixAt(s, r.value.start, DollarEnd(s))
    ensures r.None? ==> forall k :: 0 <= k <= DollarEnd(s) ==> !SuffixAt(s, k, DollarEnd(s))
    ensures r.Some? ==> forall k :: 0 <= k <= DollarEnd(s) && SuffixAt(s, k, DollarEnd(s)) ==> k == r.value.start
  {
    var e := DollarEnd(s);
    if e >= 8 && s[e - 8] == '-' && LetterCI(s[e - 7]) && AccidentalCI(s[e - 6]) && IsDigit(s[e - 5]) && IsWavCI(s[e - 4..e]) then
      Some(SuffixMatch(e - 8, 3, e))
    else if e >= 7 && s[e - 7] == '-' && LetterCI(s[e - 6]) && IsDigit(s[e - 5]) && IsWavCI(s[e - 4..e]) then
      Some(SuffixMatch(e - 7, 2, e))
    else
      None
  }

  /** The note token of a match, as written in the name. */
  function TokenText(s: string, m: SuffixMatch): string
    requires m.start + 1 + m.tokenLen <= |s|
  {
    s[m.start + 1..m.start + 1 + m.tokenLen]
  }

  /**
   * The expected note: the matched token upper-cased, or None when the name
   * does not end in a note token (the file is then skipped).
   */
  function ParseExpected(name: string): (r: Option<string>)
    ensures r.Some? <==> FindSuffix(name).Some?
    ensures r.Some? ==> IsExpectedToken(r.value)
  {
    match FindSuffix(name)
    case None => None
    case Some(m) => Some(Upper(TokenText(name, m)))
  }

  /**
   * `re.sub(r"-([A-G][#b]?\d)(\.wav)$", "-" + note + r"\2", name, flags=re.IGNORECASE)`:
   * the token is replaced and the extension text, in its original case, is kept.
   */
  function RewriteSuffix(name: string, note: string): (r: string)
    ensures FindSuffix(name).None? ==> r == name
  {
    match FindSuffix(name)
    case None => name
    case Some(m) => name[..m.start] + "-" + note + name[m.end - 4..]
  }

  /** The new name of a flagged file, or None when it already starts with '_' (nothing is renamed). */
  function FlagTarget(name: string): (r: Option<string>)
    ensures r.None? <==> StartsWith(name, "_")
    ensures r.Some? ==> r.value == "_" + name
  {
    if |name| > 0 && name[0] == '_' then None else Some("_" + name)
  }

  /** The pieces of a rewritten name, and where `$` falls in it. */
  lemma RewriteShape(s: string, n: string)
    requires FindSuffix(s).Some?
    ensures var m := FindSuffix(s).value; var r := RewriteSuffix(s, n);
      |r| == m.start + 1 + |n| + (|s| - m.end) + 4
      && r[..m.start] == s[..m.start] && r[m.start] == '-'
      && r[m.start + 1..m.start + 1 + |n|] == n
      && r[m.start + 1 + |n|..] == s[m.end - 4..]
      && DollarEnd(r) == m.start + 1 + |n| + 4
  {
    var m := FindSuffix(s).value;
    var r := RewriteSuffix(s, n);
    assert r == s[..m.start] + "-" + n + s[m.end - 4..];
    assert r[|r| - 1] == s[|s| - 1];
  }

  /** Renaming to a note token and parsing the result gives the token back, upper-cased. */
  lemma RewriteRoundTrip(s: string, n: string)
    requires FindSuffix(s).Some? && IsTokenCI(n)
    ensures ParseExpected(RewriteSuffix(s, n)) == Some(Upper(n))
  {
    var m := FindSuffix(s).value;
    var r := RewriteSuffix(s, n);
    RewriteShape(s, n);
    var e := DollarEnd(r);
    assert IsWavCI(r[e - 4..e]) by {
      var tail := r[m.start + 1 + |n|..];
      assert tail == s[m.end - 4..];
      assert r[e - 4..e] == tail[..4];
      assert s[m.end - 4..m.end] == tail[..4];
    }
    assert SuffixAt(r, m.start, e) by {
      assert r[m.start + 1..e - 4] == n;
    }
    var m' := FindSuffix(r).value;
    assert m'.start == m.start;
  }

  /**
   * A replacement whose second-to-last character is neither a letter nor an
   * accidental (a two-digit or negative octave, "None", "Error") leaves a name
   * that no longer parses: the next run skips the file.
   */
  lemma RewriteUnparseable(s: string, n: string)
    requires |n| >= 2 && !LetterCI(n[|n| - 2]) && !AccidentalCI(n[|n| - 2])
    ensures ParseExpected(RewriteSuffix(s, n)) == None
  {
    if FindSuffix(s).Some? {
      var m := FindSuffix(s).value;
      var r := RewriteSuffix(s, n);
      RewriteShape(s, n);
      var e := DollarEnd(r);
      assert r[e - 6] == n[|n| - 2];
    }
  }

  /** Only the token changes: a second rename overrides the first, prefix and extension kept. */
  lemma RewriteTwice(s: string, n1: string, n2: string)
    requires FindSuffix(s).Some? && IsTokenCI(n1)
    ensures RewriteSuffix(RewriteSuffix(s, n1), n2) == RewriteSuffix(s, n2)
  {
    var m := FindSuffix(s).value;
    var r := RewriteSuffix(s, n1);
    RewriteShape(s, n1);
    RewriteRoundTrip(s, n1);
    var m' := FindSuffix(r).value;
    assert m'.start == m.start && m'.end == m.start + 5 + |n1|;
    assert r[..m'.start] == s[..m.start];
    assert r[m'.end - 4..] == s[m.end - 4..];
  }

  /** Rewriting a token to itself, as written, leaves the name unchanged. */
  lemma RewriteIdentity(s: string)
    requires FindSuffix(s).Some?
    ensures RewriteSuffix(s, TokenText(s, FindSuffix(s).value)) == s
  {
    var m := FindSuffix(s).value;
    assert s == s[..m.start] + "-" + TokenText(s, m) + s[m.end - 4..];
  }

  /** The prefix written by a flag does not disturb the suffix: the expected note survives flagging. */
  lemma FlagKeepsExpected(s: string)
    ensures ParseExpected("_" + s) == ParseExpected(s)
  {
    FlagShiftsMatch(s);
    if FindSuffix(s).Some? {
      var f, m := "_" + s, FindSuffix(s).value;
      assert f[1..] == s;
      ShiftedSlice(f, m.start + 1, m.start + 1 + m.tokenLen);
      assert TokenText(f, FindSuffix(f).value) == TokenText(s, m);
    }
  }

  /** Behind a '_' prefix the suffix match is the same, one position further on. */
  lemma FlagShiftsMatch(s: string)
    ensures var m, mf := FindSuffix(s), FindSuffix("_" + s);
      && (mf.None? <==> m.None?)
      && (m.Some? ==> mf == Some(SuffixMatch(m.value.start + 1, m.value.tokenLen, m.value.end + 1)))
  {
    var f := "_" + s;
    assert f[1..] == s;
    var e := DollarEnd(s);
    assert s != [] ==> f[|f| - 1] == s[|s| - 1];
    assert DollarEnd(f) == e + 1;
    if e >= 7 {
      ShiftedSlice(f, e - 4, e);
      assert f[e + 1 - 5] == s[e - 5] && f[e + 1 - 6] == s[e - 6] && f[e + 1 - 7] == s[e - 7];
      if e >= 8 {
        assert f[e + 1 - 8] == s[e - 8];
      } else {
        assert f[e + 1 - 8] == '_';
      }
    }
  }

  /** A slice of t[1..] is the slice of t one position further on. */
  lemma ShiftedSlice(t: string, i: nat, j: nat)
    requires i <= j && j + 1 <= |t|
    ensures t[1..][i..j] == t[i + 1..j + 1]
  {
    assert forall x :: 0 <= x < j - i ==> t[1..][i..j][x] == t[i + 1 + x];
  }

  /** Flagging is idempotent: a flagged name is not flagged again. */
  lemma FlagIdempotent(s: string)
    ensures FlagTarget(s).Some? ==> FlagTarget(FlagTarget(s).value).None?
  {
  }

  /** The filename conventions, on concrete names. */
  lemma CodecExamples()
    ensures ParseExpected("piano-C4.wav") == Some("C4")
    ensures RewriteSuffix("piano-C4.wav", "D4") == "piano-D4.wav"
    ensures ParseExpected("fx-noise.wav") == None
    ensures FlagTarget("sample-A4.wav") == Some("_sample-A4.wav")
    ensures FlagTarget("_sample-A4.wav") == None
  {
    assert FindSuffix("piano-C4.wav") == Some(SuffixMatch(5, 2, 12));
    assert "piano-C4.wav"[6..8] == "C4";
    UpperFixed("C4");
    assert "_" + "sample-A4.wav" == "_sample-A4.wav";
  }

  /** A flat in a name is read upper-cased, and a two-digit octave is no note token. */
  lemma FlatAndLongOctaveExamples()
    ensures ParseExpected("horn-bb4.WAV") == Some("BB4")
    ensures ParseExpected("bass-C10.wav") == None
  {
    var s := "horn-bb4.WAV";
    assert FindSuffix(s) == Some(SuffixMatch(4, 3, 12));
    assert s[5] == 'b' && s[6] == 'b' && s[7] == '4';
    assert s[5..8] == "bb4";
    assert Upper("bb4") == "BB4" by {
      assert Upper("bb4")[0] == UpperChar('b') == 'B';
      assert Upper("bb4")[1] == UpperChar('b') == 'B';
      assert Upper("bb4")[2] == UpperChar('4') == '4';
    }
  }
}

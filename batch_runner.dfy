/**
 * `main`: the candidate files gathered from the command-line paths, and the
 * run over them in order with 1-based progress numbers.
 */
module BatchRunner {
  import opened Text
  import opened FilenameCodec
  import opened FileProcessor

  /** A file as a directory and a base name; `os.path.join` and `basename` are left abstract. */
  datatype FilePath = FilePath(dir: string, name: string)

  /** One triple of `os.walk`, without its sub-directory list: a root and its file names in listing order. */
  datatype WalkStep = WalkStep(root: string, files: seq<string>)

  /** A command-line path: a directory with its walk, a regular file, or anything else (skipped). */
  datatype PathArg = Directory(walk: seq<WalkStep>) | RegularFile(file: FilePath) | Neither

  lemma AppendAssoc<T>(a: seq<T>, b: seq<T>, c: seq<T>)
    ensures (a + b) + c == a + (b + c)
  {
  }

  /** A file found by a directory scan is kept when its lower-cased name ends in ".wav" and has no "fx". */
  predicate KeptInScan(name: string) {
    EndsWith(Lower(name), ".wav") && !HasSubstring(Lower(name), "fx")
  }

  /** A file named on the command line is kept when its lower-cased name ends in ".wav"; "fx" is not checked. */
  predicate KeptExplicit(f: FilePath) {
    EndsWith(Lower(f.name), ".wav")
  }

  function ScanFiles(root: string, names: seq<string>): seq<FilePath> {
    if |names| == 0 then []
    else ScanFiles(root, names[..|names| - 1])
         + (if KeptInScan(names[|names| - 1]) then [FilePath(root, names[|names| - 1])] else [])
  }

  function ScanWalk(walk: seq<WalkStep>): seq<FilePath> {
    if |walk| == 0 then []
    else ScanWalk(walk[..|walk| - 1]) + ScanFiles(walk[|walk| - 1].root, walk[|walk| - 1].files)
  }

  function Selected(arg: PathArg): seq<FilePath> {
    match arg
    case Directory(walk) => ScanWalk(walk)
    case RegularFile(f) => if KeptExplicit(f) then [f] else []
    case Neither => []
  }

  /** `candidate_files`: the selections of the arguments, in argument order. */
  function Candidates(args: seq<PathArg>): seq<FilePath> {
    if |args| == 0 then [] else Candidates(args[..|args| - 1]) + Selected(args[|args| - 1])
  }

  /** The innermost loop of `main`: the files of one `os.walk` step that pass the scan filter. */
  method ScanListing(root: string, names: seq<string>) returns (found: seq<FilePath>)
    ensures found == ScanFiles(root, names)
  {
    found := [];
    for k := 0 to |names|
      invariant found == ScanFiles(root, names[..k])
    {
      assert names[..k + 1][..k] == names[..k];
      if KeptInScan(names[k]) {
        found := found + [FilePath(root, names[k])];
      }
    }
    assert names[..|names|] == names;
  }

  /** The loop over the steps of `os.walk(path)`. */
  method ScanTree(walk: seq<WalkStep>) returns (found: seq<FilePath>)
    ensures found == ScanWalk(walk)
  {
    found := [];
    for j := 0 to |walk|
      invariant found == ScanWalk(walk[..j])
    {
      assert walk[..j + 1][..j] == walk[..j];
      var inStep := ScanListing(walk[j].root, walk[j].files);
      found := found + inStep;
    }
    assert walk[..|walk|] == walk;
  }

  /** The loop of `main` over its path arguments, appending to `candidate_files`. */
  method CollectCandidates(args: seq<PathArg>) returns (candidates: seq<FilePath>)
    ensures candidates == Candidates(args)
  {
    candidates := [];
    for i := 0 to |args|
      invariant candidates == Candidates(args[..i])
    {
      assert args[..i + 1][..i] == args[..i];
      match args[i]
      case Directory(walk) =>
        var found := ScanTree(walk);
        candidates := candidates + found;
      case RegularFile(f) =>
        if KeptExplicit(f) {
          candidates := candidates + [f];
        }
      case Neither =>
    }
    assert args[..|args|] == args;
  }

  /** Order follows the arguments: the candidates of a + b are those of a, then those of b. */
  lemma {:induction false} CandidatesAppend(a: seq<PathArg>, b: seq<PathArg>)
    ensures Candidates(a + b) == Candidates(a) + Candidates(b)
    decreases |b|
  {
    if |b| > 0 {
      var b' := b[..|b| - 1];
      assert (a + b)[..|a + b| - 1] == a + b';
      CandidatesAppend(a, b');
    } else {
      assert a + b == a;
    }
  }

  lemma {:induction false} ScanFilesMembers(root: string, names: seq<string>, f: FilePath)
    ensures f in ScanFiles(root, names) <==> f.dir == root && f.name in names && KeptInScan(f.name)
    decreases |names|
  {
    if |names| > 0 {
      ScanFilesMembers(root, names[..|names| - 1], f);
      assert names == names[..|names| - 1] + [names[|names| - 1]];
    }
  }

  /** Where a scanned file comes from. */
  predicate InWalk(walk: seq<WalkStep>, f: FilePath) {
    exists j :: 0 <= j < |walk| && walk[j].root == f.dir && f.name in walk[j].files
  }

  lemma {:induction false} ScanWalkMembers(walk: seq<WalkStep>, f: FilePath)
    ensures f in ScanWalk(walk) <==> KeptInScan(f.name) && InWalk(walk, f)
    decreases |walk|
  {
    if |walk| > 0 {
      var w' := walk[..|walk| - 1];
      var last := walk[|walk| - 1];
      ScanWalkMembers(w', f);
      ScanFilesMembers(last.root, last.files, f);
      if InWalk(walk, f) {
        var j :| 0 <= j < |walk| && walk[j].root == f.dir && f.name in walk[j].files;
        if j < |walk| - 1 {
          assert w'[j] == walk[j];
        }
      }
      if InWalk(w', f) {
        var j :| 0 <= j < |w'| && w'[j].root == f.dir && f.name in w'[j].files;
        assert walk[j] == w'[j];
      }
    }
  }

  /** The argument a candidate can come from. */
  predicate FromArg(arg: PathArg, f: FilePath) {
    match arg
    case Directory(walk) => KeptInScan(f.name) && InWalk(walk, f)
    case RegularFile(g) => g == f && KeptExplicit(f)
    case Neither => false
  }

  lemma SelectedMembers(arg: PathArg, f: FilePath)
    ensures f in Selected(arg) <==> FromArg(arg, f)
  {
    if arg.Directory? {
      ScanWalkMembers(arg.walk, f);
    }
  }

  /**
   * A file is a candidate exactly when it comes from some argument: found
   * by a scan with a ".wav" name free of "fx", or named explicitly with a
   * ".wav" name, "fx" or not.
   */
  lemma {:induction false} CandidateMembers(args: seq<PathArg>, f: FilePath)
    ensures f in Candidates(args) <==> exists i :: 0 <= i < |args| && FromArg(args[i], f)
    decreases |args|
  {
    if |args| > 0 {
      var a' := args[..|args| - 1];
      CandidateMembers(a', f);
      SelectedMembers(args[|args| - 1], f);
      if exists i :: 0 <= i < |args| && FromArg(args[i], f) {
        var i :| 0 <= i < |args| && FromArg(args[i], f);
        if i < |args| - 1 {
          assert a'[i] == args[i];
        }
      }
      if exists i :: 0 <= i < |a'| && FromArg(a'[i], f) {
        var i :| 0 <= i < |a'| && FromArg(a'[i], f);
        assert args[i] == a'[i];
      }
    }
  }

  /** A scan drops a name holding "fx" in any case. */
  lemma ScanDropsFx()
    ensures !KeptInScan("snare-fx-C4.wav") && !KeptInScan("snare-FX-C4.wav")
  {
    var lower, upper := Lower("snare-fx-C4.wav"), Lower("snare-FX-C4.wav");
    assert lower[6] == 'f' && lower[7] == 'x' && upper[6] == 'f' && upper[7] == 'x';
    assert lower[6..8] == "fx" && upper[6..8] == "fx";
    assert OccursAt(lower, "fx", 6) && OccursAt(upper, "fx", 6);
    HasSubstringAt(lower, "fx");
    HasSubstringAt(upper, "fx");
  }

  /** A scan keeps a ".WAV" name free of "fx". */
  lemma ScanKeepsWav()
    ensures KeptInScan("kick-C2.WAV")
  {
    assert Lower("kick-C2.WAV") == "kick-c2.wav";
    NoSubstringWithoutFirst("kick-c2.wav", "fx");
  }

  /** A scan drops a name with another extension. */
  lemma ScanDropsOtherExtensions()
    ensures !KeptInScan("notes.txt")
  {
    assert Lower("notes.txt")[8] != 'v';
  }

  /** An explicit ".wav" path is kept even with "fx" in its name; other extensions are skipped. */
  lemma ExplicitFilterExamples()
    ensures KeptExplicit(FilePath("kit", "hit-fx-D3.wav")) && !KeptExplicit(FilePath("kit", "take.mp3"))
  {
    assert Lower("hit-fx-D3.wav")[9..] == ".wav";
    assert Lower("take.mp3")[7] != 'v';
  }

  /** One progress line: "Processing file count of total", and how that file ended. */
  datatype Progress = Progress(count: nat, total: nat, file: FilePath, report: FileReport)

  /** Entry k of the log is "Processing file k+1 of total" for files[k]. */
  predicate NumberedAs(files: seq<FilePath>, k: nat, p: Progress) {
    k < |files| && p.count == k + 1 && p.total == |files| && p.file == files[k]
  }

  /** The file of an entry was skipped for want of an expected note exactly when its name does not parse. */
  predicate SkippedIffUnparsed(p: Progress) {
    p.report.NoExpectedNote? <==> ParseExpected(p.file.name).None?
  }

  predicate EntryFor(files: seq<FilePath>, k: nat, p: Progress) {
    NumberedAs(files, k, p) && SkippedIffUnparsed(p)
  }

  /**
   * The run of `main` over the candidates from file k on, the operator's
   * lines being read from `position`. File k has the analysis `analyses[k]`,
   * and `renameOks[k]` says whether a rename of it would succeed. Each file
   * is processed by `process_file` from the line the previous file left
   * unread; a file whose review is left waiting for a line ends the run.
   */
  function BatchLog(files: seq<FilePath>, analyses: seq<Analysis>, renameOks: seq<bool>, notesOnly: bool,
                    inputs: seq<string>, k: nat, position: nat): seq<Progress>
    requires |analyses| == |files| && |renameOks| == |files| && k <= |files| && position <= |inputs|
    decreases |files| - k, 1
  {
    if k == |files| then [] else BatchAt(files, analyses, renameOks, notesOnly, inputs, k, position)
  }

  /** The run at a file that exists. */
  function BatchAt(files: seq<FilePath>, analyses: seq<Analysis>, renameOks: seq<bool>, notesOnly: bool,
                   inputs: seq<string>, k: nat, position: nat): seq<Progress>
    requires |analyses| == |files| && |renameOks| == |files| && k < |files| && position <= |inputs|
    decreases |files| - k, 0
  {
    var out := Outcome(files[k].name, analyses[k], notesOnly, renameOks[k], inputs, position);
    var entry := Progress(k + 1, |files|, files[k], out.0);
    if out.0.Blocked? then [entry]
    else
      OutcomeLines(files[k].name, analyses[k], notesOnly, renameOks[k], inputs, position);
      [entry] + BatchLog(files, analyses, renameOks, notesOnly, inputs, k + 1, out.1)
  }

  /**
   * The first entry of a run is "Processing file k+1 of total" with the
   * outcome of `process_file` for files[k] from the current line; unless that
   * file is left waiting, the run goes on with the next file from the line
   * it left unread.
   */
  lemma BatchLogStep(files: seq<FilePath>, analyses: seq<Analysis>, renameOks: seq<bool>, notesOnly: bool,
                     inputs: seq<string>, k: nat, position: nat)
    requires |analyses| == |files| && |renameOks| == |files| && k < |files| && position <= |inputs|
    ensures var out := Outcome(files[k].name, analyses[k], notesOnly, renameOks[k], inputs, position);
      && position <= out.1 <= |inputs|
      && BatchLog(files, analyses, renameOks, notesOnly, inputs, k, position)
         == [Progress(k + 1, |files|, files[k], out.0)]
            + (if out.0.Blocked? then [] else BatchLog(files, analyses, renameOks, notesOnly, inputs, k + 1, out.1))
    ensures EntryFor(files, k, BatchLog(files, analyses, renameOks, notesOnly, inputs, k, position)[0])
  {
    OutcomeLines(files[k].name, analyses[k], notesOnly, renameOks[k], inputs, position);
    OutcomeKind(files[k].name, analyses[k], notesOnly, renameOks[k], inputs, position);
  }

  /** log is the log of the run from file k at line position `position`. */
  predicate IsRunFrom(files: seq<FilePath>, analyses: seq<Analysis>, renameOks: seq<bool>, notesOnly: bool,
                      inputs: seq<string>, k: nat, position: nat, log: seq<Progress>)
  {
    && |analyses| == |files| && |renameOks| == |files| && k <= |files| && position <= |inputs|
    && log == BatchLog(files, analyses, renameOks, notesOnly, inputs, k, position)
  }

  /**
   * The step of a run from file k, given its log: the first entry is numbered
   * for file k; after it comes nothing if that file is left waiting, and
   * otherwise the run from file k+1 at the line position file k leaves.
   */
  lemma BatchLogTail(files: seq<FilePath>, analyses: seq<Analysis>, renameOks: seq<bool>, notesOnly: bool,
                     inputs: seq<string>, k: nat, position: nat, log: seq<Progress>) returns (next: nat)
    requires IsRunFrom(files, analyses, renameOks, notesOnly, inputs, k, position, log) && k < |files|
    ensures |log| > 0 && NumberedAs(files, k, log[0]) && log == [log[0]] + log[1..]
    ensures log[0].report.Blocked? ==> |log| == 1
    ensures !log[0].report.Blocked? ==> IsRunFrom(files, analyses, renameOks, notesOnly, inputs, k + 1, next, log[1..])
  {
    BatchLogStep(files, analyses, renameOks, notesOnly, inputs, k, position);
    next := Outcome(files[k].name, analyses[k], notesOnly, renameOks[k], inputs, position).1;
  }

  /**
   * A run from file k numbers its files k+1, k+2, ... out of the total, in
   * candidate order, and takes at most the remaining files.
   */
  lemma {:induction false} BatchLogNumbering(files: seq<FilePath>, analyses: seq<Analysis>, renameOks: seq<bool>, notesOnly: bool,
                                             inputs: seq<string>, k: nat, position: nat, log: seq<Progress>)
    requires IsRunFrom(files, analyses, renameOks, notesOnly, inputs, k, position, log)
    decreases |files| - k
    ensures |log| <= |files| - k && forall j :: 0 <= j < |log| ==> NumberedAs(files, k + j, log[j])
  {
    if k < |files| {
      var next := BatchLogTail(files, analyses, renameOks, notesOnly, inputs, k, position, log);
      if !log[0].report.Blocked? {
        BatchLogNumbering(files, analyses, renameOks, notesOnly, inputs, k + 1, next, log[1..]);
      }
      EntriesShift(files, k, log[0], log[1..]);
    }
  }

  /** Entries numbered from k+1 on, behind an entry for file k, are numbered from k on. */
  lemma EntriesShift(files: seq<FilePath>, k: nat, first: Progress, rest: seq<Progress>)
    requires NumberedAs(files, k, first) && |rest| <= |files| - (k + 1)
    requires forall j :: 0 <= j < |rest| ==> NumberedAs(files, k + 1 + j, rest[j])
    ensures var log := [first] + rest; |log| <= |files| - k && forall j :: 0 <= j < |log| ==> NumberedAs(files, k + j, log[j])
  {
    var log := [first] + rest;
    forall j | 0 <= j < |log| ensures NumberedAs(files, k + j, log[j]) {
      if j > 0 {
        assert log[j] == rest[j - 1];
        assert NumberedAs(files, k + 1 + (j - 1), rest[j - 1]);
      }
    }
  }

  /**
   * Every entry of a log has the file skipped exactly when its name does not
   * parse. The fact is stated recursively, entry by entry, so that the
   * induction over a run never has to instantiate a quantifier over the
   * expected notes of all names; `AllSkippedIffUnparsedAt` gives the
   * per-entry form.
   */
  predicate AllSkippedIffUnparsed(log: seq<Progress>)
    decreases |log|
  {
    |log| == 0 || (SkippedIffUnparsed(log[0]) && AllSkippedIffUnparsed(log[1..]))
  }

  lemma {:induction false} AllSkippedIffUnparsedAt(log: seq<Progress>)
    requires AllSkippedIffUnparsed(log)
    decreases |log|
    ensures forall j :: 0 <= j < |log| ==> SkippedIffUnparsed(log[j])
  {
    if |log| > 0 {
      AllSkippedIffUnparsedAt(log[1..]);
      forall j | 1 <= j < |log| ensures SkippedIffUnparsed(log[j]) {
        assert log[j] == log[1..][j - 1];
      }
    }
  }

  /** Every file of a run is skipped for want of an expected note exactly when its name does not parse. */
  lemma {:induction false} BatchLogSkips(files: seq<FilePath>, analyses: seq<Analysis>, renameOks: seq<bool>, notesOnly: bool,
                                         inputs: seq<string>, k: nat, position: nat, log: seq<Progress>)
    requires IsRunFrom(files, analyses, renameOks, notesOnly, inputs, k, position, log)
    decreases |files| - k
    ensures AllSkippedIffUnparsed(log)
  {
    if k < |files| {
      var next := BatchLogTail(files, analyses, renameOks, notesOnly, inputs, k, position, log);
      BatchLogFirstSkip(files, analyses, renameOks, notesOnly, inputs, k, position, log);
      if !log[0].report.Blocked? {
        BatchLogSkips(files, analyses, renameOks, notesOnly, inputs, k + 1, next, log[1..]);
      }
      AllSkippedIffUnparsedCons(log);
    }
  }

  lemma AllSkippedIffUnparsedCons(log: seq<Progress>)
    requires |log| > 0 && SkippedIffUnparsed(log[0]) && AllSkippedIffUnparsed(log[1..])
    ensures AllSkippedIffUnparsed(log)
  {
  }

  /** The first file of a run is skipped exactly when its name does not parse. */
  lemma BatchLogFirstSkip(files: seq<FilePath>, analyses: seq<Analysis>, renameOks: seq<bool>, notesOnly: bool,
                          inputs: seq<string>, k: nat, position: nat, log: seq<Progress>)
    requires IsRunFrom(files, analyses, renameOks, notesOnly, inputs, k, position, log) && k < |files|
    ensures |log| > 0 && SkippedIffUnparsed(log[0])
  {
    BatchLogStep(files, analyses, renameOks, notesOnly, inputs, k, position);
    OutcomeKind(files[k].name, analyses[k], notesOnly, renameOks[k], inputs, position);
  }

  /**
   * A run stops at the first file left waiting for a line: no file but the
   * last is left waiting, and a run that does not reach the last candidate
   * ends with a file left waiting.
   */
  lemma {:induction false} BatchLogStops(files: seq<FilePath>, analyses: seq<Analysis>, renameOks: seq<bool>, notesOnly: bool,
                                         inputs: seq<string>, k: nat, position: nat, log: seq<Progress>)
    requires IsRunFrom(files, analyses, renameOks, notesOnly, inputs, k, position, log)
    decreases |files| - k
    ensures forall j :: 0 <= j < |log| - 1 ==> !log[j].report.Blocked?
    ensures |log| < |files| - k ==> |log| > 0 && log[|log| - 1].report.Blocked?
  {
    if k < |files| {
      var next := BatchLogTail(files, analyses, renameOks, notesOnly, inputs, k, position, log);
      if !log[0].report.Blocked? {
        BatchLogStops(files, analyses, renameOks, notesOnly, inputs, k + 1, next, log[1..]);
        StopsShift(log[0], log[1..], |files| - (k + 1));
      }
    }
  }

  /** A run that stops at its first waiting file still does so behind one more file that did not wait. */
  lemma StopsShift(first: Progress, rest: seq<Progress>, remaining: nat)
    requires !first.report.Blocked?
    requires forall j :: 0 <= j < |rest| - 1 ==> !rest[j].report.Blocked?
    requires |rest| < remaining ==> |rest| > 0 && rest[|rest| - 1].report.Blocked?
    ensures var log := [first] + rest;
      && (forall j :: 0 <= j < |log| - 1 ==> !log[j].report.Blocked?)
      && (|log| < remaining + 1 ==> |log| > 0 && log[|log| - 1].report.Blocked?)
  {
    var log := [first] + rest;
    forall j | 0 <= j < |log| - 1 ensures !log[j].report.Blocked? {
      if j > 0 {
        assert log[j] == rest[j - 1];
      }
    }
  }

  /** One iteration of `main`'s loop: "Processing file k+1 of total", then `process_file` for files[k]. */
  method ProcessEntry(files: seq<FilePath>, k: nat, analysis: Analysis, renameOk: bool, notesOnly: bool, inputs: seq<string>, position: nat)
    returns (entry: Progress, next: nat)
    requires k < |files| && position <= |inputs|
    ensures var out := Outcome(files[k].name, analysis, notesOnly, renameOk, inputs, position);
      entry == Progress(k + 1, |files|, files[k], out.0) && next == out.1
    ensures EntryFor(files, k, entry) && position <= next <= |inputs|
  {
    var report;
    report, next := ProcessFile(files[k].name, analysis, notesOnly, renameOk, inputs, position);
    OutcomeKind(files[k].name, analysis, notesOnly, renameOk, inputs, position);
    OutcomeLines(files[k].name, analysis, notesOnly, renameOk, inputs, position);
    entry := Progress(k + 1, |files|, files[k], report);
  }

  /**
   * The loop of `main` over the candidates, with one stream of operator
   * lines shared by all files: the log is the reference run `BatchLog` from
   * the first file and the first line, so it is numbered, skips and stops as
   * `BatchLogNumbering`, `BatchLogSkips` and `BatchLogStops` state; nothing is
   * processed when there are no files.
   */
  method RunBatch(files: seq<FilePath>, analyses: seq<Analysis>, renameOks: seq<bool>, notesOnly: bool, inputs: seq<string>)
    returns (log: seq<Progress>)
    requires |analyses| == |files| && |renameOks| == |files|
    ensures log == BatchLog(files, analyses, renameOks, notesOnly, inputs, 0, 0)
    ensures |log| <= |files|
    ensures forall k :: 0 <= k < |log| ==> EntryFor(files, k, log[k])
    ensures forall k :: 0 <= k < |log| - 1 ==> !log[k].report.Blocked?
    ensures |log| < |files| ==> |log| > 0 && log[|log| - 1].report.Blocked?
  {
    log := RunCandidates(files, analyses, renameOks, notesOnly, inputs);
    BatchLogNumbering(files, analyses, renameOks, notesOnly, inputs, 0, 0, log);
    BatchLogSkips(files, analyses, renameOks, notesOnly, inputs, 0, 0, log);
    AllSkippedIffUnparsedAt(log);
    BatchLogStops(files, analyses, renameOks, notesOnly, inputs, 0, 0, log);
  }

  /** The loop itself. */
  method RunCandidates(files: seq<FilePath>, analyses: seq<Analysis>, renameOks: seq<bool>, notesOnly: bool, inputs: seq<string>)
    returns (log: seq<Progress>)
    requires |analyses| == |files| && |renameOks| == |files|
    ensures log == BatchLog(files, analyses, renameOks, notesOnly, inputs, 0, 0)
  {
    ghost var whole := BatchLog(files, analyses, renameOks, notesOnly, inputs, 0, 0);
    log := [];
    var total := |files|;
    if total == 0 {
      return;
    }
    var count := 0;
    var position := 0;
    while count < total
      invariant count <= total && position <= |inputs|
      invariant log + BatchLog(files, analyses, renameOks, notesOnly, inputs, count, position) == whole
    {
      BatchLogStep(files, analyses, renameOks, notesOnly, inputs, count, position);
      var entry, next := ProcessEntry(files, count, analyses[count], renameOks[count], notesOnly, inputs, position);
      ghost var rest := if entry.report.Blocked? then [] else BatchLog(files, analyses, renameOks, notesOnly, inputs, count + 1, next);
      assert BatchLog(files, analyses, renameOks, notesOnly, inputs, count, position) == [entry] + rest;
      AppendAssoc(log, [entry], rest);
      log := log + [entry];
      if entry.report.Blocked? {
        return;
      }
      count := count + 1;
      position := next;
    }
  }
}

/**
 * The two pure decisions of the formatting stage: how a plugin's files are
 * split into batches for `dotnet format` (`CreateFileBatches`), and whether
 * a plugin is too big to format normally (`IsProblematicPlugin`), taken
 * over the file sizes and line counts the file system reports.
 */
module Formatting {
  import opened Wrappers
  import opened Seqs

  // ---------------------------------------------------------------------------
  // Batches
  // ---------------------------------------------------------------------------

  /** The files in order, cut into consecutive batches of `size`, the last possibly shorter. */
  function Batches(files: seq<string>, size: nat): seq<seq<string>>
    requires size > 0
    decreases |files|
  {
    if files == [] then []
    else if |files| <= size then [files]
    else [files[..size]] + Batches(files[size..], size)
  }

  function Flatten(batches: seq<seq<string>>): seq<string> {
    if batches == [] then [] else batches[0] + Flatten(batches[1..])
  }

  /** The batching loop: `i` steps by the batch size, each batch copies `Min(size, n - i)` files. */
  method CreateFileBatches(files: seq<string>, maxBatchSize: nat) returns (batches: seq<seq<string>>)
    requires maxBatchSize > 0
    ensures batches == Batches(files, maxBatchSize)
  {
    batches := [];
    var i := 0;
    while i < |files|
      invariant i <= |files| ==> batches + Batches(files[i..], maxBatchSize) == Batches(files, maxBatchSize)
      invariant i > |files| ==> batches == Batches(files, maxBatchSize)
      decreases |files| - i
    {
      var batchSize := if maxBatchSize < |files| - i then maxBatchSize else |files| - i;
      var batch := files[i..i + batchSize];
      BatchesFrom(files, maxBatchSize, i);
      ghost var before := batches;
      batches := batches + [batch];
      if i + maxBatchSize < |files| {
        assert batches + Batches(files[i + maxBatchSize..], maxBatchSize) == before + Batches(files[i..], maxBatchSize);
      } else {
        assert batch == files[i..];
        assert batches == before + Batches(files[i..], maxBatchSize);
        assert files[|files|..] == [];
      }
      i := i + maxBatchSize;
    }
  }

  /** The batch that starts at `i` and the batches after it. */
  lemma BatchesFrom(files: seq<string>, size: nat, i: nat)
    requires size > 0 && i < |files|
    ensures i + size < |files| ==>
      Batches(files[i..], size) == [files[i..i + size]] + Batches(files[i + size..], size)
    ensures i + size >= |files| ==> Batches(files[i..], size) == [files[i..]]
  {
    if i + size < |files| {
      assert files[i..][..size] == files[i..i + size];
      assert files[i..][size..] == files[i + size..];
    }
  }

  /** Batching loses, repeats and reorders nothing: the batches put together are the files. */
  lemma {:induction false} BatchesFlatten(files: seq<string>, size: nat)
    requires size > 0
    ensures Flatten(Batches(files, size)) == files
    decreases |files|
  {
    if files != [] && |files| > size {
      BatchesFlatten(files[size..], size);
      assert files == files[..size] + files[size..];
    }
  }

  /**
   * Every batch is non-empty and holds at most `size` files; every batch but
   * the last holds exactly `size`; there are `ceil(n / size)` of them.
   */
  lemma {:induction false} BatchesShape(files: seq<string>, size: nat)
    requires size > 0
    ensures var bs := Batches(files, size);
      (&& |files| <= |bs| * size < |files| + size
       && (forall k :: 0 <= k < |bs| ==> 0 < |bs[k]| <= size)
       && (forall k :: 0 <= k < |bs| - 1 ==> |bs[k]| == size))
    decreases |files|
  {
    var bs := Batches(files, size);
    if files != [] && |files| > size {
      var rest := files[size..];
      BatchesShape(rest, size);
      var brs := Batches(rest, size);
      assert bs == [files[..size]] + brs;
      assert |bs| * size == |brs| * size + size;
    }
  }

  // ---------------------------------------------------------------------------
  // Problematic-plugin detection
  // ---------------------------------------------------------------------------

  /** `ProblematicPluginThresholds`. */
  datatype Thresholds = Thresholds(
    maxFiles: int,
    maxTotalSizeMB: int,
    maxTotalLines: int,
    maxLargeFiles: int,
    maxVeryLargeFiles: int,
    maxErrorProneFiles: int,
    largeFileSizeKB: int,
    veryLargeFileSizeKB: int,
    errorProneFileLines: int)

  /** The thresholds used when the configuration sets none. */
  const DefaultThresholds := Thresholds(50, 5, 50000, 10, 0, 5, 100, 500, 1000)

  /**
   * What the file system reports for one file: its length, when the file
   * can be inspected, and its line count, when it can also be read.
   */
  datatype FileReading = FileReading(size: Option<nat>, lines: Option<nat>)

  /** The totals the detection loop accumulates. */
  datatype Metrics = Metrics(totalSize: nat, largeFiles: nat, veryLargeFiles: nat, totalLines: nat, errorProneFiles: nat)

  /** A file fully read counts as large, very large and error-prone by these tests. */
  predicate IsLarge(f: FileReading, t: Thresholds) {
    f.size.Some? && f.lines.Some? && f.size.value > t.largeFileSizeKB * 1024
  }

  predicate IsVeryLarge(f: FileReading, t: Thresholds) {
    f.size.Some? && f.lines.Some? && f.size.value > t.veryLargeFileSizeKB * 1024
  }

  predicate IsErrorProne(f: FileReading, t: Thresholds) {
    f.size.Some? && f.lines.Some? && f.lines.value > t.errorProneFileLines
  }

  function LargeTest(t: Thresholds): FileReading -> bool { (f: FileReading) => IsLarge(f, t) }

  function VeryLargeTest(t: Thresholds): FileReading -> bool { (f: FileReading) => IsVeryLarge(f, t) }

  function ErrorProneTest(t: Thresholds): FileReading -> bool { (f: FileReading) => IsErrorProne(f, t) }

  /**
   * One file's contribution. A file whose length cannot be read adds
   * nothing; one whose length is read but whose lines cannot be adds only
   * its length, because reading the lines fails before anything else is
   * counted.
   */
  function Step(m: Metrics, f: FileReading, t: Thresholds): Metrics {
    match f.size
    case None => m
    case Some(size) =>
      match f.lines
      case None => m.(totalSize := m.totalSize + size)
      case Some(n) =>
        Metrics(
          m.totalSize + size,
          m.largeFiles + (if size > t.largeFileSizeKB * 1024 then 1 else 0),
          m.veryLargeFiles + (if size > t.veryLargeFileSizeKB * 1024 then 1 else 0),
          m.totalLines + n,
          m.errorProneFiles + (if n > t.errorProneFileLines then 1 else 0))
  }

  /** The totals over `files`, in order. */
  function Measure(files: seq<FileReading>, t: Thresholds): (m: Metrics)
    ensures m.largeFiles <= |files| && m.veryLargeFiles <= |files| && m.errorProneFiles <= |files|
    decreases |files|
  {
    if files == [] then Metrics(0, 0, 0, 0, 0)
    else Step(Measure(files[..|files| - 1], t), files[|files| - 1], t)
  }

  /** The verdict and the reason `IsProblematicPlugin` reports. */
  datatype Verdict =
    | TooManyFiles(files: nat, max: int)
    | TotalSizeTooLarge(megabytes: nat, max: int)
    | TooManyLines(lines: nat, max: int)
    | TooManyLargeFiles(count: nat, max: int)
    | VeryLargeFilesPresent(count: nat, max: int)
    | TooManyErrorProneFiles(lineLimit: int, count: nat, max: int)
    | NormalPlugin

  /** The cascade of six tests; the first one exceeded decides. */
  function Classify(fileCount: nat, m: Metrics, t: Thresholds): Verdict {
    if fileCount > t.maxFiles then TooManyFiles(fileCount, t.maxFiles)
    else if m.totalSize > t.maxTotalSizeMB * 1024 * 1024 then TotalSizeTooLarge(m.totalSize / (1024 * 1024), t.maxTotalSizeMB)
    else if m.totalLines > t.maxTotalLines then TooManyLines(m.totalLines, t.maxTotalLines)
    else if m.largeFiles > t.maxLargeFiles then TooManyLargeFiles(m.largeFiles, t.maxLargeFiles)
    else if m.veryLargeFiles > t.maxVeryLargeFiles then VeryLargeFilesPresent(m.veryLargeFiles, t.maxVeryLargeFiles)
    else if m.errorProneFiles > t.maxErrorProneFiles then TooManyErrorProneFiles(t.errorProneFileLines, m.errorProneFiles, t.maxErrorProneFiles)
    else NormalPlugin
  }

  /** The measuring loop followed by the cascade. */
  method IsProblematicPlugin(files: seq<FileReading>, t: Thresholds) returns (problematic: bool, reason: Verdict)
    ensures reason == Classify(|files|, Measure(files, t), t)
    ensures problematic <==> !reason.NormalPlugin?
  {
    var m := Metrics(0, 0, 0, 0, 0);
    var i := 0;
    while i < |files|
      invariant 0 <= i <= |files|
      invariant m == Measure(files[..i], t)
    {
      var f := files[i];
      if f.size.Some? {
        m := m.(totalSize := m.totalSize + f.size.value);
        if f.lines.Some? {
          var lines := f.lines.value;
          m := m.(totalLines := m.totalLines + lines);
          if f.size.value > t.largeFileSizeKB * 1024 {
            m := m.(largeFiles := m.largeFiles + 1);
          }
          if f.size.value > t.veryLargeFileSizeKB * 1024 {
            m := m.(veryLargeFiles := m.veryLargeFiles + 1);
          }
          if lines > t.errorProneFileLines {
            m := m.(errorProneFiles := m.errorProneFiles + 1);
          }
        }
      }
      assert files[..i + 1][..i] == files[..i];
      i := i + 1;
    }
    assert files[..|files|] == files;
    reason := Classify(|files|, m, t);
    problematic := !reason.NormalPlugin?;
  }

  // ---------------------------------------------------------------------------
  // Properties
  // ---------------------------------------------------------------------------

  /** The three file counts are the numbers of fully read files that pass each size test. */
  lemma {:induction false} MeasureCounts(files: seq<FileReading>, t: Thresholds)
    ensures Measure(files, t).largeFiles == |Filter(files, LargeTest(t))|
    ensures Measure(files, t).veryLargeFiles == |Filter(files, VeryLargeTest(t))|
    ensures Measure(files, t).errorProneFiles == |Filter(files, ErrorProneTest(t))|
    decreases |files|
  {
    if files != [] {
      MeasureCounts(files[..|files| - 1], t);
      FilterSnoc(files, LargeTest(t));
      FilterSnoc(files, VeryLargeTest(t));
      FilterSnoc(files, ErrorProneTest(t));
    }
  }

  /** With the very-large limit at least the large one, no more files are very large than large. */
  lemma VeryLargeAreLarge(files: seq<FileReading>, t: Thresholds)
    requires t.largeFileSizeKB <= t.veryLargeFileSizeKB
    ensures Measure(files, t).veryLargeFiles <= Measure(files, t).largeFiles
  {
    MeasureCounts(files, t);
    FilterMonotone(files, VeryLargeTest(t), LargeTest(t));
  }

  /** A plugin is normal exactly when none of the six limits is exceeded. */
  lemma NormalIffWithinLimits(fileCount: nat, m: Metrics, t: Thresholds)
    ensures Classify(fileCount, m, t).NormalPlugin? <==>
      fileCount <= t.maxFiles && m.totalSize <= t.maxTotalSizeMB * 1024 * 1024 &&
      m.totalLines <= t.maxTotalLines && m.largeFiles <= t.maxLargeFiles &&
      m.veryLargeFiles <= t.maxVeryLargeFiles && m.errorProneFiles <= t.maxErrorProneFiles
  {
  }

  /**
   * Each reason names a limit that is exceeded, reports the measured value
   * against it, and is given only when every earlier limit holds.
   */
  lemma ReasonIsFirstExceeded(fileCount: nat, m: Metrics, t: Thresholds)
    ensures var v := Classify(fileCount, m, t);
      (&& (v.TooManyFiles? ==> fileCount > t.maxFiles && v.files == fileCount)
       && (v.TotalSizeTooLarge? ==>
             (fileCount <= t.maxFiles && m.totalSize > t.maxTotalSizeMB * 1048576 &&
              v.megabytes * 1048576 <= m.totalSize < (v.megabytes + 1) * 1048576))
       && (v.TooManyLines? ==>
             (fileCount <= t.maxFiles && m.totalSize <= t.maxTotalSizeMB * 1048576 &&
              m.totalLines > t.maxTotalLines))
       && (v.TooManyLargeFiles? ==>
             (fileCount <= t.maxFiles && m.totalSize <= t.maxTotalSizeMB * 1048576 &&
              m.totalLines <= t.maxTotalLines && m.largeFiles > t.maxLargeFiles))
       && (v.VeryLargeFilesPresent? ==>
             (fileCount <= t.maxFiles && m.totalSize <= t.maxTotalSizeMB * 1048576 &&
              m.totalLines <= t.maxTotalLines && m.largeFiles <= t.maxLargeFiles && m.veryLargeFiles > t.maxVeryLargeFiles))
       && (v.TooManyErrorProneFiles? ==>
             (fileCount <= t.maxFiles && m.totalSize <= t.maxTotalSizeMB * 1048576 &&
              m.totalLines <= t.maxTotalLines && m.largeFiles <= t.maxLargeFiles &&
              m.veryLargeFiles <= t.maxVeryLargeFiles && m.errorProneFiles > t.maxErrorProneFiles)))
  {
  }

  /**
   * With the default thresholds (no very large file allowed), one fully
   * read file over 500 KB makes a plugin problematic.
   */
  lemma DefaultsRejectVeryLargeFile(files: seq<FileReading>, k: nat)
    requires k < |files| && files[k].size.Some? && files[k].lines.Some? && files[k].size.value > 500 * 1024
    ensures !Classify(|files|, Measure(files, DefaultThresholds), DefaultThresholds).NormalPlugin?
  {
    MeasureCounts(files, DefaultThresholds);
    assert VeryLargeTest(DefaultThresholds)(files[k]);
    assert files[k] in Filter(files, VeryLargeTest(DefaultThresholds));
  }
}

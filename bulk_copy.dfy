/**
 * Copying the images of a split, with their labels, from one dataset to
 * another in bulk: the names to copy are planned first, then handed to an
 * external copy tool in batches of at most BatchSize names; when the tool is
 * unavailable every file is copied with overwrite, and when running the tool
 * throws, the files are copied again, skipping targets that already exist.
 *
 * The tool itself is a parameter: for the argument list of one run it
 * reports either an exit code together with the names it copied, or an
 * exception.
 */
module YoloBulkCopy {
  import opened Text
  import opened Collections
  import opened Paths
  import opened YoloDatasetHelper

  // ---------------------------------------------------------------------
  // The plan
  // ---------------------------------------------------------------------

  /** The image file names queued for the stems, in the order of the stems:
      for each stem its first existing image by extension preference. */
  function QueuedImages(fs: FileSystem, dir: Path, stems: seq<string>): (r: seq<string>)
    ensures |r| <= |stems|
    ensures forall k :: 0 <= k < |r| ==> dir + [r[k]] in fs.files
    decreases |stems|
  {
    if stems == [] then []
    else
      var rest := QueuedImages(fs, dir, stems[..|stems| - 1]);
      match FindImage(fs, dir, stems[|stems| - 1])
      case None => rest
      case Some(name) => rest + [name]
  }

  /** The label file names queued for the stems: <stem>.txt for each stem
      whose label exists. */
  function QueuedLabels(fs: FileSystem, dir: Path, stems: seq<string>): (r: seq<string>)
    ensures |r| <= |stems|
    ensures forall k :: 0 <= k < |r| ==> dir + [r[k]] in fs.files
    decreases |stems|
  {
    if stems == [] then []
    else
      var rest := QueuedLabels(fs, dir, stems[..|stems| - 1]);
      var name := stems[|stems| - 1] + ".txt";
      if dir + [name] in fs.files then rest + [name] else rest
  }

  /** An image is queued exactly when it is the image found for one of the
      stems. */
  lemma {:induction false} QueuedImagesMembers(fs: FileSystem, dir: Path, stems: seq<string>, name: string)
    ensures name in QueuedImages(fs, dir, stems) <==> exists s :: s in stems && FindImage(fs, dir, s) == Some(name)
    decreases |stems|
  {
    if stems != [] {
      var init := stems[..|stems| - 1];
      QueuedImagesMembers(fs, dir, init, name);
      assert forall s :: s in stems <==> s in init || s == stems[|stems| - 1];
    }
  }

  /** A label is queued exactly when it is the existing label of one of the
      stems. */
  lemma {:induction false} QueuedLabelsMembers(fs: FileSystem, dir: Path, stems: seq<string>, name: string)
    ensures name in QueuedLabels(fs, dir, stems) <==>
      exists s :: s in stems && name == s + ".txt" && dir + [name] in fs.files
    decreases |stems|
  {
    if stems != [] {
      var init := stems[..|stems| - 1];
      QueuedLabelsMembers(fs, dir, init, name);
      assert forall s :: s in stems <==> s in init || s == stems[|stems| - 1];
    }
  }

  /** The loop that builds the image and label lists. */
  method PlanCopy(fs: FileSystem, src: Path, split: string, stems: seq<string>)
    returns (imageFiles: seq<string>, labelFiles: seq<string>)
    ensures imageFiles == QueuedImages(fs, ImagesDir(src, split), stems)
    ensures labelFiles == QueuedLabels(fs, LabelsDir(src, split), stems)
  {
    imageFiles, labelFiles := [], [];
    for i := 0 to |stems|
      invariant imageFiles == QueuedImages(fs, ImagesDir(src, split), stems[..i])
      invariant labelFiles == QueuedLabels(fs, LabelsDir(src, split), stems[..i])
    {
      assert stems[..i + 1][..i] == stems[..i];
      var found := GetImagePath(fs, src, split, stems[i]);
      if found.Some? {
        imageFiles := imageFiles + [found.value[|found.value| - 1]];
      }
      var labelFile := stems[i] + ".txt";
      if fs.FileExists(LabelsDir(src, split) + [labelFile]) {
        labelFiles := labelFiles + [labelFile];
      }
    }
    assert stems[..|stems|] == stems;
  }

  // ---------------------------------------------------------------------
  // Plain copies
  // ---------------------------------------------------------------------

  /** `p` is the path of one of `names` inside `dir`. */
  predicate InDir(dir: Path, names: seq<string>, p: Path)
  {
    |p| == |dir| + 1 && p[..|dir|] == dir && p[|dir|] in names
  }

  lemma InDirOf(dir: Path, names: seq<string>, n: string)
    ensures InDir(dir, names, dir + [n]) <==> n in names
  {
    assert (dir + [n])[..|dir|] == dir;
  }

  /** File.Copy(from/n, to/n, overwrite) for each name in order; with
      skipExisting a name whose target already exists is left alone.  The
      first copy that fails ends the run with its error. */
  function CopyEach(fs: FileSystem, from: Path, to: Path, names: seq<string>, skipExisting: bool): (r: Outcome<FileSystem>)
    ensures r.Done? ==> r.value.dirs == fs.dirs
    decreases |names|
  {
    if names == [] then Done(fs)
    else
      match CopyEach(fs, from, to, names[..|names| - 1], skipExisting)
      case Failed(e) => Failed(e)
      case Done(fs1) =>
        var n := names[|names| - 1];
        if skipExisting && fs1.FileExists(to + [n]) then Done(fs1)
        else fs1.CopyFile(from + [n], to + [n], true)
  }

  /** The loop of either fallback. */
  method CopyFiles(fs: FileSystem, from: Path, to: Path, names: seq<string>, skipExisting: bool) returns (r: Outcome<FileSystem>)
    ensures r == CopyEach(fs, from, to, names, skipExisting)
  {
    var current := fs;
    for i := 0 to |names|
      invariant CopyEach(fs, from, to, names[..i], skipExisting) == Done(current)
    {
      assert names[..i + 1][..i] == names[..i];
      var destPath := to + [names[i]];
      if !skipExisting || !current.FileExists(destPath) {
        var copied := current.CopyFile(from + [names[i]], destPath, true);
        if copied.Failed? {
          CopyEachFailed(fs, from, to, names, i + 1, skipExisting);
          return copied;
        }
        current := copied.value;
      }
    }
    assert names[..|names|] == names;
    return Done(current);
  }

  /** Once a copy has failed, the run ends with that failure. */
  lemma {:induction false} CopyEachFailed(fs: FileSystem, from: Path, to: Path, names: seq<string>, k: nat, skipExisting: bool)
    requires k <= |names|
    requires CopyEach(fs, from, to, names[..k], skipExisting).Failed?
    ensures CopyEach(fs, from, to, names, skipExisting) == CopyEach(fs, from, to, names[..k], skipExisting)
    decreases |names|
  {
    if k < |names| {
      var init := names[..|names| - 1];
      assert init[..k] == names[..k];
      CopyEachFailed(fs, from, to, init, k, skipExisting);
    } else {
      assert names[..k] == names;
    }
  }

  /** Two paths in different directories differ. */
  lemma OtherDirectory(from: Path, to: Path, x: string, y: string)
    requires from != to
    ensures to + [x] != from + [y]
  {
    if |from| == |to| {
      assert (to + [x])[..|to|] == to && (from + [y])[..|from|] == from;
    }
  }

  /** What a run of copies leaves at one path: the source's contents for
      the targets (or, when skipped, what the target held), and otherwise what
      was there. */
  ghost predicate CopiedAt(fs: FileSystem, r: FileSystem, from: Path, to: Path, names: seq<string>, skipExisting: bool, p: Path)
  {
    if InDir(to, names, p) then
      p in r.files
      && if skipExisting && p in fs.files then r.files[p] == fs.files[p]
         else from + [p[|to|]] in fs.files && r.files[p] == fs.files[from + [p[|to|]]]
    else
      (p in r.files <==> p in fs.files) && (p in fs.files ==> r.files[p] == fs.files[p])
  }

  /** When every source exists and the directories differ, the copies all
      succeed, with the effect CopiedAt describes at every path. */
  lemma {:induction false} CopyEachEffect(fs: FileSystem, from: Path, to: Path, names: seq<string>, skipExisting: bool)
    requires from != to
    requires forall k :: 0 <= k < |names| ==> from + [names[k]] in fs.files
    ensures CopyEach(fs, from, to, names, skipExisting).Done?
    ensures forall p :: CopiedAt(fs, CopyEach(fs, from, to, names, skipExisting).value, from, to, names, skipExisting, p)
    decreases |names|
  {
    if names == [] {
      forall p ensures CopiedAt(fs, fs, from, to, names, skipExisting, p) {
      }
    } else {
      var init := names[..|names| - 1];
      var n := names[|names| - 1];
      CopyEachEffect(fs, from, to, init, skipExisting);
      var fs1 := CopyEach(fs, from, to, init, skipExisting).value;
      var r := CopyEach(fs, from, to, names, skipExisting);
      OtherDirectory(from, to, n, n);
      assert !InDir(to, init, from + [n]) by {
        assert (from + [n])[..|from|] == from;
      }
      assert names == init + [n];
      CopyStep(fs, fs1, from, to, init, n, skipExisting, to + [n]);
      forall p ensures CopiedAt(fs, r.value, from, to, names, skipExisting, p) {
        CopyStep(fs, fs1, from, to, init, n, skipExisting, p);
      }
    }
  }

  /** The last copy of a run, at one path. */
  lemma CopyStep(fs: FileSystem, fs1: FileSystem, from: Path, to: Path, init: seq<string>, n: string, skipExisting: bool, p: Path)
    requires from != to
    requires from + [n] in fs.files && !InDir(to, init, from + [n])
    requires CopiedAt(fs, fs1, from, to, init, skipExisting, from + [n])
    requires CopiedAt(fs, fs1, from, to, init, skipExisting, p)
    requires CopiedAt(fs, fs1, from, to, init, skipExisting, to + [n])
    ensures var r := if skipExisting && fs1.FileExists(to + [n]) then Done(fs1) else fs1.CopyFile(from + [n], to + [n], true);
      r.Done? && CopiedAt(fs, r.value, from, to, init + [n], skipExisting, p)
  {
    InDirOf(to, init, n);
    InDirOf(to, init + [n], n);
    if p != to + [n] {
      assert InDir(to, init + [n], p) <==> InDir(to, init, p) by {
        if |p| == |to| + 1 && p[..|to|] == to {
          assert p == to + [p[|to|]];
        }
      }
    }
  }

  // ---------------------------------------------------------------------
  // Runs of the copy tool
  // ---------------------------------------------------------------------

  /** What one run of the copy tool reports: its exit code and the names it
      copied, or the exception that running it threw.  The tool is given the
      run as a ToolCall; the command line it stands for is ToolArguments. */
  datatype ToolRun = Exited(exitCode: int, copied: set<string>) | Threw(message: string)

  datatype FileKind = ImageFiles | LabelFiles

  /** The messages passed to the log callback. */
  datatype LogEntry =
    | ToolUnavailable
    | KindStarting(kind: FileKind, count: nat, threads: nat)
    | BatchStarting(kind: FileKind, number: nat, total: nat, size: nat)
    | BatchWarning(kind: FileKind, exitCode: int)
    | BatchCompleted(kind: FileKind, number: nat, total: nat, processed: nat, totalFiles: nat)
    | KindCompleted(kind: FileKind, count: nat)
    | FallingBack(message: string)

  /** All processor cores but two, and at least one thread. */
  function ThreadCount(processorCount: int): (n: nat)
    ensures n >= 1 && n >= processorCount - 2
    ensures n == 1 || n == processorCount - 2
  {
    if processorCount - 2 >= 1 then processorCount - 2 else 1
  }

  /** One run of the copy tool: source and target directory, the names of
      the batch and the number of threads. */
  datatype ToolCall = ToolCall(from: Path, to: Path, batch: seq<string>, threads: nat)

  /** The argument list of a run: source and target directory, the names,
      then the fixed options. */
  function ToolArguments(c: ToolCall): (args: seq<string>)
    ensures |args| == |c.batch| + 9
    ensures args[0] == PathText(c.from) && args[1] == PathText(c.to)
    ensures args[2..2 + |c.batch|] == c.batch
    ensures args[2 + |c.batch|..] == ["/MT:" + NatToString(c.threads), "/R:2", "/W:1", "/NFL", "/NDL", "/NJH", "/NJS"]
  {
    [PathText(c.from), PathText(c.to)] + c.batch + ["/MT:" + NatToString(c.threads), "/R:2", "/W:1", "/NFL", "/NDL", "/NJH", "/NJS"]
  }

  /** What a run that exited leaves: each name of the batch it reports as
      copied, whose source exists, holds the source's contents at the target. */
  function ToolEffect(fs: FileSystem, from: Path, to: Path, batch: seq<string>, copied: set<string>): (r: FileSystem)
    ensures r.dirs == fs.dirs
    ensures forall p :: p in fs.files ==> p in r.files
    ensures forall p :: p in r.files ==> p in fs.files || InDir(to, batch, p)
    ensures forall k :: 0 <= k < |batch| && batch[k] in copied && from + [batch[k]] in fs.files ==> to + [batch[k]] in r.files
    decreases |batch|
  {
    if batch == [] then fs
    else
      var init := batch[..|batch| - 1];
      var fs1 := ToolEffect(fs, from, to, init, copied);
      var n := batch[|batch| - 1];
      assert forall x :: x in init ==> x in batch;
      assert forall k :: 0 <= k < |init| ==> init[k] == batch[k];
      InDirOf(to, batch, n);
      if n in copied && from + [n] in fs1.files then fs1.WriteFile(to + [n], fs1.files[from + [n]]) else fs1
  }

  /** The state of the bulk copy between runs: the files, the log so far, the
      number of names handed to the tool, the batches handed to it, and the
      exception, once one was thrown. */
  datatype Progress = Progress(fs: FileSystem, log: seq<LogEntry>, processed: nat, runs: seq<seq<string>>, failure: Option<string>)

  /** Run number j + 1 over the names, the batch Skip(j * BatchSize).Take(BatchSize). */
  function RunBatch(p: Progress, kind: FileKind, from: Path, to: Path, names: seq<string>, j: nat,
                    threads: nat, totalFiles: nat, tool: ToolCall -> ToolRun): Progress
  {
    var batch := Chunk(names, BatchSize, j);
    var total := CeilDiv(|names|, BatchSize);
    var log := p.log + [BatchStarting(kind, j + 1, total, |batch|)];
    match tool(ToolCall(from, to, batch, threads))
    case Threw(m) => Progress(p.fs, log, p.processed, p.runs + [batch], Some(m))
    case Exited(code, copied) =>
      var processed := p.processed + |batch|;
      var entry := if code >= 8 then BatchWarning(kind, code) else BatchCompleted(kind, j + 1, total, processed, totalFiles);
      Progress(ToolEffect(p.fs, from, to, batch, copied), log + [entry], processed, p.runs + [batch], None)
  }

  /** The runs from number j + 1 on, until the names are used up or a run
      throws. */
  function RunBatchesFrom(p: Progress, kind: FileKind, from: Path, to: Path, names: seq<string>, j: nat,
                          threads: nat, totalFiles: nat, tool: ToolCall -> ToolRun): Progress
    decreases |names| - j * BatchSize
  {
    if p.failure.Some? || j * BatchSize >= |names| then p
    else
      MulSucc(j, BatchSize);
      RunBatchesFrom(RunBatch(p, kind, from, to, names, j, threads, totalFiles, tool), kind, from, to, names, j + 1, threads, totalFiles, tool)
  }

  /** The batch loop of one kind of file. */
  method RunBatches(p: Progress, kind: FileKind, from: Path, to: Path, names: seq<string>,
                    threads: nat, totalFiles: nat, tool: ToolCall -> ToolRun) returns (q: Progress)
    requires p.failure.None?
    ensures q == RunBatchesFrom(p, kind, from, to, names, 0, threads, totalFiles, tool)
  {
    ghost var goal := RunBatchesFrom(p, kind, from, to, names, 0, threads, totalFiles, tool);
    q := p;
    var i := 0;
    ghost var j: nat := 0;
    while i < |names|
      invariant i == j * BatchSize && q.failure.None?
      invariant goal == RunBatchesFrom(q, kind, from, to, names, j, threads, totalFiles, tool)
      decreases |names| - i
    {
      RunBatchesStep(q, kind, from, to, names, j, threads, totalFiles, tool);
      var batch := Take(Skip(names, i), BatchSize);
      PageIsSkipTake(names, i, BatchSize);
      BatchNumber(j);
      var batchNumber := i / BatchSize + 1;
      q := RunOneBatch(q, kind, from, to, names, batch, batchNumber, threads, totalFiles, tool);
      if q.failure.Some? {
        return;
      }
      MulSucc(j, BatchSize);
      i := i + BatchSize;
      j := j + 1;
    }
  }

  /** One pass of the batch loop: log the start, run the tool on the batch,
      count the names handed over and log the outcome. */
  method RunOneBatch(p: Progress, kind: FileKind, from: Path, to: Path, names: seq<string>, batch: seq<string>,
                     batchNumber: nat, threads: nat, totalFiles: nat, tool: ToolCall -> ToolRun) returns (q: Progress)
    requires batchNumber >= 1 && batch == Chunk(names, BatchSize, batchNumber - 1)
    ensures q == RunBatch(p, kind, from, to, names, batchNumber - 1, threads, totalFiles, tool)
  {
    var totalBatches := CeilDiv(|names|, BatchSize);
    var log := p.log + [BatchStarting(kind, batchNumber, totalBatches, |batch|)];
    var result := tool(ToolCall(from, to, batch, threads));
    if result.Threw? {
      return Progress(p.fs, log, p.processed, p.runs + [batch], Some(result.message));
    }
    var processed := p.processed + |batch|;
    if result.exitCode >= 8 {
      log := log + [BatchWarning(kind, result.exitCode)];
    } else {
      log := log + [BatchCompleted(kind, batchNumber, totalBatches, processed, totalFiles)];
    }
    q := Progress(ToolEffect(p.fs, from, to, batch, result.copied), log, processed, p.runs + [batch], None);
  }

  /** The batch starting at j * BatchSize has number j + 1. */
  lemma BatchNumber(j: nat)
    ensures (j * BatchSize) / BatchSize + 1 == j + 1
  {
  }

  lemma RunBatchesStep(p: Progress, kind: FileKind, from: Path, to: Path, names: seq<string>, j: nat,
                       threads: nat, totalFiles: nat, tool: ToolCall -> ToolRun)
    requires p.failure.None? && j * BatchSize < |names|
    ensures RunBatchesFrom(p, kind, from, to, names, j, threads, totalFiles, tool)
         == RunBatchesFrom(RunBatch(p, kind, from, to, names, j, threads, totalFiles, tool), kind, from, to, names, j + 1, threads, totalFiles, tool)
  {
  }

  /** Both states agree on everything but the text of the log. */
  predicate SameButLog(p: Progress, p': Progress)
  {
    p.fs == p'.fs && p.processed == p'.processed && p.runs == p'.runs && p.failure == p'.failure
    && |p.log| == |p'.log|
  }

  /** Two tools that throw alike and copy alike, whatever exit codes they
      report, leave the same state: an exit code of 8 or more is only logged. */
  lemma {:induction false} ExitCodesOnlyLogged(p: Progress, p': Progress, kind: FileKind, from: Path, to: Path, names: seq<string>, j: nat,
                                               threads: nat, totalFiles: nat, tool: ToolCall -> ToolRun, tool': ToolCall -> ToolRun)
    requires SameButLog(p, p')
    requires forall a :: tool(a).Threw? <==> tool'(a).Threw?
    requires forall a :: tool(a).Exited? ==> tool'(a).Exited? && tool(a).copied == tool'(a).copied
    requires forall a :: tool(a).Threw? ==> tool(a) == tool'(a)
    ensures SameButLog(RunBatchesFrom(p, kind, from, to, names, j, threads, totalFiles, tool),
                       RunBatchesFrom(p', kind, from, to, names, j, threads, totalFiles, tool'))
    decreases |names| - j * BatchSize
  {
    if p.failure.None? && j * BatchSize < |names| {
      MulSucc(j, BatchSize);
      ExitCodesOnlyLogged(RunBatch(p, kind, from, to, names, j, threads, totalFiles, tool),
                          RunBatch(p', kind, from, to, names, j, threads, totalFiles, tool'),
                          kind, from, to, names, j + 1, threads, totalFiles, tool, tool');
    }
  }

  /** When no run throws, the runs from number j + 1 on hand over the pages
      from j on, and all the names not yet handed over are counted. */
  lemma {:induction false} RunsArePages(p: Progress, kind: FileKind, from: Path, to: Path, names: seq<string>, j: nat,
                                        threads: nat, totalFiles: nat, tool: ToolCall -> ToolRun)
    requires p.failure.None?
    requires forall a :: tool(a).Exited?
    ensures RunBatchesFrom(p, kind, from, to, names, j, threads, totalFiles, tool).failure.None?
    ensures RunBatchesFrom(p, kind, from, to, names, j, threads, totalFiles, tool).runs == p.runs + PagesFrom(names, BatchSize, j)
    ensures RunBatchesFrom(p, kind, from, to, names, j, threads, totalFiles, tool).processed
         == p.processed + (|names| - Min(j * BatchSize, |names|))
    decreases |names| - j * BatchSize, 1
  {
    if j * BatchSize < |names| {
      RunsArePagesMore(p, kind, from, to, names, j, threads, totalFiles, tool);
    } else {
      assert RunBatchesFrom(p, kind, from, to, names, j, threads, totalFiles, tool) == p;
      assert PagesFrom(names, BatchSize, j) == [];
    }
  }

  /** The same when there is a run to make. */
  lemma {:induction false} RunsArePagesMore(p: Progress, kind: FileKind, from: Path, to: Path, names: seq<string>, j: nat,
                                            threads: nat, totalFiles: nat, tool: ToolCall -> ToolRun)
    requires p.failure.None? && j * BatchSize < |names|
    requires forall a :: tool(a).Exited?
    ensures RunBatchesFrom(p, kind, from, to, names, j, threads, totalFiles, tool).failure.None?
    ensures RunBatchesFrom(p, kind, from, to, names, j, threads, totalFiles, tool).runs == p.runs + PagesFrom(names, BatchSize, j)
    ensures RunBatchesFrom(p, kind, from, to, names, j, threads, totalFiles, tool).processed
         == p.processed + (|names| - Min(j * BatchSize, |names|))
    decreases |names| - j * BatchSize, 0
  {
    MulSucc(j, BatchSize);
    RunBatchExits(p, kind, from, to, names, j, threads, totalFiles, tool);
    RunsArePages(RunBatch(p, kind, from, to, names, j, threads, totalFiles, tool), kind, from, to, names, j + 1, threads, totalFiles, tool);
    RunsArePagesStep(p, kind, from, to, names, j, threads, totalFiles, tool);
  }

  /** One exiting run in front of the later runs. */
  lemma RunsArePagesStep(p: Progress, kind: FileKind, from: Path, to: Path, names: seq<string>, j: nat,
                         threads: nat, totalFiles: nat, tool: ToolCall -> ToolRun)
    requires p.failure.None? && j * BatchSize < |names|
    requires tool(ToolCall(from, to, Chunk(names, BatchSize, j), threads)).Exited?
    requires RunBatchesFrom(RunBatch(p, kind, from, to, names, j, threads, totalFiles, tool), kind, from, to, names, j + 1, threads, totalFiles, tool).failure.None?
    requires RunBatchesFrom(RunBatch(p, kind, from, to, names, j, threads, totalFiles, tool), kind, from, to, names, j + 1, threads, totalFiles, tool).runs
          == RunBatch(p, kind, from, to, names, j, threads, totalFiles, tool).runs + PagesFrom(names, BatchSize, j + 1)
    requires RunBatchesFrom(RunBatch(p, kind, from, to, names, j, threads, totalFiles, tool), kind, from, to, names, j + 1, threads, totalFiles, tool).processed
          == RunBatch(p, kind, from, to, names, j, threads, totalFiles, tool).processed + (|names| - Min((j + 1) * BatchSize, |names|))
    ensures RunBatchesFrom(p, kind, from, to, names, j, threads, totalFiles, tool).failure.None?
    ensures RunBatchesFrom(p, kind, from, to, names, j, threads, totalFiles, tool).runs == p.runs + PagesFrom(names, BatchSize, j)
    ensures RunBatchesFrom(p, kind, from, to, names, j, threads, totalFiles, tool).processed
         == p.processed + (|names| - Min(j * BatchSize, |names|))
  {
    MulSucc(j, BatchSize);
    RunBatchExits(p, kind, from, to, names, j, threads, totalFiles, tool);
    RunBatchesStep(p, kind, from, to, names, j, threads, totalFiles, tool);
    assert PagesFrom(names, BatchSize, j) == [Chunk(names, BatchSize, j)] + PagesFrom(names, BatchSize, j + 1);
    PageCount(|names|, j);
  }

  /** A run that exits hands over its batch and counts it. */
  lemma RunBatchExits(p: Progress, kind: FileKind, from: Path, to: Path, names: seq<string>, j: nat,
                      threads: nat, totalFiles: nat, tool: ToolCall -> ToolRun)
    requires tool(ToolCall(from, to, Chunk(names, BatchSize, j), threads)).Exited?
    ensures var p1 := RunBatch(p, kind, from, to, names, j, threads, totalFiles, tool);
      p1.failure.None? && p1.runs == p.runs + [Chunk(names, BatchSize, j)]
      && p1.processed == p.processed + |Chunk(names, BatchSize, j)|
  {
  }

  /** The names left after page j are those left after page j + 1 and the
      names of page j. */
  lemma PageCount(n: nat, j: nat)
    requires j * BatchSize < n
    ensures (n - Min((j + 1) * BatchSize, n)) + Min(BatchSize, n - j * BatchSize) == n - Min(j * BatchSize, n)
  {
    MulSucc(j, BatchSize);
  }

  /** A kind run without exceptions hands the names to the tool in
      CeilDiv(n, BatchSize) consecutive batches of one to BatchSize names
      that together are the names in order, and counts every name. */
  lemma BatchesCoverNames(p: Progress, kind: FileKind, from: Path, to: Path, names: seq<string>,
                          threads: nat, totalFiles: nat, tool: ToolCall -> ToolRun)
    requires p.failure.None? && p.runs == [] && p.processed == 0
    requires forall a :: tool(a).Exited?
    ensures var q := RunBatchesFrom(p, kind, from, to, names, 0, threads, totalFiles, tool);
      q.failure.None? && q.processed == |names|
      && |q.runs| == CeilDiv(|names|, BatchSize)
      && Flatten(q.runs) == names
      && (forall i :: 0 <= i < |q.runs| ==> 0 < |q.runs[i]| <= BatchSize)
  {
    RunsArePages(p, kind, from, to, names, 0, threads, totalFiles, tool);
    PagesCover(names, BatchSize);
    assert [] + PagesFrom(names, BatchSize, 0) == PagesFrom(names, BatchSize, 0);
  }

  // ---------------------------------------------------------------------
  // The whole copy
  // ---------------------------------------------------------------------

  /** Both kinds of file: a kind with names logs its start, runs its batches
      and, unless a run threw, logs its completion; nothing runs after an
      exception. */
  function RunKind(p: Progress, kind: FileKind, from: Path, to: Path, names: seq<string>,
                   threads: nat, totalFiles: nat, tool: ToolCall -> ToolRun): Progress
  {
    if p.failure.Some? || names == [] then p
    else
      var q := RunBatchesFrom(p.(log := p.log + [KindStarting(kind, |names|, threads)]), kind, from, to, names, 0, threads, totalFiles, tool);
      if q.failure.Some? then q else q.(log := q.log + [KindCompleted(kind, |names|)])
  }

  /** The fallback copy: the images, then the labels, File.Copy with
      overwrite, where skipExisting leaves targets that exist alone. */
  function Fallback(fs: FileSystem, src: Path, dst: Path, split: string, images: seq<string>, labels: seq<string>,
                    skipExisting: bool): Outcome<FileSystem>
  {
    match CopyEach(fs, ImagesDir(src, split), ImagesDir(dst, split), images, skipExisting)
    case Failed(e) => Failed(e)
    case Done(fs1) => CopyEach(fs1, LabelsDir(src, split), LabelsDir(dst, split), labels, skipExisting)
  }

  /** What the bulk copy leaves: the file system, or the error of a fallback
      copy that failed, and the log. */
  datatype CopyResult = CopyResult(outcome: Outcome<FileSystem>, log: seq<LogEntry>)

  /** The destination directories of a split, created before anything is
      copied. */
  function WithDestinationDirs(fs: FileSystem, dst: Path, split: string): (r: FileSystem)
    ensures r.files == fs.files
  {
    fs.CreateDirectory(ImagesDir(dst, split)).CreateDirectory(LabelsDir(dst, split))
  }

  /** CopyImageAndLabelWithRobocopyAsync with the availability of the tool,
      the processor count and the tool itself as parameters. */
  function BulkCopy(fs: FileSystem, src: Path, dst: Path, split: string, stems: seq<string>,
                    available: bool, processorCount: int, tool: ToolCall -> ToolRun): CopyResult
  {
    if stems == [] then CopyResult(Done(fs), [])
    else
      var fs1 := WithDestinationDirs(fs, dst, split);
      var images := QueuedImages(fs1, ImagesDir(src, split), stems);
      var labels := QueuedLabels(fs1, LabelsDir(src, split), stems);
      if !available then CopyResult(Fallback(fs1, src, dst, split, images, labels, false), [ToolUnavailable])
      else ToolCopy(fs1, src, dst, split, images, labels, ThreadCount(processorCount), tool)
  }

  /** The copy with the tool: the images, then the labels, and the fallback
      that skips existing targets once a run threw. */
  function ToolCopy(fs: FileSystem, src: Path, dst: Path, split: string, images: seq<string>, labels: seq<string>,
                    threads: nat, tool: ToolCall -> ToolRun): CopyResult
  {
    var totalFiles := |images| + |labels|;
    var q0 := Progress(fs, [], 0, [], None);
    var q1 := RunKind(q0, ImageFiles, ImagesDir(src, split), ImagesDir(dst, split), images, threads, totalFiles, tool);
    var q2 := RunKind(q1, LabelFiles, LabelsDir(src, split), LabelsDir(dst, split), labels, threads, totalFiles, tool);
    match q2.failure
    case None => CopyResult(Done(q2.fs), q2.log)
    case Some(m) => CopyResult(Fallback(q2.fs, src, dst, split, images, labels, true), q2.log + [FallingBack(m)])
  }

  /** One kind of file, as the method runs it. */
  method CopyKind(p: Progress, kind: FileKind, from: Path, to: Path, names: seq<string>,
                  threads: nat, totalFiles: nat, tool: ToolCall -> ToolRun) returns (q: Progress)
    requires p.failure.None?
    ensures q == RunKind(p, kind, from, to, names, threads, totalFiles, tool)
  {
    if |names| == 0 {
      return p;
    }
    q := p.(log := p.log + [KindStarting(kind, |names|, threads)]);
    q := RunBatches(q, kind, from, to, names, threads, totalFiles, tool);
    if q.failure.None? {
      q := q.(log := q.log + [KindCompleted(kind, |names|)]);
    }
  }

  /** Either fallback, as the method runs it. */
  method CopyFallback(fs: FileSystem, src: Path, dst: Path, split: string, images: seq<string>, labels: seq<string>,
                      skipExisting: bool) returns (r: Outcome<FileSystem>)
    ensures r == Fallback(fs, src, dst, split, images, labels, skipExisting)
  {
    r := CopyFiles(fs, ImagesDir(src, split), ImagesDir(dst, split), images, skipExisting);
    if r.Done? {
      r := CopyFiles(r.value, LabelsDir(src, split), LabelsDir(dst, split), labels, skipExisting);
    }
  }

  /** CopyImageAndLabelWithRobocopyAsync. */
  method CopyImageAndLabelWithRobocopy(fs: FileSystem, src: Path, dst: Path, split: string, stems: seq<string>,
                                       available: bool, processorCount: int, tool: ToolCall -> ToolRun)
    returns (r: CopyResult)
    ensures r == BulkCopy(fs, src, dst, split, stems, available, processorCount, tool)
  {
    if |stems| == 0 {
      return CopyResult(Done(fs), []);
    }
    var fs1 := fs.CreateDirectory(ImagesDir(dst, split));
    fs1 := fs1.CreateDirectory(LabelsDir(dst, split));
    var imageFiles, labelFiles := PlanCopy(fs1, src, split, stems);
    if !available {
      var copied := CopyFallback(fs1, src, dst, split, imageFiles, labelFiles, false);
      return CopyResult(copied, [ToolUnavailable]);
    }
    var threads := ThreadCount(processorCount);
    r := CopyWithTool(fs1, src, dst, split, imageFiles, labelFiles, threads, tool);
  }

  /** The part of the method inside the try block, and its catch. */
  method CopyWithTool(fs: FileSystem, src: Path, dst: Path, split: string, images: seq<string>, labels: seq<string>,
                      threads: nat, tool: ToolCall -> ToolRun) returns (r: CopyResult)
    ensures r == ToolCopy(fs, src, dst, split, images, labels, threads, tool)
  {
    var totalFiles := |images| + |labels|;
    var q := Progress(fs, [], 0, [], None);
    q := CopyKind(q, ImageFiles, ImagesDir(src, split), ImagesDir(dst, split), images, threads, totalFiles, tool);
    if q.failure.None? {
      q := CopyKind(q, LabelFiles, LabelsDir(src, split), LabelsDir(dst, split), labels, threads, totalFiles, tool);
    }
    if q.failure.None? {
      return CopyResult(Done(q.fs), q.log);
    }
    var copied := CopyFallback(q.fs, src, dst, split, images, labels, true);
    r := CopyResult(copied, q.log + [FallingBack(q.failure.value)]);
  }

  // ---------------------------------------------------------------------
  // The files the copy leaves
  // ---------------------------------------------------------------------

  /** Every run that exits copies every name of its batch. */
  ghost predicate FullRuns(tool: ToolCall -> ToolRun)
  {
    forall c :: tool(c).Exited? ==> forall n :: n in c.batch ==> n in tool(c).copied
  }

  /** The runs keep every file and add files only in the target directory,
      under the names. */
  lemma {:induction false} RunBatchesKeys(p: Progress, kind: FileKind, from: Path, to: Path, names: seq<string>, j: nat,
                                          threads: nat, totalFiles: nat, tool: ToolCall -> ToolRun)
    ensures Grows(p.fs, RunBatchesFrom(p, kind, from, to, names, j, threads, totalFiles, tool).fs, to, names)
    decreases |names| - j * BatchSize, 1
  {
    if p.failure.None? && j * BatchSize < |names| {
      RunBatchesKeysMore(p, kind, from, to, names, j, threads, totalFiles, tool);
    } else {
      assert RunBatchesFrom(p, kind, from, to, names, j, threads, totalFiles, tool) == p;
    }
  }

  /** The same when there is a run to make. */
  lemma {:induction false} RunBatchesKeysMore(p: Progress, kind: FileKind, from: Path, to: Path, names: seq<string>, j: nat,
                                              threads: nat, totalFiles: nat, tool: ToolCall -> ToolRun)
    requires p.failure.None? && j * BatchSize < |names|
    ensures Grows(p.fs, RunBatchesFrom(p, kind, from, to, names, j, threads, totalFiles, tool).fs, to, names)
    decreases |names| - j * BatchSize, 0
  {
    MulSucc(j, BatchSize);
    RunBatchesKeys(RunBatch(p, kind, from, to, names, j, threads, totalFiles, tool), kind, from, to, names, j + 1, threads, totalFiles, tool);
    RunBatchKeys(p, kind, from, to, names, j, threads, totalFiles, tool);
    RunBatchesStep(p, kind, from, to, names, j, threads, totalFiles, tool);
    GrowsTrans(p.fs, RunBatch(p, kind, from, to, names, j, threads, totalFiles, tool).fs,
               RunBatchesFrom(RunBatch(p, kind, from, to, names, j, threads, totalFiles, tool), kind, from, to, names, j + 1, threads, totalFiles, tool).fs, to, names);
  }

  /** Keeps every file of `a` and adds files only in `to` under the names. */
  ghost predicate Grows(a: FileSystem, b: FileSystem, to: Path, names: seq<string>)
  {
    (forall x :: x in a.files ==> x in b.files) && forall x :: x in b.files ==> x in a.files || InDir(to, names, x)
  }

  lemma GrowsTrans(a: FileSystem, b: FileSystem, c: FileSystem, to: Path, names: seq<string>)
    requires Grows(a, b, to, names) && Grows(b, c, to, names)
    ensures Grows(a, c, to, names)
  {
  }

  /** The same for one run. */
  lemma RunBatchKeys(p: Progress, kind: FileKind, from: Path, to: Path, names: seq<string>, j: nat,
                     threads: nat, totalFiles: nat, tool: ToolCall -> ToolRun)
    ensures var q := RunBatch(p, kind, from, to, names, j, threads, totalFiles, tool);
      Grows(p.fs, q.fs, to, names)
  {
    ChunkWithin(names, BatchSize, j);
    assert forall x :: InDir(to, Chunk(names, BatchSize, j), x) ==> InDir(to, names, x);
  }

  /** With full runs and sources that exist, runs that end without an
      exception leave every target. */
  lemma {:induction false} RunBatchesComplete(p: Progress, kind: FileKind, from: Path, to: Path, names: seq<string>, j: nat,
                                              threads: nat, totalFiles: nat, tool: ToolCall -> ToolRun)
    requires FullRuns(tool)
    requires forall k :: 0 <= k < |names| ==> from + [names[k]] in p.fs.files
    requires forall k :: 0 <= k < Min(j * BatchSize, |names|) ==> to + [names[k]] in p.fs.files
    ensures RunBatchesFrom(p, kind, from, to, names, j, threads, totalFiles, tool).failure.None? ==>
      forall k :: 0 <= k < |names| ==> to + [names[k]] in RunBatchesFrom(p, kind, from, to, names, j, threads, totalFiles, tool).fs.files
    decreases |names| - j * BatchSize, 1
  {
    if p.failure.None? && j * BatchSize < |names| {
      RunBatchesCompleteMore(p, kind, from, to, names, j, threads, totalFiles, tool);
    } else {
      assert RunBatchesFrom(p, kind, from, to, names, j, threads, totalFiles, tool) == p;
    }
  }

  /** The same when there is a run to make. */
  lemma {:induction false} RunBatchesCompleteMore(p: Progress, kind: FileKind, from: Path, to: Path, names: seq<string>, j: nat,
                                                  threads: nat, totalFiles: nat, tool: ToolCall -> ToolRun)
    requires FullRuns(tool) && p.failure.None? && j * BatchSize < |names|
    requires forall k :: 0 <= k < |names| ==> from + [names[k]] in p.fs.files
    requires forall k :: 0 <= k < Min(j * BatchSize, |names|) ==> to + [names[k]] in p.fs.files
    ensures RunBatchesFrom(p, kind, from, to, names, j, threads, totalFiles, tool).failure.None? ==>
      forall k :: 0 <= k < |names| ==> to + [names[k]] in RunBatchesFrom(p, kind, from, to, names, j, threads, totalFiles, tool).fs.files
    decreases |names| - j * BatchSize, 0
  {
    MulSucc(j, BatchSize);
    RunBatchesStep(p, kind, from, to, names, j, threads, totalFiles, tool);
    if RunBatch(p, kind, from, to, names, j, threads, totalFiles, tool).failure.None? {
      RunBatchComplete(p, kind, from, to, names, j, threads, totalFiles, tool);
      RunBatchesComplete(RunBatch(p, kind, from, to, names, j, threads, totalFiles, tool), kind, from, to, names, j + 1, threads, totalFiles, tool);
    } else {
      assert RunBatchesFrom(RunBatch(p, kind, from, to, names, j, threads, totalFiles, tool), kind, from, to, names, j + 1, threads, totalFiles, tool)
          == RunBatch(p, kind, from, to, names, j, threads, totalFiles, tool);
    }
  }

  /** The same for one run that does not throw. */
  lemma RunBatchComplete(p: Progress, kind: FileKind, from: Path, to: Path, names: seq<string>, j: nat,
                         threads: nat, totalFiles: nat, tool: ToolCall -> ToolRun)
    requires FullRuns(tool) && j * BatchSize < |names|
    requires forall k :: 0 <= k < |names| ==> from + [names[k]] in p.fs.files
    requires forall k :: 0 <= k < Min(j * BatchSize, |names|) ==> to + [names[k]] in p.fs.files
    requires RunBatch(p, kind, from, to, names, j, threads, totalFiles, tool).failure.None?
    ensures forall k :: 0 <= k < |names| ==> from + [names[k]] in RunBatch(p, kind, from, to, names, j, threads, totalFiles, tool).fs.files
    ensures forall k :: 0 <= k < Min((j + 1) * BatchSize, |names|) ==> to + [names[k]] in RunBatch(p, kind, from, to, names, j, threads, totalFiles, tool).fs.files
  {
    var batch := Chunk(names, BatchSize, j);
    match tool(ToolCall(from, to, batch, threads))
    case Exited(code, copied) =>
      BatchTargets(p.fs, ToolEffect(p.fs, from, to, batch, copied), from, to, names, j, copied);
  }

  /** The effect of a full run on page j: the targets of the pages up to
      j + 1 exist and so do the sources. */
  lemma BatchTargets(fs: FileSystem, r: FileSystem, from: Path, to: Path, names: seq<string>, j: nat, copied: set<string>)
    requires j * BatchSize < |names|
    requires r == ToolEffect(fs, from, to, Chunk(names, BatchSize, j), copied)
    requires forall n :: n in Chunk(names, BatchSize, j) ==> n in copied
    requires forall k :: 0 <= k < |names| ==> from + [names[k]] in fs.files
    requires forall k :: 0 <= k < Min(j * BatchSize, |names|) ==> to + [names[k]] in fs.files
    ensures forall k :: 0 <= k < |names| ==> from + [names[k]] in r.files
    ensures forall k :: 0 <= k < Min((j + 1) * BatchSize, |names|) ==> to + [names[k]] in r.files
  {
    var batch := Chunk(names, BatchSize, j);
    var start := j * BatchSize;
    MulSucc(j, BatchSize);
    assert Min((j + 1) * BatchSize, |names|) == Min(start + BatchSize, |names|);
    assert |batch| == Min(start + BatchSize, |names|) - start;
    forall k | start <= k < Min(start + BatchSize, |names|) ensures to + [names[k]] in r.files {
      BatchTarget(fs, r, from, to, batch, copied, k - start, names[k]);
    }
  }

  lemma BatchTarget(fs: FileSystem, r: FileSystem, from: Path, to: Path, batch: seq<string>, copied: set<string>, m: nat, n: string)
    requires r == ToolEffect(fs, from, to, batch, copied)
    requires m < |batch| && batch[m] == n && n in copied && from + [n] in fs.files
    ensures to + [n] in r.files
  {
  }

  /** The same for a whole kind of file. */
  lemma RunKindKeys(p: Progress, kind: FileKind, from: Path, to: Path, names: seq<string>,
                    threads: nat, totalFiles: nat, tool: ToolCall -> ToolRun)
    ensures var q := RunKind(p, kind, from, to, names, threads, totalFiles, tool);
      (forall x :: x in p.fs.files ==> x in q.fs.files)
      && (forall x :: x in q.fs.files ==> x in p.fs.files || InDir(to, names, x))
      && (p.failure.Some? ==> q == p)
  {
    if p.failure.None? && names != [] {
      RunBatchesKeys(p.(log := p.log + [KindStarting(kind, |names|, threads)]), kind, from, to, names, 0, threads, totalFiles, tool);
    }
  }

  lemma RunKindComplete(p: Progress, kind: FileKind, from: Path, to: Path, names: seq<string>,
                        threads: nat, totalFiles: nat, tool: ToolCall -> ToolRun)
    requires FullRuns(tool)
    requires forall k :: 0 <= k < |names| ==> from + [names[k]] in p.fs.files
    ensures var q := RunKind(p, kind, from, to, names, threads, totalFiles, tool);
      q.failure.None? ==> forall k :: 0 <= k < |names| ==> to + [names[k]] in q.fs.files
  {
    if p.failure.None? && names != [] {
      RunBatchesComplete(p.(log := p.log + [KindStarting(kind, |names|, threads)]), kind, from, to, names, 0, threads, totalFiles, tool);
    }
  }

  /** Copies between different directories whose sources all exist succeed
      and add exactly the targets. */
  lemma CopyEachKeys(fs: FileSystem, from: Path, to: Path, names: seq<string>, skipExisting: bool)
    requires from != to
    requires forall k :: 0 <= k < |names| ==> from + [names[k]] in fs.files
    ensures CopyEach(fs, from, to, names, skipExisting).Done?
    ensures forall x :: x in CopyEach(fs, from, to, names, skipExisting).value.files <==> x in fs.files || InDir(to, names, x)
  {
    CopyEachEffect(fs, from, to, names, skipExisting);
    var r := CopyEach(fs, from, to, names, skipExisting).value;
    forall x ensures x in r.files <==> x in fs.files || InDir(to, names, x) {
      assert CopiedAt(fs, r, from, to, names, skipExisting, x);
    }
  }

  /** The destination directories of different datasets differ. */
  lemma DestinationsDiffer(src: Path, dst: Path, split: string)
    requires src != dst
    ensures ImagesDir(src, split) != ImagesDir(dst, split) && LabelsDir(src, split) != LabelsDir(dst, split)
  {
    if |src| == |dst| {
      assert ImagesDir(src, split)[..|src|] == src && ImagesDir(dst, split)[..|dst|] == dst;
      assert LabelsDir(src, split)[..|src|] == src && LabelsDir(dst, split)[..|dst|] == dst;
    }
  }

  /** The image and the label targets of a split are found apart. */
  ghost predicate Target(dst: Path, split: string, images: seq<string>, labels: seq<string>, x: Path)
  {
    InDir(ImagesDir(dst, split), images, x) || InDir(LabelsDir(dst, split), labels, x)
  }

  /** Either fallback adds exactly the targets, whichever of them exist. */
  lemma FallbackKeys(fs: FileSystem, src: Path, dst: Path, split: string, images: seq<string>, labels: seq<string>,
                     skipExisting: bool)
    requires src != dst
    requires forall k :: 0 <= k < |images| ==> ImagesDir(src, split) + [images[k]] in fs.files
    requires forall k :: 0 <= k < |labels| ==> LabelsDir(src, split) + [labels[k]] in fs.files
    ensures Fallback(fs, src, dst, split, images, labels, skipExisting).Done?
    ensures forall x :: x in Fallback(fs, src, dst, split, images, labels, skipExisting).value.files
                        <==> x in fs.files || Target(dst, split, images, labels, x)
  {
    DestinationsDiffer(src, dst, split);
    CopyEachKeys(fs, ImagesDir(src, split), ImagesDir(dst, split), images, skipExisting);
    var fs1 := CopyEach(fs, ImagesDir(src, split), ImagesDir(dst, split), images, skipExisting).value;
    CopyEachKeys(fs1, LabelsDir(src, split), LabelsDir(dst, split), labels, skipExisting);
  }

  /** The overwriting fallback and the one that skips existing targets
      leave the same files. */
  lemma FallbacksSameFiles(fs: FileSystem, src: Path, dst: Path, split: string, images: seq<string>, labels: seq<string>)
    requires src != dst
    requires forall k :: 0 <= k < |images| ==> ImagesDir(src, split) + [images[k]] in fs.files
    requires forall k :: 0 <= k < |labels| ==> LabelsDir(src, split) + [labels[k]] in fs.files
    ensures Fallback(fs, src, dst, split, images, labels, false).Done?
    ensures Fallback(fs, src, dst, split, images, labels, true).Done?
    ensures Fallback(fs, src, dst, split, images, labels, false).value.files.Keys
         == Fallback(fs, src, dst, split, images, labels, true).value.files.Keys
  {
    FallbackKeys(fs, src, dst, split, images, labels, false);
    FallbackKeys(fs, src, dst, split, images, labels, true);
  }

  /** The copy fell back to File.Copy after a run of the tool threw: its log
      ends with the notice of the fallback. */
  predicate FellBack(r: CopyResult)
  {
    |r.log| > 0 && r.log[|r.log| - 1].FallingBack?
  }

  /** The copy with the tool ends without error, keeps every file and adds
      only targets; it adds all of them when it fell back after an exception,
      whatever the runs before copied, and when every run that exits copies
      its whole batch. */
  lemma ToolCopyFiles(fs: FileSystem, src: Path, dst: Path, split: string, images: seq<string>, labels: seq<string>,
                      threads: nat, tool: ToolCall -> ToolRun)
    requires src != dst
    requires forall k :: 0 <= k < |images| ==> ImagesDir(src, split) + [images[k]] in fs.files
    requires forall k :: 0 <= k < |labels| ==> LabelsDir(src, split) + [labels[k]] in fs.files
    ensures var r := ToolCopy(fs, src, dst, split, images, labels, threads, tool);
      r.outcome.Done?
      && (forall x :: x in fs.files ==> x in r.outcome.value.files)
      && (forall x :: x in r.outcome.value.files ==> x in fs.files || Target(dst, split, images, labels, x))
      && (FellBack(r) || FullRuns(tool) ==> forall x :: Target(dst, split, images, labels, x) ==> x in r.outcome.value.files)
  {
    var totalFiles := |images| + |labels|;
    var q0 := Progress(fs, [], 0, [], None);
    var q1 := RunKind(q0, ImageFiles, ImagesDir(src, split), ImagesDir(dst, split), images, threads, totalFiles, tool);
    var q2 := RunKind(q1, LabelFiles, LabelsDir(src, split), LabelsDir(dst, split), labels, threads, totalFiles, tool);
    RunKindKeys(q0, ImageFiles, ImagesDir(src, split), ImagesDir(dst, split), images, threads, totalFiles, tool);
    RunKindKeys(q1, LabelFiles, LabelsDir(src, split), LabelsDir(dst, split), labels, threads, totalFiles, tool);
    if FullRuns(tool) {
      RunKindComplete(q0, ImageFiles, ImagesDir(src, split), ImagesDir(dst, split), images, threads, totalFiles, tool);
      RunKindComplete(q1, LabelFiles, LabelsDir(src, split), LabelsDir(dst, split), labels, threads, totalFiles, tool);
    }
    if q2.failure.Some? {
      FallbackKeys(q2.fs, src, dst, split, images, labels, true);
    } else {
      // Without an exception the log ends with a completion notice, or is empty.
      if labels != [] {
        assert q2.log[|q2.log| - 1] == KindCompleted(LabelFiles, |labels|);
      } else if images != [] {
        assert q1.log[|q1.log| - 1] == KindCompleted(ImageFiles, |images|);
      }
      if FullRuns(tool) {
        forall x | Target(dst, split, images, labels, x) ensures x in q2.fs.files {
          TargetOf(dst, split, images, labels, x);
        }
      }
    }
  }

  /** A target is the path of one of the names in its directory. */
  lemma TargetOf(dst: Path, split: string, images: seq<string>, labels: seq<string>, x: Path)
    requires Target(dst, split, images, labels, x)
    ensures (exists k :: 0 <= k < |images| && x == ImagesDir(dst, split) + [images[k]])
         || (exists k :: 0 <= k < |labels| && x == LabelsDir(dst, split) + [labels[k]])
  {
    var d := if InDir(ImagesDir(dst, split), images, x) then ImagesDir(dst, split) else LabelsDir(dst, split);
    assert x == d + [x[|d|]];
  }

  /** Each way through the bulk copy ends without error, keeps every file and
      adds only the destination images and labels of the stems; the fallback
      taken when the tool is unavailable and a tool whose runs copy their
      whole batches add every one of them; BulkCopyFallbackFiles states the
      same of the fallback taken after an exception. */
  lemma BulkCopyFiles(fs: FileSystem, src: Path, dst: Path, split: string, stems: seq<string>,
                      available: bool, processorCount: int, tool: ToolCall -> ToolRun)
    requires src != dst
    ensures var fs1 := WithDestinationDirs(fs, dst, split);
      var images := QueuedImages(fs1, ImagesDir(src, split), stems);
      var labels := QueuedLabels(fs1, LabelsDir(src, split), stems);
      var r := BulkCopy(fs, src, dst, split, stems, available, processorCount, tool);
      r.outcome.Done?
      && (forall x :: x in fs.files ==> x in r.outcome.value.files)
      && (forall x :: x in r.outcome.value.files ==> x in fs.files || Target(dst, split, images, labels, x))
      && ((!available || FullRuns(tool)) ==> forall x :: Target(dst, split, images, labels, x) ==> x in r.outcome.value.files)
  {
    var fs1 := WithDestinationDirs(fs, dst, split);
    var images := QueuedImages(fs1, ImagesDir(src, split), stems);
    var labels := QueuedLabels(fs1, LabelsDir(src, split), stems);
    if stems == [] {
      assert images == [] && labels == [];
      forall x ensures !Target(dst, split, images, labels, x) {
      }
    } else if !available {
      FallbackKeys(fs1, src, dst, split, images, labels, false);
    } else {
      ToolCopyFiles(fs1, src, dst, split, images, labels, ThreadCount(processorCount), tool);
    }
  }

  /** The fallback taken after a run of the tool threw adds every
      destination image and label of the stems, whatever the runs before it
      copied. */
  lemma BulkCopyFallbackFiles(fs: FileSystem, src: Path, dst: Path, split: string, stems: seq<string>,
                              available: bool, processorCount: int, tool: ToolCall -> ToolRun)
    requires src != dst
    ensures var fs1 := WithDestinationDirs(fs, dst, split);
      var images := QueuedImages(fs1, ImagesDir(src, split), stems);
      var labels := QueuedLabels(fs1, LabelsDir(src, split), stems);
      var r := BulkCopy(fs, src, dst, split, stems, available, processorCount, tool);
      FellBack(r) ==> r.outcome.Done? && forall x :: Target(dst, split, images, labels, x) ==> x in r.outcome.value.files
  {
    if stems != [] && available {
      var fs1 := WithDestinationDirs(fs, dst, split);
      ToolCopyFiles(fs1, src, dst, split, QueuedImages(fs1, ImagesDir(src, split), stems),
                    QueuedLabels(fs1, LabelsDir(src, split), stems), ThreadCount(processorCount), tool);
    }
  }
}

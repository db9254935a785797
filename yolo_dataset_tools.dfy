/**
 * The dataset tools: merging datasets (the union of their class registries
 * and the copy that renames colliding images), splitting a dataset three
 * ways, and filtering it by class, by position or at random.
 *
 * Random shuffles are parameters: a shuffled list is any permutation of the
 * list it shuffles.  The class registries read from the datasets' YAML
 * files and the listings of their image directories are parameters too.
 */
module YoloDatasetTools {
  import opened Text
  import opened Collections
  import opened Paths
  import opened YoloDatasetHelper

  // ---------------------------------------------------------------------
  // The merged class registry
  // ---------------------------------------------------------------------

  /** The registries merged in dataset order: an id defined by several
      datasets keeps the name the first of them gives it. */
  function MergedRegistry(registries: seq<map<int, string>>): map<int, string>
    decreases |registries|
  {
    if registries == [] then map[]
    else registries[|registries| - 1] + MergedRegistry(registries[..|registries| - 1])
  }

  /** The merged ids are the ids of all registries, and each keeps the name
      of the first registry that defines it. */
  lemma {:induction false} MergedRegistryFirstWins(registries: seq<map<int, string>>, id: int)
    ensures id in MergedRegistry(registries) <==> exists i :: 0 <= i < |registries| && id in registries[i]
    ensures forall i :: 0 <= i < |registries| && id in registries[i] && (forall j :: 0 <= j < i ==> id !in registries[j])
              ==> MergedRegistry(registries)[id] == registries[i][id]
    decreases |registries|
  {
    if registries != [] {
      var n := |registries| - 1;
      var init := registries[..n];
      MergedRegistryFirstWins(init, id);
      assert forall i :: 0 <= i < n ==> init[i] == registries[i];
    }
  }

  /** The registry loop of MergeDatasets: for every dataset, every class it
      defines is added unless the id is already present. */
  method MergeClasses(registries: seq<map<int, string>>) returns (merged: map<int, string>)
    ensures merged == MergedRegistry(registries)
  {
    merged := map[];
    for d := 0 to |registries|
      invariant merged == MergedRegistry(registries[..d])
    {
      var classes := registries[d];
      ghost var base := merged;
      var remaining := classes.Keys;
      while remaining != {}
        invariant remaining <= classes.Keys
        invariant merged.Keys == base.Keys + (classes.Keys - remaining)
        invariant forall id :: id in merged ==> merged[id] == if id in base then base[id] else classes[id]
        decreases remaining
      {
        // Pick supplies the witness the verifier needs to see that the
        // choice of id below exists.
        ghost var some := Pick(remaining);
        var id :| id in remaining;
        if id !in merged {
          merged := merged[id := classes[id]];
        }
        remaining := remaining - {id};
      }
      assert merged.Keys == (classes + base).Keys;
      assert forall id :: id in merged ==> merged[id] == (classes + base)[id];
      assert merged == classes + base;
      assert registries[..d + 1][..d] == registries[..d];
    }
    assert registries[..|registries|] == registries;
  }

  // ---------------------------------------------------------------------
  // Collision renaming
  // ---------------------------------------------------------------------

  /** stem_k.ext, the image name tried for collision counter k. */
  function RenamedImage(stem: string, k: nat, ext: string): string
  {
    stem + "_" + NatToString(k) + ext
  }

  /** stem_k.txt, the label name that goes with it. */
  function RenamedLabel(stem: string, k: nat): string
  {
    RenamedImage(stem, k, ".txt")
  }

  /** Different counters give different names. */
  lemma RenamedImageInjective(stem: string, ext: string, a: nat, b: nat)
    requires RenamedImage(stem, a, ext) == RenamedImage(stem, b, ext)
    ensures a == b
  {
    var x := RenamedImage(stem, a, ext);
    var sa := NatToString(a);
    var sb := NatToString(b);
    assert |sa| == |sb|;
    assert x[|stem| + 1..|stem| + 1 + |sa|] == sa;
    assert RenamedImage(stem, b, ext)[|stem| + 1..|stem| + 1 + |sb|] == sb;
    NatToStringInjective(a, b);
  }

  /** The number of counters whose image or label path is taken is bounded
      by the number of files. */
  lemma {:induction false} TakenCountersBounded(files: set<Path>, images: Path, labels: Path, stem: string, ext: string,
                                                checkLabel: bool, n: nat)
    requires images != labels
    requires forall c :: 1 <= c <= n ==> Taken(files, images, labels, stem, ext, checkLabel, c)
    ensures n <= |files|
    decreases n
  {
    if n > 0 {
      var x := if images + [RenamedImage(stem, n, ext)] in files then images + [RenamedImage(stem, n, ext)]
               else labels + [RenamedLabel(stem, n)];
      assert Taken(files, images, labels, stem, ext, checkLabel, n);
      assert x in files;
      assert |files - {x}| == |files| - 1;
      forall c | 1 <= c <= n - 1 ensures Taken(files - {x}, images, labels, stem, ext, checkLabel, c) {
        TakenApart(files, images, labels, stem, ext, checkLabel, c, n);
      }
      TakenCountersBounded(files - {x}, images, labels, stem, ext, checkLabel, n - 1);
    }
  }

  /** The file a later counter takes is not one an earlier counter takes. */
  lemma TakenApart(files: set<Path>, images: Path, labels: Path, stem: string, ext: string, checkLabel: bool, c: nat, n: nat)
    requires images != labels && 1 <= c < n
    requires Taken(files, images, labels, stem, ext, checkLabel, c) && Taken(files, images, labels, stem, ext, checkLabel, n)
    ensures var x := if images + [RenamedImage(stem, n, ext)] in files then images + [RenamedImage(stem, n, ext)]
                     else labels + [RenamedLabel(stem, n)];
      Taken(files - {x}, images, labels, stem, ext, checkLabel, c)
  {
    var ic := images + [RenamedImage(stem, c, ext)];
    var lc := labels + [RenamedLabel(stem, c)];
    var iN := images + [RenamedImage(stem, n, ext)];
    var lN := labels + [RenamedLabel(stem, n)];
    if ic == iN {
      assert ic[|images|] == RenamedImage(stem, c, ext) && iN[|images|] == RenamedImage(stem, n, ext);
      RenamedImageInjective(stem, ext, c, n);
    }
    if lc == lN {
      assert lc[|labels|] == RenamedLabel(stem, c) && lN[|labels|] == RenamedLabel(stem, n);
      RenamedImageInjective(stem, ".txt", c, n);
    }
    DifferentDirs(images, labels, RenamedImage(stem, c, ext), RenamedLabel(stem, n));
    DifferentDirs(images, labels, RenamedImage(stem, n, ext), RenamedLabel(stem, c));
  }

  lemma DifferentDirs(a: Path, b: Path, x: string, y: string)
    requires a != b
    ensures a + [x] != b + [y]
  {
    if |a| == |b| {
      assert (a + [x])[..|a|] == a && (b + [y])[..|b|] == b;
    }
  }

  /** Counter c is taken: its image exists, or, when labels are checked as
      well, its label does. */
  predicate Taken(files: set<Path>, images: Path, labels: Path, stem: string, ext: string, checkLabel: bool, c: nat)
  {
    images + [RenamedImage(stem, c, ext)] in files || (checkLabel && labels + [RenamedLabel(stem, c)] in files)
  }

  /** The least counter from c on that is not taken. */
  function FreeCounter(files: set<Path>, images: Path, labels: Path, stem: string, ext: string, checkLabel: bool, c: nat): (k: nat)
    requires images != labels && c >= 1
    requires forall c' :: 1 <= c' < c ==> Taken(files, images, labels, stem, ext, checkLabel, c')
    ensures k >= c && !Taken(files, images, labels, stem, ext, checkLabel, k)
    ensures forall c' :: 1 <= c' < k ==> Taken(files, images, labels, stem, ext, checkLabel, c')
    decreases |files| + 1 - c
  {
    TakenCountersBounded(files, images, labels, stem, ext, checkLabel, c - 1);
    if !Taken(files, images, labels, stem, ext, checkLabel, c) then c
    else
      TakenCountersBounded(files, images, labels, stem, ext, checkLabel, c);
      FreeCounter(files, images, labels, stem, ext, checkLabel, c + 1)
  }

  /** Where a merged image goes: counter 0 keeps its own name and its
      label's, counter k >= 1 renames both to stem_k. */
  function TargetImage(fileName: string, k: nat): string
  {
    if k == 0 then fileName else RenamedImage(Stem(fileName), k, Extension(fileName))
  }

  function TargetLabel(fileName: string, k: nat): string
  {
    if k == 0 then Stem(fileName) + ".txt" else RenamedLabel(Stem(fileName), k)
  }

  /** The counter MergeDatasets picks: 0 when the image name is free in the
      output, otherwise the least k >= 1 whose renamed image is free; the
      label is not looked at. */
  function CollisionCounterAsWritten(fs: FileSystem, images: Path, labels: Path, fileName: string): (k: nat)
    requires images != labels
    ensures images + [TargetImage(fileName, k)] !in fs.files
    ensures k > 0 ==> (images + [fileName] in fs.files
                       && forall c :: 1 <= c < k ==> images + [RenamedImage(Stem(fileName), c, Extension(fileName))] in fs.files)
  {
    if images + [fileName] !in fs.files then 0
    else
      var k := FreeCounter(fs.files.Keys, images, labels, Stem(fileName), Extension(fileName), false, 1);
      forall c | 1 <= c < k ensures images + [RenamedImage(Stem(fileName), c, Extension(fileName))] in fs.files {
        assert Taken(fs.files.Keys, images, labels, Stem(fileName), Extension(fileName), false, c);
      }
      k
  }

  /** The counter that was evidently intended: the least one whose image and
      label are both free. */
  function CollisionCounter(fs: FileSystem, images: Path, labels: Path, fileName: string): (k: nat)
    requires images != labels
    ensures images + [TargetImage(fileName, k)] !in fs.files && labels + [TargetLabel(fileName, k)] !in fs.files
    ensures k > 0 ==> ((images + [fileName] in fs.files || labels + [Stem(fileName) + ".txt"] in fs.files)
                       && forall c :: 1 <= c < k ==> Taken(fs.files.Keys, images, labels, Stem(fileName), Extension(fileName), true, c))
  {
    if images + [fileName] !in fs.files && labels + [Stem(fileName) + ".txt"] !in fs.files then 0
    else FreeCounter(fs.files.Keys, images, labels, Stem(fileName), Extension(fileName), true, 1)
  }

  /** One image of the merge, as written: File.Copy of the image to its
      target without overwrite, then of its label, when the source label
      exists, to the label target without overwrite. */
  function MergeImageAsWritten(fs: FileSystem, srcImages: Path, srcLabels: Path, images: Path, labels: Path, fileName: string)
    : Outcome<FileSystem>
    requires images != labels
  {
    var k := CollisionCounterAsWritten(fs, images, labels, fileName);
    match fs.CopyFile(srcImages + [fileName], images + [TargetImage(fileName, k)], false)
    case Failed(e) => Failed(e)
    case Done(fs1) =>
      var srcLabel := srcLabels + [Stem(fileName) + ".txt"];
      if fs1.FileExists(srcLabel) then fs1.CopyFile(srcLabel, labels + [TargetLabel(fileName, k)], false) else Done(fs1)
  }

  /** One image of the merge with the counter that leaves both targets free. */
  function MergeImage(fs: FileSystem, srcImages: Path, srcLabels: Path, images: Path, labels: Path, fileName: string)
    : Outcome<FileSystem>
    requires images != labels
  {
    var k := CollisionCounter(fs, images, labels, fileName);
    match fs.CopyFile(srcImages + [fileName], images + [TargetImage(fileName, k)], false)
    case Failed(e) => Failed(e)
    case Done(fs1) =>
      var srcLabel := srcLabels + [Stem(fileName) + ".txt"];
      if fs1.FileExists(srcLabel) then fs1.CopyFile(srcLabel, labels + [TargetLabel(fileName, k)], false) else Done(fs1)
  }

  /** `b` holds every file of `a`, unchanged. */
  ghost predicate Extends(a: FileSystem, b: FileSystem)
  {
    forall p :: p in a.files ==> p in b.files && b.files[p] == a.files[p]
  }

  lemma ExtendsTransitive(a: FileSystem, b: FileSystem, c: FileSystem)
    requires Extends(a, b) && Extends(b, c)
    ensures Extends(a, c)
  {
  }

  /** As written, a merged image never overwrites a file either: it fails
      instead. */
  lemma MergeImageAsWrittenKeeps(fs: FileSystem, srcImages: Path, srcLabels: Path, images: Path, labels: Path, fileName: string)
    requires images != labels
    ensures var r := MergeImageAsWritten(fs, srcImages, srcLabels, images, labels, fileName);
      r.Done? ==> Extends(fs, r.value)
  {
  }

  /** With the intended counter a merged image whose source exists is
      copied, with its label when that exists, to targets that were free:
      nothing fails and nothing is overwritten. */
  lemma MergeImageCopies(fs: FileSystem, srcImages: Path, srcLabels: Path, images: Path, labels: Path, fileName: string)
    requires images != labels && srcImages + [fileName] in fs.files
    ensures var r := MergeImage(fs, srcImages, srcLabels, images, labels, fileName);
      var k := CollisionCounter(fs, images, labels, fileName);
      var withImage := fs.files[images + [TargetImage(fileName, k)] := fs.files[srcImages + [fileName]]];
      var srcLabel := srcLabels + [Stem(fileName) + ".txt"];
      r.Done? && Extends(fs, r.value)
      && r.value.files == if srcLabel in withImage then withImage[labels + [TargetLabel(fileName, k)] := withImage[srcLabel]] else withImage
  {
    var k := CollisionCounter(fs, images, labels, fileName);
    DifferentDirs(images, labels, TargetImage(fileName, k), TargetLabel(fileName, k));
  }

  /** The collision that makes the merge fail as written: the output holds
      cat.png with its label cat.txt, and the next dataset brings cat.jpg
      with a label.  cat.jpg is free, so it keeps its name, and copying its
      label onto the existing cat.txt throws. */
  lemma LabelCollisionFails()
    ensures var fs := FileSystem(map[["out", "images", "train", "cat.png"] := "1", ["out", "labels", "train", "cat.txt"] := "2",
                                     ["b", "images", "train", "cat.jpg"] := "3", ["b", "labels", "train", "cat.txt"] := "4"], {});
      var args := (["b", "images", "train"], ["b", "labels", "train"], ["out", "images", "train"], ["out", "labels", "train"]);
      MergeImageAsWritten(fs, args.0, args.1, args.2, args.3, "cat.jpg") == Failed(FileAlreadyExists(["out", "labels", "train", "cat.txt"]))
      && MergeImage(fs, args.0, args.1, args.2, args.3, "cat.jpg").Done?
  {
    var fs := FileSystem(map[["out", "images", "train", "cat.png"] := "1", ["out", "labels", "train", "cat.txt"] := "2",
                             ["b", "images", "train", "cat.jpg"] := "3", ["b", "labels", "train", "cat.txt"] := "4"], {});
    StemOfAppend("cat", ".jpg");
    assert "cat.jpg" == "cat" + ".jpg";
    assert "cat" + ".txt" == "cat.txt";
    var t := ["out", "images", "train"] + ["cat.jpg"];
    assert t != ["out", "images", "train", "cat.png"] by { assert t[3][4] != "cat.png"[4]; }
    assert t != ["out", "labels", "train", "cat.txt"] by { assert t[1][0] != "labels"[0]; }
    assert t != ["b", "images", "train", "cat.jpg"] && t != ["b", "labels", "train", "cat.txt"] by { assert |t[0]| != 1; }
    assert ["b", "labels", "train"] + ["cat.txt"] == ["b", "labels", "train", "cat.txt"];
    assert ["b", "images", "train"] + ["cat.jpg"] == ["b", "images", "train", "cat.jpg"];
    assert ["out", "labels", "train"] + ["cat.txt"] == ["out", "labels", "train", "cat.txt"];
    MergeImageCopies(fs, ["b", "images", "train"], ["b", "labels", "train"], ["out", "images", "train"], ["out", "labels", "train"], "cat.jpg");
  }

  /** The least counter from c on that is not taken is the one FreeCounter
      finds. */
  lemma {:induction false} FreeCounterIsLeast(files: set<Path>, images: Path, labels: Path, stem: string, ext: string,
                                              checkLabel: bool, c: nat, k: nat)
    requires images != labels && 1 <= c <= k
    requires forall c' :: 1 <= c' < k ==> Taken(files, images, labels, stem, ext, checkLabel, c')
    requires !Taken(files, images, labels, stem, ext, checkLabel, k)
    ensures FreeCounter(files, images, labels, stem, ext, checkLabel, c) == k
    decreases k - c
  {
    if c < k {
      FreeCounterIsLeast(files, images, labels, stem, ext, checkLabel, c + 1, k);
    }
  }

  /** The collision loop of MergeDatasets, with the label target checked as
      well as the image target: stem_1, stem_2, ... are tried until both
      are free. */
  method FindCollisionCounter(fs: FileSystem, images: Path, labels: Path, fileName: string) returns (k: nat)
    requires images != labels
    ensures k == CollisionCounter(fs, images, labels, fileName)
  {
    var stem, ext := Stem(fileName), Extension(fileName);
    var destImage := images + [fileName];
    var destLabel := labels + [stem + ".txt"];
    var counter: nat := 1;
    while fs.FileExists(destImage) || fs.FileExists(destLabel)
      invariant counter >= 1
      invariant destImage == images + [TargetImage(fileName, counter - 1)]
      invariant destLabel == labels + [TargetLabel(fileName, counter - 1)]
      invariant counter > 1 ==> images + [fileName] in fs.files || labels + [stem + ".txt"] in fs.files
      invariant forall c :: 1 <= c < counter - 1 ==> Taken(fs.files.Keys, images, labels, stem, ext, true, c)
      decreases |fs.files.Keys| + 1 - counter
    {
      if counter > 1 {
        assert Taken(fs.files.Keys, images, labels, stem, ext, true, counter - 1);
        TakenCountersBounded(fs.files.Keys, images, labels, stem, ext, true, counter - 1);
      }
      destImage := images + [RenamedImage(stem, counter, ext)];
      destLabel := labels + [RenamedLabel(stem, counter)];
      counter := counter + 1;
    }
    k := counter - 1;
    if k > 0 {
      FreeCounterIsLeast(fs.files.Keys, images, labels, stem, ext, true, 1, k);
    }
  }

  /** One image of the merge: the collision counter, then File.Copy of the
      image and, when the source label exists, of the label. */
  method MergeOneImage(fs: FileSystem, srcImages: Path, srcLabels: Path, images: Path, labels: Path, fileName: string)
    returns (r: Outcome<FileSystem>)
    requires images != labels
    ensures r == MergeImage(fs, srcImages, srcLabels, images, labels, fileName)
  {
    var k := FindCollisionCounter(fs, images, labels, fileName);
    r := fs.CopyFile(srcImages + [fileName], images + [TargetImage(fileName, k)], false);
    if r.Done? {
      var fs1 := r.value;
      var srcLabel := srcLabels + [Stem(fileName) + ".txt"];
      if fs1.FileExists(srcLabel) {
        r := fs1.CopyFile(srcLabel, labels + [TargetLabel(fileName, k)], false);
      }
    }
  }

  /** The images of one split of one dataset merged one after the other;
      the first failure ends the merge. */
  function MergeSplitFiles(fs: FileSystem, srcImages: Path, srcLabels: Path, images: Path, labels: Path, names: seq<string>)
    : Outcome<FileSystem>
    requires images != labels
    decreases |names|
  {
    if names == [] then Done(fs)
    else
      match MergeImage(fs, srcImages, srcLabels, images, labels, names[0])
      case Failed(e) => Failed(e)
      case Done(fs1) => MergeSplitFiles(fs1, srcImages, srcLabels, images, labels, names[1..])
  }

  method MergeSplit(fs: FileSystem, srcImages: Path, srcLabels: Path, images: Path, labels: Path, names: seq<string>)
    returns (r: Outcome<FileSystem>)
    requires images != labels
    ensures r == MergeSplitFiles(fs, srcImages, srcLabels, images, labels, names)
  {
    var current := fs;
    for i := 0 to |names|
      invariant MergeSplitFiles(fs, srcImages, srcLabels, images, labels, names)
             == MergeSplitFiles(current, srcImages, srcLabels, images, labels, names[i..])
    {
      assert names[i..][1..] == names[i + 1..];
      var step := MergeOneImage(current, srcImages, srcLabels, images, labels, names[i]);
      if step.Failed? {
        return step;
      }
      current := step.value;
    }
    r := Done(current);
  }

  /** Merging a split whose images all exist succeeds, overwrites nothing
      and leaves every image's content in the output under its own name or
      a renamed one. */
  lemma {:induction false} MergeSplitCopiesAll(fs: FileSystem, srcImages: Path, srcLabels: Path, images: Path, labels: Path,
                                               names: seq<string>)
    requires images != labels
    requires forall n :: n in names ==> srcImages + [n] in fs.files
    ensures var r := MergeSplitFiles(fs, srcImages, srcLabels, images, labels, names);
      r.Done? && Extends(fs, r.value) && r.value.dirs == fs.dirs
      && forall n :: n in names ==> exists k: nat :: (images + [TargetImage(n, k)] in r.value.files
                                                    && r.value.files[images + [TargetImage(n, k)]] == fs.files[srcImages + [n]])
    decreases |names|
  {
    if names != [] {
      var n := names[0];
      MergeImageCopies(fs, srcImages, srcLabels, images, labels, n);
      var k := CollisionCounter(fs, images, labels, n);
      var fs1 := MergeImage(fs, srcImages, srcLabels, images, labels, n).value;
      assert forall m :: m in names[1..] ==> m in names;
      MergeSplitCopiesAll(fs1, srcImages, srcLabels, images, labels, names[1..]);
      var r := MergeSplitFiles(fs1, srcImages, srcLabels, images, labels, names[1..]).value;
      ExtendsTransitive(fs, fs1, r);
      assert images + [TargetImage(n, k)] in r.files;
      forall m | m in names
        ensures exists k: nat :: images + [TargetImage(m, k)] in r.files && r.files[images + [TargetImage(m, k)]] == fs.files[srcImages + [m]]
      {
        if m != n {
          assert m in names[1..];
        }
      }
    }
  }

  // ---------------------------------------------------------------------
  // The whole merge
  // ---------------------------------------------------------------------

  /** The output of a merge: the file system and the number of images
      copied. */
  datatype MergeSummary = MergeSummary(fs: FileSystem, copied: nat)

  /** The splits ticked, in the order train, val, test. */
  function SelectedSplits(train: bool, val: bool, test: bool): (r: seq<string>)
    ensures NoDuplicates(r)
    ensures forall s :: s in r <==> (s == "train" && train) || (s == "val" && val) || (s == "test" && test)
  {
    (if train then ["train"] else []) + (if val then ["val"] else []) + (if test then ["test"] else [])
  }

  /** The names of a listing that end with .png, .jpg or .jpeg in any case,
      in listing order. */
  function ImageFiles(names: seq<string>): (r: seq<string>)
    ensures |r| <= |names|
    ensures forall n :: n in r <==> n in names && IsImageName(n)
  {
    if names == [] then []
    else
      var rest := ImageFiles(names[1..]);
      assert forall n :: n in names <==> n == names[0] || n in names[1..];
      if IsImageName(names[0]) then [names[0]] + rest else rest
  }

  lemma ImagesAreNotLabelsDir(root: Path, split: string)
    ensures ImagesDir(root, split) != LabelsDir(root, split)
  {
    assert ImagesDir(root, split)[|root|] != LabelsDir(root, split)[|root|];
  }

  /** One split of one dataset: skipped when its images directory is
      absent, otherwise every image file of its listing is merged. */
  function MergeSplitStep(m: MergeSummary, output: Path, dataset: Path, split: string, listing: Path -> seq<string>)
    : Outcome<MergeSummary>
  {
    var src := ImagesDir(dataset, split);
    if !m.fs.DirExists(src) then Done(m)
    else
      var names := ImageFiles(listing(src));
      ImagesAreNotLabelsDir(output, split);
      Counted(MergeSplitFiles(m.fs, src, LabelsDir(dataset, split), ImagesDir(output, split), LabelsDir(output, split), names),
              m.copied + |names|)
  }

  /** The summary after a split's files were merged, with the running count
      of files processed. */
  function Counted(merged: Outcome<FileSystem>, copied: nat): Outcome<MergeSummary>
  {
    match merged
    case Failed(e) => Failed(e)
    case Done(fs1) => Done(MergeSummary(fs1, copied))
  }

  /** The selected splits of one dataset, in order. */
  function MergeDatasetSplits(m: MergeSummary, output: Path, dataset: Path, splits: seq<string>, listing: Path -> seq<string>)
    : Outcome<MergeSummary>
    decreases |splits|
  {
    if splits == [] then Done(m)
    else
      match MergeSplitStep(m, output, dataset, splits[0], listing)
      case Failed(e) => Failed(e)
      case Done(m1) => MergeDatasetSplits(m1, output, dataset, splits[1..], listing)
  }

  /** The datasets in order. */
  function MergeAllDatasets(m: MergeSummary, output: Path, datasets: seq<Path>, splits: seq<string>, listing: Path -> seq<string>)
    : Outcome<MergeSummary>
    decreases |datasets|
  {
    if datasets == [] then Done(m)
    else
      match MergeDatasetSplits(m, output, datasets[0], splits, listing)
      case Failed(e) => Failed(e)
      case Done(m1) => MergeAllDatasets(m1, output, datasets[1..], splits, listing)
  }

  /** The registries of the datasets, in order. */
  function Registries(datasets: seq<Path>, loadClasses: Path -> map<int, string>): (r: seq<map<int, string>>)
    ensures |r| == |datasets| && forall i :: 0 <= i < |datasets| ==> r[i] == loadClasses(datasets[i])
  {
    seq(|datasets|, i requires 0 <= i < |datasets| => loadClasses(datasets[i]))
  }

  /** MergeDatasets: the output directories are created, the registries are
      merged, the datasets are copied, and dataset.yaml is written with the
      merged registry and the selected splits. */
  function MergeOutcome(fs: FileSystem, output: Path, datasets: seq<Path>, train: bool, val: bool, test: bool,
                        loadClasses: Path -> map<int, string>, listing: Path -> seq<string>): Outcome<MergeSummary>
  {
    var splits := SelectedSplits(train, val, test);
    var created := FileSystem(fs.files, fs.dirs + Ancestors(output) + SplitDirs(output, splits));
    var classes := MergedRegistry(Registries(datasets, loadClasses));
    match MergeAllDatasets(MergeSummary(created, 0), output, datasets, splits, listing)
    case Failed(e) => Failed(e)
    case Done(m) =>
      Done(MergeSummary(m.fs.WriteFile(output + ["dataset.yaml"], WriteAllLines(DatasetYamlLines(output, classes, splits))), m.copied))
  }

  method MergeDatasets(fs: FileSystem, output: Path, datasets: seq<Path>, train: bool, val: bool, test: bool,
                       loadClasses: Path -> map<int, string>, listing: Path -> seq<string>) returns (r: Outcome<MergeSummary>)
    ensures r == MergeOutcome(fs, output, datasets, train, val, test, loadClasses, listing)
  {
    var splits := SelectedSplits(train, val, test);
    var created := CreateDirectoryStructure(fs, output, splits);
    assert created == FileSystem(fs.files, fs.dirs + Ancestors(output) + SplitDirs(output, splits));
    var classes := MergeClasses(Registries(datasets, loadClasses));
    var m := MergeSummary(created, 0);
    ghost var goal := MergeAllDatasets(m, output, datasets, splits, listing);
    for d := 0 to |datasets|
      invariant goal == MergeAllDatasets(m, output, datasets[d..], splits, listing)
    {
      assert datasets[d..][1..] == datasets[d + 1..];
      var step := MergeDataset(m, output, datasets[d], splits, listing);
      if step.Failed? {
        return Failed(step.error);
      }
      m := step.value;
    }
    var written, yaml := CreateDatasetYaml(m.fs, output, classes, splits);
    r := Done(MergeSummary(written, m.copied));
  }

  /** One split of one dataset: skipped when its images directory is
      absent, otherwise every image file of its listing is merged. */
  method MergeOneSplit(m: MergeSummary, output: Path, dataset: Path, split: string, listing: Path -> seq<string>)
    returns (r: Outcome<MergeSummary>)
    ensures r == MergeSplitStep(m, output, dataset, split, listing)
  {
    var src := ImagesDir(dataset, split);
    if !m.fs.DirExists(src) {
      return Done(m);
    }
    var names := ImageFiles(listing(src));
    ImagesAreNotLabelsDir(output, split);
    assert MergeSplitStep(m, output, dataset, split, listing)
        == Counted(MergeSplitFiles(m.fs, src, LabelsDir(dataset, split), ImagesDir(output, split), LabelsDir(output, split), names),
                   m.copied + |names|);
    var copied := MergeSplit(m.fs, src, LabelsDir(dataset, split), ImagesDir(output, split), LabelsDir(output, split), names);
    r := Counted(copied, m.copied + |names|);
  }

  /** The split loop for one dataset. */
  method MergeDataset(m: MergeSummary, output: Path, dataset: Path, splits: seq<string>, listing: Path -> seq<string>)
    returns (r: Outcome<MergeSummary>)
    ensures r == MergeDatasetSplits(m, output, dataset, splits, listing)
  {
    var current := m;
    for s := 0 to |splits|
      invariant MergeDatasetSplits(m, output, dataset, splits, listing) == MergeDatasetSplits(current, output, dataset, splits[s..], listing)
    {
      assert splits[s..][1..] == splits[s + 1..];
      var step := MergeOneSplit(current, output, dataset, splits[s], listing);
      if step.Failed? {
        return Failed(step.error);
      }
      current := step.value;
    }
    r := Done(current);
  }

  /** Every name a listing gives is a file of `fs`. */
  ghost predicate ListedFilesExist(fs: FileSystem, listing: Path -> seq<string>)
  {
    forall p, n :: n in listing(p) ==> p + [n] in fs.files
  }

  /** Every image file listed in the split of the dataset is in the
      output's split, under its own name or a renamed one, with the content
      it had in `fs0`. */
  ghost predicate MergedIn(fs0: FileSystem, r: FileSystem, output: Path, dataset: Path, split: string, listing: Path -> seq<string>)
  {
    forall n :: n in ImageFiles(listing(ImagesDir(dataset, split))) ==>
      ImagesDir(dataset, split) + [n] in fs0.files
      && exists k: nat :: (ImagesDir(output, split) + [TargetImage(n, k)] in r.files
                           && r.files[ImagesDir(output, split) + [TargetImage(n, k)]] == fs0.files[ImagesDir(dataset, split) + [n]])
  }

  lemma MergedInExtends(fs0: FileSystem, a: FileSystem, b: FileSystem, output: Path, dataset: Path, split: string,
                        listing: Path -> seq<string>)
    requires MergedIn(fs0, a, output, dataset, split, listing) && Extends(a, b)
    ensures MergedIn(fs0, b, output, dataset, split, listing)
  {
  }

  lemma MergeSplitStepCopies(fs0: FileSystem, m: MergeSummary, output: Path, dataset: Path, split: string,
                             listing: Path -> seq<string>)
    requires ListedFilesExist(fs0, listing) && Extends(fs0, m.fs)
    ensures var r := MergeSplitStep(m, output, dataset, split, listing);
      r.Done? && Extends(m.fs, r.value.fs) && r.value.fs.dirs == m.fs.dirs
      && (m.fs.DirExists(ImagesDir(dataset, split)) ==> MergedIn(fs0, r.value.fs, output, dataset, split, listing))
  {
    var src := ImagesDir(dataset, split);
    if m.fs.DirExists(src) {
      var names := ImageFiles(listing(src));
      ImagesAreNotLabelsDir(output, split);
      MergeSplitCopiesAll(m.fs, src, LabelsDir(dataset, split), ImagesDir(output, split), LabelsDir(output, split), names);
    }
  }

  lemma {:induction false} MergeDatasetSplitsCopies(fs0: FileSystem, m: MergeSummary, output: Path, dataset: Path,
                                                    splits: seq<string>, listing: Path -> seq<string>)
    requires ListedFilesExist(fs0, listing) && Extends(fs0, m.fs)
    ensures var r := MergeDatasetSplits(m, output, dataset, splits, listing);
      r.Done? && Extends(m.fs, r.value.fs) && r.value.fs.dirs == m.fs.dirs
      && forall split :: split in splits && m.fs.DirExists(ImagesDir(dataset, split)) ==>
           MergedIn(fs0, r.value.fs, output, dataset, split, listing)
    decreases |splits|
  {
    if splits != [] {
      MergeSplitStepCopies(fs0, m, output, dataset, splits[0], listing);
      var m1 := MergeSplitStep(m, output, dataset, splits[0], listing).value;
      ExtendsTransitive(fs0, m.fs, m1.fs);
      MergeDatasetSplitsCopies(fs0, m1, output, dataset, splits[1..], listing);
      var r := MergeDatasetSplits(m1, output, dataset, splits[1..], listing).value;
      ExtendsTransitive(m.fs, m1.fs, r.fs);
      forall split | split in splits && m.fs.DirExists(ImagesDir(dataset, split))
        ensures MergedIn(fs0, r.fs, output, dataset, split, listing)
      {
        if split == splits[0] {
          MergedInExtends(fs0, m1.fs, r.fs, output, dataset, split, listing);
        } else {
          assert split in splits[1..];
        }
      }
    }
  }

  lemma {:induction false} MergeAllDatasetsCopies(fs0: FileSystem, m: MergeSummary, output: Path, datasets: seq<Path>,
                                                  splits: seq<string>, listing: Path -> seq<string>)
    requires ListedFilesExist(fs0, listing) && Extends(fs0, m.fs)
    ensures var r := MergeAllDatasets(m, output, datasets, splits, listing);
      r.Done? && Extends(m.fs, r.value.fs) && r.value.fs.dirs == m.fs.dirs
      && forall dataset, split :: dataset in datasets && split in splits && m.fs.DirExists(ImagesDir(dataset, split)) ==>
           MergedIn(fs0, r.value.fs, output, dataset, split, listing)
    decreases |datasets|
  {
    if datasets != [] {
      MergeDatasetSplitsCopies(fs0, m, output, datasets[0], splits, listing);
      var m1 := MergeDatasetSplits(m, output, datasets[0], splits, listing).value;
      ExtendsTransitive(fs0, m.fs, m1.fs);
      MergeAllDatasetsCopies(fs0, m1, output, datasets[1..], splits, listing);
      var r := MergeAllDatasets(m1, output, datasets[1..], splits, listing).value;
      ExtendsTransitive(m.fs, m1.fs, r.fs);
      forall dataset, split | dataset in datasets && split in splits && m.fs.DirExists(ImagesDir(dataset, split))
        ensures MergedIn(fs0, r.fs, output, dataset, split, listing)
      {
        if dataset == datasets[0] {
          MergedInExtends(fs0, m1.fs, r.fs, output, dataset, split, listing);
        } else {
          assert dataset in datasets[1..];
        }
      }
    }
  }

  /** A merge whose listings name existing files succeeds; it keeps every
      file but dataset.yaml unchanged, writes dataset.yaml from the merged
      registry, and every listed image of every selected split that exists
      ends up in the output. */
  lemma MergeDatasetsCopiesAll(fs: FileSystem, output: Path, datasets: seq<Path>, train: bool, val: bool, test: bool,
                               loadClasses: Path -> map<int, string>, listing: Path -> seq<string>)
    requires ListedFilesExist(fs, listing)
    ensures var r := MergeOutcome(fs, output, datasets, train, val, test, loadClasses, listing);
      var yaml := output + ["dataset.yaml"];
      var splits := SelectedSplits(train, val, test);
      && r.Done?
      && (forall p :: p in fs.files && p != yaml ==> p in r.value.fs.files && r.value.fs.files[p] == fs.files[p])
      && yaml in r.value.fs.files
      && r.value.fs.files[yaml] == WriteAllLines(DatasetYamlLines(output, MergedRegistry(Registries(datasets, loadClasses)), splits))
      && forall dataset, split :: dataset in datasets && split in splits && fs.DirExists(ImagesDir(dataset, split)) ==>
           MergedIn(fs, r.value.fs, output, dataset, split, listing)
  {
    var splits := SelectedSplits(train, val, test);
    var created := FileSystem(fs.files, fs.dirs + Ancestors(output) + SplitDirs(output, splits));
    var m0 := MergeSummary(created, 0);
    MergeAllDatasetsCopies(fs, m0, output, datasets, splits, listing);
    var m := MergeAllDatasets(m0, output, datasets, splits, listing).value;
    var content := WriteAllLines(DatasetYamlLines(output, MergedRegistry(Registries(datasets, loadClasses)), splits));
    WriteYamlKeeps(fs, m.fs, output, datasets, splits, listing, content);
  }

  /** Writing dataset.yaml touches no image of the output. */
  lemma WriteYamlKeeps(fs: FileSystem, merged: FileSystem, output: Path, datasets: seq<Path>, splits: seq<string>,
                       listing: Path -> seq<string>, content: string)
    requires Extends(fs, merged)
    requires forall dataset, split :: dataset in datasets && split in splits && fs.DirExists(ImagesDir(dataset, split)) ==>
               MergedIn(fs, merged, output, dataset, split, listing)
    ensures var yaml := output + ["dataset.yaml"];
      var written := merged.WriteFile(yaml, content);
      && (forall p :: p in fs.files && p != yaml ==> p in written.files && written.files[p] == fs.files[p])
      && yaml in written.files && written.files[yaml] == content
      && forall dataset, split :: dataset in datasets && split in splits && fs.DirExists(ImagesDir(dataset, split)) ==>
           MergedIn(fs, written, output, dataset, split, listing)
  {
    var yaml := output + ["dataset.yaml"];
    var written := merged.WriteFile(yaml, content);
    forall dataset, split | dataset in datasets && split in splits && fs.DirExists(ImagesDir(dataset, split))
      ensures MergedIn(fs, written, output, dataset, split, listing)
    {
      assert MergedIn(fs, merged, output, dataset, split, listing);
      forall n, k: nat | ImagesDir(output, split) + [TargetImage(n, k)] in merged.files
        ensures ImagesDir(output, split) + [TargetImage(n, k)] != yaml
      {
        assert |ImagesDir(output, split) + [TargetImage(n, k)]| != |yaml|;
      }
    }
  }

  // ---------------------------------------------------------------------
  // Exporting a part of a split dataset
  // ---------------------------------------------------------------------

  /** One image to copy: its stem and the split it is copied from and to. */
  datatype Job = Job(split: string, stem: string)

  /** CopyImageAndLabel of every job in order, without creating directories. */
  function CopyJobs(fs: FileSystem, src: Path, dst: Path, jobs: seq<Job>): FileSystem
    decreases |jobs|
  {
    if jobs == [] then fs
    else CopyJobs(CopyImageAndLabel(fs, src, dst, jobs[0].split, jobs[0].stem, false), src, dst, jobs[1..])
  }

  method CopyAll(fs: FileSystem, src: Path, dst: Path, jobs: seq<Job>) returns (r: FileSystem)
    ensures r == CopyJobs(fs, src, dst, jobs)
  {
    r := fs;
    for i := 0 to |jobs|
      invariant CopyJobs(fs, src, dst, jobs) == CopyJobs(r, src, dst, jobs[i..])
    {
      assert jobs[i..][1..] == jobs[i + 1..];
      r := CopyImageAndLabel(r, src, dst, jobs[i].split, jobs[i].stem, false);
    }
  }

  /** A part: its directory structure, its images and labels, and its
      dataset.yaml with the registry and the splits of the input. */
  function ExportPart(fs: FileSystem, input: Path, part: Path, splits: seq<string>, classes: map<int, string>, jobs: seq<Job>)
    : FileSystem
  {
    var created := FileSystem(fs.files, fs.dirs + Ancestors(part) + SplitDirs(part, splits));
    CopyJobs(created, input, part, jobs).WriteFile(part + ["dataset.yaml"], WriteAllLines(DatasetYamlLines(part, classes, splits)))
  }

  method ExportPartFiles(fs: FileSystem, input: Path, part: Path, splits: seq<string>, classes: map<int, string>, jobs: seq<Job>)
    returns (r: FileSystem)
    ensures r == ExportPart(fs, input, part, splits, classes, jobs)
  {
    var created := fs.CreateDirectory(part);
    created := CreateDirectoryStructure(created, part, splits);
    assert created == FileSystem(fs.files, fs.dirs + Ancestors(part) + SplitDirs(part, splits));
    var copied := CopyAll(created, input, part, jobs);
    var yaml;
    r, yaml := CreateDatasetYaml(copied, part, classes, splits);
  }

  /** `p` is a file of a split directory below `root`. */
  predicate InTree(root: Path, p: Path)
  {
    |p| == |root| + 3 && p[..|root|] == root
  }

  lemma SplitFilesInTree(root: Path, split: string, y: string)
    ensures InTree(root, ImagesDir(root, split) + [y]) && InTree(root, LabelsDir(root, split) + [y])
  {
    assert (ImagesDir(root, split) + [y])[..|root|] == root;
    assert (LabelsDir(root, split) + [y])[..|root|] == root;
  }

  /** The files of the source tree are in `b` as they are in `a`. */
  ghost predicate SourcesKept(a: FileSystem, b: FileSystem, src: Path)
  {
    forall p :: InTree(src, p) ==> (p in b.files <==> p in a.files) && (p in a.files ==> b.files[p] == a.files[p])
  }

  /** The job's image, as found in `fs0`, and its label when `fs0` has one,
      are in the destination with the contents they have in `fs0`. */
  ghost predicate CopiedJob(fs0: FileSystem, r: FileSystem, src: Path, dst: Path, job: Job)
  {
    match FindImage(fs0, ImagesDir(src, job.split), job.stem)
    case None => true
    case Some(name) =>
      && ImagesDir(dst, job.split) + [name] in r.files
      && r.files[ImagesDir(dst, job.split) + [name]] == fs0.files[ImagesDir(src, job.split) + [name]]
      && (GetLabelPath(src, job.split, job.stem) in fs0.files ==>
            GetLabelPath(dst, job.split, job.stem) in r.files
            && r.files[GetLabelPath(dst, job.split, job.stem)] == fs0.files[GetLabelPath(src, job.split, job.stem)])
  }

  lemma FindImageKept(fs0: FileSystem, fs: FileSystem, src: Path, split: string, stem: string)
    requires SourcesKept(fs0, fs, src)
    ensures FindImage(fs, ImagesDir(src, split), stem) == FindImage(fs0, ImagesDir(src, split), stem)
  {
    forall k | 0 <= k < |ImageExtensions| ensures InTree(src, ImagesDir(src, split) + [stem + ImageExtensions[k]]) {
      SplitFilesInTree(src, split, stem + ImageExtensions[k]);
    }
    FindImageSameFiles(fs, fs0, ImagesDir(src, split), stem);
  }

  lemma CopyStepKeepsSources(fs0: FileSystem, fs: FileSystem, src: Path, dst: Path, split: string, stem: string)
    requires src != dst && SourcesKept(fs0, fs, src)
    ensures SourcesKept(fs0, CopyImageAndLabel(fs, src, dst, split, stem, false), src)
  {
    var r := CopyImageAndLabel(fs, src, dst, split, stem, false);
    match FindImage(fs, ImagesDir(src, split), stem)
    case None =>
    case Some(name) =>
      SplitFilesInTree(dst, split, name);
      SplitFilesInTree(dst, split, stem + ".txt");
      forall p | InTree(src, p)
        ensures p != ImagesDir(dst, split) + [name] && p != GetLabelPath(dst, split, stem)
      {
        TreesApart(src, dst, p);
      }
  }

  /** With src != dst no path lies in both trees. */
  lemma TreesApart(src: Path, dst: Path, p: Path)
    requires src != dst && InTree(src, p)
    ensures !InTree(dst, p)
  {
  }

  lemma CopyStepCopies(fs0: FileSystem, fs: FileSystem, src: Path, dst: Path, job: Job)
    requires src != dst && SourcesKept(fs0, fs, src)
    ensures CopiedJob(fs0, CopyImageAndLabel(fs, src, dst, job.split, job.stem, false), src, dst, job)
  {
    FindImageKept(fs0, fs, src, job.split, job.stem);
    match FindImage(fs0, ImagesDir(src, job.split), job.stem)
    case None =>
    case Some(name) =>
      CopyTargets(fs, src, dst, job.split, job.stem, false, name);
      SplitFilesInTree(src, job.split, name);
      SplitFilesInTree(src, job.split, job.stem + ".txt");
      var imagePath := ImagesDir(src, job.split) + [name];
      var labelPath := GetLabelPath(src, job.split, job.stem);
      assert imagePath in fs0.files <==> imagePath in fs.files;
      assert labelPath in fs0.files <==> labelPath in fs.files;
      assert imagePath in fs.files ==> fs.files[imagePath] == fs0.files[imagePath];
      assert labelPath in fs.files ==> fs.files[labelPath] == fs0.files[labelPath];
  }

  /** A later copy does not undo an earlier one: where it writes the same
      path, it writes the same contents. */
  lemma CopyStepKeepsCopied(fs0: FileSystem, fs: FileSystem, src: Path, dst: Path, job: Job, split: string, stem: string)
    requires src != dst && SourcesKept(fs0, fs, src) && CopiedJob(fs0, fs, src, dst, job)
    ensures CopiedJob(fs0, CopyImageAndLabel(fs, src, dst, split, stem, false), src, dst, job)
  {
    var r := CopyImageAndLabel(fs, src, dst, split, stem, false);
    FindImageKept(fs0, fs, src, split, stem);
    FindImageKept(fs0, fs, src, job.split, job.stem);
    match FindImage(fs0, ImagesDir(src, job.split), job.stem)
    case None =>
    case Some(name) =>
      match FindImage(fs, ImagesDir(src, split), stem)
      case None =>
      case Some(name') =>
        var srcImage := ImagesDir(src, split) + [name'];
        var srcLabel := GetLabelPath(src, split, stem);
        var both := srcLabel in fs.files;
        var vb := if both then fs.files[srcLabel] else fs.files[srcImage];
        var p' := ImagesDir(dst, split) + [name'];
        var l' := GetLabelPath(dst, split, stem);
        assert r.files == if both then fs.files[p' := fs.files[srcImage]][l' := vb] else fs.files[p' := fs.files[srcImage]];
        var p := ImagesDir(dst, job.split) + [name];
        var l := GetLabelPath(dst, job.split, job.stem);
        SamePathSameParts(dst, job.split, split, name, name');
        SamePathSameParts(dst, job.split, split, job.stem + ".txt", stem + ".txt");
        ImageIsNoLabel(dst, job.split, split, name, stem + ".txt");
        ImageIsNoLabel(dst, split, job.split, name', job.stem + ".txt");
        SplitFilesInTree(src, split, name');
        SplitFilesInTree(src, split, stem + ".txt");
        var v := fs0.files[ImagesDir(src, job.split) + [name]];
        assert p in fs.files && fs.files[p] == v;
        if p == p' {
          assert split == job.split && name' == name;
          assert fs.files[srcImage] == v;
        }
        assert !(both && p == l');
        TwoWritesKeep(fs.files, p', fs.files[srcImage], l', vb, both, p, v);
        if GetLabelPath(src, job.split, job.stem) in fs0.files {
          var w := fs0.files[GetLabelPath(src, job.split, job.stem)];
          assert l in fs.files && fs.files[l] == w;
          assert l != p';
          if l == l' {
            StemsOfLabels(job.stem, stem);
            assert split == job.split && srcLabel == GetLabelPath(src, job.split, job.stem);
            assert both && vb == w;
          }
          TwoWritesKeep(fs.files, p', fs.files[srcImage], l', vb, both, l, w);
        }
  }

  lemma ImageIsNoLabel(root: Path, a: string, b: string, x: string, y: string)
    ensures ImagesDir(root, a) + [x] != LabelsDir(root, b) + [y]
  {
    assert (ImagesDir(root, a) + [x])[|root|] == "images" && (LabelsDir(root, b) + [y])[|root|] == "labels";
  }

  lemma StemsOfLabels(a: string, b: string)
    requires a + ".txt" == b + ".txt"
    ensures a == b
  {
    assert (a + ".txt")[..|a|] == a;
    assert (b + ".txt")[..|b|] == b;
  }

  /** A value survives one or two writes that, at its key, write it again. */
  lemma TwoWritesKeep<K, V>(m: map<K, V>, a: K, va: V, b: K, vb: V, both: bool, p: K, v: V)
    requires p in m && m[p] == v
    requires p == a ==> va == v
    requires both && p == b ==> vb == v
    ensures var r := if both then m[a := va][b := vb] else m[a := va];
      p in r && r[p] == v
  {
  }

  lemma SamePathSameParts(root: Path, a: string, b: string, x: string, y: string)
    ensures ImagesDir(root, a) + [x] == ImagesDir(root, b) + [y] ==> a == b && x == y
    ensures LabelsDir(root, a) + [x] == LabelsDir(root, b) + [y] ==> a == b && x == y
  {
    var p, q := ImagesDir(root, a) + [x], ImagesDir(root, b) + [y];
    assert p[|root| + 1] == a && q[|root| + 1] == b && p[|root| + 2] == x && q[|root| + 2] == y;
    var p', q' := LabelsDir(root, a) + [x], LabelsDir(root, b) + [y];
    assert p'[|root| + 1] == a && q'[|root| + 1] == b && p'[|root| + 2] == x && q'[|root| + 2] == y;
  }

  lemma {:induction false} CopyJobsKeeps(fs0: FileSystem, fs: FileSystem, src: Path, dst: Path, jobs: seq<Job>, job: Job)
    requires src != dst && SourcesKept(fs0, fs, src) && CopiedJob(fs0, fs, src, dst, job)
    ensures SourcesKept(fs0, CopyJobs(fs, src, dst, jobs), src) && CopiedJob(fs0, CopyJobs(fs, src, dst, jobs), src, dst, job)
    decreases |jobs|
  {
    if jobs != [] {
      CopyStepKeepsSources(fs0, fs, src, dst, jobs[0].split, jobs[0].stem);
      CopyStepKeepsCopied(fs0, fs, src, dst, job, jobs[0].split, jobs[0].stem);
      CopyJobsKeeps(fs0, CopyImageAndLabel(fs, src, dst, jobs[0].split, jobs[0].stem, false), src, dst, jobs[1..], job);
    }
  }

  /** Copying jobs into another tree copies every job's image and label and
      leaves the source tree as it was. */
  lemma {:induction false} CopyJobsCopies(fs0: FileSystem, fs: FileSystem, src: Path, dst: Path, jobs: seq<Job>)
    requires src != dst && SourcesKept(fs0, fs, src)
    ensures SourcesKept(fs0, CopyJobs(fs, src, dst, jobs), src)
    ensures forall job :: job in jobs ==> CopiedJob(fs0, CopyJobs(fs, src, dst, jobs), src, dst, job)
    decreases |jobs|
  {
    if jobs != [] {
      var fs1 := CopyImageAndLabel(fs, src, dst, jobs[0].split, jobs[0].stem, false);
      CopyStepKeepsSources(fs0, fs, src, dst, jobs[0].split, jobs[0].stem);
      CopyStepCopies(fs0, fs, src, dst, jobs[0]);
      CopyJobsKeeps(fs0, fs1, src, dst, jobs[1..], jobs[0]);
      CopyJobsCopies(fs0, fs1, src, dst, jobs[1..]);
      assert forall job :: job in jobs ==> job == jobs[0] || job in jobs[1..];
    }
  }

  /** The files outside the tree below `dst` are in `b` as they are in `a`. */
  ghost predicate KeptOutside(a: FileSystem, b: FileSystem, dst: Path)
  {
    forall p :: !InTree(dst, p) ==> (p in b.files <==> p in a.files) && (p in a.files ==> b.files[p] == a.files[p])
  }

  lemma CopyStepKeepsOutside(fs: FileSystem, src: Path, dst: Path, split: string, stem: string)
    ensures KeptOutside(fs, CopyImageAndLabel(fs, src, dst, split, stem, false), dst)
  {
    match FindImage(fs, ImagesDir(src, split), stem)
    case None =>
    case Some(name) =>
      SplitFilesInTree(dst, split, name);
      SplitFilesInTree(dst, split, stem + ".txt");
  }

  lemma {:induction false} CopyJobsKeepOutside(fs: FileSystem, src: Path, dst: Path, jobs: seq<Job>)
    ensures KeptOutside(fs, CopyJobs(fs, src, dst, jobs), dst)
    decreases |jobs|
  {
    if jobs != [] {
      CopyStepKeepsOutside(fs, src, dst, jobs[0].split, jobs[0].stem);
      CopyJobsKeepOutside(CopyImageAndLabel(fs, src, dst, jobs[0].split, jobs[0].stem, false), src, dst, jobs[1..]);
    }
  }

  /** Exporting a part from another tree copies every job's image and label
      into the part, writes the part's dataset.yaml, and leaves every file
      outside the part as it was. */
  lemma ExportPartCopies(fs: FileSystem, input: Path, part: Path, splits: seq<string>, classes: map<int, string>, jobs: seq<Job>)
    requires input != part
    ensures var r := ExportPart(fs, input, part, splits, classes, jobs);
      var yaml := part + ["dataset.yaml"];
      && (forall job :: job in jobs ==> CopiedJob(fs, r, input, part, job))
      && (forall p :: !InTree(part, p) && p != yaml ==> (p in r.files <==> p in fs.files) && (p in fs.files ==> r.files[p] == fs.files[p]))
      && yaml in r.files && r.files[yaml] == WriteAllLines(DatasetYamlLines(part, classes, splits))
      && r.dirs == fs.dirs + Ancestors(part) + SplitDirs(part, splits)
  {
    var created := FileSystem(fs.files, fs.dirs + Ancestors(part) + SplitDirs(part, splits));
    var copied := CopyJobs(created, input, part, jobs);
    CopyJobsCopies(fs, created, input, part, jobs);
    CopyJobsKeepOutside(created, input, part, jobs);
    CopyJobsDirs(created, input, part, jobs);
    var yaml := part + ["dataset.yaml"];
    var r := copied.WriteFile(yaml, WriteAllLines(DatasetYamlLines(part, classes, splits)));
    forall job | job in jobs ensures CopiedJob(fs, r, input, part, job) {
      assert CopiedJob(fs, copied, input, part, job);
      CopiedAfterWrite(fs, copied, input, part, job, yaml, WriteAllLines(DatasetYamlLines(part, classes, splits)));
    }
  }

  lemma {:induction false} CopyJobsDirs(fs: FileSystem, src: Path, dst: Path, jobs: seq<Job>)
    ensures CopyJobs(fs, src, dst, jobs).dirs == fs.dirs
    decreases |jobs|
  {
    if jobs != [] {
      CopyJobsDirs(CopyImageAndLabel(fs, src, dst, jobs[0].split, jobs[0].stem, false), src, dst, jobs[1..]);
    }
  }

  /** A write outside the destination tree keeps a copied job copied. */
  lemma CopiedAfterWrite(fs0: FileSystem, fs: FileSystem, src: Path, dst: Path, job: Job, q: Path, v: Content)
    requires CopiedJob(fs0, fs, src, dst, job) && !InTree(dst, q)
    ensures CopiedJob(fs0, fs.WriteFile(q, v), src, dst, job)
  {
    match FindImage(fs0, ImagesDir(src, job.split), job.stem)
    case None =>
    case Some(name) =>
      SplitFilesInTree(dst, job.split, name);
      SplitFilesInTree(dst, job.split, job.stem + ".txt");
  }

  // ---------------------------------------------------------------------
  // Split plans
  // ---------------------------------------------------------------------

  /** Every selected split that exists is listed by `listing`. */
  ghost predicate ListingsOf(fs: FileSystem, root: Path, splits: seq<string>, listing: Path -> seq<string>)
  {
    forall split :: split in splits && fs.DirExists(ImagesDir(root, split)) ==>
      IsListing(fs, ImagesDir(root, split), listing(ImagesDir(root, split)))
  }

  /** GetImagesFromSplit of every selected split, in order. */
  function SplitImages(fs: FileSystem, root: Path, splits: seq<string>, listing: Path -> seq<string>): (r: seq<seq<string>>)
    requires ListingsOf(fs, root, splits, listing)
    ensures |r| == |splits|
    ensures forall j :: 0 <= j < |splits| ==> r[j] == GetImagesFromSplit(fs, root, splits[j], listing(ImagesDir(root, splits[j])))
  {
    seq(|splits|, j requires 0 <= j < |splits| && ListingsOf(fs, root, splits, listing) =>
      GetImagesFromSplit(fs, root, splits[j], listing(ImagesDir(root, splits[j]))))
  }

  /** The jobs of one split's stems. */
  function JobsOf(split: string, stems: seq<string>): (r: seq<Job>)
    ensures |r| == |stems| && forall i :: 0 <= i < |stems| ==> r[i] == Job(split, stems[i])
  {
    seq(|stems|, i requires 0 <= i < |stems| => Job(split, stems[i]))
  }

  /** The jobs of all splits, split after split. */
  function JobsOfSplits(splits: seq<string>, stems: seq<seq<string>>): seq<Job>
    requires |stems| == |splits|
    decreases |splits|
  {
    if splits == [] then []
    else JobsOfSplits(splits[..|splits| - 1], stems[..|stems| - 1]) + JobsOf(splits[|splits| - 1], stems[|stems| - 1])
  }

  /** A job is planned exactly when its stem is among its split's stems. */
  lemma {:induction false} JobsOfSplitsMembers(splits: seq<string>, stems: seq<seq<string>>, job: Job)
    requires |stems| == |splits|
    ensures job in JobsOfSplits(splits, stems) <==> exists j :: 0 <= j < |splits| && splits[j] == job.split && job.stem in stems[j]
    decreases |splits|
  {
    if splits != [] {
      var n := |splits| - 1;
      JobsOfSplitsMembers(splits[..n], stems[..n], job);
      assert forall j :: 0 <= j < n ==> splits[..n][j] == splits[j] && stems[..n][j] == stems[j];
      if job in JobsOf(splits[n], stems[n]) {
        var i :| 0 <= i < |stems[n]| && JobsOf(splits[n], stems[n])[i] == job;
        assert stems[n][i] == job.stem;
      }
      if splits[n] == job.split && job.stem in stems[n] {
        var i :| 0 <= i < |stems[n]| && stems[n][i] == job.stem;
        assert JobsOf(splits[n], stems[n])[i] == job;
      }
    }
  }

  /** The loop that collects the (split, stem) pairs of all splits. */
  method CollectJobs(splits: seq<string>, stems: seq<seq<string>>) returns (all: seq<Job>)
    requires |stems| == |splits|
    ensures all == JobsOfSplits(splits, stems)
  {
    all := [];
    for j := 0 to |splits|
      invariant all == JobsOfSplits(splits[..j], stems[..j])
    {
      ghost var before := all;
      for i := 0 to |stems[j]|
        invariant all == before + JobsOf(splits[j], stems[j][..i])
      {
        assert JobsOf(splits[j], stems[j][..i + 1]) == JobsOf(splits[j], stems[j][..i]) + [Job(splits[j], stems[j][i])];
        all := all + [Job(splits[j], stems[j][i])];
      }
      assert stems[j][..|stems[j]|] == stems[j];
      assert splits[..j + 1][..j] == splits[..j] && stems[..j + 1][..j] == stems[..j];
    }
    assert splits[..|splits|] == splits && stems[..|stems|] == stems;
  }

  // Extracting a subset

  /** The first `size` stems of each shuffled split. */
  function SubsetStems(shuffled: seq<seq<string>>, size: int): (r: seq<seq<string>>)
    ensures |r| == |shuffled| && forall j :: 0 <= j < |shuffled| ==> r[j] == Take(shuffled[j], size)
  {
    seq(|shuffled|, j requires 0 <= j < |shuffled| => Take(shuffled[j], size))
  }

  /** Each split contributes min(size, its image count) of its own images,
      none for a size below one. */
  lemma SubsetSizes(images: seq<string>, shuffled: seq<string>, size: int)
    requires multiset(shuffled) == multiset(images)
    ensures |Take(shuffled, size)| == if size <= 0 then 0 else Min(size, |images|)
    ensures forall stem :: stem in Take(shuffled, size) ==> stem in images
  {
    assert |shuffled| == |multiset(shuffled)| == |multiset(images)| == |images|;
    forall stem | stem in Take(shuffled, size) ensures stem in images {
      assert stem in shuffled;
      assert stem in multiset(shuffled);
    }
  }

  // Splitting into parts

  /** Part i of a split: slice [i * k, (i + 1) * k) of its shuffled stems,
      with k = ceil(n / parts). */
  function PartOf(s: seq<string>, parts: nat, i: nat): seq<string>
    requires parts > 0
  {
    Chunk(s, CeilDiv(|s|, parts), i)
  }

  /** The groups of SplitDataset's split-into-parts branch: part i holds part
      i of every split; a negative part count fails as the array allocation
      does. */
  function SplitGroups(shuffled: seq<seq<string>>, parts: int): (r: Option<seq<seq<seq<string>>>>)
    ensures r.None? <==> parts < 0
    ensures r.Some? ==> |r.value| == parts
    ensures r.Some? ==> forall i :: 0 <= i < parts ==> |r.value[i]| == |shuffled|
    ensures r.Some? ==> forall i, j :: 0 <= i < parts && 0 <= j < |shuffled| ==> r.value[i][j] == PartOf(shuffled[j], parts, i)
  {
    if parts < 0 then None
    else if parts == 0 then Some([])
    else Some(seq(parts, i requires 0 <= i < parts => Column(shuffled, parts, i)))
  }

  /** Part i of every split, split after split. */
  function Column(shuffled: seq<seq<string>>, parts: nat, i: nat): (r: seq<seq<string>>)
    requires parts > 0
    ensures |r| == |shuffled| && forall j :: 0 <= j < |shuffled| ==> r[j] == PartOf(shuffled[j], parts, i)
  {
    seq(|shuffled|, j requires 0 <= j < |shuffled| => PartOf(shuffled[j], parts, i))
  }

  lemma ColumnStep(shuffled: seq<seq<string>>, parts: nat, i: nat, j: nat)
    requires parts > 0 && j < |shuffled|
    ensures Column(shuffled[..j + 1], parts, i) == Column(shuffled[..j], parts, i) + [PartOf(shuffled[j], parts, i)]
  {
  }

  /** One split's parts appended to the groups. */
  method AppendParts(groups: array<seq<seq<string>>>, shuffled: seq<seq<string>>, j: nat)
    requires groups.Length > 0 && j < |shuffled|
    requires forall i :: 0 <= i < groups.Length ==> groups[i] == Column(shuffled[..j], groups.Length, i)
    modifies groups
    ensures forall i :: 0 <= i < groups.Length ==> groups[i] == Column(shuffled[..j + 1], groups.Length, i)
  {
    var parts := groups.Length;
    var perPart := CeilDiv(|shuffled[j]|, parts);
    for i := 0 to parts
      invariant forall i' :: 0 <= i' < i ==> groups[i'] == Column(shuffled[..j + 1], parts, i')
      invariant forall i' :: i <= i' < parts ==> groups[i'] == Column(shuffled[..j], parts, i')
    {
      ColumnStep(shuffled, parts, i, j);
      groups[i] := groups[i] + [Page(shuffled[j], i * perPart, perPart)];
    }
  }

  /** The splitGroups array filled split by split. */
  method BuildSplitGroups(shuffled: seq<seq<string>>, parts: int) returns (r: Option<seq<seq<seq<string>>>>)
    ensures r == SplitGroups(shuffled, parts)
  {
    if parts < 0 {
      return None;
    }
    if parts == 0 {
      return Some([]);
    }
    var groups := new seq<seq<string>>[parts];
    for i := 0 to parts
      invariant forall i' :: 0 <= i' < i ==> groups[i'] == []
    {
      groups[i] := [];
    }
    for j := 0 to |shuffled|
      invariant forall i :: 0 <= i < parts ==> groups[i] == Column(shuffled[..j], parts, i)
    {
      AppendParts(groups, shuffled, j);
    }
    assert shuffled[..|shuffled|] == shuffled;
    assert groups[..] == SplitGroups(shuffled, parts).value by {
      assert forall i :: 0 <= i < parts ==> groups[..][i] == Column(shuffled, parts, i);
    }
    r := Some(groups[..]);
  }

  /** The parts of one split are its slices in order: together they are the
      split, each has at most ceil(n / parts) stems, and a stem of a split
      without duplicates lies in one part only. */
  lemma PartsCover(s: seq<string>, parts: nat)
    requires parts > 0
    ensures Flatten(Chunks(s, CeilDiv(|s|, parts), parts)) == s
    ensures forall i :: 0 <= i < parts ==> Chunks(s, CeilDiv(|s|, parts), parts)[i] == PartOf(s, parts, i)
    ensures forall i :: 0 <= i < parts ==> |PartOf(s, parts, i)| <= CeilDiv(|s|, parts)
    ensures NoDuplicates(s) ==> forall i, i', x :: 0 <= i < parts && 0 <= i' < parts && x in PartOf(s, parts, i) && x in PartOf(s, parts, i') ==> i == i'
  {
    var k := CeilDiv(|s|, parts);
    assert parts * k >= |s|;
    FlattenChunks(s, k, parts);
    if NoDuplicates(s) {
      forall i, i', x | 0 <= i < parts && 0 <= i' < parts && x in PartOf(s, parts, i) && x in PartOf(s, parts, i')
        ensures i == i' {
        ChunksDisjoint(s, k, i, i', x);
      }
    }
  }

  // Splitting by count

  /** The parts of SplitDataset's split-by-count branch: ceil(n / count)
      consecutive slices of `count`; none for a negative count. */
  function ByCountParts<T>(s: seq<T>, count: int): (r: seq<seq<T>>)
    requires count != 0
    ensures count < 0 ==> r == []
    ensures count > 0 ==> r == Chunks(s, count, CeilDiv(|s|, count))
  {
    if count < 0 then [] else Chunks(s, count as nat, CeilDiv(|s|, count as nat))
  }

  /** With a positive count the parts are ceil(n / count) slices that
      together are the sequence; every part but the last has exactly `count`
      elements, and the last has one to `count`. */
  lemma ByCountCover<T>(s: seq<T>, count: int)
    requires count > 0
    ensures var r := ByCountParts(s, count);
      && |r| == CeilDiv(|s|, count) && Flatten(r) == s
      && (forall i :: 0 <= i < |r| - 1 ==> |r[i]| == count)
      && (|r| > 0 ==> 0 < |r[|r| - 1]| <= count)
  {
    var q := CeilDiv(|s|, count);
    FlattenChunks(s, count, q);
    forall i | 0 <= i && i + 1 < q ensures |Chunk(s, count, i)| == count {
      MulMonotone(i + 1, q - 1, count);
      MulSucc(i, count);
    }
    if q > 0 {
      ChunksNonEmpty(s, count, q - 1);
    }
  }

  /** imageSplitMap as SplitDataset fills it: each stem mapped to the split
      it was listed in, a later split overriding an earlier one. */
  function SplitMapOf(splits: seq<string>, images: seq<seq<string>>): map<string, string>
    requires |images| == |splits|
    decreases |splits|
  {
    if splits == [] then map[]
    else
      var n := |splits| - 1;
      SplitMapOf(splits[..n], images[..n]) + map stem | stem in images[n] :: splits[n]
  }

  /** The stems of imageSplitMap are all listed stems, each mapped to the
      last split that lists it. */
  lemma {:induction false} SplitMapLastWins(splits: seq<string>, images: seq<seq<string>>, stem: string)
    requires |images| == |splits|
    ensures stem in SplitMapOf(splits, images) <==> exists j :: 0 <= j < |splits| && stem in images[j]
    ensures forall j :: 0 <= j < |splits| && stem in images[j] && (forall j' :: j < j' < |splits| ==> stem !in images[j'])
              ==> SplitMapOf(splits, images)[stem] == splits[j]
    decreases |splits|
  {
    if splits != [] {
      var n := |splits| - 1;
      SplitMapLastWins(splits[..n], images[..n], stem);
      assert forall j :: 0 <= j < n ==> images[..n][j] == images[j] && splits[..n][j] == splits[j];
    }
  }

  /** The loop that fills allImages and imageSplitMap. */
  method BuildImageSplitMap(splits: seq<string>, images: seq<seq<string>>) returns (all: seq<string>, splitOf: map<string, string>)
    requires |images| == |splits|
    ensures all == Flatten(images) && splitOf == SplitMapOf(splits, images)
  {
    all, splitOf := [], map[];
    for j := 0 to |splits|
      invariant all == Flatten(images[..j]) && splitOf == SplitMapOf(splits[..j], images[..j])
    {
      all, splitOf := AddSplitImages(all, splitOf, splits[j], images[j]);
      assert images[..j + 1][..j] == images[..j] && splits[..j + 1][..j] == splits[..j];
    }
    assert images[..|images|] == images && splits[..|splits|] == splits;
  }

  /** The inner loop: the stems of one split appended to allImages and
      mapped to that split. */
  method AddSplitImages(all0: seq<string>, splitOf0: map<string, string>, split: string, stems: seq<string>)
    returns (all: seq<string>, splitOf: map<string, string>)
    ensures all == all0 + stems
    ensures splitOf == splitOf0 + map stem | stem in stems :: split
  {
    all, splitOf := all0, splitOf0;
    for i := 0 to |stems|
      invariant all == all0 + stems[..i]
      invariant splitOf == splitOf0 + map stem | stem in stems[..i] :: split
    {
      TakeNext(stems, i);
      all := all + [stems[i]];
      splitOf := splitOf[stems[i] := split];
    }
    assert stems[..|stems|] == stems;
  }

  /** The jobs of a by-count part as written: each stem copied from the
      split imageSplitMap records for it. */
  function ByCountJobsAsWritten(splitOf: map<string, string>, part: seq<string>): (r: seq<Job>)
    requires forall stem :: stem in part ==> stem in splitOf
    ensures |r| == |part| && forall i :: 0 <= i < |part| ==> r[i] == Job(splitOf[part[i]], part[i])
  {
    seq(|part|, i requires 0 <= i < |part| => Job(splitOf[part[i]], part[i]))
  }

  /** The example of a stem listed in both "train" and "val". */
  lemma DuplicateStemMap()
    ensures Flatten([["a"], ["a"]]) == ["a", "a"]
    ensures SplitMapOf(["train", "val"], [["a"], ["a"]]) == map["a" := "val"]
  {
    var images := [["a"], ["a"]];
    assert images[..1] == [["a"]] && images[..1][..0] == [];
    assert ["train", "val"][..1] == ["train"] && ["train"][..0] == [];
  }

  /** Whatever the shuffle, the two listed copies of "a" stay two copies. */
  lemma ShuffledPair(shuffle: seq<string> -> seq<string>)
    requires IsShuffle(shuffle)
    ensures shuffle(["a", "a"]) == ["a", "a"]
  {
    var shuffled := shuffle(["a", "a"]);
    assert multiset(shuffled) == multiset(["a", "a"]);
    assert |shuffled| == 2 by { assert |multiset(shuffled)| == 2; }
    assert shuffled[0] in multiset(shuffled) && shuffled[1] in multiset(shuffled);
  }

  /** A stem listed in two splits: written this way, every part of a
      by-count split of one image each copies the later split's image and
      the earlier split's image is never copied, while with (split, stem)
      pairs it is. */
  lemma DuplicateStemLosesImage(shuffle: seq<string> -> seq<string>, shuffleJobs: seq<Job> -> seq<Job>)
    requires IsShuffle(shuffle) && IsShuffle(shuffleJobs)
    ensures ByCountParts(shuffle(Flatten([["a"], ["a"]])), 1) == [["a"], ["a"]]
    ensures ByCountJobsAsWritten(SplitMapOf(["train", "val"], [["a"], ["a"]]), ["a"]) == [Job("val", "a")]
    ensures Job("train", "a") in Flatten(ByCountParts(shuffleJobs(JobsOfSplits(["train", "val"], [["a"], ["a"]])), 1))
  {
    DuplicateStemMap();
    ShuffledPair(shuffle);
    PairInParts();
    AsWrittenJob();
    TrainJobPlanned(shuffleJobs);
  }

  /** Two copies of "a" in parts of one make two parts ["a"]. */
  lemma PairInParts()
    ensures ByCountParts(["a", "a"], 1) == [["a"], ["a"]]
  {
    assert Chunk(["a", "a"], 1, 0) == ["a"] && Chunk(["a", "a"], 1, 1) == ["a"];
  }

  /** The part ["a"] copies from "val", the split the map recorded last. */
  lemma AsWrittenJob()
    ensures ByCountJobsAsWritten(map["a" := "val"], ["a"]) == [Job("val", "a")]
  {
  }

  lemma TrainJobPlanned(shuffleJobs: seq<Job> -> seq<Job>)
    requires IsShuffle(shuffleJobs)
    ensures Job("train", "a") in Flatten(ByCountParts(shuffleJobs(JobsOfSplits(["train", "val"], [["a"], ["a"]])), 1))
  {
    var all := JobsOfSplits(["train", "val"], [["a"], ["a"]]);
    JobsOfSplitsMembers(["train", "val"], [["a"], ["a"]], Job("train", "a"));
    assert ["train", "val"][0] == "train" && "a" in [["a"], ["a"]][0];
    var jobs := shuffleJobs(all);
    assert multiset(jobs) == multiset(all);
    assert Job("train", "a") in multiset(jobs);
    ByCountCover(jobs, 1);
  }

  /** With (split, stem) pairs every listed image of every split is in
      exactly as many parts as it is listed. */
  lemma ByCountPairsCover(splits: seq<string>, images: seq<seq<string>>, shuffleJobs: seq<Job> -> seq<Job>, count: int)
    requires |images| == |splits| && IsShuffle(shuffleJobs) && count > 0
    ensures multiset(Flatten(ByCountParts(shuffleJobs(JobsOfSplits(splits, images)), count))) == multiset(JobsOfSplits(splits, images))
  {
    ByCountCover(shuffleJobs(JobsOfSplits(splits, images)), count);
  }

  // Putting the split together

  /** Which of SplitDataset's three branches the radio buttons select, with
      the number typed for it. */
  datatype SplitMode = ExtractSubset(size: int) | IntoParts(parts: int) | ByCount(count: int)

  /** One output dataset of a split: its directory and its copy jobs. */
  datatype PartPlan = PartPlan(path: Path, jobs: seq<Job>)

  /** The directory of part i (counted from zero): "part_<i + 1>". */
  function PartPath(output: Path, i: nat): (r: Path)
    ensures |r| == |output| + 1 && r[..|output|] == output
  {
    output + ["part_" + NatToString(i + 1)]
  }

  lemma PartPathInjective(output: Path, i: nat, k: nat)
    requires PartPath(output, i) == PartPath(output, k)
    ensures i == k
  {
    assert ("part_" + NatToString(i + 1))[5..] == NatToString(i + 1);
    assert PartPath(output, i)[|output|] == PartPath(output, k)[|output|];
    NatToStringInjective(i + 1, k + 1);
  }

  /** Every split's images, shuffled by the k-th call of the random order. */
  function Shuffled(shuffle: (nat, seq<string>) -> seq<string>, images: seq<seq<string>>): (r: seq<seq<string>>)
    ensures |r| == |images| && forall j :: 0 <= j < |images| ==> r[j] == shuffle(j, images[j])
  {
    seq(|images|, j requires 0 <= j < |images| => shuffle(j, images[j]))
  }

  /** Each call of the random order returns a permutation of its input. */
  ghost predicate IsShuffleFamily(shuffle: (nat, seq<string>) -> seq<string>)
  {
    forall k, s :: multiset(shuffle(k, s)) == multiset(s)
  }

  /** The parts of the split-into-parts branch: part i copies group i. */
  function PartsPlan(output: Path, splits: seq<string>, groups: seq<seq<seq<string>>>): (r: seq<PartPlan>)
    requires forall i :: 0 <= i < |groups| ==> |groups[i]| == |splits|
    ensures |r| == |groups| && forall i :: 0 <= i < |groups| ==> r[i] == PartPlan(PartPath(output, i), JobsOfSplits(splits, groups[i]))
  {
    seq(|groups|, i requires 0 <= i < |groups| && |groups[i]| == |splits| => PartPlan(PartPath(output, i), JobsOfSplits(splits, groups[i])))
  }

  /** The parts of the split-by-count branch: part i copies chunk i. */
  function CountPlan(output: Path, chunks: seq<seq<Job>>): (r: seq<PartPlan>)
    ensures |r| == |chunks| && forall i :: 0 <= i < |chunks| ==> r[i] == PartPlan(PartPath(output, i), chunks[i])
  {
    seq(|chunks|, i requires 0 <= i < |chunks| => PartPlan(PartPath(output, i), chunks[i]))
  }

  /** The output datasets SplitDataset creates from the listed images of the
      selected splits; None where it throws (a negative part count) or where
      its outcome is not modelled: a by-count count of zero makes the source
      convert an infinite or NaN part count to an int, which depends on the
      runtime. */
  function SplitPlan(output: Path, splits: seq<string>, images: seq<seq<string>>, mode: SplitMode,
                     shuffle: (nat, seq<string>) -> seq<string>, shuffleJobs: seq<Job> -> seq<Job>): (r: Option<seq<PartPlan>>)
    requires |images| == |splits|
    ensures r.None? <==> (mode.IntoParts? && mode.parts < 0) || (mode.ByCount? && mode.count == 0)
  {
    match mode
    case ExtractSubset(size) =>
      Some([PartPlan(output + ["subset"], JobsOfSplits(splits, SubsetStems(Shuffled(shuffle, images), size)))])
    case IntoParts(parts) =>
      if parts < 0 then None
      else Some(PartsPlan(output, splits, SplitGroups(Shuffled(shuffle, images), parts).value))
    case ByCount(count) =>
      if count == 0 then None
      else Some(CountPlan(output, ByCountParts(shuffleJobs(JobsOfSplits(splits, images)), count)))
  }

  method BuildPartsPlan(output: Path, splits: seq<string>, groups: seq<seq<seq<string>>>) returns (plan: seq<PartPlan>)
    requires forall i :: 0 <= i < |groups| ==> |groups[i]| == |splits|
    ensures plan == PartsPlan(output, splits, groups)
  {
    plan := [];
    for i := 0 to |groups|
      invariant |plan| == i && forall i' :: 0 <= i' < i ==> plan[i'] == PartPlan(PartPath(output, i'), JobsOfSplits(splits, groups[i']))
    {
      var jobs := CollectJobs(splits, groups[i]);
      plan := plan + [PartPlan(PartPath(output, i), jobs)];
    }
  }

  method BuildCountPlan(output: Path, chunks: seq<seq<Job>>) returns (plan: seq<PartPlan>)
    ensures plan == CountPlan(output, chunks)
  {
    plan := [];
    for i := 0 to |chunks|
      invariant |plan| == i && forall i' :: 0 <= i' < i ==> plan[i'] == PartPlan(PartPath(output, i'), chunks[i'])
    {
      plan := plan + [PartPlan(PartPath(output, i), chunks[i])];
    }
  }

  /** The output datasets written one after another. */
  function ExportAll(fs: FileSystem, input: Path, splits: seq<string>, classes: map<int, string>, plan: seq<PartPlan>): FileSystem
    decreases |plan|
  {
    if plan == [] then fs
    else ExportAll(ExportPart(fs, input, plan[0].path, splits, classes, plan[0].jobs), input, splits, classes, plan[1..])
  }

  method ExportParts(fs: FileSystem, input: Path, splits: seq<string>, classes: map<int, string>, plan: seq<PartPlan>)
    returns (r: FileSystem)
    ensures r == ExportAll(fs, input, splits, classes, plan)
  {
    r := fs;
    for i := 0 to |plan|
      invariant ExportAll(fs, input, splits, classes, plan) == ExportAll(r, input, splits, classes, plan[i..])
    {
      assert plan[i..][1..] == plan[i + 1..];
      r := ExportPartFiles(r, input, plan[i].path, splits, classes, plan[i].jobs);
    }
  }

  /** SplitDataset: the selected splits' images planned into output datasets
      and exported; None where the plan is. */
  function SplitDatasetOutcome(fs: FileSystem, input: Path, output: Path, includeTrain: bool, includeVal: bool, includeTest: bool,
                               mode: SplitMode, loadClasses: Path -> map<int, string>, listing: Path -> seq<string>,
                               shuffle: (nat, seq<string>) -> seq<string>, shuffleJobs: seq<Job> -> seq<Job>): Option<FileSystem>
    requires ListingsOf(fs, input, SelectedSplits(includeTrain, includeVal, includeTest), listing)
  {
    var splits := SelectedSplits(includeTrain, includeVal, includeTest);
    match SplitPlan(output, splits, SplitImages(fs, input, splits, listing), mode, shuffle, shuffleJobs)
    case None => None
    case Some(plan) => Some(ExportAll(fs, input, splits, loadClasses(input), plan))
  }

  /** SplitDataset's listing of the images of every selected split. */
  method ReadSplitImages(fs: FileSystem, input: Path, splits: seq<string>, listing: Path -> seq<string>)
    returns (images: seq<seq<string>>)
    requires ListingsOf(fs, input, splits, listing)
    ensures images == SplitImages(fs, input, splits, listing)
  {
    images := [];
    for j := 0 to |splits|
      invariant |images| == j && forall j' :: 0 <= j' < j ==> images[j'] == GetImagesFromSplit(fs, input, splits[j'], listing(ImagesDir(input, splits[j'])))
    {
      images := images + [GetImagesFromSplit(fs, input, splits[j], listing(ImagesDir(input, splits[j])))];
    }
  }

  /** SplitDataset's choice of what goes where, by mode. */
  method BuildSplitPlan(output: Path, splits: seq<string>, images: seq<seq<string>>, mode: SplitMode,
                        shuffle: (nat, seq<string>) -> seq<string>, shuffleJobs: seq<Job> -> seq<Job>)
    returns (plan: Option<seq<PartPlan>>)
    requires |images| == |splits|
    ensures plan == SplitPlan(output, splits, images, mode, shuffle, shuffleJobs)
  {
    match mode {
      case ExtractSubset(size) =>
        var jobs := CollectJobs(splits, SubsetStems(Shuffled(shuffle, images), size));
        plan := Some([PartPlan(output + ["subset"], jobs)]);
      case IntoParts(parts) =>
        var groups := BuildSplitGroups(Shuffled(shuffle, images), parts);
        if groups.None? {
          return None;
        }
        var p := BuildPartsPlan(output, splits, groups.value);
        plan := Some(p);
      case ByCount(count) =>
        if count == 0 {
          return None;
        }
        var all := CollectJobs(splits, images);
        var p := BuildCountPlan(output, ByCountParts(shuffleJobs(all), count));
        plan := Some(p);
    }
  }

  /** The SplitDataset method: list every selected split, plan, export. */
  method SplitDataset(fs: FileSystem, input: Path, output: Path, includeTrain: bool, includeVal: bool, includeTest: bool,
                      mode: SplitMode, loadClasses: Path -> map<int, string>, listing: Path -> seq<string>,
                      shuffle: (nat, seq<string>) -> seq<string>, shuffleJobs: seq<Job> -> seq<Job>) returns (r: Option<FileSystem>)
    requires ListingsOf(fs, input, SelectedSplits(includeTrain, includeVal, includeTest), listing)
    ensures r == SplitDatasetOutcome(fs, input, output, includeTrain, includeVal, includeTest, mode, loadClasses, listing, shuffle, shuffleJobs)
  {
    var splits := SelectedSplits(includeTrain, includeVal, includeTest);
    var classes := loadClasses(input);
    var images := ReadSplitImages(fs, input, splits, listing);
    var plan := BuildSplitPlan(output, splits, images, mode, shuffle, shuffleJobs);
    if plan.None? {
      return None;
    }
    var written := ExportParts(fs, input, splits, classes, plan.value);
    r := Some(written);
  }

  // What a split writes

  predicate IsPrefix(a: Path, b: Path)
  {
    |a| <= |b| && b[..|a|] == a
  }

  /** Neither directory lies inside the other. */
  predicate Apart(a: Path, b: Path)
  {
    !IsPrefix(a, b) && !IsPrefix(b, a)
  }

  ghost predicate SameFile(a: FileSystem, b: FileSystem, p: Path)
  {
    (p in b.files <==> p in a.files) && (p in a.files ==> b.files[p] == a.files[p])
  }

  /** Every planned dataset is a directory directly inside `output`, and no
      two share one. */
  ghost predicate PartsUnder(output: Path, plan: seq<PartPlan>)
  {
    && (forall k :: 0 <= k < |plan| ==> |plan[k].path| == |output| + 1 && plan[k].path[..|output|] == output)
    && (forall k, k' :: 0 <= k < k' < |plan| ==> plan[k].path != plan[k'].path)
  }

  /** A path that no planned export writes. */
  ghost predicate Untouched(plan: seq<PartPlan>, p: Path)
  {
    forall k :: 0 <= k < |plan| ==> !InTree(plan[k].path, p) && p != plan[k].path + ["dataset.yaml"]
  }

  /** An input dataset apart from the output directory shares no file with a
      part inside it. */
  lemma InputNotInPart(input: Path, output: Path, part: Path, p: Path)
    requires Apart(input, output) && |part| == |output| + 1 && part[..|output|] == output
    requires InTree(input, p)
    ensures !InTree(part, p) && p != part + ["dataset.yaml"]
  {
  }

  /** A path outside the output directory is in none of its parts. */
  lemma OutsideNotInPart(output: Path, part: Path, p: Path)
    requires |part| == |output| + 1 && part[..|output|] == output && !IsPrefix(output, p)
    ensures !InTree(part, p) && p != part + ["dataset.yaml"]
  {
  }

  /** A copied job stays copied while its destination tree is kept. */
  lemma CopiedJobKept(fs0: FileSystem, a: FileSystem, b: FileSystem, src: Path, dst: Path, job: Job)
    requires CopiedJob(fs0, a, src, dst, job) && SourcesKept(a, b, dst)
    ensures CopiedJob(fs0, b, src, dst, job)
  {
    match FindImage(fs0, ImagesDir(src, job.split), job.stem)
    case None =>
    case Some(name) =>
      SplitFilesInTree(dst, job.split, name);
      SplitFilesInTree(dst, job.split, job.stem + ".txt");
  }

  /** A job copied from a later state of an unchanged source is a job
      copied from the earlier state. */
  lemma CopiedJobRebase(fs0: FileSystem, fs1: FileSystem, r: FileSystem, src: Path, dst: Path, job: Job)
    requires SourcesKept(fs0, fs1, src) && CopiedJob(fs1, r, src, dst, job)
    ensures CopiedJob(fs0, r, src, dst, job)
  {
    FindImageKept(fs0, fs1, src, job.split, job.stem);
    match FindImage(fs0, ImagesDir(src, job.split), job.stem)
    case None =>
    case Some(name) =>
      SplitFilesInTree(src, job.split, name);
      SplitFilesInTree(src, job.split, job.stem + ".txt");
  }

  /** Exporting the planned datasets in turn: every job of every part is
      copied from the input as it was, and a path no export writes keeps
      its contents. */
  lemma {:induction false} ExportAllCopies(fs: FileSystem, input: Path, output: Path, splits: seq<string>, classes: map<int, string>, plan: seq<PartPlan>)
    requires Apart(input, output) && PartsUnder(output, plan)
    ensures var r := ExportAll(fs, input, splits, classes, plan);
      && (forall k, job :: 0 <= k < |plan| && job in plan[k].jobs ==> CopiedJob(fs, r, input, plan[k].path, job))
      && (forall p :: Untouched(plan, p) ==> SameFile(fs, r, p))
    decreases |plan|
  {
    if plan != [] {
      var part := plan[0].path;
      var fs1 := ExportPart(fs, input, part, splits, classes, plan[0].jobs);
      var r := ExportAll(fs, input, splits, classes, plan);
      assert input != part;
      ExportPartCopies(fs, input, part, splits, classes, plan[0].jobs);
      var rest := plan[1..];
      PartsUnderRest(output, plan);
      ExportAllCopies(fs1, input, output, splits, classes, rest);
      assert SourcesKept(fs, fs1, input) by {
        forall p | InTree(input, p) ensures SameFile(fs, fs1, p) {
          InputNotInPart(input, output, part, p);
        }
      }
      PartKeptByRest(output, plan, fs1, r);
      forall k, job | 0 <= k < |plan| && job in plan[k].jobs ensures CopiedJob(fs, r, input, plan[k].path, job) {
        if k == 0 {
          CopiedJobKept(fs, fs1, r, input, part, job);
        } else {
          assert rest[k - 1] == plan[k];
          CopiedJobRebase(fs, fs1, r, input, plan[k].path, job);
        }
      }
      forall p | Untouched(plan, p) ensures SameFile(fs, r, p) {
        UntouchedRest(plan, p);
      }
    }
  }

  lemma PartsUnderRest(output: Path, plan: seq<PartPlan>)
    requires PartsUnder(output, plan) && plan != []
    ensures PartsUnder(output, plan[1..])
  {
    assert forall k :: 0 <= k < |plan| - 1 ==> plan[1..][k] == plan[k + 1];
  }

  /** A path no export writes is not written by the first export either,
      nor by the later ones. */
  lemma UntouchedRest(plan: seq<PartPlan>, p: Path)
    requires Untouched(plan, p) && plan != []
    ensures !InTree(plan[0].path, p) && p != plan[0].path + ["dataset.yaml"] && Untouched(plan[1..], p)
  {
    forall k | 0 <= k < |plan| - 1 ensures !InTree(plan[1..][k].path, p) && p != plan[1..][k].path + ["dataset.yaml"] {
      assert plan[1..][k] == plan[k + 1];
    }
  }

  /** The later exports leave the first part's tree as it was. */
  lemma PartKeptByRest(output: Path, plan: seq<PartPlan>, fs1: FileSystem, r: FileSystem)
    requires PartsUnder(output, plan) && plan != []
    requires forall p :: Untouched(plan[1..], p) ==> SameFile(fs1, r, p)
    ensures SourcesKept(fs1, r, plan[0].path)
  {
    var part := plan[0].path;
    var rest := plan[1..];
    forall p | InTree(part, p) ensures SameFile(fs1, r, p) {
      forall k | 0 <= k < |rest| ensures !InTree(rest[k].path, p) && p != rest[k].path + ["dataset.yaml"] {
        assert rest[k] == plan[k + 1];
        TreesApart(part, rest[k].path, p);
      }
      assert Untouched(rest, p);
    }
  }

  /** Every dataset SplitDataset plans is a distinct directory inside the
      output directory. */
  lemma SplitPlanUnder(output: Path, splits: seq<string>, images: seq<seq<string>>, mode: SplitMode,
                       shuffle: (nat, seq<string>) -> seq<string>, shuffleJobs: seq<Job> -> seq<Job>)
    requires |images| == |splits|
    requires SplitPlan(output, splits, images, mode, shuffle, shuffleJobs).Some?
    ensures PartsUnder(output, SplitPlan(output, splits, images, mode, shuffle, shuffleJobs).value)
  {
    var plan := SplitPlan(output, splits, images, mode, shuffle, shuffleJobs).value;
    if !mode.ExtractSubset? {
      assert forall k :: 0 <= k < |plan| ==> plan[k].path == PartPath(output, k);
      forall k, k' | 0 <= k < k' < |plan| ensures plan[k].path != plan[k'].path {
        if plan[k].path == plan[k'].path {
          PartPathInjective(output, k, k');
        }
      }
    }
  }

  /** With the input dataset apart from the output directory, SplitDataset
      copies every planned job's image and label into its part, and changes
      no file outside the output directory. */
  lemma SplitDatasetCopies(fs: FileSystem, input: Path, output: Path, includeTrain: bool, includeVal: bool, includeTest: bool,
                           mode: SplitMode, loadClasses: Path -> map<int, string>, listing: Path -> seq<string>,
                           shuffle: (nat, seq<string>) -> seq<string>, shuffleJobs: seq<Job> -> seq<Job>)
    requires ListingsOf(fs, input, SelectedSplits(includeTrain, includeVal, includeTest), listing)
    requires Apart(input, output)
    ensures var splits := SelectedSplits(includeTrain, includeVal, includeTest);
      var plan := SplitPlan(output, splits, SplitImages(fs, input, splits, listing), mode, shuffle, shuffleJobs);
      var r := SplitDatasetOutcome(fs, input, output, includeTrain, includeVal, includeTest, mode, loadClasses, listing, shuffle, shuffleJobs);
      && (r.Some? <==> plan.Some?)
      && (r.Some? ==> forall k, job :: 0 <= k < |plan.value| && job in plan.value[k].jobs ==> CopiedJob(fs, r.value, input, plan.value[k].path, job))
      && (r.Some? ==> forall p :: !IsPrefix(output, p) ==> SameFile(fs, r.value, p))
  {
    var splits := SelectedSplits(includeTrain, includeVal, includeTest);
    var images := SplitImages(fs, input, splits, listing);
    var plan := SplitPlan(output, splits, images, mode, shuffle, shuffleJobs);
    if plan.Some? {
      SplitPlanUnder(output, splits, images, mode, shuffle, shuffleJobs);
      ExportAllCopies(fs, input, output, splits, loadClasses(input), plan.value);
      forall p | !IsPrefix(output, p) ensures Untouched(plan.value, p) {
        forall k | 0 <= k < |plan.value| ensures !InTree(plan.value[k].path, p) && p != plan.value[k].path + ["dataset.yaml"] {
          OutsideNotInPart(output, plan.value[k].path, p);
        }
      }
    }
  }
}

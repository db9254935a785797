/**
 * The YOLO dataset helper: the layout of a dataset on disk
 * (<root>/images/<split>, <root>/labels/<split>), reading and checking label
 * lines, writing dataset.yaml, and copying images with their labels, in bulk
 * through an external copy tool with a plain-copy fallback.
 */
module YoloDatasetHelper {
  import opened Text
  import opened Collections
  import opened Paths

  /** The extensions tried, in order, when an image is looked up by stem. */
  const ImageExtensions: seq<string> := [".png", ".jpg", ".jpeg", ".PNG", ".JPG", ".JPEG"]

  /** The splits a dataset may have, in the order they are reported. */
  const SplitNames: seq<string> := ["train", "val", "test"]

  /** The separators of a label line. */
  const LabelSeparators: set<char> := {' ', ','}

  /** At most this many names per run of the copy tool. */
  const BatchSize: nat := 1000

  function ImagesDir(root: Path, split: string): Path
  {
    root + ["images", split]
  }

  function LabelsDir(root: Path, split: string): Path
  {
    root + ["labels", split]
  }

  // ---------------------------------------------------------------------
  // Layout
  // ---------------------------------------------------------------------

  /** A dataset is valid when its (non-empty) root holds images/ and labels/. */
  predicate ValidateYoloDataset(fs: FileSystem, root: Path)
  {
    root != [] && fs.DirExists(root) && fs.DirExists(root + ["images"]) && fs.DirExists(root + ["labels"])
  }

  /** The directories created for the splits below the root: images/ and
      labels/ and their <split> subdirectories. */
  function SplitDirs(root: Path, splits: seq<string>): set<Path>
  {
    if splits == [] then {}
    else
      var last := splits[|splits| - 1];
      SplitDirs(root, splits[..|splits| - 1])
      + {root + ["images"], ImagesDir(root, last), root + ["labels"], LabelsDir(root, last)}
  }

  /** CreateDirectoryStructure: Directory.CreateDirectory of the root and of
      images/<split> and labels/<split> for every split. */
  method CreateDirectoryStructure(fs: FileSystem, root: Path, splits: seq<string>) returns (r: FileSystem)
    ensures r.files == fs.files
    ensures r.dirs == fs.dirs + Ancestors(root) + SplitDirs(root, splits)
  {
    r := fs.CreateDirectory(root);
    for i := 0 to |splits|
      invariant r.files == fs.files
      invariant r.dirs == fs.dirs + Ancestors(root) + SplitDirs(root, splits[..i])
    {
      assert splits[..i + 1][..i] == splits[..i];
      AncestorsOfSplitDir(root, "images", splits[i]);
      AncestorsOfSplitDir(root, "labels", splits[i]);
      r := r.CreateDirectory(ImagesDir(root, splits[i]));
      r := r.CreateDirectory(LabelsDir(root, splits[i]));
    }
    assert splits[..|splits|] == splits;
  }

  lemma AncestorsOfSplitDir(root: Path, kind: string, split: string)
    ensures Ancestors(root + [kind, split]) == Ancestors(root) + {root + [kind], root + [kind, split]}
  {
    var p := root + [kind, split];
    assert p[..|root| + 1] == root + [kind];
    assert p[..|root| + 2] == p;
    forall k | 1 <= k <= |root| ensures p[..k] == root[..k] {
    }
  }

  /** The split directories are exactly images/ and labels/ with their
      <split> subdirectories, below the root's own ancestors. */
  lemma {:induction false} SplitDirsMembers(root: Path, splits: seq<string>)
    ensures forall s :: s in splits ==> ImagesDir(root, s) in SplitDirs(root, splits) && LabelsDir(root, s) in SplitDirs(root, splits)
    ensures splits != [] ==> root + ["images"] in SplitDirs(root, splits) && root + ["labels"] in SplitDirs(root, splits)
    ensures forall d :: d in SplitDirs(root, splits) ==>
      d == root + ["images"] || d == root + ["labels"]
      || exists s :: s in splits && (d == ImagesDir(root, s) || d == LabelsDir(root, s))
  {
    if splits != [] {
      var init := splits[..|splits| - 1];
      var last := splits[|splits| - 1];
      SplitDirsMembers(root, init);
      assert forall s :: s in splits ==> s in init || s == last;
      assert forall s :: s in init ==> s in splits;
    }
  }

  /** Creating the structure for at least one split makes a valid dataset
      with every split's directories. */
  lemma CreatedStructureIsValid(fs: FileSystem, root: Path, splits: seq<string>, r: FileSystem)
    requires root != [] && splits != []
    requires r.dirs == fs.dirs + Ancestors(root) + SplitDirs(root, splits)
    ensures ValidateYoloDataset(r, root)
    ensures forall s :: s in splits ==> r.DirExists(ImagesDir(root, s)) && r.DirExists(LabelsDir(root, s))
  {
    SplitDirsMembers(root, splits);
    assert root[..|root|] == root;
  }

  /** GetAvailableSplits: the splits, among train, val and test in that
      order, whose image directory exists; none when images/ is missing. */
  method GetAvailableSplits(fs: FileSystem, root: Path) returns (splits: seq<string>)
    ensures forall s :: s in splits <==>
      fs.DirExists(root + ["images"]) && s in SplitNames && fs.DirExists(ImagesDir(root, s))
    ensures forall i, j :: 0 <= i < j < |splits| ==> SplitIndex(splits[i]) < SplitIndex(splits[j])
  {
    splits := [];
    if !fs.DirExists(root + ["images"]) {
      return;
    }
    for i := 0 to |SplitNames|
      invariant forall s :: s in splits <==> s in SplitNames[..i] && fs.DirExists(ImagesDir(root, s))
      invariant forall k :: 0 <= k < |splits| ==> SplitIndex(splits[k]) < i
      invariant forall a, b :: 0 <= a < b < |splits| ==> SplitIndex(splits[a]) < SplitIndex(splits[b])
    {
      var split := SplitNames[i];
      assert SplitIndex(split) == i;
      if fs.DirExists(ImagesDir(root, split)) {
        splits := splits + [split];
      }
      assert SplitNames[..i + 1] == SplitNames[..i] + [split];
    }
    assert SplitNames[..|SplitNames|] == SplitNames;
  }

  /** Position of a split name in train, val, test. */
  function SplitIndex(s: string): nat
  {
    if s == "train" then 0 else if s == "val" then 1 else if s == "test" then 2 else 3
  }

  // ---------------------------------------------------------------------
  // Listing a split
  // ---------------------------------------------------------------------

  /** A name ending in .png, .jpg or .jpeg, whatever the case. */
  predicate IsImageName(name: string)
  {
    EndsWithIgnoreCase(name, ".png") || EndsWithIgnoreCase(name, ".jpg") || EndsWithIgnoreCase(name, ".jpeg")
  }

  /** The stems of the names kept by `keep`, in listing order. */
  function StemsWhere(names: seq<string>, keep: string -> bool): (r: seq<string>)
    ensures |r| <= |names|
    ensures forall stem :: stem in r <==> exists n :: n in names && keep(n) && Stem(n) == stem
  {
    if names == [] then []
    else
      var rest := StemsWhere(names[1..], keep);
      assert forall n :: n in names[1..] ==> n in names;
      assert forall n :: n in names ==> n == names[0] || n in names[1..];
      if keep(names[0]) then [Stem(names[0])] + rest else rest
  }

  /** GetImagesFromSplit: the stems of the image files of a split, from a
      listing of its image directory; nothing when the directory is absent. */
  function GetImagesFromSplit(fs: FileSystem, root: Path, split: string, listing: seq<string>): (r: seq<string>)
    requires fs.DirExists(ImagesDir(root, split)) ==> IsListing(fs, ImagesDir(root, split), listing)
    ensures !fs.DirExists(ImagesDir(root, split)) ==> r == []
    ensures fs.DirExists(ImagesDir(root, split)) ==>
      forall stem :: stem in r <==>
        exists n :: n in listing && ImagesDir(root, split) + [n] in fs.files && IsImageName(n) && Stem(n) == stem
  {
    if !fs.DirExists(ImagesDir(root, split)) then []
    else StemsWhere(listing, IsImageName)
  }

  /** A name matching the pattern "*.txt". */
  predicate IsLabelName(name: string)
  {
    EndsWithIgnoreCase(name, ".txt")
  }

  /** GetLabelsFromSplit: the stems of the label files of a split. */
  function GetLabelsFromSplit(fs: FileSystem, root: Path, split: string, listing: seq<string>): (r: seq<string>)
    requires fs.DirExists(LabelsDir(root, split)) ==> IsListing(fs, LabelsDir(root, split), listing)
    ensures !fs.DirExists(LabelsDir(root, split)) ==> r == []
    ensures fs.DirExists(LabelsDir(root, split)) ==>
      forall stem :: stem in r <==>
        exists n :: n in listing && LabelsDir(root, split) + [n] in fs.files && IsLabelName(n) && Stem(n) == stem
  {
    if !fs.DirExists(LabelsDir(root, split)) then []
    else StemsWhere(listing, IsLabelName)
  }

  /** Every image file named `stem + ext` with one of the image extensions is
      listed under `stem`. */
  lemma ImageFileIsListed(fs: FileSystem, root: Path, split: string, listing: seq<string>, stem: string, k: nat)
    requires fs.DirExists(ImagesDir(root, split)) && IsListing(fs, ImagesDir(root, split), listing)
    requires k < |ImageExtensions| && ImagesDir(root, split) + [stem + ImageExtensions[k]] in fs.files
    ensures stem in GetImagesFromSplit(fs, root, split, listing)
  {
    var n := stem + ImageExtensions[k];
    ImageExtensionName(stem, k);
    assert n in listing && IsImageName(n) && Stem(n) == stem;
  }

  /** A stem with one of the looked-up extensions is an image name whose
      stem is the stem again. */
  lemma ImageExtensionName(stem: string, k: nat)
    requires k < |ImageExtensions|
    ensures IsImageName(stem + ImageExtensions[k]) && Stem(stem + ImageExtensions[k]) == stem
  {
    var ext := ImageExtensions[k];
    var base := [".png", ".jpg", ".jpeg"][k % 3];
    assert Lower(ext) == base by {
      assert |Lower(ext)| == |base|;
      forall i | 0 <= i < |base| ensures Lower(ext)[i] == base[i] {
      }
    }
    assert Lower(base) == base by {
      forall i | 0 <= i < |base| ensures Lower(base)[i] == base[i] {
      }
    }
    assert '.' !in ext[1..] by {
      forall i | 1 <= i < |ext| ensures ext[i] != '.' {
      }
    }
    StemOfAppend(stem, ext);
    EndsWithAppend(stem, ext);
  }

  // ---------------------------------------------------------------------
  // Label files
  // ---------------------------------------------------------------------

  /** The class id a label line is counted under: a line that is not blank,
      has at least five tokens and an integer first token. */
  function CountedClassId(line: string): Option<int>
  {
    if IsBlank(line) then None
    else
      var parts := SplitNonEmpty(line, LabelSeparators);
      if |parts| >= 5 then ParseInt32(parts[0]) else None
  }

  /** The class ids of the counted lines, in file order. */
  function CountedClassIds(lines: seq<string>): (ids: seq<int>)
    ensures |ids| <= |lines|
  {
    if lines == [] then []
    else
      var init := CountedClassIds(lines[..|lines| - 1]);
      match CountedClassId(lines[|lines| - 1])
      case None => init
      case Some(id) => init + [id]
  }

  function CountedLines(lines: seq<string>): seq<string>
  {
    if lines == [] then []
    else
      var last := if CountedClassId(lines[|lines| - 1]).Some? then [lines[|lines| - 1]] else [];
      CountedLines(lines[..|lines| - 1]) + last
  }

  /** ReadLabelFile: for every class id, the number of lines counted under
      it; nothing for a missing file, and nothing when reading the file
      throws (`readable` false), as the empty catch returns the still empty
      dictionary. */
  method ReadLabelFile(fs: FileSystem, path: Path, readable: bool) returns (counts: map<int, nat>)
    ensures !fs.FileExists(path) || !readable ==> counts == map[]
    ensures fs.FileExists(path) && readable ==> counts == Tally(CountedClassIds(ReadAllLines(fs.files[path])))
  {
    counts := map[];
    if !fs.FileExists(path) || !readable {
      return;
    }
    counts := CountLabelLines(ReadAllLines(fs.files[path]));
  }

  /** The loop of ReadLabelFile over the lines of the file. */
  method CountLabelLines(lines: seq<string>) returns (counts: map<int, nat>)
    ensures counts == Tally(CountedClassIds(lines))
  {
    counts := map[];
    for i := 0 to |lines|
      invariant counts == Tally(CountedClassIds(lines[..i]))
    {
      var line := lines[i];
      ghost var before := CountedClassIds(lines[..i]);
      ghost var after := CountedClassIds(lines[..i + 1]);
      CountedStep(lines, i);
      assert CountedClassId(line).None? ==> after == before;
      assert CountedClassId(line).Some? ==> after == before + [CountedClassId(line).value];
      if !IsBlank(line) {
        var parts := SplitNonEmpty(line, LabelSeparators);
        if |parts| >= 5 {
          var classId := ParseInt32(parts[0]);
          if classId.Some? {
            var id := classId.value;
            TallyAppend(before, id);
            counts := counts[id := (if id in counts then counts[id] else 0) + 1];
            assert counts == Tally(after);
          }
        }
      }
    }
    assert lines[..|lines|] == lines;
  }

  lemma CountedStep(lines: seq<string>, i: nat)
    requires i < |lines|
    ensures CountedClassIds(lines[..i + 1]) == CountedClassIds(lines[..i])
      + (match CountedClassId(lines[i]) case None => [] case Some(id) => [id])
  {
    assert lines[..i + 1][..i] == lines[..i];
  }

  /** The counts add up to the number of counted lines, each line counted
      under the id its first token gives. */
  lemma {:induction false} LabelCountsTotal(lines: seq<string>)
    ensures SumValues(Tally(CountedClassIds(lines))) == |CountedLines(lines)|
    ensures |CountedClassIds(lines)| == |CountedLines(lines)|
  {
    TallySum(CountedClassIds(lines));
    CountedSameLength(lines);
  }

  lemma {:induction false} CountedSameLength(lines: seq<string>)
    ensures |CountedClassIds(lines)| == |CountedLines(lines)|
  {
    if lines != [] {
      CountedSameLength(lines[..|lines| - 1]);
    }
  }

  /** Blank lines and lines with fewer than five tokens are never counted. */
  lemma UncountedLines(line: string)
    requires IsBlank(line) || |SplitNonEmpty(line, LabelSeparators)| < 5
    ensures CountedClassIds([line]) == []
  {
    assert [line][..0] == [];
  }

  // ---------------------------------------------------------------------
  // Coordinate validation
  // ---------------------------------------------------------------------

  /** The first check a label line fails. */
  datatype CoordinateError =
    | InsufficientValues
    | InvalidClassId(token: string)
    | InvalidNumber(position: nat, token: string)
    | OutOfRange(position: nat, value: real)

  /** Position `i` holds a number (parsed as the invariant culture does) in
      [0, 1]. */
  predicate CoordinateOk(parts: seq<string>, i: nat, parseFloat: string -> Option<real>)
    requires i < |parts|
  {
    parseFloat(parts[i]).Some? && 0.0 <= parseFloat(parts[i]).value <= 1.0
  }

  /** ValidateYoloCoordinates: true with no error iff the line has five
      tokens, a non-negative integer class id and four coordinates in [0, 1];
      otherwise false with the first check that fails. */
  method ValidateYoloCoordinates(line: string, parseFloat: string -> Option<real>)
    returns (ok: bool, error: Option<CoordinateError>)
    ensures ok <==> error.None?
    ensures var parts := SplitNonEmpty(line, LabelSeparators);
      && (error == Some(InsufficientValues) <==> |parts| < 5)
      && (error.Some? && error.value.InvalidClassId? <==>
            |parts| >= 5 && (ParseInt32(parts[0]).None? || ParseInt32(parts[0]).value < 0))
      && (error.Some? && error.value.InvalidClassId? ==> error.value.token == parts[0])
      && (ok <==> |parts| >= 5 && ParseInt32(parts[0]).Some? && ParseInt32(parts[0]).value >= 0
                  && forall i :: 1 <= i < 5 ==> CoordinateOk(parts, i, parseFloat))
      && (error.Some? && error.value.InvalidNumber? ==>
            var i := error.value.position;
            1 <= i < 5 <= |parts| && error.value.token == parts[i] && parseFloat(parts[i]).None?
            && forall j :: 1 <= j < i ==> CoordinateOk(parts, j, parseFloat))
      && (error.Some? && error.value.OutOfRange? ==>
            var i := error.value.position;
            1 <= i < 5 <= |parts| && parseFloat(parts[i]) == Some(error.value.value)
            && !(0.0 <= error.value.value <= 1.0)
            && forall j :: 1 <= j < i ==> CoordinateOk(parts, j, parseFloat))
  {
    var parts := SplitNonEmpty(line, LabelSeparators);
    if |parts| < 5 {
      return false, Some(InsufficientValues);
    }
    var classId := ParseInt32(parts[0]);
    if classId.None? || classId.value < 0 {
      return false, Some(InvalidClassId(parts[0]));
    }
    for i := 1 to 5
      invariant forall j :: 1 <= j < i ==> CoordinateOk(parts, j, parseFloat)
    {
      var value := parseFloat(parts[i]);
      if value.None? {
        assert !CoordinateOk(parts, i, parseFloat);
        return false, Some(InvalidNumber(i, parts[i]));
      }
      if value.value < 0.0 || value.value > 1.0 {
        assert !CoordinateOk(parts, i, parseFloat);
        return false, Some(OutOfRange(i, value.value));
      }
    }
    return true, None;
  }

  // ---------------------------------------------------------------------
  // dataset.yaml
  // ---------------------------------------------------------------------

  /** A path as text, components joined by '\'. */
  function PathText(p: Path): string
  {
    if p == [] then "" else if |p| == 1 then p[0] else p[0] + "\\" + PathText(p[1..])
  }

  /** The line of one split, present only when the split is included. */
  function SplitLine(splits: seq<string>, split: string, line: string): seq<string>
  {
    if split in splits then [line] else []
  }

  /** The split lines of dataset.yaml: one per included split, always in the
      order train, val, test. */
  function SplitLines(splits: seq<string>): seq<string>
  {
    SplitLine(splits, "train", "train: images/train")
    + SplitLine(splits, "val", "val: images/val")
    + SplitLine(splits, "test", "test: images/test")
  }

  /** The "names" entry of a class: its id and its name, indented. */
  function NameEntry(classes: map<int, string>, id: int): string
    requires id in classes
  {
    "  " + IntToString(id) + ": " + classes[id]
  }

  /** One "names" entry per class, by ascending id. */
  function NameEntries(classes: map<int, string>): (r: seq<string>)
    ensures |r| == |classes|
  {
    var ids := SortedKeys(classes.Keys);
    seq(|ids|, i requires 0 <= i < |ids| => NameEntry(classes, ids[i]))
  }

  /** The lines of dataset.yaml before the class entries. */
  function YamlHeader(outputPath: Path, classes: map<int, string>, splits: seq<string>): seq<string>
  {
    ["path: " + PathText(outputPath)]
      + SplitLine(splits, "train", "train: images/train")
      + SplitLine(splits, "val", "val: images/val")
      + SplitLine(splits, "test", "test: images/test")
      + ["nc: " + IntToString(|classes|)]
      + ["names:"]
  }

  /** The lines of dataset.yaml. */
  function DatasetYamlLines(outputPath: Path, classes: map<int, string>, splits: seq<string>): seq<string>
  {
    YamlHeader(outputPath, classes, splits) + NameEntries(classes)
  }

  /** CreateDatasetYaml: builds the text line by line, each line ended by
      "\r\n" as StringBuilder.AppendLine does, and writes it to
      <outputPath>/dataset.yaml. */
  method CreateDatasetYaml(fs: FileSystem, outputPath: Path, classes: map<int, string>, splits: seq<string>)
    returns (r: FileSystem, yaml: string)
    ensures yaml == WriteAllLines(DatasetYamlLines(outputPath, classes, splits))
    ensures r == fs.WriteFile(outputPath + ["dataset.yaml"], yaml)
  {
    yaml := WriteYamlHeader(outputPath, classes, splits);
    yaml := AppendNameEntries(yaml, YamlHeader(outputPath, classes, splits), classes);
    r := fs.WriteFile(outputPath + ["dataset.yaml"], yaml);
  }

  /** The path, split, nc and names lines. */
  method WriteYamlHeader(outputPath: Path, classes: map<int, string>, splits: seq<string>) returns (yaml: string)
    ensures yaml == WriteAllLines(YamlHeader(outputPath, classes, splits))
  {
    ghost var lines: seq<string> := [];
    yaml := "";
    yaml, lines := AppendLine(yaml, lines, "path: " + PathText(outputPath));
    assert lines == ["path: " + PathText(outputPath)];
    yaml, lines := AppendSplitLine(yaml, lines, splits, "train", "train: images/train");
    yaml, lines := AppendSplitLine(yaml, lines, splits, "val", "val: images/val");
    yaml, lines := AppendSplitLine(yaml, lines, splits, "test", "test: images/test");
    yaml, lines := AppendLine(yaml, lines, "nc: " + IntToString(|classes|));
    yaml, lines := AppendLine(yaml, lines, "names:");
  }

  /** One names entry per class, by ascending id, after the header. */
  method AppendNameEntries(text: string, ghost header: seq<string>, classes: map<int, string>) returns (yaml: string)
    requires text == WriteAllLines(header)
    ensures yaml == WriteAllLines(header + NameEntries(classes))
  {
    ghost var entries := NameEntries(classes);
    ghost var lines: seq<string>;
    var ids := SortedKeys(classes.Keys);
    yaml := text;
    assert header + entries[..0] == header;
    for i := 0 to |ids|
      invariant yaml == WriteAllLines(header + entries[..i])
    {
      HeadTakeNext(header, entries, i);
      NameEntryAt(classes, i);
      yaml, lines := AppendLine(yaml, header + entries[..i], NameEntry(classes, ids[i]));
    }
    assert entries[..|ids|] == entries;
  }

  /** StringBuilder.AppendLine on a text that holds the written lines. */
  method AppendLine(text: string, ghost lines: seq<string>, line: string) returns (r: string, ghost rLines: seq<string>)
    requires text == WriteAllLines(lines)
    ensures rLines == lines + [line]
    ensures r == text + line + "\r\n" && r == WriteAllLines(rLines)
  {
    WriteAllLinesAppend(lines, line);
    r := text + line + "\r\n";
    rLines := lines + [line];
  }

  /** The line of a split, appended only when the split is included. */
  method AppendSplitLine(text: string, ghost lines: seq<string>, splits: seq<string>, split: string, line: string)
    returns (r: string, ghost rLines: seq<string>)
    requires text == WriteAllLines(lines)
    ensures rLines == lines + SplitLine(splits, split, line)
    ensures r == WriteAllLines(rLines)
  {
    if split in splits {
      r, rLines := AppendLine(text, lines, line);
    } else {
      r, rLines := text, lines;
      assert lines + [] == lines;
    }
  }

  lemma {:induction false} WriteAllLinesConcat(a: seq<string>, b: seq<string>)
    ensures WriteAllLines(a + b) == WriteAllLines(a) + WriteAllLines(b)
  {
    if a != [] {
      assert (a + b)[1..] == a[1..] + b;
      WriteAllLinesConcat(a[1..], b);
    } else {
      assert a + b == b;
    }
  }

  lemma WriteAllLinesAppend(lines: seq<string>, line: string)
    ensures WriteAllLines(lines + [line]) == WriteAllLines(lines) + line + "\r\n"
  {
    WriteAllLinesConcat(lines, [line]);
  }

  /** The split lines depend only on which splits are included, not on the
      order or repetition of the list. */
  lemma DatasetYamlSplitOrderIrrelevant(outputPath: Path, classes: map<int, string>, a: seq<string>, b: seq<string>)
    requires forall s :: s in a <==> s in b
    ensures DatasetYamlLines(outputPath, classes, a) == DatasetYamlLines(outputPath, classes, b)
  {
  }

  /** dataset.yaml starts with the path line, one line per included split,
      the nc line with the number of classes and the names line; one entry per
      class follows. */
  lemma DatasetYamlHeader(outputPath: Path, classes: map<int, string>, splits: seq<string>)
    ensures var lines := DatasetYamlLines(outputPath, classes, splits);
      var n := |SplitLines(splits)|;
      && n == (if "train" in splits then 1 else 0) + (if "val" in splits then 1 else 0) + (if "test" in splits then 1 else 0)
      && |lines| == 3 + n + |classes|
      && lines[0] == "path: " + PathText(outputPath)
      && lines[1 + n] == "nc: " + IntToString(|classes|)
      && lines[2 + n] == "names:"
      && lines[3 + n..] == NameEntries(classes)
  {
    var header := YamlHeader(outputPath, classes, splits);
    var n := |SplitLines(splits)|;
    assert |header| == 3 + n && header[0] == "path: " + PathText(outputPath);
    assert header[1 + n] == "nc: " + IntToString(|classes|) && header[2 + n] == "names:";
  }

  /** The k-th names entry is the entry of the k-th smallest id. */
  lemma NameEntryAt(classes: map<int, string>, k: nat)
    requires k < |classes|
    ensures var ids := SortedKeys(classes.Keys);
      ids[k] in classes && NameEntries(classes)[k] == NameEntry(classes, ids[k])
  {
  }

  /** The names section lists every class, and nothing else. */
  lemma NameEntriesCover(classes: map<int, string>)
    ensures var entries := NameEntries(classes);
      && |entries| == |classes|
      && (forall id :: id in classes ==> NameEntry(classes, id) in entries)
      && (forall k :: 0 <= k < |entries| ==> exists id :: id in classes && entries[k] == NameEntry(classes, id))
  {
    var ids := SortedKeys(classes.Keys);
    var entries := NameEntries(classes);
    forall id | id in classes
      ensures NameEntry(classes, id) in entries
    {
      var k :| 0 <= k < |ids| && ids[k] == id;
      NameEntryAt(classes, k);
    }
    forall k | 0 <= k < |entries|
      ensures exists id :: id in classes && entries[k] == NameEntry(classes, id)
    {
      NameEntryAt(classes, k);
    }
  }

  /** The names section lists the classes by strictly ascending id: the
      k-th entry is the entry of the k-th id of an ascending sequence of
      exactly the class ids. */
  lemma NameEntriesAscending(classes: map<int, string>)
    ensures var ids := SortedKeys(classes.Keys);
      && |ids| == |NameEntries(classes)|
      && (forall id :: id in ids <==> id in classes)
      && (forall j, k :: 0 <= j < k < |ids| ==> ids[j] < ids[k])
      && (forall k :: 0 <= k < |ids| ==> ids[k] in classes && NameEntries(classes)[k] == NameEntry(classes, ids[k]))
  {
    forall k | 0 <= k < |classes|
      ensures var ids := SortedKeys(classes.Keys);
        ids[k] in classes && NameEntries(classes)[k] == NameEntry(classes, ids[k])
    {
      NameEntryAt(classes, k);
    }
  }

  /** Reading dataset.yaml back gives its lines, provided the path and the
      class names hold no line breaks. */
  lemma DatasetYamlReadBack(outputPath: Path, classes: map<int, string>, splits: seq<string>)
    requires forall i :: 0 <= i < |outputPath| ==> HasNoLineBreak(outputPath[i])
    requires forall id :: id in classes ==> HasNoLineBreak(classes[id])
    ensures ReadAllLines(WriteAllLines(DatasetYamlLines(outputPath, classes, splits))) == DatasetYamlLines(outputPath, classes, splits)
  {
    var header := YamlHeader(outputPath, classes, splits);
    var entries := NameEntries(classes);
    var ids := SortedKeys(classes.Keys);
    YamlHeaderNoBreak(outputPath, classes, splits);
    NameEntriesNoBreak(classes);
    NoBreaksConcat(header, entries);
    ReadWriteLines(header + entries);
  }

  lemma YamlHeaderNoBreak(outputPath: Path, classes: map<int, string>, splits: seq<string>)
    requires forall i :: 0 <= i < |outputPath| ==> HasNoLineBreak(outputPath[i])
    ensures var header := YamlHeader(outputPath, classes, splits);
      forall k :: 0 <= k < |header| ==> HasNoLineBreak(header[k])
  {
    PathTextNoBreak(outputPath);
    NatToStringNoBreak(|classes|);
    NoBreakJoin("path: ", PathText(outputPath));
    NoBreakJoin("nc: ", IntToString(|classes|));
    var t := SplitLine(splits, "train", "train: images/train");
    var v := SplitLine(splits, "val", "val: images/val");
    var e := SplitLine(splits, "test", "test: images/test");
    var h := ["path: " + PathText(outputPath)];
    NoBreaksConcat(h, t);
    NoBreaksConcat(h + t, v);
    NoBreaksConcat(h + t + v, e);
    NoBreaksConcat(h + t + v + e, ["nc: " + IntToString(|classes|)]);
    NoBreaksConcat(h + t + v + e + ["nc: " + IntToString(|classes|)], ["names:"]);
  }

  lemma NameEntriesNoBreak(classes: map<int, string>)
    requires forall id :: id in classes ==> HasNoLineBreak(classes[id])
    ensures var entries := NameEntries(classes);
      forall k :: 0 <= k < |entries| ==> HasNoLineBreak(entries[k])
  {
    var ids := SortedKeys(classes.Keys);
    var entries := NameEntries(classes);
    forall k | 0 <= k < |entries| ensures HasNoLineBreak(entries[k]) {
      NameEntryAt(classes, k);
      NameEntryNoBreak(classes, ids[k]);
    }
  }

  lemma NameEntryNoBreak(classes: map<int, string>, id: int)
    requires id in classes && HasNoLineBreak(classes[id])
    ensures HasNoLineBreak(NameEntry(classes, id))
  {
    NatToStringNoBreak(id);
    NoBreakJoin("  ", IntToString(id));
    NoBreakJoin("  " + IntToString(id), ": ");
    NoBreakJoin("  " + IntToString(id) + ": ", classes[id]);
  }

  lemma NoBreakJoin(a: string, b: string)
    requires HasNoLineBreak(a) && HasNoLineBreak(b)
    ensures HasNoLineBreak(a + b)
  {
  }

  lemma NoBreaksConcat(a: seq<string>, b: seq<string>)
    requires forall k :: 0 <= k < |a| ==> HasNoLineBreak(a[k])
    requires forall k :: 0 <= k < |b| ==> HasNoLineBreak(b[k])
    ensures forall k :: 0 <= k < |a + b| ==> HasNoLineBreak((a + b)[k])
  {
  }

  lemma {:induction false} PathTextNoBreak(p: Path)
    requires forall i :: 0 <= i < |p| ==> HasNoLineBreak(p[i])
    ensures HasNoLineBreak(PathText(p))
  {
    if |p| > 1 {
      PathTextNoBreak(p[1..]);
    }
  }

  lemma NatToStringNoBreak(n: int)
    ensures HasNoLineBreak(IntToString(n))
  {
    var d := NatToString(if n < 0 then -n else n);
    assert forall i :: 0 <= i < |d| ==> IsDigit(d[i]);
  }

  // ---------------------------------------------------------------------
  // Image and label lookup
  // ---------------------------------------------------------------------

  /** The file name of the first existing `stem + ext` in `dir`, trying the
      image extensions in order. */
  function FindImage(fs: FileSystem, dir: Path, stem: string): (r: Option<string>)
    ensures r.None? <==> forall k :: 0 <= k < |ImageExtensions| ==> dir + [stem + ImageExtensions[k]] !in fs.files
    ensures r.Some? ==> exists k :: (0 <= k < |ImageExtensions| && r.value == stem + ImageExtensions[k]
      && dir + [r.value] in fs.files
      && forall j :: 0 <= j < k ==> dir + [stem + ImageExtensions[j]] !in fs.files)
  {
    FindImageFrom(fs, dir, stem, 0)
  }

  function FindImageFrom(fs: FileSystem, dir: Path, stem: string, from: nat): (r: Option<string>)
    requires from <= |ImageExtensions|
    ensures r.None? <==> forall k :: from <= k < |ImageExtensions| ==> dir + [stem + ImageExtensions[k]] !in fs.files
    ensures r.Some? ==> exists k :: (from <= k < |ImageExtensions| && r.value == stem + ImageExtensions[k]
      && dir + [r.value] in fs.files
      && forall j :: from <= j < k ==> dir + [stem + ImageExtensions[j]] !in fs.files)
    decreases |ImageExtensions| - from
  {
    if from == |ImageExtensions| then None
    else if dir + [stem + ImageExtensions[from]] in fs.files then Some(stem + ImageExtensions[from])
    else FindImageFrom(fs, dir, stem, from + 1)
  }

  /** GetImagePath: the path of the first existing image for the stem, in the
      order .png, .jpg, .jpeg, .PNG, .JPG, .JPEG; none when there is none. */
  method GetImagePath(fs: FileSystem, root: Path, split: string, stem: string) returns (r: Option<Path>)
    ensures r.None? <==> FindImage(fs, ImagesDir(root, split), stem).None?
    ensures r.Some? ==> r.value == ImagesDir(root, split) + [FindImage(fs, ImagesDir(root, split), stem).value]
  {
    var dir := ImagesDir(root, split);
    for k := 0 to |ImageExtensions|
      invariant FindImage(fs, dir, stem) == FindImageFrom(fs, dir, stem, k)
    {
      var test := dir + [stem + ImageExtensions[k]];
      if fs.FileExists(test) {
        return Some(test);
      }
    }
    return None;
  }

  /** GetLabelPath: labels/<split>/<stem>.txt. */
  function GetLabelPath(root: Path, split: string, stem: string): Path
  {
    LabelsDir(root, split) + [stem + ".txt"]
  }

  /** The label path of a stem lies in the split's label directory, is named
      after the stem with the .txt extension, and different stems have
      different label paths. */
  lemma LabelPathOfStem(root: Path, split: string, stem: string, other: string)
    ensures var p := GetLabelPath(root, split, stem);
      p[..|p| - 1] == LabelsDir(root, split) && Stem(p[|p| - 1]) == stem && Extension(p[|p| - 1]) == ".txt"
    ensures GetLabelPath(root, split, stem) == GetLabelPath(root, split, other) ==> stem == other
  {
    StemOfAppend(stem, ".txt");
    StemOfAppend(other, ".txt");
    var p := GetLabelPath(root, split, stem);
    var q := GetLabelPath(root, split, other);
    assert p[|p| - 1] == stem + ".txt" && q[|q| - 1] == other + ".txt";
  }

  // ---------------------------------------------------------------------
  // Copying images with their labels
  // ---------------------------------------------------------------------

  /** CopyImageAndLabel: copy the first existing image for the stem, with
      overwrite, into the destination split, and its label when the source
      label exists; nothing is copied when no image exists.  The helper's
      version creates the destination directories first; the dataset tools'
      version does not. */
  function CopyImageAndLabel(fs: FileSystem, src: Path, dst: Path, split: string, stem: string, createDirectories: bool)
    : (r: FileSystem)
    ensures r.dirs == if createDirectories then fs.dirs + Ancestors(ImagesDir(dst, split)) + Ancestors(LabelsDir(dst, split)) else fs.dirs
    ensures FindImage(fs, ImagesDir(src, split), stem).None? ==> r.files == fs.files
    ensures FindImage(fs, ImagesDir(src, split), stem).Some? ==>
      var name := FindImage(fs, ImagesDir(src, split), stem).value;
      var withImage := fs.files[ImagesDir(dst, split) + [name] := fs.files[ImagesDir(src, split) + [name]]];
      r.files == if GetLabelPath(src, split, stem) in fs.files
                 then withImage[GetLabelPath(dst, split, stem) := fs.files[GetLabelPath(src, split, stem)]]
                 else withImage
  {
    var fs1 := if createDirectories then fs.CreateDirectory(ImagesDir(dst, split)).CreateDirectory(LabelsDir(dst, split)) else fs;
    match FindImage(fs1, ImagesDir(src, split), stem)
    case None => fs1
    case Some(name) =>
      var fs2 := fs1.WriteFile(ImagesDir(dst, split) + [name], fs1.files[ImagesDir(src, split) + [name]]);
      ImagesAreNotLabels(dst, src, split, name, stem + ".txt");
      if fs2.FileExists(GetLabelPath(src, split, stem)) then
        fs2.WriteFile(GetLabelPath(dst, split, stem), fs2.files[GetLabelPath(src, split, stem)])
      else fs2
  }

  /** No file of a split's image or label directory of one dataset is a
      file of another dataset. */
  lemma DistinctTrees(src: Path, dst: Path, split: string, x: string, y: string)
    requires src != dst
    ensures ImagesDir(dst, split) + [x] != ImagesDir(src, split) + [y]
    ensures ImagesDir(dst, split) + [x] != LabelsDir(src, split) + [y]
    ensures LabelsDir(dst, split) + [x] != ImagesDir(src, split) + [y]
    ensures LabelsDir(dst, split) + [x] != LabelsDir(src, split) + [y]
  {
    if |src| == |dst| {
      assert (ImagesDir(dst, split) + [x])[..|dst|] == dst && (LabelsDir(dst, split) + [x])[..|dst|] == dst;
      assert (ImagesDir(src, split) + [y])[..|src|] == src && (LabelsDir(src, split) + [y])[..|src|] == src;
    }
  }

  /** Within one dataset the image and label directories share no file. */
  lemma ImagesAreNotLabels(a: Path, b: Path, split: string, x: string, y: string)
    ensures ImagesDir(a, split) + [x] != LabelsDir(b, split) + [y]
  {
    if |a| == |b| {
      assert (ImagesDir(a, split) + [x])[|a|] == "images";
      assert (LabelsDir(b, split) + [y])[|b|] == "labels";
    }
  }

  /** The copy leaves every file of the source's image and label
      directories as it was. */
  lemma CopyKeepsSources(fs: FileSystem, src: Path, dst: Path, split: string, stem: string, createDirectories: bool, y: string)
    requires src != dst
    ensures var once := CopyImageAndLabel(fs, src, dst, split, stem, createDirectories);
      var p := ImagesDir(src, split) + [y];
      (p in once.files <==> p in fs.files) && (p in fs.files ==> once.files[p] == fs.files[p])
    ensures var once := CopyImageAndLabel(fs, src, dst, split, stem, createDirectories);
      var p := LabelsDir(src, split) + [y];
      (p in once.files <==> p in fs.files) && (p in fs.files ==> once.files[p] == fs.files[p])
  {
    var once := CopyImageAndLabel(fs, src, dst, split, stem, createDirectories);
    match FindImage(fs, ImagesDir(src, split), stem)
    case None =>
    case Some(found) =>
      var dstImage := ImagesDir(dst, split) + [found];
      var srcLabel := GetLabelPath(src, split, stem);
      var dstLabel := GetLabelPath(dst, split, stem);
      DistinctTrees(src, dst, split, found, y);
      DistinctTrees(src, dst, split, stem + ".txt", y);
      var withImage := fs.files[dstImage := fs.files[ImagesDir(src, split) + [found]]];
      assert once.files == if srcLabel in fs.files then withImage[dstLabel := fs.files[srcLabel]] else withImage;
      TwoUpdatesKeep(fs.files, dstImage, fs.files[ImagesDir(src, split) + [found]], dstLabel,
                     if srcLabel in fs.files then fs.files[srcLabel] else fs.files[ImagesDir(src, split) + [found]],
                     srcLabel in fs.files, ImagesDir(src, split) + [y]);
      TwoUpdatesKeep(fs.files, dstImage, fs.files[ImagesDir(src, split) + [found]], dstLabel,
                     if srcLabel in fs.files then fs.files[srcLabel] else fs.files[ImagesDir(src, split) + [found]],
                     srcLabel in fs.files, LabelsDir(src, split) + [y]);
  }

  /** One or two map updates at other keys leave a key as it was. */
  lemma TwoUpdatesKeep<K, V>(m: map<K, V>, a: K, va: V, b: K, vb: V, both: bool, p: K)
    requires p != a && p != b
    ensures var r := if both then m[a := va][b := vb] else m[a := va];
      (p in r <==> p in m) && (p in m ==> r[p] == m[p])
  {
  }

  /** Updating a map with the value it already holds changes nothing. */
  lemma UpdateSame<K, V>(m: map<K, V>, k: K, v: V)
    requires k in m && m[k] == v
    ensures m[k := v] == m
  {
  }

  /** Copying an image and its label a second time changes nothing: the copy
      overwrites with the same contents. */
  lemma CopyImageAndLabelIdempotent(fs: FileSystem, src: Path, dst: Path, split: string, stem: string, createDirectories: bool)
    requires src != dst
    ensures var once := CopyImageAndLabel(fs, src, dst, split, stem, createDirectories);
      CopyImageAndLabel(once, src, dst, split, stem, createDirectories) == once
  {
    var once := CopyImageAndLabel(fs, src, dst, split, stem, createDirectories);
    var twice := CopyImageAndLabel(once, src, dst, split, stem, createDirectories);
    CopyTwiceSameFiles(fs, src, dst, split, stem, createDirectories);
    assert twice.dirs == once.dirs;
  }

  lemma CopyTwiceSameFiles(fs: FileSystem, src: Path, dst: Path, split: string, stem: string, createDirectories: bool)
    requires src != dst
    ensures var once := CopyImageAndLabel(fs, src, dst, split, stem, createDirectories);
      CopyImageAndLabel(once, src, dst, split, stem, createDirectories).files == once.files
  {
    var once := CopyImageAndLabel(fs, src, dst, split, stem, createDirectories);
    var srcImages := ImagesDir(src, split);
    var srcLabel := GetLabelPath(src, split, stem);
    forall k | 0 <= k < |ImageExtensions|
      ensures (srcImages + [stem + ImageExtensions[k]] in fs.files) == (srcImages + [stem + ImageExtensions[k]] in once.files)
    {
      CopyKeepsSources(fs, src, dst, split, stem, createDirectories, stem + ImageExtensions[k]);
    }
    FindImageSameFiles(fs, once, srcImages, stem);
    match FindImage(fs, srcImages, stem)
    case None =>
    case Some(found) =>
      CopyKeepsSources(fs, src, dst, split, stem, createDirectories, found);
      CopyKeepsSources(fs, src, dst, split, stem, createDirectories, stem + ".txt");
      CopyTargets(fs, src, dst, split, stem, createDirectories, found);
      CopyTwiceFound(once, src, dst, split, stem, createDirectories, found, once.files[srcImages + [found]]);
  }

  /** The second copy finds the same image and rewrites the values the first
      copy left. */
  lemma CopyTwiceFound(once: FileSystem, src: Path, dst: Path, split: string, stem: string, createDirectories: bool,
                       found: string, image: Content)
    requires FindImage(once, ImagesDir(src, split), stem) == Some(found)
    requires once.files[ImagesDir(src, split) + [found]] == image
    requires ImagesDir(dst, split) + [found] in once.files && once.files[ImagesDir(dst, split) + [found]] == image
    requires GetLabelPath(src, split, stem) in once.files ==>
      GetLabelPath(dst, split, stem) in once.files
      && once.files[GetLabelPath(dst, split, stem)] == once.files[GetLabelPath(src, split, stem)]
    ensures CopyImageAndLabel(once, src, dst, split, stem, createDirectories).files == once.files
  {
    var dstImage := ImagesDir(dst, split) + [found];
    var srcLabel := GetLabelPath(src, split, stem);
    var dstLabel := GetLabelPath(dst, split, stem);
    UpdateSame(once.files, dstImage, image);
    if srcLabel in once.files {
      UpdateSame(once.files, dstLabel, once.files[srcLabel]);
    }
  }

  /** After the copy the target image and label hold the source's contents. */
  lemma CopyTargets(fs: FileSystem, src: Path, dst: Path, split: string, stem: string, createDirectories: bool, found: string)
    requires FindImage(fs, ImagesDir(src, split), stem) == Some(found)
    ensures var once := CopyImageAndLabel(fs, src, dst, split, stem, createDirectories);
      && ImagesDir(dst, split) + [found] in once.files
      && once.files[ImagesDir(dst, split) + [found]] == fs.files[ImagesDir(src, split) + [found]]
      && (GetLabelPath(src, split, stem) in fs.files ==>
            GetLabelPath(dst, split, stem) in once.files
            && once.files[GetLabelPath(dst, split, stem)] == fs.files[GetLabelPath(src, split, stem)])
  {
    ImagesAreNotLabels(dst, dst, split, found, stem + ".txt");
  }

  lemma FindImageSameFiles(a: FileSystem, b: FileSystem, dir: Path, stem: string)
    requires forall k :: 0 <= k < |ImageExtensions| ==> (dir + [stem + ImageExtensions[k]] in a.files) == (dir + [stem + ImageExtensions[k]] in b.files)
    ensures FindImage(a, dir, stem) == FindImage(b, dir, stem)
  {
    var k := 0;
    while k < |ImageExtensions|
      invariant 0 <= k <= |ImageExtensions|
      invariant FindImageFrom(a, dir, stem, |ImageExtensions| - k) == FindImageFrom(b, dir, stem, |ImageExtensions| - k)
    {
      k := k + 1;
    }
  }
}

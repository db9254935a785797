/**
 * The filter of the dataset tools: the class list and the ids read back
 * from it, the class ids of a label file, the four class tests, and the
 * output dataset of the filtered images.
 */
module YoloDatasetFilter {
  import opened Text
  import opened Collections
  import opened Paths
  import opened YoloDatasetHelper
  import opened YoloDatasetTools

  /** The text of a class in the filter's class list: "<id>: <name>". */
  function ClassItemText(id: int, name: string): string
  {
    IntToString(id) + ": " + name
  }

  /** The class list of LoadClasses_Click, in ascending id order. */
  function ClassItems(classes: map<int, string>): (r: seq<string>)
    ensures |r| == |classes|
  {
    ItemsOf(SortedKeys(classes.Keys), classes)
  }

  /** The items of the given classes, in the order of the keys. */
  function ItemsOf(keys: seq<int>, classes: map<int, string>): (r: seq<string>)
    requires forall i :: 0 <= i < |keys| ==> keys[i] in classes
    ensures |r| == |keys| && forall i :: 0 <= i < |keys| ==> r[i] == ClassItemText(keys[i], classes[keys[i]])
  {
    seq(|keys|, i requires 0 <= i < |keys| => ClassItemText(keys[i], classes[keys[i]]))
  }

  /** The class id FilterDataset reads back from a selected item: the text
      before the first ':' trimmed and parsed; None where int.Parse throws. */
  function SelectedId(item: string): Option<int>
  {
    ParseInt32(Trim(Split(item, {':'})[0]))
  }

  /** Every item parsed in order; None when any of them fails. */
  function ParseAll<T>(items: seq<string>, parse: string -> Option<T>): (r: Option<seq<T>>)
    ensures r.Some? <==> forall i :: 0 <= i < |items| ==> parse(items[i]).Some?
    ensures r.Some? ==> |r.value| == |items| && forall i :: 0 <= i < |items| ==> r.value[i] == parse(items[i]).value
    decreases |items|
  {
    if items == [] then Some([])
    else
      var n := |items| - 1;
      var init := ParseAll(items[..n], parse);
      assert forall i :: 0 <= i < n ==> items[..n][i] == items[i];
      if init.None? || parse(items[n]).None? then None
      else Some(init.value + [parse(items[n]).value])
  }

  /** The class ids of the selected items, as FilterDataset collects them. */
  function SelectedIds(items: seq<string>): Option<seq<int>>
  {
    ParseAll(items, SelectedId)
  }

  /** Selecting an item of the class list gives back its 32-bit class id,
      whatever the class is called. */
  lemma ClassItemRoundTrip(id: int, name: string)
    requires IsInt32(id)
    ensures SelectedId(ClassItemText(id, name)) == Some(id)
  {
    var d := IntToString(id);
    assert forall x :: x in d ==> x == '-' || IsDigit(x) by {
      if id < 0 {
        assert forall i :: 1 <= i < |d| ==> d[i] == NatToString(-id)[i - 1];
      }
    }
    assert ClassItemText(id, name) == d + [':'] + (" " + name);
    SplitHead(d, ':', " " + name, {':'});
    TrimNoWhiteSpace(d);
    ParseIntToString(id);
  }

  /** The items of the class list select exactly the classes of the
      dataset, in ascending order. */
  lemma ClassItemsSelect(classes: map<int, string>)
    requires forall id :: id in classes ==> IsInt32(id)
    ensures SelectedIds(ClassItems(classes)) == Some(SortedKeys(classes.Keys))
  {
    var items := ClassItems(classes);
    var keys := SortedKeys(classes.Keys);
    ItemsSelect(classes, keys, items);
    ParseAllExact(items, SelectedId, keys);
  }

  lemma ParseAllExact<T>(items: seq<string>, parse: string -> Option<T>, values: seq<T>)
    requires |items| == |values| && forall i :: 0 <= i < |items| ==> parse(items[i]) == Some(values[i])
    ensures ParseAll(items, parse) == Some(values)
  {
    assert ParseAll(items, parse).value == values;
  }

  lemma ItemsSelect(classes: map<int, string>, keys: seq<int>, items: seq<string>)
    requires forall id :: id in classes ==> IsInt32(id)
    requires keys == SortedKeys(classes.Keys) && items == ClassItems(classes)
    ensures |items| == |keys| && forall i :: 0 <= i < |items| ==> SelectedId(items[i]) == Some(keys[i])
  {
    assert |classes| == |classes.Keys|;
    forall i | 0 <= i < |items| ensures SelectedId(items[i]) == Some(keys[i]) {
      ItemSelects(classes, keys, items, i);
    }
  }

  lemma ItemSelects(classes: map<int, string>, keys: seq<int>, items: seq<string>, i: nat)
    requires forall id :: id in classes ==> IsInt32(id)
    requires keys == SortedKeys(classes.Keys) && items == ClassItems(classes) && i < |items|
    ensures SelectedId(items[i]) == Some(keys[i])
  {
    assert keys[i] in classes.Keys;
    assert items[i] == ClassItemText(keys[i], classes[keys[i]]);
    ClassItemRoundTrip(keys[i], classes[keys[i]]);
  }

  /** The class id of a label line: the first piece between spaces and
      commas, when it parses; nothing for a blank line. */
  function LineClassId(line: string): Option<int>
  {
    if IsBlank(line) then None
    else
      var parts := SplitNonEmpty(line, {' ', ','});
      if |parts| > 0 then ParseInt32(parts[0]) else None
  }

  /** A YOLO line "<id> <x> <y> <w> <h>" gives its class id. */
  lemma LineClassIdOfYoloLine(id: int, rest: string)
    requires IsInt32(id)
    ensures LineClassId(IntToString(id) + " " + rest) == Some(id)
  {
    var d := IntToString(id);
    assert forall x :: x in d ==> x == '-' || IsDigit(x) by {
      if id < 0 {
        assert forall i :: 1 <= i < |d| ==> d[i] == NatToString(-id)[i - 1];
      }
    }
    assert IntToString(id) + " " + rest == d + [' '] + rest;
    SplitNonEmptyHead(d, ' ', rest, {' ', ','});
    assert !IsWhiteSpace(d[0]);
    assert !IsBlank(d + [' '] + rest) by { assert (d + [' '] + rest)[0] == d[0]; }
    ParseIntToString(id);
  }

  /** The class ids of a label file's lines. */
  function LabelClassIds(lines: seq<string>): set<int>
  {
    IdsGiven(lines, LineClassId)
  }

  /** The ids a line reader gives for the lines, read in order. */
  function IdsGiven(lines: seq<string>, read: string -> Option<int>): set<int>
    decreases |lines|
  {
    if lines == [] then {}
    else
      var n := |lines| - 1;
      var ids := IdsGiven(lines[..n], read);
      match read(lines[n])
      case None => ids
      case Some(id) => ids + {id}
  }

  /** A class id is in the set exactly when some line gives it. */
  lemma LabelClassIdsMembers(lines: seq<string>, id: int)
    ensures id in LabelClassIds(lines) <==> exists k :: 0 <= k < |lines| && LineClassId(lines[k]) == Some(id)
  {
    IdsGivenMembers(lines, LineClassId, id);
  }

  lemma {:induction false} IdsGivenMembers(lines: seq<string>, read: string -> Option<int>, id: int)
    ensures id in IdsGiven(lines, read) <==> exists k :: 0 <= k < |lines| && read(lines[k]) == Some(id)
  {
    if lines != [] {
      var n := |lines| - 1;
      IdsGivenMembers(lines[..n], read, id);
      if id in IdsGiven(lines[..n], read) {
        var k :| 0 <= k < n && read(lines[..n][k]) == Some(id);
        assert lines[..n][k] == lines[k];
      }
      if k :| 0 <= k < |lines| && read(lines[k]) == Some(id) {
        if k < n {
          assert lines[..n][k] == lines[k];
        }
      }
    }
  }

  /** GetImageClasses as a value: the class ids of the image's label file,
      none when it has none. */
  function ImageClassIds(fs: FileSystem, root: Path, split: string, stem: string): set<int>
  {
    var labelFile := GetLabelPath(root, split, stem);
    if labelFile in fs.files then LabelClassIds(ReadAllLines(fs.files[labelFile])) else {}
  }

  /** GetImageClasses: reads the label file line by line. */
  method GetImageClasses(fs: FileSystem, root: Path, split: string, stem: string) returns (classes: set<int>)
    ensures classes == ImageClassIds(fs, root, split, stem)
  {
    classes := {};
    var labelFile := GetLabelPath(root, split, stem);
    if labelFile !in fs.files {
      return;
    }
    var lines := ReadAllLines(fs.files[labelFile]);
    for k := 0 to |lines|
      invariant classes == LabelClassIds(lines[..k])
    {
      assert lines[..k + 1][..k] == lines[..k];
      if IsBlank(lines[k]) {
        continue;
      }
      var parts := SplitNonEmpty(lines[k], {' ', ','});
      if |parts| > 0 {
        var id := ParseInt32(parts[0]);
        if id.Some? {
          classes := classes + {id.value};
        }
      }
    }
    assert lines[..|lines|] == lines;
  }

  /** Whether some selected class is (present) or is not (!present) among
      the image's classes: LINQ's Any. */
  function AnySelected(selected: seq<int>, classes: set<int>, present: bool): (r: bool)
    ensures r <==> exists i :: 0 <= i < |selected| && (selected[i] in classes) == present
    decreases |selected|
  {
    if selected == [] then false
    else
      assert forall i :: 0 <= i < |selected| - 1 ==> selected[..|selected| - 1][i] == selected[i];
      AnySelected(selected[..|selected| - 1], classes, present) || (selected[|selected| - 1] in classes) == present
  }

  /** The four class tests of FilterDataset. */
  function ClassMatches(selected: seq<int>, classes: set<int>, and: bool, contains: bool): bool
  {
    if and then
      if contains then !AnySelected(selected, classes, false)
      else !AnySelected(selected, classes, true)
    else
      if contains then AnySelected(selected, classes, true)
      else AnySelected(selected, classes, false)
  }

  /** What the four tests mean as set relations between the selected
      classes S and the image's classes C: AND-contains is S <= C,
      AND-not-contains is S and C disjoint, OR-contains is S and C
      meeting, OR-not-contains is S not within C. */
  lemma ClassMatchesMeaning(selected: seq<int>, classes: set<int>, and: bool, contains: bool)
    ensures var sel := set i | 0 <= i < |selected| :: selected[i];
      ClassMatches(selected, classes, and, contains) == (
        if and && contains then sel <= classes
        else if and then sel * classes == {}
        else if contains then sel * classes != {}
        else !(sel <= classes))
  {
    AnyPresent(selected, classes);
    AnyAbsent(selected, classes);
  }

  /** Some selected class is present iff the selection meets the classes. */
  lemma AnyPresent(selected: seq<int>, classes: set<int>)
    ensures AnySelected(selected, classes, true) <==> (set i | 0 <= i < |selected| :: selected[i]) * classes != {}
  {
    var sel := set i | 0 <= i < |selected| :: selected[i];
    if sel * classes != {} {
      var x := Pick(sel * classes);
      var i :| 0 <= i < |selected| && selected[i] == x;
      assert (selected[i] in classes) == true;
    }
    if AnySelected(selected, classes, true) {
      var i :| 0 <= i < |selected| && selected[i] in classes;
      assert selected[i] in sel * classes;
    }
  }

  /** Some selected class is absent iff the selection is not within the
      classes. */
  lemma AnyAbsent(selected: seq<int>, classes: set<int>)
    ensures AnySelected(selected, classes, false) <==> !((set i | 0 <= i < |selected| :: selected[i]) <= classes)
  {
    var sel := set i | 0 <= i < |selected| :: selected[i];
    if !AnySelected(selected, classes, false) {
      forall x | x in sel ensures x in classes {
        var i :| 0 <= i < |selected| && selected[i] == x;
        assert (selected[i] in classes) != false;
      }
    }
    if AnySelected(selected, classes, false) {
      var i :| 0 <= i < |selected| && selected[i] !in classes;
      assert selected[i] in sel;
    }
  }

  /** The OR-not-contains test is the negation of AND-contains, and
      AND-not-contains is the negation of OR-contains; with no class
      selected every image matches the AND tests and none the OR tests. */
  lemma ClassMatchesDuality(selected: seq<int>, classes: set<int>)
    ensures ClassMatches(selected, classes, false, false) == !ClassMatches(selected, classes, true, true)
    ensures ClassMatches(selected, classes, true, false) == !ClassMatches(selected, classes, false, true)
    ensures selected == [] ==> forall contains :: ClassMatches(selected, classes, true, contains) && !ClassMatches(selected, classes, false, contains)
  {
  }

  /** The images of a split whose classes pass the test, in listing order. */
  function MatchingStems(fs: FileSystem, root: Path, split: string, images: seq<string>, selected: seq<int>, and: bool, contains: bool)
    : (r: seq<string>)
    ensures |r| <= |images|
    ensures forall stem :: stem in r <==> stem in images && ClassMatches(selected, ImageClassIds(fs, root, split, stem), and, contains)
    decreases |images|
  {
    if images == [] then []
    else
      var n := |images| - 1;
      var init := MatchingStems(fs, root, split, images[..n], selected, and, contains);
      assert images == images[..n] + [images[n]];
      if ClassMatches(selected, ImageClassIds(fs, root, split, images[n]), and, contains) then init + [images[n]] else init
  }

  /** The class filter's loop over a split's images. */
  method FilterByClass(fs: FileSystem, root: Path, split: string, images: seq<string>, selected: seq<int>, and: bool, contains: bool)
    returns (filtered: seq<string>)
    ensures filtered == MatchingStems(fs, root, split, images, selected, and, contains)
  {
    filtered := [];
    for i := 0 to |images|
      invariant filtered == MatchingStems(fs, root, split, images[..i], selected, and, contains)
    {
      assert images[..i + 1][..i] == images[..i];
      var imageClasses := GetImageClasses(fs, root, split, images[i]);
      var matches: bool;
      if and {
        if contains {
          matches := !AnySelected(selected, imageClasses, false);
        } else {
          matches := !AnySelected(selected, imageClasses, true);
        }
      } else {
        if contains {
          matches := AnySelected(selected, imageClasses, true);
        } else {
          matches := AnySelected(selected, imageClasses, false);
        }
      }
      if matches {
        filtered := filtered + [images[i]];
      }
    }
    assert images[..|images|] == images;
  }

  /** Which filter the radio buttons select; NoFilter copies nothing. */
  datatype FilterMode = ByClass(and: bool, contains: bool) | FirstN(n: int) | RandomN(n: int) | NoFilter

  /** The stems FilterDataset copies from split number j. */
  function FilteredStems(fs: FileSystem, root: Path, split: string, j: nat, images: seq<string>, mode: FilterMode, selected: seq<int>,
                         shuffle: (nat, seq<string>) -> seq<string>): seq<string>
  {
    match mode
    case ByClass(and, contains) => MatchingStems(fs, root, split, images, selected, and, contains)
    case FirstN(n) => Take(images, n)
    case RandomN(n) => Take(shuffle(j, images), n)
    case NoFilter => []
  }

  /** Every filter keeps listed images only; first-N keeps the first
      min(N, n) of them and random-N as many, none for N below one. */
  lemma FilteredStemsWithin(fs: FileSystem, root: Path, split: string, j: nat, images: seq<string>, mode: FilterMode, selected: seq<int>,
                            shuffle: (nat, seq<string>) -> seq<string>)
    requires IsShuffleFamily(shuffle)
    ensures forall stem :: stem in FilteredStems(fs, root, split, j, images, mode, selected, shuffle) ==> stem in images
    ensures mode.FirstN? ==> FilteredStems(fs, root, split, j, images, mode, selected, shuffle) == images[..if mode.n <= 0 then 0 else Min(mode.n, |images|)]
    ensures mode.RandomN? ==> |FilteredStems(fs, root, split, j, images, mode, selected, shuffle)| == if mode.n <= 0 then 0 else Min(mode.n, |images|)
  {
    if mode.RandomN? {
      SubsetSizes(images, shuffle(j, images), mode.n);
    }
  }

  /** The stems copied from every selected split. */
  function FilterStems(fs: FileSystem, root: Path, splits: seq<string>, images: seq<seq<string>>, mode: FilterMode, selected: seq<int>,
                       shuffle: (nat, seq<string>) -> seq<string>): (r: seq<seq<string>>)
    requires |images| == |splits|
    ensures |r| == |splits| && forall j :: 0 <= j < |splits| ==> r[j] == FilteredStems(fs, root, splits[j], j, images[j], mode, selected, shuffle)
  {
    seq(|splits|, j requires 0 <= j < |splits| => FilteredStems(fs, root, splits[j], j, images[j], mode, selected, shuffle))
  }

  /** FilterDataset: None where a selected item does not parse; otherwise
      the output dataset with the filtered images of every split. */
  function FilterDatasetOutcome(fs: FileSystem, input: Path, output: Path, includeTrain: bool, includeVal: bool, includeTest: bool,
                                mode: FilterMode, selectedItems: seq<string>, loadClasses: Path -> map<int, string>,
                                listing: Path -> seq<string>, shuffle: (nat, seq<string>) -> seq<string>): Option<FileSystem>
    requires ListingsOf(fs, input, SelectedSplits(includeTrain, includeVal, includeTest), listing)
  {
    var splits := SelectedSplits(includeTrain, includeVal, includeTest);
    match SelectedIds(selectedItems)
    case None => None
    case Some(selected) =>
      var stems := FilterStems(fs, input, splits, SplitImages(fs, input, splits, listing), mode, selected, shuffle);
      Some(ExportPart(fs, input, output, splits, loadClasses(input), JobsOfSplits(splits, stems)))
  }

  /** The selected items parsed one by one; None at the first that fails. */
  method ParseSelected(items: seq<string>) returns (r: Option<seq<int>>)
    ensures r == SelectedIds(items)
  {
    var selected: seq<int> := [];
    for i := 0 to |items|
      invariant SelectedIds(items[..i]) == Some(selected)
    {
      assert items[..i + 1][..i] == items[..i];
      var id := SelectedId(items[i]);
      if id.None? {
        assert !SelectedId(items[..i + 1][i]).Some?;
        return None;
      }
      selected := selected + [id.value];
    }
    assert items[..|items|] == items;
    r := Some(selected);
  }

  /** The images FilterDataset keeps from split number j. */
  method FilterSplit(fs: FileSystem, root: Path, split: string, j: nat, images: seq<string>, mode: FilterMode, selected: seq<int>,
                     shuffle: (nat, seq<string>) -> seq<string>) returns (filtered: seq<string>)
    ensures filtered == FilteredStems(fs, root, split, j, images, mode, selected, shuffle)
  {
    match mode {
      case ByClass(and, contains) =>
        filtered := FilterByClass(fs, root, split, images, selected, and, contains);
      case FirstN(n) =>
        filtered := Take(images, n);
      case RandomN(n) =>
        filtered := Take(shuffle(j, images), n);
      case NoFilter =>
        filtered := [];
    }
  }

  /** One round of the loop over the selected splits: list split number
      j, then filter it. */
  method FilterSplitAt(fs: FileSystem, root: Path, splits: seq<string>, j: nat, mode: FilterMode, selected: seq<int>,
                       listing: Path -> seq<string>, shuffle: (nat, seq<string>) -> seq<string>) returns (filtered: seq<string>)
    requires ListingsOf(fs, root, splits, listing) && j < |splits|
    ensures filtered == FilterStems(fs, root, splits, SplitImages(fs, root, splits, listing), mode, selected, shuffle)[j]
  {
    var listed := GetImagesFromSplit(fs, root, splits[j], listing(ImagesDir(root, splits[j])));
    filtered := FilterSplit(fs, root, splits[j], j, listed, mode, selected, shuffle);
  }

  /** The loop over the selected splits: list, then filter. */
  method FilterSplits(fs: FileSystem, root: Path, splits: seq<string>, mode: FilterMode, selected: seq<int>,
                      listing: Path -> seq<string>, shuffle: (nat, seq<string>) -> seq<string>) returns (stems: seq<seq<string>>)
    requires ListingsOf(fs, root, splits, listing)
    ensures stems == FilterStems(fs, root, splits, SplitImages(fs, root, splits, listing), mode, selected, shuffle)
  {
    ghost var all := FilterStems(fs, root, splits, SplitImages(fs, root, splits, listing), mode, selected, shuffle);
    stems := [];
    for j := 0 to |splits|
      invariant stems == all[..j]
    {
      var filtered := FilterSplitAt(fs, root, splits, j, mode, selected, listing, shuffle);
      TakeNext(all, j);
      stems := stems + [filtered];
    }
    assert all[..|splits|] == all;
  }

  /** The FilterDataset method. */
  method FilterDataset(fs: FileSystem, input: Path, output: Path, includeTrain: bool, includeVal: bool, includeTest: bool,
                       mode: FilterMode, selectedItems: seq<string>, loadClasses: Path -> map<int, string>,
                       listing: Path -> seq<string>, shuffle: (nat, seq<string>) -> seq<string>) returns (r: Option<FileSystem>)
    requires ListingsOf(fs, input, SelectedSplits(includeTrain, includeVal, includeTest), listing)
    ensures r == FilterDatasetOutcome(fs, input, output, includeTrain, includeVal, includeTest, mode, selectedItems, loadClasses, listing, shuffle)
  {
    var selected := ParseSelected(selectedItems);
    if selected.None? {
      return None;
    }
    var splits := SelectedSplits(includeTrain, includeVal, includeTest);
    var stems := FilterSplits(fs, input, splits, mode, selected.value, listing, shuffle);
    var jobs := CollectJobs(splits, stems);
    var written := ExportPartFiles(fs, input, output, splits, loadClasses(input), jobs);
    r := Some(written);
  }

  /** The (split, stem) pairs FilterDataset plans: a selected split and a
      stem that passes that split's filter. */
  lemma FilterJobs(splits: seq<string>, stems: seq<seq<string>>, job: Job)
    requires |stems| == |splits|
    ensures job in JobsOfSplits(splits, stems) <==> exists j :: 0 <= j < |splits| && splits[j] == job.split && job.stem in stems[j]
  {
    JobsOfSplitsMembers(splits, stems, job);
  }

  /** With the output apart from the input and the selection parsed,
      FilterDataset copies every planned image with its label. */
  lemma FilterDatasetCopies(fs: FileSystem, input: Path, output: Path, includeTrain: bool, includeVal: bool, includeTest: bool,
                            mode: FilterMode, selectedItems: seq<string>, loadClasses: Path -> map<int, string>,
                            listing: Path -> seq<string>, shuffle: (nat, seq<string>) -> seq<string>)
    requires ListingsOf(fs, input, SelectedSplits(includeTrain, includeVal, includeTest), listing)
    requires input != output
    requires SelectedIds(selectedItems).Some?
    ensures var splits := SelectedSplits(includeTrain, includeVal, includeTest);
      var stems := FilterStems(fs, input, splits, SplitImages(fs, input, splits, listing), mode, SelectedIds(selectedItems).value, shuffle);
      var r := FilterDatasetOutcome(fs, input, output, includeTrain, includeVal, includeTest, mode, selectedItems, loadClasses, listing, shuffle);
      r.Some? && forall job :: job in JobsOfSplits(splits, stems) ==> CopiedJob(fs, r.value, input, output, job)
  {
    var splits := SelectedSplits(includeTrain, includeVal, includeTest);
    var stems := FilterStems(fs, input, splits, SplitImages(fs, input, splits, listing), mode, SelectedIds(selectedItems).value, shuffle);
    var jobs := JobsOfSplits(splits, stems);
    assert FilterDatasetOutcome(fs, input, output, includeTrain, includeVal, includeTest, mode, selectedItems, loadClasses, listing, shuffle)
      == Some(ExportPart(fs, input, output, splits, loadClasses(input), jobs));
    ExportPartCopies(fs, input, output, splits, loadClasses(input), jobs);
  }
}

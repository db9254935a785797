/**
 * The dataset editor: reading YOLO label lines into annotations, the images'
 * annotation and class-id lists as the editor changes them (adding, deleting,
 * saving, reverting, switching images), the search filters, and the
 * statistics tab.  Drawing, mouse handling and dialogs are not modelled; the
 * answer to the "unsaved changes" prompt is a parameter.
 */
module DatasetEditor {
  import opened Text
  import opened Collections
  import opened Paths
  import opened DatasetModels
  import opened EditState

  // ---------------------------------------------------------------------
  // Label lines
  // ---------------------------------------------------------------------

  /** The fields of a label line: the trimmed line split at every single
      space, so two spaces in a row give an empty field. */
  function Fields(line: string): (r: seq<string>)
    ensures |r| >= 1
  {
    Split(Trim(line), {' '})
  }

  /** ParseYoloLabel: at least five fields, an int class id and four floats;
      fields after the fifth are ignored.  float.TryParse is the parameter
      `parseFloat`. */
  function ParseYoloLabel(line: string, parseFloat: string -> Option<real>): (r: Option<YoloLabel>)
    ensures r.Some? ==> IsInt32(r.value.classId) && |Fields(line)| >= 5
    ensures r.Some? ==> ParseInt32(Fields(line)[0]) == Some(r.value.classId)
  {
    var parts := Fields(line);
    if |parts| < 5 then None
    else
      var id := ParseInt32(parts[0]);
      var cx := parseFloat(parts[1]);
      var cy := parseFloat(parts[2]);
      var w := parseFloat(parts[3]);
      var h := parseFloat(parts[4]);
      if id.Some? && cx.Some? && cy.Some? && w.Some? && h.Some? then
        Some(YoloLabel(id.value, cx.value, cy.value, w.value, h.value))
      else None
  }

  /** A blank line holds no annotation. */
  lemma BlankLineRejected(line: string, parseFloat: string -> Option<real>)
    requires IsBlank(line)
    ensures ParseYoloLabel(line, parseFloat) == None
  {
    TrimShape(line);
  }

  /** Only the first five fields count: two lines that agree on them parse
      alike, whatever follows. */
  lemma FirstFiveFieldsDecide(a: string, b: string, parseFloat: string -> Option<real>)
    requires |Fields(a)| >= 5 && |Fields(b)| >= 5 && Fields(a)[..5] == Fields(b)[..5]
    ensures ParseYoloLabel(a, parseFloat) == ParseYoloLabel(b, parseFloat)
  {
    assert forall k :: 0 <= k < 5 ==> Fields(a)[k] == Fields(a)[..5][k];
    assert forall k :: 0 <= k < 5 ==> Fields(b)[k] == Fields(b)[..5][k];
  }

  /** Two spaces in a row after the class id make an empty second field,
      which float.TryParse rejects: "0  0.5 0.5 0.1 0.1" is no annotation. */
  lemma DoubleSpaceRejected(id: string, rest: string, parseFloat: string -> Option<real>)
    requires parseFloat("") == None
    requires id != [] && ' ' !in id && !IsWhiteSpace(id[0])
    requires rest != [] && !IsWhiteSpace(rest[|rest| - 1])
    ensures ParseYoloLabel(id + "  " + rest, parseFloat) == None
  {
    var line := id + "  " + rest;
    assert line[0] == id[0] && line[|line| - 1] == rest[|rest| - 1];
    TrimNonWhiteEnds(line);
    SplitPiece(id, ' ', " " + rest);
    SplitPiece("", ' ', rest);
    assert line == id + [' '] + (" " + rest);
    assert " " + rest == "" + [' '] + rest;
    assert Fields(line) == [id] + ([""] + Split(rest, {' '}));
    assert Fields(line)[1] == "";
  }

  /** A number text float.TryParse reads back as the number, free of white
      space (the "0.######" format is exact only for some values, so this is
      asked of each value written). */
  predicate FormatsBack(format: real -> string, parseFloat: string -> Option<real>, v: real)
  {
    format(v) != [] && (forall c :: c in format(v) ==> !IsWhiteSpace(c)) && parseFloat(format(v)) == Some(v)
  }

  predicate LabelFormatsBack(l: YoloLabel, format: real -> string, parseFloat: string -> Option<real>)
  {
    IsInt32(l.classId)
    && FormatsBack(format, parseFloat, l.centerX) && FormatsBack(format, parseFloat, l.centerY)
    && FormatsBack(format, parseFloat, l.width) && FormatsBack(format, parseFloat, l.height)
  }

  /** The fields SaveAnnotations writes for one annotation. */
  function LabelFields(l: YoloLabel, format: real -> string): (r: seq<string>)
    ensures |r| == 5 && r[0] == IntToString(l.classId)
  {
    [IntToString(l.classId), format(l.centerX), format(l.centerY), format(l.width), format(l.height)]
  }

  /** The line SaveAnnotations writes for one annotation: the class id and
      the four formatted numbers, separated by single spaces. */
  function LabelLine(l: YoloLabel, format: real -> string): string
  {
    IntToString(l.classId) + " " + format(l.centerX) + " " + format(l.centerY) + " "
    + format(l.width) + " " + format(l.height)
  }

  /** The written line is its five fields joined by single spaces. */
  lemma LabelLineJoin(l: YoloLabel, format: real -> string)
    ensures LabelLine(l, format) == Join(LabelFields(l, format), ' ')
  {
    var f := LabelFields(l, format);
    assert f[4..][1..] == [] && f[3..][1..] == f[4..] && f[2..][1..] == f[3..] && f[1..][1..] == f[2..];
    assert Join(f[3..], ' ') == f[3] + " " + f[4];
    assert Join(f[2..], ' ') == f[2] + " " + f[3] + " " + f[4];
    assert Join(f[1..], ' ') == f[1] + " " + f[2] + " " + f[3] + " " + f[4];
  }

  /** The written line starts with the class id and holds no line break. */
  lemma LabelLineShape(l: YoloLabel, format: real -> string, parseFloat: string -> Option<real>)
    requires LabelFormatsBack(l, format, parseFloat)
    ensures var line := LabelLine(l, format);
      line != [] && !IsWhiteSpace(line[0]) && !IsWhiteSpace(line[|line| - 1])
      && HasNoLineBreak(line)
      && forall k :: 0 <= k < 5 ==> ' ' !in LabelFields(l, format)[k]
  {
    var line := LabelLine(l, format);
    IntToStringChars(l.classId);
    var f := LabelFields(l, format);
    assert line[0] == f[0][0];
    assert line[|line| - 1] == format(l.height)[|format(l.height)| - 1];
    assert forall k, c :: 0 <= k < 5 && c in f[k] ==> !IsWhiteSpace(c);
    forall i | 0 <= i < |line| ensures !IsLineBreak(line[i]) {
      assert line[i] in line;
    }
  }

  /** Saving an annotation and reading the line back gives the annotation. */
  lemma LabelLineRoundTrip(l: YoloLabel, format: real -> string, parseFloat: string -> Option<real>)
    requires LabelFormatsBack(l, format, parseFloat)
    ensures ParseYoloLabel(LabelLine(l, format), parseFloat) == Some(l)
  {
    LabelLineShape(l, format, parseFloat);
    var line := LabelLine(l, format);
    TrimNonWhiteEnds(line);
    LabelLineJoin(l, format);
    SplitJoin(LabelFields(l, format), ' ');
    ParseIntToString(l.classId);
  }

  /** A line with more fields after the five still reads as the annotation. */
  lemma ExtraFieldsIgnored(l: YoloLabel, format: real -> string, parseFloat: string -> Option<real>, extra: string)
    requires LabelFormatsBack(l, format, parseFloat)
    requires extra != [] && !IsWhiteSpace(extra[|extra| - 1])
    ensures ParseYoloLabel(LabelLine(l, format) + " " + extra, parseFloat) == Some(l)
  {
    LabelLineShape(l, format, parseFloat);
    var line := LabelLine(l, format) + " " + extra;
    assert line[0] == LabelLine(l, format)[0];
    TrimNonWhiteEnds(line);
    LabelLineJoin(l, format);
    assert line == Join(LabelFields(l, format), ' ') + [' '] + extra;
    SplitJoinThen(LabelFields(l, format), ' ', extra);
    var f := Fields(line);
    assert f == LabelFields(l, format) + Split(extra, {' '});
    assert f[0] == IntToString(l.classId) && f[1] == format(l.centerX) && f[2] == format(l.centerY);
    assert f[3] == format(l.width) && f[4] == format(l.height);
    ParseIntToString(l.classId);
  }

  /** What one line of a label file contributes: nothing when it is blank
      or does not parse. */
  function LineLabels(line: string, parseFloat: string -> Option<real>): (r: seq<YoloLabel>)
    ensures |r| <= 1
  {
    if IsBlank(line) then []
    else match ParseYoloLabel(line, parseFloat)
      case Some(l) => [l]
      case None => []
  }

  /** The annotations read from a label file's lines, in order. */
  function LabelsOf(lines: seq<string>, parseFloat: string -> Option<real>): seq<YoloLabel>
  {
    FlatMap(lines, line => LineLabels(line, parseFloat))
  }

  lemma LineLabelsOfLabelLine(l: YoloLabel, format: real -> string, parseFloat: string -> Option<real>)
    requires LabelFormatsBack(l, format, parseFloat)
    ensures LineLabels(LabelLine(l, format), parseFloat) == [l]
  {
    LabelLineShape(l, format, parseFloat);
    LabelLineRoundTrip(l, format, parseFloat);
    assert !IsWhiteSpace(LabelLine(l, format)[0]);
  }

  /** The lines SaveAnnotations writes. */
  function LabelLines(labels: seq<YoloLabel>, format: real -> string): (r: seq<string>)
    ensures |r| == |labels| && forall i :: 0 <= i < |r| ==> r[i] == LabelLine(labels[i], format)
  {
    seq(|labels|, i requires 0 <= i < |labels| => LabelLine(labels[i], format))
  }

  lemma LabelsOfLabelLines(labels: seq<YoloLabel>, format: real -> string, parseFloat: string -> Option<real>)
    requires forall i :: 0 <= i < |labels| ==> LabelFormatsBack(labels[i], format, parseFloat)
    ensures LabelsOf(LabelLines(labels, format), parseFloat) == labels
  {
    var lines := LabelLines(labels, format);
    forall i | 0 <= i < |lines| ensures LineLabels(lines[i], parseFloat) == [labels[i]] {
      LineLabelsOfLabelLine(labels[i], format, parseFloat);
    }
    FlatMapSingles(lines, line => LineLabels(line, parseFloat), labels);
  }

  /** Saving the annotations to a label file and loading the file again
      gives the same annotations, in order. */
  lemma SaveLoadRoundTrip(labels: seq<YoloLabel>, format: real -> string, parseFloat: string -> Option<real>)
    requires forall i :: 0 <= i < |labels| ==> LabelFormatsBack(labels[i], format, parseFloat)
    ensures LabelsOf(ReadAllLines(WriteAllLines(LabelLines(labels, format))), parseFloat) == labels
  {
    forall k | 0 <= k < |labels| ensures HasNoLineBreak(LabelLines(labels, format)[k]) {
      LabelLineShape(labels[k], format, parseFloat);
    }
    ReadWriteLines(LabelLines(labels, format));
    LabelsOfLabelLines(labels, format, parseFloat);
  }

  // ---------------------------------------------------------------------
  // Loading an image and its labels
  // ---------------------------------------------------------------------

  /** The label file of an image: the labels folder joined with the image's
      file name without extension and ".txt". */
  function LabelPathFor(imageFile: string, labelsDir: string): string
  {
    Combine(labelsDir, Stem(FileName(imageFile)) + ".txt")
  }

  /** One step of LoadImagesFromFolder: an image whose label file is missing
      (`labelLines` is None) is skipped; otherwise its item holds the
      annotations read from the label file, their distinct class ids in
      order of first appearance, and the image's mark from the edit-state
      manager. */
  method LoadImageItem(imageFile: string, labelsDir: string, labelLines: Option<seq<string>>,
                       manager: EditStateManager, parseFloat: string -> Option<real>)
    returns (item: ImageItem?)
    ensures labelLines.None? ==> item == null
    ensures labelLines.Some? ==> item != null && fresh(item) && fresh(item.annotations) && fresh(item.classIds)
    ensures item != null ==> labelLines.Some?
    ensures item != null ==> item.fileName == FileName(imageFile) && item.filePath == imageFile
    ensures item != null ==> item.labelPath == LabelPathFor(imageFile, labelsDir)
    ensures item != null ==> item.annotations.items == LabelsOf(labelLines.value, parseFloat)
    ensures item != null ==> item.classIds.items == Distinct(ClassIdsOf(item.annotations.items))
    ensures item != null ==> item.isEdited == manager.IsEdited(FileName(imageFile))
  {
    if labelLines.None? {
      return null;
    }
    var labels := LabelsOf(labelLines.value, parseFloat);
    var edited := manager.IsEdited(FileName(imageFile));
    item := new ImageItem();
    item.fileName := FileName(imageFile);
    item.filePath := imageFile;
    item.labelPath := LabelPathFor(imageFile, labelsDir);
    item.annotations := new List.FromSeq(labels);
    item.classIds := new List.FromSeq(Distinct(ClassIdsOf(labels)));
    item.isEdited := edited;
  }

  // ---------------------------------------------------------------------
  // Annotations and class ids
  // ---------------------------------------------------------------------

  /** An image's ClassIds list is in step with its annotations: each class
      id of an annotation, once. */
  predicate InStep(labels: seq<YoloLabel>, ids: seq<int>)
  {
    NoDuplicates(ids)
    && (forall x :: x in ids ==> x in ClassIdsOf(labels))
    && (forall x :: x in ClassIdsOf(labels) ==> x in ids)
  }

  /** Loading and reverting build the ClassIds list in step. */
  lemma DistinctIdsInStep(labels: seq<YoloLabel>)
    ensures InStep(labels, Distinct(ClassIdsOf(labels)))
  {
  }

  /** The ClassIds list after adding an annotation of class `id`: the id is
      appended when it is not already there. */
  function WithClassId(ids: seq<int>, id: int): (r: seq<int>)
    ensures forall x :: x in r <==> x in ids || x == id
    ensures NoDuplicates(ids) ==> NoDuplicates(r)
  {
    if id in ids then ids else ids + [id]
  }

  /** Adding an annotation keeps the class ids in step. */
  lemma AddKeepsInStep(labels: seq<YoloLabel>, ids: seq<int>, l: YoloLabel)
    requires InStep(labels, ids)
    ensures InStep(labels + [l], WithClassId(ids, l.classId))
  {
    ClassIdsOfAppend(labels, l);
  }

  /** The ClassIds list after deleting an annotation of class `id`: the id
      goes only when no remaining annotation has it. */
  function AfterDelete(ids: seq<int>, remaining: seq<YoloLabel>, id: int): (r: seq<int>)
    ensures id in ClassIdsOf(remaining) ==> r == ids
    ensures id !in ClassIdsOf(remaining) ==> r == RemoveFirst(ids, id)
  {
    if id in ClassIdsOf(remaining) then ids else RemoveFirst(ids, id)
  }

  /** The class ids left after taking out annotation `k`: all of them,
      except perhaps the removed annotation's own. */
  lemma RemoveAtClassIds(labels: seq<YoloLabel>, k: nat, x: int)
    requires k < |labels|
    ensures x in ClassIdsOf(RemoveAt(labels, k)) ==> x in ClassIdsOf(labels)
    ensures x in ClassIdsOf(labels) && x != labels[k].classId ==> x in ClassIdsOf(RemoveAt(labels, k))
  {
    var rem := RemoveAt(labels, k);
    if x in ClassIdsOf(rem) {
      var i :| 0 <= i < |rem| && ClassIdsOf(rem)[i] == x;
      if i < k {
        assert ClassIdsOf(labels)[i] == x;
      } else {
        assert ClassIdsOf(labels)[i + 1] == x;
      }
    }
    if x in ClassIdsOf(labels) && x != labels[k].classId {
      var i :| 0 <= i < |labels| && ClassIdsOf(labels)[i] == x;
      if i < k {
        assert ClassIdsOf(rem)[i] == x;
      } else {
        assert ClassIdsOf(rem)[i - 1] == x;
      }
    }
  }

  /** Deleting an annotation keeps the class ids in step: its class id
      stays exactly when another annotation still has it. */
  lemma DeleteKeepsInStep(labels: seq<YoloLabel>, ids: seq<int>, k: nat)
    requires InStep(labels, ids) && k < |labels|
    ensures InStep(RemoveAt(labels, k), AfterDelete(ids, RemoveAt(labels, k), labels[k].classId))
  {
    var rem := RemoveAt(labels, k);
    var id := labels[k].classId;
    var r := AfterDelete(ids, rem, id);
    assert ClassIdsOf(labels)[k] == id;
    if id !in ClassIdsOf(rem) {
      RemoveFirstNoDuplicates(ids, id);
    }
    forall x ensures x in r <==> x in ClassIdsOf(rem) {
      RemoveAtClassIds(labels, k, x);
      assert x in ids <==> x in ClassIdsOf(labels);
    }
  }

  /** The answer to the "unsaved changes" prompt. */
  datatype Answer = Yes | No | Cancel

  /** The editor's state around the current image: the image shown, a copy
      of its annotations as they were when shown or last saved, and whether
      they have changed since. */
  class Editor {
    var currentImage: ImageItem?
    var originalAnnotations: seq<YoloLabel>
    var isDirty: bool

    constructor ()
      ensures currentImage == null && originalAnnotations == [] && !isDirty
    {
      currentImage := null;
      originalAnnotations := [];
      isDirty := false;
    }

    /** The objects the edits of the current image change. */
    function ImageFrame(): set<object>
      reads this, currentImage
    {
      if currentImage == null then {} else {currentImage as object, currentImage.annotations, currentImage.classIds}
    }

    /** DeepCopyAnnotations: a field-by-field copy of every annotation. */
    method DeepCopyAnnotations(annotations: List<YoloLabel>) returns (copy: seq<YoloLabel>)
      ensures copy == annotations.items
    {
      copy := [];
      for i := 0 to |annotations.items|
        invariant copy == annotations.items[..i]
      {
        var a := annotations.items[i];
        copy := copy + [YoloLabel(a.classId, a.centerX, a.centerY, a.width, a.height)];
      }
    }

    /** The end of creating a box: with an image shown, the annotation is
      appended, its class id is recorded and the editor is dirty. */
    method AddAnnotation(newLabel: YoloLabel)
      modifies this, ImageFrame()
      ensures currentImage == old(currentImage) && originalAnnotations == old(originalAnnotations)
      ensures currentImage == null ==> isDirty == old(isDirty)
      ensures currentImage != null ==>
        currentImage.annotations == old(currentImage.annotations) && currentImage.classIds == old(currentImage.classIds)
        && currentImage.annotations.items == old(currentImage.annotations.items) + [newLabel]
        && currentImage.classIds.items == WithClassId(old(currentImage.classIds.items), newLabel.classId)
        && isDirty
    {
      var image := currentImage;
      if image == null {
        return;
      }
      image.annotations.Add(newLabel);
      isDirty := true;
      if !image.classIds.Contains(newLabel.classId) {
        image.classIds.Add(newLabel.classId);
      }
    }

    /** DeleteSelectedAnnotation, the selection given as the index of the
      selected annotation: in edit mode, with a selection and an image
      shown, the annotation goes, its class id goes when no other annotation
      has it, and the editor is dirty; otherwise nothing changes. */
    method DeleteSelectedAnnotation(editMode: bool, selected: Option<nat>)
      requires currentImage != null && selected.Some? ==> selected.value < |currentImage.annotations.items|
      modifies this, ImageFrame()
      ensures currentImage == old(currentImage) && originalAnnotations == old(originalAnnotations)
      ensures currentImage != null ==>
        currentImage.annotations == old(currentImage.annotations) && currentImage.classIds == old(currentImage.classIds)
      ensures !(editMode && selected.Some? && currentImage != null) ==>
        isDirty == old(isDirty)
        && (currentImage != null ==>
          currentImage.annotations.items == old(currentImage.annotations.items)
          && currentImage.classIds.items == old(currentImage.classIds.items))
      ensures editMode && selected.Some? && currentImage != null ==>
        var k := selected.value;
        currentImage.annotations.items == RemoveAt(old(currentImage.annotations.items), k)
        && currentImage.classIds.items
           == AfterDelete(old(currentImage.classIds.items), currentImage.annotations.items, old(currentImage.annotations.items)[k].classId)
        && isDirty
    {
      var image := currentImage;
      if !editMode || selected.None? || image == null {
        return;
      }
      var k := selected.value;
      var labelToDelete := image.annotations.items[k];
      image.annotations.RemoveAtIndex(k);
      var stillExists := labelToDelete.classId in ClassIdsOf(image.annotations.items);
      if !stillExists {
        var _ := image.classIds.Remove(labelToDelete.classId);
      }
      isDirty := true;
    }

    /** RevertChanges: with an image shown, its annotations become the
      snapshot again, its ClassIds a new list of the snapshot's distinct
      class ids, and the editor is clean. */
    method RevertChanges()
      modifies this, ImageFrame()
      ensures currentImage == old(currentImage) && originalAnnotations == old(originalAnnotations)
      ensures currentImage == null ==> isDirty == old(isDirty)
      ensures currentImage != null ==>
        currentImage.annotations == old(currentImage.annotations)
        && currentImage.annotations.items == originalAnnotations
        && fresh(currentImage.classIds)
        && currentImage.classIds.items == Distinct(ClassIdsOf(originalAnnotations))
        && currentImage.changed == old(currentImage.changed) + ["ClassIds"]
        && !isDirty
    {
      var image := currentImage;
      if image == null {
        return;
      }
      var annotations := image.annotations;
      annotations.Clear();
      for i := 0 to |originalAnnotations|
        modifies annotations
        invariant annotations.items == originalAnnotations[..i]
      {
        annotations.Add(originalAnnotations[i]);
      }
      var ids := new List.FromSeq(Distinct(ClassIdsOf(originalAnnotations)));
      var _ := image.SetClassIds(ids);
      isDirty := false;
    }
  
    /** SaveAnnotations: with an image shown, writes one label line per
      annotation (`written`, None when nothing is written or the write
      fails), takes the saved annotations as the new snapshot, marks the
      image as edited when there is an edit-state manager, and leaves the
      editor clean.  A failing write changes nothing. */
    method SaveAnnotations(manager: EditStateManager?, format: real -> string, writeSucceeds: bool)
      returns (written: Option<seq<string>>)
      modifies this, currentImage, manager
      ensures currentImage == old(currentImage)
      ensures currentImage != null ==>
        currentImage.fileName == old(currentImage.fileName)
        && currentImage.annotations == old(currentImage.annotations)
        && currentImage.classIds == old(currentImage.classIds)
        && currentImage.changed == old(currentImage.changed)
      ensures currentImage == null || !writeSucceeds ==>
        written.None? && originalAnnotations == old(originalAnnotations) && isDirty == old(isDirty)
        && (currentImage != null ==> currentImage.isEdited == old(currentImage.isEdited))
        && (manager != null ==> manager.editedFiles == old(manager.editedFiles))
      ensures currentImage != null && writeSucceeds ==>
        written == Some(LabelLines(currentImage.annotations.items, format))
        && originalAnnotations == currentImage.annotations.items
        && !isDirty
        && (manager != null ==>
          manager.editedFiles == old(manager.editedFiles) + {FileName(currentImage.fileName)}
          && currentImage.isEdited)
        && (manager == null ==> currentImage.isEdited == old(currentImage.isEdited))
    {
      var image := currentImage;
      if image == null || !writeSucceeds {
        return None;
      }
      written := Some(LabelLines(image.annotations.items, format));
      originalAnnotations := DeepCopyAnnotations(image.annotations);
      if manager != null {
        manager.MarkAsEdited(image.fileName);
        image.isEdited := true;
      }
      isDirty := false;
    }

    /** DisplayMainImage: leaving an image with unsaved changes asks first;
      "yes" saves them, "no" reverts them and "cancel" stays on the image.
      Otherwise the new image is shown, clean, with a snapshot of its
      annotations. */
    method DisplayMainImage(imageItem: ImageItem, answer: Answer, manager: EditStateManager?,
                            format: real -> string, writeSucceeds: bool)
      returns (written: Option<seq<string>>)
      modifies this, ImageFrame(), manager
      ensures var asked := old(isDirty) && old(currentImage) != null && old(currentImage) != imageItem;
        (asked && answer == Cancel ==>
          currentImage == old(currentImage) && isDirty && originalAnnotations == old(originalAnnotations)
          && written.None?)
        && (!(asked && answer == Cancel) ==>
          currentImage == imageItem && !isDirty && originalAnnotations == imageItem.annotations.items)
        && (asked && answer == No ==>
          old(currentImage).annotations.items == old(originalAnnotations) && written.None?)
        && (asked && answer == Yes && writeSucceeds ==>
          written == Some(LabelLines(old(currentImage.annotations.items), format))
          && (manager != null ==> FileName(old(currentImage.fileName)) in manager.editedFiles))
        && (!asked ==> written.None?)
    {
      written := None;
      var previous := currentImage;
      if isDirty && previous != null && previous != imageItem {
        if answer == Yes {
          written := SaveAnnotations(manager, format, writeSucceeds);
        } else if answer == No {
          RevertChanges();
        } else {
          return;
        }
      }
      currentImage := imageItem;
      isDirty := false;
      originalAnnotations := DeepCopyAnnotations(imageItem.annotations);
    }
  }

  // ---------------------------------------------------------------------
  // Search filters
  // ---------------------------------------------------------------------

  /** FilterImages: with a search text, an image is shown when its file
      name, or the name of one of its classes, contains the text, ignoring
      case; without one, every image is shown. */
  predicate ImageMatches(fileName: string, classIds: seq<int>, classNames: map<int, string>, searchText: string)
  {
    searchText == []
    || Contains(Lower(fileName), Lower(searchText))
    || exists i :: 0 <= i < |classIds| && classIds[i] in classNames && Contains(Lower(classNames[classIds[i]]), Lower(searchText))
  }

  /** An image's own file name, or any piece of it, finds the image. */
  lemma FileNameFindsImage(fileName: string, classIds: seq<int>, classNames: map<int, string>, searchText: string)
    requires Contains(fileName, searchText)
    ensures ImageMatches(fileName, classIds, classNames, searchText)
  {
    ContainsLower(fileName, searchText);
  }

  /** The name of one of an image's classes finds the image. */
  lemma ClassNameFindsImage(fileName: string, classIds: seq<int>, classNames: map<int, string>, k: nat)
    requires k < |classIds| && classIds[k] in classNames
    ensures ImageMatches(fileName, classIds, classNames, classNames[classIds[k]])
  {
    ContainsTrivial(Lower(classNames[classIds[k]]));
  }

  /** Lower-casing both strings keeps the second outside the first when it
      was: a piece of the lower-cased text of a longer search. */
  lemma ContainsLowerPiece(s: string, t: string, u: string)
    requires Contains(Lower(s), Lower(t)) && Contains(t, u)
    ensures Contains(Lower(s), Lower(u))
  {
    ContainsLower(t, u);
    ContainsTransitive(Lower(s), Lower(t), Lower(u));
  }

  /** Narrowing: shortening the search text to a piece of it never hides an
      image that was shown. */
  lemma ImageFilterNarrowing(fileName: string, classIds: seq<int>, classNames: map<int, string>, searchText: string, piece: string)
    requires ImageMatches(fileName, classIds, classNames, searchText) && Contains(searchText, piece)
    ensures ImageMatches(fileName, classIds, classNames, piece)
  {
    if piece != [] && searchText != [] {
      if Contains(Lower(fileName), Lower(searchText)) {
        ContainsLowerPiece(fileName, searchText, piece);
      } else {
        var i :| 0 <= i < |classIds| && classIds[i] in classNames
          && Contains(Lower(classNames[classIds[i]]), Lower(searchText));
        ContainsLowerPiece(classNames[classIds[i]], searchText, piece);
      }
    }
  }

  /** The image search ignores case. */
  lemma ImageFilterIgnoresCase(fileName: string, classIds: seq<int>, classNames: map<int, string>, searchText: string)
    ensures ImageMatches(fileName, classIds, classNames, searchText) == ImageMatches(fileName, classIds, classNames, Lower(searchText))
  {
    LowerIdempotent(searchText);
  }

  /** FilterClasses: with a search text, a class is shown when its name
      contains the text, ignoring case, or its id's digits contain the
      lower-cased text; without one, every class is shown. */
  predicate ClassMatches(c: ClassItem, searchText: string)
  {
    searchText == []
    || Contains(Lower(c.name), Lower(searchText))
    || Contains(IntToString(c.classId), Lower(searchText))
  }

  /** A class is found by its own id and by its own name. */
  lemma ClassFoundByIdAndName(c: ClassItem)
    ensures ClassMatches(c, IntToString(c.classId))
    ensures ClassMatches(c, c.name)
  {
    var t := IntToString(c.classId);
    IntToStringChars(c.classId);
    assert Lower(t) == t;
    ContainsTrivial(t);
    ContainsTrivial(Lower(c.name));
  }

  /** Narrowing: a piece of the search text shows every class the text
      showed. */
  lemma ClassFilterNarrowing(c: ClassItem, searchText: string, piece: string)
    requires ClassMatches(c, searchText) && Contains(searchText, piece)
    ensures ClassMatches(c, piece)
  {
    if piece != [] && searchText != [] {
      if Contains(Lower(c.name), Lower(searchText)) {
        ContainsLowerPiece(c.name, searchText, piece);
      } else {
        ContainsLower(searchText, piece);
        ContainsTransitive(IntToString(c.classId), Lower(searchText), Lower(piece));
      }
    }
  }

  // ---------------------------------------------------------------------
  // Statistics
  // ---------------------------------------------------------------------

  /** The annotation lists of some images, in order. */
  function AnnotationLists(images: seq<ImageItem>): (r: seq<seq<YoloLabel>>)
    reads images, set i | 0 <= i < |images| :: images[i].annotations
    ensures |r| == |images| && forall i :: 0 <= i < |r| ==> r[i] == images[i].annotations.items
  {
    if images == [] then []
    else AnnotationLists(images[..|images| - 1]) + [images[|images| - 1].annotations.items]
  }

  /** The IsEdited flags of some images, in order. */
  function EditedFlags(images: seq<ImageItem>): (r: seq<bool>)
    reads images
    ensures |r| == |images| && forall i :: 0 <= i < |r| ==> r[i] == images[i].isEdited
  {
    seq(|images|, i requires 0 <= i < |images| reads images => images[i].isEdited)
  }

  /** The class ids of all annotations of all images, image by image. */
  function AllClassIds(lists: seq<seq<YoloLabel>>): seq<int>
  {
    FlatMap(lists, labels => ClassIdsOf(labels))
  }

  /** The number of annotations of all images. */
  function TotalAnnotations(lists: seq<seq<YoloLabel>>): nat
  {
    if lists == [] then 0 else TotalAnnotations(lists[..|lists| - 1]) + |lists[|lists| - 1]|
  }

  lemma {:induction false} AllClassIdsLength(lists: seq<seq<YoloLabel>>)
    ensures |AllClassIds(lists)| == TotalAnnotations(lists)
  {
    if lists != [] {
      AllClassIdsLength(lists[..|lists| - 1]);
    }
  }

  /** The number of images marked as edited. */
  function CountTrue(flags: seq<bool>): (n: nat)
    ensures n <= |flags|
  {
    if flags == [] then 0 else CountTrue(flags[..|flags| - 1]) + (if flags[|flags| - 1] then 1 else 0)
  }

  /** A (key, value) list of a dictionary in the order of the given keys. */
  function Pairs(keys: seq<int>, m: map<int, nat>): (r: seq<(int, nat)>)
    requires forall i :: 0 <= i < |keys| ==> keys[i] in m
    ensures |r| == |keys| && forall i :: 0 <= i < |r| ==> r[i] == (keys[i], m[keys[i]])
  {
    seq(|keys|, i requires 0 <= i < |keys| => (keys[i], m[keys[i]]))
  }

  /** The total of the counts of a (class id, count) list. */
  function SumCounts(pairs: seq<(int, nat)>): nat
  {
    if pairs == [] then 0 else pairs[0].1 + SumCounts(pairs[1..])
  }

  /** Without its first key, the list still names every remaining key of
      the dictionary once. */
  lemma DropFirstKey(keys: seq<int>, m: map<int, nat>)
    requires keys != [] && NoDuplicates(keys) && (forall i :: 0 <= i < |keys| ==> keys[i] in m)
    requires forall x :: x in m ==> x in keys
    ensures var rest := keys[1..]; var m' := m - {keys[0]};
      NoDuplicates(rest) && (forall i :: 0 <= i < |rest| ==> rest[i] in m') && (forall x :: x in m' ==> x in rest)
  {
    var k := keys[0];
    var rest := keys[1..];
    var m' := m - {k};
    assert forall i :: 0 <= i < |rest| ==> rest[i] == keys[i + 1] && rest[i] != k;
    forall x | x in m' ensures x in rest {
      var i :| 0 <= i < |keys| && keys[i] == x;
      assert i != 0 && rest[i - 1] == x;
    }
    forall i, j | 0 <= i < j < |rest| ensures rest[i] != rest[j] {
      assert keys[i + 1] != keys[j + 1];
    }
  }

  /** Listing every key of a dictionary once keeps the sum of its values. */
  lemma {:induction false} PairsSum(keys: seq<int>, m: map<int, nat>)
    requires NoDuplicates(keys) && (forall i :: 0 <= i < |keys| ==> keys[i] in m)
    requires forall x :: x in m ==> x in keys
    ensures SumCounts(Pairs(keys, m)) == SumValues(m)
  {
    if keys == [] {
      forall x ensures x !in m.Keys {
      }
      assert m.Keys == {};
    } else {
      var k := keys[0];
      DropFirstKey(keys, m);
      PairsSum(keys[1..], m - {k});
      assert Pairs(keys, m)[1..] == Pairs(keys[1..], m - {k});
      SumValuesRemove(m, k);
    }
  }

  /** The statistics tab: image, annotation, class and edited counts and
      the number of annotations per class id in ascending id order. */
  datatype Statistics = Statistics(
    totalImages: nat,
    totalAnnotations: nat,
    uniqueClasses: nat,
    editedImages: nat,
    distribution: seq<(int, nat)>)

  /** The annotations per class id of some images. */
  function Distribution(lists: seq<seq<YoloLabel>>): map<int, nat>
  {
    Tally(AllClassIds(lists))
  }

  function StatisticsOf(lists: seq<seq<YoloLabel>>, edited: seq<bool>, classCount: nat): Statistics
  {
    var dist := Distribution(lists);
    Statistics(|lists|, TotalAnnotations(lists), classCount, CountTrue(edited),
               Pairs(SortedKeys(dist.Keys), dist))
  }

  /** The distribution's counts add up to the number of annotations. */
  lemma DistributionSumsToTotal(lists: seq<seq<YoloLabel>>, edited: seq<bool>, classCount: nat)
    ensures SumCounts(StatisticsOf(lists, edited, classCount).distribution) == StatisticsOf(lists, edited, classCount).totalAnnotations
  {
    var dist := Distribution(lists);
    var keys := SortedKeys(dist.Keys);
    assert NoDuplicates(keys);
    PairsSum(keys, dist);
    TallySum(AllClassIds(lists));
    AllClassIdsLength(lists);
  }

  /** The distribution lists the class ids in strictly ascending order, each
      with the number of annotations of that class, and lists a class id
      exactly when some annotation has it. */
  lemma DistributionEntries(lists: seq<seq<YoloLabel>>, edited: seq<bool>, classCount: nat)
    ensures var d := StatisticsOf(lists, edited, classCount).distribution;
      (forall i, j :: 0 <= i < j < |d| ==> d[i].0 < d[j].0)
      && (forall i :: 0 <= i < |d| ==> d[i].1 == multiset(AllClassIds(lists))[d[i].0] && d[i].1 > 0)
      && (forall id :: id in AllClassIds(lists) ==> exists i :: 0 <= i < |d| && d[i].0 == id)
  {
    var ids := AllClassIds(lists);
    var m := Tally(ids);
    var keys := SortedKeys(m.Keys);
    CountedPairs(StatisticsOf(lists, edited, classCount).distribution, keys, m, ids);
  }

  /** A list of (key, count) pairs in strictly ascending key order, one for
      each counted value, with its count. */
  lemma CountedPairs(d: seq<(int, nat)>, keys: seq<int>, m: map<int, nat>, ids: seq<int>)
    requires |d| == |keys| && forall i :: 0 <= i < |d| ==> d[i].0 == keys[i] && keys[i] in m && d[i].1 == m[keys[i]]
    requires forall i, j :: 0 <= i < j < |keys| ==> keys[i] < keys[j]
    requires forall x :: x in keys <==> x in m
    requires forall x :: x in m <==> x in ids
    requires forall x :: x in m ==> m[x] == multiset(ids)[x]
    ensures forall i, j :: 0 <= i < j < |d| ==> d[i].0 < d[j].0
    ensures forall i :: 0 <= i < |d| ==> d[i].1 == multiset(ids)[d[i].0] && d[i].1 > 0
    ensures forall id :: id in ids ==> exists i :: 0 <= i < |d| && d[i].0 == id
  {
    forall i | 0 <= i < |d| ensures d[i].1 > 0 {
      assert keys[i] in ids;
    }
    forall id | id in ids ensures exists i :: 0 <= i < |d| && d[i].0 == id {
      assert id in keys;
      var i :| 0 <= i < |keys| && keys[i] == id;
      assert d[i].0 == id;
    }
  }

  /** The dictionary UpdateStatistics fills: the count of every class id,
      built one id at a time as its loop does. */
  function Counts(ids: seq<int>): map<int, nat>
  {
    if ids == [] then map[]
    else
      var m := Counts(ids[..|ids| - 1]);
      var id := ids[|ids| - 1];
      var m0 := if id in m then m else m[id := 0];
      m0[id := m0[id] + 1]
  }

  /** The dictionary is the tally of the ids. */
  lemma {:induction false} CountsIsTally(ids: seq<int>)
    ensures Counts(ids) == Tally(ids)
  {
    if ids != [] {
      var init := ids[..|ids| - 1];
      var id := ids[|ids| - 1];
      CountsIsTally(init);
      BumpIsIncrement(Counts(init), id);
    }
  }

  /** The two ways of adding one to a count agree. */
  lemma BumpIsIncrement(m: map<int, nat>, id: int)
    ensures var m0 := if id in m then m else m[id := 0];
      m0[id := m0[id] + 1] == m[id := (if id in m then m[id] else 0) + 1]
  {
  }

  /** One more annotation adds one to the count of its class id. */
  lemma DistributionStep(before: seq<int>, annotations: seq<YoloLabel>, j: nat)
    requires j < |annotations|
    ensures var m := Counts(before + ClassIdsOf(annotations[..j]));
      var id := annotations[j].classId;
      var m0 := if id in m then m else m[id := 0];
      Counts(before + ClassIdsOf(annotations[..j + 1])) == m0[id := m0[id] + 1]
  {
    assert annotations[..j + 1] == annotations[..j] + [annotations[j]];
    ClassIdsOfAppend(annotations[..j], annotations[j]);
    var s := before + ClassIdsOf(annotations[..j + 1]);
    assert s[..|s| - 1] == before + ClassIdsOf(annotations[..j]);
  }

  lemma AllClassIdsStep(lists: seq<seq<YoloLabel>>, i: nat)
    requires i < |lists|
    ensures AllClassIds(lists[..i + 1]) == AllClassIds(lists[..i]) + ClassIdsOf(lists[i])
  {
    assert lists[..i + 1][..i] == lists[..i];
  }

  /** The inner counting loop: every annotation of one image adds one to
      its class id's count. */
  method CountAnnotations(dist0: map<int, nat>, ghost before: seq<int>, annotations: seq<YoloLabel>) returns (dist: map<int, nat>)
    requires dist0 == Counts(before)
    ensures dist == Counts(before + ClassIdsOf(annotations))
  {
    dist := dist0;
    assert before + ClassIdsOf(annotations[..0]) == before;
    for j := 0 to |annotations|
      invariant dist == Counts(before + ClassIdsOf(annotations[..j]))
    {
      var id := annotations[j].classId;
      DistributionStep(before, annotations, j);
      if id !in dist {
        dist := dist[id := 0];
      }
      dist := dist[id := dist[id] + 1];
    }
    assert annotations[..|annotations|] == annotations;
  }

  /** UpdateStatistics' counting loops: every annotation of every image adds
      one to its class id's count. */
  method ClassDistribution(images: seq<ImageItem>) returns (dist: map<int, nat>)
    ensures dist == Distribution(AnnotationLists(images))
  {
    ghost var lists := AnnotationLists(images);
    dist := map[];
    for i := 0 to |images|
      invariant dist == Counts(AllClassIds(lists[..i]))
    {
      assert lists[i] == images[i].annotations.items;
      dist := CountAnnotations(dist, AllClassIds(lists[..i]), images[i].annotations.items);
      AllClassIdsStep(lists, i);
    }
    assert lists[..|images|] == lists;
    CountsIsTally(AllClassIds(lists));
  }

  /** UpdateStatistics: the figures of the statistics tab for the loaded
      images; the number of classes is that of the class dictionary. */
  method UpdateStatistics(images: seq<ImageItem>, classCount: nat) returns (stats: Statistics)
    ensures stats == StatisticsOf(AnnotationLists(images), EditedFlags(images), classCount)
  {
    var dist := ClassDistribution(images);
    var lists := AnnotationLists(images);
    stats := Statistics(|images|, TotalAnnotations(lists), classCount, CountTrue(EditedFlags(images)),
                        Pairs(SortedKeys(dist.Keys), dist));
  }
}

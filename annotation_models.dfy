/**
 * The OCR annotator's item types: ImageAnnotation (one image and its
 * recognised text) and AnnotationDataSet (the images of one folder, the
 * selected one, and the folder itself).  Both always notify from their
 * setters, whether or not the value changes; `changed` lists the
 * PropertyChanged notifications raised, in order.  A string property that
 * can be null is an Option; the file name and full path, which every
 * annotation the annotator creates has, are plain strings.
 */
module AnnotationModels {
  import opened Text
  import opened Collections
  import opened Paths

  /** HasLabel: the text is neither null, empty nor white space only. */
  predicate HasLabelText(text: Option<string>)
  {
    text.Some? && !IsBlank(text.value)
  }

  /** A text has a label exactly when trimming it leaves something. */
  lemma HasLabelIsTrimmedText(text: Option<string>)
    ensures HasLabelText(text) <==> text.Some? && Trim(text.value) != ""
  {
    if text.Some? {
      TrimShape(text.value);
    }
  }

  class ImageAnnotation {
    var filename: string
    var text: Option<string>
    var fullPath: string
    var changed: seq<string>
    /** The number of TextChanged events raised. */
    var textChangedEvents: nat

    constructor ()
      ensures filename == "" && text == None && fullPath == ""
      ensures changed == [] && textChangedEvents == 0
      ensures !HasLabel()
    {
      filename := "";
      text := None;
      fullPath := "";
      changed := [];
      textChangedEvents := 0;
    }

    predicate HasLabel()
      reads this
    {
      HasLabelText(text)
    }

    method SetFilename(value: string)
      modifies this
      ensures filename == value && changed == old(changed) + ["Filename"]
      ensures text == old(text) && fullPath == old(fullPath) && textChangedEvents == old(textChangedEvents)
    {
      filename := value;
      changed := changed + ["Filename"];
    }

    /** Setting the text notifies Text and HasLabel and raises TextChanged,
        also when the value is the one already held. */
    method SetText(value: Option<string>)
      modifies this
      ensures text == value && changed == old(changed) + ["Text", "HasLabel"]
      ensures textChangedEvents == old(textChangedEvents) + 1
      ensures filename == old(filename) && fullPath == old(fullPath)
      ensures HasLabel() <==> HasLabelText(value)
    {
      text := value;
      changed := changed + ["Text", "HasLabel"];
      textChangedEvents := textChangedEvents + 1;
    }

    method SetFullPath(value: string)
      modifies this
      ensures fullPath == value && changed == old(changed) + ["FullPath"]
      ensures filename == old(filename) && text == old(text) && textChangedEvents == old(textChangedEvents)
    {
      fullPath := value;
      changed := changed + ["FullPath"];
    }
  }

  /** The name of the labels file of a folder. */
  const LabelsFileName: string := "labels.txt"

  class AnnotationDataSet {
    /** The ObservableCollection, which the annotator fills and clears in
        place; its collection-changed events are not modelled. */
    var annotations: seq<ImageAnnotation>
    var selected: ImageAnnotation?
    var folderPath: Option<string>
    var changed: seq<string>

    /** A new data set holds an empty collection, set through the notifying
        Annotations setter. */
    constructor ()
      ensures annotations == [] && selected == null && folderPath == None
      ensures changed == ["Annotations"]
      ensures LabelsFilePath() == None
    {
      annotations := [];
      selected := null;
      folderPath := None;
      changed := ["Annotations"];
    }

    method SetSelectedAnnotation(value: ImageAnnotation?)
      modifies this
      ensures selected == value && changed == old(changed) + ["SelectedAnnotation"]
      ensures annotations == old(annotations) && folderPath == old(folderPath)
    {
      selected := value;
      changed := changed + ["SelectedAnnotation"];
    }

    method SetFolderPath(value: Option<string>)
      modifies this
      ensures folderPath == value && changed == old(changed) + ["FolderPath"]
      ensures annotations == old(annotations) && selected == old(selected)
    {
      folderPath := value;
      changed := changed + ["FolderPath"];
    }

    method ClearAnnotations()
      modifies this
      ensures annotations == []
      ensures selected == old(selected) && folderPath == old(folderPath) && changed == old(changed)
    {
      annotations := [];
    }

    method AddAnnotation(a: ImageAnnotation)
      modifies this
      ensures annotations == old(annotations) + [a]
      ensures selected == old(selected) && folderPath == old(folderPath) && changed == old(changed)
    {
      annotations := annotations + [a];
    }

    /** Whether a folder is set: FolderPath is neither null nor empty. */
    predicate HasFolder()
      reads this
    {
      folderPath.Some? && folderPath.value != ""
    }

    /** LabelsFilePath: labels.txt in the folder, and null when no folder is
        set. */
    function LabelsFilePath(): (r: Option<string>)
      reads this
      ensures r.Some? <==> HasFolder()
      ensures r.Some? ==> FileName(r.value) == LabelsFileName
    {
      if HasFolder() then
        FileNameOfCombine(folderPath.value, LabelsFileName);
        Some(Combine(folderPath.value, LabelsFileName))
      else None
    }

    /** Annotations.IndexOf(a): by reference, -1 when absent. */
    function IndexOf(a: ImageAnnotation?): (i: int)
      reads this
      ensures -1 <= i < |annotations|
      ensures i == -1 <==> a !in annotations
      ensures 0 <= i ==> annotations[i] == a && a !in annotations[..i]
    {
      FirstIndex<ImageAnnotation?>(annotations, a)
    }
  }
}

# YoloAnnotationEditor: a verified model of the editor's bookkeeping

YoloAnnotationEditor is a WPF desktop tool for preparing training data. It edits YOLO object-detection datasets: images under `images/<split>`, one label file per image under `labels/<split>`, and a `dataset.yaml` with the class registry. It also prepares PaddleOCR text-recognition datasets: a folder of images with a `labels.txt` of `"<file name> <text>"` lines. This project models the deterministic logic inside its controls and helpers, and proves what that logic promises.

One Dafny module per source file, plus three shared ones:

| module | file | models |
|---|---|---|
| `Text` | `text.dfy` | the .NET string behaviour the editor relies on: white space, Trim, Split, ToLowerInvariant, int formatting and parsing, ReadAllLines/WriteAllLines |
| `Collections` | `collections.dfy` | the LINQ idioms: counting into a dictionary, Skip/Take, Distinct, the stable OrderBy, ordered dictionary keys, paging |
| `Paths` | `paths.dfy` | file names, extensions, and the file system as a value (files with contents, directories) with Directory.CreateDirectory, File.Copy, File.Move and writes |
| `YoloDatasetHelper` | `yolo_dataset_helper.dfy` | `Helpers/YoloDatasetHelper.cs`: dataset layout, split listings, label counting, coordinate validation, `dataset.yaml`, image lookup and copying |
| `YoloBulkCopy` | `bulk_copy.dfy` | `CopyImageAndLabelWithRobocopyAsync`: the copy plan, batches of 1000, exit codes, both fallbacks |
| `YoloDatasetTools` | `yolo_dataset_tools.dfy` | `YoloDatasetToolsControl.xaml.cs`: merging datasets, splitting them into parts, by count or into a subset |
| `YoloDatasetFilter` | `yolo_dataset_filter.dfy` | `YoloDatasetToolsControl.xaml.cs`: the filter tab (class list, class tests, first-N, random-N) |
| `EditState` | `edit_state.dfy` | `EditStateManager.cs`: the set of edited file names |
| `DatasetEditor` | `dataset_editor.dfy` | `DatasetEditor.xaml.cs`: label parsing, the annotation and class-id lists, the search filters, the statistics |
| `DatasetModels` | `dataset_models.dfy` | `Models/DatasetModels.cs`: ImageItem, YoloLabel, ClassItem, and in-place lists |
| `YoloDatasetModels` | `yolo_dataset_models.dfy` | `Models/YoloDatasetModels.cs`: validation results, statistics, comparisons |
| `AnnotationModels` | `annotation_models.dfy` | `Models/ImageAnnotation.cs`: ImageAnnotation and AnnotationDataSet |
| `OcrAnnotation` | `ocr_annotation.dfy` | `OCRAnnotationControl.xaml.cs`: numbering, renaming, the labels.txt codec, navigation and counts |
| `OcrDatasetTools` | `ocr_dataset_tools.dfy` | `DatasetToolsControl.xaml.cs`: the TRDG conversion, merging, character sets, dictionaries and analysis |
| `YamlEditor` | `yaml_editor.dfy` | `YamlEditorControl.xaml.cs`: the class registry editor and its saves |

The model renders the code in two ways:
- Code that changes objects in place becomes classes with `modifies` clauses. This covers the notifying model types, the edit-state manager, the editor's lists, the YAML editor and the OCR annotator.
- The loops become methods. Each method is proved equal to a specification function, and the promised properties are proved about those functions as lemmas.

Values the program gets from outside are parameters:
- file contents, directory listings and whether files exist;
- the answers to prompts;
- float parsing and formatting;
- the culture's string order;
- random shuffles;
- the external copy tool.

Where the code and its comments disagree, the model follows the code.

## Model

| member | source | states |
|---|---|---|
| AnnotationModels.HasLabelIsTrimmedText | YoloAnnotationEditor/YoloAnnotationEditor/Models/ImageAnnotation.cs:48 | HasLabel holds exactly when the text is non-null and trimming it leaves a non-empty string |
| AnnotationModels.ImageAnnotation.constructor | YoloAnnotationEditor/YoloAnnotationEditor/Models/ImageAnnotation.cs:10-14 | a new annotation has no text, so it has no label, and no notification has been raised |
| AnnotationModels.ImageAnnotation.SetFilename | YoloAnnotationEditor/YoloAnnotationEditor/Models/ImageAnnotation.cs:16-24 | the setter stores the name and notifies Filename; text and full path are unchanged |
| AnnotationModels.ImageAnnotation.SetText | YoloAnnotationEditor/YoloAnnotationEditor/Models/ImageAnnotation.cs:26-36 | the setter stores the text and notifies Text and HasLabel; TextChanged fires on every set, even for an equal value; HasLabel then reflects the new text |
| AnnotationModels.ImageAnnotation.SetFullPath | YoloAnnotationEditor/YoloAnnotationEditor/Models/ImageAnnotation.cs:38-46 | the setter stores the path and notifies FullPath; the other fields are unchanged |
| AnnotationModels.AnnotationDataSet.constructor | YoloAnnotationEditor/YoloAnnotationEditor/Models/ImageAnnotation.cs:97-100 | a new data set has an empty annotation list, no selection and no folder, so LabelsFilePath is null; only the Annotations setter has notified |
| AnnotationModels.AnnotationDataSet.SetSelectedAnnotation | YoloAnnotationEditor/YoloAnnotationEditor/Models/ImageAnnotation.cs:75-83 | the setter stores the selection and notifies; the list and folder are unchanged |
| AnnotationModels.AnnotationDataSet.SetFolderPath | YoloAnnotationEditor/YoloAnnotationEditor/Models/ImageAnnotation.cs:85-93 | the setter stores the folder and notifies; the list and selection are unchanged |
| AnnotationModels.AnnotationDataSet.ClearAnnotations | YoloAnnotationEditor/YoloAnnotationEditor/OCRAnnotationControl.xaml.cs:325 | Annotations.Clear() empties the collection and touches nothing else |
| AnnotationModels.AnnotationDataSet.AddAnnotation | YoloAnnotationEditor/YoloAnnotationEditor/OCRAnnotationControl.xaml.cs:326-338 | Annotations.Add appends exactly one item at the end |
| AnnotationModels.AnnotationDataSet.LabelsFilePath | YoloAnnotationEditor/YoloAnnotationEditor/Models/ImageAnnotation.cs:95 | the path is null exactly when FolderPath is null or empty; otherwise its file name is labels.txt inside the folder |
| AnnotationModels.AnnotationDataSet.IndexOf | YoloAnnotationEditor/YoloAnnotationEditor/OCRAnnotationControl.xaml.cs:396-409 | the index is -1 exactly when the item is absent; otherwise the item is at that index and at no earlier one, the first occurrence (comparison by reference) |
| DatasetModels.ClassIdsOf | YoloAnnotationEditor/YoloAnnotationEditor/DatasetEditor.xaml.cs:1188 | the class ids of the annotations, one per annotation, in order |
| DatasetModels.RemoveFirst | YoloAnnotationEditor/YoloAnnotationEditor/DatasetEditor.xaml.cs:395 | List.Remove drops one occurrence (one fewer element, multiset minus that element) when present and changes nothing otherwise |
| DatasetModels.RemoveFirstNoDuplicates | YoloAnnotationEditor/YoloAnnotationEditor/DatasetEditor.xaml.cs:395 | removing from a duplicate-free ClassIds list leaves it duplicate-free, with every other id still present |
| DatasetModels.RemoveAt | YoloAnnotationEditor/YoloAnnotationEditor/DatasetEditor.xaml.cs:389 | removing the selected label object (found by reference at position k) keeps the elements before k and shifts the later ones down by one |
| DatasetModels.RemoveAtMultiset | YoloAnnotationEditor/YoloAnnotationEditor/DatasetEditor.xaml.cs:389 | RemoveAt removes exactly the one element at k from the multiset of elements |
| DatasetModels.List.Add | YoloAnnotationEditor/YoloAnnotationEditor/DatasetEditor.xaml.cs:569-576 | List.Add appends the element at the end |
| DatasetModels.List.Remove | YoloAnnotationEditor/YoloAnnotationEditor/DatasetEditor.xaml.cs:395 | List.Remove removes the first occurrence and reports whether the element was present |
| DatasetModels.List.RemoveAtIndex | YoloAnnotationEditor/YoloAnnotationEditor/DatasetEditor.xaml.cs:389 | removing the label at position k is RemoveAt on the list's contents |
| DatasetModels.List.Clear | YoloAnnotationEditor/YoloAnnotationEditor/DatasetEditor.xaml.cs:844 | List.Clear leaves the list empty |
| DatasetModels.ImageItem.constructor | YoloAnnotationEditor/YoloAnnotationEditor/Models/DatasetModels.cs:15-20 | a new item holds two fresh, empty Annotations and ClassIds lists and has raised no notification |
| DatasetModels.ImageItem.SetFileName | YoloAnnotationEditor/YoloAnnotationEditor/Models/DatasetModels.cs:22-73 | SetProperty returns false and notifies nothing for an equal value; otherwise it stores the value, notifies FileName and returns true; no other field changes |
| DatasetModels.ImageItem.SetFilePath | YoloAnnotationEditor/YoloAnnotationEditor/Models/DatasetModels.cs:28-73 | SetProperty on FilePath: same rule, and only FilePath changes |
| DatasetModels.ImageItem.SetLabelPath | YoloAnnotationEditor/YoloAnnotationEditor/Models/DatasetModels.cs:34-73 | SetProperty on LabelPath: same rule, and only LabelPath changes |
| DatasetModels.ImageItem.SetAnnotations | YoloAnnotationEditor/YoloAnnotationEditor/Models/DatasetModels.cs:46-73 | SetProperty on Annotations compares lists by reference; only Annotations changes |
| DatasetModels.ImageItem.SetClassIds | YoloAnnotationEditor/YoloAnnotationEditor/Models/DatasetModels.cs:52-73 | SetProperty on ClassIds compares lists by reference; only ClassIds changes |
| DatasetModels.DisplayName | YoloAnnotationEditor/YoloAnnotationEditor/Models/DatasetModels.cs:90 | "{ClassId}: {Name}": splitting at the first ':' gives back the id's text and " " + name |
| DatasetModels.IntToStringInjective | YoloAnnotationEditor/YoloAnnotationEditor/Models/DatasetModels.cs:90 | different class ids print differently |
| DatasetModels.DisplayNameInjective | YoloAnnotationEditor/YoloAnnotationEditor/Models/DatasetModels.cs:90 | the display name determines both the class id and the name |
| YoloDatasetModels.IssueTypeValue | YoloAnnotationEditor/YoloAnnotationEditor/Models/YoloDatasetModels.cs:95-105 | each issue type's value is its position among the 8 declared members |
| YoloDatasetModels.IssueTypeOf | YoloAnnotationEditor/YoloAnnotationEditor/Models/YoloDatasetModels.cs:95-105 | every value 0..7 names the issue type with that value |
| YoloDatasetModels.IssueTypeRoundTrip | YoloAnnotationEditor/YoloAnnotationEditor/Models/YoloDatasetModels.cs:95-105 | the issue types have distinct values |
| YoloDatasetModels.CategoryValue | YoloAnnotationEditor/YoloAnnotationEditor/Models/YoloDatasetModels.cs:107-116 | each category's value is its position among the 7 members; only Fine has value 0, the enum default |
| YoloDatasetModels.CategoryOf | YoloAnnotationEditor/YoloAnnotationEditor/Models/YoloDatasetModels.cs:107-116 | every value 0..6 names the category with that value |
| YoloDatasetModels.CategoryRoundTrip | YoloAnnotationEditor/YoloAnnotationEditor/Models/YoloDatasetModels.cs:107-116 | the categories have distinct values |
| YoloDatasetModels.ValidationResult.constructor | YoloAnnotationEditor/YoloAnnotationEditor/Models/YoloDatasetModels.cs:79-86 | a new result has no issues, category Fine (value 0) and is valid |
| YoloDatasetModels.Wrap32 | YoloAnnotationEditor/YoloAnnotationEditor/Models/YoloDatasetModels.cs:187 | C# int subtraction: the result is a 32-bit int congruent to the exact value, and equal to it when that fits |
| YoloDatasetModels.Difference | YoloAnnotationEditor/YoloAnnotationEditor/Models/YoloDatasetModels.cs:187 | Difference is Dataset2Count minus Dataset1Count as a 32-bit int, exact when no overflow occurs |
| YoloDatasetModels.SwapNegatesDifference | YoloAnnotationEditor/YoloAnnotationEditor/Models/YoloDatasetModels.cs:187 | for non-negative counts, swapping the two counts negates Difference |
| YoloDatasetModels.PercentageDifference | YoloAnnotationEditor/YoloAnnotationEditor/Models/YoloDatasetModels.cs:188 | the percentage is 0 when Dataset1Count is not positive; otherwise percentage times Dataset1Count equals Difference times 100 |
| YoloDatasetModels.PercentageSign | YoloAnnotationEditor/YoloAnnotationEditor/Models/YoloDatasetModels.cs:187-188 | with a positive first count the percentage has the sign of Difference, and equal counts give 0 |
| YoloDatasetModels.ClassStatistics.constructor | YoloAnnotationEditor/YoloAnnotationEditor/Models/YoloDatasetModels.cs:21-27 | a new statistics object has ClassId, InstanceCount, ImageCount and Percentage 0, a null ClassName, and has raised no notification |
| YoloDatasetModels.ClassStatistics.SetClassId | YoloAnnotationEditor/YoloAnnotationEditor/Models/YoloDatasetModels.cs:29-76 | SetProperty: an equal value returns false, is not stored and is not notified; a different one is stored, notified and returns true; no other field changes |
| YoloDatasetModels.ClassStatistics.SetClassName | YoloAnnotationEditor/YoloAnnotationEditor/Models/YoloDatasetModels.cs:35-76 | SetProperty on ClassName, same rule, where the first name set, even "", differs from the initial null |
| YoloDatasetModels.ClassStatistics.SetInstanceCount | YoloAnnotationEditor/YoloAnnotationEditor/Models/YoloDatasetModels.cs:41-76 | SetProperty on InstanceCount, same rule |
| YoloDatasetModels.ClassStatistics.SetImageCount | YoloAnnotationEditor/YoloAnnotationEditor/Models/YoloDatasetModels.cs:47-76 | SetProperty on ImageCount, same rule |
| YoloDatasetModels.ClassStatistics.SetPercentage | YoloAnnotationEditor/YoloAnnotationEditor/Models/YoloDatasetModels.cs:53-76 | SetProperty on Percentage, same rule |
| DatasetModels.List.constructor | YoloAnnotationEditor/YoloAnnotationEditor/Models/DatasetModels.cs:19-20 | new List<T>() is empty |
| DatasetModels.List.FromSeq | YoloAnnotationEditor/YoloAnnotationEditor/DatasetEditor.xaml.cs:851-854 | ToList() gives a fresh list with exactly the given elements in order |
| EditState.Toggled | YoloAnnotationEditor/YoloAnnotationEditor/EditStateManager.cs:53-60 | the toggled set holds the name exactly when the old one did not, and agrees with it on every other name |
| EditState.ToggleTwice | YoloAnnotationEditor/YoloAnnotationEditor/EditStateManager.cs:50-63 | toggling the same name twice restores the set |
| EditState.UntilTarget | YoloAnnotationEditor/YoloAnnotationEditor/EditStateManager.cs:71-83 | the walked files are a prefix of the list; none before the last is named like the target, and when the walk stops early its last file is |
| EditState.NamesOfMembers | YoloAnnotationEditor/YoloAnnotationEditor/EditStateManager.cs:73-74 | a name is added by the walk exactly when some walked file has it as its file name |
| EditState.EditStateManager.constructor | YoloAnnotationEditor/YoloAnnotationEditor/EditStateManager.cs:92-115 | loading marks exactly the non-empty names stored in the label-info file; nothing has been saved or notified |
| EditState.EditStateManager.MarkAsEdited | YoloAnnotationEditor/YoloAnnotationEditor/EditStateManager.cs:30-38 | the file name is added and IsEdited then holds; the set is saved and EditStateChanged raised only when the name was newly added; no other name changes |
| EditState.EditStateManager.MarkAsUnedited | YoloAnnotationEditor/YoloAnnotationEditor/EditStateManager.cs:40-48 | the file name is removed and IsEdited is then false; save and notification happen only when it had been present; no other name changes |
| EditState.EditStateManager.ToggleEditState | YoloAnnotationEditor/YoloAnnotationEditor/EditStateManager.cs:50-63 | the mark of the file name flips, nothing else changes, and the set is always saved and notified |
| EditState.EditStateManager.MarkAllEditedUntil | YoloAnnotationEditor/YoloAnnotationEditor/EditStateManager.cs:65-90 | exactly the names of the files up to and including the first one named like the target (all files if none is) are added; it saves and notifies once, exactly when some name was new |
| EditState.SameFileNameSameState | YoloAnnotationEditor/YoloAnnotationEditor/EditStateManager.cs:25-28 | IsEdited looks only at the file name, so two paths with the same file name, in any folders, are marked alike |
| EditState.UntilTargetWalks | YoloAnnotationEditor/YoloAnnotationEditor/EditStateManager.cs:71-83 | a file is walked, and its name marked, exactly when no earlier file is named like the target |
| YamlEditor.Ids | YoloAnnotationEditor/YoloAnnotationEditor/YamlEditorControl.xaml.cs:194 | the ids of the classes, one per class, in list order |
| YamlEditor.MaxId | YoloAnnotationEditor/YoloAnnotationEditor/YamlEditorControl.xaml.cs:229 | Max over the ids: no id exceeds it and some class has it |
| YamlEditor.WrapInt32 | YoloAnnotationEditor/YoloAnnotationEditor/YamlEditorControl.xaml.cs:229 | C# int addition: the result is a 32-bit int, equal to the exact sum when that fits |
| YamlEditor.NextIdFacts | YoloAnnotationEditor/YoloAnnotationEditor/YamlEditorControl.xaml.cs:226-230 | the new id is 0 for an empty list; below the largest int it exceeds every id in use; at int.MaxValue it wraps round to int.MinValue |
| YamlEditor.AddKeepsIdsUnique | YoloAnnotationEditor/YoloAnnotationEditor/YamlEditorControl.xaml.cs:226-233 | appending "new_class" with the next id keeps unique ids unique while the largest id is below int.MaxValue |
| YamlEditor.FirstWithId | YoloAnnotationEditor/YoloAnnotationEditor/YamlEditorControl.xaml.cs:254 | First(c => c.Id == id) is the position of the first class with the id: it has the id and no earlier class does |
| YamlEditor.RemovedShape | YoloAnnotationEditor/YoloAnnotationEditor/YamlEditorControl.xaml.cs:254 | removal takes out exactly the first class with the id and keeps the others in order |
| YamlEditor.RemovedUnique | YoloAnnotationEditor/YoloAnnotationEditor/YamlEditorControl.xaml.cs:254 | with unique ids, removal leaves unique ids, the id gone and every other class still present |
| YamlEditor.RemovedAt | YoloAnnotationEditor/YoloAnnotationEditor/YamlEditorControl.xaml.cs:254 | each class of the shortened list is the class at the same position before the removed one, one further on after it |
| YamlEditor.RenamedFacts | YoloAnnotationEditor/YoloAnnotationEditor/YamlEditorControl.xaml.cs:281-283 | a rename gives the first class with the id the new name, keeps every id and changes no other class |
| YamlEditor.FilteredFacts | YoloAnnotationEditor/YoloAnnotationEditor/YamlEditorControl.xaml.cs:328-335 | the filter keeps exactly the classes whose lower-cased name or id text contains the lower-cased search text; an empty search keeps the whole list in order |
| YamlEditor.ClassOrderIsTotalPreorder | YoloAnnotationEditor/YoloAnnotationEditor/YamlEditorControl.xaml.cs:338-345 | ordering by id or by name (under the culture's total preorder on names) is a total preorder |
| YamlEditor.ShownFacts | YoloAnnotationEditor/YoloAnnotationEditor/YamlEditorControl.xaml.cs:326-351 | the grid shows every matching class once and nothing else, sorted by id or by name, stable among equal keys; an empty search shows the whole list |
| YamlEditor.ShownHaveIds | YoloAnnotationEditor/YoloAnnotationEditor/YamlEditorControl.xaml.cs:347-351 | every row of the grid is a class of the list |
| YamlEditor.ClassFoundByIdAndName | YoloAnnotationEditor/YoloAnnotationEditor/YamlEditorControl.xaml.cs:333-335 | searching for a class's own id text or its own name finds it |
| YamlEditor.NamesOf | YoloAnnotationEditor/YoloAnnotationEditor/YamlEditorControl.xaml.cs:194 | ToDictionary succeeds exactly when the ids are unique, and then gives one (id, name) entry per class, in list order |
| YamlEditor.LoadedClasses | YoloAnnotationEditor/YoloAnnotationEditor/YamlEditorControl.xaml.cs:131-138 | the opened class list has one class per entry of names |
| YamlEditor.LoadClasses | YoloAnnotationEditor/YoloAnnotationEditor/YamlEditorControl.xaml.cs:131-138 | the loading loop builds exactly LoadedClasses, one ClassItem per entry, in order |
| YamlEditor.LoadedIdsAreInt32 | YoloAnnotationEditor/YoloAnnotationEditor/YamlEditorControl.xaml.cs:131-138 | classes loaded from a dictionary have distinct 32-bit ids |
| YamlEditor.SaveThenLoad | YoloAnnotationEditor/YoloAnnotationEditor/YamlEditorControl.xaml.cs:187-195 | saving succeeds exactly when the ids are unique; then Nc is the number of classes, Names is a dictionary, and loading it gives the class list back |
| YamlEditor.LoadThenSave | YoloAnnotationEditor/YoloAnnotationEditor/YamlEditorControl.xaml.cs:131-195 | loading a configuration and saving it again gives the same names and an Nc that counts them |
| YamlEditor.YamlEditorControl.constructor | YoloAnnotationEditor/YoloAnnotationEditor/YamlEditorControl.xaml.cs:34-44 | the control starts with empty class lists, no current file and nothing unsaved |
| YamlEditor.YamlEditorControl.UpdateFilteredClasses | YoloAnnotationEditor/YoloAnnotationEditor/YamlEditorControl.xaml.cs:326-352 | the grid is cleared and refilled with exactly Shown(all classes, search, sort); nothing else changes |
| YamlEditor.YamlEditorControl.SetSearchText | YoloAnnotationEditor/YoloAnnotationEditor/YamlEditorControl.xaml.cs:306-309 | a new search text refreshes the grid to the matching classes |
| YamlEditor.YamlEditorControl.SetSortById | YoloAnnotationEditor/YoloAnnotationEditor/YamlEditorControl.xaml.cs:316-324 | choosing a sort order refreshes the grid in that order |
| YamlEditor.YamlEditorControl.AddClass | YoloAnnotationEditor/YoloAnnotationEditor/YamlEditorControl.xaml.cs:223-243 | one class "new_class" with the next id is appended, the grid is refreshed and the unsaved flag is set |
| YamlEditor.YamlEditorControl.RemoveClass | YoloAnnotationEditor/YoloAnnotationEditor/YamlEditorControl.xaml.cs:245-265 | with a selection and a confirmation, the first class with the selected id is removed, the grid refreshed and the unsaved flag set; otherwise nothing changes |
| YamlEditor.YamlEditorControl.CellEditEnding | YoloAnnotationEditor/YoloAnnotationEditor/YamlEditorControl.xaml.cs:267-287 | a committed edit sets the unsaved flag; a committed "Class Name" edit renames only the first class with the row's id; a cancelled edit changes nothing |
| YamlEditor.YamlEditorControl.SaveYamlFile | YoloAnnotationEditor/YoloAnnotationEditor/YamlEditorControl.xaml.cs:183-217 | the save succeeds exactly when the ids are unique and the write succeeds; it then writes Nc = count and Names = id to name, records the path and clears the unsaved flag; on failure it returns false and changes nothing |
| YamlEditor.YamlEditorControl.SaveFileAs | YoloAnnotationEditor/YoloAnnotationEditor/YamlEditorControl.xaml.cs:167-181 | an empty dialog answer returns false; otherwise the save goes to the chosen path |
| YamlEditor.YamlEditorControl.SaveCurrentFile | YoloAnnotationEditor/YoloAnnotationEditor/YamlEditorControl.xaml.cs:155-165 | without a current path the save goes through Save As; with one it goes to that path |
| YamlEditor.YamlEditorControl.OpenYamlFile | YoloAnnotationEditor/YoloAnnotationEditor/YamlEditorControl.xaml.cs:111-153 | an unreadable file changes nothing; an empty document clears the form and then throws, leaving the empty form with the current file and unsaved flag as they were; otherwise the paths and class list come from the file, the grid is refreshed, the file becomes current and nothing is unsaved |
| YamlEditor.OpenThenSave | YoloAnnotationEditor/YoloAnnotationEditor/YamlEditorControl.xaml.cs:111-165 | opening a file and saving at once succeeds and writes back the same names with Nc counting them |
| DatasetEditor.Fields | YoloAnnotationEditor/YoloAnnotationEditor/DatasetEditor.xaml.cs:1213 | the fields are the trimmed line split at every single space, so there is always at least one |
| DatasetEditor.ParseYoloLabel | YoloAnnotationEditor/YoloAnnotationEditor/DatasetEditor.xaml.cs:1209-1239 | a label needs at least five fields, an int first field (its class id, a 32-bit int) and four floats; otherwise the result is null |
| DatasetEditor.BlankLineRejected | YoloAnnotationEditor/YoloAnnotationEditor/DatasetEditor.xaml.cs:1213-1215 | a blank line has fewer than five fields and gives no label |
| DatasetEditor.FirstFiveFieldsDecide | YoloAnnotationEditor/YoloAnnotationEditor/DatasetEditor.xaml.cs:1217-1221 | only the first five fields matter: lines that agree on them parse alike, whatever follows |
| DatasetEditor.DoubleSpaceRejected | YoloAnnotationEditor/YoloAnnotationEditor/DatasetEditor.xaml.cs:1213-1219 | two spaces in a row after the class id give an empty field that float.TryParse rejects, so the line gives no label |
| DatasetEditor.LabelFields | YoloAnnotationEditor/YoloAnnotationEditor/DatasetEditor.xaml.cs:707-709 | a saved line has five fields, the first being the class id's text |
| DatasetEditor.LabelLineJoin | YoloAnnotationEditor/YoloAnnotationEditor/DatasetEditor.xaml.cs:707-709 | the saved line is those five fields joined by single spaces |
| DatasetEditor.LabelLineShape | YoloAnnotationEditor/YoloAnnotationEditor/DatasetEditor.xaml.cs:707-709 | a saved line starts and ends with a non-blank character, holds no line break, and no field contains a space |
| DatasetEditor.LabelLineRoundTrip | YoloAnnotationEditor/YoloAnnotationEditor/DatasetEditor.xaml.cs:1209-1239 | parsing a saved line gives back the saved label, for numbers the format writes exactly |
| DatasetEditor.ExtraFieldsIgnored | YoloAnnotationEditor/YoloAnnotationEditor/DatasetEditor.xaml.cs:1213-1221 | a saved line followed by more fields still parses to the same label |
| DatasetEditor.LineLabels | YoloAnnotationEditor/YoloAnnotationEditor/DatasetEditor.xaml.cs:1180-1184 | one line contributes at most one label: none when it is blank or does not parse |
| DatasetEditor.LineLabelsOfLabelLine | YoloAnnotationEditor/YoloAnnotationEditor/DatasetEditor.xaml.cs:1180-1184 | a saved line contributes exactly its label |
| DatasetEditor.LabelLines | YoloAnnotationEditor/YoloAnnotationEditor/DatasetEditor.xaml.cs:707-709 | one saved line per annotation, in order |
| DatasetEditor.LabelsOfLabelLines | YoloAnnotationEditor/YoloAnnotationEditor/DatasetEditor.xaml.cs:1180-1184 | reading the saved lines gives back the annotations in order |
| DatasetEditor.SaveLoadRoundTrip | YoloAnnotationEditor/YoloAnnotationEditor/DatasetEditor.xaml.cs:703-712 | writing the label file with WriteAllLines and reading it back with ReadAllLines gives the same annotations, in order |
| DatasetEditor.LoadImageItem | YoloAnnotationEditor/YoloAnnotationEditor/DatasetEditor.xaml.cs:1157-1192 | an image without a label file is skipped; otherwise its item has the file name, paths, the parsed annotations, their distinct class ids and the edit-state mark |
| DatasetEditor.DistinctIdsInStep | YoloAnnotationEditor/YoloAnnotationEditor/DatasetEditor.xaml.cs:1191-1192 | the distinct class ids of the annotations are in step with them: each id of an annotation, once |
| DatasetEditor.WithClassId | YoloAnnotationEditor/YoloAnnotationEditor/DatasetEditor.xaml.cs:573-576 | after adding, ClassIds holds the old ids and the new one, and stays duplicate-free |
| DatasetEditor.AddKeepsInStep | YoloAnnotationEditor/YoloAnnotationEditor/DatasetEditor.xaml.cs:567-577 | creating an annotation keeps ClassIds in step with the annotations |
| DatasetEditor.AfterDelete | YoloAnnotationEditor/YoloAnnotationEditor/DatasetEditor.xaml.cs:392-396 | after a delete the class id is removed from ClassIds exactly when no remaining annotation has it |
| DatasetEditor.RemoveAtClassIds | YoloAnnotationEditor/YoloAnnotationEditor/DatasetEditor.xaml.cs:389 | removing one annotation removes no class id other than its own from the annotations' ids |
| DatasetEditor.DeleteKeepsInStep | YoloAnnotationEditor/YoloAnnotationEditor/DatasetEditor.xaml.cs:381-399 | deleting an annotation keeps ClassIds in step with the remaining annotations |
| DatasetEditor.Editor.constructor | YoloAnnotationEditor/YoloAnnotationEditor/DatasetEditor.xaml.cs:46-49 | the editor starts with no image, no snapshot and a clean state |
| DatasetEditor.Editor.DeepCopyAnnotations | YoloAnnotationEditor/YoloAnnotationEditor/DatasetEditor.xaml.cs:863-880 | the copy has the same length and field-wise equal elements |
| DatasetEditor.Editor.AddAnnotation | YoloAnnotationEditor/YoloAnnotationEditor/DatasetEditor.xaml.cs:566-578 | with an image shown, the annotation is appended, its class id added to ClassIds only if absent, and the editor becomes dirty; without one nothing changes |
| DatasetEditor.Editor.DeleteSelectedAnnotation | YoloAnnotationEditor/YoloAnnotationEditor/DatasetEditor.xaml.cs:381-399 | in edit mode with a selection and an image, exactly that annotation goes, its id goes iff no remaining annotation has it, and the editor becomes dirty; otherwise nothing changes |
| DatasetEditor.Editor.RevertChanges | YoloAnnotationEditor/YoloAnnotationEditor/DatasetEditor.xaml.cs:839-861 | the annotations become the snapshot again, ClassIds a new list of the snapshot's distinct ids, and the dirty flag is cleared |
| DatasetEditor.Editor.SaveAnnotations | YoloAnnotationEditor/YoloAnnotationEditor/DatasetEditor.xaml.cs:700-742 | one line per annotation is written, the snapshot becomes the saved annotations, the image is marked edited when there is an edit-state manager, and the editor is clean; a failed write changes nothing |
| DatasetEditor.Editor.DisplayMainImage | YoloAnnotationEditor/YoloAnnotationEditor/DatasetEditor.xaml.cs:744-780 | leaving a dirty image asks: yes saves, no reverts, cancel stays; otherwise the new image is shown, clean, with a snapshot of its annotations |
| DatasetEditor.FileNameFindsImage | YoloAnnotationEditor/YoloAnnotationEditor/DatasetEditor.xaml.cs:90-101 | searching for a piece of an image's file name shows the image |
| DatasetEditor.ClassNameFindsImage | YoloAnnotationEditor/YoloAnnotationEditor/DatasetEditor.xaml.cs:98-100 | searching for the name of one of the image's classes shows the image |
| DatasetEditor.ImageFilterNarrowing | YoloAnnotationEditor/YoloAnnotationEditor/DatasetEditor.xaml.cs:90-108 | shortening the search text to a piece of it never hides an image that was shown |
| DatasetEditor.ImageFilterIgnoresCase | YoloAnnotationEditor/YoloAnnotationEditor/DatasetEditor.xaml.cs:94-100 | the image search ignores the case of the search text |
| DatasetEditor.ClassFoundByIdAndName | YoloAnnotationEditor/YoloAnnotationEditor/DatasetEditor.xaml.cs:617-633 | a class is found by its own id text and by its own name |
| DatasetEditor.ClassFilterNarrowing | YoloAnnotationEditor/YoloAnnotationEditor/DatasetEditor.xaml.cs:617-633 | a piece of the search text shows every class the full text showed |
| DatasetEditor.AnnotationLists | YoloAnnotationEditor/YoloAnnotationEditor/DatasetEditor.xaml.cs:1290-1292 | the annotation lists of the images, one per image, in order |
| DatasetEditor.EditedFlags | YoloAnnotationEditor/YoloAnnotationEditor/DatasetEditor.xaml.cs:1284 | the IsEdited flags of the images, in order |
| DatasetEditor.AllClassIdsLength | YoloAnnotationEditor/YoloAnnotationEditor/DatasetEditor.xaml.cs:1280-1292 | the class ids of all annotations are as many as the total annotation count |
| DatasetEditor.CountTrue | YoloAnnotationEditor/YoloAnnotationEditor/DatasetEditor.xaml.cs:1284 | the edited count never exceeds the number of images |
| DatasetEditor.Pairs | YoloAnnotationEditor/YoloAnnotationEditor/DatasetEditor.xaml.cs:1302 | the (class id, count) list in the order of the given keys |
| DatasetEditor.PairsSum | YoloAnnotationEditor/YoloAnnotationEditor/DatasetEditor.xaml.cs:1302 | listing every key of the dictionary once keeps the sum of its counts |
| DatasetEditor.DistributionSumsToTotal | YoloAnnotationEditor/YoloAnnotationEditor/DatasetEditor.xaml.cs:1280-1302 | the distribution's counts add up to the total number of annotations |
| DatasetEditor.DistributionEntries | YoloAnnotationEditor/YoloAnnotationEditor/DatasetEditor.xaml.cs:1289-1302 | the distribution lists class ids in strictly ascending order, each with its number of annotations (positive), and lists every id some annotation has |
| DatasetEditor.CountsIsTally | YoloAnnotationEditor/YoloAnnotationEditor/DatasetEditor.xaml.cs:1293-1299 | the dictionary the loop builds, one id at a time, is the multiset count of the ids |
| DatasetEditor.DistributionStep | YoloAnnotationEditor/YoloAnnotationEditor/DatasetEditor.xaml.cs:1295-1298 | one more annotation adds one to the count of its class id |
| DatasetEditor.CountAnnotations | YoloAnnotationEditor/YoloAnnotationEditor/DatasetEditor.xaml.cs:1293-1299 | the inner loop adds one to its class id's count for every annotation of the image |
| DatasetEditor.ClassDistribution | YoloAnnotationEditor/YoloAnnotationEditor/DatasetEditor.xaml.cs:1289-1299 | the nested loops give exactly the tally of the class ids of all annotations |
| DatasetEditor.UpdateStatistics | YoloAnnotationEditor/YoloAnnotationEditor/DatasetEditor.xaml.cs:1274-1302 | the figures shown are the image count, the annotation total, the class count, the edited count and the sorted distribution |
| OcrAnnotation.LeadingDigits | YoloAnnotationEditor/YoloAnnotationEditor/OCRAnnotationControl.xaml.cs:345 | the result is the longest prefix made only of ASCII digits: the character after it, if any, is not a digit |
| OcrAnnotation.NumberValue | YoloAnnotationEditor/YoloAnnotationEditor/OCRAnnotationControl.xaml.cs:346 | the unbounded value of the leading digits is never negative |
| OcrAnnotation.GetNumericOrder | YoloAnnotationEditor/YoloAnnotationEditor/OCRAnnotationControl.xaml.cs:343-347 | a name that is empty or does not start with a digit gets int.MaxValue; otherwise int.Parse succeeds exactly when the digit value fits in an int, and every result lies in 0..int.MaxValue |
| OcrAnnotation.LeadingDigitsOf | YoloAnnotationEditor/YoloAnnotationEditor/OCRAnnotationControl.xaml.cs:345 | the regex group of digits followed by a non-digit is exactly those digits |
| OcrAnnotation.NumericOrderOfNumber | YoloAnnotationEditor/YoloAnnotationEditor/OCRAnnotationControl.xaml.cs:343-347 | a name written as the decimal of n followed by a non-digit is ordered by n, or makes int.Parse throw when n exceeds int.MaxValue |
| OcrAnnotation.Range | YoloAnnotationEditor/YoloAnnotationEditor/OCRAnnotationControl.xaml.cs:252 | Enumerable.Range(0, n) is 0, 1, .., n-1 |
| OcrAnnotation.NumberedSequentiallyMeans | YoloAnnotationEditor/YoloAnnotationEditor/OCRAnnotationControl.xaml.cs:234-253 | the files count as sequential exactly when the list is non-empty, every name is digits, a dot and jpg or jpeg, ignoring case, and the numbers are 0..n-1 in some order; the check throws exactly when every name matches and some number does not fit in an int |
| OcrAnnotation.NumberedCases | YoloAnnotationEditor/YoloAnnotationEditor/OCRAnnotationControl.xaml.cs:236-252 | the three outcomes of the check (false, true, throws), written in terms of the name pattern and the number range |
| OcrAnnotation.SortedIsRange | YoloAnnotationEditor/YoloAnnotationEditor/OCRAnnotationControl.xaml.cs:245-252 | sorting the numbers gives 0..n-1 exactly when they are a permutation of 0..n-1 |
| OcrAnnotation.RangeBound | YoloAnnotationEditor/YoloAnnotationEditor/OCRAnnotationControl.xaml.cs:245-252 | a permutation of 0..n-1 holds only numbers in 0..n-1 |
| OcrAnnotation.NumberNames | YoloAnnotationEditor/YoloAnnotationEditor/OCRAnnotationControl.xaml.cs:269-280 | the target names are "{i}.jpg" for i = 0..n-1, in order |
| OcrAnnotation.NumberNameFacts | YoloAnnotationEditor/YoloAnnotationEditor/OCRAnnotationControl.xaml.cs:269-280 | "{i}.jpg" matches the numbered-name pattern, its number is i, and it holds no path separator |
| OcrAnnotation.NumberNameIsNumbered | YoloAnnotationEditor/YoloAnnotationEditor/OCRAnnotationControl.xaml.cs:236-269 | "{i}.jpg" matches the numbered-name pattern |
| OcrAnnotation.NumberNameInjective | YoloAnnotationEditor/YoloAnnotationEditor/OCRAnnotationControl.xaml.cs:269-280 | distinct indices give distinct target names |
| OcrAnnotation.RenamedAreSequential | YoloAnnotationEditor/YoloAnnotationEditor/OCRAnnotationControl.xaml.cs:234-290 | the files named 0.jpg..n-1.jpg, listed in any order, pass AreFilesNumberedSequentially |
| OcrAnnotation.InFolder | YoloAnnotationEditor/YoloAnnotationEditor/OCRAnnotationControl.xaml.cs:268-269 | the paths are Path.Combine(folder, name) for each name, in order |
| OcrAnnotation.MovedNothing | YoloAnnotationEditor/YoloAnnotationEditor/OCRAnnotationControl.xaml.cs:255-290 | moving no files changes nothing |
| OcrAnnotation.MovedStep | YoloAnnotationEditor/YoloAnnotationEditor/OCRAnnotationControl.xaml.cs:270-281 | one more File.Move of a file not moved yet to a free path extends the record of moves |
| OcrAnnotation.MovedThenMoved | YoloAnnotationEditor/YoloAnnotationEditor/OCRAnnotationControl.xaml.cs:266-282 | moving files to temp_rename and then on to their final names is the same as moving each file straight to its final name |
| OcrAnnotation.InFolderDistinct | YoloAnnotationEditor/YoloAnnotationEditor/OCRAnnotationControl.xaml.cs:268 | two equal paths in one folder come from equal names |
| OcrAnnotation.RenameFilesToSequential | YoloAnnotationEditor/YoloAnnotationEditor/OCRAnnotationControl.xaml.cs:255-290 | when temp_rename holds no file beforehand (and there are at most int.MaxValue + 1 files), the i-th file in file-name order ends up at {i}.jpg with its content unchanged and every other file is kept. In every outcome nothing is left below temp_rename and the directories are the old ones with the created parents but without temp_rename. An abort after `staged` moves leaves exactly the files outside temp_rename that were not staged, unchanged, so the staged images are lost. The first loop stops at the first k whose temp_rename/{k}.jpg already existed, and a leftover .jpg whose stem int.Parse rejects makes the renaming abort after every file was staged |
| OcrAnnotation.TempsApart | YoloAnnotationEditor/YoloAnnotationEditor/OCRAnnotationControl.xaml.cs:262-269 | the temp_rename paths are neither existing files nor final names |
| OcrAnnotation.NothingLeftBelow | YoloAnnotationEditor/YoloAnnotationEditor/OCRAnnotationControl.xaml.cs:277-287 | after both move phases no file lies below temp_rename |
| OcrAnnotation.KeptAllFiles | YoloAnnotationEditor/YoloAnnotationEditor/OCRAnnotationControl.xaml.cs:284-288 | the recursive delete of a directory below which no file lies keeps every file |
| OcrAnnotation.StageFiles | YoloAnnotationEditor/YoloAnnotationEditor/OCRAnnotationControl.xaml.cs:266-271 | the first loop moves the i-th sorted file to temp_rename/{i}.jpg until a target is taken: the first `staged` files are moved, their targets were free beforehand, the target it stops at was taken, and the directories are unchanged |
| OcrAnnotation.ReturnFiles | YoloAnnotationEditor/YoloAnnotationEditor/OCRAnnotationControl.xaml.cs:274-282 | the second loop moves temp_rename/{i}.jpg to {i}.jpg in the folder |
| OcrAnnotation.RenameSetup | YoloAnnotationEditor/YoloAnnotationEditor/OCRAnnotationControl.xaml.cs:259 | the name-sorted list is a permutation of the distinct input files, all present in the folder |
| OcrAnnotation.ReturnStep | YoloAnnotationEditor/YoloAnnotationEditor/OCRAnnotationControl.xaml.cs:279-281 | in the second loop the next staged file is present and its final path is free |
| OcrAnnotation.MoveEach | YoloAnnotationEditor/YoloAnnotationEditor/OCRAnnotationControl.xaml.cs:266-271 | File.Move of each source to its target in turn stops at the first target that exists: the moves made so far are recorded, their targets were free beforehand, and the target it stops at was taken |
| OcrAnnotation.MoveEachStep | YoloAnnotationEditor/YoloAnnotationEditor/OCRAnnotationControl.xaml.cs:268-270 | the next move's source is still present, its target is taken exactly when it was taken beforehand, and making the move extends the record of moves |
| OcrAnnotation.StagePathsApart | YoloAnnotationEditor/YoloAnnotationEditor/OCRAnnotationControl.xaml.cs:262-269 | the source paths are distinct, the staging paths are distinct, and no source path is a staging path |
| OcrAnnotation.FinishRename | YoloAnnotationEditor/YoloAnnotationEditor/OCRAnnotationControl.xaml.cs:273-288 | after staging: with temp_rename clean beforehand the files are renamed; a leftover .jpg whose stem int.Parse rejects makes it abort; an abort deletes temp_rename with the staged files and keeps every other file; nothing is left below temp_rename |
| OcrAnnotation.ReturnListed | YoloAnnotationEditor/YoloAnnotationEditor/OCRAnnotationControl.xaml.cs:273-288 | once every listed stem parses, the listed files go back as 0.jpg, 1.jpg, .. in number order and temp_rename is deleted; with temp_rename clean beforehand, staging plus this is the renaming |
| OcrAnnotation.DeleteDirectory | YoloAnnotationEditor/YoloAnnotationEditor/OCRAnnotationControl.xaml.cs:284-288 | Directory.Delete(dir, true) removes the directory, every directory and every file below it, and keeps every other file and directory unchanged |
| OcrAnnotation.ListJpgFiles | YoloAnnotationEditor/YoloAnnotationEditor/OCRAnnotationControl.xaml.cs:274 | Directory.GetFiles(temp_rename, "*.jpg") lists each .jpg file directly inside the directory exactly once, and nothing else |
| OcrAnnotation.JpgFilesIn | YoloAnnotationEditor/YoloAnnotationEditor/OCRAnnotationControl.xaml.cs:274 | a name is in the set exactly when it names a .jpg file directly inside the directory |
| OcrAnnotation.LeftoverListed | YoloAnnotationEditor/YoloAnnotationEditor/OCRAnnotationControl.xaml.cs:274 | a .jpg file left in temp_rename beforehand is still there after staging and is listed |
| OcrAnnotation.CleanListing | YoloAnnotationEditor/YoloAnnotationEditor/OCRAnnotationControl.xaml.cs:274 | with temp_rename clean beforehand, the listing holds 0.jpg..n-1.jpg, each exactly once |
| OcrAnnotation.NumberNamesParse | YoloAnnotationEditor/YoloAnnotationEditor/OCRAnnotationControl.xaml.cs:275 | int.Parse accepts the stem of every {i}.jpg with i at most int.MaxValue |
| OcrAnnotation.CleanOrder | YoloAnnotationEditor/YoloAnnotationEditor/OCRAnnotationControl.xaml.cs:274-275 | a listing of 0.jpg..n-1.jpg in any order has n names and sorts by number to 0.jpg..n-1.jpg |
| OcrAnnotation.ReturnOrdered | YoloAnnotationEditor/YoloAnnotationEditor/OCRAnnotationControl.xaml.cs:274-279 | the listing sorted by number is duplicate-free and each of its names is present in temp_rename |
| OcrAnnotation.FinalsFree | YoloAnnotationEditor/YoloAnnotationEditor/OCRAnnotationControl.xaml.cs:278-280 | after staging no {k}.jpg is left in the folder, so no move of the second loop finds its target taken |
| OcrAnnotation.CleanRename | YoloAnnotationEditor/YoloAnnotationEditor/OCRAnnotationControl.xaml.cs:266-288 | with temp_rename clean beforehand, staging, moving back and the delete together move the i-th sorted file to {i}.jpg and keep every other file |
| OcrAnnotation.StagedOutside | YoloAnnotationEditor/YoloAnnotationEditor/OCRAnnotationControl.xaml.cs:266-288 | what lies outside temp_rename after k staging moves and the delete is the folder before the renaming without the k staged files |
| OcrAnnotation.InFolderBelow | YoloAnnotationEditor/YoloAnnotationEditor/OCRAnnotationControl.xaml.cs:268 | the staging paths lie below temp_rename |
| OcrAnnotation.NumberNameIsJpg | YoloAnnotationEditor/YoloAnnotationEditor/OCRAnnotationControl.xaml.cs:268 | {i}.jpg has the .jpg extension and its stem is the decimal text of i |
| OcrAnnotation.LeftoverLosesImages | YoloAnnotationEditor/YoloAnnotationEditor/OCRAnnotationControl.xaml.cs:263-288 | with notes.jpg left in temp_rename, staging a.jpg to temp_rename/0.jpg succeeds, notes.jpg is listed and int.Parse rejects its stem, so the abort leaves no file at all: a.jpg is lost |
| OcrAnnotation.NotesIsLeftover | YoloAnnotationEditor/YoloAnnotationEditor/OCRAnnotationControl.xaml.cs:274-275 | notes.jpg matches "*.jpg" and int.Parse throws on "notes" |
| OcrAnnotation.RenameFilesSafely | YoloAnnotationEditor/YoloAnnotationEditor/OCRAnnotationControl.xaml.cs:255-290 | corrected: it refuses and changes nothing exactly when temp_rename already holds a file or there are more files than int numbers; otherwise the i-th file in name order ends up at {i}.jpg, every other file is kept and nothing is left below temp_rename |
| Collections.SameElementsSameMultiset | YoloAnnotationEditor/YoloAnnotationEditor/OCRAnnotationControl.xaml.cs:274 | two duplicate-free sequences with the same elements have the same multiset |
| OcrAnnotation.StemNumberOfNumberName | YoloAnnotationEditor/YoloAnnotationEditor/OCRAnnotationControl.xaml.cs:275 | int.Parse of the name without the extension of "{i}.jpg" gives i |
| OcrAnnotation.NumberNamesByStem | YoloAnnotationEditor/YoloAnnotationEditor/OCRAnnotationControl.xaml.cs:275 | two target names with the same number are the same name |
| OcrAnnotation.NumberNamesSortedByStem | YoloAnnotationEditor/YoloAnnotationEditor/OCRAnnotationControl.xaml.cs:275 | 0.jpg..n-1.jpg are already in order of their numbers |
| OcrAnnotation.StemNumberLeIsTotalPreorder | YoloAnnotationEditor/YoloAnnotationEditor/OCRAnnotationControl.xaml.cs:275 | the order by int.Parse of the stem is a total preorder on names that parse |
| OcrAnnotation.TempFilesInNumberOrder | YoloAnnotationEditor/YoloAnnotationEditor/OCRAnnotationControl.xaml.cs:274-275 | however Directory.GetFiles lists temp_rename, ordering by number gives 0.jpg, 1.jpg, .., n-1.jpg |
| OcrAnnotation.LabelsOfKeys | YoloAnnotationEditor/YoloAnnotationEditor/OCRAnnotationControl.xaml.cs:300-316 | a file name has an entry in the dictionary exactly when some non-blank line names it |
| OcrAnnotation.LabelsOfLastWins | YoloAnnotationEditor/YoloAnnotationEditor/OCRAnnotationControl.xaml.cs:310-313 | the last line that names a file gives its text (a later line overwrites) |
| OcrAnnotation.LabelsOfUniform | YoloAnnotationEditor/YoloAnnotationEditor/OCRAnnotationControl.xaml.cs:310-313 | when every line naming a file gives the same text, the dictionary holds that text |
| OcrAnnotation.ParseLabels | YoloAnnotationEditor/YoloAnnotationEditor/OCRAnnotationControl.xaml.cs:300-316 | the read loop builds exactly the dictionary of the line parse, the last line winning |
| OcrAnnotation.SaveLines | YoloAnnotationEditor/YoloAnnotationEditor/OCRAnnotationControl.xaml.cs:431-438 | lines are produced exactly when GetNumericOrder of every file name does not throw, and then there is one line per annotation |
| OcrAnnotation.SaveLineReadsBack | YoloAnnotationEditor/YoloAnnotationEditor/OCRAnnotationControl.xaml.cs:307-312 | a saved line for a space-free name and a text without line breaks or trailing white space is read back as that name and text ("" for no text) |
| OcrAnnotation.NameAloneReadsBack | YoloAnnotationEditor/YoloAnnotationEditor/OCRAnnotationControl.xaml.cs:309-312 | "{name} " trimmed is the name, which is read back with text "" |
| OcrAnnotation.NameAndTextReadBack | YoloAnnotationEditor/YoloAnnotationEditor/OCRAnnotationControl.xaml.cs:307-312 | "{name} {text}" is unchanged by the trim and is read back as (name, text) |
| OcrAnnotation.SaveThenLoad | YoloAnnotationEditor/YoloAnnotationEditor/OCRAnnotationControl.xaml.cs:300-316 | saving then loading gives every annotation its own text back ("" for none), when file names are distinct and space-free and texts have no line break or trailing white space |
| OcrAnnotation.SavedLinesRead | YoloAnnotationEditor/YoloAnnotationEditor/OCRAnnotationControl.xaml.cs:435-438 | every line written for the sorted annotations is read back as that annotation's name and text |
| OcrAnnotation.EntryReadBack | YoloAnnotationEditor/YoloAnnotationEditor/OCRAnnotationControl.xaml.cs:307-313 | one annotation's text comes back, because only its own line names its file |
| OcrAnnotation.LabeledCount | YoloAnnotationEditor/YoloAnnotationEditor/OCRAnnotationControl.xaml.cs:101 | the labelled count never exceeds the number of annotations |
| OcrAnnotation.LabeledCountBounds | YoloAnnotationEditor/YoloAnnotationEditor/OCRAnnotationControl.xaml.cs:101-103 | the labelled count equals the total exactly when every annotation has a label, and is 0 exactly when none has |
| OcrAnnotation.EntriesOf | YoloAnnotationEditor/YoloAnnotationEditor/OCRAnnotationControl.xaml.cs:435-437 | the save sees each annotation's file name and text, one per annotation, in order |
| OcrAnnotation.FormatLines | YoloAnnotationEditor/YoloAnnotationEditor/OCRAnnotationControl.xaml.cs:435-438 | the format loop produces the save line of each sorted annotation, in order |
| OcrAnnotation.SaveOutcome | YoloAnnotationEditor/YoloAnnotationEditor/OCRAnnotationControl.xaml.cs:425-449 | a file is written exactly when a folder is set and the numeric ordering does not throw; it is the folder's labels.txt |
| OcrAnnotation.SavedFiles | YoloAnnotationEditor/YoloAnnotationEditor/OCRAnnotationControl.xaml.cs:441 | File.WriteAllLines sets that one path and leaves every other file unchanged; nothing changes when no file is written |
| OcrAnnotation.SavedTwice | YoloAnnotationEditor/YoloAnnotationEditor/OCRAnnotationControl.xaml.cs:398-400 | two saves of the same labels file leave the files as one save does when either write succeeds, and unchanged when both throw |
| OcrAnnotation.NewAnnotation | YoloAnnotationEditor/YoloAnnotationEditor/OCRAnnotationControl.xaml.cs:328-333 | a new annotation has the file name of the path, the full path and the given text |
| OcrAnnotation.AddAnnotations | YoloAnnotationEditor/YoloAnnotationEditor/OCRAnnotationControl.xaml.cs:326-338 | one new annotation per image path is appended, in order, each with the loaded text for its file name or "" |
| OcrAnnotation.SortImagePaths | YoloAnnotationEditor/YoloAnnotationEditor/OCRAnnotationControl.xaml.cs:319-321 | the image paths come out as a permutation of the input, in non-decreasing GetNumericOrder of their file names |
| OcrAnnotation.OcrAnnotator.constructor | YoloAnnotationEditor/YoloAnnotationEditor/OCRAnnotationControl.xaml.cs:47-51 | a new control starts with an empty data set, no selection, no folder and no pending changes |
| OcrAnnotation.OcrAnnotator.SaveLabelsFile | YoloAnnotationEditor/YoloAnnotationEditor/OCRAnnotationControl.xaml.cs:425-449 | labels.txt gets the save lines and the modified flag is cleared; without a folder, when the ordering throws or when File.WriteAllLines throws, nothing is written and the flag stays as it was |
| OcrAnnotation.OcrAnnotator.LoadAnnotations | YoloAnnotationEditor/YoloAnnotationEditor/OCRAnnotationControl.xaml.cs:292-341 | the annotations become one new annotation per image in GetNumericOrder order, each with its text from labels.txt or ""; nothing changes when the ordering throws |
| OcrAnnotation.OcrAnnotator.SelectAndSaveTwice | YoloAnnotationEditor/YoloAnnotationEditor/OCRAnnotationControl.xaml.cs:79-86 | setting the selection saves through the selection-changed handler and then through the button; labels.txt is written once if either write succeeds, and the modified flag is cleared exactly then |
| OcrAnnotation.OcrAnnotator.Previous | YoloAnnotationEditor/YoloAnnotationEditor/OCRAnnotationControl.xaml.cs:391-402 | the selection moves to the previous annotation exactly when a selection exists and its index is above 0; labels.txt is then saved and the modified flag is cleared iff a write succeeds; otherwise nothing changes |
| OcrAnnotation.OcrAnnotator.Next | YoloAnnotationEditor/YoloAnnotationEditor/OCRAnnotationControl.xaml.cs:404-415 | the selection moves to the next annotation exactly when its index is below count-1 (index -1 moves to the first); labels.txt is then saved and the modified flag is cleared iff a write succeeds; otherwise nothing changes |
| OcrAnnotation.OcrAnnotator.CurrentIndexText | YoloAnnotationEditor/YoloAnnotationEditor/OCRAnnotationControl.xaml.cs:88-98 | "Current: {index+1}" with a selection in a non-empty list, positive exactly when the selection is in the list; "Current: -" otherwise |
| OcrAnnotation.OcrAnnotator.LabeledCountText | YoloAnnotationEditor/YoloAnnotationEditor/OCRAnnotationControl.xaml.cs:100-103 | "Labeled: {labelled}/{total}" |
| OcrDatasetTools.ParseLabelLine | YoloAnnotationEditor/YoloAnnotationEditor/DatasetToolsControl.xaml.cs:114-117 | a line gives a pair exactly when it is not blank and its trimmed form holds a space; the trimmed line is then the file name, one space and the label, and the name holds no space |
| OcrDatasetTools.ParsedNameNotEmpty | YoloAnnotationEditor/YoloAnnotationEditor/DatasetToolsControl.xaml.cs:116 | the file name of an accepted line is never empty |
| OcrDatasetTools.LabelLineRoundTrip | YoloAnnotationEditor/YoloAnnotationEditor/DatasetToolsControl.xaml.cs:415-419 | "{name} {label}" reads back as (name, label) when the name has no white space and the label does not end in white space |
| OcrDatasetTools.LabelsDictLastWins | YoloAnnotationEditor/YoloAnnotationEditor/DatasetToolsControl.xaml.cs:373-381 | the last accepted line naming a file gives its label in labelsDict |
| OcrDatasetTools.LabelsDictKeys | YoloAnnotationEditor/YoloAnnotationEditor/DatasetToolsControl.xaml.cs:373-381 | a file name is a key of labelsDict exactly when some accepted line names it |
| OcrDatasetTools.AddChars | YoloAnnotationEditor/YoloAnnotationEditor/DatasetToolsControl.xaml.cs:569-572 | the loop adds exactly the characters of the label to the set |
| OcrDatasetTools.LabelCharsMeans | YoloAnnotationEditor/YoloAnnotationEditor/DatasetToolsControl.xaml.cs:561-574 | a character is in the character set exactly when the label of some accepted line holds it |
| OcrDatasetTools.CharLinesListChars | YoloAnnotationEditor/YoloAnnotationEditor/DatasetToolsControl.xaml.cs:576-579 | the dictionary file has one line per character of the set, each a single character, every character once, in strictly ascending order |
| OcrDatasetTools.GenerateCharacterSet | YoloAnnotationEditor/YoloAnnotationEditor/DatasetToolsControl.xaml.cs:548-598 | it fails exactly when labels.txt is missing; otherwise the set is the characters of all accepted labels and the file written is those characters sorted, one per line |
| OcrDatasetTools.DictionaryCharsMeans | YoloAnnotationEditor/YoloAnnotationEditor/DatasetToolsControl.xaml.cs:636-655 | a character is in the loaded dictionary exactly when some non-blank line holds it after trimming |
| OcrDatasetTools.DictionaryLineOfChar | YoloAnnotationEditor/YoloAnnotationEditor/DatasetToolsControl.xaml.cs:638-645 | a one-character line adds that character, unless it is white space |
| OcrDatasetTools.GeneratedDictionaryLoads | YoloAnnotationEditor/YoloAnnotationEditor/DatasetToolsControl.xaml.cs:576-657 | a dictionary written by GenerateCharacterSet and loaded back gives the set without its white-space characters (the space line is skipped as blank) |
| OcrDatasetTools.GeneratedDictionaryChar | YoloAnnotationEditor/YoloAnnotationEditor/DatasetToolsControl.xaml.cs:579-645 | a character is read from the generated lines exactly when it is in the set and is not white space |
| OcrDatasetTools.DictionaryHolder.constructor | YoloAnnotationEditor/YoloAnnotationEditor/DatasetToolsControl.xaml.cs:25 | the dictionary starts empty |
| OcrDatasetTools.DictionaryHolder.LoadDictionary | YoloAnnotationEditor/YoloAnnotationEditor/DatasetToolsControl.xaml.cs:629-664 | the dictionary becomes the characters of the non-blank trimmed lines, and is empty after a read error |
| OcrDatasetTools.MinLength | YoloAnnotationEditor/YoloAnnotationEditor/DatasetToolsControl.xaml.cs:744 | the minimum label length is at most every length and is the length of some label |
| OcrDatasetTools.MaxLength | YoloAnnotationEditor/YoloAnnotationEditor/DatasetToolsControl.xaml.cs:745 | the maximum label length is at least every length and is the length of some label |
| OcrDatasetTools.FlattenLength | YoloAnnotationEditor/YoloAnnotationEditor/DatasetToolsControl.xaml.cs:725-728 | allChars has as many characters as the labels together |
| OcrDatasetTools.FlattenChars | YoloAnnotationEditor/YoloAnnotationEditor/DatasetToolsControl.xaml.cs:725-728 | a character is in allChars exactly when some label holds it |
| OcrDatasetTools.AnalysisFacts | YoloAnnotationEditor/YoloAnnotationEditor/DatasetToolsControl.xaml.cs:738-764 | TotalSamples is the number of labels; the frequencies add up to the total label length and count exactly the characters used; UniqueChars is the number of distinct characters; CharacterSet holds those characters in strictly ascending order; min <= max; the samples are the first min(10, n) labels |
| OcrDatasetTools.FrequenciesOfLabels | YoloAnnotationEditor/YoloAnnotationEditor/DatasetToolsControl.xaml.cs:725-730 | the frequencies add up to the total label length and have exactly the used characters as keys |
| OcrDatasetTools.DistinctCount | YoloAnnotationEditor/YoloAnnotationEditor/DatasetToolsControl.xaml.cs:740 | allChars.Distinct().Count() equals the number of characters in the frequency table |
| OcrDatasetTools.CountChars | YoloAnnotationEditor/YoloAnnotationEditor/DatasetToolsControl.xaml.cs:725-731 | the inner loop appends the label to allChars and keeps the frequency table equal to the tally of allChars |
| OcrDatasetTools.CountOne | YoloAnnotationEditor/YoloAnnotationEditor/DatasetToolsControl.xaml.cs:728-730 | setting a missing count to 0 and adding one gives the tally with one more occurrence |
| OcrDatasetTools.ReadSamples | YoloAnnotationEditor/YoloAnnotationEditor/DatasetToolsControl.xaml.cs:709-734 | the loop collects the labels of accepted lines whose image exists, in order, with allChars their concatenation and charFrequency its tally |
| OcrDatasetTools.SampleLabelsStep | YoloAnnotationEditor/YoloAnnotationEditor/DatasetToolsControl.xaml.cs:711-723 | one more line adds its label exactly when it is accepted and its image exists |
| OcrDatasetTools.FlattenAppend | YoloAnnotationEditor/YoloAnnotationEditor/DatasetToolsControl.xaml.cs:725-728 | one more label appends its characters to allChars |
| OcrDatasetTools.AnalyzeDataset | YoloAnnotationEditor/YoloAnnotationEditor/DatasetToolsControl.xaml.cs:693-765 | it fails exactly when labels.txt is missing or no label is counted (Average and Min throw on an empty list); otherwise the statistics are those of the counted labels |
| OcrDatasetTools.Compare | YoloAnnotationEditor/YoloAnnotationEditor/DatasetToolsControl.xaml.cs:825-843 | a comparison is made exactly when a dictionary is loaded; the first list is the dataset characters not in the dictionary, the second the dictionary characters not in the dataset, each in strictly ascending order |
| OcrDatasetTools.CompareEmptyIffEqual | YoloAnnotationEditor/YoloAnnotationEditor/DatasetToolsControl.xaml.cs:828-885 | both lists are empty exactly when the dataset and the dictionary have the same characters |
| OcrDatasetTools.RecommendationsFollowThresholds | YoloAnnotationEditor/YoloAnnotationEditor/DatasetToolsControl.xaml.cs:853-888 | the first recommendation is the size advice for < 1000, < 5000 or more samples and no other is a size advice; long labels are advised exactly when the average exceeds 20; a large set exactly above 200 characters and a small set exactly below 20; a perfect match exactly when a dictionary is loaded and equals the dataset's characters |
| OcrDatasetTools.FurtherAdviceFacts | YoloAnnotationEditor/YoloAnnotationEditor/DatasetToolsControl.xaml.cs:862-888 | the advice after the size advice has no size advice and follows the label-length, character-set and dictionary thresholds |
| OcrDatasetTools.AdviceOfParts | YoloAnnotationEditor/YoloAnnotationEditor/DatasetToolsControl.xaml.cs:862-888 | the label-length, character-set and dictionary parts put together keep each part's threshold |
| OcrDatasetTools.CharsetAdviceFacts | YoloAnnotationEditor/YoloAnnotationEditor/DatasetToolsControl.xaml.cs:866-869 | at most one character-set advice, large exactly above 200 and small exactly below 20 |
| OcrDatasetTools.DictionaryAdviceFacts | YoloAnnotationEditor/YoloAnnotationEditor/DatasetToolsControl.xaml.cs:871-885 | the dictionary advice gives a perfect match exactly when a dictionary is loaded and equals the dataset's characters |
| OcrDatasetTools.TrdgEntriesFromLines | YoloAnnotationEditor/YoloAnnotationEditor/DatasetToolsControl.xaml.cs:112-127 | every entry comes from an accepted line whose image exists, with that image path |
| OcrDatasetTools.SplitImageNamesDiffer | YoloAnnotationEditor/YoloAnnotationEditor/DatasetToolsControl.xaml.cs:146-158 | different positions give different "{prefix}_{i:D6}.jpg" names |
| OcrDatasetTools.ConvertSplit | YoloAnnotationEditor/YoloAnnotationEditor/DatasetToolsControl.xaml.cs:141-163 | the i-th entry of a split is copied to {prefix}_images/{prefix}_{i:D6}.jpg and gets the rec_gt line "{prefix}_images/{name}\t{label}" |
| OcrDatasetTools.ConvertTrdgToPaddleOcr | YoloAnnotationEditor/YoloAnnotationEditor/DatasetToolsControl.xaml.cs:92-168 | throws exactly when labels.txt is missing; otherwise the first (int)(count * splitRatio) shuffled entries form the train split and the rest the val split, each copied and labelled in order |
| OcrDatasetTools.ReadTrdgEntries | YoloAnnotationEditor/YoloAnnotationEditor/DatasetToolsControl.xaml.cs:112-127 | the read loop collects exactly the entries of accepted lines whose image exists, in line order |
| OcrDatasetTools.ReadTrdgLine | YoloAnnotationEditor/YoloAnnotationEditor/DatasetToolsControl.xaml.cs:114-126 | one line gives an entry exactly when it is accepted and its image exists |
| OcrDatasetTools.ConversionKeepsEntries | YoloAnnotationEditor/YoloAnnotationEditor/DatasetToolsControl.xaml.cs:133-136 | every entry goes to exactly one of the two splits: together they are a permutation of the entries |
| OcrDatasetTools.MergedImagesNumbered | YoloAnnotationEditor/YoloAnnotationEditor/DatasetToolsControl.xaml.cs:390-421 | the images merged from one dataset are named {start}.jpg, {start+1}.jpg, .. in order |
| OcrDatasetTools.Sources | YoloAnnotationEditor/YoloAnnotationEditor/DatasetToolsControl.xaml.cs:390-402 | the source image of each merged image, in order |
| OcrDatasetTools.SucceededMembers | YoloAnnotationEditor/YoloAnnotationEditor/DatasetToolsControl.xaml.cs:392-427 | an image is merged exactly when it is one of the listed images and processing it does not throw |
| OcrDatasetTools.MergedImagesSources | YoloAnnotationEditor/YoloAnnotationEditor/DatasetToolsControl.xaml.cs:390-427 | the merged images of one dataset are its images processed without an error, in listing order |
| OcrDatasetTools.SourcesSnoc | YoloAnnotationEditor/YoloAnnotationEditor/DatasetToolsControl.xaml.cs:402-420 | one more merged image adds its source at the end |
| OcrDatasetTools.MergedAllNumbered | YoloAnnotationEditor/YoloAnnotationEditor/DatasetToolsControl.xaml.cs:346-430 | the merged images of all datasets are named 0.jpg, 1.jpg, .. in order, the counter advancing only on success |
| OcrDatasetTools.NumberedConcat | YoloAnnotationEditor/YoloAnnotationEditor/DatasetToolsControl.xaml.cs:365-430 | two runs numbered one after the other form one run |
| OcrDatasetTools.MergedDatasetNumbered | YoloAnnotationEditor/YoloAnnotationEditor/DatasetToolsControl.xaml.cs:365-430 | one dataset's images are numbered on from the counter, and a dataset without labels.txt adds none |
| OcrDatasetTools.LinesOf | YoloAnnotationEditor/YoloAnnotationEditor/DatasetToolsControl.xaml.cs:420 | one line of the merged labels.txt per merged image, in order |
| OcrDatasetTools.CopiesOf | YoloAnnotationEditor/YoloAnnotationEditor/DatasetToolsControl.xaml.cs:396-402 | one copy per merged image, from its source to {outputDir}/{name} |
| OcrDatasetTools.OutputsConcat | YoloAnnotationEditor/YoloAnnotationEditor/DatasetToolsControl.xaml.cs:365-430 | the lines and copies of two runs are the concatenation of each run's |
| OcrDatasetTools.ParsedLabelIsLabelText | YoloAnnotationEditor/YoloAnnotationEditor/DatasetToolsControl.xaml.cs:376-379 | the label of an accepted line is not empty, does not end in white space and holds no line break |
| OcrDatasetTools.ContainedNoLineBreak | YoloAnnotationEditor/YoloAnnotationEditor/DatasetToolsControl.xaml.cs:372 | a part of a line holds no line break |
| OcrDatasetTools.SuffixNoLineBreak | YoloAnnotationEditor/YoloAnnotationEditor/DatasetToolsControl.xaml.cs:372 | a suffix of a line holds no line break |
| OcrDatasetTools.LabelsDictIsLabelText | YoloAnnotationEditor/YoloAnnotationEditor/DatasetToolsControl.xaml.cs:372-381 | every label in labelsDict is one the tools read back unchanged |
| OcrDatasetTools.NumberNameHasNoWhiteSpace | YoloAnnotationEditor/YoloAnnotationEditor/DatasetToolsControl.xaml.cs:396 | "{counter}.jpg" is non-empty and holds no white space |
| OcrDatasetTools.JoinedNoLineBreak | YoloAnnotationEditor/YoloAnnotationEditor/DatasetToolsControl.xaml.cs:420 | "{name} {label}" is on one line when its parts are |
| OcrDatasetTools.UnknownIsLabelText | YoloAnnotationEditor/YoloAnnotationEditor/DatasetToolsControl.xaml.cs:418 | "unknown_{counter}" is a label the tools read back unchanged |
| OcrDatasetTools.MergedEntryWellFormed | YoloAnnotationEditor/YoloAnnotationEditor/DatasetToolsControl.xaml.cs:394-420 | a merged image's name and label are ones the tools read back unchanged |
| OcrDatasetTools.AllWellFormedConcat | YoloAnnotationEditor/YoloAnnotationEditor/DatasetToolsControl.xaml.cs:365-430 | two well-formed runs form a well-formed run |
| OcrDatasetTools.MergedImagesWellFormed | YoloAnnotationEditor/YoloAnnotationEditor/DatasetToolsControl.xaml.cs:390-427 | every image merged from one dataset is well formed |
| OcrDatasetTools.MergedAllWellFormed | YoloAnnotationEditor/YoloAnnotationEditor/DatasetToolsControl.xaml.cs:365-430 | every merged image is well formed |
| OcrDatasetTools.LinesParse | YoloAnnotationEditor/YoloAnnotationEditor/DatasetToolsControl.xaml.cs:376-420 | each merged line reads back as its image's new name and label |
| OcrDatasetTools.NumberedDict | YoloAnnotationEditor/YoloAnnotationEditor/DatasetToolsControl.xaml.cs:373-396 | lines naming distinct numbered images give each image its own label |
| OcrDatasetTools.MergedLabelsReadBack | YoloAnnotationEditor/YoloAnnotationEditor/DatasetToolsControl.xaml.cs:372-435 | the merged labels.txt reads back line for line, and maps each new name to the label the image was given |
| OcrDatasetTools.Targets | YoloAnnotationEditor/YoloAnnotationEditor/DatasetToolsControl.xaml.cs:397 | the target path of each copy, in order |
| OcrDatasetTools.MergedIsSequential | YoloAnnotationEditor/YoloAnnotationEditor/DatasetToolsControl.xaml.cs:396-402 | a non-empty merged dataset passes the OCR annotator's sequential-name check, so it opens without renaming |
| OcrDatasetTools.MergeImages | YoloAnnotationEditor/YoloAnnotationEditor/DatasetToolsControl.xaml.cs:390-427 | the image loop advances the counter by the number of images merged and appends their lines and copies |
| OcrDatasetTools.ProcessImage | YoloAnnotationEditor/YoloAnnotationEditor/DatasetToolsControl.xaml.cs:394-421 | an image processed as number c is copied to {c}.jpg and labelled with its own entry or "unknown_{c}" |
| OcrDatasetTools.MergeOne | YoloAnnotationEditor/YoloAnnotationEditor/DatasetToolsControl.xaml.cs:394-421 | one more processed image extends the lines and the copies by its own |
| OcrDatasetTools.MergedImagesStep | YoloAnnotationEditor/YoloAnnotationEditor/DatasetToolsControl.xaml.cs:392-427 | the next image is merged exactly when processing it does not throw |
| OcrDatasetTools.MergedImagesSnoc | YoloAnnotationEditor/YoloAnnotationEditor/DatasetToolsControl.xaml.cs:392-427 | the merged images of a list with one more image |
| OcrDatasetTools.MergeDatasets | YoloAnnotationEditor/YoloAnnotationEditor/DatasetToolsControl.xaml.cs:341-439 | the counter ends at the number of merged images; labels.txt holds one line per merged image and the copies send each image to its number |
| OcrDatasetTools.MergedAllStep | YoloAnnotationEditor/YoloAnnotationEditor/DatasetToolsControl.xaml.cs:363-430 | one more dataset appends its own merged images |
| OcrDatasetTools.ParseLabelsDict | YoloAnnotationEditor/YoloAnnotationEditor/DatasetToolsControl.xaml.cs:371-381 | the loop builds exactly labelsDict of the lines, the last line winning |
| YoloDatasetTools.MergedRegistryFirstWins | YoloAnnotationEditor/YoloAnnotationEditor/YoloDatasetToolsControl.xaml.cs:171-186 | the merged ids are exactly the ids of all registries, and each keeps the name given by the first dataset that defines it |
| YoloDatasetTools.MergeClasses | YoloAnnotationEditor/YoloAnnotationEditor/YoloDatasetToolsControl.xaml.cs:171-186 | the registry loop builds exactly the merged registry, first dataset winning |
| YoloDatasetTools.RenamedImageInjective | YoloAnnotationEditor/YoloAnnotationEditor/YoloDatasetToolsControl.xaml.cs:227 | different collision counters give different "{stem}_{counter}{ext}" names |
| YoloDatasetTools.TakenCountersBounded | YoloAnnotationEditor/YoloAnnotationEditor/YoloDatasetToolsControl.xaml.cs:224-231 | only as many consecutive counters can be taken as there are files, so the collision loop ends |
| YoloDatasetTools.TakenApart | YoloAnnotationEditor/YoloAnnotationEditor/YoloDatasetToolsControl.xaml.cs:224-231 | the file that takes a later counter is not the one that takes an earlier counter |
| YoloDatasetTools.DifferentDirs | YoloAnnotationEditor/YoloAnnotationEditor/YoloDatasetToolsControl.xaml.cs:221-222 | files in two different directories are different paths |
| YoloDatasetTools.FreeCounter | YoloAnnotationEditor/YoloAnnotationEditor/YoloDatasetToolsControl.xaml.cs:224-231 | the counter found is free, and every counter before it is taken |
| YoloDatasetTools.CollisionCounterAsWritten | YoloAnnotationEditor/YoloAnnotationEditor/YoloDatasetToolsControl.xaml.cs:221-231 | the image target is free; a counter above 0 is used only when the original name and every earlier renamed image exist; the label target is not checked |
| YoloDatasetTools.CollisionCounter | YoloAnnotationEditor/YoloAnnotationEditor/YoloDatasetToolsControl.xaml.cs:221-231 | corrected: both the image and the label targets are free, and a rename happens only when a target was taken, with every earlier counter taken |
| YoloDatasetTools.MergeImageAsWrittenKeeps | YoloAnnotationEditor/YoloAnnotationEditor/YoloDatasetToolsControl.xaml.cs:233-237 | as written, File.Copy without overwrite never replaces a file: a merge step that succeeds keeps every file |
| YoloDatasetTools.MergeImageCopies | YoloAnnotationEditor/YoloAnnotationEditor/YoloDatasetToolsControl.xaml.cs:221-237 | with the corrected counter an existing image is copied to a free target, together with its label when that exists; nothing fails and nothing is overwritten |
| YoloDatasetTools.LabelCollisionFails | YoloAnnotationEditor/YoloAnnotationEditor/YoloDatasetToolsControl.xaml.cs:225-236 | an output holding cat.png and cat.txt plus an incoming cat.jpg with a label makes the copy as written fail on cat.txt, while the corrected step succeeds |
| YoloDatasetTools.FreeCounterIsLeast | YoloAnnotationEditor/YoloAnnotationEditor/YoloDatasetToolsControl.xaml.cs:224-231 | the counter found is the least free one |
| YoloDatasetTools.FindCollisionCounter | YoloAnnotationEditor/YoloAnnotationEditor/YoloDatasetToolsControl.xaml.cs:224-231 | the while loop returns the corrected collision counter |
| YoloDatasetTools.MergeOneImage | YoloAnnotationEditor/YoloAnnotationEditor/YoloDatasetToolsControl.xaml.cs:216-239 | one image of the merge is the corrected merge step |
| YoloDatasetTools.MergeSplit | YoloAnnotationEditor/YoloAnnotationEditor/YoloDatasetToolsControl.xaml.cs:214-240 | corrected: the image loop merges the images in listing order through the corrected merge step (both targets free), the first failure ending it |
| YoloDatasetTools.MergeSplitCopiesAll | YoloAnnotationEditor/YoloAnnotationEditor/YoloDatasetToolsControl.xaml.cs:214-240 | merging a split whose images exist succeeds, overwrites nothing, leaves the directories alone, and puts every image's content in the output under its own name or a renamed one |
| YoloDatasetTools.SelectedSplits | YoloAnnotationEditor/YoloAnnotationEditor/YoloDatasetToolsControl.xaml.cs:157-160 | the ticked splits, each at most once, among train, val and test |
| YoloDatasetTools.ImageFiles | YoloAnnotationEditor/YoloAnnotationEditor/YoloDatasetToolsControl.xaml.cs:206-210 | exactly the listed names ending in .png, .jpg or .jpeg in any case, in listing order |
| YoloDatasetTools.ImagesAreNotLabelsDir | YoloAnnotationEditor/YoloAnnotationEditor/YoloDatasetToolsControl.xaml.cs:154-155 | images/{split} and labels/{split} are different directories |
| YoloDatasetTools.Registries | YoloAnnotationEditor/YoloAnnotationEditor/YoloDatasetToolsControl.xaml.cs:172-174 | the registry of each dataset, in order |
| YoloDatasetTools.MergeDatasets | YoloAnnotationEditor/YoloAnnotationEditor/YoloDatasetToolsControl.xaml.cs:139-249 | corrected: the method makes the directories, merges the registries and the datasets through the corrected merge step, and writes dataset.yaml, as MergeOutcome states |
| YoloDatasetTools.MergeOneSplit | YoloAnnotationEditor/YoloAnnotationEditor/YoloDatasetToolsControl.xaml.cs:197-240 | corrected: a split whose images directory is absent is skipped; otherwise its image files are merged through the corrected merge step and counted |
| YoloDatasetTools.MergeDataset | YoloAnnotationEditor/YoloAnnotationEditor/YoloDatasetToolsControl.xaml.cs:195-241 | corrected: the split loop of one dataset, merging through the corrected merge step |
| YoloDatasetTools.MergedInExtends | YoloAnnotationEditor/YoloAnnotationEditor/YoloDatasetToolsControl.xaml.cs:233-237 | a merged image stays merged while files are only added |
| YoloDatasetTools.MergeSplitStepCopies | YoloAnnotationEditor/YoloAnnotationEditor/YoloDatasetToolsControl.xaml.cs:197-240 | one split succeeds, keeps every file, and when present places all its images |
| YoloDatasetTools.MergeDatasetSplitsCopies | YoloAnnotationEditor/YoloAnnotationEditor/YoloDatasetToolsControl.xaml.cs:195-241 | every present split of a dataset is merged |
| YoloDatasetTools.MergeAllDatasetsCopies | YoloAnnotationEditor/YoloAnnotationEditor/YoloDatasetToolsControl.xaml.cs:191-242 | every present split of every dataset is merged |
| YoloDatasetTools.MergeDatasetsCopiesAll | YoloAnnotationEditor/YoloAnnotationEditor/YoloDatasetToolsControl.xaml.cs:139-249 | a merge whose listings name existing files succeeds, keeps every file but dataset.yaml, writes dataset.yaml from the merged registry, and puts every listed image of every present selected split in the output |
| YoloDatasetTools.WriteYamlKeeps | YoloAnnotationEditor/YoloAnnotationEditor/YoloDatasetToolsControl.xaml.cs:245 | writing dataset.yaml leaves the merged images in place |
| YoloDatasetTools.CopyAll | YoloAnnotationEditor/YoloAnnotationEditor/YoloDatasetToolsControl.xaml.cs:372-462 | the copy loops run CopyImageAndLabel for every job in order |
| YoloDatasetTools.ExportPartFiles | YoloAnnotationEditor/YoloAnnotationEditor/YoloDatasetToolsControl.xaml.cs:408-427 | one output dataset gets its directories, its copies and its dataset.yaml |
| YoloDatasetTools.SplitFilesInTree | YoloAnnotationEditor/YoloAnnotationEditor/YoloDatasetToolsControl.xaml.cs:767-774 | the image and label files of a split lie in the dataset's tree |
| YoloDatasetTools.FindImageKept | YoloAnnotationEditor/YoloAnnotationEditor/YoloDatasetToolsControl.xaml.cs:791-801 | the image found for a stem depends only on the source tree |
| YoloDatasetTools.CopyStepKeepsSources | YoloAnnotationEditor/YoloAnnotationEditor/YoloDatasetToolsControl.xaml.cs:791-825 | copying into another tree leaves the source tree as it was |
| YoloDatasetTools.TreesApart | YoloAnnotationEditor/YoloAnnotationEditor/YoloDatasetToolsControl.xaml.cs:791-825 | two different dataset roots share no split file |
| YoloDatasetTools.CopyStepCopies | YoloAnnotationEditor/YoloAnnotationEditor/YoloDatasetToolsControl.xaml.cs:791-825 | a job's image and its label, when it has one, land in the destination with their source contents |
| YoloDatasetTools.CopyStepKeepsCopied | YoloAnnotationEditor/YoloAnnotationEditor/YoloDatasetToolsControl.xaml.cs:791-825 | a later copy never undoes an earlier one: where it writes the same path, it writes the same content |
| YoloDatasetTools.ImageIsNoLabel | YoloAnnotationEditor/YoloAnnotationEditor/YoloDatasetToolsControl.xaml.cs:767-774 | an images path is never a labels path |
| YoloDatasetTools.StemsOfLabels | YoloAnnotationEditor/YoloAnnotationEditor/YoloDatasetToolsControl.xaml.cs:816-817 | equal label names come from equal stems |
| YoloDatasetTools.TwoWritesKeep | YoloAnnotationEditor/YoloAnnotationEditor/YoloDatasetToolsControl.xaml.cs:806-822 | a value survives one or two writes that write it again at its key |
| YoloDatasetTools.SamePathSameParts | YoloAnnotationEditor/YoloAnnotationEditor/YoloDatasetToolsControl.xaml.cs:767-774 | equal split file paths have equal splits and names |
| YoloDatasetTools.CopyJobsKeeps | YoloAnnotationEditor/YoloAnnotationEditor/YoloDatasetToolsControl.xaml.cs:372-376 | further copies keep the source tree and every job already copied |
| YoloDatasetTools.CopyJobsCopies | YoloAnnotationEditor/YoloAnnotationEditor/YoloDatasetToolsControl.xaml.cs:372-422 | copying the jobs into another tree copies every job's image and label and leaves the source tree as it was |
| YoloDatasetTools.CopyStepKeepsOutside | YoloAnnotationEditor/YoloAnnotationEditor/YoloDatasetToolsControl.xaml.cs:791-825 | one copy changes nothing outside the destination tree |
| YoloDatasetTools.CopyJobsKeepOutside | YoloAnnotationEditor/YoloAnnotationEditor/YoloDatasetToolsControl.xaml.cs:372-376 | the copies change nothing outside the destination tree |
| YoloDatasetTools.ExportPartCopies | YoloAnnotationEditor/YoloAnnotationEditor/YoloDatasetToolsControl.xaml.cs:408-427 | exporting a part from another tree copies every job, writes the part's dataset.yaml, creates exactly the part's directories, and changes nothing outside the part |
| YoloDatasetTools.CopyJobsDirs | YoloAnnotationEditor/YoloAnnotationEditor/YoloDatasetToolsControl.xaml.cs:791-825 | the copies create no directories |
| YoloDatasetTools.CopiedAfterWrite | YoloAnnotationEditor/YoloAnnotationEditor/YoloDatasetToolsControl.xaml.cs:425 | a write outside the destination tree keeps copied jobs copied |
| YoloDatasetTools.SplitImages | YoloAnnotationEditor/YoloAnnotationEditor/YoloDatasetToolsControl.xaml.cs:363-439 | the image stems of each selected split, in order |
| YoloDatasetTools.JobsOf | YoloAnnotationEditor/YoloAnnotationEditor/YoloDatasetToolsControl.xaml.cs:418-420 | one job per stem of a split, in order |
| YoloDatasetTools.JobsOfSplitsMembers | YoloAnnotationEditor/YoloAnnotationEditor/YoloDatasetToolsControl.xaml.cs:415-423 | a (split, stem) job is planned exactly when the stem is among that split's stems |
| YoloDatasetTools.CollectJobs | YoloAnnotationEditor/YoloAnnotationEditor/YoloDatasetToolsControl.xaml.cs:437-445 | the collect loop builds the jobs of all splits, split after split |
| YoloDatasetTools.SubsetStems | YoloAnnotationEditor/YoloAnnotationEditor/YoloDatasetToolsControl.xaml.cs:368 | the first subsetCount stems of each shuffled split |
| YoloDatasetTools.SubsetSizes | YoloAnnotationEditor/YoloAnnotationEditor/YoloDatasetToolsControl.xaml.cs:368 | each split contributes min(subsetCount, its image count) of its own images, and none for a count below one |
| YoloDatasetTools.SplitGroups | YoloAnnotationEditor/YoloAnnotationEditor/YoloDatasetToolsControl.xaml.cs:387-405 | a negative part count fails as the array allocation does; otherwise there are `parts` groups, and group i holds slice i of size ceil(n/parts) of every split |
| YoloDatasetTools.Column | YoloAnnotationEditor/YoloAnnotationEditor/YoloDatasetToolsControl.xaml.cs:400-404 | part i of every split, split after split |
| YoloDatasetTools.ColumnStep | YoloAnnotationEditor/YoloAnnotationEditor/YoloDatasetToolsControl.xaml.cs:400-404 | one more split adds its own part i |
| YoloDatasetTools.AppendParts | YoloAnnotationEditor/YoloAnnotationEditor/YoloDatasetToolsControl.xaml.cs:398-404 | the inner loop adds the split's part i to every group i of the array |
| YoloDatasetTools.BuildSplitGroups | YoloAnnotationEditor/YoloAnnotationEditor/YoloDatasetToolsControl.xaml.cs:387-405 | the array loop builds exactly the split groups |
| YoloDatasetTools.PartsCover | YoloAnnotationEditor/YoloAnnotationEditor/YoloDatasetToolsControl.xaml.cs:398-404 | the parts of a split together are the split in order, each holds at most ceil(n/parts) stems, and a stem of a split without duplicates lies in one part only |
| YoloDatasetTools.ByCountParts | YoloAnnotationEditor/YoloAnnotationEditor/YoloDatasetToolsControl.xaml.cs:447-456 | ceil(n/count) consecutive slices of count; none for a negative count |
| YoloDatasetTools.ByCountCover | YoloAnnotationEditor/YoloAnnotationEditor/YoloDatasetToolsControl.xaml.cs:447-456 | the slices together are the shuffled list; every slice but the last has exactly count images, and the last has one to count |
| YoloDatasetTools.SplitMapLastWins | YoloAnnotationEditor/YoloAnnotationEditor/YoloDatasetToolsControl.xaml.cs:437-445 | every listed stem is in imageSplitMap, mapped to the last split that lists it |
| YoloDatasetTools.BuildImageSplitMap | YoloAnnotationEditor/YoloAnnotationEditor/YoloDatasetToolsControl.xaml.cs:434-445 | allImages is the concatenation of the splits' stems and imageSplitMap is their map, later splits winning |
| YoloDatasetTools.AddSplitImages | YoloAnnotationEditor/YoloAnnotationEditor/YoloDatasetToolsControl.xaml.cs:440-444 | the inner loop appends the split's stems and maps each to the split |
| YoloDatasetTools.ByCountJobsAsWritten | YoloAnnotationEditor/YoloAnnotationEditor/YoloDatasetToolsControl.xaml.cs:458-462 | as written, each stem of a part is copied from the split imageSplitMap records for it |
| YoloDatasetTools.DuplicateStemMap | YoloAnnotationEditor/YoloAnnotationEditor/YoloDatasetToolsControl.xaml.cs:437-445 | a stem listed in train and val makes allImages hold it twice and map it to val |
| YoloDatasetTools.ShuffledPair | YoloAnnotationEditor/YoloAnnotationEditor/YoloDatasetToolsControl.xaml.cs:447 | any shuffle of the two copies is the two copies |
| YoloDatasetTools.DuplicateStemLosesImage | YoloAnnotationEditor/YoloAnnotationEditor/YoloDatasetToolsControl.xaml.cs:434-462 | with a stem in train and val and a count of 1, as written both parts copy the val image and the train image is never copied; with (split, stem) pairs it is copied |
| YoloDatasetTools.PairInParts | YoloAnnotationEditor/YoloAnnotationEditor/YoloDatasetToolsControl.xaml.cs:456 | two copies in parts of one make two parts |
| YoloDatasetTools.AsWrittenJob | YoloAnnotationEditor/YoloAnnotationEditor/YoloDatasetToolsControl.xaml.cs:460-461 | the part copies from val |
| YoloDatasetTools.TrainJobPlanned | YoloAnnotationEditor/YoloAnnotationEditor/YoloDatasetToolsControl.xaml.cs:447-462 | corrected: the train image is planned |
| YoloDatasetTools.ByCountPairsCover | YoloAnnotationEditor/YoloAnnotationEditor/YoloDatasetToolsControl.xaml.cs:434-462 | corrected: with (split, stem) pairs, every listed image of every split is in exactly as many parts as it is listed |
| YoloDatasetTools.PartPath | YoloAnnotationEditor/YoloAnnotationEditor/YoloDatasetToolsControl.xaml.cs:410-452 | part_{i+1} lies directly inside the output directory |
| YoloDatasetTools.PartPathInjective | YoloAnnotationEditor/YoloAnnotationEditor/YoloDatasetToolsControl.xaml.cs:410-452 | different parts have different directories |
| YoloDatasetTools.Shuffled | YoloAnnotationEditor/YoloAnnotationEditor/YoloDatasetToolsControl.xaml.cs:368-396 | every split's stems shuffled by its own draw of the random order |
| YoloDatasetTools.PartsPlan | YoloAnnotationEditor/YoloAnnotationEditor/YoloDatasetToolsControl.xaml.cs:408-427 | part i copies group i, split by split |
| YoloDatasetTools.CountPlan | YoloAnnotationEditor/YoloAnnotationEditor/YoloDatasetToolsControl.xaml.cs:450-466 | part i copies chunk i |
| YoloDatasetTools.SplitPlan | YoloAnnotationEditor/YoloAnnotationEditor/YoloDatasetToolsControl.xaml.cs:352-467 | corrected: no plan exactly when the part count is negative (the array allocation throws) or the count is 0 (whose outcome is not modelled); the by-count plan chunks (split, stem) pairs rather than stems looked up in a stem-keyed map |
| YoloDatasetTools.BuildPartsPlan | YoloAnnotationEditor/YoloAnnotationEditor/YoloDatasetToolsControl.xaml.cs:408-427 | the loop builds exactly the split-into-parts plan |
| YoloDatasetTools.BuildCountPlan | YoloAnnotationEditor/YoloAnnotationEditor/YoloDatasetToolsControl.xaml.cs:450-466 | the loop builds exactly the by-count plan |
| YoloDatasetTools.ExportParts | YoloAnnotationEditor/YoloAnnotationEditor/YoloDatasetToolsControl.xaml.cs:408-466 | the planned datasets are exported one after another |
| YoloDatasetTools.ReadSplitImages | YoloAnnotationEditor/YoloAnnotationEditor/YoloDatasetToolsControl.xaml.cs:363-439 | the listing of every selected split |
| YoloDatasetTools.BuildSplitPlan | YoloAnnotationEditor/YoloAnnotationEditor/YoloDatasetToolsControl.xaml.cs:352-467 | corrected: the three branches build exactly the plan of the selected mode, with the by-count branch over (split, stem) pairs |
| YoloDatasetTools.SplitDataset | YoloAnnotationEditor/YoloAnnotationEditor/YoloDatasetToolsControl.xaml.cs:318-468 | corrected: the method lists, plans and exports as SplitDatasetOutcome states, with the corrected by-count plan |
| YoloDatasetTools.InputNotInPart | YoloAnnotationEditor/YoloAnnotationEditor/YoloDatasetToolsControl.xaml.cs:410-452 | an input apart from the output directory shares no file with a part |
| YoloDatasetTools.OutsideNotInPart | YoloAnnotationEditor/YoloAnnotationEditor/YoloDatasetToolsControl.xaml.cs:410-452 | a path outside the output directory is in no part |
| YoloDatasetTools.CopiedJobKept | YoloAnnotationEditor/YoloAnnotationEditor/YoloDatasetToolsControl.xaml.cs:408-427 | a copied job stays copied while its part is kept |
| YoloDatasetTools.CopiedJobRebase | YoloAnnotationEditor/YoloAnnotationEditor/YoloDatasetToolsControl.xaml.cs:408-427 | a job copied from an unchanged input counts as copied from the original input |
| YoloDatasetTools.ExportAllCopies | YoloAnnotationEditor/YoloAnnotationEditor/YoloDatasetToolsControl.xaml.cs:408-466 | every job of every part is copied from the input as it was, and a path no export writes keeps its contents |
| YoloDatasetTools.PartsUnderRest | YoloAnnotationEditor/YoloAnnotationEditor/YoloDatasetToolsControl.xaml.cs:408-427 | the later parts are still distinct directories of the output |
| YoloDatasetTools.UntouchedRest | YoloAnnotationEditor/YoloAnnotationEditor/YoloDatasetToolsControl.xaml.cs:408-427 | a path no export writes is written neither by the first nor by the later ones |
| YoloDatasetTools.PartKeptByRest | YoloAnnotationEditor/YoloAnnotationEditor/YoloDatasetToolsControl.xaml.cs:408-427 | the later exports leave the first part's tree as it was |
| YoloDatasetTools.SplitPlanUnder | YoloAnnotationEditor/YoloAnnotationEditor/YoloDatasetToolsControl.xaml.cs:356-452 | every planned dataset is a distinct directory directly inside the output |
| YoloDatasetTools.SplitDatasetCopies | YoloAnnotationEditor/YoloAnnotationEditor/YoloDatasetToolsControl.xaml.cs:318-468 | with the input apart from the output, SplitDataset copies every planned image and label into its part and changes no file outside the output directory |
| YoloDatasetHelper.CreateDirectoryStructure | YoloAnnotationEditor/YoloAnnotationEditor/Helpers/YoloDatasetHelper.cs:295-304 | the files are unchanged; the directories gain the root with its ancestors and images/{split} and labels/{split} for every split |
| YoloDatasetHelper.AncestorsOfSplitDir | YoloAnnotationEditor/YoloAnnotationEditor/Helpers/YoloDatasetHelper.cs:301-302 | creating root/kind/split creates root's ancestors, root/kind and root/kind/split |
| YoloDatasetHelper.SplitDirsMembers | YoloAnnotationEditor/YoloAnnotationEditor/Helpers/YoloDatasetHelper.cs:299-303 | the created directories are exactly images/, labels/ and their split subdirectories |
| YoloDatasetHelper.CreatedStructureIsValid | YoloAnnotationEditor/YoloAnnotationEditor/Helpers/YoloDatasetHelper.cs:22-31 | creating the structure for at least one split gives a dataset that ValidateYoloDataset accepts, with every split's directories |
| YoloDatasetHelper.GetAvailableSplits | YoloAnnotationEditor/YoloAnnotationEditor/Helpers/YoloDatasetHelper.cs:273-290 | a split is reported exactly when images/ exists and it is train, val or test with its images/{split} directory; the splits come in the order train, val, test |
| YoloDatasetHelper.StemsWhere | YoloAnnotationEditor/YoloAnnotationEditor/Helpers/YoloDatasetHelper.cs:43-48 | the stems of exactly the kept names, in listing order |
| YoloDatasetHelper.GetImagesFromSplit | YoloAnnotationEditor/YoloAnnotationEditor/Helpers/YoloDatasetHelper.cs:36-49 | nothing when the split's image directory is absent; otherwise exactly the stems of its files ending in .png, .jpg or .jpeg in any case |
| YoloDatasetHelper.GetLabelsFromSplit | YoloAnnotationEditor/YoloAnnotationEditor/Helpers/YoloDatasetHelper.cs:54-64 | nothing when the split's label directory is absent; otherwise exactly the stems of its *.txt files |
| YoloDatasetHelper.ImageFileIsListed | YoloAnnotationEditor/YoloAnnotationEditor/Helpers/YoloDatasetHelper.cs:36-49 | every image that the copy can look up by stem is among the split's images |
| YoloDatasetHelper.ImageExtensionName | YoloAnnotationEditor/YoloAnnotationEditor/Helpers/YoloDatasetHelper.cs:44-47 | a stem with one of the looked-up extensions is an image name whose stem is that stem |
| YoloDatasetHelper.CountedClassIds | YoloAnnotationEditor/YoloAnnotationEditor/Helpers/YoloDatasetHelper.cs:125-137 | at most one counted id per line |
| YoloDatasetHelper.ReadLabelFile | YoloAnnotationEditor/YoloAnnotationEditor/Helpers/YoloDatasetHelper.cs:115-145 | empty for a missing file and when reading it throws (the empty catch); otherwise, for each class id, the number of non-blank lines with at least five tokens whose first token parses as that id |
| YoloDatasetHelper.CountLabelLines | YoloAnnotationEditor/YoloAnnotationEditor/Helpers/YoloDatasetHelper.cs:125-137 | the line loop builds the tally of the counted ids |
| YoloDatasetHelper.CountedStep | YoloAnnotationEditor/YoloAnnotationEditor/Helpers/YoloDatasetHelper.cs:127-136 | one more line adds its id exactly when it is counted |
| YoloDatasetHelper.LabelCountsTotal | YoloAnnotationEditor/YoloAnnotationEditor/Helpers/YoloDatasetHelper.cs:125-137 | the counts add up to the number of counted lines |
| YoloDatasetHelper.CountedSameLength | YoloAnnotationEditor/YoloAnnotationEditor/Helpers/YoloDatasetHelper.cs:131 | one id per counted line |
| YoloDatasetHelper.UncountedLines | YoloAnnotationEditor/YoloAnnotationEditor/Helpers/YoloDatasetHelper.cs:127-131 | blank lines and lines with fewer than five tokens are never counted |
| YoloDatasetHelper.ValidateYoloCoordinates | YoloAnnotationEditor/YoloAnnotationEditor/Helpers/YoloDatasetHelper.cs:150-184 | true exactly when there is no error, exactly when the line has at least five tokens, a non-negative integer class id and four coordinates that parse and lie in [0, 1]; otherwise the error is the first check that fails, with its token and position |
| YoloDatasetHelper.NameEntries | YoloAnnotationEditor/YoloAnnotationEditor/Helpers/YoloDatasetHelper.cs:204-207 | one names entry per class |
| YoloDatasetHelper.CreateDatasetYaml | YoloAnnotationEditor/YoloAnnotationEditor/Helpers/YoloDatasetHelper.cs:189-210 | the text is the dataset.yaml lines, each ended by CR LF, and it is written to {outputPath}/dataset.yaml |
| YoloDatasetHelper.WriteYamlHeader | YoloAnnotationEditor/YoloAnnotationEditor/Helpers/YoloDatasetHelper.cs:191-202 | the path, split, nc and names lines |
| YoloDatasetHelper.AppendNameEntries | YoloAnnotationEditor/YoloAnnotationEditor/Helpers/YoloDatasetHelper.cs:204-207 | the loop appends one entry per class, by ascending id |
| YoloDatasetHelper.AppendLine | YoloAnnotationEditor/YoloAnnotationEditor/Helpers/YoloDatasetHelper.cs:192 | AppendLine adds the line and CR LF |
| YoloDatasetHelper.AppendSplitLine | YoloAnnotationEditor/YoloAnnotationEditor/Helpers/YoloDatasetHelper.cs:194-199 | a split line is appended only when the split is included |
| YoloDatasetHelper.WriteAllLinesConcat | YoloAnnotationEditor/YoloAnnotationEditor/Helpers/YoloDatasetHelper.cs:191-209 | the text of two runs of lines is the concatenation of their texts |
| YoloDatasetHelper.WriteAllLinesAppend | YoloAnnotationEditor/YoloAnnotationEditor/Helpers/YoloDatasetHelper.cs:191-209 | one more line adds its text and CR LF |
| YoloDatasetHelper.DatasetYamlSplitOrderIrrelevant | YoloAnnotationEditor/YoloAnnotationEditor/Helpers/YoloDatasetHelper.cs:194-199 | the file depends only on which splits are included, not on the order or repetition of the list |
| YoloDatasetHelper.DatasetYamlHeader | YoloAnnotationEditor/YoloAnnotationEditor/Helpers/YoloDatasetHelper.cs:191-207 | the file is the path line, one line per included split, "nc: {count}", "names:", then one entry per class |
| YoloDatasetHelper.NameEntryAt | YoloAnnotationEditor/YoloAnnotationEditor/Helpers/YoloDatasetHelper.cs:204-207 | the k-th entry is that of the k-th smallest id |
| YoloDatasetHelper.NameEntriesCover | YoloAnnotationEditor/YoloAnnotationEditor/Helpers/YoloDatasetHelper.cs:204-207 | the names section lists every class and nothing else |
| YoloDatasetHelper.NameEntriesAscending | YoloAnnotationEditor/YoloAnnotationEditor/Helpers/YoloDatasetHelper.cs:204-207 | the entries follow the class ids in strictly ascending order |
| YoloDatasetHelper.DatasetYamlReadBack | YoloAnnotationEditor/YoloAnnotationEditor/Helpers/YoloDatasetHelper.cs:189-210 | reading dataset.yaml back gives its lines, when the path and the class names hold no line breaks |
| YoloDatasetHelper.YamlHeaderNoBreak | YoloAnnotationEditor/YoloAnnotationEditor/Helpers/YoloDatasetHelper.cs:192-202 | the header lines hold no line break when the path holds none |
| YoloDatasetHelper.NameEntriesNoBreak | YoloAnnotationEditor/YoloAnnotationEditor/Helpers/YoloDatasetHelper.cs:204-207 | the entries hold no line break when the names hold none |
| YoloDatasetHelper.NameEntryNoBreak | YoloAnnotationEditor/YoloAnnotationEditor/Helpers/YoloDatasetHelper.cs:206 | one entry holds no line break when its name holds none |
| YoloDatasetHelper.NoBreakJoin | YoloAnnotationEditor/YoloAnnotationEditor/Helpers/YoloDatasetHelper.cs:206 | joining two texts without line breaks gives none |
| YoloDatasetHelper.NoBreaksConcat | YoloAnnotationEditor/YoloAnnotationEditor/Helpers/YoloDatasetHelper.cs:191-207 | two runs of lines without breaks together have none |
| YoloDatasetHelper.PathTextNoBreak | YoloAnnotationEditor/YoloAnnotationEditor/Helpers/YoloDatasetHelper.cs:192 | the path text holds no line break when its components hold none |
| YoloDatasetHelper.NatToStringNoBreak | YoloAnnotationEditor/YoloAnnotationEditor/Helpers/YoloDatasetHelper.cs:201-206 | a number's text holds no line break |
| YoloDatasetHelper.FindImage | YoloAnnotationEditor/YoloAnnotationEditor/Helpers/YoloDatasetHelper.cs:227-238 | nothing exactly when no stem+ext exists for any extension; otherwise the first existing one in the order .png, .jpg, .jpeg, .PNG, .JPG, .JPEG |
| YoloDatasetHelper.FindImageFrom | YoloAnnotationEditor/YoloAnnotationEditor/Helpers/YoloDatasetHelper.cs:230-238 | the first existing image among the extensions from the given one on |
| YoloDatasetHelper.GetImagePath | YoloAnnotationEditor/YoloAnnotationEditor/Helpers/YoloDatasetHelper.cs:309-324 | the path of the first existing image for the stem, or null when none exists |
| YoloDatasetHelper.LabelPathOfStem | YoloAnnotationEditor/YoloAnnotationEditor/Helpers/YoloDatasetHelper.cs:329-332 | the label path is {stem}.txt in labels/{split}, and different stems have different label paths |
| YoloDatasetHelper.CopyImageAndLabel | YoloAnnotationEditor/YoloAnnotationEditor/Helpers/YoloDatasetHelper.cs:215-253 | with overwrite, the first existing image goes into the destination split, and its label goes too when the source label exists; nothing is copied when no image exists; the helper creates the destination directories and the tools' copy does not |
| YoloDatasetHelper.DistinctTrees | YoloAnnotationEditor/YoloAnnotationEditor/Helpers/YoloDatasetHelper.cs:217-220 | no split file of one dataset is a file of another |
| YoloDatasetHelper.ImagesAreNotLabels | YoloAnnotationEditor/YoloAnnotationEditor/Helpers/YoloDatasetHelper.cs:217-220 | image and label directories share no file |
| YoloDatasetHelper.CopyKeepsSources | YoloAnnotationEditor/YoloAnnotationEditor/Helpers/YoloDatasetHelper.cs:215-253 | the copy leaves every file of the source's image and label directories as it was |
| YoloDatasetHelper.TwoUpdatesKeep | YoloAnnotationEditor/YoloAnnotationEditor/Helpers/YoloDatasetHelper.cs:247-252 | writes at other paths leave a path as it was |
| YoloDatasetHelper.UpdateSame | YoloAnnotationEditor/YoloAnnotationEditor/Helpers/YoloDatasetHelper.cs:247 | writing a file with the content it already has changes nothing |
| YoloDatasetHelper.CopyImageAndLabelIdempotent | YoloAnnotationEditor/YoloAnnotationEditor/Helpers/YoloDatasetHelper.cs:215-253 | copying an image and its label a second time changes nothing |
| YoloDatasetHelper.CopyTwiceSameFiles | YoloAnnotationEditor/YoloAnnotationEditor/Helpers/YoloDatasetHelper.cs:215-253 | a second copy leaves the files as the first left them |
| YoloDatasetHelper.CopyTwiceFound | YoloAnnotationEditor/YoloAnnotationEditor/Helpers/YoloDatasetHelper.cs:230-252 | the second copy finds the same image and rewrites the values the first left |
| YoloDatasetHelper.CopyTargets | YoloAnnotationEditor/YoloAnnotationEditor/Helpers/YoloDatasetHelper.cs:243-252 | after the copy the target image, and the target label when the source has one, hold the source's contents |
| YoloDatasetHelper.FindImageSameFiles | YoloAnnotationEditor/YoloAnnotationEditor/Helpers/YoloDatasetHelper.cs:227-238 | the lookup depends only on which stem+ext files exist |
| YoloBulkCopy.QueuedImages | YoloAnnotationEditor/YoloAnnotationEditor/Helpers/YoloDatasetHelper.cs:445-458 | at most one image per stem, and each queued image exists in the source image directory |
| YoloBulkCopy.QueuedLabels | YoloAnnotationEditor/YoloAnnotationEditor/Helpers/YoloDatasetHelper.cs:460-467 | at most one label per stem, and each queued label exists in the source label directory |
| YoloBulkCopy.QueuedImagesMembers | YoloAnnotationEditor/YoloAnnotationEditor/Helpers/YoloDatasetHelper.cs:445-458 | an image is queued exactly when it is the first existing image of one of the stems, by extension preference |
| YoloBulkCopy.QueuedLabelsMembers | YoloAnnotationEditor/YoloAnnotationEditor/Helpers/YoloDatasetHelper.cs:460-467 | a label is queued exactly when it is {stem}.txt for one of the stems and exists |
| YoloBulkCopy.PlanCopy | YoloAnnotationEditor/YoloAnnotationEditor/Helpers/YoloDatasetHelper.cs:439-468 | the loop builds exactly the queued image and label lists |
| YoloBulkCopy.InDirOf | YoloAnnotationEditor/YoloAnnotationEditor/Helpers/YoloDatasetHelper.cs:482-488 | a path in the directory is a target exactly when its name is one of the names |
| YoloBulkCopy.CopyEach | YoloAnnotationEditor/YoloAnnotationEditor/Helpers/YoloDatasetHelper.cs:480-627 | the copy loop never changes the directories |
| YoloBulkCopy.CopyFiles | YoloAnnotationEditor/YoloAnnotationEditor/Helpers/YoloDatasetHelper.cs:480-627 | the loop performs the copies of CopyEach in order, stopping at the first failure |
| YoloBulkCopy.CopyEachFailed | YoloAnnotationEditor/YoloAnnotationEditor/Helpers/YoloDatasetHelper.cs:480-490 | once a copy fails, the remaining names change nothing and the run ends with that failure |
| YoloBulkCopy.OtherDirectory | YoloAnnotationEditor/YoloAnnotationEditor/Helpers/YoloDatasetHelper.cs:430-433 | files in different directories are different paths |
| YoloBulkCopy.CopyEachEffect | YoloAnnotationEditor/YoloAnnotationEditor/Helpers/YoloDatasetHelper.cs:480-627 | between different directories with every source present, every copy succeeds; each target holds the source's contents, a skipped existing target keeps its own, and every other path is unchanged |
| YoloBulkCopy.CopyStep | YoloAnnotationEditor/YoloAnnotationEditor/Helpers/YoloDatasetHelper.cs:617-619 | one more copy keeps that description true for the longer run |
| YoloBulkCopy.ThreadCount | YoloAnnotationEditor/YoloAnnotationEditor/Helpers/YoloDatasetHelper.cs:497 | at least one thread and at least the processor count minus two, and no more than the larger of these |
| YoloBulkCopy.ToolArguments | YoloAnnotationEditor/YoloAnnotationEditor/Helpers/YoloDatasetHelper.cs:524-539 | the arguments are the source directory, the target directory, the batch's names in order, then /MT:{threads}, /R:2, /W:1, /NFL, /NDL, /NJH, /NJS |
| YoloBulkCopy.ToolEffect | YoloAnnotationEditor/YoloAnnotationEditor/Helpers/YoloDatasetHelper.cs:523-541 | a run keeps the directories and every file, adds files only under the batch's names in the target, and adds each name it reports copied whose source exists |
| YoloBulkCopy.RunBatches | YoloAnnotationEditor/YoloAnnotationEditor/Helpers/YoloDatasetHelper.cs:514-554 | the batch loop does what the sequence of runs of batches Skip(j * 1000).Take(1000) does |
| YoloBulkCopy.RunOneBatch | YoloAnnotationEditor/YoloAnnotationEditor/Helpers/YoloDatasetHelper.cs:516-553 | one pass logs the batch, runs the tool on it, counts its names and logs either the warning for exit code 8 or more or the completion |
| YoloBulkCopy.BatchNumber | YoloAnnotationEditor/YoloAnnotationEditor/Helpers/YoloDatasetHelper.cs:517 | the batch that starts at j * 1000 is number j + 1 |
| YoloBulkCopy.RunBatchesStep | YoloAnnotationEditor/YoloAnnotationEditor/Helpers/YoloDatasetHelper.cs:514-554 | the runs from batch j are batch j followed by the runs from batch j + 1 |
| YoloBulkCopy.ExitCodesOnlyLogged | YoloAnnotationEditor/YoloAnnotationEditor/Helpers/YoloDatasetHelper.cs:545-553 | exit codes do not change the files, the count or the batches: tools that copy and throw alike leave the same state whatever codes they report |
| YoloBulkCopy.RunsArePages | YoloAnnotationEditor/YoloAnnotationEditor/Helpers/YoloDatasetHelper.cs:514-554 | without exceptions, the runs from batch j on hand over the pages from j on and count every name not yet handed over |
| YoloBulkCopy.RunBatchExits | YoloAnnotationEditor/YoloAnnotationEditor/Helpers/YoloDatasetHelper.cs:543 | a run that exits hands over its batch and adds its size to the count |
| YoloBulkCopy.PageCount | YoloAnnotationEditor/YoloAnnotationEditor/Helpers/YoloDatasetHelper.cs:514-516 | the names after page j are those of page j and those after page j + 1 |
| YoloBulkCopy.BatchesCoverNames | YoloAnnotationEditor/YoloAnnotationEditor/Helpers/YoloDatasetHelper.cs:505-518 | without exceptions, a kind is handed over in ceil(n / 1000) batches of one to 1000 names that together are the names in order, and every name is counted |
| YoloBulkCopy.WithDestinationDirs | YoloAnnotationEditor/YoloAnnotationEditor/Helpers/YoloDatasetHelper.cs:435-437 | creating the destination directories changes no file |
| YoloBulkCopy.CopyKind | YoloAnnotationEditor/YoloAnnotationEditor/Helpers/YoloDatasetHelper.cs:510-606 | a kind with no names does nothing; otherwise the start is logged, the batches run and, unless a run threw, the completion is logged |
| YoloBulkCopy.CopyFallback | YoloAnnotationEditor/YoloAnnotationEditor/Helpers/YoloDatasetHelper.cs:478-628 | the images, then the labels, are copied as Fallback says |
| YoloBulkCopy.CopyImageAndLabelWithRobocopy | YoloAnnotationEditor/YoloAnnotationEditor/Helpers/YoloDatasetHelper.cs:424-630 | no stems do nothing; otherwise the destination directories are created, the files are planned, and then either the overwriting fallback runs (the tool is unavailable) or the tool copy does |
| YoloBulkCopy.CopyWithTool | YoloAnnotationEditor/YoloAnnotationEditor/Helpers/YoloDatasetHelper.cs:502-629 | images then labels through the tool; once a run throws, the rest is skipped and the fallback that skips existing targets runs |
| YoloBulkCopy.RunBatchesKeys | YoloAnnotationEditor/YoloAnnotationEditor/Helpers/YoloDatasetHelper.cs:514-554 | the runs keep every file and add files only under the names in the target directory |
| YoloBulkCopy.RunBatchesComplete | YoloAnnotationEditor/YoloAnnotationEditor/Helpers/YoloDatasetHelper.cs:514-554 | when every run copies its whole batch, runs that end without an exception leave every target present |
| YoloBulkCopy.BatchTargets | YoloAnnotationEditor/YoloAnnotationEditor/Helpers/YoloDatasetHelper.cs:523-543 | a full run of page j leaves the targets of the pages up to j + 1 present, and the sources too |
| YoloBulkCopy.RunKindKeys | YoloAnnotationEditor/YoloAnnotationEditor/Helpers/YoloDatasetHelper.cs:510-557 | a kind keeps every file and adds only targets; after an exception it does nothing |
| YoloBulkCopy.RunKindComplete | YoloAnnotationEditor/YoloAnnotationEditor/Helpers/YoloDatasetHelper.cs:510-557 | with full runs, a kind that ends without an exception leaves every target present |
| YoloBulkCopy.CopyEachKeys | YoloAnnotationEditor/YoloAnnotationEditor/Helpers/YoloDatasetHelper.cs:480-627 | copies between different directories whose sources exist succeed and add exactly the targets |
| YoloBulkCopy.DestinationsDiffer | YoloAnnotationEditor/YoloAnnotationEditor/Helpers/YoloDatasetHelper.cs:430-433 | the source and the destination directories of a split differ when the datasets differ |
| YoloBulkCopy.TargetOf | YoloAnnotationEditor/YoloAnnotationEditor/Helpers/YoloDatasetHelper.cs:482-488 | a target is the path of one of the images or labels in its destination directory |
| YoloBulkCopy.FallbackKeys | YoloAnnotationEditor/YoloAnnotationEditor/Helpers/YoloDatasetHelper.cs:478-628 | either fallback succeeds and adds exactly the targets |
| YoloBulkCopy.FallbacksSameFiles | YoloAnnotationEditor/YoloAnnotationEditor/Helpers/YoloDatasetHelper.cs:478-628 | the overwriting fallback and the one that skips existing targets leave the same set of files |
| YoloBulkCopy.ToolCopyFiles | YoloAnnotationEditor/YoloAnnotationEditor/Helpers/YoloDatasetHelper.cs:502-629 | the tool copy ends without error, keeps every file and adds only targets; it adds all of them when it fell back after an exception, whatever the earlier runs copied, and when every run copies its whole batch |
| YoloBulkCopy.BulkCopyFiles | YoloAnnotationEditor/YoloAnnotationEditor/Helpers/YoloDatasetHelper.cs:424-630 | every path through the bulk copy ends without error, keeps every file and adds only the stems' destination images and labels; without the tool, or with a tool whose runs copy whole batches, it adds all of them |
| YoloBulkCopy.BulkCopyFallbackFiles | YoloAnnotationEditor/YoloAnnotationEditor/Helpers/YoloDatasetHelper.cs:608-628 | when the tool threw and the copy fell back to File.Copy, every destination image and label of the stems is present, whatever the earlier runs copied |
| YoloDatasetFilter.ClassItems | YoloAnnotationEditor/YoloAnnotationEditor/YoloDatasetToolsControl.xaml.cs:518-523 | one item per class of the dataset |
| YoloDatasetFilter.ItemsOf | YoloAnnotationEditor/YoloAnnotationEditor/YoloDatasetToolsControl.xaml.cs:520-523 | item i is "{id}: {name}" of the i-th key |
| YoloDatasetFilter.ParseAll | YoloAnnotationEditor/YoloAnnotationEditor/YoloDatasetToolsControl.xaml.cs:590-595 | every item is parsed, in order; the result is None exactly when some item does not parse |
| YoloDatasetFilter.ClassItemRoundTrip | YoloAnnotationEditor/YoloAnnotationEditor/YoloDatasetToolsControl.xaml.cs:522-593 | reading back the id of the item "{id}: {name}" gives the 32-bit id, whatever the name, including one that contains ':' |
| YoloDatasetFilter.ClassItemsSelect | YoloAnnotationEditor/YoloAnnotationEditor/YoloDatasetToolsControl.xaml.cs:518-595 | selecting every item of the class list gives exactly the dataset's class ids, in ascending order |
| YoloDatasetFilter.ParseAllExact | YoloAnnotationEditor/YoloAnnotationEditor/YoloDatasetToolsControl.xaml.cs:590-595 | items that each parse to a value give those values in order |
| YoloDatasetFilter.ItemsSelect | YoloAnnotationEditor/YoloAnnotationEditor/YoloDatasetToolsControl.xaml.cs:518-593 | each item of the class list reads back as the id it was built from |
| YoloDatasetFilter.ItemSelects | YoloAnnotationEditor/YoloAnnotationEditor/YoloDatasetToolsControl.xaml.cs:593 | item i reads back as the i-th smallest id |
| YoloDatasetFilter.LineClassIdOfYoloLine | YoloAnnotationEditor/YoloAnnotationEditor/YoloDatasetToolsControl.xaml.cs:841-848 | a YOLO line "{id} {rest}" gives its class id |
| YoloDatasetFilter.LabelClassIdsMembers | YoloAnnotationEditor/YoloAnnotationEditor/YoloDatasetToolsControl.xaml.cs:838-850 | an id is among the label file's classes exactly when some line's first piece parses as it |
| YoloDatasetFilter.IdsGivenMembers | YoloAnnotationEditor/YoloAnnotationEditor/YoloDatasetToolsControl.xaml.cs:838-850 | an id is collected exactly when the reader gives it for some line |
| YoloDatasetFilter.GetImageClasses | YoloAnnotationEditor/YoloAnnotationEditor/YoloDatasetToolsControl.xaml.cs:827-856 | no classes when the label file is missing; otherwise the set of ids that the lines' first pieces parse as, skipping blank lines and pieces that do not parse |
| YoloDatasetFilter.AnySelected | YoloAnnotationEditor/YoloAnnotationEditor/YoloDatasetToolsControl.xaml.cs:633-657 | LINQ's Any: some selected class is, or is not, among the image's classes |
| YoloDatasetFilter.ClassMatchesMeaning | YoloAnnotationEditor/YoloAnnotationEditor/YoloDatasetToolsControl.xaml.cs:628-657 | AND-contains means the selection is within the image's classes, AND-not-contains that they are disjoint, OR-contains that they meet, and OR-not-contains that the selection is not within them |
| YoloDatasetFilter.AnyPresent | YoloAnnotationEditor/YoloAnnotationEditor/YoloDatasetToolsControl.xaml.cs:650 | some selected class is present exactly when the selection meets the image's classes |
| YoloDatasetFilter.AnyAbsent | YoloAnnotationEditor/YoloAnnotationEditor/YoloDatasetToolsControl.xaml.cs:655 | some selected class is absent exactly when the selection is not within the image's classes |
| YoloDatasetFilter.ClassMatchesDuality | YoloAnnotationEditor/YoloAnnotationEditor/YoloDatasetToolsControl.xaml.cs:628-657 | OR-not-contains is the negation of AND-contains and AND-not-contains that of OR-contains; with nothing selected every image passes the AND tests and none the OR tests |
| YoloDatasetFilter.MatchingStems | YoloAnnotationEditor/YoloAnnotationEditor/YoloDatasetToolsControl.xaml.cs:622-662 | the kept images are exactly the listed images whose classes pass the test, and no more of them |
| YoloDatasetFilter.FilterByClass | YoloAnnotationEditor/YoloAnnotationEditor/YoloDatasetToolsControl.xaml.cs:622-662 | the loop keeps exactly those images, in listing order |
| YoloDatasetFilter.FilteredStemsWithin | YoloAnnotationEditor/YoloAnnotationEditor/YoloDatasetToolsControl.xaml.cs:620-672 | every filter keeps listed images only; first-N keeps the first min(N, n), and random-N keeps as many, none when N is below one |
| YoloDatasetFilter.FilterStems | YoloAnnotationEditor/YoloAnnotationEditor/YoloDatasetToolsControl.xaml.cs:615-681 | the stems of each selected split are its own filtered images |
| YoloDatasetFilter.ParseSelected | YoloAnnotationEditor/YoloAnnotationEditor/YoloDatasetToolsControl.xaml.cs:590-595 | the loop parses the selected items as SelectedIds does, stopping at the first that does not parse |
| YoloDatasetFilter.FilterSplit | YoloAnnotationEditor/YoloAnnotationEditor/YoloDatasetToolsControl.xaml.cs:620-672 | the filter of one split, chosen by the radio buttons |
| YoloDatasetFilter.FilterSplitAt | YoloAnnotationEditor/YoloAnnotationEditor/YoloDatasetToolsControl.xaml.cs:617-672 | round j lists split j and filters its images |
| YoloDatasetFilter.FilterSplits | YoloAnnotationEditor/YoloAnnotationEditor/YoloDatasetToolsControl.xaml.cs:615-681 | the loop gives the filtered images of every selected split, in split order |
| YoloDatasetFilter.FilterDataset | YoloAnnotationEditor/YoloAnnotationEditor/YoloDatasetToolsControl.xaml.cs:565-685 | None when a selected item does not parse; otherwise the output structure is created, the filtered images of every split are copied with their labels, and dataset.yaml is written |
| YoloDatasetFilter.FilterJobs | YoloAnnotationEditor/YoloAnnotationEditor/YoloDatasetToolsControl.xaml.cs:615-681 | a (split, image) pair is copied exactly when the split is selected and the image passes that split's filter |
| YoloDatasetFilter.FilterDatasetCopies | YoloAnnotationEditor/YoloAnnotationEditor/YoloDatasetToolsControl.xaml.cs:565-685 | with the output apart from the input and the selection parsed, every planned image is copied with its label |
| Text.TrimStart | YoloAnnotationEditor/YoloAnnotationEditor/DatasetEditor.xaml.cs:1213 | the leading part of String.Trim: the result is a suffix of the input, what it drops is white space, and it starts with a non-white character |
| Text.TrimEnd | YoloAnnotationEditor/YoloAnnotationEditor/DatasetEditor.xaml.cs:1213 | the trailing part of String.Trim: the result is a prefix of the input, what it drops is white space, and it ends with a non-white character |
| Text.TrimShape | YoloAnnotationEditor/YoloAnnotationEditor/DatasetEditor.xaml.cs:1213 | the trimmed text occurs in the input, has non-white ends, and is empty exactly when the input is blank |
| Text.TrimNoWhiteSpace | YoloAnnotationEditor/YoloAnnotationEditor/DatasetToolsControl.xaml.cs:641 | a text without white space is its own trim |
| Text.Split | YoloAnnotationEditor/YoloAnnotationEditor/DatasetEditor.xaml.cs:1213 | String.Split gives at least one piece and no piece holds a separator |
| Text.JoinSplit | YoloAnnotationEditor/YoloAnnotationEditor/DatasetEditor.xaml.cs:1213 | joining the pieces with the separator gives back the text |
| Text.SplitJoin | YoloAnnotationEditor/YoloAnnotationEditor/DatasetEditor.xaml.cs:1213 | splitting pieces that hold no separator, once joined, gives back the pieces |
| Text.SplitNonEmpty | YoloAnnotationEditor/YoloAnnotationEditor/YoloDatasetToolsControl.xaml.cs:841 | Split with RemoveEmptyEntries: no piece is empty or holds a separator |
| Text.DropEmpty | YoloAnnotationEditor/YoloAnnotationEditor/YoloDatasetToolsControl.xaml.cs:841 | the non-empty pieces are kept, and only they |
| Text.SplitFirst | YoloAnnotationEditor/YoloAnnotationEditor/DatasetToolsControl.xaml.cs:116 | Split with a count of two: the whole text when the separator is absent; otherwise the text before its first occurrence and the rest |
| Text.SplitFirstOfJoin | YoloAnnotationEditor/YoloAnnotationEditor/DatasetToolsControl.xaml.cs:116 | splitting "{a}{c}{b}" where a has no c gives a and b |
| Text.Lower | YoloAnnotationEditor/YoloAnnotationEditor/DatasetEditor.xaml.cs:94-100 | ToLowerInvariant maps each character, keeping the length |
| Text.LowerIdempotent | YoloAnnotationEditor/YoloAnnotationEditor/DatasetEditor.xaml.cs:94-100 | lower-casing twice is lower-casing once |
| Text.ContainsLower | YoloAnnotationEditor/YoloAnnotationEditor/DatasetEditor.xaml.cs:97-100 | a substring is still a substring once both are lower-cased |
| Text.NatToString | YoloAnnotationEditor/YoloAnnotationEditor/DatasetToolsControl.xaml.cs:146 | the decimal text of a number: digits only, with no leading zero |
| Text.NatToStringValue | YoloAnnotationEditor/YoloAnnotationEditor/DatasetToolsControl.xaml.cs:146 | the digits read back as the number |
| Text.IntToString | YoloAnnotationEditor/YoloAnnotationEditor/DatasetEditor.xaml.cs:707-709 | the text of an integer is never empty |
| Text.IntToStringChars | YoloAnnotationEditor/YoloAnnotationEditor/DatasetEditor.xaml.cs:707-709 | the text holds only digits and a leading minus sign |
| Text.PadDigits | YoloAnnotationEditor/YoloAnnotationEditor/DatasetToolsControl.xaml.cs:146-158 | the format D6: digits only, at least the width long, with the number's value |
| Text.PadDigitsInjective | YoloAnnotationEditor/YoloAnnotationEditor/DatasetToolsControl.xaml.cs:146-158 | different numbers have different padded texts |
| Text.ParseInt32 | YoloAnnotationEditor/YoloAnnotationEditor/DatasetEditor.xaml.cs:1217 | int.TryParse: a parsed value is a 32-bit integer |
| Text.ParseIntToString | YoloAnnotationEditor/YoloAnnotationEditor/DatasetEditor.xaml.cs:1217 | parsing the text of a 32-bit integer gives the integer back |
| Text.ReadAllLines | YoloAnnotationEditor/YoloAnnotationEditor/DatasetEditor.xaml.cs:1170 | File.ReadAllLines: no line holds a line break |
| Text.ReadWriteLines | YoloAnnotationEditor/YoloAnnotationEditor/DatasetEditor.xaml.cs:1170 | reading back lines written with WriteAllLines gives the same lines when none holds a line break |
| Paths.FileName | YoloAnnotationEditor/YoloAnnotationEditor/EditStateManager.cs:27 | Path.GetFileName: the result holds no separator and is no longer than the path |
| Paths.FileNameIsSuffix | YoloAnnotationEditor/YoloAnnotationEditor/EditStateManager.cs:27 | the file name is the part after the last separator |
| Paths.FileNameOfCombine | YoloAnnotationEditor/YoloAnnotationEditor/DatasetEditor.xaml.cs:1159 | the file name of Path.Combine(folder, name) is name |
| Paths.LastDot | YoloAnnotationEditor/YoloAnnotationEditor/DatasetEditor.xaml.cs:1128 | the position of the last dot, none when the name has no dot |
| Paths.StemExtension | YoloAnnotationEditor/YoloAnnotationEditor/DatasetEditor.xaml.cs:1128-1160 | GetFileNameWithoutExtension followed by GetExtension gives back the name |
| Paths.StemOfAppend | YoloAnnotationEditor/YoloAnnotationEditor/DatasetEditor.xaml.cs:1128-1160 | a stem with an extension appended has that stem and that extension |
| Paths.Ancestors | YoloAnnotationEditor/YoloAnnotationEditor/Helpers/YoloDatasetHelper.cs:223-224 | the directories a path stands for: exactly its non-empty prefixes |
| Paths.CreateDirectory | YoloAnnotationEditor/YoloAnnotationEditor/Helpers/YoloDatasetHelper.cs:223-224 | Directory.CreateDirectory changes no file and adds the directory with its ancestors |
| Paths.WriteFile | YoloAnnotationEditor/YoloAnnotationEditor/DatasetEditor.xaml.cs:712 | writing a file sets its content and changes nothing else |
| Paths.CopyFile | YoloAnnotationEditor/YoloAnnotationEditor/Helpers/YoloDatasetHelper.cs:247-252 | File.Copy succeeds exactly when the source exists and either overwrite is set or the target is absent; the target then holds the source's content and nothing else changes |
| Paths.MoveFile | YoloAnnotationEditor/YoloAnnotationEditor/OCRAnnotationControl.xaml.cs:270-281 | File.Move succeeds exactly when the source exists and the target does not; the content moves from the source to the target |
| Paths.ListingIsFilesIn | YoloAnnotationEditor/YoloAnnotationEditor/Helpers/YoloDatasetHelper.cs:43 | a directory listing names exactly the directory's files |
| Collections.Tally | YoloAnnotationEditor/YoloAnnotationEditor/DatasetEditor.xaml.cs:1289-1301 | the count of each element is its number of occurrences, and only occurring elements are counted |
| Collections.TallySum | YoloAnnotationEditor/YoloAnnotationEditor/DatasetEditor.xaml.cs:1289-1301 | the counts add up to the length |
| Collections.Take | YoloAnnotationEditor/YoloAnnotationEditor/DatasetToolsControl.xaml.cs:135 | LINQ Take: the first n elements, none for n below one, all when n is too large |
| Collections.Skip | YoloAnnotationEditor/YoloAnnotationEditor/DatasetToolsControl.xaml.cs:136 | LINQ Skip: all but the first n elements |
| Collections.TakeSkip | YoloAnnotationEditor/YoloAnnotationEditor/DatasetToolsControl.xaml.cs:135-136 | Take(n) followed by Skip(n) is the whole sequence |
| Collections.CeilDiv | YoloAnnotationEditor/YoloAnnotationEditor/Helpers/YoloDatasetHelper.cs:518 | Math.Ceiling(n / (double)d): the least q with q * d >= n |
| Collections.PageIsSkipTake | YoloAnnotationEditor/YoloAnnotationEditor/Helpers/YoloDatasetHelper.cs:516 | the page at a start is Skip(start).Take(size) |
| Collections.FlattenChunks | YoloAnnotationEditor/YoloAnnotationEditor/Helpers/YoloDatasetHelper.cs:514-516 | enough consecutive chunks together give back the sequence |
| Collections.ChunksNonEmpty | YoloAnnotationEditor/YoloAnnotationEditor/Helpers/YoloDatasetHelper.cs:514-518 | every one of the ceil(n / size) chunks is non-empty |
| Collections.Distinct | YoloAnnotationEditor/YoloAnnotationEditor/DatasetEditor.xaml.cs:853 | LINQ Distinct: no duplicates, and exactly the elements of the input |
| Collections.SortBy | YoloAnnotationEditor/YoloAnnotationEditor/DatasetEditor.xaml.cs:1121 | OrderBy keeps the length |
| Collections.SortByCorrect | YoloAnnotationEditor/YoloAnnotationEditor/DatasetEditor.xaml.cs:1121 | OrderBy under a total preorder is sorted, a permutation and stable: equivalent elements keep their order |
| Collections.SortedIntsUnique | YoloAnnotationEditor/YoloAnnotationEditor/OCRAnnotationControl.xaml.cs:246-247 | two sorted permutations of the same integers are equal |
| Collections.SortedKeys | YoloAnnotationEditor/YoloAnnotationEditor/DatasetEditor.xaml.cs:593 | the keys ordered by id: strictly ascending, exactly the keys |
| Collections.SortedChars | YoloAnnotationEditor/YoloAnnotationEditor/DatasetToolsControl.xaml.cs:576 | distinct characters ordered by code: strictly ascending, exactly the set |
| Collections.Map | YoloAnnotationEditor/YoloAnnotationEditor/DatasetToolsControl.xaml.cs:579 | LINQ Select: one result per element, in order |
| Collections.MapPermutation | YoloAnnotationEditor/YoloAnnotationEditor/OCRAnnotationControl.xaml.cs:246-247 | selecting from permutations gives permutations |

## Left out

- Capture, preview and inference (`YoloPreview.xaml.cs`), the PaddleOCR runtime (`PaddleOcrRunner.xaml.cs`, `OCRAnnotationControl.xaml.cs:384-389`), the updater, logging and the application shell are left out. They are concurrency, foreign code and UI.
- Launching robocopy through CliWrap, `RobocopyFilesAsync` and the availability probe `IsRobocopyAvailableAsync` are left out; they are process calls. The bulk copy takes availability and the processor count as parameters. The tool's effect is a function from the call to an exit code and the set of names copied, or an exception.
- `CalculateFileHash` (MD5) is left out as a foreign call.
- YamlDotNet is not modelled; its parsing and serialisation are foreign code. `LoadClassesFromYaml` is a parameter that gives the class registry. The YAML editor keeps the configuration value that is saved, not its text. `CreateDatasetYaml` writes its own text, and that text is modelled.
- The XML load and save of `EditStateManager` are I/O. The model keeps the set that the last save stored and counts the saves.
- Image decoding, scaling and re-encoding (`DatasetToolsControl.xaml.cs:441-480`) and the PNG to JPG conversion (`OCRAnnotationControl.xaml.cs:213-232`) are foreign code. A copied or scaled image is a (source, target) pair of a plan. Whether processing an image throws is a parameter.
- Floating point is not modelled as IEEE arithmetic. The float parse is a partial-function parameter, and the "0.######" format is a function parameter. Percentages (`PercentageDifference`), average label lengths and the split index (`count * splitRatio`, floored, in `SplitIndex`) are computed exactly in reals; float rounding is not modelled. Pixel and normalised coordinate conversions of the canvas are left out.
- ValidateYoloCoordinates: a parsed value is a real, so there is no NaN; the source accepts the text "NaN" because both range comparisons on NaN are false, and the model's verdict on that text depends on what the parse parameter returns.
- Random shuffles (`random.Next`, `Guid.NewGuid`) are arbitrary permutations passed as parameters. The seed text is not parsed: `new Random(int.Parse(seedText))` throws on a seed that does not parse, and that exception is not modelled.
- Unicode is modelled only in part:
  - ToLower and ToLowerInvariant map only ASCII letters.
  - The culture's string comparison used by OrderBy on names is a total-preorder parameter.
  - The per-category character breakdown of the analysis (`char.IsLetter` and the like) is not modelled.
  - The dataset text is `seq<char>`, with no encoding.
  - `\d` in .NET regular expressions matches every Unicode decimal digit, while `LeadingDigits` and the numbered-name check (`IsNumberedName`) accept only ASCII digits. A name starting with a non-ASCII digit such as "٣.jpg" makes the source's `GetNumericOrder` and the rename step call `int.Parse` on it, which throws; the model treats such a name as not numbered.
- All mouse, canvas, MessageBox, Dispatcher, thumbnail, chart and log-text code is left out. The logs of the bulk copy are kept as structured entries, not text. The frequency table and the advice wording of the analysis are not modelled; only which advice applies is.
- Browse buttons, file dialogs and the open/new prompts of the YAML editor are left out. The Save As path and the prompt answers are parameters.
- A committed edit of the Id cell in the YAML editor only sets the unsaved flag, and only that is modelled. Data-grid bindings that write through to the shared ClassItem objects are not modelled.
- `GetImageClasses`: the empty `catch` around reading the label file is not modelled; file contents are always readable here.
- `AutoDiscoverDatasets`, `LoadFolder` (including `IsImageFile`) and other directory scans are left out; they are I/O. Their results are the listings passed in.
- Collection-changed events of ObservableCollection are not modelled. PropertyChanged notifications are recorded in order.
- MergeSplit: composes the corrected merge step of the first "## Findings" row (both targets free), so it does not model the source's abort when a label target is already taken; LabelCollisionFails exhibits that abort on the as-written step.
- MergeOneSplit: composes the corrected merge step of the first "## Findings" row (both targets free), so it does not model the source's abort when a label target is already taken; LabelCollisionFails exhibits that abort on the as-written step.
- MergeDataset: composes the corrected merge step of the first "## Findings" row (both targets free), so it does not model the source's abort when a label target is already taken; LabelCollisionFails exhibits that abort on the as-written step.
- MergeDatasets: composes the corrected merge step of the first "## Findings" row (both targets free), so it does not model the source's abort when a label target is already taken; LabelCollisionFails exhibits that abort on the as-written step.
- SplitPlan: uses the corrected by-count plan of the second "## Findings" row ((split, stem) pairs), so it does not model the source's stem-keyed lookup that loses a stem listed in two splits; ByCountJobsAsWritten and DuplicateStemLosesImage model that lookup.
- BuildSplitPlan: uses the corrected by-count plan of the second "## Findings" row ((split, stem) pairs), so it does not model the source's stem-keyed lookup that loses a stem listed in two splits; ByCountJobsAsWritten and DuplicateStemLosesImage model that lookup.
- SplitDataset: uses the corrected by-count plan of the second "## Findings" row ((split, stem) pairs), so it does not model the source's stem-keyed lookup that loses a stem listed in two splits; ByCountJobsAsWritten and DuplicateStemLosesImage model that lookup.
- SplitPlan: a split count of 0 gives None, and the model says nothing about what then happens. The source has no guard: `int.TryParse` leaves the count at 0 for the text "0" and for text that does not parse (YoloDatasetToolsControl.xaml.cs:335). `(int)Math.Ceiling((double)n / 0)` then converts Infinity, or NaN when no image is listed, to an int, and the result depends on the runtime. Older .NET gives int.MinValue, so no part is made. Runtimes with saturating conversion give int.MaxValue for Infinity, so `part_1`, `part_2`, … are created empty without practical end (:448-462).
- BuildSplitPlan: a split count of 0 gives None, and the model says nothing about what then happens. The source has no guard: `int.TryParse` leaves the count at 0 for the text "0" and for text that does not parse (YoloDatasetToolsControl.xaml.cs:335). `(int)Math.Ceiling((double)n / 0)` then converts Infinity, or NaN when no image is listed, to an int, and the result depends on the runtime. Older .NET gives int.MinValue, so no part is made. Runtimes with saturating conversion give int.MaxValue for Infinity, so `part_1`, `part_2`, … are created empty without practical end (:448-462).
- SplitDataset: a split count of 0 gives None, and the model says nothing about what then happens. The source has no guard: `int.TryParse` leaves the count at 0 for the text "0" and for text that does not parse (YoloDatasetToolsControl.xaml.cs:335). `(int)Math.Ceiling((double)n / 0)` then converts Infinity, or NaN when no image is listed, to an int, and the result depends on the runtime. Older .NET gives int.MinValue, so no part is made. Runtimes with saturating conversion give int.MaxValue for Infinity, so `part_1`, `part_2`, … are created empty without practical end (:448-462).
- ByCountParts: requires a count other than 0, for the same reason; the callers above turn a count of 0 into None before calling it.
- DatasetModels.ImageItem.constructor: FileName, FilePath and LabelPath start as "" here, where the source's backing fields start as null. So a first `SetFileName("")` (and likewise for the other two) returns true and notifies in the source, but returns false and notifies nothing here. The editor only ever sets these three to the non-null values the loader computes (`LoadImageItem`), which the model writes directly, so no caller reaches the difference.
- RenameFilesToSequential: File.Move fails only on a missing source or an existing target; other I/O errors, the legacy 8.3-name matching of the "*.jpg" pattern, and names that differ only in case outside ASCII are not modelled. Every numbered {k}.jpg of the folder must be among the files passed in, as the caller passes every .jpg and .jpeg file.
- Paths.CopyFile: a missing target directory (DirectoryNotFoundException) is not modelled; every caller creates its target directories first.
- Paths.CopyFile: paths are compared exactly, character by character, while Windows finds an existing file whatever the case of its name, and `File.Copy` of a file onto itself throws there but succeeds here. File.Exists and the file-system map keys share that exact comparison. The members that inherit the gap are:
  - `CollisionCounterAsWritten` and `MergeImageAsWritten`. With `cat.JPG` and `cat.txt` in the output, the source finds `cat.jpg` taken and picks `cat_1`. The model takes counter 0 and fails on `cat.txt`.
  - `FindImage` and `GetImagePath`. The source finds `a.Jpg` when it probes for `a.jpg`; the model does not.
  - `CopyImageAndLabel`. It skips an image whose extension differs in case from the probed ones.
  - `FilterDataset`. With the input folder as the output folder, the source throws at the first copy; the model succeeds and rewrites dataset.yaml.
- Paths.MoveFile: a missing target directory (DirectoryNotFoundException) is not modelled; the renaming creates temp_rename before its first move.
- `YoloDatasetHelper.CopyImageAndLabel`: an I/O error other than a missing source or an existing target without overwrite is not modelled. File.Copy either succeeds or reports one of those two.

## Findings

| source | as written | input that shows it | evidently intended | confidence | as-written member | corrected member |
|---|---|---|---|---|---|---|
| YoloAnnotationEditor/YoloAnnotationEditor/YoloDatasetToolsControl.xaml.cs:221-236 | The merge picks a free name by checking only the image target. It then copies the label with `File.Copy(src, dst)` without overwrite. | The output holds `cat.png` and `cat.txt`. An incoming `cat.jpg` with a label finds `cat.jpg` free, and copying its label onto the existing `cat.txt` throws. The merge aborts. | Both the image and the label targets are free before copying, so a merge step never fails and never overwrites. | medium; not executed | YoloDatasetTools.LabelCollisionFails | YoloDatasetTools.MergeImageCopies |
| YoloAnnotationEditor/YoloAnnotationEditor/YoloDatasetToolsControl.xaml.cs:434-462 | The split by count records each image's split in a dictionary keyed by stem, and the later split overwrites the earlier one. | The same stem `a` is listed in train and val, with a count of 1. Both parts copy `val/a`, and `train/a` is never copied. | Each listed (split, image) pair is copied exactly once. | medium; not executed | YoloDatasetTools.DuplicateStemLosesImage | YoloDatasetTools.ByCountPairsCover |
| YoloAnnotationEditor/YoloAnnotationEditor/OCRAnnotationControl.xaml.cs:263-288 | The `finally` block deletes temp_rename recursively even when a move or `int.Parse` threw, so files already moved into it are deleted. | temp_rename already holds `notes.jpg` and the folder holds `a.jpg`. `a.jpg` is moved to `temp_rename/0.jpg`, `int.Parse("notes")` throws, and the delete removes both: no image is left. | A renaming that cannot complete leaves the images in place, for example by refusing to start while temp_rename holds files. | high; not executed | OcrAnnotation.LeftoverLosesImages | OcrAnnotation.RenameFilesSafely |

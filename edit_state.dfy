/**
 * The edit-state set of the dataset editor: the file names (without their
 * folders) of the images the user has marked as edited.  Every change that
 * is persisted stores the whole set; the label-info XML document itself is
 * I/O, so `stored` is the set the last save wrote, `saves` counts the saves
 * and `notifications` counts the EditStateChanged events raised.
 */
module EditState {
  import opened Paths

  /** The set with `name` removed when present and added otherwise. */
  function Toggled(s: set<string>, name: string): (r: set<string>)
    ensures name in r <==> name !in s
    ensures r - {name} == s - {name}
  {
    if name in s then s - {name} else s + {name}
  }

  /** Toggling a name twice gives the set back. */
  lemma ToggleTwice(s: set<string>, name: string)
    ensures Toggled(Toggled(s, name), name) == s
  {
  }

  /** The files MarkAllEditedUntil walks: up to and including the first whose
      file name is `target`, or all of them when none is. */
  function UntilTarget(files: seq<string>, target: string): (r: seq<string>)
    ensures |r| <= |files| && r == files[..|r|]
    ensures forall k :: 0 <= k < |r| - 1 ==> FileName(r[k]) != target
    ensures |r| < |files| ==> |r| > 0 && FileName(r[|r| - 1]) == target
    decreases |files|
  {
    if files == [] then []
    else if FileName(files[0]) == target then [files[0]]
    else [files[0]] + UntilTarget(files[1..], target)
  }

  /** The file names of some files. */
  function NamesOf(files: seq<string>): set<string>
  {
    if files == [] then {} else NamesOf(files[..|files| - 1]) + {FileName(files[|files| - 1])}
  }

  lemma NamesOfAppend(files: seq<string>, file: string)
    ensures NamesOf(files + [file]) == NamesOf(files) + {FileName(file)}
  {
    assert (files + [file])[..|files|] == files;
  }

  /** A name is among the file names exactly when some file has it. */
  lemma {:induction false} NamesOfMembers(files: seq<string>, n: string)
    ensures n in NamesOf(files) <==> exists k :: 0 <= k < |files| && FileName(files[k]) == n
  {
    if files != [] {
      var init := files[..|files| - 1];
      NamesOfMembers(init, n);
      assert forall k :: 0 <= k < |init| ==> init[k] == files[k];
      if n in NamesOf(init) {
        var k :| 0 <= k < |init| && FileName(init[k]) == n;
        assert FileName(files[k]) == n;
      }
    }
  }

  /** One step of MarkAllEditedUntil's walk: a file reached without meeting
      the target is walked, and adds its name. */
  lemma WalkStep(files: seq<string>, target: string, i: nat)
    requires i < |files| && i <= |UntilTarget(files, target)|
    requires i > 0 ==> FileName(files[i - 1]) != target
    ensures i < |UntilTarget(files, target)|
    ensures NamesOf(UntilTarget(files, target)[..i + 1]) == NamesOf(UntilTarget(files, target)[..i]) + {FileName(files[i])}
    ensures FileName(files[i]) == target ==> i + 1 == |UntilTarget(files, target)|
  {
    var r := UntilTarget(files, target);
    assert r == files[..|r|];
    assert r[..i + 1][..i] == r[..i];
  }

  class EditStateManager {
    var editedFiles: set<string>
    var stored: set<string>
    var saves: nat
    var notifications: nat

    /** LoadEditStates: the non-empty names stored in the label-info file;
        none when there is no such file or it cannot be read. */
    constructor (storedNames: seq<string>)
      ensures editedFiles == set k | 0 <= k < |storedNames| && storedNames[k] != "" :: storedNames[k]
      ensures stored == editedFiles && saves == 0 && notifications == 0
    {
      editedFiles := set k | 0 <= k < |storedNames| && storedNames[k] != "" :: storedNames[k];
      stored := set k | 0 <= k < |storedNames| && storedNames[k] != "" :: storedNames[k];
      saves := 0;
      notifications := 0;
    }

    /** Whether the file name of `fileName` is marked. */
    predicate IsEdited(fileName: string)
      reads this
    {
      FileName(fileName) in editedFiles
    }

    /** Marks the file name; saves and notifies only when it was not marked. */
    method MarkAsEdited(fileName: string)
      modifies this
      ensures editedFiles == old(editedFiles) + {FileName(fileName)}
      ensures IsEdited(fileName)
      ensures FileName(fileName) !in old(editedFiles) ==> stored == editedFiles && saves == old(saves) + 1 && notifications == old(notifications) + 1
      ensures FileName(fileName) in old(editedFiles) ==> stored == old(stored) && saves == old(saves) && notifications == old(notifications)
    {
      var name := FileName(fileName);
      if name !in editedFiles {
        editedFiles := editedFiles + {name};
        // SaveEditStates, then OnEditStateChanged
        stored := editedFiles;
        saves := saves + 1;
        notifications := notifications + 1;
      }
    }

    /** Unmarks the file name; saves and notifies only when it was marked. */
    method MarkAsUnedited(fileName: string)
      modifies this
      ensures editedFiles == old(editedFiles) - {FileName(fileName)}
      ensures !IsEdited(fileName)
      ensures FileName(fileName) in old(editedFiles) ==> stored == editedFiles && saves == old(saves) + 1 && notifications == old(notifications) + 1
      ensures FileName(fileName) !in old(editedFiles) ==> stored == old(stored) && saves == old(saves) && notifications == old(notifications)
    {
      var name := FileName(fileName);
      if name in editedFiles {
        editedFiles := editedFiles - {name};
        // SaveEditStates, then OnEditStateChanged
        stored := editedFiles;
        saves := saves + 1;
        notifications := notifications + 1;
      }
    }

    /** Flips the mark of the file name; always saves and notifies. */
    method ToggleEditState(fileName: string)
      modifies this
      ensures editedFiles == Toggled(old(editedFiles), FileName(fileName))
      ensures IsEdited(fileName) <==> !old(IsEdited(fileName))
      ensures stored == editedFiles && saves == old(saves) + 1 && notifications == old(notifications) + 1
    {
      editedFiles := Toggled(editedFiles, FileName(fileName));
      // SaveEditStates, then OnEditStateChanged
      stored := editedFiles;
      saves := saves + 1;
      notifications := notifications + 1;
    }

    /** Marks the files up to and including the first whose file name is
        that of `fileName` (all of them when none is); saves and notifies
        once, and only when some name was not marked before. */
    method MarkAllEditedUntil(fileName: string, allFiles: seq<string>)
      modifies this
      ensures editedFiles == old(editedFiles) + NamesOf(UntilTarget(allFiles, FileName(fileName)))
      ensures editedFiles != old(editedFiles) ==> stored == editedFiles && saves == old(saves) + 1 && notifications == old(notifications) + 1
      ensures editedFiles == old(editedFiles) ==> stored == old(stored) && saves == old(saves) && notifications == old(notifications)
    {
      var changed := false;
      var targetName := FileName(fileName);
      ghost var walked := UntilTarget(allFiles, targetName);
      var i := 0;
      while i < |allFiles|
        invariant 0 <= i <= |walked|
        invariant editedFiles == old(editedFiles) + NamesOf(walked[..i])
        invariant changed <==> editedFiles != old(editedFiles)
        invariant i > 0 ==> FileName(allFiles[i - 1]) != targetName
        invariant stored == old(stored) && saves == old(saves) && notifications == old(notifications)
        decreases |allFiles| - i
      {
        var currentName := FileName(allFiles[i]);
        WalkStep(allFiles, targetName, i);
        if currentName !in editedFiles {
          editedFiles := editedFiles + {currentName};
          changed := true;
        }
        i := i + 1;
        if currentName == targetName {
          break;
        }
      }
      assert walked[..i] == walked;
      if changed {
        // SaveEditStates, then OnEditStateChanged
        stored := editedFiles;
        saves := saves + 1;
        notifications := notifications + 1;
      }
    }
  }

  /** Two paths with the same file name are marked alike; in particular a
      file is marked alike in every folder. */
  lemma SameFileNameSameState(m: EditStateManager, a: string, b: string, folder: string)
    requires FileName(a) == FileName(b)
    ensures m.IsEdited(a) == m.IsEdited(b)
    ensures HasNoSeparator(a) ==> m.IsEdited(Combine(folder, a)) == m.IsEdited(a)
  {
    if HasNoSeparator(a) {
      FileNameOfCombine(folder, a);
      FileNameOfCombined(folder, a);
    }
  }

  /** MarkAllEditedUntil walks a file exactly when no earlier file is named
      like the target, and every walked file's name is marked. */
  lemma UntilTargetWalks(files: seq<string>, target: string, k: nat)
    requires k < |files|
    ensures k < |UntilTarget(files, target)| <==> forall j :: 0 <= j < k ==> FileName(files[j]) != target
    ensures k < |UntilTarget(files, target)| ==> FileName(files[k]) in NamesOf(UntilTarget(files, target))
  {
    var r := UntilTarget(files, target);
    assert files[..|r|] == r;
    if k < |r| {
      assert r[k] == files[k];
      NamesOfMembers(r, FileName(files[k]));
      assert forall j :: 0 <= j < k ==> r[j] == files[j];
    } else {
      assert r[|r| - 1] == files[|r| - 1];
    }
  }
}

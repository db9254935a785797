/**
 * The dataset.yaml editor: the class registry of a YOLO dataset (class ids
 * and names), the search filter and sort of its grid, adding, removing and
 * renaming classes, and saving the registry as the file's `nc` and `names`.
 * The YAML text is the serializer's business: the model keeps the
 * configuration value that is written or read, and the files written so
 * far as a map from path to configuration.
 */
module YamlEditor {
  import opened Text
  import opened Collections
  import DatasetModels

  /** A row of the class grid: a class id and its name. */
  datatype ClassEntry = ClassEntry(id: int, name: string)

  /** The dataset folder and the train, val and test image folders. */
  datatype PathFields = PathFields(path: string, train: string, val: string, test: string)

  /** The YoloConfig of dataset.yaml: the four paths, `nc` and `names`.
      `names` is the Dictionary<int, string> as its entries in insertion
      order, the order in which the serializer writes them and the
      deserializer adds them back. */
  datatype YoloConfig = YoloConfig(paths: PathFields, nc: int, names: seq<(int, string)>)

  /** What reading and deserializing a YAML file gives: an exception, an
      empty document (which deserializes to null), or a configuration. */
  datatype YamlDocument = Unreadable | EmptyDocument | Document(config: YoloConfig)

  /** The ids of some classes, in order. */
  function Ids(classes: seq<ClassEntry>): (r: seq<int>)
    ensures |r| == |classes| && forall i :: 0 <= i < |classes| ==> r[i] == classes[i].id
  {
    seq(|classes|, i requires 0 <= i < |classes| => classes[i].id)
  }

  /** Every id is a C# int. */
  predicate IdsAreInt32(classes: seq<ClassEntry>)
  {
    forall i :: 0 <= i < |classes| ==> IsInt32(classes[i].id)
  }

  // ---------------------------------------------------------------------
  // Adding a class
  // ---------------------------------------------------------------------

  /** Enumerable.Max over the ids of a non-empty class list. */
  function MaxId(classes: seq<ClassEntry>): (m: int)
    requires classes != []
    ensures forall i :: 0 <= i < |classes| ==> classes[i].id <= m
    ensures exists i :: 0 <= i < |classes| && classes[i].id == m
  {
    if |classes| == 1 then classes[0].id
    else
      var m := MaxId(classes[..|classes| - 1]);
      var last := classes[|classes| - 1].id;
      assert forall i :: 0 <= i < |classes| - 1 ==> classes[..|classes| - 1][i] == classes[i];
      if last > m then last else m
  }

  /** C# int addition, which wraps around silently. */
  function WrapInt32(n: int): (r: int)
    ensures IsInt32(r)
    ensures IsInt32(n) ==> r == n
  {
    (n - Int32Min) % 0x1_0000_0000 + Int32Min
  }

  /** The id a new class gets: one more than the largest id, or 0 when the
      list is empty. */
  function NextId(classes: seq<ClassEntry>): int
  {
    if classes == [] then 0 else WrapInt32(MaxId(classes) + 1)
  }

  /** Below the largest int, the new id is larger than every id in use; at
      the largest int it wraps round to the smallest. */
  lemma NextIdFacts(classes: seq<ClassEntry>)
    requires IdsAreInt32(classes)
    ensures IsInt32(NextId(classes))
    ensures classes == [] ==> NextId(classes) == 0
    ensures classes == [] || MaxId(classes) < Int32Max ==>
      forall i :: 0 <= i < |classes| ==> classes[i].id < NextId(classes)
    ensures classes != [] && MaxId(classes) == Int32Max ==> NextId(classes) == Int32Min
  {
    if classes != [] {
      var i :| 0 <= i < |classes| && classes[i].id == MaxId(classes);
      assert IsInt32(MaxId(classes));
    }
  }

  /** The class the Add button appends. */
  function NewClass(classes: seq<ClassEntry>): ClassEntry
  {
    ClassEntry(NextId(classes), "new_class")
  }

  /** Adding a class keeps the ids unique while the largest id is below the
      largest int. */
  lemma AddKeepsIdsUnique(classes: seq<ClassEntry>)
    requires IdsAreInt32(classes) && NoDuplicates(Ids(classes))
    requires classes == [] || MaxId(classes) < Int32Max
    ensures NoDuplicates(Ids(classes + [NewClass(classes)]))
    ensures IdsAreInt32(classes + [NewClass(classes)])
  {
    NextIdFacts(classes);
    var r := classes + [NewClass(classes)];
    forall i, j | 0 <= i < j < |r| ensures Ids(r)[i] != Ids(r)[j] {
      if j < |classes| {
        assert Ids(r)[i] == Ids(classes)[i] && Ids(r)[j] == Ids(classes)[j];
      }
    }
  }

  // ---------------------------------------------------------------------
  // Removing and renaming a class
  // ---------------------------------------------------------------------

  /** Whether some class has the id. */
  predicate HasId(classes: seq<ClassEntry>, id: int)
  {
    exists i :: 0 <= i < |classes| && classes[i].id == id
  }

  /** Enumerable.First(c => c.Id == id): the position of the first class
      with the id. */
  function FirstWithId(classes: seq<ClassEntry>, id: int): (k: nat)
    requires HasId(classes, id)
    ensures k < |classes| && classes[k].id == id
    ensures forall j :: 0 <= j < k ==> classes[j].id != id
  {
    var i :| 0 <= i < |classes| && classes[i].id == id;
    assert Ids(classes)[i] == id;
    FirstIndex(Ids(classes), id)
  }

  /** The list after the Remove button: the first class with the id goes. */
  function Removed(classes: seq<ClassEntry>, id: int): seq<ClassEntry>
    requires HasId(classes, id)
  {
    DatasetModels.RemoveAt(classes, FirstWithId(classes, id))
  }

  /** Removal takes out exactly one class with the id, the first, and
      keeps the others in order. */
  lemma RemovedShape(classes: seq<ClassEntry>, id: int)
    requires HasId(classes, id)
    ensures var k := FirstWithId(classes, id);
      Removed(classes, id) == classes[..k] + classes[k + 1..]
      && multiset(Removed(classes, id)) == multiset(classes) - multiset{classes[k]}
  {
    var k := FirstWithId(classes, id);
    assert classes == classes[..k] + [classes[k]] + classes[k + 1..];
  }

  /** With unique ids, removal leaves the ids unique, the id gone and every
      other class in the list. */
  lemma RemovedUnique(classes: seq<ClassEntry>, id: int)
    requires HasId(classes, id) && NoDuplicates(Ids(classes))
    ensures NoDuplicates(Ids(Removed(classes, id)))
    ensures forall e :: e in Removed(classes, id) <==> e in classes && e.id != id
  {
    var k := FirstWithId(classes, id);
    var r := Removed(classes, id);
    forall i, j | 0 <= i < j < |r| ensures Ids(r)[i] != Ids(r)[j] {
      RemovedAt(classes, id, i);
      RemovedAt(classes, id, j);
      var i' := if i < k then i else i + 1;
      var j' := if j < k then j else j + 1;
      assert Ids(classes)[i'] != Ids(classes)[j'];
    }
    forall e ensures e in r <==> e in classes && e.id != id {
      if e in classes && e.id != id {
        var i :| 0 <= i < |classes| && classes[i] == e;
        assert i != k;
        RemovedAt(classes, id, if i < k then i else i - 1);
      }
      if e in r {
        var i :| 0 <= i < |r| && r[i] == e;
        RemovedAt(classes, id, i);
        var i' := if i < k then i else i + 1;
        assert Ids(classes)[i'] != Ids(classes)[k];
      }
    }
  }

  /** Where a class of the shortened list was. */
  lemma RemovedAt(classes: seq<ClassEntry>, id: int, i: nat)
    requires HasId(classes, id) && i < |classes| - 1
    ensures Removed(classes, id)[i] == classes[if i < FirstWithId(classes, id) then i else i + 1]
  {
  }

  /** The list after a committed name edit: the first class with the id
      gets the new name. */
  function Renamed(classes: seq<ClassEntry>, id: int, newName: string): (r: seq<ClassEntry>)
    requires HasId(classes, id)
  {
    classes[FirstWithId(classes, id) := ClassEntry(id, newName)]
  }

  /** A rename changes one name and keeps every id, and with it the
      uniqueness of the ids; the renamed class is found by its new name. */
  lemma RenamedFacts(classes: seq<ClassEntry>, id: int, newName: string)
    requires HasId(classes, id)
    ensures var r := Renamed(classes, id, newName);
      Ids(r) == Ids(classes)
      && ClassEntry(id, newName) in r
      && forall i :: 0 <= i < |classes| && i != FirstWithId(classes, id) ==> r[i] == classes[i]
  {
    var r := Renamed(classes, id, newName);
    assert r[FirstWithId(classes, id)] == ClassEntry(id, newName);
  }

  // ---------------------------------------------------------------------
  // The class grid: search filter and sort
  // ---------------------------------------------------------------------

  /** UpdateFilteredClasses' test: with a search text, a class is shown when
      its lower-cased name or its id's digits contain the lower-cased text;
      without one, every class is shown. */
  predicate Matches(c: ClassEntry, searchText: string)
  {
    Lower(searchText) == []
    || Contains(Lower(c.name), Lower(searchText))
    || Contains(IntToString(c.id), Lower(searchText))
  }

  /** Enumerable.Where with that test: the matching classes, in order. */
  function Filtered(classes: seq<ClassEntry>, searchText: string): (r: seq<ClassEntry>)
  {
    if classes == [] then []
    else
      var last := classes[|classes| - 1];
      Filtered(classes[..|classes| - 1], searchText) + (if Matches(last, searchText) then [last] else [])
  }

  /** The filter keeps exactly the matching classes, in their order, and
      an empty search keeps them all. */
  lemma {:induction false} FilteredFacts(classes: seq<ClassEntry>, searchText: string)
    ensures forall e :: e in Filtered(classes, searchText) <==> e in classes && Matches(e, searchText)
    ensures searchText == [] ==> Filtered(classes, searchText) == classes
  {
    if classes != [] {
      var init := classes[..|classes| - 1];
      FilteredFacts(init, searchText);
      assert classes == init + [classes[|classes| - 1]];
    }
  }

  /** OrderBy(c => c.Id). */
  predicate ById(a: ClassEntry, b: ClassEntry)
  {
    a.id <= b.id
  }

  /** OrderBy(c => c.Id) or OrderBy(c => c.Name), the names compared by the
      culture's order `nameLe`. */
  function ClassOrder(sortById: bool, nameLe: (string, string) -> bool): (ClassEntry, ClassEntry) -> bool
  {
    if sortById then ById else (a: ClassEntry, b: ClassEntry) => nameLe(a.name, b.name)
  }

  lemma ClassOrderIsTotalPreorder(sortById: bool, nameLe: (string, string) -> bool)
    requires IsTotalPreorder(nameLe)
    ensures IsTotalPreorder(ClassOrder(sortById, nameLe))
  {
    var le := ClassOrder(sortById, nameLe);
    forall a, b ensures le(a, b) || le(b, a) {
      if !sortById {
        assert nameLe(a.name, b.name) || nameLe(b.name, a.name);
      }
    }
    forall a, b, c | le(a, b) && le(b, c) ensures le(a, c) {
      if !sortById {
        assert nameLe(a.name, b.name) && nameLe(b.name, c.name);
      }
    }
  }

  /** The classes the grid shows. */
  function Shown(classes: seq<ClassEntry>, searchText: string, sortById: bool, nameLe: (string, string) -> bool): seq<ClassEntry>
  {
    SortBy(Filtered(classes, searchText), ClassOrder(sortById, nameLe))
  }

  /** The grid shows every matching class once and nothing else, in
      ascending order of id or name, matching classes of equal key in their
      list order; an empty search shows the whole list. */
  lemma ShownFacts(classes: seq<ClassEntry>, searchText: string, sortById: bool, nameLe: (string, string) -> bool)
    requires IsTotalPreorder(nameLe)
    ensures SortedBy(Shown(classes, searchText, sortById, nameLe), ClassOrder(sortById, nameLe))
    ensures multiset(Shown(classes, searchText, sortById, nameLe)) == multiset(Filtered(classes, searchText))
    ensures forall e :: e in Shown(classes, searchText, sortById, nameLe) <==> e in classes && Matches(e, searchText)
    ensures searchText == [] ==> multiset(Shown(classes, searchText, sortById, nameLe)) == multiset(classes)
    ensures forall e :: EquivalentTo(Shown(classes, searchText, sortById, nameLe), e, ClassOrder(sortById, nameLe))
                     == EquivalentTo(Filtered(classes, searchText), e, ClassOrder(sortById, nameLe))
  {
    ClassOrderIsTotalPreorder(sortById, nameLe);
    SortByCorrect(Filtered(classes, searchText), ClassOrder(sortById, nameLe));
    FilteredFacts(classes, searchText);
    forall e ensures e in Shown(classes, searchText, sortById, nameLe) <==> e in Filtered(classes, searchText) {
      assert e in multiset(Shown(classes, searchText, sortById, nameLe)) <==> e in multiset(Filtered(classes, searchText));
    }
  }

  /** Every row the grid shows is a class of the list. */
  lemma ShownHaveIds(classes: seq<ClassEntry>, searchText: string, sortById: bool, nameLe: (string, string) -> bool)
    requires IsTotalPreorder(nameLe)
    ensures forall i :: 0 <= i < |Shown(classes, searchText, sortById, nameLe)| ==>
      HasId(classes, Shown(classes, searchText, sortById, nameLe)[i].id)
  {
    var r := Shown(classes, searchText, sortById, nameLe);
    ShownFacts(classes, searchText, sortById, nameLe);
    forall i | 0 <= i < |r| ensures HasId(classes, r[i].id) {
      assert r[i] in r;
      var j :| 0 <= j < |classes| && classes[j] == r[i];
    }
  }

  /** A class is found by its own id and by its own name. */
  lemma ClassFoundByIdAndName(c: ClassEntry)
    ensures Matches(c, IntToString(c.id))
    ensures Matches(c, c.name)
  {
    var t := IntToString(c.id);
    IntToStringChars(c.id);
    assert Lower(t) == t;
    ContainsTrivial(t);
    LowerIdempotent(c.name);
    ContainsTrivial(Lower(c.name));
  }

  // ---------------------------------------------------------------------
  // Saving and loading
  // ---------------------------------------------------------------------

  /** ToDictionary(c => c.Id, c => c.Name): the entries in list order, or
      None when an id repeats (the call throws). */
  function NamesOf(classes: seq<ClassEntry>): (r: Option<seq<(int, string)>>)
    ensures r.Some? <==> NoDuplicates(Ids(classes))
    ensures r.Some? ==>
      |r.value| == |classes| && forall i :: 0 <= i < |classes| ==> r.value[i] == (classes[i].id, classes[i].name)
  {
    if classes == [] then Some([])
    else
      var init := classes[..|classes| - 1];
      var last := classes[|classes| - 1];
      var r := NamesOf(init);
      assert forall i :: 0 <= i < |init| ==> Ids(init)[i] == Ids(classes)[i];
      if r.None? then
        None
      else if last.id in Ids(init) then
        var i :| 0 <= i < |init| && Ids(init)[i] == last.id;
        assert Ids(classes)[i] == Ids(classes)[|classes| - 1];
        None
      else
        Some(r.value + [(last.id, last.name)])
  }

  /** The configuration SaveYamlFile builds, or None when ToDictionary
      throws on a repeated id. */
  function SavedConfig(paths: PathFields, classes: seq<ClassEntry>): Option<YoloConfig>
  {
    match NamesOf(classes)
    case None => None
    case Some(names) => Some(YoloConfig(paths, |classes|, names))
  }

  /** The class list OpenYamlFile builds from a configuration: one class
      per entry of `names`, in order. */
  function LoadedClasses(config: YoloConfig): (r: seq<ClassEntry>)
    ensures |r| == |config.names|
  {
    seq(|config.names|, i requires 0 <= i < |config.names| => ClassEntry(config.names[i].0, config.names[i].1))
  }

  /** The loop of OpenYamlFile that adds a class per entry of `names`. */
  method LoadClasses(config: YoloConfig) returns (loaded: seq<ClassEntry>)
    ensures loaded == LoadedClasses(config)
  {
    loaded := [];
    for i := 0 to |config.names|
      invariant loaded == LoadedClasses(config)[..i]
    {
      TakeNext(LoadedClasses(config), i);
      loaded := loaded + [ClassEntry(config.names[i].0, config.names[i].1)];
    }
    assert LoadedClasses(config)[..|config.names|] == LoadedClasses(config);
  }

  /** A configuration the deserializer can give: `names` is a
      Dictionary<int, string>, so its keys are distinct C# ints. */
  predicate IsDictionary(config: YoloConfig)
  {
    (forall i, j :: 0 <= i < j < |config.names| ==> config.names[i].0 != config.names[j].0)
    && forall i :: 0 <= i < |config.names| ==> IsInt32(config.names[i].0)
  }

  /** The classes loaded from a dictionary have distinct C# int ids. */
  lemma LoadedIdsAreInt32(config: YoloConfig)
    requires IsDictionary(config)
    ensures IdsAreInt32(LoadedClasses(config)) && NoDuplicates(Ids(LoadedClasses(config)))
  {
    var classes := LoadedClasses(config);
    assert forall i, j :: 0 <= i < j < |classes| ==> Ids(classes)[i] != Ids(classes)[j];
  }

  /** Saving succeeds exactly when the ids are unique; the saved `nc` is
      the number of classes, and loading the saved configuration gives the
      class list back. */
  lemma SaveThenLoad(paths: PathFields, classes: seq<ClassEntry>)
    requires IdsAreInt32(classes)
    ensures SavedConfig(paths, classes).Some? <==> NoDuplicates(Ids(classes))
    ensures SavedConfig(paths, classes).Some? ==>
      var config := SavedConfig(paths, classes).value;
      config.nc == |classes| && IsDictionary(config) && LoadedClasses(config) == classes
  {
    if NoDuplicates(Ids(classes)) {
      var config := SavedConfig(paths, classes).value;
      assert forall i, j :: 0 <= i < j < |classes| ==> Ids(classes)[i] != Ids(classes)[j];
    }
  }

  /** Loading a configuration and saving it again gives the same `names`
      and an `nc` that counts them. */
  lemma LoadThenSave(config: YoloConfig)
    requires IsDictionary(config)
    ensures SavedConfig(config.paths, LoadedClasses(config))
         == Some(config.(nc := |config.names|))
  {
    var classes := LoadedClasses(config);
    assert forall i, j :: 0 <= i < j < |classes| ==> Ids(classes)[i] != Ids(classes)[j];
    var names := NamesOf(classes).value;
    assert forall i :: 0 <= i < |names| ==> names[i] == config.names[i];
    assert names == config.names;
  }

  // ---------------------------------------------------------------------
  // The editor
  // ---------------------------------------------------------------------

  /** The editor control: the text boxes of the four paths, the class list
      and the grid's filtered view of it, the search text and sort choice,
      the current file ("" for none) and the unsaved-changes flag.
      `written` holds the configurations saved so far, by path. */
  class YamlEditorControl {
    var currentFilePath: string
    var hasUnsavedChanges: bool
    var allClasses: seq<ClassEntry>
    var filteredClasses: seq<ClassEntry>
    var paths: PathFields
    var searchText: string
    var sortById: bool
    var written: map<string, YoloConfig>
    /** The culture's order of class names. */
    const nameLe: (string, string) -> bool

    /** Ids are C# ints, names are sorted by a total preorder, and every row
      of the grid is a class of the list. */
    ghost predicate Valid()
      reads this
    {
      IsTotalPreorder(nameLe)
      && IdsAreInt32(allClasses)
      && forall i :: 0 <= i < |filteredClasses| ==> HasId(allClasses, filteredClasses[i].id)
    }

    constructor (nameLe: (string, string) -> bool, sortById: bool)
      requires IsTotalPreorder(nameLe)
      ensures Valid()
      ensures this.nameLe == nameLe && this.sortById == sortById
      ensures allClasses == [] && filteredClasses == [] && searchText == []
      ensures currentFilePath == [] && !hasUnsavedChanges && written == map[]
      ensures paths == PathFields([], [], [], [])
    {
      this.nameLe := nameLe;
      this.sortById := sortById;
      allClasses := [];
      filteredClasses := [];
      searchText := [];
      currentFilePath := [];
      hasUnsavedChanges := false;
      written := map[];
      paths := PathFields([], [], [], []);
    }

    /** UpdateFilteredClasses: the grid is refilled from the filtered,
      sorted list. */
    method UpdateFilteredClasses()
      requires IsTotalPreorder(nameLe) && IdsAreInt32(allClasses)
      modifies this
      ensures Valid()
      ensures filteredClasses == Shown(allClasses, searchText, sortById, nameLe)
      ensures allClasses == old(allClasses) && searchText == old(searchText) && sortById == old(sortById)
      ensures currentFilePath == old(currentFilePath) && hasUnsavedChanges == old(hasUnsavedChanges)
      ensures written == old(written)
      ensures paths == old(paths)
    {
      var all, text, byId := allClasses, searchText, sortById;
      var filtered := Shown(all, text, byId, nameLe);
      ShownHaveIds(all, text, byId, nameLe);
      var rows: seq<ClassEntry> := [];
      for i := 0 to |filtered|
        invariant rows == filtered[..i]
      {
        rows := rows + [filtered[i]];
      }
      assert rows == filtered;
      filteredClasses := rows;
    }

    /** txtSearch_TextChanged: the grid follows the new search text. */
    method SetSearchText(text: string)
      requires Valid()
      modifies this
      ensures Valid()
      ensures searchText == text
      ensures filteredClasses == Shown(allClasses, text, sortById, nameLe)
      ensures allClasses == old(allClasses) && sortById == old(sortById)
      ensures currentFilePath == old(currentFilePath) && hasUnsavedChanges == old(hasUnsavedChanges)
      ensures written == old(written)
      ensures paths == old(paths)
    {
      searchText := text;
      UpdateFilteredClasses();
    }

    /** rbSortById_Checked and rbSortByName_Checked: the grid follows the
      new order. */
    method SetSortById(byId: bool)
      requires Valid()
      modifies this
      ensures Valid()
      ensures sortById == byId
      ensures filteredClasses == Shown(allClasses, searchText, byId, nameLe)
      ensures allClasses == old(allClasses) && searchText == old(searchText)
      ensures currentFilePath == old(currentFilePath) && hasUnsavedChanges == old(hasUnsavedChanges)
      ensures written == old(written)
      ensures paths == old(paths)
    {
      sortById := byId;
      UpdateFilteredClasses();
    }

    /** btnAddClass_Click: a class "new_class" with the next id is
      appended, the grid refreshed and the changes marked unsaved. */
    method AddClass()
      requires Valid()
      modifies this
      ensures Valid()
      ensures allClasses == old(allClasses) + [NewClass(old(allClasses))]
      ensures filteredClasses == Shown(allClasses, searchText, sortById, nameLe)
      ensures hasUnsavedChanges
      ensures searchText == old(searchText) && sortById == old(sortById)
      ensures currentFilePath == old(currentFilePath) && written == old(written)
      ensures paths == old(paths)
    {
      var nextId := 0;
      if |allClasses| > 0 {
        nextId := WrapInt32(MaxId(allClasses) + 1);
      }
      NextIdFacts(allClasses);
      allClasses := allClasses + [ClassEntry(nextId, "new_class")];
      UpdateFilteredClasses();
      hasUnsavedChanges := true;
    }

    /** btnRemoveClass_Click, the selection given as a row of the grid and
      the confirmation as `confirmed`: the first class with the selected
      class's id goes, the grid is refreshed and the changes are marked
      unsaved; without a selection or a confirmation nothing changes. */
    method RemoveClass(selected: Option<nat>, confirmed: bool)
      requires Valid()
      requires selected.Some? ==> selected.value < |filteredClasses|
      modifies this
      ensures Valid()
      ensures selected.None? || !confirmed ==>
        allClasses == old(allClasses) && filteredClasses == old(filteredClasses)
        && hasUnsavedChanges == old(hasUnsavedChanges)
      ensures selected.Some? && confirmed ==>
        HasId(old(allClasses), old(filteredClasses)[selected.value].id)
        && allClasses == Removed(old(allClasses), old(filteredClasses)[selected.value].id)
        && filteredClasses == Shown(allClasses, searchText, sortById, nameLe)
        && hasUnsavedChanges
      ensures searchText == old(searchText) && sortById == old(sortById)
      ensures currentFilePath == old(currentFilePath) && written == old(written)
      ensures paths == old(paths)
    {
      if selected.None? || !confirmed {
        return;
      }
      var id := filteredClasses[selected.value].id;
      var k := FirstWithId(allClasses, id);
      allClasses := allClasses[..k] + allClasses[k + 1..];
      assert IdsAreInt32(allClasses) by {
        forall i | 0 <= i < |allClasses| ensures IsInt32(allClasses[i].id) {
          assert allClasses[i] == old(allClasses)[if i < k then i else i + 1];
        }
      }
      UpdateFilteredClasses();
      hasUnsavedChanges := true;
    }

    /** dgClasses_CellEditEnding for a row of the grid: a committed edit
      marks the changes unsaved; a committed edit of the "Class Name"
      column through a text box gives the row's class, and the first class
      of the list with its id, the new name.  The grid is not refiltered. */
    method CellEditEnding(commit: bool, nameColumn: bool, row: nat, newName: Option<string>)
      requires Valid() && row < |filteredClasses|
      modifies this
      ensures Valid()
      ensures !commit ==> hasUnsavedChanges == old(hasUnsavedChanges)
      ensures commit ==> hasUnsavedChanges
      ensures commit && nameColumn && newName.Some? ==>
        var id := old(filteredClasses)[row].id;
        HasId(old(allClasses), id)
        && allClasses == Renamed(old(allClasses), id, newName.value)
        && filteredClasses == old(filteredClasses)[row := ClassEntry(id, newName.value)]
      ensures !(commit && nameColumn && newName.Some?) ==>
        allClasses == old(allClasses) && filteredClasses == old(filteredClasses)
      ensures searchText == old(searchText) && sortById == old(sortById)
      ensures currentFilePath == old(currentFilePath) && written == old(written)
      ensures paths == old(paths)
    {
      if !commit {
        return;
      }
      hasUnsavedChanges := true;
      if nameColumn && newName.Some? {
        var item := filteredClasses[row];
        filteredClasses := filteredClasses[row := ClassEntry(item.id, newName.value)];
        var k := FirstWithId(allClasses, item.id);
        RenamedFacts(allClasses, item.id, newName.value);
        allClasses := allClasses[k := ClassEntry(item.id, newName.value)];
        forall i | 0 <= i < |filteredClasses| ensures HasId(allClasses, filteredClasses[i].id) {
          assert filteredClasses[i].id == old(filteredClasses)[i].id;
          var j :| 0 <= j < |old(allClasses)| && old(allClasses)[j].id == filteredClasses[i].id;
          assert Ids(allClasses)[j] == Ids(old(allClasses))[j];
        }
      }
    }

    /** SaveYamlFile: the configuration is built, written to `filePath`
      and recorded as the current file, and the changes are saved.  A
      repeated id (ToDictionary throws) or a failed write (`writeOk`
      false) returns false and changes nothing. */
    method SaveYamlFile(filePath: string, writeOk: bool) returns (ok: bool)
      modifies this
      ensures ok <==> NoDuplicates(Ids(allClasses)) && writeOk
      ensures ok ==>
        written == old(written)[filePath := SavedConfig(paths, allClasses).value]
        && currentFilePath == filePath && !hasUnsavedChanges
      ensures !ok ==>
        written == old(written) && currentFilePath == old(currentFilePath) && hasUnsavedChanges == old(hasUnsavedChanges)
      ensures allClasses == old(allClasses) && filteredClasses == old(filteredClasses)
      ensures searchText == old(searchText) && sortById == old(sortById)
      ensures paths == old(paths)
    {
      var names := NamesOf(allClasses);
      if names.None? {
        return false;
      }
      var config := YoloConfig(paths, |allClasses|, names.value);
      if !writeOk {
        return false;
      }
      written := written[filePath := config];
      currentFilePath := filePath;
      hasUnsavedChanges := false;
      return true;
    }

    /** SaveFileAs, the dialog's answer given as `chosenPath` ("" when it
      was cancelled): saves to the chosen path, or returns false. */
    method SaveFileAs(chosenPath: string, writeOk: bool) returns (ok: bool)
      modifies this
      ensures ok <==> chosenPath != [] && NoDuplicates(Ids(allClasses)) && writeOk
      ensures ok ==>
        written == old(written)[chosenPath := SavedConfig(paths, allClasses).value]
        && currentFilePath == chosenPath && !hasUnsavedChanges
      ensures !ok ==>
        written == old(written) && currentFilePath == old(currentFilePath) && hasUnsavedChanges == old(hasUnsavedChanges)
      ensures allClasses == old(allClasses) && filteredClasses == old(filteredClasses)
      ensures searchText == old(searchText) && sortById == old(sortById)
      ensures paths == old(paths)
    {
      if chosenPath != [] {
        ok := SaveYamlFile(chosenPath, writeOk);
      } else {
        ok := false;
      }
    }

    /** SaveCurrentFile: without a current file the save goes through Save
      As and the dialog's path; with one, it goes to that file. */
    method SaveCurrentFile(chosenPath: string, writeOk: bool) returns (ok: bool)
      modifies this
      ensures var target := if old(currentFilePath) == [] then chosenPath else old(currentFilePath);
        (ok <==> target != [] && NoDuplicates(Ids(allClasses)) && writeOk)
        && (ok ==>
          written == old(written)[target := SavedConfig(paths, allClasses).value]
          && currentFilePath == target && !hasUnsavedChanges)
      ensures !ok ==>
        written == old(written) && currentFilePath == old(currentFilePath) && hasUnsavedChanges == old(hasUnsavedChanges)
      ensures allClasses == old(allClasses) && filteredClasses == old(filteredClasses)
      ensures searchText == old(searchText) && sortById == old(sortById)
      ensures paths == old(paths)
    {
      if currentFilePath == [] {
        ok := SaveFileAs(chosenPath, writeOk);
      } else {
        ok := SaveYamlFile(currentFilePath, writeOk);
      }
    }

    /** OpenYamlFile, the file read as `doc`: an unreadable file changes
      nothing; otherwise the form is cleared (ClearForm), and an empty
      document then throws on the null configuration, leaving the cleared
      form; a configuration fills the form, the class list is its `names`
      in order, and the file becomes the current, unchanged file. */
    method OpenYamlFile(filePath: string, doc: YamlDocument)
      requires Valid()
      requires doc.Document? ==> IsDictionary(doc.config)
      modifies this
      ensures Valid()
      ensures doc.Unreadable? ==>
        allClasses == old(allClasses) && filteredClasses == old(filteredClasses)
        && currentFilePath == old(currentFilePath) && hasUnsavedChanges == old(hasUnsavedChanges)
        && paths == old(paths)
      ensures doc.EmptyDocument? ==>
        allClasses == [] && filteredClasses == [] && paths == PathFields([], [], [], [])
        && currentFilePath == old(currentFilePath) && hasUnsavedChanges == old(hasUnsavedChanges)
      ensures doc.Document? ==>
        allClasses == LoadedClasses(doc.config)
        && filteredClasses == Shown(allClasses, searchText, sortById, nameLe)
        && currentFilePath == filePath && !hasUnsavedChanges
        && paths == doc.config.paths
      ensures searchText == old(searchText) && sortById == old(sortById) && written == old(written)
    {
      if doc.Unreadable? {
        return;
      }
      paths := PathFields([], [], [], []);
      allClasses := [];
      UpdateFilteredClasses();
      if doc.EmptyDocument? {
        return;
      }
      var data := doc.config;
      paths := data.paths;
      allClasses := LoadClasses(data);
      LoadedIdsAreInt32(data);
      UpdateFilteredClasses();
      currentFilePath := filePath;
      hasUnsavedChanges := false;
    }
  }

  /** Saving what was opened writes the opened file's class list back: the
      same `names`, and an `nc` that counts them. */
  method OpenThenSave(editor: YamlEditorControl, filePath: string, config: YoloConfig) returns (ok: bool)
    requires editor.Valid() && IsDictionary(config) && filePath != []
    modifies editor
    ensures ok
    ensures filePath in editor.written && editor.written[filePath] == config.(nc := |config.names|)
  {
    editor.OpenYamlFile(filePath, Document(config));
    LoadThenSave(config);
    ok := editor.SaveCurrentFile([], true);
  }
}

/**
 * The editor's item types: ImageItem with its change-notifying setters,
 * YoloLabel (one box of a label file), ClassItem and its display name, and
 * the reference-typed lists the editor updates in place.
 */
module DatasetModels {
  import opened Text
  import opened Collections

  /** One annotation: a class id and a box in normalised coordinates (the
      source keeps them as `float`; they are modelled as reals). */
  datatype YoloLabel = YoloLabel(classId: int, centerX: real, centerY: real, width: real, height: real)

  /** The class ids of some annotations, in order. */
  function ClassIdsOf(labels: seq<YoloLabel>): (r: seq<int>)
    ensures |r| == |labels| && forall i :: 0 <= i < |r| ==> r[i] == labels[i].classId
  {
    seq(|labels|, i requires 0 <= i < |labels| => labels[i].classId)
  }

  lemma ClassIdsOfAppend(labels: seq<YoloLabel>, l: YoloLabel)
    ensures ClassIdsOf(labels + [l]) == ClassIdsOf(labels) + [l.classId]
  {
  }

  /** List<T>.Remove: the sequence without the first occurrence of `x`, or
      unchanged when `x` does not occur. */
  function RemoveFirst<T(==)>(s: seq<T>, x: T): (r: seq<T>)
    ensures x in s ==> |r| == |s| - 1 && multiset(r) == multiset(s) - multiset{x}
    ensures x !in s ==> r == s
  {
    if s == [] then []
    else if s[0] == x then
      assert s == [x] + s[1..];
      s[1..]
    else
      assert s == [s[0]] + s[1..];
      [s[0]] + RemoveFirst(s[1..], x)
  }

  /** Removing from a list without duplicates leaves a list without
      duplicates that has every other element. */
  lemma {:induction false} RemoveFirstNoDuplicates<T>(s: seq<T>, x: T)
    requires NoDuplicates(s)
    ensures NoDuplicates(RemoveFirst(s, x))
    ensures forall y :: y in RemoveFirst(s, x) <==> y in s && y != x
  {
    if s != [] {
      var t := s[1..];
      assert s == [s[0]] + t;
      forall i, j | 0 <= i < j < |t| ensures t[i] != t[j] {
        assert t[i] == s[i + 1] && t[j] == s[j + 1];
      }
      assert s[0] !in t by {
        forall j | 0 <= j < |t| ensures t[j] != s[0] {
          assert t[j] == s[j + 1];
        }
      }
      if s[0] != x {
        RemoveFirstNoDuplicates(t, x);
        var r := RemoveFirst(t, x);
        var u := [s[0]] + r;
        assert RemoveFirst(s, x) == u;
        forall i, j | 0 <= i < j < |u| ensures u[i] != u[j] {
          assert u[j] == r[j - 1];
          if i > 0 {
            assert u[i] == r[i - 1];
          }
        }
      }
    }
  }

  /** List<T>.RemoveAt(k). */
  function RemoveAt<T>(s: seq<T>, k: nat): (r: seq<T>)
    requires k < |s|
    ensures |r| == |s| - 1
    ensures forall i :: 0 <= i < k ==> r[i] == s[i]
    ensures forall i :: k <= i < |r| ==> r[i] == s[i + 1]
  {
    s[..k] + s[k + 1..]
  }

  lemma RemoveAtMultiset<T>(s: seq<T>, k: nat)
    requires k < |s|
    ensures multiset(RemoveAt(s, k)) == multiset(s) - multiset{s[k]}
  {
    assert s == s[..k] + [s[k]] + s[k + 1..];
  }

  /** A List<T>: an object whose contents the editor changes in place and
      which is compared by reference. */
  class List<T(==)> {
    var items: seq<T>

    constructor ()
      ensures items == []
    {
      items := [];
    }

    constructor FromSeq(s: seq<T>)
      ensures items == s
    {
      items := s;
    }

    predicate Contains(x: T)
      reads this
    {
      x in items
    }

    method Add(x: T)
      modifies this
      ensures items == old(items) + [x]
    {
      items := items + [x];
    }

    method Remove(x: T) returns (removed: bool)
      modifies this
      ensures items == RemoveFirst(old(items), x)
      ensures removed <==> x in old(items)
    {
      removed := x in items;
      items := RemoveFirst(items, x);
    }

    method RemoveAtIndex(k: nat)
      requires k < |items|
      modifies this
      ensures items == RemoveAt(old(items), k)
    {
      items := RemoveAt(items, k);
    }

    method Clear()
      modifies this
      ensures items == []
    {
      items := [];
    }
  }

  /** An image of the editor's list. Thumbnail decoding is not modelled;
      `changed` lists the PropertyChanged notifications raised, in order. */
  class ImageItem {
    var fileName: string
    var filePath: string
    var labelPath: string
    var annotations: List<YoloLabel>
    var classIds: List<int>
    /** Written by the editor directly; it raises no notification. */
    var isEdited: bool
    var changed: seq<string>

    /** A new item holds two fresh empty lists.  The three strings start as
        "", where the source's start as null. */
    constructor ()
      ensures fresh(annotations) && fresh(classIds)
      ensures annotations.items == [] && classIds.items == []
      ensures fileName == "" && filePath == "" && labelPath == "" && !isEdited && changed == []
    {
      fileName := "";
      filePath := "";
      labelPath := "";
      annotations := new List();
      classIds := new List();
      isEdited := false;
      changed := [];
    }

    /** SetProperty on FileName: stores and notifies only a different value. */
    method SetFileName(value: string) returns (r: bool)
      modifies this
      ensures r <==> old(fileName) != value
      ensures fileName == value
      ensures changed == old(changed) + (if r then ["FileName"] else [])
      ensures filePath == old(filePath) && labelPath == old(labelPath) && isEdited == old(isEdited)
      ensures annotations == old(annotations) && classIds == old(classIds)
    {
      if fileName == value {
        return false;
      }
      fileName := value;
      changed := changed + ["FileName"];
      return true;
    }

    method SetFilePath(value: string) returns (r: bool)
      modifies this
      ensures r <==> old(filePath) != value
      ensures filePath == value
      ensures changed == old(changed) + (if r then ["FilePath"] else [])
      ensures fileName == old(fileName) && labelPath == old(labelPath) && isEdited == old(isEdited)
      ensures annotations == old(annotations) && classIds == old(classIds)
    {
      if filePath == value {
        return false;
      }
      filePath := value;
      changed := changed + ["FilePath"];
      return true;
    }

    method SetLabelPath(value: string) returns (r: bool)
      modifies this
      ensures r <==> old(labelPath) != value
      ensures labelPath == value
      ensures changed == old(changed) + (if r then ["LabelPath"] else [])
      ensures fileName == old(fileName) && filePath == old(filePath) && isEdited == old(isEdited)
      ensures annotations == old(annotations) && classIds == old(classIds)
    {
      if labelPath == value {
        return false;
      }
      labelPath := value;
      changed := changed + ["LabelPath"];
      return true;
    }

    /** SetProperty on Annotations compares the lists by reference. */
    method SetAnnotations(value: List<YoloLabel>) returns (r: bool)
      modifies this
      ensures r <==> old(annotations) != value
      ensures annotations == value
      ensures changed == old(changed) + (if r then ["Annotations"] else [])
      ensures fileName == old(fileName) && filePath == old(filePath) && labelPath == old(labelPath)
      ensures isEdited == old(isEdited) && classIds == old(classIds)
    {
      if annotations == value {
        return false;
      }
      annotations := value;
      changed := changed + ["Annotations"];
      return true;
    }

    /** SetProperty on ClassIds compares the lists by reference. */
    method SetClassIds(value: List<int>) returns (r: bool)
      modifies this
      ensures r <==> old(classIds) != value
      ensures classIds == value
      ensures changed == old(changed) + (if r then ["ClassIds"] else [])
      ensures fileName == old(fileName) && filePath == old(filePath) && labelPath == old(labelPath)
      ensures isEdited == old(isEdited) && annotations == old(annotations)
    {
      if classIds == value {
        return false;
      }
      classIds := value;
      changed := changed + ["ClassIds"];
      return true;
    }
  }

  /** A class of the editor's class list (the brush is not modelled). */
  datatype ClassItem = ClassItem(classId: int, name: string)

  /** ClassItem.DisplayName: "<id>: <name>". */
  function DisplayName(c: ClassItem): (r: string)
    ensures SplitFirst(r, ':') == [IntToString(c.classId), " " + c.name]
  {
    IntToStringHasNoColon(c.classId);
    SplitFirstOfJoin(IntToString(c.classId), ':', " " + c.name);
    assert IntToString(c.classId) + ": " + c.name == IntToString(c.classId) + [':'] + (" " + c.name);
    IntToString(c.classId) + ": " + c.name
  }

  lemma IntToStringHasNoColon(n: int)
    ensures ':' !in IntToString(n)
  {
    IntToStringChars(n);
  }

  /** int.ToString() is one-to-one. */
  lemma IntToStringInjective(a: int, b: int)
    requires IntToString(a) == IntToString(b)
    ensures a == b
  {
    var s := IntToString(a);
    if a < 0 && b < 0 {
      assert s[1..] == NatToString(-a) && s[1..] == NatToString(-b);
      NatToStringInjective(-a, -b);
    } else if a >= 0 && b >= 0 {
      NatToStringInjective(a, b);
    }
  }

  /** Different class items are displayed differently: the display name
      determines both the id and the name. */
  lemma DisplayNameInjective(a: ClassItem, b: ClassItem)
    requires DisplayName(a) == DisplayName(b)
    ensures a == b
  {
    assert IntToString(a.classId) == IntToString(b.classId);
    IntToStringInjective(a.classId, b.classId);
    assert (" " + a.name)[1..] == a.name && (" " + b.name)[1..] == b.name;
  }
}

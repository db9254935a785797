/**
 * The validation and comparison types of the dataset tools: validation
 * issues and results, the validation categories, the per-class statistics
 * with their change-notifying setters, and the per-class comparison of two
 * datasets.
 */
module YoloDatasetModels {
  import opened Text

  datatype ValidationIssueType =
    | MinimumROI
    | DuplicateClass
    | InvalidCoordinates
    | SpecificClass
    | KnownConfusion
    | MissingLabel
    | MissingImage
    | EmptyLabel

  /** The numeric value of an issue type: its position in the declaration. */
  function IssueTypeValue(t: ValidationIssueType): (n: nat)
    ensures n < 8
  {
    match t
    case MinimumROI => 0
    case DuplicateClass => 1
    case InvalidCoordinates => 2
    case SpecificClass => 3
    case KnownConfusion => 4
    case MissingLabel => 5
    case MissingImage => 6
    case EmptyLabel => 7
  }

  function IssueTypeOf(n: nat): (t: ValidationIssueType)
    requires n < 8
    ensures IssueTypeValue(t) == n
  {
    if n == 0 then MinimumROI
    else if n == 1 then DuplicateClass
    else if n == 2 then InvalidCoordinates
    else if n == 3 then SpecificClass
    else if n == 4 then KnownConfusion
    else if n == 5 then MissingLabel
    else if n == 6 then MissingImage
    else EmptyLabel
  }

  /** Every issue type has its own value. */
  lemma IssueTypeRoundTrip(t: ValidationIssueType)
    ensures IssueTypeOf(IssueTypeValue(t)) == t
  {
  }

  datatype ValidationCategory =
    | Fine
    | MinimumROICategory
    | DuplicateClasses
    | SpecificClassCategory
    | KnownConfusions
    | InvalidCoordinatesCategory
    | MissingFiles

  /** The numeric value of a category: its position in the declaration, so
      Fine, the first, is 0 and is what a new result holds. */
  function CategoryValue(c: ValidationCategory): (n: nat)
    ensures n < 7
    ensures n == 0 <==> c == Fine
  {
    match c
    case Fine => 0
    case MinimumROICategory => 1
    case DuplicateClasses => 2
    case SpecificClassCategory => 3
    case KnownConfusions => 4
    case InvalidCoordinatesCategory => 5
    case MissingFiles => 6
  }

  function CategoryOf(n: nat): (c: ValidationCategory)
    requires n < 7
    ensures CategoryValue(c) == n
  {
    if n == 0 then Fine
    else if n == 1 then MinimumROICategory
    else if n == 2 then DuplicateClasses
    else if n == 3 then SpecificClassCategory
    else if n == 4 then KnownConfusions
    else if n == 5 then InvalidCoordinatesCategory
    else MissingFiles
  }

  /** Every category has its own value. */
  lemma CategoryRoundTrip(c: ValidationCategory)
    ensures CategoryOf(CategoryValue(c)) == c
  {
  }

  /** One problem found in an image or label file; the line number is
      optional. */
  datatype ValidationIssue = ValidationIssue(issueType: ValidationIssueType, description: string, lineNumber: Option<int>)

  class ValidationResult {
    var imagePath: string
    var labelPath: string
    var issues: seq<ValidationIssue>
    var category: ValidationCategory

    /** A new result has no issues and the default category. */
    constructor ()
      ensures issues == [] && category == Fine && CategoryValue(category) == 0
      ensures IsValid()
    {
      imagePath := "";
      labelPath := "";
      issues := [];
      category := Fine;
    }

    /** A result is valid exactly when it lists no issue. */
    predicate IsValid()
      reads this
    {
      |issues| == 0
    }
  }

  /** C# int arithmetic in an unchecked context: the result taken modulo
      2^32 into the 32-bit range. */
  function Wrap32(n: int): (r: int)
    ensures IsInt32(r)
    ensures IsInt32(n) ==> r == n
    ensures (r - n) % 0x1_0000_0000 == 0
  {
    var m := (n - Int32Min) % 0x1_0000_0000 + Int32Min;
    assert IsInt32(n) ==> (n - Int32Min) % 0x1_0000_0000 == n - Int32Min;
    m
  }

  /** The comparison of one class between two datasets. */
  datatype ClassComparison = ClassComparison(classId: int, className: string, dataset1Count: int, dataset2Count: int)

  /** Difference: the second dataset's count minus the first's, as 32-bit
      int arithmetic. */
  function Difference(c: ClassComparison): (d: int)
    requires IsInt32(c.dataset1Count) && IsInt32(c.dataset2Count)
    ensures IsInt32(d)
    ensures IsInt32(c.dataset2Count - c.dataset1Count) ==> d + c.dataset1Count == c.dataset2Count
  {
    Wrap32(c.dataset2Count - c.dataset1Count)
  }

  function Swapped(c: ClassComparison): ClassComparison
  {
    c.(dataset1Count := c.dataset2Count, dataset2Count := c.dataset1Count)
  }

  /** Counts are never negative, and then the difference never wraps:
      swapping the two datasets negates it. */
  lemma SwapNegatesDifference(c: ClassComparison)
    requires 0 <= c.dataset1Count <= Int32Max && 0 <= c.dataset2Count <= Int32Max
    ensures Difference(Swapped(c)) == -Difference(c)
  {
  }

  /** PercentageDifference: the difference as a percentage of the first
      dataset's count, and 0 when that count is not positive (the source's
      double is modelled as a real). */
  function PercentageDifference(c: ClassComparison): (p: real)
    requires IsInt32(c.dataset1Count) && IsInt32(c.dataset2Count)
    ensures c.dataset1Count <= 0 ==> p == 0.0
    ensures c.dataset1Count > 0 ==> p * (c.dataset1Count as real) == (Difference(c) as real) * 100.0
  {
    if c.dataset1Count > 0 then ((Difference(c) as real) / (c.dataset1Count as real)) * 100.0 else 0.0
  }

  /** With a positive first count, the percentage has the sign of the
      difference, and equal counts give 0. */
  lemma PercentageSign(c: ClassComparison)
    requires IsInt32(c.dataset1Count) && IsInt32(c.dataset2Count)
    requires c.dataset1Count > 0
    ensures PercentageDifference(c) > 0.0 <==> Difference(c) > 0
    ensures PercentageDifference(c) == 0.0 <==> Difference(c) == 0
    ensures c.dataset1Count == c.dataset2Count ==> PercentageDifference(c) == 0.0
  {
    var p := PercentageDifference(c);
    var n := c.dataset1Count as real;
    assert p * n == (Difference(c) as real) * 100.0;
    if p > 0.0 {
      assert p * n > 0.0;
    } else if p < 0.0 {
      assert p * n < 0.0;
    }
  }

  /** The statistics of one class, with notifying setters; `changed` lists
      the PropertyChanged notifications raised, in order.  The class name is
      a reference that starts as null, which None stands for. */
  class ClassStatistics {
    var classId: int
    var className: Option<string>
    var instanceCount: int
    var imageCount: int
    var percentage: real
    var changed: seq<string>

    /** The backing fields start with their default values: 0 and null. */
    constructor ()
      ensures classId == 0 && className.None? && instanceCount == 0 && imageCount == 0 && percentage == 0.0
      ensures changed == []
    {
      classId := 0;
      className := None;
      instanceCount := 0;
      imageCount := 0;
      percentage := 0.0;
      changed := [];
    }

    /** SetProperty on ClassId: an equal value is neither stored nor
        notified; a different one is both. */
    method SetClassId(value: int) returns (r: bool)
      modifies this
      ensures r <==> old(classId) != value
      ensures classId == value
      ensures changed == old(changed) + (if r then ["ClassId"] else [])
      ensures className == old(className) && instanceCount == old(instanceCount)
      ensures imageCount == old(imageCount) && percentage == old(percentage)
    {
      if classId == value {
        return false;
      }
      classId := value;
      changed := changed + ["ClassId"];
      return true;
    }

    /** A first name, even "", differs from the initial null. */
    method SetClassName(value: string) returns (r: bool)
      modifies this
      ensures r <==> old(className) != Some(value)
      ensures className == Some(value)
      ensures changed == old(changed) + (if r then ["ClassName"] else [])
      ensures classId == old(classId) && instanceCount == old(instanceCount)
      ensures imageCount == old(imageCount) && percentage == old(percentage)
    {
      if className == Some(value) {
        return false;
      }
      className := Some(value);
      changed := changed + ["ClassName"];
      return true;
    }

    method SetInstanceCount(value: int) returns (r: bool)
      modifies this
      ensures r <==> old(instanceCount) != value
      ensures instanceCount == value
      ensures changed == old(changed) + (if r then ["InstanceCount"] else [])
      ensures classId == old(classId) && className == old(className)
      ensures imageCount == old(imageCount) && percentage == old(percentage)
    {
      if instanceCount == value {
        return false;
      }
      instanceCount := value;
      changed := changed + ["InstanceCount"];
      return true;
    }

    method SetImageCount(value: int) returns (r: bool)
      modifies this
      ensures r <==> old(imageCount) != value
      ensures imageCount == value
      ensures changed == old(changed) + (if r then ["ImageCount"] else [])
      ensures classId == old(classId) && className == old(className)
      ensures instanceCount == old(instanceCount) && percentage == old(percentage)
    {
      if imageCount == value {
        return false;
      }
      imageCount := value;
      changed := changed + ["ImageCount"];
      return true;
    }

    method SetPercentage(value: real) returns (r: bool)
      modifies this
      ensures r <==> old(percentage) != value
      ensures percentage == value
      ensures changed == old(changed) + (if r then ["Percentage"] else [])
      ensures classId == old(classId) && className == old(className)
      ensures instanceCount == old(instanceCount) && imageCount == old(imageCount)
    {
      if percentage == value {
        return false;
      }
      percentage := value;
      changed := changed + ["Percentage"];
      return true;
    }
  }
}

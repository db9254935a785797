/**
 * The OCR annotator: a folder of .jpg images and its labels.txt, which
 * holds one "<file name> <text>" line per image.  This module models the
 * numbering of the images (GetNumericOrder, the check that the images are
 * called 0.jpg .. n-1.jpg, and the renaming that makes them so), the
 * labels-file codec of the load and of the save, and the annotator's
 * navigation and counts.
 *
 * Image files are full paths as strings, as Directory.GetFiles returns
 * them; the renaming, which moves files, works on the file system of
 * module Paths.
 */
module OcrAnnotation {
  import opened Text
  import opened Collections
  import opened Paths
  import opened AnnotationModels

  // ---------------------------------------------------------------------
  // Numeric order of file names
  // ---------------------------------------------------------------------

  /** The leading run of ASCII digits, the group of the pattern ^(\d+). */
  function LeadingDigits(s: string): (r: string)
    ensures |r| <= |s| && r == s[..|r|] && AllDigits(r)
    ensures |r| < |s| ==> !IsDigit(s[|r|])
  {
    if s != [] && IsDigit(s[0]) then
      var r := LeadingDigits(s[1..]);
      assert s[..|r| + 1] == [s[0]] + r;
      [s[0]] + r
    else []
  }

  /** The unbounded value of the leading digits (0 when there are none). */
  function NumberValue(name: string): (v: int)
    ensures v >= 0
  {
    DigitsValue(LeadingDigits(name))
  }

  /** GetNumericOrder: int.Parse of the leading digits, and int.MaxValue for
      a name that does not start with a digit; None where int.Parse throws
      because the digits do not fit an int. */
  function GetNumericOrder(name: string): (r: Option<int>)
    ensures r.Some? ==> 0 <= r.value <= Int32Max
    ensures (name == [] || !IsDigit(name[0])) ==> r == Some(Int32Max)
    ensures name != [] && IsDigit(name[0]) ==> (r.Some? <==> NumberValue(name) <= Int32Max)
  {
    var d := LeadingDigits(name);
    if d == [] then Some(Int32Max)
    else if DigitsValue(d) <= Int32Max then Some(DigitsValue(d))
    else None
  }

  lemma {:induction false} LeadingDigitsOf(d: string, rest: string)
    requires AllDigits(d) && (rest == [] || !IsDigit(rest[0]))
    ensures LeadingDigits(d + rest) == d
  {
    if d != [] {
      assert (d + rest)[1..] == d[1..] + rest;
      LeadingDigitsOf(d[1..], rest);
      assert d == [d[0]] + d[1..];
    } else {
      assert d + rest == rest;
    }
  }

  /** A name written as a number followed by something that is not a digit
      is ordered by that number, and makes int.Parse throw past int.MaxValue. */
  lemma NumericOrderOfNumber(n: nat, rest: string)
    requires rest == [] || !IsDigit(rest[0])
    ensures GetNumericOrder(NatToString(n) + rest) == if n <= Int32Max then Some(n) else None
    ensures NumberValue(NatToString(n) + rest) == n
  {
    LeadingDigitsOf(NatToString(n), rest);
    NatToStringValue(n);
  }

  // ---------------------------------------------------------------------
  // Numbered names
  // ---------------------------------------------------------------------

  /** The names the pattern ^(\d+)\.(jpg|jpeg)$ matches, ignoring case. */
  predicate IsNumberedName(name: string)
  {
    var d := LeadingDigits(name);
    d != [] && (Lower(name[|d|..]) == ".jpg" || Lower(name[|d|..]) == ".jpeg")
  }

  /** 0, 1, .., n-1: Enumerable.Range(0, n). */
  function Range(n: nat): (r: seq<int>)
    ensures |r| == n && forall i :: 0 <= i < n ==> r[i] == i
  {
    seq(n, i requires 0 <= i < n => i)
  }

  /** AreFilesNumberedSequentially: every file is called <digits>.jpg or
      <digits>.jpeg and the numbers, sorted, are 0 .. n-1.  None where
      int.Parse throws on a number past int.MaxValue. */
  function AreFilesNumberedSequentially(files: seq<string>): (r: Option<bool>)
  {
    var names := Map(files, FileName);
    if exists i :: 0 <= i < |names| && !IsNumberedName(names[i]) then Some(false)
    else if exists i :: 0 <= i < |names| && NumberValue(names[i]) > Int32Max then None
    else
      var numbers := SortBy(Map(names, NumberValue), AtMost);
      Some(|numbers| > 0 && numbers[0] == 0 && numbers == Range(|numbers|))
  }

  /** Every file is called <digits>.jpg or <digits>.jpeg. */
  predicate AllNamesNumbered(files: seq<string>)
  {
    forall i :: 0 <= i < |files| ==> IsNumberedName(FileName(files[i]))
  }

  /** Some file's number does not fit in an int. */
  predicate SomeNumberTooLarge(files: seq<string>)
  {
    exists i :: 0 <= i < |files| && NumberValue(FileName(files[i])) > Int32Max
  }

  /** The files count as numbered exactly when there is at least one, each
      is called <digits>.jpg or <digits>.jpeg, and their numbers are
      0 .. n-1, each once, in any order; the check fails only when every
      name is numbered and some number does not fit in an int. */
  lemma NumberedSequentiallyMeans(files: seq<string>)
    requires |files| <= Int32Max
    ensures AreFilesNumberedSequentially(files) == Some(true) <==>
      |files| > 0 && AllNamesNumbered(files)
      && multiset(Map(Map(files, FileName), NumberValue)) == multiset(Range(|files|))
    ensures AreFilesNumberedSequentially(files).None? <==> AllNamesNumbered(files) && SomeNumberTooLarge(files)
  {
    var ns := Map(Map(files, FileName), NumberValue);
    NumberedCases(files);
    SortedIsRange(ns);
    if multiset(ns) == multiset(Range(|files|)) {
      RangeBound(ns);
      assert !SomeNumberTooLarge(files) by {
        forall i | 0 <= i < |files| ensures NumberValue(FileName(files[i])) <= Int32Max {
          assert ns[i] == NumberValue(FileName(files[i]));
        }
      }
    }
  }

  /** The three outcomes of the check, in terms of the two predicates. */
  lemma NumberedCases(files: seq<string>)
    ensures AreFilesNumberedSequentially(files) ==
      if !AllNamesNumbered(files) then Some(false)
      else if SomeNumberTooLarge(files) then None
      else Some(|files| > 0 && SortBy(Map(Map(files, FileName), NumberValue), AtMost) == Range(|files|))
  {
    var names := Map(files, FileName);
    assert forall i :: 0 <= i < |names| ==> names[i] == FileName(files[i]);
    if AllNamesNumbered(files) && !SomeNumberTooLarge(files) {
      var numbers := SortBy(Map(names, NumberValue), AtMost);
      if numbers == Range(|numbers|) && |numbers| > 0 {
        assert numbers[0] == 0;
      }
    }
  }

  /** The numbers sort to 0 .. n-1 exactly when they are 0 .. n-1 in some
      order. */
  lemma SortedIsRange(ns: seq<int>)
    ensures SortBy(ns, AtMost) == Range(|ns|) <==> multiset(ns) == multiset(Range(|ns|))
  {
    AtMostIsTotalPreorder();
    SortByCorrect(ns, AtMost);
    if multiset(ns) == multiset(Range(|ns|)) {
      SortedIntsUnique(SortBy(ns, AtMost), Range(|ns|));
    }
  }

  lemma RangeBound(ns: seq<int>)
    requires multiset(ns) == multiset(Range(|ns|))
    ensures forall i :: 0 <= i < |ns| ==> 0 <= ns[i] < |ns|
  {
    forall i | 0 <= i < |ns| ensures 0 <= ns[i] < |ns| {
      assert ns[i] in multiset(Range(|ns|));
      var j :| 0 <= j < |ns| && Range(|ns|)[j] == ns[i];
    }
  }

  /** The name the renaming gives the i-th file. */
  function NumberName(i: nat): string
  {
    NatToString(i) + ".jpg"
  }

  function NumberNames(n: nat): (r: seq<string>)
    ensures |r| == n && forall i :: 0 <= i < n ==> r[i] == NumberName(i)
  {
    seq(n, i requires 0 <= i < n => NumberName(i))
  }

  lemma NumberNameFacts(i: nat)
    ensures IsNumberedName(NumberName(i)) && NumberValue(NumberName(i)) == i
    ensures HasNoSeparator(NumberName(i))
  {
    NumberNameIsNumbered(i);
    NumericOrderOfNumber(i, ".jpg");
    DigitsThenNoSeparator(NatToString(i), ".jpg");
  }

  lemma NumberNameIsNumbered(i: nat)
    ensures IsNumberedName(NumberName(i))
  {
    var name := NumberName(i);
    LeadingDigitsOf(NatToString(i), ".jpg");
    assert name[|NatToString(i)|..] == ".jpg";
  }

  /** Digits followed by a text without separators hold no separator. */
  lemma DigitsThenNoSeparator(d: string, rest: string)
    requires AllDigits(d) && HasNoSeparator(rest)
    ensures HasNoSeparator(d + rest)
  {
    forall k | 0 <= k < |d + rest| ensures !IsSeparator((d + rest)[k]) {
      if k < |d| {
        assert IsDigit(d[k]);
      } else {
        assert (d + rest)[k] == rest[k - |d|];
      }
    }
  }

  lemma NumberNameInjective(a: nat, b: nat)
    requires NumberName(a) == NumberName(b)
    ensures a == b
  {
    NumberNameFacts(a);
    NumberNameFacts(b);
  }

  /** Files renamed to 0.jpg .. n-1.jpg, listed in any order, pass the
      sequential-name check. */
  lemma RenamedAreSequential(files: seq<string>)
    requires 0 < |files| <= Int32Max
    requires multiset(Map(files, FileName)) == multiset(NumberNames(|files|))
    ensures AreFilesNumberedSequentially(files) == Some(true)
  {
    var n := |files|;
    var names := Map(files, FileName);
    forall i | 0 <= i < n ensures IsNumberedName(FileName(files[i])) {
      assert names[i] in multiset(NumberNames(n));
      var k :| 0 <= k < n && NumberNames(n)[k] == names[i];
      NumberNameFacts(k);
    }
    forall k | 0 <= k < n ensures Map(NumberNames(n), NumberValue)[k] == Range(n)[k] {
      NumberNameFacts(k);
    }
    assert Map(NumberNames(n), NumberValue) == Range(n);
    MapPermutation(names, NumberNames(n), NumberValue);
    NumberedSequentiallyMeans(files);
  }

  // ---------------------------------------------------------------------
  // The renaming
  // ---------------------------------------------------------------------

  /** The folder the renaming moves the files through. */
  const TempFolderName: string := "temp_rename"

  /** `p` lies somewhere below the directory `dir`. */
  predicate Below(p: Path, dir: Path)
  {
    |p| > |dir| && p[..|dir|] == dir
  }

  /** The paths of the given names inside a folder. */
  function InFolder(folder: Path, names: seq<string>): (r: seq<Path>)
    ensures |r| == |names| && forall i :: 0 <= i < |names| ==> r[i] == folder + [names[i]]
  {
    seq(|names|, i requires 0 <= i < |names| => folder + [names[i]])
  }

  /** `after` is `before` with the file at src[j] moved to dst[j], for every
      j, and nothing else changed. */
  ghost predicate MovedFiles(before: map<Path, Content>, after: map<Path, Content>, src: seq<Path>, dst: seq<Path>)
    requires |src| == |dst|
  {
    (forall j :: 0 <= j < |dst| ==> dst[j] in after && src[j] in before && after[dst[j]] == before[src[j]])
    && (forall p :: p in after <==> (p in before && p !in src) || p in dst)
    && (forall p :: p in before && p !in src && p !in dst ==> after[p] == before[p])
  }

  lemma MovedNothing(files: map<Path, Content>)
    ensures MovedFiles(files, files, [], [])
  {
  }

  /** One more File.Move of a file that was not moved yet to a free path. */
  lemma MovedStep(before: map<Path, Content>, mid: map<Path, Content>, src: seq<Path>, dst: seq<Path>, s: Path, d: Path)
    requires |src| == |dst| && MovedFiles(before, mid, src, dst)
    requires s in before && s !in src && s !in dst && d !in mid && d != s
    ensures s in mid
    ensures MovedFiles(before, (mid - {s})[d := mid[s]], src + [s], dst + [d])
  {
    var after := (mid - {s})[d := mid[s]];
    forall j | 0 <= j < |dst + [d]|
      ensures (dst + [d])[j] in after && (src + [s])[j] in before && after[(dst + [d])[j]] == before[(src + [s])[j]]
    {
      if j < |dst| {
        assert dst[j] in mid && dst[j] != s && dst[j] != d;
      }
    }
  }

  /** Moving files to a staging place and on from there is one move. */
  lemma MovedThenMoved(f0: map<Path, Content>, f1: map<Path, Content>, f2: map<Path, Content>, s: seq<Path>, t: seq<Path>, u: seq<Path>)
    requires |s| == |t| == |u|
    requires MovedFiles(f0, f1, s, t) && MovedFiles(f1, f2, t, u)
    requires forall p :: p in t ==> p !in f0 && p !in u
    ensures MovedFiles(f0, f2, s, u)
  {
  }

  lemma InFolderDistinct(folder: Path, names: seq<string>, i: nat, j: nat)
    requires i < |names| && j < |names| && InFolder(folder, names)[i] == InFolder(folder, names)[j]
    ensures names[i] == names[j]
  {
    assert InFolder(folder, names)[i][|folder|] == names[i];
    assert InFolder(folder, names)[j][|folder|] == names[j];
  }

  /** `after` is what Directory.Delete(dir, recursive: true) leaves of
      `before` once the paths in `gone` are moved away as well: every other
      file outside `dir`, unchanged. */
  ghost predicate RemovedFrom(after: map<Path, Content>, before: map<Path, Content>, gone: seq<Path>, dir: Path)
  {
    (forall p :: p in after <==> p in before && p !in gone && !Below(p, dir))
    && (forall p :: p in after ==> after[p] == before[p])
  }

  /** Directory.Delete(dir, recursive: true): the directory and everything
      below it go. */
  method DeleteDirectory(fs: FileSystem, dir: Path) returns (r: FileSystem)
    ensures RemovedFrom(r.files, fs.files, [], dir)
    ensures forall d :: d in r.dirs <==> d in fs.dirs && d != dir && !Below(d, dir)
  {
    r := FileSystem(map p | p in fs.files && !Below(p, dir) :: fs.files[p], set d | d in fs.dirs && d != dir && !Below(d, dir));
  }

  /** The names Directory.GetFiles(dir, "*.jpg") lists: extension .jpg in
      any case. */
  predicate IsJpgName(name: string)
  {
    Lower(Extension(name)) == ".jpg"
  }

  lemma NumberNameIsJpg(i: nat)
    ensures IsJpgName(NumberName(i)) && Stem(NumberName(i)) == NatToString(i)
  {
    StemOfAppend(NatToString(i), ".jpg");
    assert Lower(".jpg") == ".jpg";
  }

  /** How the renaming ends: with the files renamed, or with an exception
      after `staged` files were moved into temp_rename. */
  datatype RenameResult = Renamed(fs: FileSystem) | Aborted(fs: FileSystem, staged: nat)

  /** RenameFilesToSequentialAsync: the files, sorted by name, are moved one
      by one to temp_rename/<i>.jpg; the .jpg files of temp_rename, ordered
      by int.Parse of their stems, are moved back into the folder as <i>.jpg;
      and the finally block deletes temp_rename with everything in it.  The
      caller passes every .jpg and .jpeg file of the folder.

      When temp_rename holds no file beforehand, the i-th file in name order
      ends up as <i>.jpg and every other file stays as it was.  A file left in
      temp_rename makes a move or int.Parse throw, and the files moved into
      temp_rename by then are deleted with it. */
  method RenameFilesToSequential(fs: FileSystem, folder: Path, files: seq<string>, le: (string, string) -> bool)
    returns (r: RenameResult)
    requires IsTotalPreorder(le)
    requires |files| > 0 && NoDuplicates(files)
    requires forall name :: name in files ==> folder + [name] in fs.files
    requires forall k: nat :: folder + [NumberName(k)] in fs.files ==> NumberName(k) in files
    ensures forall p :: p in r.fs.files ==> !Below(p, folder + [TempFolderName])
    ensures forall d :: d in r.fs.dirs <==>
      (d in fs.dirs || d in Ancestors(folder + [TempFolderName]))
      && d != folder + [TempFolderName] && !Below(d, folder + [TempFolderName])
    ensures (forall p :: p in fs.files ==> !Below(p, folder + [TempFolderName])) && |files| <= Int32Max + 1 ==>
      r.Renamed? && MovedFiles(fs.files, r.fs.files, InFolder(folder, SortBy(files, le)), InFolder(folder, NumberNames(|files|)))
    ensures r.Aborted? ==> (r.staged <= |files| &&
      RemovedFrom(r.fs.files, fs.files, InFolder(folder, SortBy(files, le))[..r.staged], folder + [TempFolderName]))
    ensures r.Renamed? ==> forall k :: 0 <= k < |files| ==> folder + [TempFolderName] + [NumberName(k)] !in fs.files
    ensures r.Aborted? ==> forall k :: 0 <= k < r.staged ==> folder + [TempFolderName] + [NumberName(k)] !in fs.files
    ensures r.Aborted? && r.staged < |files| ==> folder + [TempFolderName] + [NumberName(r.staged)] in fs.files
    ensures (forall k :: 0 <= k < |files| ==> folder + [TempFolderName] + [NumberName(k)] !in fs.files)
      && (exists x :: folder + [TempFolderName] + [x] in fs.files && IsJpgName(x) && ParseInt32(Stem(x)).None?)
      ==> r.Aborted? && r.staged == |files|
  {
    var sorted := SortBy(files, le);
    var n := |sorted|;
    var temp := folder + [TempFolderName];
    RenameSetup(fs.files, folder, files, le);

    var cur := fs.CreateDirectory(temp);
    var staged;
    cur, staged := StageFiles(cur, folder, sorted);
    if staged < n {
      // File.Move threw; the finally block deletes temp_rename
      assert Below(temp + [NumberName(staged)], temp) by {
        assert (temp + [NumberName(staged)])[..|temp|] == temp;
      }
      assert !(forall p :: p in fs.files ==> !Below(p, temp));
      assert !(forall k :: 0 <= k < |files| ==> temp + [NumberName(k)] !in fs.files);
      var left := DeleteDirectory(cur, temp);
      StagedOutside(fs.files, cur.files, left.files, folder, sorted, staged);
      r := Aborted(left, staged);
      return;
    }
    assert InFolder(folder, sorted)[..n] == InFolder(folder, sorted);
    assert InFolder(temp, NumberNames(n))[..n] == InFolder(temp, NumberNames(n));
    r := FinishRename(fs.files, cur, folder, sorted);
    if r.Aborted? {
      StagedOutside(fs.files, cur.files, r.fs.files, folder, sorted, n);
    }
  }

  /** The renaming after every file was staged: temp_rename is listed, its
      .jpg files are ordered by int.Parse of their stems and moved back as
      0.jpg, 1.jpg, ..; whether int.Parse throws or not, the finally block
      deletes temp_rename. */
  method FinishRename(f0: map<Path, Content>, cur: FileSystem, folder: Path, sorted: seq<string>)
    returns (r: RenameResult)
    requires MovedFiles(f0, cur.files, InFolder(folder, sorted), InFolder(folder + [TempFolderName], NumberNames(|sorted|)))
    requires forall k: nat :: folder + [NumberName(k)] in f0 ==> NumberName(k) in sorted
    ensures forall d :: d in r.fs.dirs <==> d in cur.dirs && d != folder + [TempFolderName] && !Below(d, folder + [TempFolderName])
    ensures forall p :: p in r.fs.files ==> !Below(p, folder + [TempFolderName])
    ensures r.Aborted? ==> r.staged == |sorted| && RemovedFrom(r.fs.files, cur.files, [], folder + [TempFolderName])
    ensures (forall p :: p in f0 ==> !Below(p, folder + [TempFolderName])) && |sorted| <= Int32Max + 1 ==>
      r.Renamed? && MovedFiles(f0, r.fs.files, InFolder(folder, sorted), InFolder(folder, NumberNames(|sorted|)))
    ensures (exists x :: folder + [TempFolderName] + [x] in f0 && IsJpgName(x) && ParseInt32(Stem(x)).None?) ==> r.Aborted?
  {
    var n := |sorted|;
    var temp := folder + [TempFolderName];
    var listing := ListJpgFiles(cur, temp);
    LeftoverListed(f0, cur.files, folder, sorted, listing);
    if exists x :: x in listing && ParseInt32(Stem(x)).None? {
      // int.Parse threw; the finally block deletes temp_rename
      if (forall p :: p in f0 ==> !Below(p, temp)) && n <= Int32Max + 1 {
        CleanListing(f0, cur.files, folder, sorted, listing);
        NumberNamesParse(n);
        assert false;
      }
      var left := DeleteDirectory(cur, temp);
      r := Aborted(left, n);
      return;
    }
    var back := ReturnListed(f0, cur, folder, sorted, listing);
    r := Renamed(back);
  }

  /** The second phase once every stem parsed: the listed files, ordered by
      number, are moved back as 0.jpg, 1.jpg, .., and temp_rename is
      deleted. */
  method ReturnListed(f0: map<Path, Content>, cur: FileSystem, folder: Path, sorted: seq<string>, listing: seq<string>)
    returns (r: FileSystem)
    requires MovedFiles(f0, cur.files, InFolder(folder, sorted), InFolder(folder + [TempFolderName], NumberNames(|sorted|)))
    requires forall k: nat :: folder + [NumberName(k)] in f0 ==> NumberName(k) in sorted
    requires NoDuplicates(listing)
    requires forall x :: x in listing <==> folder + [TempFolderName] + [x] in cur.files && IsJpgName(x)
    ensures forall d :: d in r.dirs <==> d in cur.dirs && d != folder + [TempFolderName] && !Below(d, folder + [TempFolderName])
    ensures forall p :: p in r.files ==> !Below(p, folder + [TempFolderName])
    ensures (forall p :: p in f0 ==> !Below(p, folder + [TempFolderName])) && |sorted| <= Int32Max + 1 ==>
      MovedFiles(f0, r.files, InFolder(folder, sorted), InFolder(folder, NumberNames(|sorted|)))
  {
    var n := |sorted|;
    var temp := folder + [TempFolderName];
    var ordered := SortBy(listing, StemNumberLe);
    ReturnOrdered(cur.files, temp, listing);
    FinalsFree(f0, cur.files, folder, sorted);
    var back := ReturnFiles(cur, folder, ordered);
    r := DeleteDirectory(back, temp);
    if (forall p :: p in f0 ==> !Below(p, temp)) && n <= Int32Max + 1 {
      CleanListing(f0, cur.files, folder, sorted, listing);
      CleanOrder(listing, n);
      CleanRename(f0, cur.files, back.files, r.files, folder, sorted);
    }
  }

  /** With temp_rename empty beforehand, staging and moving back is the
      renaming, and the delete of temp_rename keeps every file. */
  lemma CleanRename(f0: map<Path, Content>, staging: map<Path, Content>, f2: map<Path, Content>,
                    left: map<Path, Content>, folder: Path, sorted: seq<string>)
    requires forall p :: p in f0 ==> !Below(p, folder + [TempFolderName])
    requires MovedFiles(f0, staging, InFolder(folder, sorted), InFolder(folder + [TempFolderName], NumberNames(|sorted|)))
    requires MovedFiles(staging, f2, InFolder(folder + [TempFolderName], NumberNames(|sorted|)), InFolder(folder, NumberNames(|sorted|)))
    requires RemovedFrom(left, f2, [], folder + [TempFolderName])
    ensures MovedFiles(f0, left, InFolder(folder, sorted), InFolder(folder, NumberNames(|sorted|)))
  {
    var n := |sorted|;
    var temp := folder + [TempFolderName];
    TempsApart(f0, folder, n);
    MovedThenMoved(f0, staging, f2, InFolder(folder, sorted), InFolder(temp, NumberNames(n)), InFolder(folder, NumberNames(n)));
    NothingLeftBelow(f0, f2, InFolder(folder, sorted), InFolder(folder, NumberNames(n)), folder);
    KeptAllFiles(f2, left, temp);
  }

  /** A listing of 0.jpg .. n-1.jpg in any order has n names, and ordering
      it by number gives 0.jpg .. n-1.jpg. */
  lemma CleanOrder(listing: seq<string>, n: nat)
    requires n <= Int32Max + 1
    requires multiset(listing) == multiset(NumberNames(n))
    ensures |listing| == n && SortBy(listing, StemNumberLe) == NumberNames(n)
  {
    assert |listing| == |multiset(listing)| == |multiset(NumberNames(n))| == n;
    TempFilesInNumberOrder(listing);
  }

  /** The renaming as its authors evidently meant it: it refuses to start,
      and changes nothing, when temp_rename already holds a file or there are
      more files than int numbers, the cases in which the renaming above
      deletes images; otherwise it renames. */
  method RenameFilesSafely(fs: FileSystem, folder: Path, files: seq<string>, le: (string, string) -> bool)
    returns (r: RenameResult)
    requires IsTotalPreorder(le)
    requires |files| > 0 && NoDuplicates(files)
    requires forall name :: name in files ==> folder + [name] in fs.files
    requires forall k: nat :: folder + [NumberName(k)] in fs.files ==> NumberName(k) in files
    ensures r.Aborted? <==> (exists p :: p in fs.files && Below(p, folder + [TempFolderName])) || |files| > Int32Max + 1
    ensures r.Aborted? ==> r.fs == fs && r.staged == 0
    ensures r.Renamed? ==>
      MovedFiles(fs.files, r.fs.files, InFolder(folder, SortBy(files, le)), InFolder(folder, NumberNames(|files|)))
      && forall p :: p in r.fs.files ==> !Below(p, folder + [TempFolderName])
  {
    if (exists p :: p in fs.files && Below(p, folder + [TempFolderName])) || |files| > Int32Max + 1 {
      r := Aborted(fs, 0);
    } else {
      r := RenameFilesToSequential(fs, folder, files, le);
    }
  }

  /** A notes.jpg left in temp_rename: the one image a.jpg is staged as
      temp_rename/0.jpg, int.Parse("notes") throws, and the recursive delete
      leaves no file at all of the folder. */
  lemma LeftoverLosesImages()
    ensures ["d", TempFolderName] + [NumberName(0)] !in map[["d", "a.jpg"] := "image", ["d", TempFolderName, "notes.jpg"] := "notes"]
    ensures IsJpgName("notes.jpg") && ParseInt32(Stem("notes.jpg")).None?
    ensures forall left ::
      RemovedFrom(left, map[["d", "a.jpg"] := "image", ["d", TempFolderName, "notes.jpg"] := "notes"], InFolder(["d"], ["a.jpg"]), ["d", TempFolderName])
      ==> left == map[]
  {
    NotesIsLeftover();
    assert NumberName(0)[0] == '0';
    var f := map[["d", "a.jpg"] := "image", ["d", TempFolderName, "notes.jpg"] := "notes"];
    var temp := ["d", TempFolderName];
    var gone := InFolder(["d"], ["a.jpg"]);
    assert gone[0] == ["d", "a.jpg"];
    assert Below(["d", TempFolderName, "notes.jpg"], temp) by {
      assert ["d", TempFolderName, "notes.jpg"][..|temp|] == temp;
    }
    forall left | RemovedFrom(left, f, gone, temp) ensures left == map[] {
      assert forall p :: p !in left;
    }
  }

  /** notes.jpg is listed by Directory.GetFiles(dir, "*.jpg"), and int.Parse
      throws on its stem. */
  lemma NotesIsLeftover()
    ensures IsJpgName("notes.jpg") && ParseInt32(Stem("notes.jpg")).None?
  {
    var notes := "notes";
    StemOfAppend(notes, ".jpg");
    assert "notes.jpg" == notes + ".jpg";
    assert Lower(".jpg") == ".jpg";
    assert !IsNumberWhite(notes[0]) && !IsNumberWhite(notes[|notes| - 1]);
    assert StripNumberWhite(notes) == notes;
    assert !IsDigit(notes[0]);
    assert ParseDigits(notes, false).None?;
  }

  /** The staging paths lie below temp_rename. */
  lemma InFolderBelow(dir: Path, names: seq<string>)
    ensures forall k :: 0 <= k < |names| ==> Below(InFolder(dir, names)[k], dir)
  {
    forall k | 0 <= k < |names| ensures Below(InFolder(dir, names)[k], dir) {
      assert InFolder(dir, names)[k][..|dir|] == dir;
    }
  }

  /** The staging paths are neither files before the renaming nor final
      names. */
  lemma TempsApart(f0: map<Path, Content>, folder: Path, n: nat)
    requires forall p :: p in f0 ==> !Below(p, folder + [TempFolderName])
    ensures forall p :: p in InFolder(folder + [TempFolderName], NumberNames(n)) ==>
      p !in f0 && p !in InFolder(folder, NumberNames(n))
  {
    var temp := folder + [TempFolderName];
    forall p | p in InFolder(temp, NumberNames(n)) ensures p !in f0 && p !in InFolder(folder, NumberNames(n)) {
      var k :| 0 <= k < n && InFolder(temp, NumberNames(n))[k] == p;
      assert p == temp + [NumberName(k)] && p[..|temp|] == temp;
      assert |p| == |folder| + 2;
    }
  }

  /** After the renaming no file lies below temp_rename. */
  lemma NothingLeftBelow(f0: map<Path, Content>, f2: map<Path, Content>, srcs: seq<Path>, finals: seq<Path>, folder: Path)
    requires |srcs| == |finals| && MovedFiles(f0, f2, srcs, finals)
    requires forall p :: p in f0 ==> !Below(p, folder + [TempFolderName])
    requires forall p :: p in finals ==> |p| == |folder| + 1
    ensures forall p :: p in f2 ==> !Below(p, folder + [TempFolderName])
  {
  }

  /** Deleting a directory below which no file lies keeps every file. */
  lemma KeptAllFiles(files: map<Path, Content>, left: map<Path, Content>, dir: Path)
    requires forall p :: p in files ==> !Below(p, dir)
    requires RemovedFrom(left, files, [], dir)
    ensures left == files
  {
  }

  /** Staging moves files from the folder into temp_rename only: what lies
      outside temp_rename is the folder without the files staged so far. */
  lemma StagedOutside(f0: map<Path, Content>, f1: map<Path, Content>, left: map<Path, Content>, folder: Path, sorted: seq<string>, k: nat)
    requires k <= |sorted|
    requires MovedFiles(f0, f1, InFolder(folder, sorted)[..k], InFolder(folder + [TempFolderName], NumberNames(|sorted|))[..k])
    requires RemovedFrom(left, f1, [], folder + [TempFolderName])
    ensures RemovedFrom(left, f0, InFolder(folder, sorted)[..k], folder + [TempFolderName])
  {
    var temp := folder + [TempFolderName];
    var s := InFolder(folder, sorted)[..k];
    var t := InFolder(temp, NumberNames(|sorted|))[..k];
    InFolderBelow(temp, NumberNames(|sorted|));
    forall p | p in t ensures Below(p, temp) {
      var j :| 0 <= j < k && t[j] == p;
    }
    forall p | p in s ensures !Below(p, temp) {
      var j :| 0 <= j < k && s[j] == p;
      assert |p| == |folder| + 1;
    }
  }

  /** The first loop of the renaming: the i-th file in name order is moved
      to temp_rename/<i>.jpg, until a move finds its target taken. */
  method StageFiles(fs: FileSystem, folder: Path, sorted: seq<string>) returns (r: FileSystem, staged: nat)
    requires NoDuplicates(sorted)
    requires forall k :: 0 <= k < |sorted| ==> folder + [sorted[k]] in fs.files
    ensures r.dirs == fs.dirs && staged <= |sorted|
    ensures MovedFiles(fs.files, r.files, InFolder(folder, sorted)[..staged],
      InFolder(folder + [TempFolderName], NumberNames(|sorted|))[..staged])
    ensures forall k :: 0 <= k < staged ==> folder + [TempFolderName] + [NumberName(k)] !in fs.files
    ensures staged < |sorted| ==> folder + [TempFolderName] + [NumberName(staged)] in fs.files
  {
    var n := |sorted|;
    var srcs := InFolder(folder, sorted);
    var temps := InFolder(folder + [TempFolderName], NumberNames(n));
    StagePathsApart(folder, sorted);
    r, staged := MoveEach(fs, srcs, temps);
  }

  /** File.Move(src[i], dst[i]) for i = 0, 1, .. in turn, until a move
      throws because its target exists: `moved` files were moved by then. */
  method MoveEach(fs: FileSystem, src: seq<Path>, dst: seq<Path>) returns (r: FileSystem, moved: nat)
    requires |src| == |dst| && NoDuplicates(src) && NoDuplicates(dst)
    requires forall p :: p in src ==> p in fs.files && p !in dst
    ensures r.dirs == fs.dirs && moved <= |src|
    ensures MovedFiles(fs.files, r.files, src[..moved], dst[..moved])
    ensures forall k :: 0 <= k < moved ==> dst[k] !in fs.files
    ensures moved < |src| ==> dst[moved] in fs.files
  {
    r := fs;
    moved := 0;
    while moved < |src|
      invariant moved <= |src| && r.dirs == fs.dirs
      invariant MovedFiles(fs.files, r.files, src[..moved], dst[..moved])
      invariant forall k :: 0 <= k < moved ==> dst[k] !in fs.files
    {
      MoveEachStep(fs.files, r.files, src, dst, moved);
      var next := r.MoveFile(src[moved], dst[moved]);
      if next.Failed? {
        return;
      }
      r := next.value;
      moved := moved + 1;
    }
  }

  /** The next move of that loop: its source is still there, its target is
      taken only if it was taken beforehand, and moving it extends the moves. */
  lemma MoveEachStep(before: map<Path, Content>, mid: map<Path, Content>, src: seq<Path>, dst: seq<Path>, i: nat)
    requires i < |src| == |dst| && NoDuplicates(src) && NoDuplicates(dst)
    requires forall p :: p in src ==> p in before && p !in dst
    requires MovedFiles(before, mid, src[..i], dst[..i])
    ensures src[i] in mid
    ensures dst[i] in mid <==> dst[i] in before
    ensures dst[i] !in mid ==> MovedFiles(before, (mid - {src[i]})[dst[i] := mid[src[i]]], src[..i + 1], dst[..i + 1])
  {
    assert src[i] in src && dst[i] !in src;
    forall j | 0 <= j < i
      ensures src[j] != src[i] && dst[j] != src[i] && src[j] != dst[i] && dst[j] != dst[i]
    {
      assert src[j] in src;
    }
    assert src[i] !in src[..i] && src[i] !in dst[..i];
    assert dst[i] !in src[..i] && dst[i] !in dst[..i];
    if dst[i] !in mid {
      MovedStep(before, mid, src[..i], dst[..i], src[i], dst[i]);
      assert src[..i + 1] == src[..i] + [src[i]];
      assert dst[..i + 1] == dst[..i] + [dst[i]];
    }
  }

  /** Directory.GetFiles(dir, "*.jpg"): the .jpg files directly inside
      `dir`, each once, in whatever order the file system gives them. */
  method ListJpgFiles(fs: FileSystem, dir: Path) returns (names: seq<string>)
    ensures NoDuplicates(names)
    ensures forall x :: x in names <==> dir + [x] in fs.files && IsJpgName(x)
  {
    var left := JpgFilesIn(fs, dir);
    names := [];
    while left != {}
      invariant NoDuplicates(names)
      invariant forall x :: x in names ==> x !in left
      invariant forall x :: x in names || x in left <==> dir + [x] in fs.files && IsJpgName(x)
      decreases |left|
    {
      var x :| x in left;
      names := names + [x];
      left := left - {x};
    }
  }

  /** The names of the .jpg files directly inside `dir`. */
  function JpgFilesIn(fs: FileSystem, dir: Path): (r: set<string>)
    ensures forall x :: x in r <==> dir + [x] in fs.files && IsJpgName(x)
  {
    var r := set p | p in fs.files && |p| == |dir| + 1 && p == dir + [p[|dir|]] && IsJpgName(p[|dir|]) :: p[|dir|];
    assert forall x :: x in r <==> dir + [x] in fs.files && IsJpgName(x) by {
      forall x ensures x in r <==> dir + [x] in fs.files && IsJpgName(x) {
        assert (dir + [x])[|dir|] == x;
      }
    }
    r
  }

  /** The second loop of the renaming: the listed files of temp_rename, in
      the order given, are moved back into the folder as 0.jpg, 1.jpg, ... */
  method ReturnFiles(fs: FileSystem, folder: Path, ordered: seq<string>) returns (r: FileSystem)
    requires NoDuplicates(ordered)
    requires forall k :: 0 <= k < |ordered| ==> folder + [TempFolderName] + [ordered[k]] in fs.files
    requires forall k: nat :: folder + [NumberName(k)] !in fs.files
    ensures r.dirs == fs.dirs
    ensures MovedFiles(fs.files, r.files, InFolder(folder + [TempFolderName], ordered), InFolder(folder, NumberNames(|ordered|)))
  {
    var m := |ordered|;
    var temps := InFolder(folder + [TempFolderName], ordered);
    var finals := InFolder(folder, NumberNames(m));
    r := fs;
    var i := 0;
    while i < m
      invariant 0 <= i <= m
      invariant r.dirs == fs.dirs
      invariant MovedFiles(fs.files, r.files, temps[..i], finals[..i])
    {
      ReturnStep(fs.files, r.files, folder, ordered, i);
      r := r.MoveFile(temps[i], finals[i]).value;
      i := i + 1;
    }
    assert temps[..m] == temps && finals[..m] == finals;
  }

  /** What the renaming knows of the sorted list before it starts. */
  lemma RenameSetup(f0: map<Path, Content>, folder: Path, files: seq<string>, le: (string, string) -> bool)
    requires IsTotalPreorder(le) && NoDuplicates(files)
    requires forall name :: name in files ==> folder + [name] in f0
    requires forall k: nat :: folder + [NumberName(k)] in f0 ==> NumberName(k) in files
    ensures |SortBy(files, le)| == |files| && NoDuplicates(SortBy(files, le))
    ensures forall k :: 0 <= k < |files| ==> folder + [SortBy(files, le)[k]] in f0
    ensures forall k: nat :: folder + [NumberName(k)] in f0 ==> NumberName(k) in SortBy(files, le)
  {
    var sorted := SortBy(files, le);
    SortByCorrect(files, le);
    PermutationNoDuplicates(files, sorted);
    forall k | 0 <= k < |files| ensures folder + [sorted[k]] in f0 {
      assert sorted[k] in multiset(files);
    }
    forall k: nat | folder + [NumberName(k)] in f0 ensures NumberName(k) in sorted {
      assert NumberName(k) in multiset(sorted);
    }
  }

  /** The files and their staging paths are all different paths. */
  lemma StagePathsApart(folder: Path, sorted: seq<string>)
    requires NoDuplicates(sorted)
    ensures NoDuplicates(InFolder(folder, sorted))
    ensures NoDuplicates(InFolder(folder + [TempFolderName], NumberNames(|sorted|)))
    ensures forall p :: p in InFolder(folder, sorted) ==> p !in InFolder(folder + [TempFolderName], NumberNames(|sorted|))
  {
    var n := |sorted|;
    var temp := folder + [TempFolderName];
    var srcs := InFolder(folder, sorted);
    var temps := InFolder(temp, NumberNames(n));
    forall i, j | 0 <= i < j < n ensures srcs[i] != srcs[j] && temps[i] != temps[j] {
      if srcs[i] == srcs[j] {
        InFolderDistinct(folder, sorted, i, j);
      }
      if temps[i] == temps[j] {
        InFolderDistinct(temp, NumberNames(n), i, j);
        NumberNameInjective(i, j);
      }
    }
    forall p | p in srcs ensures p !in temps {
      var i :| 0 <= i < n && srcs[i] == p;
      assert |p| == |folder| + 1;
    }
  }

    /** The second loop's next move: its file is in temp_rename and its final
      place in the folder is free. */
  lemma ReturnStep(staged: map<Path, Content>, cur: map<Path, Content>, folder: Path, ordered: seq<string>, i: nat)
    requires i < |ordered| && NoDuplicates(ordered)
    requires forall k :: 0 <= k < |ordered| ==> folder + [TempFolderName] + [ordered[k]] in staged
    requires forall k: nat :: folder + [NumberName(k)] !in staged
    requires MovedFiles(staged, cur, InFolder(folder + [TempFolderName], ordered)[..i], InFolder(folder, NumberNames(|ordered|))[..i])
    ensures InFolder(folder + [TempFolderName], ordered)[i] in cur
    ensures InFolder(folder, NumberNames(|ordered|))[i] !in cur
    ensures MovedFiles(staged,
      (cur - {InFolder(folder + [TempFolderName], ordered)[i]})[InFolder(folder, NumberNames(|ordered|))[i] := cur[InFolder(folder + [TempFolderName], ordered)[i]]],
      InFolder(folder + [TempFolderName], ordered)[..i + 1], InFolder(folder, NumberNames(|ordered|))[..i + 1])
  {
    var temp := folder + [TempFolderName];
    var m := |ordered|;
    var temps := InFolder(temp, ordered);
    var finals := InFolder(folder, NumberNames(m));
    assert temps[i] in staged;
    assert temps[i] !in temps[..i] && temps[i] !in finals[..i] by {
      forall j | 0 <= j < i ensures temps[j] != temps[i] {
        if temps[j] == temps[i] {
          InFolderDistinct(temp, ordered, i, j);
        }
      }
      forall j | 0 <= j < i ensures finals[j] != temps[i] {
        assert |finals[j]| == |folder| + 1 && |temps[i]| == |folder| + 2;
      }
    }
    assert finals[i] !in cur by {
      assert finals[i] == folder + [NumberName(i)];
      forall j | 0 <= j < i ensures finals[j] != finals[i] {
        if finals[j] == finals[i] {
          InFolderDistinct(folder, NumberNames(m), i, j);
          NumberNameInjective(i, j);
        }
      }
    }
    MovedStep(staged, cur, temps[..i], finals[..i], temps[i], finals[i]);
    TakeNext(temps, i);
    TakeNext(finals, i);
  }

  /** A file left directly in temp_rename with a .jpg name is still there
      after staging and is listed. */
  lemma LeftoverListed(f0: map<Path, Content>, cur: map<Path, Content>, folder: Path, sorted: seq<string>, listing: seq<string>)
    requires MovedFiles(f0, cur, InFolder(folder, sorted), InFolder(folder + [TempFolderName], NumberNames(|sorted|)))
    requires forall x :: x in listing <==> folder + [TempFolderName] + [x] in cur && IsJpgName(x)
    ensures forall x :: folder + [TempFolderName] + [x] in f0 && IsJpgName(x) ==> x in listing
  {
    var temp := folder + [TempFolderName];
    forall x | temp + [x] in f0 && IsJpgName(x) ensures x in listing {
      forall j | 0 <= j < |sorted| ensures InFolder(folder, sorted)[j] != temp + [x] {
        assert |InFolder(folder, sorted)[j]| == |folder| + 1;
      }
    }
  }

  /** With temp_rename empty beforehand, its .jpg files after staging are
      exactly 0.jpg .. n-1.jpg. */
  lemma CleanListing(f0: map<Path, Content>, cur: map<Path, Content>, folder: Path, sorted: seq<string>, listing: seq<string>)
    requires forall p :: p in f0 ==> !Below(p, folder + [TempFolderName])
    requires MovedFiles(f0, cur, InFolder(folder, sorted), InFolder(folder + [TempFolderName], NumberNames(|sorted|)))
    requires NoDuplicates(listing)
    requires forall x :: x in listing <==> folder + [TempFolderName] + [x] in cur && IsJpgName(x)
    ensures multiset(listing) == multiset(NumberNames(|sorted|))
  {
    var n := |sorted|;
    var temp := folder + [TempFolderName];
    var temps := InFolder(temp, NumberNames(n));
    forall x ensures x in listing <==> x in NumberNames(n) {
      var q := temp + [x];
      assert Below(q, temp) by {
        assert q[..|temp|] == temp;
      }
      if x in NumberNames(n) {
        var k :| 0 <= k < n && NumberNames(n)[k] == x;
        assert temps[k] == q;
        NumberNameIsJpg(k);
      }
      if x in listing {
        forall j | 0 <= j < n ensures InFolder(folder, sorted)[j] != q {
          assert |InFolder(folder, sorted)[j]| == |folder| + 1;
        }
        var k :| 0 <= k < n && temps[k] == q;
        assert temps[k][|temp|] == NumberName(k);
      }
    }
    NumberNamesNoDuplicates(n);
    SameElementsSameMultiset(listing, NumberNames(n));
  }

  lemma NumberNamesNoDuplicates(n: nat)
    ensures NoDuplicates(NumberNames(n))
  {
    forall i, j | 0 <= i < j < n ensures NumberNames(n)[i] != NumberNames(n)[j] {
      if NumberNames(n)[i] == NumberNames(n)[j] {
        NumberNameInjective(i, j);
      }
    }
  }

  /** int.Parse reads the stem of each of 0.jpg .. n-1.jpg while n - 1 fits
      in an int. */
  lemma NumberNamesParse(n: nat)
    requires n <= Int32Max + 1
    ensures forall x :: x in NumberNames(n) ==> ParseInt32(Stem(x)).Some?
  {
    forall x | x in NumberNames(n) ensures ParseInt32(Stem(x)).Some? {
      var k :| 0 <= k < n && NumberNames(n)[k] == x;
      StemNumberOfNumberName(k);
    }
  }

  /** The files of temp_rename in number order are distinct and present. */
  lemma ReturnOrdered(cur: map<Path, Content>, temp: Path, listing: seq<string>)
    requires NoDuplicates(listing)
    requires forall x :: x in listing <==> temp + [x] in cur && IsJpgName(x)
    ensures NoDuplicates(SortBy(listing, StemNumberLe))
    ensures forall k :: 0 <= k < |listing| ==> temp + [SortBy(listing, StemNumberLe)[k]] in cur
  {
    var ordered := SortBy(listing, StemNumberLe);
    StemNumberLeIsTotalPreorder();
    SortByCorrect(listing, StemNumberLe);
    PermutationNoDuplicates(listing, ordered);
    forall k | 0 <= k < |listing| ensures temp + [ordered[k]] in cur {
      assert ordered[k] in multiset(listing);
    }
  }

  /** After staging no <k>.jpg is left in the folder: the caller passed them
      all, and they were all moved into temp_rename. */
  lemma FinalsFree(f0: map<Path, Content>, cur: map<Path, Content>, folder: Path, sorted: seq<string>)
    requires MovedFiles(f0, cur, InFolder(folder, sorted), InFolder(folder + [TempFolderName], NumberNames(|sorted|)))
    requires forall k: nat :: folder + [NumberName(k)] in f0 ==> NumberName(k) in sorted
    ensures forall k: nat :: folder + [NumberName(k)] !in cur
  {
    var srcs := InFolder(folder, sorted);
    var temps := InFolder(folder + [TempFolderName], NumberNames(|sorted|));
    forall k: nat ensures folder + [NumberName(k)] !in cur {
      var q := folder + [NumberName(k)];
      assert q !in temps by {
        forall j | 0 <= j < |sorted| ensures temps[j] != q {
          assert |temps[j]| == |folder| + 2;
        }
      }
      if q in f0 {
        var j :| 0 <= j < |sorted| && sorted[j] == NumberName(k);
        assert srcs[j] == q;
      }
    }
  }

  /** How the second phase orders the staged files: by int.Parse of the
      name without its extension. */
  predicate StemNumberLe(a: string, b: string)
  {
    ParseInt32(Stem(a)).GetOr(0) <= ParseInt32(Stem(b)).GetOr(0)
  }

  lemma StemNumberOfNumberName(i: nat)
    requires i <= Int32Max
    ensures ParseInt32(Stem(NumberName(i))) == Some(i)
  {
    StemOfAppend(NatToString(i), ".jpg");
    ParseNatToString(i);
  }

  lemma NumberNamesByStem(n: nat, x: string, y: string)
    requires n <= Int32Max + 1
    requires x in NumberNames(n) && y in NumberNames(n)
    requires StemNumberLe(x, y) && StemNumberLe(y, x)
    ensures x == y
  {
    var a :| 0 <= a < n && NumberNames(n)[a] == x;
    var b :| 0 <= b < n && NumberNames(n)[b] == y;
    StemNumberOfNumberName(a);
    StemNumberOfNumberName(b);
  }

  lemma NumberNamesSortedByStem(n: nat)
    requires n <= Int32Max + 1
    ensures SortedBy(NumberNames(n), StemNumberLe)
  {
    forall i, j | 0 <= i < j < n ensures StemNumberLe(NumberNames(n)[i], NumberNames(n)[j]) {
      StemNumberOfNumberName(i);
      StemNumberOfNumberName(j);
    }
  }

  lemma StemNumberLeIsTotalPreorder()
    ensures IsTotalPreorder(StemNumberLe)
  {
  }

  /** Whatever order temp_rename is listed in, ordering its files by number
      gives 0.jpg, 1.jpg, .., n-1.jpg. */
  lemma TempFilesInNumberOrder(listing: seq<string>)
    requires |listing| <= Int32Max + 1
    requires multiset(listing) == multiset(NumberNames(|listing|))
    ensures SortBy(listing, StemNumberLe) == NumberNames(|listing|)
  {
    var n := |listing|;
    var sorted := SortBy(listing, StemNumberLe);
    StemNumberLeIsTotalPreorder();
    SortByCorrect(listing, StemNumberLe);
    NumberNamesSortedByStem(n);
    forall x, y | x in sorted && y in sorted && StemNumberLe(x, y) && StemNumberLe(y, x) ensures x == y {
      assert x in multiset(NumberNames(n)) && y in multiset(NumberNames(n));
      NumberNamesByStem(n, x, y);
    }
    SortedUnique(sorted, NumberNames(n), StemNumberLe);
  }

  // ---------------------------------------------------------------------
  // The labels file
  // ---------------------------------------------------------------------

  /** One line of labels.txt as the load reads it: nothing for a blank line;
      otherwise the file name before the first space and the rest of the
      line, or "" when there is no space. */
  function LabelEntry(line: string): (r: Option<(string, string)>)
  {
    if IsBlank(line) then None
    else
      var parts := SplitFirst(line, ' ');
      Some((parts[0], if |parts| > 1 then parts[1] else ""))
  }

  /** The dictionary the load builds from the lines, a later line for a file
      name replacing an earlier one. */
  function LabelsOf(lines: seq<string>): map<string, string>
  {
    Collect(Map(lines, LabelEntry))
  }

  /** The text the load gives an image: its entry, or "" without one. */
  function LoadedText(labels: map<string, string>, name: string): string
  {
    if name in labels then labels[name] else ""
  }

  /** A file name has an entry exactly when some line names it. */
  lemma LabelsOfKeys(lines: seq<string>, name: string)
    ensures name in LabelsOf(lines) <==>
      exists k :: 0 <= k < |lines| && LabelEntry(lines[k]).Some? && LabelEntry(lines[k]).value.0 == name
  {
    var es := Map(lines, LabelEntry);
    CollectKeys(es, name);
    if name in LabelsOf(lines) {
      var k :| 0 <= k < |es| && es[k].Some? && es[k].value.0 == name;
      assert LabelEntry(lines[k]) == es[k];
    }
  }

  /** The last line naming a file gives its text. */
  lemma LabelsOfLastWins(lines: seq<string>, k: nat)
    requires k < |lines| && LabelEntry(lines[k]).Some?
    requires forall j :: k < j < |lines| && LabelEntry(lines[j]).Some? ==>
      LabelEntry(lines[j]).value.0 != LabelEntry(lines[k]).value.0
    ensures LabelEntry(lines[k]).value.0 in LabelsOf(lines)
    ensures LabelsOf(lines)[LabelEntry(lines[k]).value.0] == LabelEntry(lines[k]).value.1
  {
    var es := Map(lines, LabelEntry);
    CollectLastWins(es, k);
  }

  /** When every line naming a file gives the same text, that is its text. */
  lemma LabelsOfUniform(lines: seq<string>, name: string, text: string)
    requires exists k :: 0 <= k < |lines| && LabelEntry(lines[k]) == Some((name, text))
    requires forall k :: 0 <= k < |lines| && LabelEntry(lines[k]).Some? && LabelEntry(lines[k]).value.0 == name ==>
      LabelEntry(lines[k]).value.1 == text
    ensures name in LabelsOf(lines) && LabelsOf(lines)[name] == text
  {
    var es := Map(lines, LabelEntry);
    var k :| 0 <= k < |lines| && LabelEntry(lines[k]) == Some((name, text));
    assert es[k] == Some((name, text));
    CollectUniform(es, name, text);
  }

  /** The loop of LoadAnnotationsAsync that fills the dictionary. */
  method ParseLabels(lines: seq<string>) returns (labels: map<string, string>)
    ensures labels == LabelsOf(lines)
  {
    labels := map[];
    for k := 0 to |lines|
      invariant labels == LabelsOf(lines[..k])
    {
      assert Map(lines[..k + 1], LabelEntry)[..k] == Map(lines[..k], LabelEntry);
      var entry := LabelEntry(lines[k]);
      if entry.Some? {
        labels := labels[entry.value.0 := entry.value.1];
      }
    }
    assert lines[..|lines|] == lines;
  }

  /** What the save writes of one annotation. */
  datatype Entry = Entry(filename: string, text: Option<string>)

  /** The line SaveLabelsFile writes for an annotation: "<name> <text>"
      without trailing white space, a missing text counting as "". */
  function SaveLine(e: Entry): string
  {
    TrimEnd(e.filename + " " + e.text.GetOr(""))
  }

  /** The order of OrderBy(name => GetNumericOrder(name)), for names whose
      order does not throw. */
  predicate NumericLe(a: string, b: string)
  {
    GetNumericOrder(a).GetOr(0) <= GetNumericOrder(b).GetOr(0)
  }

  /** OrderBy(a => GetNumericOrder(a.Filename)). */
  predicate EntryLe(a: Entry, b: Entry)
  {
    NumericLe(a.filename, b.filename)
  }

  /** The lines of the labels file, in numeric order of the file names;
      None where GetNumericOrder throws and nothing is written. */
  function SaveLines(entries: seq<Entry>): (r: Option<seq<string>>)
    ensures r.Some? <==> forall i :: 0 <= i < |entries| ==> GetNumericOrder(entries[i].filename).Some?
    ensures r.Some? ==> |r.value| == |entries|
  {
    if forall i :: 0 <= i < |entries| ==> GetNumericOrder(entries[i].filename).Some? then
      Some(Map(SortBy(entries, EntryLe), SaveLine))
    else None
  }

  /** The annotations a save and a load carry across unchanged: a file name
      without white space and a text without line breaks or trailing white
      space. */
  predicate Savable(e: Entry)
  {
    e.filename != []
    && (forall k :: 0 <= k < |e.filename| ==> !IsWhiteSpace(e.filename[k]))
    && HasNoLineBreak(e.text.GetOr(""))
    && TrimEnd(e.text.GetOr("")) == e.text.GetOr("")
  }

  /** A saved line is read back as the annotation's file name and text. */
  lemma SaveLineReadsBack(e: Entry)
    requires Savable(e)
    ensures HasNoLineBreak(SaveLine(e))
    ensures LabelEntry(SaveLine(e)) == Some((e.filename, e.text.GetOr("")))
  {
    var name, text := e.filename, e.text.GetOr("");
    if text == [] {
      NameAloneReadsBack(name);
    } else {
      NameAndTextReadBack(name, text);
    }
  }

  /** A line for an annotation without text is the bare file name. */
  lemma NameAloneReadsBack(name: string)
    requires name != [] && forall k :: 0 <= k < |name| ==> !IsWhiteSpace(name[k])
    ensures TrimEnd(name + " " + "") == name && HasNoLineBreak(name)
    ensures LabelEntry(name) == Some((name, ""))
  {
    var s := name + " ";
    assert name + " " + "" == s;
    assert TrimEnd(s) == name by {
      assert s[|name|..] == " ";
      TrimEndAt(s, |name|);
      assert s[..|name|] == name;
    }
    assert HasNoLineBreak(name) by {
      forall k | 0 <= k < |name| ensures !IsLineBreak(name[k]) {
        assert !IsWhiteSpace(name[k]);
      }
    }
    assert ' ' !in name by {
      forall k | 0 <= k < |name| ensures name[k] != ' ' {
        assert !IsWhiteSpace(name[k]);
      }
    }
    assert !IsBlank(name) by {
      assert !IsWhiteSpace(name[0]);
    }
    assert SplitFirst(name, ' ') == [name];
  }

  /** A line for an annotation with text is "<name> <text>". */
  lemma NameAndTextReadBack(name: string, text: string)
    requires name != [] && forall k :: 0 <= k < |name| ==> !IsWhiteSpace(name[k])
    requires text != [] && HasNoLineBreak(text) && TrimEnd(text) == text
    ensures TrimEnd(name + " " + text) == name + " " + text && HasNoLineBreak(name + " " + text)
    ensures LabelEntry(name + " " + text) == Some((name, text))
  {
    var s := name + " " + text;
    assert s[|s| - 1] == text[|text| - 1];
    assert s[|s|..] == [];
    TrimEndAt(s, |s|);
    assert s == name + [' '] + text;
    assert ' ' !in name by {
      forall k | 0 <= k < |name| ensures name[k] != ' ' {
        assert !IsWhiteSpace(name[k]);
      }
    }
    SplitFirstOfJoin(name, ' ', text);
    assert !IsWhiteSpace(s[0]);
    forall k | 0 <= k < |s| ensures !IsLineBreak(s[k]) {
      if k < |name| {
        assert !IsWhiteSpace(name[k]);
      } else if k > |name| {
        assert s[k] == text[k - |name| - 1];
      }
    }
  }

  /** Saving and loading again gives every annotation its text back, when
      the file names are different, contain no white space and the texts
      no line break or trailing white space; a missing text comes back as
      "". */
  lemma SaveThenLoad(entries: seq<Entry>)
    requires SaveLines(entries).Some?
    requires forall i :: 0 <= i < |entries| ==> Savable(entries[i])
    requires forall i, j :: 0 <= i < j < |entries| ==> entries[i].filename != entries[j].filename
    ensures forall i :: 0 <= i < |entries| ==>
      LoadedText(LabelsOf(ReadAllLines(WriteAllLines(SaveLines(entries).value))), entries[i].filename)
        == entries[i].text.GetOr("")
  {
    var sorted := SortBy(entries, EntryLe);
    var lines := SaveLines(entries).value;
    assert IsTotalPreorder(EntryLe);
    SortByCorrect(entries, EntryLe);
    SavedLinesRead(entries, sorted, lines);
    ReadWriteLines(lines);
    forall i | 0 <= i < |entries|
      ensures LoadedText(LabelsOf(lines), entries[i].filename) == entries[i].text.GetOr("")
    {
      EntryReadBack(entries, sorted, lines, i);
    }
  }

  /** Every saved line is read back as the entry it was saved from. */
  lemma SavedLinesRead(entries: seq<Entry>, sorted: seq<Entry>, lines: seq<string>)
    requires forall i :: 0 <= i < |entries| ==> Savable(entries[i])
    requires multiset(sorted) == multiset(entries) && lines == Map(sorted, SaveLine)
    ensures |lines| == |sorted|
    ensures forall k :: 0 <= k < |lines| ==>
      HasNoLineBreak(lines[k]) && LabelEntry(lines[k]) == Some((sorted[k].filename, sorted[k].text.GetOr("")))
  {
    forall k | 0 <= k < |lines| ensures HasNoLineBreak(lines[k]) && LabelEntry(lines[k]) == Some((sorted[k].filename, sorted[k].text.GetOr(""))) {
      assert sorted[k] in multiset(entries);
      SaveLineReadsBack(sorted[k]);
    }
  }

  /** One entry's text comes back: its line gives it, and no other line
      names its file. */
  lemma EntryReadBack(entries: seq<Entry>, sorted: seq<Entry>, lines: seq<string>, i: nat)
    requires i < |entries| && multiset(sorted) == multiset(entries) && |lines| == |sorted|
    requires forall i, j :: 0 <= i < j < |entries| ==> entries[i].filename != entries[j].filename
    requires forall k :: 0 <= k < |lines| ==> LabelEntry(lines[k]) == Some((sorted[k].filename, sorted[k].text.GetOr("")))
    ensures LoadedText(LabelsOf(lines), entries[i].filename) == entries[i].text.GetOr("")
  {
    var e := entries[i];
    assert e in multiset(sorted);
    var k :| 0 <= k < |sorted| && sorted[k] == e;
    assert LabelEntry(lines[k]) == Some((e.filename, e.text.GetOr("")));
    forall k' | 0 <= k' < |lines| && LabelEntry(lines[k']).Some? && LabelEntry(lines[k']).value.0 == e.filename
      ensures LabelEntry(lines[k']).value.1 == e.text.GetOr("")
    {
      assert sorted[k'] in multiset(entries);
      var j :| 0 <= j < |entries| && entries[j] == sorted[k'];
      assert j == i;
    }
    LabelsOfUniform(lines, e.filename, e.text.GetOr(""));
  }

  // ---------------------------------------------------------------------
  // Counts
  // ---------------------------------------------------------------------

  /** Annotations.Count(a => a.HasLabel). */
  function LabeledCount(anns: seq<ImageAnnotation>): (n: nat)
    reads anns
    ensures n <= |anns|
  {
    if anns == [] then 0
    else LabeledCount(anns[..|anns| - 1]) + (if anns[|anns| - 1].HasLabel() then 1 else 0)
  }

  /** Every annotation is labelled exactly when the labelled count is the
      total, and none is exactly when it is 0. */
  lemma {:induction false} LabeledCountBounds(anns: seq<ImageAnnotation>)
    ensures LabeledCount(anns) == |anns| <==> forall i :: 0 <= i < |anns| ==> anns[i].HasLabel()
    ensures LabeledCount(anns) == 0 <==> forall i :: 0 <= i < |anns| ==> !anns[i].HasLabel()
  {
    if anns != [] {
      var init := anns[..|anns| - 1];
      LabeledCountBounds(init);
      assert forall i :: 0 <= i < |init| ==> init[i] == anns[i];
    }
  }

  /** The values of the annotations that the save writes. */
  function EntriesOf(anns: seq<ImageAnnotation>): (r: seq<Entry>)
    reads anns
    ensures |r| == |anns| && forall i :: 0 <= i < |anns| ==> r[i] == Entry(anns[i].filename, anns[i].text)
  {
    if anns == [] then []
    else EntriesOf(anns[..|anns| - 1]) + [Entry(anns[|anns| - 1].filename, anns[|anns| - 1].text)]
  }

  /** OrderBy(f => GetNumericOrder(Path.GetFileName(f))) on image paths whose
      order does not throw. */
  predicate PathLe(a: string, b: string)
  {
    NumericLe(FileName(a), FileName(b))
  }

  /** The loop of SaveLabelsFile that formats one line per annotation. */
  method FormatLines(sorted: seq<Entry>) returns (lines: seq<string>)
    ensures lines == Map(sorted, SaveLine)
  {
    lines := [];
    for k := 0 to |sorted|
      invariant |lines| == k && forall j :: 0 <= j < k ==> lines[j] == SaveLine(sorted[j])
    {
      lines := lines + [SaveLine(sorted[k])];
    }
  }

  /** The labels file path and text SaveLabelsFile writes for the folder
      and the annotations' values, or nothing when no folder is set or the
      ordering throws. */
  function SaveOutcome(folderPath: Option<string>, entries: seq<Entry>): (r: Option<(string, string)>)
    ensures r.Some? <==> folderPath.Some? && folderPath.value != "" && SaveLines(entries).Some?
    ensures r.Some? ==> FileName(r.value.0) == LabelsFileName && r.value.0 == Combine(folderPath.value, LabelsFileName)
  {
    var lines := SaveLines(entries);
    if folderPath.Some? && folderPath.value != "" && lines.Some? then
      FileNameOfCombine(folderPath.value, LabelsFileName);
      Some((Combine(folderPath.value, LabelsFileName), WriteAllLines(lines.value)))
    else None
  }

  /** The text files after a save with the given outcome. */
  function SavedFiles(files: map<string, string>, out: Option<(string, string)>): (r: map<string, string>)
    ensures out.None? ==> r == files
    ensures out.Some? ==> r.Keys == files.Keys + {out.value.0} && r[out.value.0] == out.value.1
    ensures forall p :: p in files && (out.None? || p != out.value.0) ==> p in r && r[p] == files[p]
  {
    if out.Some? then files[out.value.0 := out.value.1] else files
  }

  /** What a save writes: the outcome when File.WriteAllLines succeeds,
      and nothing when it throws (the catch shows the error). */
  function Written(out: Option<(string, string)>, written: bool): (r: Option<(string, string)>)
    ensures r.Some? <==> written && out.Some?
    ensures r.Some? ==> r == out
  {
    if written then out else None
  }

  /** Two saves of the same outcome leave the files as one save does when
      either write succeeds, and as they were when both throw. */
  lemma SavedTwice(files: map<string, string>, out: Option<(string, string)>, first: bool, second: bool)
    ensures SavedFiles(SavedFiles(files, Written(out, first)), Written(out, second))
         == SavedFiles(files, Written(out, first || second))
  {
  }

  // ---------------------------------------------------------------------
  // The annotator
  // ---------------------------------------------------------------------

  /** new ImageAnnotation { Filename, FullPath, Text } for an image path. */
  method NewAnnotation(path: string, text: Option<string>) returns (a: ImageAnnotation)
    ensures fresh(a)
    ensures a.filename == FileName(path) && a.fullPath == path && a.text == text
  {
    a := new ImageAnnotation();
    a.SetFilename(FileName(path));
    a.SetFullPath(path);
    a.SetText(text);
  }

  /** The loop of LoadAnnotationsAsync: one new annotation per image path,
      appended in order, with its loaded text or "". */
  method AddAnnotations(ds: AnnotationDataSet, paths: seq<string>, labels: map<string, string>)
    modifies ds
    requires ds.annotations == []
    ensures ds.selected == old(ds.selected) && ds.folderPath == old(ds.folderPath)
    ensures |ds.annotations| == |paths| && NoDuplicates(ds.annotations)
    ensures forall i :: 0 <= i < |paths| ==> fresh(ds.annotations[i])
    ensures forall i :: 0 <= i < |paths| ==>
      ds.annotations[i].filename == FileName(paths[i])
      && ds.annotations[i].fullPath == paths[i]
      && ds.annotations[i].text == Some(LoadedText(labels, FileName(paths[i])))
  {
    for k := 0 to |paths|
      invariant |ds.annotations| == k
      invariant NoDuplicates(ds.annotations)
      invariant ds.selected == old(ds.selected) && ds.folderPath == old(ds.folderPath)
      invariant forall i :: 0 <= i < k ==> fresh(ds.annotations[i])
      invariant forall i :: 0 <= i < k ==>
        ds.annotations[i].filename == FileName(paths[i])
        && ds.annotations[i].fullPath == paths[i]
        && ds.annotations[i].text == Some(LoadedText(labels, FileName(paths[i])))
    {
      var a := NewAnnotation(paths[k], Some(LoadedText(labels, FileName(paths[k]))));
      ds.AddAnnotation(a);
    }
  }

  /** The image paths ordered by the number of their file names, when no
      file name makes the ordering throw. */
  method SortImagePaths(imageFiles: seq<string>) returns (sorted: seq<string>)
    requires forall i :: 0 <= i < |imageFiles| ==> GetNumericOrder(FileName(imageFiles[i])).Some?
    ensures sorted == SortBy(imageFiles, PathLe) && multiset(sorted) == multiset(imageFiles)
    ensures forall i :: 0 <= i < |sorted| ==> GetNumericOrder(FileName(sorted[i])).Some?
    ensures forall i, j :: 0 <= i < j < |sorted| ==> NumericLe(FileName(sorted[i]), FileName(sorted[j]))
  {
    sorted := SortBy(imageFiles, PathLe);
    assert IsTotalPreorder(PathLe);
    SortByCorrect(imageFiles, PathLe);
    forall k | 0 <= k < |sorted| ensures GetNumericOrder(FileName(sorted[k])).Some? {
      assert sorted[k] in multiset(imageFiles);
    }
    assert forall i, j :: 0 <= i < j < |sorted| ==> PathLe(sorted[i], sorted[j]);
  }

  class OcrAnnotator {
    var dataSet: AnnotationDataSet
    var isDataModified: bool
    /** The text files on disk the annotator reads and writes, by path. */
    var files: map<string, string>

    constructor (disk: map<string, string>)
      ensures fresh(dataSet) && dataSet.annotations == [] && dataSet.selected == null && dataSet.folderPath == None
      ensures !isDataModified && files == disk
    {
      dataSet := new AnnotationDataSet();
      isDataModified := false;
      files := disk;
    }

    /** SaveLabelsFile: writes the lines of all annotations, in numeric
        order, to the folder's labels.txt and clears the modified flag; does
        nothing without a folder, and writes nothing and keeps the flag
        (showing the error) when the ordering throws or `written` says
        File.WriteAllLines throws. */
    method SaveLabelsFile(written: bool)
      modifies this
      ensures dataSet == old(dataSet)
      ensures var out := Written(old(SaveOutcome(dataSet.folderPath, EntriesOf(dataSet.annotations))), written);
        files == SavedFiles(old(files), out)
        && isDataModified == (old(isDataModified) && out.None?)
    {
      var entries := EntriesOf(dataSet.annotations);
      if !dataSet.HasFolder() {
        assert SaveOutcome(dataSet.folderPath, entries).None?;
        return;
      }
      var path := dataSet.LabelsFilePath().value;
      if exists i :: 0 <= i < |entries| && GetNumericOrder(entries[i].filename).None? {
        assert SaveLines(entries).None?;
        return;
      }
      var lines := FormatLines(SortBy(entries, EntryLe));
      assert SaveOutcome(dataSet.folderPath, entries) == Some((path, WriteAllLines(lines)));
      if !written {
        return;
      }
      files := files[path := WriteAllLines(lines)];
      isDataModified := false;
    }

    /** LoadAnnotationsAsync: reads the folder's labels.txt when it exists
        and replaces the annotations by one new annotation per image, in
        numeric order of the file names, each with its loaded text or "".
        Nothing changes when the ordering throws. */
    method LoadAnnotations(folderPath: string, imageFiles: seq<string>) returns (ok: bool)
      modifies dataSet
      ensures ok <==> forall i :: 0 <= i < |imageFiles| ==> GetNumericOrder(FileName(imageFiles[i])).Some?
      ensures !ok ==> dataSet.annotations == old(dataSet.annotations)
      ensures dataSet.selected == old(dataSet.selected) && dataSet.folderPath == old(dataSet.folderPath)
      ensures ok ==>
        var sorted := SortBy(imageFiles, PathLe);
        var path := Combine(folderPath, LabelsFileName);
        var labels := if path in files then LabelsOf(ReadAllLines(files[path])) else map[];
        multiset(sorted) == multiset(imageFiles)
        && |dataSet.annotations| == |sorted|
        && NoDuplicates(dataSet.annotations)
        && forall i :: 0 <= i < |sorted| ==>
             fresh(dataSet.annotations[i])
             && dataSet.annotations[i].filename == FileName(sorted[i])
             && dataSet.annotations[i].fullPath == sorted[i]
             && dataSet.annotations[i].text == Some(LoadedText(labels, FileName(sorted[i])))
      ensures ok ==> forall i :: 0 <= i < |dataSet.annotations| ==> GetNumericOrder(dataSet.annotations[i].filename).Some?
      ensures ok ==> forall i, j :: 0 <= i < j < |dataSet.annotations| ==>
        NumericLe(dataSet.annotations[i].filename, dataSet.annotations[j].filename)
    {
      var path := Combine(folderPath, LabelsFileName);
      var labels: map<string, string> := map[];
      if path in files {
        labels := ParseLabels(ReadAllLines(files[path]));
      }
      if exists i :: 0 <= i < |imageFiles| && GetNumericOrder(FileName(imageFiles[i])).None? {
        return false;
      }
      var sorted := SortImagePaths(imageFiles);
      dataSet.ClearAnnotations();
      AddAnnotations(dataSet, sorted, labels);
      ok := true;
    }

    /** Setting the selection raises the selection-changed handler, which
        saves the labels file; the button handler then saves it again.
        `first` and `second` say whether each File.WriteAllLines succeeds. */
    method SelectAndSaveTwice(a: ImageAnnotation, first: bool, second: bool)
      modifies this, dataSet
      ensures dataSet == old(dataSet) && dataSet.annotations == old(dataSet.annotations)
      ensures dataSet.folderPath == old(dataSet.folderPath) && dataSet.selected == a
      ensures var out := Written(old(SaveOutcome(dataSet.folderPath, EntriesOf(dataSet.annotations))), first || second);
        files == SavedFiles(old(files), out) && isDataModified == (old(isDataModified) && out.None?)
    {
      ghost var entries := EntriesOf(dataSet.annotations);
      ghost var before := files;
      dataSet.SetSelectedAnnotation(a);
      assert EntriesOf(dataSet.annotations) == entries;
      SaveLabelsFile(first);
      assert EntriesOf(dataSet.annotations) == entries;
      SaveLabelsFile(second);
      SavedTwice(before, SaveOutcome(dataSet.folderPath, entries), first, second);
    }

    /** The selection moves to the annotation before it, and the labels
        file is saved twice: by the selection-changed handler and by the
        button, `first` and `second` saying whether each write succeeds. */
    method Previous(first: bool, second: bool)
      modifies this, dataSet
      ensures dataSet == old(dataSet) && dataSet.annotations == old(dataSet.annotations)
      ensures dataSet.folderPath == old(dataSet.folderPath)
      ensures var i := old(dataSet.IndexOf(dataSet.selected));
        if old(dataSet.selected) != null && old(|dataSet.annotations|) > 0 && i > 0 then
          dataSet.selected == old(dataSet.annotations[i - 1])
          && (NoDuplicates(dataSet.annotations) ==> dataSet.IndexOf(dataSet.selected) == i - 1)
          && var out := Written(old(SaveOutcome(dataSet.folderPath, EntriesOf(dataSet.annotations))), first || second);
             files == SavedFiles(old(files), out) && isDataModified == (old(isDataModified) && out.None?)
        else
          dataSet.selected == old(dataSet.selected) && files == old(files) && isDataModified == old(isDataModified)
    {
      if dataSet.selected == null || |dataSet.annotations| == 0 {
        return;
      }
      var i := dataSet.IndexOf(dataSet.selected);
      if i > 0 {
        SelectAndSaveTwice(dataSet.annotations[i - 1], first, second);
      }
    }

    /** The selection moves to the annotation after it; a selection that is
        not in the list (index -1) moves to the first annotation.  The saves
        are those of Previous. */
    method Next(first: bool, second: bool)
      modifies this, dataSet
      ensures dataSet == old(dataSet) && dataSet.annotations == old(dataSet.annotations)
      ensures dataSet.folderPath == old(dataSet.folderPath)
      ensures var i := old(dataSet.IndexOf(dataSet.selected));
        if old(dataSet.selected) != null && i < old(|dataSet.annotations|) - 1 then
          dataSet.selected == old(dataSet.annotations[i + 1])
          && (NoDuplicates(dataSet.annotations) ==> dataSet.IndexOf(dataSet.selected) == i + 1)
          && var out := Written(old(SaveOutcome(dataSet.folderPath, EntriesOf(dataSet.annotations))), first || second);
             files == SavedFiles(old(files), out) && isDataModified == (old(isDataModified) && out.None?)
        else
          dataSet.selected == old(dataSet.selected) && files == old(files) && isDataModified == old(isDataModified)
    {
      if dataSet.selected == null || |dataSet.annotations| == 0 {
        return;
      }
      var i := dataSet.IndexOf(dataSet.selected);
      if i < |dataSet.annotations| - 1 {
        SelectAndSaveTwice(dataSet.annotations[i + 1], first, second);
      }
    }

    /** The "Current: n" text: the selection's 1-based position, "-"
        without a selection, and 0 for a selection not in the list. */
    function CurrentIndexText(): (r: string)
      reads this, dataSet
      ensures dataSet.selected == null || dataSet.annotations == [] ==> r == "Current: -"
      ensures dataSet.selected != null && dataSet.annotations != [] ==>
        r == "Current: " + NatToString(dataSet.IndexOf(dataSet.selected) + 1)
        && (dataSet.selected in dataSet.annotations <==> dataSet.IndexOf(dataSet.selected) + 1 > 0)
    {
      if dataSet.selected != null && |dataSet.annotations| > 0 then
        "Current: " + IntToString(dataSet.IndexOf(dataSet.selected) + 1)
      else "Current: -"
    }

    /** The "Labeled: l/t" text. */
    function LabeledCountText(): (r: string)
      reads this, dataSet, set a | a in dataSet.annotations
      ensures r == "Labeled: " + NatToString(LabeledCount(dataSet.annotations)) + "/" + NatToString(|dataSet.annotations|)
    {
      "Labeled: " + IntToString(LabeledCount(dataSet.annotations)) + "/" + IntToString(|dataSet.annotations|)
    }
  }
}

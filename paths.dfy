/**
 * Paths, file names and the file system the editor reads and writes.
 *
 * A path is the sequence of its components, so that Path.Combine is
 * concatenation; the string forms Path.GetFileName, GetExtension and
 * GetFileNameWithoutExtension work on file names.  The file system is a value:
 * the files with their contents and the set of directories.
 */
module Paths {
  import opened Text
  import opened Collections

  type Path = seq<string>

  /** File contents are modelled as text. */
  type Content = string

  predicate IsSeparator(c: char)
  {
    c == '\\' || c == '/'
  }

  predicate HasNoSeparator(s: string)
  {
    forall i :: 0 <= i < |s| ==> !IsSeparator(s[i])
  }

  /** Path.GetFileName: the text after the last directory separator. */
  function FileName(p: string): (r: string)
    ensures HasNoSeparator(r)
    ensures |r| <= |p|
  {
    if p == [] || IsSeparator(p[|p| - 1]) then []
    else
      var r := FileName(p[..|p| - 1]);
      r + [p[|p| - 1]]
  }

  /** The file name is the end of the path, and a separator precedes it
      unless it is the whole path. */
  lemma {:induction false} FileNameIsSuffix(p: string)
    ensures p[|p| - |FileName(p)|..] == FileName(p)
    ensures |FileName(p)| < |p| ==> IsSeparator(p[|p| - |FileName(p)| - 1])
  {
    if p != [] && !IsSeparator(p[|p| - 1]) {
      var init := p[..|p| - 1];
      var r := FileName(init);
      FileNameIsSuffix(init);
      var k := |init| - |r|;
      assert FileName(p) == r + [p[|p| - 1]];
      assert p[k..] == init[k..] + [p[|p| - 1]];
      if k > 0 {
        assert p[k - 1] == init[k - 1];
      }
    }
  }

  /** A name without separators is its own file name, also after a folder. */
  lemma {:induction false} FileNameOfCombined(folder: string, name: string)
    requires HasNoSeparator(name)
    ensures FileName(name) == name
    ensures FileName(folder + "\\" + name) == name
  {
    if name != [] {
      var init := name[..|name| - 1];
      FileNameOfCombined(folder, init);
      assert (folder + "\\" + name)[..|folder + "\\" + name| - 1] == folder + "\\" + init;
    } else {
      assert (folder + "\\" + name)[|folder + "\\" + name| - 1] == '\\';
    }
  }

  /** Path.Combine(folder, name) with a name that is not rooted. */
  function Combine(folder: string, name: string): string
  {
    if folder == [] then name
    else if IsSeparator(folder[|folder| - 1]) then folder + name
    else folder + "\\" + name
  }

  lemma FileNameOfCombine(folder: string, name: string)
    requires HasNoSeparator(name)
    ensures FileName(Combine(folder, name)) == name
  {
    FileNameOfCombined(folder, name);
    if folder != [] && IsSeparator(folder[|folder| - 1]) {
      FileNameAfterSeparator(folder, name);
    }
  }

  lemma {:induction false} FileNameAfterSeparator(folder: string, name: string)
    requires folder != [] && IsSeparator(folder[|folder| - 1]) && HasNoSeparator(name)
    ensures FileName(folder + name) == name
  {
    if name != [] {
      var init := name[..|name| - 1];
      FileNameAfterSeparator(folder, init);
      assert (folder + name)[..|folder + name| - 1] == folder + init;
    } else {
      assert folder + name == folder;
    }
  }

  /** Position of the last '.' in a file name, if any. */
  function LastDot(name: string): (r: Option<nat>)
    ensures r.None? ==> '.' !in name
    ensures r.Some? ==> r.value < |name| && name[r.value] == '.' && '.' !in name[r.value + 1..]
  {
    if name == [] then None
    else if name[|name| - 1] == '.' then Some(|name| - 1)
    else
      var r := LastDot(name[..|name| - 1]);
      assert r.Some? ==> name[r.value + 1..] == name[..|name| - 1][r.value + 1..] + [name[|name| - 1]];
      r
  }

  /** Path.GetExtension of a file name: from the last '.' on, or nothing when
      there is no '.' or it is the last character. */
  function Extension(name: string): string
  {
    match LastDot(name)
    case None => ""
    case Some(i) => if i == |name| - 1 then "" else name[i..]
  }

  /** Path.GetFileNameWithoutExtension of a file name: what comes before the
      last '.'. */
  function Stem(name: string): string
  {
    match LastDot(name)
    case None => name
    case Some(i) => name[..i]
  }

  /** A name that does not end with '.' is its stem followed by its extension. */
  lemma StemExtension(name: string)
    requires name == [] || name[|name| - 1] != '.'
    ensures Stem(name) + Extension(name) == name
  {
  }

  /** An extension such as ".png": a dot followed by at least one character
      that is not a dot. */
  predicate IsExtension(ext: string)
  {
    |ext| >= 2 && ext[0] == '.' && '.' !in ext[1..]
  }

  /** Appending an extension to a stem is undone by taking the stem and the
      extension apart again. */
  lemma StemOfAppend(stem: string, ext: string)
    requires IsExtension(ext)
    ensures Stem(stem + ext) == stem && Extension(stem + ext) == ext
  {
    var n := stem + ext;
    LastDotOfAppend(stem, ext);
    assert n[..|stem|] == stem;
    assert n[|stem|..] == ext;
  }

  lemma {:induction false} LastDotOfAppend(stem: string, ext: string)
    requires IsExtension(ext)
    ensures LastDot(stem + ext) == Some(|stem|)
    decreases |ext|
  {
    var n := stem + ext;
    if |ext| == 1 {
    } else {
      var init := ext[..|ext| - 1];
      assert n[..|n| - 1] == stem + init;
      assert ext[|ext| - 1] in ext[1..];
      if |init| >= 2 {
        assert init[1..] == ext[1..|ext| - 1];
        assert forall c :: c in init[1..] ==> c in ext[1..];
        LastDotOfAppend(stem, init);
      } else {
        assert init == ".";
        assert n[..|n| - 1] == stem + ".";
      }
    }
  }

  // ---------------------------------------------------------------------
  // The file system
  // ---------------------------------------------------------------------

  datatype IoError =
    | FileNotFound(path: Path)
    | FileAlreadyExists(path: Path)

  datatype Outcome<T> = Done(value: T) | Failed(error: IoError)

  /** Every non-empty prefix of a path: the directories Directory.CreateDirectory
      creates on the way. */
  function Ancestors(p: Path): (r: set<Path>)
    ensures forall k :: 1 <= k <= |p| ==> p[..k] in r
    ensures forall q :: q in r ==> 1 <= |q| <= |p| && q == p[..|q|]
  {
    set k | 1 <= k <= |p| :: p[..k]
  }

  datatype FileSystem = FileSystem(files: map<Path, Content>, dirs: set<Path>)
  {
    predicate FileExists(p: Path)
    {
      p in files
    }

    predicate DirExists(p: Path)
    {
      p in dirs
    }

    /** Directory.CreateDirectory: the directory and all its missing parents. */
    function CreateDirectory(p: Path): (fs: FileSystem)
      ensures fs.files == files
      ensures fs.dirs == dirs + Ancestors(p)
    {
      FileSystem(files, dirs + Ancestors(p))
    }

    /** File.WriteAllText / WriteAllLines. */
    function WriteFile(p: Path, content: Content): (fs: FileSystem)
      ensures fs.files == files[p := content] && fs.dirs == dirs
    {
      FileSystem(files[p := content], dirs)
    }

    /** File.Copy(src, dst, overwrite).  Paths are compared exactly: the
        case-insensitive lookup of Windows and its refusal to copy a file
        onto itself are not modelled. */
    function CopyFile(src: Path, dst: Path, overwrite: bool): (r: Outcome<FileSystem>)
      ensures r.Done? <==> src in files && (overwrite || dst !in files)
      ensures r.Done? ==> r.value.files == files[dst := files[src]] && r.value.dirs == dirs
    {
      if src !in files then Failed(FileNotFound(src))
      else if dst in files && !overwrite then Failed(FileAlreadyExists(dst))
      else Done(FileSystem(files[dst := files[src]], dirs))
    }

    /** File.Move(src, dst): fails when the source is missing or the target
        exists. */
    function MoveFile(src: Path, dst: Path): (r: Outcome<FileSystem>)
      ensures r.Done? <==> src in files && dst !in files
      ensures r.Done? ==> r.value.files == (files - {src})[dst := files[src]] && r.value.dirs == dirs
    {
      if src !in files then Failed(FileNotFound(src))
      else if dst in files then Failed(FileAlreadyExists(dst))
      else Done(FileSystem((files - {src})[dst := files[src]], dirs))
    }
  }

  /** The names of the files directly inside `dir`. */
  ghost function FilesIn(fs: FileSystem, dir: Path): set<string>
  {
    set p | p in fs.files && |p| == |dir| + 1 && p[..|dir|] == dir :: p[|dir|]
  }

  /** `names` is a listing of `dir` (Directory.GetFiles) in whatever order the
      operating system returns it: every file once. */
  ghost predicate IsListing(fs: FileSystem, dir: Path, names: seq<string>)
  {
    NoDuplicates(names) && forall n :: n in names <==> dir + [n] in fs.files
  }

  lemma ListingIsFilesIn(fs: FileSystem, dir: Path, names: seq<string>)
    requires IsListing(fs, dir, names)
    ensures (set n | n in names) == FilesIn(fs, dir)
  {
    forall n | n in FilesIn(fs, dir) ensures n in names {
      var p :| p in fs.files && |p| == |dir| + 1 && p[..|dir|] == dir && p[|dir|] == n;
      assert p == dir + [n];
    }
    forall n | n in names ensures n in FilesIn(fs, dir) {
      var p := dir + [n];
      assert p[..|dir|] == dir && p[|dir|] == n;
    }
  }
}

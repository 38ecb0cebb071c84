/** The two pieces of `pathlib.PurePosixPath` the core uses: `Path(p).name`
    (the file name of a path) and `Path(p).stem` (that name without its last
    suffix). pathlib splits a path at '/', drops empty and "." components, and
    `name` is the last component that remains ("" when none does). */
module PathNames {

  /** Where the final '/'-separated segment of `p` starts. */
  function SegmentStart(p: string): (i: nat)
    ensures i <= |p|
    ensures forall k :: i <= k < |p| ==> p[k] != '/'
    ensures 0 < i ==> p[i - 1] == '/'
  {
    if p == [] then 0
    else if p[|p| - 1] == '/' then |p|
    else SegmentStart(p[..|p| - 1])
  }

  /** `Path(p).name` */
  function Name(p: string): (n: string)
    ensures '/' !in n
    ensures n != "."
    ensures |n| <= |p|
    decreases |p|
  {
    if p == [] then ""
    else if p[|p| - 1] == '/' then Name(p[..|p| - 1])
    else
      var i := SegmentStart(p);
      if p[i..] == "." then Name(p[..i]) else p[i..]
  }

  /** A directory prefix does not change the file name. */
  lemma NameOfJoin(dir: string, file: string)
    requires file != "" && file != "." && '/' !in file
    ensures Name(dir + "/" + file) == file
  {
    var p := dir + "/" + file;
    SegmentStartOfJoin(dir, file);
    assert p[|p| - 1] == file[|file| - 1];
    assert p[|dir| + 1..] == file;
  }

  lemma {:induction false} SegmentStartOfJoin(dir: string, file: string)
    requires '/' !in file
    ensures SegmentStart(dir + "/" + file) == |dir| + 1
    decreases |file|
  {
    var p := dir + "/" + file;
    if file == [] {
      assert p[|p| - 1] == '/';
    } else {
      var last := file[|file| - 1];
      assert last in file;
      assert p[|p| - 1] == last;
      assert p[..|p| - 1] == dir + "/" + file[..|file| - 1];
      SegmentStartOfJoin(dir, file[..|file| - 1]);
    }
  }

  /** The index of the last '.' in `s`, or -1 (Python's `str.rfind`). */
  function RFindDot(s: string): (i: int)
    ensures -1 <= i < |s|
    ensures 0 <= i ==> s[i] == '.'
    ensures forall k :: i < k < |s| ==> s[k] != '.'
  {
    if s == [] then -1
    else if s[|s| - 1] == '.' then |s| - 1
    else RFindDot(s[..|s| - 1])
  }

  /** `Path(p).stem`: the name without its suffix, where a suffix is a final
      '.' that is neither the first nor the last character of the name. */
  function Stem(p: string): (s: string)
    ensures s <= Name(p)
  {
    var name := Name(p);
    var i := RFindDot(name);
    if 0 < i < |name| - 1 then name[..i] else name
  }

  /** Dropping the extension: `Path(base + "." + ext).stem == base` whenever
      `base` is a non-empty file name and `ext` holds no '.'. */
  lemma StemOfFileName(base: string, ext: string)
    requires base != "" && '/' !in base && ext != "" && '.' !in ext && '/' !in ext
    ensures Stem(base + "." + ext) == base
  {
    var name := base + "." + ext;
    assert '/' !in name by {
      forall k | 0 <= k < |name| ensures name[k] != '/' {
        if k < |base| { assert name[k] == base[k]; }
        else if k > |base| { assert name[k] == ext[k - |base| - 1]; }
      }
    }
    NameOfSlashFree(name);
    DotIndex(base, ext);
    assert name[..|base|] == base;
  }

  lemma NameOfSlashFree(name: string)
    requires name != "" && name != "." && '/' !in name
    ensures Name(name) == name
  {
    assert name[|name| - 1] in name;
    SegmentStartNoSlash(name);
  }

  lemma {:induction false} SegmentStartNoSlash(s: string)
    requires '/' !in s
    ensures SegmentStart(s) == 0
    decreases |s|
  {
    if s != [] {
      assert s[|s| - 1] in s;
      assert forall c :: c in s[..|s| - 1] ==> c in s;
      SegmentStartNoSlash(s[..|s| - 1]);
    }
  }

  lemma {:induction false} DotIndex(base: string, ext: string)
    requires '.' !in ext && ext != ""
    ensures RFindDot(base + "." + ext) == |base|
    decreases |ext|
  {
    var s := base + "." + ext;
    var last := ext[|ext| - 1];
    assert last in ext;
    assert s[|s| - 1] == last;
    if |ext| == 1 {
      assert s[..|s| - 1] == base + ".";
    } else {
      assert s[..|s| - 1] == base + "." + ext[..|ext| - 1];
      assert forall c :: c in ext[..|ext| - 1] ==> c in ext;
      DotIndex(base, ext[..|ext| - 1]);
    }
  }
}

/** The read-only view of the catalog tree the DAT writer walks: directories
    and zip containers (RvDir), files (RvFile), and the two lookahead tests
    DatMaker runs on a directory before deciding how to render it. */
module Catalog {
  import opened Text

  datatype Option<T> = None | Some(value: T)

  /** The node kinds DatMaker tests. Only Dir, Zip and File are ever compared
      against; the others stand for every kind it treats alike. */
  datatype FileType = Unknown | Dir | Zip | File | ZipFile

  /** The game record attached to a directory; DatMaker reads its
      description only. */
  datatype RvGame = RvGame(description: string)

  /** A digest that was never computed is the empty sequence. */
  datatype RvFile = RvFile(
    name: string,
    fileType: FileType,
    size: nat,
    crc: seq<byte>,
    md5: seq<byte>,
    sha1: seq<byte>,
    sha1Chd: seq<byte>)

  datatype RvDir = RvDir(
    name: string,
    fileType: FileType,
    game: Option<RvGame>,
    children: seq<Node>)

  /** A child of a directory is either a directory or a file; this replaces
      the `as RvDir` / `as RvFile` casts of the source. */
  datatype Node = DirNode(dir: RvDir) | FileNode(file: RvFile)
  {
    function Name(): string {
      match this
      case DirNode(d) => d.name
      case FileNode(f) => f.name
    }
  }

  /** `item.Game == null ? item.Name : item.Game.GetData(Description)` */
  function Description(d: RvDir): (r: string)
    ensures d.game.None? ==> r == d.name
    ensures d.game.Some? ==> r == d.game.value.description
  {
    match d.game
    case None => d.name
    case Some(g) => g.description
  }

  // -----------------------------------------------------------------------
  // hasChdGrandChildren
  // -----------------------------------------------------------------------

  /** The case-insensitive `.chd` test of hasChdGrandChildren. */
  predicate IsChdNameIgnoringCase(name: string) {
    EndsWith(ToLower(name), ".chd")
  }

  predicate ChildHasChdChild(c: Node) {
    c.DirNode? && exists j :: 0 <= j < |c.dir.children| && IsChdNameIgnoringCase(c.dir.children[j].Name())
  }

  /** Some directory child of `d` has a child, of either kind, whose name ends
      in `.chd` in any letter case. File children of `d` are not looked at. */
  predicate HasChdGrandChild(d: RvDir) {
    exists i :: 0 <= i < |d.children| && ChildHasChdChild(d.children[i])
  }

  /** hasChdGrandChildren: a null directory has none. */
  method HasChdGrandChildren(aDir: Option<RvDir>) returns (r: bool)
    ensures r <==> aDir.Some? && HasChdGrandChild(aDir.value)
  {
    if aDir.None? {
      return false;
    }
    var d := aDir.value;
    for i := 0 to |d.children|
      invariant forall i' :: 0 <= i' < i ==> !ChildHasChdChild(d.children[i'])
    {
      if d.children[i].FileNode? {
        continue;
      }
      var item := d.children[i].dir;
      for j := 0 to |item.children|
        invariant forall j' :: 0 <= j' < j ==> !IsChdNameIgnoringCase(item.children[j'].Name())
      {
        if EndsWith(ToLower(item.children[j].Name()), ".chd") {
          return true;
        }
      }
    }
    return false;
  }

  // -----------------------------------------------------------------------
  // numDisks
  // -----------------------------------------------------------------------

  /** The case-sensitive disk test of numDisks and ProcessDir: a file of kind
      File whose name ends in `.chd`. */
  predicate IsDiskFile(c: Node) {
    c.FileNode? && c.file.fileType == File && EndsWith(c.file.name, ".chd")
  }

  /** Number of disk files among `cs`, counted from the left. */
  function DiskCount(cs: seq<Node>): nat {
    if cs == [] then 0
    else DiskCount(cs[..|cs| - 1]) + (if IsDiskFile(cs[|cs| - 1]) then 1 else 0)
  }

  /** numDisks: the direct children of `dir` that are disk files; a null
      directory has none and sub-directories are never looked into. */
  method NumDisks(dir: Option<RvDir>) returns (retVal: nat)
    ensures retVal == if dir.None? then 0 else DiskCount(dir.value.children)
  {
    retVal := 0;
    if dir.Some? {
      var cs := dir.value.children;
      for i := 0 to |cs|
        invariant retVal == DiskCount(cs[..i])
      {
        assert cs[..i + 1][..i] == cs[..i];
        if cs[i].FileNode? && cs[i].file.fileType == File && EndsWith(cs[i].file.name, ".chd") {
          retVal := retVal + 1;
        }
      }
      assert cs[..|cs|] == cs;
    }
  }

  /** DiskCount is the number of positions holding a disk file. */
  lemma {:induction false} DiskCountIsCardinality(cs: seq<Node>)
    ensures DiskCount(cs) == |set i | 0 <= i < |cs| && IsDiskFile(cs[i])|
    decreases |cs|
  {
    if cs != [] {
      var n := |cs| - 1;
      var init := cs[..n];
      DiskCountIsCardinality(init);
      var before := set i | 0 <= i < n && IsDiskFile(init[i]);
      var after := set i | 0 <= i < |cs| && IsDiskFile(cs[i]);
      assert before == set i | 0 <= i < n && IsDiskFile(cs[i]);
      if IsDiskFile(cs[n]) {
        assert after == before + {n};
      } else {
        assert after == before;
      }
    }
  }

  /** No disk file among the children is the same as a zero count. */
  lemma {:induction false} DiskCountZero(cs: seq<Node>)
    ensures DiskCount(cs) == 0 <==> forall i :: 0 <= i < |cs| ==> !IsDiskFile(cs[i])
    decreases |cs|
  {
    if cs != [] {
      var init := cs[..|cs| - 1];
      DiskCountZero(init);
      assert forall i :: 0 <= i < |init| ==> init[i] == cs[i];
    }
  }

  /** A file child added to a directory never changes hasChdGrandChildren. */
  lemma HasChdGrandChildIgnoresFiles(d: RvDir, f: RvFile)
    ensures HasChdGrandChild(RvDir(d.name, d.fileType, d.game, d.children + [FileNode(f)])) == HasChdGrandChild(d)
  {
    var cs := d.children + [FileNode(f)];
    assert forall i :: 0 <= i < |d.children| ==> cs[i] == d.children[i];
    assert !ChildHasChdChild(cs[|cs| - 1]);
  }

  /** A sub-directory added to a directory never changes numDisks. */
  lemma DiskCountIgnoresDirs(cs: seq<Node>, d: RvDir)
    ensures DiskCount(cs + [DirNode(d)]) == DiskCount(cs)
  {
    assert (cs + [DirNode(d)])[..|cs|] == cs;
  }

  /** The two `.chd` tests disagree on an upper-case extension: such a file
      makes its grandparent skip recursion in rom mode, but is not a disk. */
  lemma UpperCaseChd(f: RvFile)
    requires |f.name| >= 4 && f.name[|f.name| - 4..] == ".CHD"
    ensures IsChdNameIgnoringCase(f.name)
    ensures !IsDiskFile(FileNode(f))
  {
    var n := |f.name|;
    var l := ToLower(f.name);
    assert f.name[n - 3] == 'C';
    assert l[n - 4..] == ".chd" by {
      assert f.name[n - 4] == '.' && f.name[n - 3] == 'C' && f.name[n - 2] == 'H' && f.name[n - 1] == 'D';
    }
  }
}

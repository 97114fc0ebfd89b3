/** What the two traversals promise about their output, stated against
    independent definitions: counts of rom and disk lines, the order of
    children, the fate of the pending disk group, the document frame, and
    the cases where the two modes differ. */
module DatProperties {
  import opened Text
  import opened Catalog
  import opened DatFormat

  // -----------------------------------------------------------------------
  // The document frame
  // -----------------------------------------------------------------------

  /** MakeDatFromDir's output: declaration, blank line, `<datafile>`, a
      header naming the root twice and carrying the mode's comment, the
      traversal, and `</datafile>` last. */
  lemma DatFrame(root: RvDir, chdsAreDisk: bool)
    requires chdsAreDisk || RomSafe(root)
    ensures var ls := DatLines(root.name, root.name, root, chdsAreDisk);
      && |ls| == 9 + |BodyLines(root, chdsAreDisk)|
      && ls[0] == XmlDeclaration && ls[1] == "" && ls[2] == DatafileOpen
      && ls[3] == HeaderOpen
      && ls[4] == HeaderField("name", Clean(root.name))
      && ls[5] == HeaderField("rootdir", Clean(root.name))
      && ls[6] == HeaderField("comment", Clean(if chdsAreDisk then DiskModeComment else RomModeComment))
      && ls[7] == HeaderClose
      && ls[8..|ls| - 1] == BodyLines(root, chdsAreDisk)
      && ls[|ls| - 1] == DatafileClose
  {
    var header := HeaderLines(root.name, root.name, ModeComment(chdsAreDisk));
    var body := BodyLines(root, chdsAreDisk);
    var ls := DatLines(root.name, root.name, root, chdsAreDisk);
    assert |header| == 5;
    assert ls == [XmlDeclaration, "", DatafileOpen] + header + body + [DatafileClose];
    assert ls[8..|ls| - 1] == body;
  }

  // -----------------------------------------------------------------------
  // Rom mode: the lines of one game
  // -----------------------------------------------------------------------

  /** One `<rom>` line per file of a game's sub-directory. */
  lemma {:induction false} SubDirRomsCount(indent: string, dName: string, cs: seq<Node>)
    requires AllFiles(cs)
    ensures |SubDirRoms(indent, dName, cs)| == |cs|
    decreases |cs|
  {
    if cs != [] {
      assert AllFiles(cs[..|cs| - 1]);
      SubDirRomsCount(indent, dName, cs[..|cs| - 1]);
    }
  }

  /** The `k`-th line of a game's sub-directory is the rom line of its
      `k`-th file: the raw directory name, a backslash and the cleaned file
      name. */
  lemma {:induction false} SubDirRomsAt(indent: string, dName: string, cs: seq<Node>, k: nat)
    requires AllFiles(cs) && k < |cs|
    ensures |SubDirRoms(indent, dName, cs)| == |cs|
    ensures SubDirRoms(indent, dName, cs)[k] == SubDirRom(indent, dName, cs[k].file)
    decreases |cs|
  {
    SubDirRomsCount(indent, dName, cs);
    var init := cs[..|cs| - 1];
    assert AllFiles(init);
    SubDirRomsCount(indent, dName, init);
    var r0 := SubDirRoms(indent, dName, init);
    var last := SubDirRom(indent, dName, cs[|cs| - 1].file);
    SnocIndex(r0, last, k);
    if k < |init| {
      SubDirRomsAt(indent, dName, init, k);
      assert init[k] == cs[k];
    }
  }

  /** How many `<rom>` lines a game's children give: one per file child and
      one per file of each sub-directory. Counted from the front, unlike
      GameRoms. */
  function RomCount(cs: seq<Node>): nat {
    if cs == [] then 0 else RomWeight(cs[0]) + RomCount(cs[1..])
  }

  function RomWeight(c: Node): nat {
    match c
    case FileNode(_) => 1
    case DirNode(d) => |d.children|
  }

  lemma {:induction false} RomCountSnoc(cs: seq<Node>)
    requires cs != []
    ensures RomCount(cs) == RomCount(cs[..|cs| - 1]) + RomWeight(cs[|cs| - 1])
    decreases |cs|
  {
    if |cs| > 1 {
      RomCountSnoc(cs[1..]);
      assert cs[1..][..|cs[1..]| - 1] == cs[..|cs| - 1][1..];
    }
  }

  lemma {:induction false} GameRomsCount(indent: string, cs: seq<Node>)
    requires SubDirsHoldFiles(cs)
    ensures |GameRoms(indent, cs)| == RomCount(cs)
    decreases |cs|
  {
    if cs != [] {
      var c := cs[|cs| - 1];
      GameRomsStep(indent, cs, |cs| - 1);
      assert cs[..|cs|] == cs;
      GameRomsCount(indent, cs[..|cs| - 1]);
      RomCountSnoc(cs);
      if c.DirNode? {
        SubDirRomsCount(indent, c.dir.name, c.dir.children);
      }
    }
  }

  /** The rom lines of the children in order: those of a prefix come first. */
  lemma {:induction false} GameRomsConcat(indent: string, a: seq<Node>, b: seq<Node>)
    requires SubDirsHoldFiles(a + b)
    ensures SubDirsHoldFiles(a) && SubDirsHoldFiles(b)
    ensures GameRoms(indent, a + b) == GameRoms(indent, a) + GameRoms(indent, b)
    decreases |b|
  {
    assert forall j :: 0 <= j < |a| ==> (a + b)[j] == a[j];
    assert forall j :: 0 <= j < |b| ==> (a + b)[|a| + j] == b[j];
    if b == [] {
      assert a + b == a;
    } else {
      var init := b[..|b| - 1];
      var c := b[|b| - 1];
      assert (a + b)[..|a + b| - 1] == a + init;
      assert (a + b)[|a + b| - 1] == c;
      assert forall j :: 0 <= j < |init| ==> (a + init)[|a| + j] == init[j];
      GameRomsConcat(indent, a, init);
      calc {
        GameRoms(indent, a + b);
        GameRoms(indent, a + init) + FileRom(indent, c) + ChildSubDirRoms(indent, c);
        GameRoms(indent, a) + GameRoms(indent, init) + FileRom(indent, c) + ChildSubDirRoms(indent, c);
        { AppendAssoc(GameRoms(indent, a), GameRoms(indent, init), FileRom(indent, c));
          AppendAssoc(GameRoms(indent, a), GameRoms(indent, init) + FileRom(indent, c), ChildSubDirRoms(indent, c)); }
        GameRoms(indent, a) + GameRoms(indent, b);
      }
    }
  }

  /** A Zip or Dir child in rom mode is one `<game>` element: opening line,
      description, one rom line per file and sub-directory file, closing
      line, all at the child's depth. */
  lemma PlainGameShape(c: Node, depth: nat)
    requires RomSafeChild(c)
    ensures var g := PlainChildGame(c, depth);
      if c.DirNode? && IsGameKind(c.dir) then
        && |g| == 3 + RomCount(c.dir.children)
        && g[0] == GameOpen(Indent(depth), c.dir.name)
        && g[1] == DescriptionLine(Indent(depth), Description(c.dir))
        && g[2..|g| - 1] == GameRoms(Indent(depth), c.dir.children)
        && g[|g| - 1] == GameClose(Indent(depth))
      else g == []
  {
    if c.DirNode? && IsGameKind(c.dir) {
      GameRomsCount(Indent(depth), c.dir.children);
      var g := PlainChildGame(c, depth);
      assert g[2..|g| - 1] == GameRoms(Indent(depth), c.dir.children);
    }
  }

  /** The `<dir>` wrapper of rom mode is written exactly for a Dir child
      without CHD grandchildren (in any letter case). */
  lemma PlainWrapIff(c: Node, depth: nat)
    requires RomSafeChild(c)
    ensures PlainChildNested(c, depth) != [] <==> c.DirNode? && c.dir.fileType == Dir && !HasChdGrandChild(c.dir)
    ensures PlainChildNested(c, depth) != [] ==>
      var w := PlainChildNested(c, depth);
      && w[0] == DirOpen(Indent(depth), c.dir.name)
      && w[1..|w| - 1] == PlainDirLines(c.dir, depth + 1)
      && w[|w| - 1] == DirClose(Indent(depth))
  {
    if c.DirNode? && PlainRecurses(c.dir) {
      var w := PlainChildNested(c, depth);
      assert w[1..|w| - 1] == PlainDirLines(c.dir, depth + 1);
    }
  }

  // -----------------------------------------------------------------------
  // Disk mode: disk lines and the `<dir>` wrapper
  // -----------------------------------------------------------------------

  /** One `<disk>` line per disk file, so the buffer a Dir child installs
      has 2 + numDisks entries. */
  lemma {:induction false} DiskLinesCount(indent: string, cs: seq<Node>)
    ensures |DiskLinesOf(indent, cs)| == DiskCount(cs)
    decreases |cs|
  {
    if cs != [] {
      DiskLinesCount(indent, cs[..|cs| - 1]);
    }
  }

  /** The `<dir>` wrapper of disk mode is written exactly when the Dir child
      has no disk files of its own, that is when the buffer it installs
      holds no disk line. */
  lemma DiskWrapIff(d: RvDir, depth: nat)
    ensures DiskNested(d, depth) != [] <==> DiskCount(d.children) == 0
    ensures DiskNested(d, depth) != [] <==> |GroupBuffer(Indent(depth), d)| == 2
  {
    DiskLinesCount(Indent(depth), d.children);
  }

  /** The two forms of a disk line: the nodump form exactly when the CHD
      digest is absent, since the hex of a digest is empty only for the
      empty digest. */
  lemma DiskLineForms(indent: string, f: RvFile)
    ensures f.sha1Chd != [] ==>
      DiskLine(indent, f) == indent + "\t<disk name=\"" + DiskName(f.name) + "\" sha1=\"" + Hex(f.sha1Chd) + "\"/>"
    ensures f.sha1Chd == [] ==>
      DiskLine(indent, f) == indent + "\t<disk name=\"" + DiskName(f.name) + "\" status=\"nodump\"/>"
  {
    if f.sha1Chd != [] {
      assert |Hex(f.sha1Chd)| > 0;
    }
  }

  /** For a file `b.chd` whose cleaned stem holds no other `.chd`, the disk
      is named by the cleaned stem. */
  lemma DiskNameOfChd(b: string)
    requires !Occurs(Clean(b), ".chd")
    ensures DiskName(b + ".chd") == Clean(b)
  {
    CleanConcat(b, ".chd");
    CleanIdentity(".chd");
    ReplaceStripsChdSuffix(Clean(b));
  }

  /** Removing `.chd` passes over a stem without a dot. */
  lemma {:induction false} ReplaceSkipsStem(x: string, t: string)
    requires '.' !in x
    ensures Replace(x + t, ".chd", "") == x + Replace(t, ".chd", "")
    decreases |x|
  {
    if x == [] {
      assert x + t == t;
    } else {
      var u := x + t;
      assert u[0] == x[0];
      assert u[1..] == x[1..] + t;
      assert '.' !in x[1..] by {
        assert forall c :: c in x[1..] ==> c in x;
      }
      ReplaceSkipsStem(x[1..], t);
      if |u| >= 4 {
        assert u[..4][0] == x[0];
      } else {
        assert |t| < 4;
        assert u == [x[0]] + (x[1..] + t);
      }
      assert x == [x[0]] + x[1..];
    }
  }

  lemma ReplaceDropsChd(t: string)
    ensures Replace(".chd" + t, ".chd", "") == Replace(t, ".chd", "")
  {
    var u := ".chd" + t;
    assert u[..4] == ".chd" && u[4..] == t;
  }

  /** Every occurrence of `.chd` goes, not only the suffix: a disk file
      `x.chdy.chd` is named `xy`. */
  lemma DiskNameDropsEveryOccurrence(x: string, y: string)
    requires '.' !in x && '.' !in y
    requires forall i :: 0 <= i < |x| ==> !IsSpecial(x[i])
    requires forall i :: 0 <= i < |y| ==> !IsSpecial(y[i])
    ensures DiskName(x + ".chd" + y + ".chd") == x + y
  {
    var n := x + ".chd" + y + ".chd";
    assert forall i :: 0 <= i < |n| ==> !IsSpecial(n[i]) by {
      forall i | 0 <= i < |n|
        ensures !IsSpecial(n[i])
      {
        if i < |x| {
          assert n[i] == x[i];
        } else if i < |x| + 4 {
          assert n[i] == ".chd"[i - |x|];
        } else if i < |x| + 4 + |y| {
          assert n[i] == y[i - |x| - 4];
        } else {
          assert n[i] == ".chd"[i - |x| - 4 - |y|];
        }
      }
    }
    CleanIdentity(n);
    assert n == x + (".chd" + (y + ".chd"));
    ReplaceSkipsStem(x, ".chd" + (y + ".chd"));
    ReplaceDropsChd(y + ".chd");
    ReplaceSkipsStem(y, ".chd");
    ReplaceDropsChd("");
    assert ".chd" + "" == ".chd";
    assert Replace("", ".chd", "") == "";
  }

  // -----------------------------------------------------------------------
  // Disk mode: the pending disk group
  // -----------------------------------------------------------------------

  /** The Dir child whose group the buffer holds after `cs`: the last Dir
      child, unless a Zip child came after it. */
  function LastGroup(cs: seq<Node>): Option<RvDir> {
    if cs == [] then None
    else
      var c := cs[|cs| - 1];
      if c.DirNode? && c.dir.fileType == Dir then Some(c.dir)
      else if c.DirNode? && c.dir.fileType == Zip then None
      else LastGroup(cs[..|cs| - 1])
  }

  /** Disks are pending after `cs` exactly when the last group has disk
      files. */
  predicate HasPending(cs: seq<Node>) {
    LastGroup(cs).Some? && DiskCount(LastGroup(cs).value.children) > 0
  }

  /** The buffer after the first `n` children: it holds disk lines exactly
      when the last group has disks, and then it is that group's buffer. */
  lemma {:induction false} BufferHoldsLastGroup(dir: RvDir, n: nat, depth: nat)
    requires n <= |dir.children|
    ensures var s := DiskLevel(dir, n, depth);
      && (|s.disks| > 2 <==> HasPending(dir.children[..n]))
      && (HasPending(dir.children[..n]) ==> s.disks == GroupBuffer(Indent(depth), LastGroup(dir.children[..n]).value))
    decreases n
  {
    var cs := dir.children[..n];
    if n > 0 {
      BufferHoldsLastGroup(dir, n - 1, depth);
      assert cs[..n - 1] == dir.children[..n - 1];
      assert cs[n - 1] == dir.children[n - 1];
      var c := dir.children[n - 1];
      if c.DirNode? && c.dir.fileType == Dir {
        DiskLinesCount(Indent(depth), c.dir.children);
      }
    }
  }

  /** What a Dir child writes in disk mode: first the pending group as a
      game of its own when its name differs, then its `<dir>` wrapper if it
      has no disks; never a game of its own. */
  lemma DirChildWrites(dir: RvDir, i: nat, depth: nat)
    requires i < |dir.children| && dir.children[i].DirNode? && dir.children[i].dir.fileType == Dir
    ensures var d := dir.children[i].dir;
      var g := LastGroup(dir.children[..i]);
      var flush := HasPending(dir.children[..i]) && g.value.name != d.name;
      && DiskChild(dir.children[i], DiskLevel(dir, i, depth).disks, depth).out
         == (if flush then JustChds(Indent(depth), GroupBuffer(Indent(depth), g.value)) else [])
            + DiskNested(d, depth)
      && DiskChild(dir.children[i], DiskLevel(dir, i, depth).disks, depth).disks
         == GroupBuffer(Indent(depth), d)
  {
    BufferHoldsLastGroup(dir, i, depth);
  }

  /** Distinct names give distinct `<game>` lines, since `Clean` can be
      undone. */
  lemma GameOpenInjective(indent: string, a: string, b: string)
    requires GameOpen(indent, a) == GameOpen(indent, b)
    ensures a == b
  {
    var p := indent + "<game name=\"";
    var la := GameOpen(indent, a);
    assert la == p + Clean(a) + "\">";
    assert GameOpen(indent, b) == p + Clean(b) + "\">";
    assert |Clean(a)| == |Clean(b)|;
    assert Clean(a) == la[|p|..|la| - 2];
    assert Clean(b) == la[|p|..|la| - 2];
    CleanInjective(a, b);
  }

  /** A Dir child's lines start with the pending group's game when that
      group is flushed, and that game is never named after the child;
      otherwise with the child's own `<dir>` line, if any. */
  lemma DirChildFirstLine(dir: RvDir, i: nat, depth: nat)
    requires i < |dir.children| && dir.children[i].DirNode? && dir.children[i].dir.fileType == Dir
    ensures var d := dir.children[i].dir;
      var g := LastGroup(dir.children[..i]);
      var out := DiskChild(dir.children[i], DiskLevel(dir, i, depth).disks, depth).out;
      && (HasPending(dir.children[..i]) && g.value.name != d.name ==>
            out != [] && out[0] == GameOpen(Indent(depth), g.value.name) && out[0] != GameOpen(Indent(depth), d.name))
      && (!(HasPending(dir.children[..i]) && g.value.name != d.name) ==>
            out == [] || out[0] == DirOpen(Indent(depth), d.name))
  {
    var d := dir.children[i].dir;
    var g := LastGroup(dir.children[..i]);
    DirChildWrites(dir, i, depth);
    if HasPending(dir.children[..i]) && g.value.name != d.name {
      if GameOpen(Indent(depth), g.value.name) == GameOpen(Indent(depth), d.name) {
        GameOpenInjective(Indent(depth), g.value.name, d.name);
      }
    }
  }

  /** What a Zip child writes in disk mode: its game, with the pending disk
      lines, if any, just before `</game>`. */
  lemma ZipChildWrites(dir: RvDir, i: nat, depth: nat)
    requires i < |dir.children| && dir.children[i].DirNode? && dir.children[i].dir.fileType == Zip
    ensures var z := dir.children[i].dir;
      var cs := dir.children[..i];
      DiskChild(dir.children[i], DiskLevel(dir, i, depth).disks, depth).out
      == ZipGame(Indent(depth), z,
                 if HasPending(cs) then DiskLinesOf(Indent(depth), LastGroup(cs).value.children) else [])
  {
    BufferHoldsLastGroup(dir, i, depth);
  }

  /** After the last child, a group still pending is written as a game of
      its own; nothing else follows the children's lines. */
  lemma LevelEndWrites(dir: RvDir, depth: nat)
    ensures var cs := dir.children;
      DiskDirLines(dir, depth)
      == DiskLevel(dir, |cs|, depth).out
         + (if HasPending(cs) then JustChds(Indent(depth), GroupBuffer(Indent(depth), LastGroup(cs).value)) else [])
  {
    BufferHoldsLastGroup(dir, |dir.children|, depth);
    assert dir.children[..|dir.children|] == dir.children;
  }

  /** A Dir child named like the pending group replaces the buffer without
      writing it: the group's disk lines are no longer pending. */
  lemma SameNameDiscardsPending(dir: RvDir, i: nat, depth: nat)
    requires i < |dir.children| && dir.children[i].DirNode? && dir.children[i].dir.fileType == Dir
    requires HasPending(dir.children[..i])
    requires LastGroup(dir.children[..i]).value.name == dir.children[i].dir.name
    ensures DiskChild(dir.children[i], DiskLevel(dir, i, depth).disks, depth).out
            == DiskNested(dir.children[i].dir, depth)
    ensures LastGroup(dir.children[..i + 1]) == Some(dir.children[i].dir)
  {
    DirChildWrites(dir, i, depth);
    assert dir.children[..i + 1][i] == dir.children[i];
  }

  // -----------------------------------------------------------------------
  // Zip games and the two modes
  // -----------------------------------------------------------------------

  lemma {:induction false} ZipRomsOfFiles(indent: string, cs: seq<Node>)
    requires AllFiles(cs)
    ensures SubDirsHoldFiles(cs)
    ensures ZipRoms(indent, cs) == GameRoms(indent, cs)
    decreases |cs|
  {
    if cs != [] {
      var init := cs[..|cs| - 1];
      assert AllFiles(init);
      ZipRomsOfFiles(indent, init);
      AppendEmpty(GameRoms(indent, init) + FileRom(indent, cs[|cs| - 1]));
    }
  }

  /** A Zip holding files only, with nothing pending, renders the same game
      in both modes. */
  lemma ZipGameSameInBothModes(indent: string, z: RvDir)
    requires AllFiles(z.children)
    ensures SubDirsHoldFiles(z.children)
    ensures ZipGame(indent, z, []) == PlainGame(indent, z)
  {
    ZipRomsOfFiles(indent, z.children);
    AppendEmpty([GameOpen(indent, z.name), DescriptionLine(indent, Description(z))] + ZipRoms(indent, z.children));
  }

  /** An empty Dir child contains no disk image, yet rom mode writes a game
      and a `<dir>` element for it (five lines) and disk mode only the
      `<dir>` element (two lines): the modes differ on trees without
      disks. */
  lemma EmptyDirDiffers(d: RvDir, depth: nat)
    requires d.fileType == Dir && d.children == []
    ensures RomSafeChild(DirNode(d))
    ensures PlainChild(DirNode(d), depth)
            == [GameOpen(Indent(depth), d.name), DescriptionLine(Indent(depth), Description(d)), GameClose(Indent(depth)),
                DirOpen(Indent(depth), d.name), DirClose(Indent(depth))]
    ensures DiskChild(DirNode(d), [""], depth).out == [DirOpen(Indent(depth), d.name), DirClose(Indent(depth))]
  {
    assert !HasChdGrandChild(d);
    assert DiskDirLines(d, depth + 1) == [];
    assert PlainDirLines(d, depth + 1) == [];
  }

  predicate IsGroupWithDisks(c: Node) {
    c.DirNode? && c.dir.fileType == Dir && DiskCount(c.dir.children) > 0
  }

  lemma DiskLevelStep(dir: RvDir, i: nat, depth: nat)
    requires i < |dir.children|
    ensures var s := DiskLevel(dir, i, depth);
      var t := DiskChild(dir.children[i], s.disks, depth);
      DiskLevel(dir, i + 1, depth) == Step(s.out + t.out, t.disks)
  {
  }

  /** A Dir child with disks right after another one with a different name:
      the earlier group is written, alone, as a game of its own. */
  lemma ConsecutiveGroupsFlush(dir: RvDir, i: nat, depth: nat)
    requires 0 < i < |dir.children|
    requires IsGroupWithDisks(dir.children[i - 1]) && IsGroupWithDisks(dir.children[i])
    requires dir.children[i - 1].dir.name != dir.children[i].dir.name
    ensures DiskLevel(dir, i + 1, depth).out
            == DiskLevel(dir, i, depth).out + JustChds(Indent(depth), GroupBuffer(Indent(depth), dir.children[i - 1].dir))
  {
    assert dir.children[..i][i - 1] == dir.children[i - 1];
    DirChildWrites(dir, i, depth);
    DiskLinesCount(Indent(depth), dir.children[i - 1].dir.children);
    DiskLinesCount(Indent(depth), dir.children[i].dir.children);
    DiskLevelStep(dir, i, depth);
    AppendEmpty(JustChds(Indent(depth), GroupBuffer(Indent(depth), dir.children[i - 1].dir)));
  }

  /** A Zip child right after a Dir child with disks takes those disks. */
  lemma GroupThenZip(dir: RvDir, i: nat, depth: nat)
    requires 0 < i < |dir.children|
    requires IsGroupWithDisks(dir.children[i - 1])
    requires dir.children[i].DirNode? && dir.children[i].dir.fileType == Zip
    ensures DiskLevel(dir, i + 1, depth).out
            == DiskLevel(dir, i, depth).out + ZipGame(Indent(depth), dir.children[i].dir, DiskLinesOf(Indent(depth), dir.children[i - 1].dir.children))
    ensures DiskLevel(dir, i + 1, depth).disks == []
  {
    assert dir.children[..i][i - 1] == dir.children[i - 1];
    ZipChildWrites(dir, i, depth);
    BufferHoldsLastGroup(dir, i, depth);
    DiskLevelStep(dir, i, depth);
  }

  /** The first child, a Dir with disks, writes nothing yet. */
  lemma FirstGroupWaits(dir: RvDir, depth: nat)
    requires 0 < |dir.children| && IsGroupWithDisks(dir.children[0])
    ensures DiskLevel(dir, 1, depth).out == []
  {
    var a := dir.children[0].dir;
    DiskLevelStep(dir, 0, depth);
    DiskLinesCount(Indent(depth), a.children);
  }

  lemma LevelEndEmptyBuffer(dir: RvDir, depth: nat)
    requires DiskLevel(dir, |dir.children|, depth).disks == []
    ensures DiskDirLines(dir, depth) == DiskLevel(dir, |dir.children|, depth).out
  {
    AppendEmpty(DiskLevel(dir, |dir.children|, depth).out);
  }

  /** Three Dir children with disks and distinct names, then a Zip: each of
      the first two groups is written as a game of its own, one after the
      other, and only the third group's disks go into the Zip game. */
  lemma ThreeGroupsThenZip(dir: RvDir, depth: nat)
    requires |dir.children| == 4
    requires IsGroupWithDisks(dir.children[0]) && IsGroupWithDisks(dir.children[1]) && IsGroupWithDisks(dir.children[2])
    requires dir.children[3].DirNode? && dir.children[3].dir.fileType == Zip
    requires dir.children[0].dir.name != dir.children[1].dir.name
    requires dir.children[1].dir.name != dir.children[2].dir.name
    ensures var I := Indent(depth);
      var a, b, c, z := dir.children[0].dir, dir.children[1].dir, dir.children[2].dir, dir.children[3].dir;
      DiskDirLines(dir, depth)
      == JustChds(I, GroupBuffer(I, a)) + JustChds(I, GroupBuffer(I, b)) + ZipGame(I, z, DiskLinesOf(I, c.children))
  {
    var I := Indent(depth);
    var ja := JustChds(I, GroupBuffer(I, dir.children[0].dir));
    var jb := JustChds(I, GroupBuffer(I, dir.children[1].dir));
    var zg := ZipGame(I, dir.children[3].dir, DiskLinesOf(I, dir.children[2].dir.children));
    FirstGroupWaits(dir, depth);
    ConsecutiveGroupsFlush(dir, 1, depth);
    ConsecutiveGroupsFlush(dir, 2, depth);
    GroupThenZip(dir, 3, depth);
    LevelEndEmptyBuffer(dir, depth);
    assert DiskLevel(dir, 2, depth).out == ja;
  }
}

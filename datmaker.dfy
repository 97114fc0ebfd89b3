/** DatMaker itself: the output stream and the two names it writes into the
    header become the fields of a writer object, and every method that writes
    is proved to append exactly the lines DatFormat describes. */
module DatMaker {
  import opened Text
  import opened Catalog
  import opened DatFormat
  import opened Nesting
  import opened WellFormed

  class DatWriter {
    /** Name of the file the source opens: `startingDir.Name + ".dat"`. */
    const path: string
    /** Everything written to the stream so far, one entry per WriteLine. */
    var lines: seq<string>
    var datName: string
    var datDir: string

    constructor (name: string)
      ensures path == name + ".dat"
      ensures lines == [] && datName == name && datDir == name
    {
      path := name + ".dat";
      lines := [];
      datName := name;
      datDir := name;
    }

    method WriteLine(s: string)
      modifies this`lines
      ensures lines == old(lines) + [s]
    {
      lines := lines + [s];
    }

    method WriteHeader(comment: string)
      modifies this`lines
      ensures lines == old(lines) + HeaderLines(datName, datDir, comment)
    {
      WriteLine(HeaderOpen);
      ghost var start := lines;
      WriteLine(HeaderField("name", Clean(datName)));
      WriteLine(HeaderField("rootdir", Clean(datDir)));
      WriteLine(HeaderField("comment", Clean(comment)));
      assert lines == start + HeaderFields(datName, datDir, comment);
      AppendAssoc(old(lines), [HeaderOpen], HeaderFields(datName, datDir, comment));
      WriteLine(HeaderClose);
      AppendAssoc(old(lines), [HeaderOpen] + HeaderFields(datName, datDir, comment), [HeaderClose]);
    }

    method WriteDatFile(dir: RvDir, chdsAreDisk: bool)
      requires chdsAreDisk || RomSafe(dir)
      modifies this`lines
      ensures lines == old(lines) + DatLines(datName, datDir, dir, chdsAreDisk)
    {
      var prolog := [XmlDeclaration, ""];
      WriteLine(prolog[0]);
      WriteLine(prolog[1]);
      assert lines == old(lines) + prolog;
      WriteLine(DatafileOpen);
      ghost var start := lines;
      var comment := ModeComment(chdsAreDisk);
      WriteHeader(comment);
      ghost var header := HeaderLines(datName, datDir, comment);
      if chdsAreDisk {
        ProcessDir(dir);
      } else {
        PlainProcessDir(dir);
      }
      ghost var body := BodyLines(dir, chdsAreDisk);
      AppendAssoc(start, header, body);
      WriteLine(DatafileClose);
      ghost var element := [DatafileOpen] + (header + body) + [DatafileClose];
      AppendAssoc(old(lines) + prolog, [DatafileOpen], header + body);
      AppendAssoc(old(lines) + prolog, [DatafileOpen] + (header + body), [DatafileClose]);
      AppendAssoc(old(lines), prolog, element);
    }

    /** CHDs as rom. */
    method PlainProcessDir(dir: RvDir, depth: nat := 1)
      requires RomSafe(dir)
      modifies this`lines
      ensures lines == old(lines) + PlainDirLines(dir, depth)
      decreases dir, 0
    {
      for i := 0 to |dir.children|
        invariant lines == old(lines) + PlainLevel(dir, i, depth)
      {
        ghost var before := lines;
        PlainLevelStep(dir, i, depth);
        WritePlainChild(dir.children[i], depth);
        AppendAssoc(old(lines), PlainLevel(dir, i, depth), PlainChild(dir.children[i], depth));
      }
    }

    /** One iteration of PlainProcessDir's loop. */
    method WritePlainChild(child: Node, depth: nat)
      requires RomSafeChild(child)
      modifies this`lines
      ensures lines == old(lines) + PlainChild(child, depth)
      decreases child, 0
    {
      var indent := Indent(depth);
      if child.DirNode? && IsGameKind(child.dir) {
        WritePlainGame(indent, child.dir);
      } else {
        AppendEmpty(old(lines));
      }
      ghost var mid := lines;
      // only recurse when grandchildren are not CHDs
      if child.DirNode? && child.dir.fileType == Dir {
        var chd := HasChdGrandChildren(Some(child.dir));
        if !chd {
          WritePlainNested(child.dir, depth);
        } else {
          AppendEmpty(mid);
        }
      } else {
        AppendEmpty(mid);
      }
      AppendAssoc(old(lines), PlainChildGame(child, depth), PlainChildNested(child, depth));
    }

    /** A `<dir>` element around the rom-mode lines of `item`. */
    method WritePlainNested(item: RvDir, depth: nat)
      requires RomSafe(item)
      modifies this`lines
      ensures lines == old(lines) + [DirOpen(Indent(depth), item.name)] + PlainDirLines(item, depth + 1) + [DirClose(Indent(depth))]
      decreases item, 1
    {
      WriteLine(DirOpen(Indent(depth), item.name));
      PlainProcessDir(item, depth + 1);
      AppendAssoc(old(lines), [DirOpen(Indent(depth), item.name)], PlainDirLines(item, depth + 1));
      WriteLine(DirClose(Indent(depth)));
    }

    /** The game PlainProcessDir writes for a Zip or Dir child. */
    method WritePlainGame(indent: string, item: RvDir)
      requires SubDirsHoldFiles(item.children)
      modifies this`lines
      ensures lines == old(lines) + PlainGame(indent, item)
    {
      var head := [GameOpen(indent, item.name), DescriptionLine(indent, Description(item))];
      WriteLine(head[0]);
      WriteLine(head[1]);
      assert lines == old(lines) + head;
      WriteGameRoms(indent, item.children);
      AppendAssoc(old(lines), head, GameRoms(indent, item.children));
      ghost var body := head + GameRoms(indent, item.children);
      WriteLine(GameClose(indent));
      AppendAssoc(old(lines), body, [GameClose(indent)]);
    }

    /** The `<rom>` lines of a game in rom mode. */
    method WriteGameRoms(indent: string, cs: seq<Node>)
      requires SubDirsHoldFiles(cs)
      modifies this`lines
      ensures lines == old(lines) + GameRoms(indent, cs)
    {
      for j := 0 to |cs|
        invariant lines == old(lines) + GameRoms(indent, cs[..j])
      {
        ghost var before := lines;
        GameRomsStep(indent, cs, j);
        var c := cs[j];
        if c.FileNode? {
          WriteLine(RomLine(indent, Clean(c.file.name), c.file));
        }
        ghost var mid := lines;
        assert mid == before + FileRom(indent, c);
        if c.DirNode? {
          WriteSubDirRoms(indent, c.dir);
        }
        assert lines == mid + ChildSubDirRoms(indent, c);
        AppendAssoc(old(lines), GameRoms(indent, cs[..j]), FileRom(indent, c));
        AppendAssoc(old(lines), GameRoms(indent, cs[..j]) + FileRom(indent, c), ChildSubDirRoms(indent, c));
      }
      assert cs[..|cs|] == cs;
    }

    /** The `<rom>` lines of a game's sub-directory, named `dName\file`. */
    method WriteSubDirRoms(indent: string, aDir: RvDir)
      requires AllFiles(aDir.children)
      modifies this`lines
      ensures lines == old(lines) + SubDirRoms(indent, aDir.name, aDir.children)
    {
      var dName := aDir.name;
      for k := 0 to |aDir.children|
        invariant lines == old(lines) + SubDirRoms(indent, dName, aDir.children[..k])
      {
        SubDirRomsStep(indent, dName, aDir.children, k);
        var subFile := aDir.children[k].file;
        var line := RomLine(indent, dName + "\\" + Clean(subFile.name), subFile);
        WriteLine(line);
        AppendAssoc(old(lines), SubDirRoms(indent, dName, aDir.children[..k]), [line]);
      }
      assert aDir.children[..|aDir.children|] == aDir.children;
    }

    /** Writes `ls` in order. */
    method WriteAll(ls: seq<string>)
      modifies this`lines
      ensures lines == old(lines) + ls
    {
      for j := 0 to |ls|
        invariant lines == old(lines) + ls[..j]
      {
        assert ls[..j + 1] == ls[..j] + [ls[j]];
        WriteLine(ls[j]);
      }
      assert ls[..|ls|] == ls;
    }

    /** justCHDs */
    method JustCHDs(indent: string, lst: seq<string>)
      requires |lst| >= 2
      modifies this`lines
      ensures lines == old(lines) + JustChds(indent, lst)
    {
      WriteLine(GameOpen(indent, lst[0]));
      WriteLine(DescriptionLine(indent, lst[1]));
      WriteAll(lst[2..]);
      WriteLine(GameClose(indent));
    }

    /** CHDs as disk. */
    method ProcessDir(dir: RvDir, depth: nat := 1)
      modifies this`lines
      ensures lines == old(lines) + DiskDirLines(dir, depth)
      decreases dir, 0
    {
      var indent := Indent(depth);
      var disks: seq<string> := [""];
      for i := 0 to |dir.children|
        invariant lines == old(lines) + DiskLevel(dir, i, depth).out
        invariant disks == DiskLevel(dir, i, depth).disks
      {
        ghost var step := DiskChild(dir.children[i], disks, depth);
        disks := WriteDiskChild(dir.children[i], disks, depth);
        AppendAssoc(old(lines), DiskLevel(dir, i, depth).out, step.out);
      }
      // check for one last CHDs-only game
      if |disks| > 2 {
        JustCHDs(indent, disks);
      } else {
        AppendEmpty(lines);
      }
      AppendAssoc(old(lines), DiskLevel(dir, |dir.children|, depth).out,
                  if |disks| > 2 then JustChds(indent, disks) else []);
    }

    /** One iteration of ProcessDir's loop: the lines it writes and the
        buffer of pending disks it leaves. */
    method WriteDiskChild(child: Node, disks: seq<string>, depth: nat) returns (newDisks: seq<string>)
      modifies this`lines
      ensures lines == old(lines) + DiskChild(child, disks, depth).out
      ensures newDisks == DiskChild(child, disks, depth).disks
      decreases child, 2
    {
      var indent := Indent(depth);
      if child.DirNode? && child.dir.fileType == Dir {
        newDisks := WriteDiskDir(child.dir, disks, depth);
        AppendAssoc(old(lines), DiskFlush(indent, child.dir, disks), DiskNested(child.dir, depth));
      } else if child.DirNode? && child.dir.fileType == Zip {
        newDisks := WriteZipGame(indent, child.dir, disks);
      } else {
        newDisks := disks;
        AppendEmpty(old(lines));
      }
    }

    /** A Dir child in disk mode: flush, tabulate its disks, and descend
        into it when it has none. */
    method WriteDiskDir(item: RvDir, disks: seq<string>, depth: nat) returns (newDisks: seq<string>)
      modifies this`lines
      ensures lines == old(lines) + DiskFlush(Indent(depth), item, disks) + DiskNested(item, depth)
      ensures newDisks == GroupBuffer(Indent(depth), item)
      decreases item, 2
    {
      var indent := Indent(depth);
      newDisks := disks;
      if |newDisks| > 2 && item.name != newDisks[0] {
        // flush the last one if there were only CHDs in it
        JustCHDs(indent, newDisks);
        newDisks := [];
      } else {
        AppendEmpty(old(lines));
      }
      ghost var mid := lines;
      // tabulate next disk list, if any
      newDisks := CollectDisks(indent, item);
      var n := NumDisks(Some(item));
      if n == 0 {
        // only recurse when children are not CHDs
        WriteDiskNested(item, depth);
      } else {
        AppendEmpty(mid);
      }
    }

    /** A `<dir>` element around the disk-mode lines of `item`. */
    method WriteDiskNested(item: RvDir, depth: nat)
      modifies this`lines
      ensures lines == old(lines) + [DirOpen(Indent(depth), item.name)] + DiskDirLines(item, depth + 1) + [DirClose(Indent(depth))]
      decreases item, 1
    {
      WriteLine(DirOpen(Indent(depth), item.name));
      ProcessDir(item, depth + 1);
      AppendAssoc(old(lines), [DirOpen(Indent(depth), item.name)], DiskDirLines(item, depth + 1));
      WriteLine(DirClose(Indent(depth)));
    }

    /** The Zip game ProcessDir writes; pending disks are written inside it
        and the buffer is cleared. */
    method WriteZipGame(indent: string, item: RvDir, disks: seq<string>) returns (remaining: seq<string>)
      modifies this`lines
      ensures lines == old(lines) + ZipGame(indent, item, if |disks| > 2 then disks[2..] else [])
      ensures remaining == if |disks| > 2 then [] else disks
    {
      remaining := disks;
      ghost var attached := if |disks| > 2 then disks[2..] else [];
      var head := [GameOpen(indent, item.name), DescriptionLine(indent, Description(item))];
      WriteLine(head[0]);
      WriteLine(head[1]);
      assert lines == old(lines) + head;
      WriteZipRoms(indent, item.children);
      AppendAssoc(old(lines), head, ZipRoms(indent, item.children));
      ghost var roms := lines;
      if |remaining| > 2 {
        // take care of previous list of CHDs now
        WriteAll(remaining[2..]);
        remaining := [];
      } else {
        AppendEmpty(lines);
      }
      AppendAssoc(old(lines), head + ZipRoms(indent, item.children), attached);
      ghost var body := head + ZipRoms(indent, item.children) + attached;
      WriteLine(GameClose(indent));
      AppendAssoc(old(lines), body, [GameClose(indent)]);
    }

    /** The `<rom>` lines of a Zip game in disk mode. */
    method WriteZipRoms(indent: string, cs: seq<Node>)
      modifies this`lines
      ensures lines == old(lines) + ZipRoms(indent, cs)
    {
      for j := 0 to |cs|
        invariant lines == old(lines) + ZipRoms(indent, cs[..j])
      {
        ZipRomsStep(indent, cs, j);
        var c := cs[j];
        if c.FileNode? {
          WriteLine(RomLine(indent, Clean(c.file.name), c.file));
        } else {
          AppendEmpty(lines);
        }
        AppendAssoc(old(lines), ZipRoms(indent, cs[..j]), FileRom(indent, c));
      }
      assert cs[..|cs|] == cs;
    }
  }

  /** The buffer ProcessDir starts for a Dir child: its name, its
      description and one `<disk>` line per disk file among its children. */
  method CollectDisks(indent: string, item: RvDir) returns (disks: seq<string>)
    ensures disks == GroupBuffer(indent, item)
  {
    disks := [item.name, Description(item)];
    for j := 0 to |item.children|
      invariant disks == [item.name, Description(item)] + DiskLinesOf(indent, item.children[..j])
    {
      assert item.children[..j + 1][..j] == item.children[..j];
      var c := item.children[j];
      if c.FileNode? && c.file.fileType == File && EndsWith(c.file.name, ".chd") {
        var chd := c.file;
        if Hex(chd.sha1Chd) != "" {
          disks := disks + [indent + "\t<disk name=\"" + Replace(Clean(chd.name), ".chd", "") + "\" sha1=\"" + Hex(chd.sha1Chd) + "\"/>"];
        } else {
          disks := disks + [indent + "\t<disk name=\"" + Replace(Clean(chd.name), ".chd", "") + "\" status=\"nodump\"/>"];
        }
      }
    }
    assert item.children[..|item.children|] == item.children;
  }

  /** MakeDatFromDir: the name of the file it creates and the lines it
      writes there. */
  method MakeDatFromDir(startingDir: RvDir, chdsAreDisk: bool := true) returns (fileName: string, output: seq<string>)
    requires chdsAreDisk || RomSafe(startingDir)
    ensures fileName == startingDir.name + ".dat"
    ensures output == DatLines(startingDir.name, startingDir.name, startingDir, chdsAreDisk)
    ensures Walk(output, []) == Some([])
  {
    var w := new DatWriter(startingDir.name);
    w.WriteDatFile(startingDir, chdsAreDisk);
    fileName, output := w.path, w.lines;
    DatLinesBalanced(startingDir.name, startingDir.name, startingDir, chdsAreDisk);
  }
}

/** Every document DatMaker writes reads as properly nested, depth-indented
    XML under Nesting.Walk, in both modes: this is proved line shape by line
    shape, then element by element over the two traversals. */
module WellFormed {
  import opened Text
  import opened Catalog
  import opened Nesting
  import opened DatFormat

  // -----------------------------------------------------------------------
  // Indentation
  // -----------------------------------------------------------------------

  lemma {:induction false} IndentPrefix(d: nat, rest: string)
    ensures Tabs(Indent(d) + rest) == d + Tabs(rest)
    ensures Body(Indent(d) + rest) == Body(rest)
    decreases d
  {
    var s := Indent(d) + rest;
    if d > 0 {
      assert s[0] == '\t';
      assert s[1..] == Indent(d - 1) + rest;
      IndentPrefix(d - 1, rest);
    } else {
      assert s == rest;
    }
  }

  /** A body that starts with `<` has no indentation of its own. */
  lemma IndentedBody(d: nat, body: string)
    requires body != [] && body[0] == '<'
    ensures Tabs(Indent(d) + body) == d
    ensures Body(Indent(d) + body) == body
  {
    IndentPrefix(d, body);
  }

  /** One more tab in front of a `<` body. */
  lemma TabIndentedBody(d: nat, body: string)
    requires body != [] && body[0] == '<'
    ensures Tabs(Indent(d) + "\t" + body) == d + 1
    ensures Body(Indent(d) + "\t" + body) == body
  {
    AppendAssoc(Indent(d), "\t", body);
    IndentPrefix(d, "\t" + body);
    assert ("\t" + body)[1..] == body;
  }

  // -----------------------------------------------------------------------
  // The three shapes of line body
  // -----------------------------------------------------------------------

  predicate IsName(tag: string) {
    |tag| > 0 && tag[0] != '/' && tag[0] != '?' && tag[|tag| - 1] != '"'
    && forall i :: 0 <= i < |tag| ==> !IsTagStop(tag[i])
  }

  /** `<tag attributes…">` opens `tag`. */
  lemma OpenBody(tag: string, tail: string)
    requires IsName(tag)
    requires |tail| >= 2 && tail[0] == ' ' && tail[|tail| - 2] == '"' && tail[|tail| - 1] == '>'
    ensures Kind("<" + tag + tail) == Open(tag)
  {
    var b := "<" + tag + tail;
    assert b[1..] == tag + tail;
    TagNameOf(tag, tail);
    assert b[1] == tag[0];
    assert b[|b| - 2] == '"';
    assert !EndsWith(b, "/>");
    var close := "</" + tag + ">";
    assert !EndsWith(b, close) by {
      if |close| <= |b| {
        assert close[|close| - 2] == tag[|tag| - 1];
        assert b[|b| - |close|..][|close| - 2] == b[|b| - 2];
      }
    }
  }

  /** `<tag>text</tag>` is a leaf. */
  lemma ElementBody(tag: string, text: string)
    requires IsName(tag)
    ensures Kind("<" + tag + ">" + text + "</" + tag + ">") == Leaf
  {
    var b := "<" + tag + ">" + text + "</" + tag + ">";
    var close := "</" + tag + ">";
    AppendAssoc("<" + tag + ">" + text, "</" + tag, ">");
    AppendAssoc("<" + tag + ">" + text, "</", tag);
    AppendAssoc("<" + tag + ">" + text, "</" + tag, ">");
    assert b == ("<" + tag + ">" + text) + close;
    AppendAssoc("<", tag, ">" + text);
    AppendAssoc("<" + tag, ">", text);
    assert b[1..] == tag + (">" + text + close);
    TagNameOf(tag, ">" + text + close);
    assert b[1] == tag[0];
    assert EndsWith(b, close);
  }

  /** `</tag>` closes `tag`. */
  lemma CloseBody(tag: string)
    requires IsName(tag)
    ensures Kind("</" + tag + ">") == Close(tag)
  {
    var b := "</" + tag + ">";
    assert StartsWith(b, "</");
    assert b[2..] == tag + ">";
    TagNameOf(tag, ">");
  }

  /** `<…/>` is a leaf. */
  lemma SelfClosingBody(b: string)
    requires |b| >= 2 && b[0] == '<' && b[1] != '/' && b[1] != '?'
    requires b[|b| - 2] == '/' && b[|b| - 1] == '>'
    ensures Kind(b) == Leaf
  {
    assert b[|b| - 2..] == "/>";
  }

  // -----------------------------------------------------------------------
  // The lines DatFormat renders
  // -----------------------------------------------------------------------

  predicate OpensAt(l: string, tag: string, depth: nat) {
    Tabs(l) == depth && Kind(Body(l)) == Open(tag)
  }

  predicate ClosesAt(l: string, tag: string, depth: nat) {
    Tabs(l) == depth && Kind(Body(l)) == Close(tag)
  }

  lemma GameOpenOpens(depth: nat, name: string)
    ensures OpensAt(GameOpen(Indent(depth), name), "game", depth)
  {
    var tail := " name=\"" + Clean(name) + "\">";
    AppendAssoc(Indent(depth), "<game", " name=\"");
    assert "<game name=\"" == "<game" + " name=\"";
    AppendAssoc(Indent(depth) + "<game", " name=\"", Clean(name));
    AppendAssoc(Indent(depth) + "<game", " name=\"" + Clean(name), "\">");
    AppendAssoc(Indent(depth), "<game", tail);
    assert GameOpen(Indent(depth), name) == Indent(depth) + ("<" + "game" + tail);
    IndentedBody(depth, "<" + "game" + tail);
    OpenBody("game", tail);
  }

  lemma DirOpenOpens(depth: nat, name: string)
    ensures OpensAt(DirOpen(Indent(depth), name), "dir", depth)
  {
    var tail := " name=\"" + Clean(name) + "\">";
    AppendAssoc(Indent(depth), "<dir", " name=\"");
    assert "<dir name=\"" == "<dir" + " name=\"";
    AppendAssoc(Indent(depth) + "<dir", " name=\"", Clean(name));
    AppendAssoc(Indent(depth) + "<dir", " name=\"" + Clean(name), "\">");
    AppendAssoc(Indent(depth), "<dir", tail);
    assert DirOpen(Indent(depth), name) == Indent(depth) + ("<" + "dir" + tail);
    IndentedBody(depth, "<" + "dir" + tail);
    OpenBody("dir", tail);
  }

  lemma GameCloseCloses(depth: nat)
    ensures ClosesAt(GameClose(Indent(depth)), "game", depth)
  {
    var b := "</game>";
    assert StartsWith(b, "</");
    assert b[2..] == "game" + ">";
    TagNameOf("game", ">");
    IndentedBody(depth, b);
  }

  lemma DirCloseCloses(depth: nat)
    ensures ClosesAt(DirClose(Indent(depth)), "dir", depth)
  {
    var b := "</dir>";
    assert StartsWith(b, "</");
    assert b[2..] == "dir" + ">";
    TagNameOf("dir", ">");
    IndentedBody(depth, b);
  }

  lemma DescriptionLineIsLeaf(depth: nat, description: string)
    ensures LeafAt(DescriptionLine(Indent(depth), description), depth + 1)
  {
    var body := "<" + "description" + ">" + Clean(description) + "</" + "description" + ">";
    assert "\t<description>" == "\t" + ("<" + "description" + ">");
    assert "</description>" == "</" + "description" + ">";
    AppendAssoc(Indent(depth), "\t", "<" + "description" + ">");
    AppendAssoc(Indent(depth) + "\t", "<" + "description" + ">", Clean(description));
    AppendAssoc(Indent(depth) + "\t", "<" + "description" + ">" + Clean(description), "</" + "description" + ">");
    assert DescriptionLine(Indent(depth), description) == Indent(depth) + "\t" + body;
    TabIndentedBody(depth, body);
    ElementBody("description", Clean(description));
  }

  /** A line is read by its first characters and its last two. */
  lemma {:induction false} TabsOf(l: string, n: nat)
    requires n < |l| && l[n] != '\t'
    requires forall i :: 0 <= i < n ==> l[i] == '\t'
    ensures Tabs(l) == n
    decreases n
  {
    if n > 0 {
      TabsOf(l[1..], n - 1);
    }
  }

  lemma SelfClosingLine(l: string, depth: nat)
    requires |l| >= depth + 2 && l[depth] == '<' && l[depth + 1] != '/' && l[depth + 1] != '?'
    requires forall i :: 0 <= i < depth ==> l[i] == '\t'
    requires l[|l| - 2] == '/' && l[|l| - 1] == '>'
    ensures LeafAt(l, depth)
  {
    TabsOf(l, depth);
    var b := l[depth..];
    assert Body(l) == b;
    SelfClosingBody(b);
  }

  lemma RomLineIsLeaf(depth: nat, romName: string, f: RvFile)
    ensures LeafAt(RomLine(Indent(depth), romName, f), depth + 1)
  {
    var l := RomLine(Indent(depth), romName, f);
    assert l[depth] == '\t' && l[depth + 1] == '<' && l[depth + 2] == 'r';
    assert l[|l| - 2] == '/' && l[|l| - 1] == '>';
    SelfClosingLine(l, depth + 1);
  }

  lemma DiskLineIsLeaf(depth: nat, f: RvFile)
    ensures LeafAt(DiskLine(Indent(depth), f), depth + 1)
  {
    var l := DiskLine(Indent(depth), f);
    if Hex(f.sha1Chd) != "" {
      assert l[depth] == '\t' && l[depth + 1] == '<' && l[depth + 2] == 'd';
      assert l[|l| - 2] == '/' && l[|l| - 1] == '>';
    } else {
      assert l[depth] == '\t' && l[depth + 1] == '<' && l[depth + 2] == 'd';
      assert l[|l| - 2] == '/' && l[|l| - 1] == '>';
    }
    SelfClosingLine(l, depth + 1);
  }

  // -----------------------------------------------------------------------
  // Elements
  // -----------------------------------------------------------------------

  lemma OpenStep(l: string, tag: string, st: seq<string>)
    requires OpensAt(l, tag, |st|)
    ensures StepLine(l, st) == Some(st + [tag])
  {
  }

  lemma CloseStep(l: string, tag: string, st: seq<string>)
    requires ClosesAt(l, tag, |st|)
    ensures StepLine(l, st + [tag]) == Some(st)
  {
    assert (st + [tag])[..|st|] == st;
  }

  /** An element whose first line opens `tag` at depth `|st|`, whose last line
      closes it, and whose lines in between are leaves one level deeper. */
  lemma LeafElement(open: string, inner: seq<string>, close: string, tag: string, st: seq<string>)
    requires OpensAt(open, tag, |st|) && ClosesAt(close, tag, |st|)
    requires AllLeavesAt(inner, |st| + 1)
    ensures Balanced([open] + inner + [close], st)
  {
    OpenStep(open, tag, st);
    CloseStep(close, tag, st);
    LeavesBalanced(inner, st + [tag]);
    BalancedElement(open, inner, close, st, tag);
  }

  lemma {:induction false} SubDirRomsLeaves(depth: nat, dName: string, cs: seq<Node>)
    requires AllFiles(cs)
    ensures AllLeavesAt(SubDirRoms(Indent(depth), dName, cs), depth + 1)
    decreases |cs|
  {
    if cs != [] {
      var f := cs[|cs| - 1].file;
      SubDirRomsLeaves(depth, dName, cs[..|cs| - 1]);
      RomLineIsLeaf(depth, dName + "\\" + Clean(f.name), f);
      AllLeavesConcat(SubDirRoms(Indent(depth), dName, cs[..|cs| - 1]), [SubDirRom(Indent(depth), dName, f)], depth + 1);
    }
  }

  lemma FileRomLeaves(depth: nat, c: Node)
    ensures AllLeavesAt(FileRom(Indent(depth), c), depth + 1)
  {
    if c.FileNode? {
      RomLineIsLeaf(depth, Clean(c.file.name), c.file);
    }
  }

  lemma {:induction false} GameRomsLeaves(depth: nat, cs: seq<Node>)
    requires SubDirsHoldFiles(cs)
    ensures AllLeavesAt(GameRoms(Indent(depth), cs), depth + 1)
    decreases |cs|
  {
    if cs != [] {
      var c := cs[|cs| - 1];
      var indent := Indent(depth);
      GameRomsLeaves(depth, cs[..|cs| - 1]);
      FileRomLeaves(depth, c);
      if c.DirNode? {
        SubDirRomsLeaves(depth, c.dir.name, c.dir.children);
      }
      AllLeavesConcat(GameRoms(indent, cs[..|cs| - 1]), FileRom(indent, c), depth + 1);
      AllLeavesConcat(GameRoms(indent, cs[..|cs| - 1]) + FileRom(indent, c), ChildSubDirRoms(indent, c), depth + 1);
    }
  }

  /** The shape every game has: its opening line, its description, leaves
      one level deeper, and its closing line. */
  lemma GameElement(open: string, description: string, rest: seq<string>, close: string, st: seq<string>)
    requires OpensAt(open, "game", |st|) && ClosesAt(close, "game", |st|)
    requires LeafAt(description, |st| + 1) && AllLeavesAt(rest, |st| + 1)
    ensures Balanced([open, description] + rest + [close], st)
  {
    AllLeavesConcat([description], rest, |st| + 1);
    LeafElement(open, [description] + rest, close, "game", st);
    assert [open, description] + rest + [close] == [open] + ([description] + rest) + [close];
  }

  /** A rom-mode game: one `<game>` element holding its description and
      roms, one level deeper. */
  lemma PlainGameBalanced(d: RvDir, depth: nat, st: seq<string>)
    requires |st| == depth && SubDirsHoldFiles(d.children)
    ensures Balanced(PlainGame(Indent(depth), d), st)
  {
    var indent := Indent(depth);
    GameOpenOpens(depth, d.name);
    GameCloseCloses(depth);
    DescriptionLineIsLeaf(depth, Description(d));
    GameRomsLeaves(depth, d.children);
    GameElement(GameOpen(indent, d.name), DescriptionLine(indent, Description(d)), GameRoms(indent, d.children), GameClose(indent), st);
  }

  /** A `<dir>` element around a balanced inside. */
  lemma DirElement(open: string, inner: seq<string>, close: string, st: seq<string>)
    requires OpensAt(open, "dir", |st|) && ClosesAt(close, "dir", |st|)
    requires Balanced(inner, st + ["dir"])
    ensures Balanced([open] + inner + [close], st)
  {
    OpenStep(open, "dir", st);
    CloseStep(close, "dir", st);
    BalancedElement(open, inner, close, st, "dir");
  }

  // -----------------------------------------------------------------------
  // CHD as rom
  // -----------------------------------------------------------------------

  lemma PlainDirBalanced(dir: RvDir, depth: nat, st: seq<string>)
    requires RomSafe(dir) && |st| == depth
    ensures Balanced(PlainDirLines(dir, depth), st)
    decreases dir, |dir.children| + 1
  {
    PlainLevelBalanced(dir, |dir.children|, depth, st);
  }

  lemma PlainLevelBalanced(dir: RvDir, n: nat, depth: nat, st: seq<string>)
    requires RomSafe(dir) && n <= |dir.children| && |st| == depth
    ensures Balanced(PlainLevel(dir, n, depth), st)
    decreases dir, n
  {
    if n > 0 {
      PlainLevelBalanced(dir, n - 1, depth, st);
      PlainChildBalanced(dir.children[n - 1], depth, st);
      BalancedConcat(PlainLevel(dir, n - 1, depth), PlainChild(dir.children[n - 1], depth), st);
    }
  }

  lemma PlainChildBalanced(c: Node, depth: nat, st: seq<string>)
    requires RomSafeChild(c) && |st| == depth
    ensures Balanced(PlainChild(c, depth), st)
    decreases c, 1
  {
    if c.DirNode? && IsGameKind(c.dir) {
      PlainGameBalanced(c.dir, depth, st);
    }
    if c.DirNode? && PlainRecurses(c.dir) {
      var d := c.dir;
      PlainDirBalanced(d, depth + 1, st + ["dir"]);
      DirOpenOpens(depth, d.name);
      DirCloseCloses(depth);
      DirElement(DirOpen(Indent(depth), d.name), PlainDirLines(d, depth + 1), DirClose(Indent(depth)), st);
    }
    BalancedConcat(PlainChildGame(c, depth), PlainChildNested(c, depth), st);
  }

  // -----------------------------------------------------------------------
  // CHDs as disk
  // -----------------------------------------------------------------------

  /** What ProcessDir keeps in its buffer after the name and description:
      leaves one level below the games of its level. */
  predicate PendingLeaves(disks: seq<string>, depth: nat) {
    |disks| <= 2 || AllLeavesAt(disks[2..], depth + 1)
  }

  lemma {:induction false} DiskLinesLeaves(depth: nat, cs: seq<Node>)
    ensures AllLeavesAt(DiskLinesOf(Indent(depth), cs), depth + 1)
    decreases |cs|
  {
    if cs != [] {
      var c := cs[|cs| - 1];
      DiskLinesLeaves(depth, cs[..|cs| - 1]);
      if IsDiskFile(c) {
        DiskLineIsLeaf(depth, c.file);
      }
      AllLeavesConcat(DiskLinesOf(Indent(depth), cs[..|cs| - 1]), if IsDiskFile(c) then [DiskLine(Indent(depth), c.file)] else [], depth + 1);
    }
  }

  lemma GroupBufferPending(d: RvDir, depth: nat)
    ensures PendingLeaves(GroupBuffer(Indent(depth), d), depth)
  {
    DiskLinesLeaves(depth, d.children);
    assert GroupBuffer(Indent(depth), d)[2..] == DiskLinesOf(Indent(depth), d.children);
  }

  lemma JustChdsBalanced(lst: seq<string>, depth: nat, st: seq<string>)
    requires |lst| >= 2 && PendingLeaves(lst, depth) && |st| == depth
    ensures Balanced(JustChds(Indent(depth), lst), st)
  {
    var indent := Indent(depth);
    GameOpenOpens(depth, lst[0]);
    GameCloseCloses(depth);
    DescriptionLineIsLeaf(depth, lst[1]);
    GameElement(GameOpen(indent, lst[0]), DescriptionLine(indent, lst[1]), lst[2..], GameClose(indent), st);
  }

  lemma {:induction false} ZipRomsLeaves(depth: nat, cs: seq<Node>)
    ensures AllLeavesAt(ZipRoms(Indent(depth), cs), depth + 1)
    decreases |cs|
  {
    if cs != [] {
      ZipRomsLeaves(depth, cs[..|cs| - 1]);
      FileRomLeaves(depth, cs[|cs| - 1]);
      AllLeavesConcat(ZipRoms(Indent(depth), cs[..|cs| - 1]), FileRom(Indent(depth), cs[|cs| - 1]), depth + 1);
    }
  }

  lemma ZipGameBalanced(d: RvDir, attached: seq<string>, depth: nat, st: seq<string>)
    requires AllLeavesAt(attached, depth + 1) && |st| == depth
    ensures Balanced(ZipGame(Indent(depth), d, attached), st)
  {
    var indent := Indent(depth);
    var roms := ZipRoms(indent, d.children);
    GameOpenOpens(depth, d.name);
    GameCloseCloses(depth);
    DescriptionLineIsLeaf(depth, Description(d));
    ZipRomsLeaves(depth, d.children);
    AllLeavesConcat(roms, attached, depth + 1);
    GameElement(GameOpen(indent, d.name), DescriptionLine(indent, Description(d)), roms + attached, GameClose(indent), st);
    AppendAssoc([GameOpen(indent, d.name), DescriptionLine(indent, Description(d))], roms, attached);
  }

  lemma DiskDirBalanced(dir: RvDir, depth: nat, st: seq<string>)
    requires |st| == depth
    ensures Balanced(DiskDirLines(dir, depth), st)
    decreases dir, |dir.children| + 1
  {
    var s := DiskLevel(dir, |dir.children|, depth);
    DiskLevelBalanced(dir, |dir.children|, depth, st);
    if |s.disks| > 2 {
      JustChdsBalanced(s.disks, depth, st);
      BalancedConcat(s.out, JustChds(Indent(depth), s.disks), st);
    } else {
      assert s.out + [] == s.out;
    }
  }

  lemma DiskLevelBalanced(dir: RvDir, n: nat, depth: nat, st: seq<string>)
    requires n <= |dir.children| && |st| == depth
    ensures Balanced(DiskLevel(dir, n, depth).out, st)
    ensures PendingLeaves(DiskLevel(dir, n, depth).disks, depth)
    decreases dir, n
  {
    if n > 0 {
      var s := DiskLevel(dir, n - 1, depth);
      DiskLevelBalanced(dir, n - 1, depth, st);
      DiskChildBalanced(dir.children[n - 1], s.disks, depth, st);
      BalancedConcat(s.out, DiskChild(dir.children[n - 1], s.disks, depth).out, st);
    }
  }

  lemma DiskChildBalanced(c: Node, disks: seq<string>, depth: nat, st: seq<string>)
    requires PendingLeaves(disks, depth) && |st| == depth
    ensures Balanced(DiskChild(c, disks, depth).out, st)
    ensures PendingLeaves(DiskChild(c, disks, depth).disks, depth)
    decreases c, 2
  {
    var indent := Indent(depth);
    if c.DirNode? && c.dir.fileType == Dir {
      var d := c.dir;
      if |disks| > 2 && d.name != disks[0] {
        JustChdsBalanced(disks, depth, st);
      }
      if DiskCount(d.children) == 0 {
        DiskDirBalanced(d, depth + 1, st + ["dir"]);
        DirOpenOpens(depth, d.name);
        DirCloseCloses(depth);
        DirElement(DirOpen(indent, d.name), DiskDirLines(d, depth + 1), DirClose(indent), st);
      }
      BalancedConcat(DiskFlush(indent, d, disks), DiskNested(d, depth), st);
      GroupBufferPending(d, depth);
    } else if c.DirNode? && c.dir.fileType == Zip {
      ZipGameBalanced(c.dir, if |disks| > 2 then disks[2..] else [], depth, st);
    }
  }

  // -----------------------------------------------------------------------
  // The document
  // -----------------------------------------------------------------------

  /** `<tag>` opens `tag`. */
  lemma StartTagBody(tag: string)
    requires IsName(tag)
    ensures Kind("<" + tag + ">") == Open(tag)
  {
    var b := "<" + tag + ">";
    assert b[1..] == tag + ">";
    TagNameOf(tag, ">");
    assert b[1] == tag[0];
  }

  lemma HeaderFieldIsLeaf(tag: string, text: string)
    requires IsName(tag)
    ensures LeafAt(HeaderField(tag, text), 2)
  {
    var body := "<" + tag + ">" + text + "</" + tag + ">";
    assert HeaderField(tag, text) == Indent(2) + body by {
      assert "\t\t<" == Indent(2) + "<";
      AppendAssoc(Indent(2), "<", tag);
      AppendAssoc(Indent(2), "<" + tag, ">");
      AppendAssoc(Indent(2), "<" + tag + ">", text);
      AppendAssoc(Indent(2), "<" + tag + ">" + text, "</");
      AppendAssoc(Indent(2), "<" + tag + ">" + text + "</", tag);
      AppendAssoc(Indent(2), "<" + tag + ">" + text + "</" + tag, ">");
    }
    IndentedBody(2, body);
    ElementBody(tag, text);
  }

  lemma HeaderOpenOpens()
    ensures OpensAt(HeaderOpen, "header", 1)
  {
    assert HeaderOpen == Indent(1) + ("<" + "header" + ">");
    IndentedBody(1, "<" + "header" + ">");
    StartTagBody("header");
  }

  lemma HeaderCloseCloses()
    ensures ClosesAt(HeaderClose, "header", 1)
  {
    assert HeaderClose == Indent(1) + ("</" + "header" + ">");
    IndentedBody(1, "</" + "header" + ">");
    CloseBody("header");
  }

  lemma HeaderTagsAreNames()
    ensures IsName("name") && IsName("rootdir") && IsName("comment")
  {
  }

  lemma HeaderFieldsLeaves(datName: string, datDir: string, comment: string)
    ensures AllLeavesAt(HeaderFields(datName, datDir, comment), 2)
  {
    HeaderTagsAreNames();
    HeaderFieldIsLeaf("name", Clean(datName));
    HeaderFieldIsLeaf("rootdir", Clean(datDir));
    HeaderFieldIsLeaf("comment", Clean(comment));
  }

  lemma HeaderBalanced(datName: string, datDir: string, comment: string)
    ensures Balanced(HeaderLines(datName, datDir, comment), ["datafile"])
  {
    HeaderFieldsLeaves(datName, datDir, comment);
    HeaderOpenOpens();
    HeaderCloseCloses();
    LeafElement(HeaderOpen, HeaderFields(datName, datDir, comment), HeaderClose, "header", ["datafile"]);
  }

  lemma DatafileTags()
    ensures OpensAt(DatafileOpen, "datafile", 0) && ClosesAt(DatafileClose, "datafile", 0)
  {
    IndentedBody(0, DatafileOpen);
    assert Indent(0) + DatafileOpen == DatafileOpen;
    StartTagBody("datafile");
    IndentedBody(0, DatafileClose);
    assert Indent(0) + DatafileClose == DatafileClose;
    CloseBody("datafile");
  }

  lemma PrologBalanced()
    ensures Balanced([XmlDeclaration, ""], [])
  {
    IndentedBody(0, XmlDeclaration);
    assert Indent(0) + XmlDeclaration == XmlDeclaration;
    assert StartsWith(XmlDeclaration, "<?");
    assert LeafAt(XmlDeclaration, 0);
    assert LeafAt("", 0);
    LeavesBalanced([XmlDeclaration, ""], []);
  }

  /** Whatever the tree and the mode, the document DatMaker writes is one
      `<datafile>` element after the XML declaration and a blank line,
      with every element closed and every line indented by its depth. */
  lemma DatLinesBalanced(datName: string, datDir: string, dir: RvDir, chdsAreDisk: bool)
    requires chdsAreDisk || RomSafe(dir)
    ensures Walk(DatLines(datName, datDir, dir, chdsAreDisk), []) == Some([])
  {
    var header := HeaderLines(datName, datDir, ModeComment(chdsAreDisk));
    var body := BodyLines(dir, chdsAreDisk);
    if chdsAreDisk {
      DiskDirBalanced(dir, 1, [] + ["datafile"]);
    } else {
      PlainDirBalanced(dir, 1, [] + ["datafile"]);
    }
    HeaderBalanced(datName, datDir, ModeComment(chdsAreDisk));
    assert [] + ["datafile"] == ["datafile"];
    BalancedConcat(header, body, ["datafile"]);
    DatafileTags();
    OpenStep(DatafileOpen, "datafile", []);
    CloseStep(DatafileClose, "datafile", []);
    BalancedElement(DatafileOpen, header + body, DatafileClose, [], "datafile");
    PrologBalanced();
    BalancedConcat([XmlDeclaration, ""], [DatafileOpen] + (header + body) + [DatafileClose], []);
  }
}

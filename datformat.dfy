/** The lines DatMaker writes, as functions of the catalog tree: the document
    frame, the "CHD as rom" traversal (PlainProcessDir) and the "CHDs as disk"
    traversal (ProcessDir) with its buffer of pending disks. */
module DatFormat {
  import opened Text
  import opened Catalog

  /** `new string('\t', depth)` */
  function Indent(depth: nat): (r: string)
    ensures |r| == depth
    ensures forall i :: 0 <= i < depth ==> r[i] == '\t'
  {
    seq(depth, _ => '\t')
  }

  // -----------------------------------------------------------------------
  // Single lines
  // -----------------------------------------------------------------------

  // The fixed lines are written as concatenations rather than single
  // literals: the verifier evaluates functions applied to a literal eagerly,
  // and would otherwise unfold Clean and the line reader of module Nesting on
  // them character by character wherever they appear.
  const XmlDeclaration: string := "<?" + "xml version=\"1.0\"?>"
  const DatafileOpen: string := "<" + "datafile" + ">"
  const DatafileClose: string := "</" + "datafile" + ">"
  const HeaderOpen: string := "\t" + "<" + "header" + ">"
  const HeaderClose: string := "\t" + "</" + "header" + ">"
  const DiskModeComment: string := "CHDs as disk" + " - if you see lots of status=nodump, try the other way"
  const RomModeComment: string := "CHD as rom" + " - if you see lots of empty double-quotes, try the other way"

  function GameOpen(indent: string, name: string): string {
    indent + "<game name=\"" + Clean(name) + "\">"
  }

  function DescriptionLine(indent: string, description: string): string {
    indent + "\t<description>" + Clean(description) + "</description>"
  }

  function GameClose(indent: string): string {
    indent + "</game>"
  }

  function DirOpen(indent: string, name: string): string {
    indent + "<dir name=\"" + Clean(name) + "\">"
  }

  function DirClose(indent: string): string {
    indent + "</dir>"
  }

  /** A `<rom>` line; `romName` is already rendered (cleaned file name, or
      the raw sub-directory name, a backslash and the cleaned file name). */
  function RomLine(indent: string, romName: string, f: RvFile): string {
    indent + "\t<rom name=\"" + romName + "\" size=\"" + NatToString(f.size)
    + "\" crc=\"" + Hex(f.crc) + "\" md5=\"" + Hex(f.md5) + "\" sha1=\"" + Hex(f.sha1) + "\"/>"
  }

  /** `clean(chd.Name).Replace(".chd", "")`: every occurrence goes, not only
      the suffix. */
  function DiskName(name: string): string {
    Replace(Clean(name), ".chd", "")
  }

  function DiskLine(indent: string, f: RvFile): string {
    if Hex(f.sha1Chd) != "" then
      indent + "\t<disk name=\"" + DiskName(f.name) + "\" sha1=\"" + Hex(f.sha1Chd) + "\"/>"
    else
      indent + "\t<disk name=\"" + DiskName(f.name) + "\" status=\"nodump\"/>"
  }

  // -----------------------------------------------------------------------
  // The document: WriteDatFile and WriteHeader
  // -----------------------------------------------------------------------

  /** One field of the header, two tabs deep: `<tag>text</tag>`. */
  function HeaderField(tag: string, text: string): string {
    "\t\t<" + tag + ">" + text + "</" + tag + ">"
  }

  function HeaderFields(datName: string, datDir: string, comment: string): seq<string> {
    [ HeaderField("name", Clean(datName)),
      HeaderField("rootdir", Clean(datDir)),
      HeaderField("comment", Clean(comment)) ]
  }

  /** WriteHeader: the `<header>` element, one tab deep. */
  function HeaderLines(datName: string, datDir: string, comment: string): seq<string> {
    [HeaderOpen] + HeaderFields(datName, datDir, comment) + [HeaderClose]
  }

  function ModeComment(chdsAreDisk: bool): string {
    if chdsAreDisk then DiskModeComment else RomModeComment
  }

  /** The lines of one traversal of the root at depth 1. */
  function BodyLines(dir: RvDir, chdsAreDisk: bool): seq<string>
    requires chdsAreDisk || RomSafe(dir)
  {
    if chdsAreDisk then DiskDirLines(dir, 1) else PlainDirLines(dir, 1)
  }

  /** WriteDatFile: the XML declaration, a blank line, then one `<datafile>`
      element holding the header and the traversal. */
  function DatLines(datName: string, datDir: string, dir: RvDir, chdsAreDisk: bool): seq<string>
    requires chdsAreDisk || RomSafe(dir)
  {
    [XmlDeclaration, ""]
    + ([DatafileOpen] + (HeaderLines(datName, datDir, ModeComment(chdsAreDisk)) + BodyLines(dir, chdsAreDisk)) + [DatafileClose])
  }

  // -----------------------------------------------------------------------
  // CHD as rom: PlainProcessDir
  // -----------------------------------------------------------------------

  predicate AllFiles(cs: seq<Node>) {
    forall k :: 0 <= k < |cs| ==> cs[k].FileNode?
  }

  /** What PlainProcessDir dereferences without a null check: every
      sub-directory of a game holds files only. */
  predicate SubDirsHoldFiles(cs: seq<Node>) {
    forall j :: 0 <= j < |cs| && cs[j].DirNode? ==> AllFiles(cs[j].dir.children)
  }

  predicate IsGameKind(d: RvDir) {
    d.fileType == Zip || d.fileType == Dir
  }

  /** The pruning rule of rom mode. */
  predicate PlainRecurses(d: RvDir) {
    d.fileType == Dir && !HasChdGrandChild(d)
  }

  /** PlainProcessDir never reaches a sub-directory holding a directory. */
  predicate RomSafe(dir: RvDir)
    decreases dir, 1
  {
    forall i :: 0 <= i < |dir.children| ==> RomSafeChild(dir.children[i])
  }

  predicate RomSafeChild(c: Node)
    decreases c, 0
  {
    c.DirNode? ==>
      (IsGameKind(c.dir) ==> SubDirsHoldFiles(c.dir.children))
      && (PlainRecurses(c.dir) ==> RomSafe(c.dir))
  }

  /** The `<rom>` line of file `f` in a game's sub-directory `dName`: the
      directory name goes in as it is, only the file name is cleaned. */
  function SubDirRom(indent: string, dName: string, f: RvFile): string {
    RomLine(indent, dName + "\\" + Clean(f.name), f)
  }

  /** The `<rom>` lines for the files of sub-directory `dName`. */
  function SubDirRoms(indent: string, dName: string, cs: seq<Node>): seq<string>
    requires AllFiles(cs)
  {
    if cs == [] then []
    else
      var f := cs[|cs| - 1].file;
      SubDirRoms(indent, dName, cs[..|cs| - 1]) + [SubDirRom(indent, dName, f)]
  }

  lemma SubDirRomsStep(indent: string, dName: string, cs: seq<Node>, k: nat)
    requires AllFiles(cs) && k < |cs|
    ensures AllFiles(cs[..k]) && AllFiles(cs[..k + 1])
    ensures SubDirRoms(indent, dName, cs[..k + 1])
            == SubDirRoms(indent, dName, cs[..k]) + [SubDirRom(indent, dName, cs[k].file)]
  {
    assert cs[..k + 1][..k] == cs[..k];
  }

  /** The `<rom>` line of a file child; other children give none. */
  function FileRom(indent: string, c: Node): seq<string> {
    if c.FileNode? then [RomLine(indent, Clean(c.file.name), c.file)] else []
  }

  /** The `<rom>` lines of a game in rom mode: its files and the files of its
      sub-directories, in child order. */
  function GameRoms(indent: string, cs: seq<Node>): seq<string>
    requires SubDirsHoldFiles(cs)
  {
    if cs == [] then []
    else
      var c := cs[|cs| - 1];
      GameRoms(indent, cs[..|cs| - 1])
      + FileRom(indent, c)
      + ChildSubDirRoms(indent, c)
  }

  /** The `<rom>` lines for a sub-directory child of a game. */
  function ChildSubDirRoms(indent: string, c: Node): seq<string>
    requires c.DirNode? ==> AllFiles(c.dir.children)
  {
    if c.DirNode? then SubDirRoms(indent, c.dir.name, c.dir.children) else []
  }

  lemma GameRomsStep(indent: string, cs: seq<Node>, j: nat)
    requires SubDirsHoldFiles(cs) && j < |cs|
    ensures SubDirsHoldFiles(cs[..j]) && SubDirsHoldFiles(cs[..j + 1])
    ensures GameRoms(indent, cs[..j + 1]) == GameRoms(indent, cs[..j]) + FileRom(indent, cs[j]) + ChildSubDirRoms(indent, cs[j])
  {
    assert cs[..j + 1][..j] == cs[..j];
  }

  function PlainGame(indent: string, d: RvDir): seq<string>
    requires SubDirsHoldFiles(d.children)
  {
    [GameOpen(indent, d.name), DescriptionLine(indent, Description(d))]
    + GameRoms(indent, d.children)
    + [GameClose(indent)]
  }

  function PlainDirLines(dir: RvDir, depth: nat): seq<string>
    requires RomSafe(dir)
    decreases dir, |dir.children| + 1
  {
    PlainLevel(dir, |dir.children|, depth)
  }

  /** The lines of the first `n` children of `dir`. */
  function PlainLevel(dir: RvDir, n: nat, depth: nat): seq<string>
    requires RomSafe(dir) && n <= |dir.children|
    decreases dir, n
  {
    if n == 0 then []
    else PlainLevel(dir, n - 1, depth) + PlainChild(dir.children[n - 1], depth)
  }

  /** The lines of one child: its game, if it is a Zip or a Dir, then its
      own `<dir>` element, if it is a Dir without CHD grandchildren. */
  function PlainChild(c: Node, depth: nat): seq<string>
    requires RomSafeChild(c)
    decreases c, 1
  {
    PlainChildGame(c, depth) + PlainChildNested(c, depth)
  }

  lemma PlainLevelStep(dir: RvDir, i: nat, depth: nat)
    requires RomSafe(dir) && i < |dir.children|
    ensures PlainLevel(dir, i + 1, depth) == PlainLevel(dir, i, depth) + PlainChild(dir.children[i], depth)
  {
  }

  function PlainChildGame(c: Node, depth: nat): seq<string>
    requires RomSafeChild(c)
  {
    if c.DirNode? && IsGameKind(c.dir) then PlainGame(Indent(depth), c.dir) else []
  }

  function PlainChildNested(c: Node, depth: nat): seq<string>
    requires RomSafeChild(c)
    decreases c, 0
  {
    match c
    case FileNode(_) => []
    case DirNode(d) =>
      if PlainRecurses(d)
      then [DirOpen(Indent(depth), d.name)] + PlainDirLines(d, depth + 1) + [DirClose(Indent(depth))]
      else []
  }

  // -----------------------------------------------------------------------
  // CHDs as disk: ProcessDir and justCHDs
  // -----------------------------------------------------------------------

  /** The `<disk>` lines of the disk files among `cs`. */
  function DiskLinesOf(indent: string, cs: seq<Node>): seq<string> {
    if cs == [] then []
    else
      var c := cs[|cs| - 1];
      DiskLinesOf(indent, cs[..|cs| - 1]) + (if IsDiskFile(c) then [DiskLine(indent, c.file)] else [])
  }

  /** The buffer a Dir child installs: `[name, description, disk lines…]`. */
  function GroupBuffer(indent: string, d: RvDir): seq<string> {
    [d.name, Description(d)] + DiskLinesOf(indent, d.children)
  }

  /** justCHDs: the buffered disks as a game of their own. */
  function JustChds(indent: string, lst: seq<string>): seq<string>
    requires |lst| >= 2
  {
    [GameOpen(indent, lst[0]), DescriptionLine(indent, lst[1])] + lst[2..] + [GameClose(indent)]
  }

  /** The `<rom>` lines of a Zip game in disk mode: its file children only. */
  function ZipRoms(indent: string, cs: seq<Node>): seq<string> {
    if cs == [] then []
    else ZipRoms(indent, cs[..|cs| - 1]) + FileRom(indent, cs[|cs| - 1])
  }

  lemma ZipRomsStep(indent: string, cs: seq<Node>, j: nat)
    requires j < |cs|
    ensures ZipRoms(indent, cs[..j + 1]) == ZipRoms(indent, cs[..j]) + FileRom(indent, cs[j])
  {
    assert cs[..j + 1][..j] == cs[..j];
  }

  /** A Zip game in disk mode, with the disk lines attached to it. */
  function ZipGame(indent: string, d: RvDir, attached: seq<string>): seq<string> {
    [GameOpen(indent, d.name), DescriptionLine(indent, Description(d))]
    + ZipRoms(indent, d.children) + attached + [GameClose(indent)]
  }

  /** What one loop iteration of ProcessDir writes, and its buffer afterwards. */
  datatype Step = Step(out: seq<string>, disks: seq<string>)

  function DiskChild(c: Node, disks: seq<string>, depth: nat): Step
    decreases c, 2
  {
    match c
    case FileNode(_) => Step([], disks)
    case DirNode(d) =>
      if d.fileType == Dir then
        Step(DiskFlush(Indent(depth), d, disks) + DiskNested(d, depth), GroupBuffer(Indent(depth), d))
      else if d.fileType == Zip then
        var attached := if |disks| > 2 then disks[2..] else [];
        Step(ZipGame(Indent(depth), d, attached), if |disks| > 2 then [] else disks)
      else Step([], disks)
  }

  /** A Dir child first flushes a pending group of disks as a game of its
      own, unless the group carries the child's own name. */
  function DiskFlush(indent: string, d: RvDir, disks: seq<string>): seq<string> {
    if |disks| > 2 && d.name != disks[0] then JustChds(indent, disks) else []
  }

  /** A Dir child without disk files of its own becomes a `<dir>` element. */
  function DiskNested(d: RvDir, depth: nat): seq<string>
    decreases d, |d.children| + 2
  {
    if DiskCount(d.children) == 0
    then [DirOpen(Indent(depth), d.name)] + DiskDirLines(d, depth + 1) + [DirClose(Indent(depth))]
    else []
  }

  /** The lines written for the first `n` children and the buffer then. */
  function DiskLevel(dir: RvDir, n: nat, depth: nat): Step
    requires n <= |dir.children|
    decreases dir, n
  {
    if n == 0 then Step([], [""])
    else
      var s := DiskLevel(dir, n - 1, depth);
      var t := DiskChild(dir.children[n - 1], s.disks, depth);
      Step(s.out + t.out, t.disks)
  }

  function DiskDirLines(dir: RvDir, depth: nat): seq<string>
    decreases dir, |dir.children| + 1
  {
    var s := DiskLevel(dir, |dir.children|, depth);
    s.out + (if |s.disks| > 2 then JustChds(Indent(depth), s.disks) else [])
  }
}

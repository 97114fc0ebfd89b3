# ROMVault2 DAT writer, modelled in Dafny

ROMVault2's `DatMaker` turns one directory of the ROM catalog into a
Logiqx-style DAT file. The file is XML with these parts:

- an XML declaration and a blank line;
- a `<datafile>` element holding a `<header>` (name, root directory and a comment);
- one `<game>` per zip or directory, each with a `<description>`, its `<rom>` lines and, in one mode, `<disk>` lines;
- `<dir>` elements for the directories it descends into.

It has two modes:
- "CHD as rom" (`PlainProcessDir`) lists CHD images as ordinary roms.
- "CHDs as disk" (`ProcessDir`) collects the `.chd` files of a directory into a buffer of pending `<disk>` lines. That buffer is written either as a game of its own or inside the next zip's game.

The project has seven modules:

- `Text`: the string primitives.
  - Ordinal `Replace`.
  - The escaper `Clean`, proved equal to per-character escaping (`Escape`) and undone by `Unescape`.
  - ASCII `ToLower`.
  - The hex and decimal renderings.
- `Catalog`: the catalog tree the writer reads.
  - `RvDir` and `RvFile`, with `Node` standing for the `as RvDir` / `as RvFile` tests.
  - `hasChdGrandChildren` and `numDisks` as loops proved against recursive definitions.
- `DatFormat`: the output as functions of the tree.
  - Every line shape.
  - The document (`DatLines`).
  - The rom-mode traversal (`PlainDirLines`).
  - The disk-mode traversal (`DiskDirLines`), whose pending-disk buffer is threaded through `DiskLevel`.
- `DatMaker`: the writer.
  - The static `_sw`, `_datName` and `_datDir` become the fields `lines`, `datName` and `datDir` of class `DatWriter`.
  - Each writing method has a `modifies` clause and is proved to append exactly the lines `DatFormat` gives.
  - Loop bodies that hold nested loops are split into helper methods of their own.
- `Nesting`: an independent line-by-line reading of indented XML. Each line opens, closes or is a leaf, at a depth equal to its leading tabs.
- `WellFormed`: proves that every document the writer produces, in either mode and for every tree, reads as one balanced `<datafile>` element with correct indentation.
- `DatProperties`: properties of the output.
  - The document frame.
  - Rom counts and child order.
  - The exact fate of pending disks.
  - The disk-name rule.
  - The cases where the two modes differ.

Where descriptions of this writer and its code disagree, the model follows the code:

- **Three disk groups then a zip.** It is sometimes said that three directories, each with one `.chd`, followed by a zip give one stand-alone game with the first two disks. The code writes two stand-alone games of one disk each, because every directory child installs a fresh buffer (`DatProperties.ThreeGroupsThenZip`).
- **The two modes on trees without disks.** It is said that the two modes give structurally identical output on trees without disk images. Rom mode writes a `<game>` for every directory child; disk mode writes none. An empty directory child therefore gives five lines in one mode and two in the other (`DatProperties.EmptyDirDiffers`). Zip games agree (`DatProperties.ZipGameSameInBothModes`).
- **The disk test.** It is said to be case-insensitive. In `numDisks` and `ProcessDir` it is case-sensitive (`EndsWith(".chd")`). Only `hasChdGrandChildren` lower-cases the name (`Catalog.UpperCaseChd`).
- **Disk names.** `Replace(".chd", "")` removes every occurrence of `.chd` in the name, not only the suffix (`DatProperties.DiskNameDropsEveryOccurrence`).
- **Sub-directory rom names.** The rom name of a file in a game's sub-directory uses the directory name unescaped (`DatFormat.SubDirRom`, `DatProperties.SubDirRomsAt`).

## Model

| member | source | states |
|---|---|---|
| Text.CleanIsEscape | ROMVault2/DatMaker.cs:61-69 | the five ordered replacements equal escaping each character on its own, because `&` goes first and no later step reintroduces a character an earlier step looks for |
| Text.CleanHasNoQuotesOrBrackets | ROMVault2/DatMaker.cs:61-69 | `clean`'s result contains no `"`, `'`, `<` or `>` |
| Text.CleanAmpersands | ROMVault2/DatMaker.cs:61-69 | every `&` in `clean`'s result starts one of `&amp;` `&quot;` `&apos;` `&lt;` `&gt;` |
| Text.CleanIdentity | ROMVault2/DatMaker.cs:61-69 | `clean(s) == s` exactly when `s` contains none of `& " ' < >` |
| Text.CleanRoundTrip | ROMVault2/DatMaker.cs:61-69 | decoding the five entities recovers the raw string |
| Text.CleanInjective | ROMVault2/DatMaker.cs:61-69 | different names never clean to the same text |
| Text.CleanConcat | ROMVault2/DatMaker.cs:61-69 | `clean` distributes over concatenation |
| Text.ReplaceStripsChdSuffix | ROMVault2/DatMaker.cs:175-177 | on `b + ".chd"` with no `.chd` inside `b`, the replacement removes exactly the suffix |
| Text.ToLower | ROMVault2/DatMaker.cs:79 | same length, ASCII capitals mapped to lower case, everything else kept |
| Text.Hex | ROMVault2/DatMaker.cs:100 | two hex digits per byte, so the rendering is empty exactly for an empty digest |
| Text.NatToString | ROMVault2/DatMaker.cs:100 | a non-empty run of decimal digits, one digit exactly below ten |
| Catalog.Description | ROMVault2/DatMaker.cs:94 | the game's description, or the directory name when there is no game |
| Catalog.HasChdGrandChildren | ROMVault2/DatMaker.cs:71-82 | true exactly when the directory is non-null and some directory child has a child whose lower-cased name ends in `.chd` |
| Catalog.HasChdGrandChildIgnoresFiles | ROMVault2/DatMaker.cs:76-77 | adding a file child never changes the answer |
| Catalog.UpperCaseChd | ROMVault2/DatMaker.cs:79 | a name ending in `.CHD` passes the lookahead test but is not a disk file for `numDisks` and `ProcessDir`, which compare case-sensitively |
| Catalog.NumDisks | ROMVault2/DatMaker.cs:127-139 | 0 for null, otherwise the number of File-type file children whose name ends in `.chd` (case-sensitive) |
| Catalog.DiskCountIsCardinality | ROMVault2/DatMaker.cs:127-139 | that number is the size of the set of positions holding disk files |
| Catalog.DiskCountZero | ROMVault2/DatMaker.cs:207 | the count is zero exactly when no child is a disk file |
| Catalog.DiskCountIgnoresDirs | ROMVault2/DatMaker.cs:134-135 | adding a sub-directory never changes the count, so sub-directories are never inspected |
| DatMaker.DatWriter.constructor | ROMVault2/DatMaker.cs:21-24 | both header names are the root's name, the file is `name.dat`, nothing is written yet |
| DatMaker.DatWriter.WriteLine | ROMVault2/DatMaker.cs:56-59 | appends exactly one line |
| DatMaker.DatWriter.WriteHeader | ROMVault2/DatMaker.cs:47-54 | appends the five header lines with the cleaned name, root directory and comment |
| DatMaker.DatWriter.WriteDatFile | ROMVault2/DatMaker.cs:33-45 | appends the declaration, blank line, `<datafile>`, header, the traversal of the chosen mode and `</datafile>` |
| DatMaker.DatWriter.PlainProcessDir | ROMVault2/DatMaker.cs:85-122 | appends the rom-mode lines of every child in order |
| DatMaker.DatWriter.WritePlainChild | ROMVault2/DatMaker.cs:90-120 | one child in rom mode: its game if it is a Zip or Dir, then its `<dir>` element if it is a Dir without CHD grandchildren |
| DatMaker.DatWriter.WritePlainNested | ROMVault2/DatMaker.cs:115-120 | `<dir>` line, the child's contents one level deeper, `</dir>` line |
| DatMaker.DatWriter.WritePlainGame | ROMVault2/DatMaker.cs:91-113 | game opening line, description, rom lines, closing line |
| DatMaker.DatWriter.WriteGameRoms | ROMVault2/DatMaker.cs:96-111 | the rom lines of a game's file children and of its sub-directories' files, in child order |
| DatMaker.DatWriter.WriteSubDirRoms | ROMVault2/DatMaker.cs:101-110 | one rom line per file of the sub-directory, named by the raw directory name |
| DatMaker.DatWriter.WriteAll | ROMVault2/DatMaker.cs:146 | appends the given lines in order |
| DatMaker.DatWriter.JustCHDs | ROMVault2/DatMaker.cs:142-148 | a game named and described by the buffer's first two entries, holding the rest |
| DatMaker.DatWriter.ProcessDir | ROMVault2/DatMaker.cs:151-217 | appends the disk-mode lines of every child, then a game for a group still pending |
| DatMaker.DatWriter.WriteDiskChild | ROMVault2/DatMaker.cs:156-214 | one loop iteration: the lines written and the buffer left behind |
| DatMaker.DatWriter.WriteDiskDir | ROMVault2/DatMaker.cs:159-180 | a Dir child: the flush, then the `<dir>` element when it has no disks; the buffer becomes its own group |
| DatMaker.DatWriter.WriteDiskNested | ROMVault2/DatMaker.cs:205-213 | `<dir>` line, the child's disk-mode contents one level deeper, `</dir>` line |
| DatMaker.DatWriter.WriteZipGame | ROMVault2/DatMaker.cs:181-203 | the Zip's game with pending disk lines before `</game>`; the buffer is cleared exactly when it held disks |
| DatMaker.DatWriter.WriteZipRoms | ROMVault2/DatMaker.cs:187-194 | one rom line per file child, sub-directories skipped |
| DatMaker.CollectDisks | ROMVault2/DatMaker.cs:167-179 | the buffer a Dir child installs: name, description, one disk line per disk file |
| DatMaker.MakeDatFromDir | ROMVault2/DatMaker.cs:19-31 | writes `root.dat` with the document for the root named twice, and that document is balanced XML |
| WellFormed.DatLinesBalanced | ROMVault2/DatMaker.cs:33-54 | in both modes and for every tree, the document reads as one balanced `<datafile>` element, each line indented by its depth |
| WellFormed.HeaderBalanced | ROMVault2/DatMaker.cs:47-54 | the header is one element of three leaves inside `<datafile>` |
| WellFormed.PlainDirBalanced | ROMVault2/DatMaker.cs:85-122 | rom-mode lines are a run of balanced elements at their depth |
| WellFormed.DiskDirBalanced | ROMVault2/DatMaker.cs:151-217 | disk-mode lines are a run of balanced elements at their depth, pending disks included |
| WellFormed.DiskChildBalanced | ROMVault2/DatMaker.cs:156-214 | one disk-mode iteration writes balanced elements and leaves a buffer whose disk lines are leaves one level deeper |
| WellFormed.RomLineIsLeaf | ROMVault2/DatMaker.cs:100 | a rom line is a self-closing leaf one level below its game |
| WellFormed.DiskLineIsLeaf | ROMVault2/DatMaker.cs:174-177 | both forms of a disk line are self-closing leaves one level below their game |
| DatProperties.DatFrame | ROMVault2/DatMaker.cs:33-54 | lines 0-7 are the declaration, blank line, `<datafile>`, `<header>`, the cleaned root name as name and as rootdir, the mode's comment, `</header>`; then the traversal; `</datafile>` last |
| DatProperties.SubDirRomsCount | ROMVault2/DatMaker.cs:105-109 | one rom line per file of a game's sub-directory |
| DatProperties.SubDirRomsAt | ROMVault2/DatMaker.cs:105-109 | the k-th of them names the k-th file as raw directory name, backslash, cleaned file name |
| DatProperties.GameRomsCount | ROMVault2/DatMaker.cs:96-111 | a game's rom lines number one per file child plus one per sub-directory file, counted independently from the front |
| DatProperties.GameRomsConcat | ROMVault2/DatMaker.cs:96-111 | rom lines follow child order: the lines of a prefix of the children come first |
| DatProperties.PlainGameShape | ROMVault2/DatMaker.cs:91-113 | a Zip or Dir child gives exactly one game: open line, description, the rom lines, close line, and nothing for other children |
| DatProperties.PlainWrapIff | ROMVault2/DatMaker.cs:114-120 | the `<dir>` wrapper is written exactly for Dir children without CHD grandchildren, around their contents one level deeper |
| DatProperties.DiskLinesCount | ROMVault2/DatMaker.cs:169-179 | one disk line per disk file |
| DatProperties.DiskWrapIff | ROMVault2/DatMaker.cs:205-213 | in disk mode the `<dir>` wrapper is written exactly when `numDisks` is zero, that is when the new buffer holds no disk line |
| DatProperties.DiskLineForms | ROMVault2/DatMaker.cs:174-177 | the sha1 form exactly for a present CHD digest, the nodump form for an absent one |
| DatProperties.DiskNameOfChd | ROMVault2/DatMaker.cs:175-177 | the disk of `b.chd` is named `clean(b)` when that holds no other `.chd` |
| DatProperties.DiskNameDropsEveryOccurrence | ROMVault2/DatMaker.cs:175-177 | a disk `x.chdy.chd` is named `xy` |
| DatProperties.BufferHoldsLastGroup | ROMVault2/DatMaker.cs:154-203 | after any prefix of the children, the buffer holds disk lines exactly when the last Dir child has disks and no Zip followed it, and then it is that child's group |
| DatProperties.DirChildWrites | ROMVault2/DatMaker.cs:159-180 | a Dir child writes the pending group as a game only when its name differs, then its own `<dir>` element, and installs its own group |
| DatProperties.DirChildFirstLine | ROMVault2/DatMaker.cs:161-165 | a game written while handling a Dir child belongs to the previous group and is never named after the child |
| DatProperties.GameOpenInjective | ROMVault2/DatMaker.cs:93 | different names give different game lines |
| DatProperties.ZipChildWrites | ROMVault2/DatMaker.cs:181-203 | a Zip child's game carries the pending group's disk lines, if any, just before `</game>` |
| DatProperties.LevelEndWrites | ROMVault2/DatMaker.cs:215-216 | a group still pending after the last child is written as a game of its own |
| DatProperties.SameNameDiscardsPending | ROMVault2/DatMaker.cs:161-168 | a Dir child named like the pending group replaces it without writing it |
| DatProperties.ConsecutiveGroupsFlush | ROMVault2/DatMaker.cs:161-168 | of two adjacent Dir children with disks and different names, the first is written alone |
| DatProperties.GroupThenZip | ROMVault2/DatMaker.cs:196-200 | a Zip right after a Dir with disks takes those disks and empties the buffer |
| DatProperties.FirstGroupWaits | ROMVault2/DatMaker.cs:154-168 | a first child with disks writes nothing yet |
| DatProperties.ThreeGroupsThenZip | ROMVault2/DatMaker.cs:151-217 | three differently named groups then a Zip give two one-group games, then the Zip game with the third group's disks |
| DatProperties.ZipRomsOfFiles | ROMVault2/DatMaker.cs:187-194 | for children that are all files, disk mode's rom lines equal rom mode's |
| DatProperties.ZipGameSameInBothModes | ROMVault2/DatMaker.cs:181-203 | a Zip of files with nothing pending renders the same game in both modes |
| DatProperties.EmptyDirDiffers | ROMVault2/DatMaker.cs:88-120 | an empty Dir child gives a game and a `<dir>` element (five lines) in rom mode, only the `<dir>` element (two lines) in disk mode |

## Left out

- `ROMVault2/Program.cs` is not part of this model. It holds the form start-up, the splash screen and the exception hook, and has no logic the writer uses.
- File and console I/O: creating and closing the `StreamWriter` and the two `Console.WriteLine` messages. The stream is the sequence `lines`, and `MakeDatFromDir` returns the file name and the lines. Write failures and exceptions are not modelled.
- `Utils.ArrByte.ToString` is not part of this model. `Text.Hex` assumes two lower-case hex digits per byte, with a null digest treated as empty. The decimal rendering of `file.Size` is `Text.NatToString`, and the size is an unbounded natural number.
- The catalog classes `RvDir`, `RvFile` and `RvGame` are not part of this model. Only the fields the writer reads are kept. The description is an optional game field. `FileType` keeps the three kinds the writer compares against, plus two that stand for all other kinds.
- Text.ToLower: lowers ASCII capitals only. The culture-sensitive `ToLower` of .NET also maps other letters.
- Text.StartsWith and Text.EndsWith: ordinal comparison, where .NET's one-argument `EndsWith` compares under the current culture.
- DatFormat.RomSafe and DatFormat.RomSafeChild are not operations. They exclude the null dereference at `DatMaker.cs:107-108`, where a game's sub-directory holds a directory. `PlainProcessDir`, `WriteDatFile` and `MakeDatFromDir` in rom mode require them.
- Null directories passed to the traversals are not modelled; the writer never passes one. The null checks of `hasChdGrandChildren` and `numDisks` are modelled with `Option`.
- WellFormed.DatLinesBalanced: checks element nesting and indentation line by line, not attribute syntax. An unescaped quote in a sub-directory name therefore goes unnoticed there.
- Loop bodies with inner loops or recursion are separate methods (`WritePlainChild`, `WriteDiskChild`, `WriteDiskDir`, `WriteZipGame`, ...). The order and content of what they write are unchanged.

# Necrofy core in Dafny

Necrofy is an editor for a SNES game. It takes a ROM image apart into a project of asset files, and it
builds a ROM image again from those files. This project models the core of that round trip and
proves properties of the model:

- **Asset naming.** An asset's file is named `top/sub/name[@XXXXXX].ext`. The path parser, the
  path printer and the graphics and sprites name kinds are modelled (`AssetPaths`, `Assets`).
- **Reading assets from the image.** `RomInfo` models the tables of the reading and building steps
  and the steps that move assets between the image and the tables: `CreateAsset`, `GetAssetName`,
  `AddAllDefaults`, `ReserveSpace`, `InsertByteArray` and the graphics and sprites overrides.
- **The project build** (`Project`). The asset list is cleared. The trailing 0xFF runs at the end
  of each bank are seeded as free space. The project files are loaded and sorted by category.
  Space is reserved for every asset before any asset is inserted. The image is rounded up to a
  whole bank, the size byte is written, and the remaining free space is filled with 0xFF.
- **Level serialisation.**
  - `Levels` covers the level's read constructor and `Level.Build`.
  - `LevelObjects` covers the object lists and the level-monster list.
  - `TileAnim` covers the tile-animation level monster and its entries.
  - `DisplayNames` covers the display name taken from the title pages.
- **The undo manager** (`Undo`). It keeps two stacks, a save position and a merge flag.
- **The two tile edit actions** (`TileActions`). They change the level's background array in place.

Imperative code in the source is imperative in the model.

- Stream reads and writes, list appends and the background array are `method`s over classes and
  `array2`.
- Each method is proved against a specification function over the image bytes, such as
  `HeaderAt`, `BodyAt`, `DecodeEntry`, `EntriesAt`, `LevelMonstersAt` or `UpToStep`.
- The lemmas then state the round trips, orderings and invariants about those functions.

Several classes the core uses are not shown, and the model gives each a small specification of its
own:

- `NStream` is a byte sequence with a cursor, a stack of saved positions and a block start.
- `Freespace` is a set of free offsets with `AddSize`, `Reserve`, `Claim` and `Fill`. `Claim`
  takes the lowest fitting address.
- `MovableData` is an append-only list of words, pointers and child blocks.
- `ROMInfo` is a record of maps: (category, pointer) to name, and (category, name) to pointer.

Some constants come from outside the shown code:

- The bank size is 0x8000.
- The size byte sits at offset 0x7FD7.
- A 4-byte pointer field (address, bank) is decoded as `bank * 0x8000 + address - 0x8000`.
- A 2-byte pointer is relative to the bank it is read in.
- `PeekInt16` returns the same unsigned word as `ReadInt16`, so `> 0` means non-zero.

The creators of the other asset kinds, the monster, item and title-page readers and writers, the
other level-monster loaders and the sprite table writer are parameters: the `Collaborators` and
`LevelFormats` records.

The level reader takes four ghost parameters: `look`, `names`, `head` and `body`. `LookupIs`,
`NamesReaderIs`, `HeadReaderIs` and `BodyReaderIs` pin them to `NameAt`, `TilesetNamesAt`, `HeadAt` and
`BodyAt` on the image. The contracts of `ReadAssetName`, `LoadTilesetNames`, `LoadHead`, `LoadBlock` and
`Level.Load` are stated through these parameters, which keeps each proof small. A caller passes
`ReadName`, `ReadTilesetNames`, `ReadHead` and `ReadBody`, and `ReadNameIs`, `ReadTilesetNamesIs`,
`ReadHeadIs` and `ReadBodyIs` give the requirements.

An exception is an `Err` of the `Error` datatype. The model says nothing about the state an
exception leaves behind.

Where the code and its documentation differ, the model follows the code:

- `GetRelativePath` only `Debug.Assert`s that the file lies under the project path; the model
  returns an error for a shorter path.
- The undo stacks' `Pop` throws on an empty stack; the model returns `EmptyStack` and changes
  nothing.

## Model

| member | source | states |
|---|---|---|
| AssetPaths.CompareCategories | Necrofy/Assets/Asset.cs:15-24 | zero exactly for equal categories, negative exactly when the first comes earlier in declaration order |
| AssetPaths.CategoryOrder | Necrofy/Assets/Asset.cs:15-24 | Editor < Sprites < Collision < Graphics < Palette < Tilemap < Level, and every category other than Level is below Level |
| AssetPaths.CompareAntisymmetric | Necrofy/Assets/Asset.cs:162-164 | swapping the operands negates the comparison |
| AssetPaths.CompareTransitive | Necrofy/Assets/Asset.cs:162-164 | the category order is transitive, so it can be used as a sort key |
| AssetPaths.FormatX6RoundTrip | Necrofy/Assets/Asset.cs:292-295 | a pointer below 0x1000000 prints as exactly six hex digits that parse back to the pointer |
| AssetPaths.SplitShape | Necrofy/Assets/Asset.cs:180 | splitting gives one more segment than there are separators, and no segment holds a separator |
| AssetPaths.LastIndexOf | Necrofy/Assets/Asset.cs:191-196 | the index of the last occurrence of the character, or -1 when it does not occur at all |
| AssetPaths.PointerSuffix | Necrofy/Assets/Asset.cs:197-201 | a pointer is found exactly when the name ends in '@' and six hex digits, optionally followed by a final newline, which .NET's `$` also matches |
| AssetPaths.ParsePath | Necrofy/Assets/Asset.cs:177-205 | null exactly for more than three segments; the top folder is set iff there are at least two, the sub-folder iff there are exactly three |
| AssetPaths.LastDot | Necrofy/Assets/Asset.cs:191-196 | in `base.ext` with no dot in either part, the last dot is the one before the extension |
| AssetPaths.Combine | Necrofy/Assets/Asset.cs:218-238 | Path.Combine of a directory ending in the separator and a relative piece is their concatenation |
| AssetPaths.FileNameRoundTrip | Necrofy/Assets/Asset.cs:191-201 | the file name `name[@X6][.ext]` parses back to the same name, extension and pointer when the name is invertible |
| AssetPaths.ParseJoinRoundTrip | Necrofy/Assets/Asset.cs:177-205 | ParsePath inverts the printed path `top/sub/file` whenever the parts are invertible: the separator is '/' or '\\' and occurs in none of the folders, the name or the extension; a sub-folder comes with a top folder; the name and the extension hold no '.'; a pointer is below 0x1000000 and then the name holds no newline; without a pointer the name does not already end in a pointer suffix. Folders may be empty and may hold dots |
| AssetPaths.ParseSingle | Necrofy/Assets/Asset.cs:180-201 | a path with no separator parses as a bare file name |
| AssetPaths.ParseDouble | Necrofy/Assets/Asset.cs:180-201 | `t/f` parses as top folder t with no sub-folder |
| AssetPaths.ParseTriple | Necrofy/Assets/Asset.cs:180-201 | `t/u/f` parses as top folder t and sub-folder u |
| AssetPaths.BaseParses | Necrofy/Assets/Asset.cs:197-201 | the printed `name[@X6]` holds no dot or separator, and a pointer is found in it exactly when the name carries one |
| AssetPaths.GetFilenameIsJoin | Necrofy/Assets/Asset.cs:218-238 | GetFilename under a project directory ending in the separator is that directory followed by the printed path |
| AssetPaths.CombineTwo | Necrofy/Assets/Asset.cs:221-237 | combining a directory with a folder and then a file inserts exactly one separator, between folder and file |
| AssetPaths.CombineThree | Necrofy/Assets/Asset.cs:221-237 | the same with a top folder and a sub-folder |
| Assets.Name | Necrofy/Assets/SpritesAsset.cs:83-85 | the sprites name is always "Sprites"; a graphics name is its own name |
| Assets.DisplayName | Necrofy/Assets/SpritesAsset.cs:83-85 | the display name of the graphics and sprites names is their name |
| Assets.Category | Necrofy/Assets/GraphicsAsset.cs:94-96 | graphics names are in the Graphics category and sprites names in the Sprites category |
| Assets.GraphicsFromPath | Necrofy/Assets/GraphicsAsset.cs:102-107 | accepted exactly for top folder "Graphics", no sub-folder and extension "bin", copying the name and pointer |
| Assets.SpritesFromPath | Necrofy/Assets/SpritesAsset.cs:91-98 | accepted exactly for `Tilemaps/Sprites.json` with no sub-folder and no pointer |
| Assets.GraphicsPathCorrespondence | Necrofy/Assets/GraphicsAsset.cs:98-107 | FromPath gives n exactly when n is a graphics name whose GetPathParts are the parts, so `FromPath(GetPathParts(n)) == n` |
| Assets.SpritesPathCorrespondence | Necrofy/Assets/SpritesAsset.cs:87-98 | FromPath accepts exactly the sprites name's own GetPathParts |
| Assets.GetNameInfoForName | Necrofy/Assets/GraphicsAsset.cs:76-78 | a graphics name made from a bare name has no pointer; the sprites creator returns null |
| Assets.AutoTrackFreespace | Necrofy/Assets/SpritesAsset.cs:72 | false for sprites, true for graphics |
| Assets.GraphicsDefault | Necrofy/Assets/GraphicsAsset.cs:66-70 | one default, "Sprites" at 0x20000 of size 0x5D300, whose file `Graphics/Sprites@020000.bin` is recognised as that same name |
| Assets.GraphicsDefaultFile | Necrofy/Assets/GraphicsAsset.cs:66-70 | the default's file name is `Graphics/Sprites@020000.bin` and its parts are invertible |
| Assets.SpritesDefault | Necrofy/Assets/SpritesAsset.cs:59-63 | exactly one default, at pointer 0 with no size, stored as `Tilemaps/Sprites.json` |
| Assets.FirstMatch | Necrofy/Assets/Asset.cs:81-102 | the index of the first creator in registration order whose GetNameInfo is non-null, or none when no creator matches |
| Assets.FindCreator | Necrofy/Assets/Asset.cs:81-91 | the creator loop finds a creator exactly when the path is recognised, and the one it finds gives the recognised name |
| Assets.GetInfo | Necrofy/Assets/Asset.cs:92-102 | the name of the first matching creator, null when none matches or the path does not parse |
| Assets.FromFile | Necrofy/Assets/Asset.cs:81-91 | an asset exactly when GetInfo recognises the path, holding that name and the file's contents |
| Assets.GraphicsFileRecognised | Necrofy/Assets/Asset.cs:81-102 | the file a graphics asset is saved under is recognised as the same name, since the graphics creator is registered first |
| Assets.SpritesFileRecognised | Necrofy/Assets/Asset.cs:151-160 | `Tilemaps/Sprites.json` is recognised as the sprites name when the creators registered before it do not claim it |
| Assets.SpritesPathParses | Necrofy/Assets/Asset.cs:177-205 | the sprites path parses back to the sprites name's parts |
| Assets.AsWrittenAgreesOnShortPaths | Necrofy/Assets/Asset.cs:81-102 | for paths of at most three segments, the code as written and the corrected GetInfo agree |
| Assets.AsWrittenThrowsOnlyUnparsed | Necrofy/Assets/Asset.cs:81-102 | the creator loop as written throws a NullReferenceException exactly when ParsePath yields null; otherwise it gives the corrected lookup's name |
| Assets.FirstMatchAgrees | Necrofy/Assets/Asset.cs:92-102 | on parsed parts, the as-written creator loop gives the first match |
| Assets.DeepPathThrows | Necrofy/Assets/Asset.cs:81-102 | on `Graphics/a/b/c.bin` the code as written dereferences null, while the corrected lookup returns null |
| Assets.CompareTo | Necrofy/Assets/Asset.cs:162-164 | assets compare by category only: equal exactly for equal categories, negative exactly for an earlier category |
| RomInfo.ROMInfo.GetAssetName | Necrofy/Assets/Asset.cs:121 | the recorded name for (category, pointer), or null when none is recorded |
| RomInfo.ROMInfo.GetAssetPointer | Necrofy/Level/Level.cs:154 | the pointer recorded for (category, name); an unresolved name is an error |
| RomInfo.RomRead | Necrofy/Assets/GraphicsAsset.cs:72-74 | graphics are read only with a size, and are then exactly the next `size` bytes |
| RomInfo.FromRom | Necrofy/Assets/GraphicsAsset.cs:72-74 | reading at the cursor gives RomRead's asset and advances by the bytes consumed; a missing size is the error of the nullable cast |
| RomInfo.CreateAsset | Necrofy/Assets/Asset.cs:132-148 | a negative pointer cannot be sought. Otherwise the asset read at the pointer is appended and named under (category, pointer), the stream position and stack are restored, and the bytes consumed are freed only when AutoTrackFreespace holds; these new tables are the ones Created gives (CreatedReads) |
| RomInfo.Created | Necrofy/Assets/Asset.cs:132-148 | CreateAsset on the tables: a negative pointer is the seek's exception; a created asset only adds to the tables, by one asset and the name under its category and pointer |
| RomInfo.CreatedReads | Necrofy/Assets/Asset.cs:132-148 | for a non-negative pointer, Created succeeds exactly when the creator's FromRom does, fails with its error, and otherwise appends the asset read, names it and frees the bytes read exactly when the creator tracks free space |
| RomInfo.GetAssetName | Necrofy/Assets/Asset.cs:120-129 | a recorded name is reused and nothing changes; otherwise the asset is created once under the pointer's six-digit hex name; a creator with no name for a bare string throws. The result, its error and the new tables are exactly NameOf's |
| RomInfo.NameOf | Necrofy/Assets/Asset.cs:120-148 | the name GetAssetName gives and the tables it leaves: they only grow, and the one new key is the pointer's. An unrecorded negative pointer is a negative seek whatever the creator, because CreateAsset seeks before it uses the name info |
| RomInfo.NameOfCases | Necrofy/Assets/Asset.cs:120-148 | succeeds exactly when the name is recorded or the pointer is non-negative and the creator names bare pointers and reads without a size. An unrecorded negative pointer fails with a negative seek. A recorded name leaves the tables alone. A created one appends the asset read at the pointer, records its name under its own category and the pointer, and frees the bytes it took exactly when the creator tracks free space |
| RomInfo.AddAllDefaults | Necrofy/Assets/Asset.cs:106-112 | every default of every creator, in registration order, goes through CreateAsset, and the first failure stops the rest. It succeeds exactly when DefaultTables does, with its error. The new assets, names and free space are exactly DefaultTables', and the stream position and stack are restored |
| RomInfo.DefaultsSucceed | Necrofy/Assets/Asset.cs:106-112 | creating the defaults succeeds exactly when each default can be read, whatever the tables hold |
| RomInfo.DefaultsAppend | Necrofy/Assets/Asset.cs:106-112 | the assets afterwards are those before followed by each default's asset, in order |
| RomInfo.DefaultsRecord | Necrofy/Assets/Asset.cs:106-112 | every name recorded before is kept, and each default is named under its category and pointer |
| RomInfo.DefaultsFree | Necrofy/Assets/Asset.cs:106-112 | the free space afterwards is exactly the free space before plus the bytes each default read, for the creators that track free space |
| RomInfo.DefaultListPrefix | Necrofy/Assets/Asset.cs:106-112 | the defaults of the first creators come first in the whole list |
| RomInfo.DefaultsStop | Necrofy/Assets/Asset.cs:106-112 | once one default fails, every list of defaults that extends it fails with the same exception |
| RomInfo.DefaultsFail | Necrofy/Assets/Asset.cs:106-112 | a failure among one creator's defaults is the failure of the whole list |
| RomInfo.GraphicsDefaultFirst | Necrofy/Assets/Asset.cs:151-160 | the first default created is the graphics creator's: sprite graphics at 0x20000, 0x5D300 bytes |
| RomInfo.ReserveSpace | Necrofy/Assets/Asset.cs:39-43 | reserves `[pointer, pointer + length)` only when a pointer is given; it succeeds exactly when the whole range is free |
| RomInfo.InsertByteArray | Necrofy/Assets/Asset.cs:49-56 | with a fixed pointer, writes there and claims nothing; otherwise claims `data.Length` bytes at the lowest fitting address; it records the name's pointer and writes the data at it |
| RomInfo.InsertSprites | Necrofy/Assets/SpritesAsset.cs:34-38 | writes SpriteData1 starting at index 0, then SpriteData2 starting at the index the first write returned |
| RomInfo.ReserveAsset | Necrofy/Assets/GraphicsAsset.cs:39-41 | a graphics asset with a pointer reserves `[pointer, pointer + data.Length)`; any other asset reserves nothing |
| RomInfo.InsertAsset | Necrofy/Assets/GraphicsAsset.cs:43-45 | graphics are written at their fixed pointer when they have one and at the lowest fitting claimed address otherwise, and their pointer is recorded; it fails exactly for a negative fixed pointer or when nothing fits. Sprites write both sprite tables, as InsertSprites does, and record nothing |
| Project.FixPath | Necrofy/Project.cs:60-65 | the result ends in the separator and is the path itself or the path plus one separator |
| Project.FixPathIdempotent | Necrofy/Project.cs:60-65 | fixing a fixed path changes nothing |
| Project.GetRelativePath | Necrofy/Project.cs:71-74 | the file name with exactly the project path's length removed |
| Project.RelativePathStripsPrefix | Necrofy/Project.cs:71-74 | for a file under the project path, the result is the rest of the file name |
| Project.RunLengthIsRun | Necrofy/Project.cs:148-154 | the counted run is all 0xFF and is maximal: the byte before it is not 0xFF |
| Project.BankFreeIsRunTail | Necrofy/Project.cs:155-158 | a run of length L frees exactly the L-2 bytes ending at the bank's last byte, so the run's two lowest bytes stay used; runs shorter than 2 free nothing |
| Project.ScannedBanksAreInside | Necrofy/Project.cs:148 | bank b's last byte is below the length exactly when bank b is scanned |
| Project.ScanBank | Necrofy/Project.cs:149-158 | the backward loop over one bank frees exactly that bank's run tail |
| Project.AddEndOfBankFreespace | Necrofy/Project.cs:147-160 | the free space grows by exactly the run tails of every scanned bank |
| Project.RoundUpToBank | Necrofy/Project.cs:107 | the smallest multiple of the bank size at or above the length |
| Project.CeilLog2 | Necrofy/Project.cs:108 | the least k with n <= 2^k |
| Project.SizeByteIsLog | Necrofy/Project.cs:108 | the size byte is ceil(log2(length)) - 10 for a whole number of banks |
| Project.SortByCategory | Necrofy/Project.cs:97 | the sorted list is ordered by category and is a permutation of the input |
| Project.InsertKeepsSorted | Necrofy/Project.cs:97 | inserting an asset into a sorted list keeps it sorted |
| Project.SortedMeansCompareOrdered | Necrofy/Project.cs:97 | in the sorted list, CompareTo never puts a later asset before an earlier one |
| Project.LoadEachKeepsRecognised | Necrofy/Project.cs:86-95 | loading fails exactly when some file fails; otherwise every recognised file's asset is kept, unrecognised files are skipped, and nothing else is added |
| Project.LoadEachStopsAtError | Necrofy/Project.cs:86-95 | the first failing file decides the result |
| Project.LoadFile | Necrofy/Project.cs:86-95 | one project file: the path below the project directory (the Substring error when the name is shorter), then FromFile. A recognised asset holds the file's contents |
| Project.LoadFileAsWritten | Necrofy/Project.cs:86-95 | wherever the source's FromFile does not throw, LoadFile gives what it gives: the recognised asset or null |
| Project.LoadProjectAssets | Necrofy/Project.cs:86-95 | the file loop computes the load of all project files |
| Project.ReserveEachRemovesFixed | Necrofy/Project.cs:98-100 | reserving succeeds exactly when every fixed asset's range is still free when its turn comes, and it then removes exactly the union of those ranges |
| Project.ReserveEachStopsAtConflict | Necrofy/Project.cs:98-100 | a conflict in a prefix makes the whole reservation fail |
| Project.ReserveAll | Necrofy/Project.cs:98-100 | the reserve loop computes ReserveEach on the free space |
| Project.InsertAll | Necrofy/Project.cs:101-103 | the insert loop keeps every recorded pointer and records one for every graphics asset. On a category-sorted list whose fixed ranges were reserved, each graphics asset that is the last of its name has its bytes at the pointer recorded for that name: its fixed pointer, or a range that was free before the loop. None of those bytes is free afterwards |
| Project.ReservedSeparated | Necrofy/Project.cs:98-100 | after a successful reservation no fixed range is still free, and no two fixed ranges overlap |
| Project.SpritesBeforeGraphics | Necrofy/Project.cs:97 | in the category-sorted list no graphics asset comes before the sprites, so the sprite tables are written before any graphics |
| Project.GraphicsStep | Necrofy/Assets/Asset.cs:49-56 | one graphics insert puts its bytes at its pointer and keeps the bytes of every earlier asset of another name, because their ranges are disjoint |
| Project.FinishKeepsPlaced | Necrofy/Project.cs:105-112 | padding, the size byte and the 0xFF fill keep every placed graphics byte except one at 0x7FD7 |
| Project.PlaceAssets | Necrofy/Project.cs:83-103 | the asset list becomes the category-sorted load of the project files. The end-of-bank space is seeded first, and reserving every fixed range on it succeeds before the first insert. Each graphics asset that is the last of its name then has its bytes at its recorded pointer: its fixed pointer, or a range left free by the reservations. None of those bytes is free |
| Project.FinishImage | Necrofy/Project.cs:105-112 | the image grows past 0x7FD7. An empty image becomes exactly 0x7FD8 bytes. A non-empty one becomes a whole number of banks, with the log2 size byte at 0x7FD7 unless that byte is free. Every free byte becomes 0xFF, and every other byte below the old length is kept |
| Project.Build | Necrofy/Project.cs:77-116 | the steps above in the source's order, with the corrected project-file lookup. In the finished image, every graphics asset that is the last of its name still has its bytes at its recorded pointer, all but a byte at 0x7FD7 that the size byte may replace. Every free byte is 0xFF. For a non-empty base image, the size is a whole number of banks with the size byte at 0x7FD7 |
| DisplayNames.LastFrom | Necrofy/Level/Level.cs:132 | the last occurrence of the pattern at or before an index |
| DisplayNames.LastIndexOf | Necrofy/Level/Level.cs:132 | the last occurrence of "Level ", or -1 when there is none |
| DisplayNames.IndexOf | Necrofy/Level/Level.cs:141 | the first occurrence at or after an index, or -1 when there is none |
| DisplayNames.GenerateDisplayName | Necrofy/Level/Level.cs:130-147 | the result is always a suffix of the joined titles |
| DisplayNames.UnchangedExactly | Necrofy/Level/Level.cs:131-139 | the name is returned unchanged exactly when "Level " is absent or ends the string |
| DisplayNames.LevelWordRemoved | Necrofy/Level/Level.cs:137-146 | otherwise the result lies after the last "Level " and holds no "Level "; without a digit it is all the text after "Level " |
| DisplayNames.LevelNumberSkipped | Necrofy/Level/Level.cs:140-145 | with a digit after "Level ", the result starts just past the next space, or is "" when there is no space |
| Levels.HeaderWords | Necrofy/Level/Level.cs:181-190 | Build writes ten header words |
| Levels.HeaderRoundTrip | Necrofy/Level/Level.cs:82-91 | the header words Build writes read back as the same header wherever they are placed |
| Levels.ReadHeader | Necrofy/Level/Level.cs:82-91 | the ten reads give HeaderAt and advance 20 bytes |
| Levels.ReadTitle | Necrofy/Level/Level.cs:93-98 | a title page follows its relative pointer and the position is restored past the pointer |
| Levels.BonusesAt | Necrofy/Level/Level.cs:101-104 | the bonus list is read only when the peeked word is non-zero, and the cursor then passes its pointer |
| Levels.ReadBonuses | Necrofy/Level/Level.cs:101-104 | the optional bonus read computes BonusesAt: the same success, list, end and error |
| Levels.BodyMonstersKept | Necrofy/Level/Level.cs:72-78 | every monster a loaded level keeps has a type above -1 |
| Levels.LoadBody | Necrofy/Level/Level.cs:72-108 | reading the lists, header, titles, bonuses and level monsters succeeds exactly when BodyAt does, with BodyAt's body, end offset and error |
| Levels.Row | Necrofy/Level/Level.cs:115-117 | row y of the background, x ascending |
| Levels.RowMajor | Necrofy/Level/Level.cs:159-163 | the first rows in row-major order, width words per row |
| Levels.RowMajorAt | Necrofy/Level/Level.cs:159-163 | cell (x, y) is word `y * width + x` of the row-major order |
| Levels.ReadRow | Necrofy/Level/Level.cs:114-116 | the inner read loop fills row y from the next width words and moves the cursor past them; every other row keeps what it held; a short image is an error |
| Levels.ReadRows | Necrofy/Level/Level.cs:113-117 | the outer read loop: row y comes from the words starting `2 * y * width` bytes past the block's start; it fails with end of stream exactly when the block runs past the image |
| Levels.RowOffsetIs | Necrofy/Level/Level.cs:113-117 | row y of the block starts `ptr + 2 * (y * width)` bytes in |
| Levels.BackgroundCell | Necrofy/Level/Level.cs:111-117 | in a background read from ptr, cell (x, y) is the word at `ptr + 2 * (y * width + x)` |
| Levels.ReadBackground | Necrofy/Level/Level.cs:112-119 | a width x height array whose cell (x, y) is the word at `backgroundPtr + 2 * (y * width + x)`; width x height x 2 bytes are freed; it fails exactly when the pointer is negative (a negative seek) or the block runs past the image (end of stream) |
| Levels.BuildRow | Necrofy/Level/Level.cs:160-162 | the inner build loop appends row y |
| Levels.BuildBackground | Necrofy/Level/Level.cs:156-163 | the background block holds the cells in row-major order |
| Levels.BackgroundRoundTrip | Necrofy/Level/Level.cs:112-119 | the block Build writes holds every cell at the place the reader reads it from |
| Levels.ReadAssetName | Necrofy/Level/Level.cs:64 | the 4-byte pointer at the cursor is read and resolved: past the image it is end of stream; otherwise it succeeds, fails with the same error, and gives the same name and new tables as the lookup at the cursor, which is NameAt. A recorded name is reused and changes nothing |
| Levels.ReadNameLooksUp | Necrofy/Assets/Asset.cs:120-129 | the name lookup succeeds on every resolvable name inside the image; when it succeeds the pointer was inside the image and the tables have only grown |
| Levels.TilesetNamesAtResolves | Necrofy/Level/Level.cs:66-70 | the four tileset names read when their pointers are inside the image and resolvable on the tables they start from |
| Levels.HeadAtResolves | Necrofy/Level/Level.cs:63-70 | the seven pointers read when they are inside the image and the five names are resolvable |
| Levels.TilesetNamesAtReads | Necrofy/Level/Level.cs:66-70 | when the four names read, their pointers were inside the image and the tables have only grown |
| Levels.HeadAtReads | Necrofy/Level/Level.cs:63-70 | when the head reads, the 28 bytes are inside the image, the tables have only grown, and the background and palette-animation pointers are the stored 4-byte pointers |
| Levels.LoadHead | Necrofy/Level/Level.cs:63-70 | the seven 4-byte pointers are read: the result, its error and the new tables are exactly HeadAt's at the cursor; the cursor moves 28 bytes, and the background and palette-animation pointers are kept as the stored numbers |
| Levels.LoadTilesetNames | Necrofy/Level/Level.cs:66-70 | the four tileset and palette names, then the palette-animation pointer: the result, its error and the new tables are exactly TilesetNamesAt's; the cursor moves 20 bytes |
| Levels.LoadBlock | Necrofy/Level/Level.cs:63-110 | succeeds exactly when HeadAt and BodyAt both read, and fails with the head's error, else the body's. It gives their head and body and HeadAt's tables. The free space is HeadAt's plus exactly the block from the level's start to the end of its level-monster list |
| Levels.PointersOf | Necrofy/Level/Level.cs:154-169 | every name resolves to its recorded pointer; the first unresolved name is the error |
| Levels.PaletteAnimationRoundTrip | Necrofy/Level/Level.cs:170-175 | a positive palette-animation pointer reads back as itself; a pointer at or below 0 is written as two zero words, which read back as a negative pointer that is written the same way again |
| Levels.PositionedIndices | Necrofy/Level/Level.cs:225-229 | the indices of the level monsters that are level objects, ascending |
| Levels.PositionedIndicesComplete | Necrofy/Level/Level.cs:225-229 | every level monster that is a level object is among them |
| Levels.RefsOrder | Necrofy/Level/Level.cs:215-232 | the references come list by list: monsters, one-time monsters, items, the positioned level monsters, then player 1 and player 2 |
| Levels.Level.constructor | Necrofy/Level/Level.cs:56-120 | the new level holds the read names, header fields, lists, titles and background |
| Levels.Level.Load | Necrofy/Level/Level.cs:56-120 | succeeds exactly when the head and the body read and the width x height background words fit the image. It fails with the error of the first step that fails: head, body, negative seek or end of stream. The level holds the head's names, BodyAt's body and the background block. The free space is exactly what the head left, plus the level block, plus the background's width x height x 2 bytes |
| Levels.Level.HeaderRebuilds | Necrofy/Level/Level.cs:181-190 | a loaded level writes back the header it was read from: the 16-bit casts of the width and height lose nothing |
| Levels.Level.Build | Necrofy/Level/Level.cs:151-204 | the pieces in order: the tilemap pointer, a 4-byte pointer to the background block, the four other asset pointers, the palette-animation field, the three list pointers, the header, the two title pointers, the bonus pointer, the level monsters and two zero words; an unresolved name is an error |
| Levels.Level.BuildHead | Necrofy/Level/Level.cs:154-175 | the pointer part of Build |
| Levels.Level.BuildPointers | Necrofy/Level/Level.cs:154-169 | the tilemap pointer, the background block and the collision, graphics, palette and sprite-palette pointers, in that order |
| Levels.Level.AddBackgroundBlock | Necrofy/Level/Level.cs:156-164 | one 4-byte-pointer block holding the background's words row by row |
| Levels.Level.BuildPaletteAnimation | Necrofy/Level/Level.cs:170-175 | a positive palette-animation pointer is written as a pointer, anything else as two zero words |
| Levels.Level.BuildLists | Necrofy/Level/Level.cs:177-190 | the object lists and the header |
| Levels.Level.BuildTail | Necrofy/Level/Level.cs:192-201 | the titles, bonuses and level monsters, closed by two zero words |
| Levels.Level.AllObjectsOrder | Necrofy/Level/Level.cs:215-232 | monsters, one-time monsters, items, the level monsters that are level objects, then player 1 and player 2 |
| Levels.Level.AllObjectsRefer | Necrofy/Level/Level.cs:215-232 | every yielded object refers to something the level holds |
| Levels.Level.SetPlayerX | Necrofy/Level/Level.cs:234-254 | setting a player's x writes that player's start field and leaves the other player's alone |
| Levels.Level.SetPlayerY | Necrofy/Level/Level.cs:234-254 | the same for y |
| Levels.BuildObjectLists | Necrofy/Level/Level.cs:177-190 | three list pointers, then the header words |
| Levels.BuildHeader | Necrofy/Level/Level.cs:181-190 | the ten header words in read order |
| LevelObjects.ObjectsAreKept | Necrofy/Level/Level.cs:122-128 | a list ends at a zero word, and every object it yields satisfies the keep test |
| LevelObjects.AddAllObjects | Necrofy/Level/Level.cs:122-128 | follows the relative pointer, reads while the peeked word is non-zero, and restores the position past the pointer |
| LevelObjects.ListWords | Necrofy/Level/Level.cs:206-213 | the block of a list always ends in a zero word |
| LevelObjects.BuildObject | Necrofy/Level/Level.cs:209 | one object's words are appended |
| LevelObjects.BuildAll | Necrofy/Level/Level.cs:206-213 | one 2-byte pointer to a block of the objects' words followed by a zero |
| LevelObjects.ListRoundTrip | Necrofy/Level/Level.cs:122-128 | reading back a block BuildAll wrote gives the same objects |
| LevelObjects.BonusDecodes | Necrofy/Level/Level.cs:103 | a non-zero bonus word reads back as itself |
| LevelObjects.ZeroBonusEndsList | Necrofy/Level/Level.cs:124 | a zero bonus would end the list |
| LevelObjects.ZeroWordsEndLevelMonsters | Necrofy/Level/Level.cs:197-201 | the two zero words after the level monsters stop the reader |
| LevelObjects.FromRom | Necrofy/Level/TileAnimLevelMonster.cs:17-26 | a level monster is its type pointer and its kind's loader; the tile animation follows a 4-byte pointer and restores the position; the result and its error are LevelMonsterAt's |
| LevelObjects.ReadLevelMonsters | Necrofy/Level/Level.cs:106-108 | level monsters are read while the peeked pointer is above -1: the list, its end and its error are LevelMonstersAt's |
| LevelObjects.BuildLevelMonster | Necrofy/Level/TileAnimLevelMonster.cs:39-49 | one level monster's pieces |
| LevelObjects.BuildLevelMonsters | Necrofy/Level/Level.cs:197-201 | every level monster in order, then two zero words |
| TileAnim.DecodeEntry | Necrofy/Level/TileAnimLevelMonster.cs:58-68 | an entry ends two bytes past its last tile; running off the image is end of stream |
| TileAnim.DecodedEntryShape | Necrofy/Level/TileAnimLevelMonster.cs:58-68 | every collected tile is the word at its place and is below 0xFFFE; the terminator is at least 0xFFFE; loop is true exactly when it is 0xFFFF |
| TileAnim.EntryWords | Necrofy/Level/TileAnimLevelMonster.cs:70-79 | Build writes one word per tile plus the terminator |
| TileAnim.ReadEntry | Necrofy/Level/TileAnimLevelMonster.cs:58-68 | the read loop computes DecodeEntry |
| TileAnim.BuildEntry | Necrofy/Level/TileAnimLevelMonster.cs:70-79 | the tiles in order, then 0xFFFF when looping and 0xFFFE otherwise |
| TileAnim.EntryRoundTrip | Necrofy/Level/TileAnimLevelMonster.cs:58-79 | decoding what Build wrote gives the same tiles and loop flag, 2 * (tiles + 1) bytes on, when every tile is below 0xFFFE |
| TileAnim.DecodeEntryFrom | Necrofy/Level/TileAnimLevelMonster.cs:58-79 | decoding from the k-th tile gives the rest of the tiles |
| TileAnim.DecodeThenBuild | Necrofy/Level/TileAnimLevelMonster.cs:58-79 | building a decoded entry gives back exactly the bytes it was decoded from |
| TileAnim.EntriesAt | Necrofy/Level/TileAnimLevelMonster.cs:30-37 | the pointer table with its zero word lies inside the image |
| TileAnim.TableReadsEntries | Necrofy/Level/TileAnimLevelMonster.cs:30-37 | the reader gives es exactly when the table holds a pointer to each entry of es, in order, then a zero word |
| TileAnim.ReadSlot | Necrofy/Level/TileAnimLevelMonster.cs:33-35 | one entry through its relative pointer, restoring the position past the pointer |
| TileAnim.ReadEntries | Necrofy/Level/TileAnimLevelMonster.cs:30-37 | the reader loop computes EntriesAt and stops at the zero word |
| TileAnim.TileAnimAt | Necrofy/Level/TileAnimLevelMonster.cs:17-26 | the loader follows the 4-byte pointer after the type |
| TileAnim.LoadTileAnim | Necrofy/Level/TileAnimLevelMonster.cs:17-26 | the loader computes TileAnimAt and restores the position after the pointer |
| TileAnim.Slots | Necrofy/Level/TileAnimLevelMonster.cs:42-46 | one pointer per entry |
| TileAnim.SlotsAt | Necrofy/Level/TileAnimLevelMonster.cs:42-46 | slot i is a 2-byte pointer to entry i's words |
| TileAnim.BuildEntryTable | Necrofy/Level/TileAnimLevelMonster.cs:41-47 | a 2-byte pointer per entry in entry order, then a zero word |
| TileAnim.BuildTileAnim | Necrofy/Level/TileAnimLevelMonster.cs:39-49 | the type pointer, then a 4-byte pointer to the entry table |
| Undo.LastIndex | Necrofy/Undo/UndoManager.cs:99-102 | the stack position of the given action nearest the top, or -1 when it is absent |
| Undo.NoneAboveLast | Necrofy/Undo/UndoManager.cs:100 | no copy of the action lies above that position |
| Undo.LastIsLast | Necrofy/Undo/UndoManager.cs:100 | the first copy met while popping is the one at that position |
| Undo.UndoManager.constructor | Necrofy/Undo/UndoManager.cs:14-23 | empty stacks, merge on, save position 0, so a new manager is clean |
| Undo.UndoManager.Do | Necrofy/Undo/UndoManager.cs:25-44 | a cancelled action changes nothing; otherwise the action is merged into the top iff the flag is set, the top can merge and it has the same kind, else it is pushed; savePos becomes -1 once the count is at or below it; redo is cleared and merge set |
| Undo.UndoManager.Perform | Necrofy/Undo/UndoManager.cs:46-52 | redoes the action unless it is cancelled, leaving the stacks alone |
| Undo.UndoManager.Dirty | Necrofy/Undo/UndoManager.cs:54-58 | dirty exactly when savePos differs from the undo count |
| Undo.UndoManager.Clean | Necrofy/Undo/UndoManager.cs:60-63 | savePos becomes the undo count, so the manager is not dirty |
| Undo.UndoManager.ForceDirty | Necrofy/Undo/UndoManager.cs:65-68 | savePos becomes -1, so the manager is dirty |
| Undo.UndoManager.ForceNoMerge | Necrofy/Undo/UndoManager.cs:70-72 | the merge flag is cleared |
| Undo.UndoManager.UndoLast | Necrofy/Undo/UndoManager.cs:74-84 | the undo top moves to the redo stack, merge is cleared, and the action is undone; an empty stack throws |
| Undo.UndoManager.RedoLast | Necrofy/Undo/UndoManager.cs:86-96 | the redo top moves back, merge is cleared, and the action is redone |
| Undo.UndoManager.UndoOrRedoUpTo | Necrofy/Undo/UndoManager.cs:98-107 | actions move one at a time until the given one has moved, preferring the undo stack; an action on neither stack throws and changes nothing; the effects are logged in order |
| Undo.UndoManager.UndoUpTo | Necrofy/Undo/UndoManager.cs:99-100 | pops down to and including the topmost copy of the action, undoing each in turn |
| Undo.UndoManager.RedoUpTo | Necrofy/Undo/UndoManager.cs:101-102 | the same on the redo stack |
| Undo.UndoLogContents | Necrofy/Undo/UndoManager.cs:100 | the effects UndoUpTo logs: each popped action undone, top first |
| Undo.RedoLogContents | Necrofy/Undo/UndoManager.cs:102 | the effects RedoUpTo logs: each popped action redone, top first |
| Undo.UndoOneMore | Necrofy/Undo/UndoManager.cs:79-84 | one more pop moves the next action down the stack |
| Undo.RedoOneMore | Necrofy/Undo/UndoManager.cs:91-96 | the same for redo |
| Undo.UndoThenRedo | Necrofy/Undo/UndoManager.cs:79-96 | RedoLast after UndoLast restores both stacks, with merge cleared |
| Undo.RedoThenUndo | Necrofy/Undo/UndoManager.cs:79-96 | UndoLast after RedoLast restores both stacks, with merge cleared |
| Undo.DoneIsDirty | Necrofy/Undo/UndoManager.cs:33-42 | after Do the manager is dirty, and savePos is kept or becomes -1 |
| Undo.DoThenUndo | Necrofy/Undo/UndoManager.cs:33-84 | undoing a pushed action gives back the undo stack, with that action alone on the redo stack |
| Undo.ForcedDirtyStays | Necrofy/Undo/UndoManager.cs:65-68 | after ForceDirty, savePos stays -1 through Do, UndoLast, RedoLast and UndoOrRedoUpTo, so the manager stays dirty until the next Clean |
| Undo.UpToMoves | Necrofy/Undo/UndoManager.cs:98-107 | an action on neither stack is the error; otherwise the total number of actions is preserved, merge is cleared, savePos is kept, and the action is the new top of the other stack with no copy of it moved before it |
| Undo.MovedAbove | Necrofy/Undo/UndoManager.cs:100-102 | the last action moved is the given one, and none moved before it is that action |
| Undo.UndoTimesIsUndoneTo | Necrofy/Undo/UndoManager.cs:79-84 | n single undos equal undoing down to position `count - n` |
| Undo.RedoTimesIsRedoneTo | Necrofy/Undo/UndoManager.cs:91-96 | n single redos equal redoing down to position `count - n` |
| TileActions.LastAt | Necrofy/Undo/TileAction.cs:25-27 | the last recorded index of a cell, or -1 when the cell is not recorded |
| TileActions.WriteCells | Necrofy/Undo/TileAction.cs:24-34 | each recorded cell gets the value of its last record, and every other cell is unchanged |
| TileActions.Untouched | Necrofy/Undo/TileAction.cs:24-34 | a cell outside the points is not changed |
| TileActions.WrittenAt | Necrofy/Undo/TileAction.cs:24-34 | with distinct points, cell `points[i]` gets value i |
| TileActions.RedoThenUndoRestores | Necrofy/Undo/TileAction.cs:20-34 | with distinct points whose recorded values are the cells' values, Redo then Undo leaves every cell as it was |
| TileActions.Filled | Necrofy/Undo/TileAction.cs:31-33 | the same tile for every point |
| TileActions.PaintTileAction.constructor | Necrofy/Undo/TileAction.cs:15-18 | one point, no recorded value yet |
| TileActions.PaintTileAction.AfterSetEditor | Necrofy/Undo/TileAction.cs:20-22 | records the first point's current cell, making points and values index-aligned. A point off the background is the IndexOutOfRangeException, and nothing is recorded |
| TileActions.PaintTileAction.Undo | Necrofy/Undo/TileAction.cs:24-28 | each point gets its recorded previous value; other cells are unchanged |
| TileActions.PaintTileAction.Redo | Necrofy/Undo/TileAction.cs:30-34 | each point gets the tile type; other cells are unchanged |
| TileActions.PaintTileAction.Merge | Necrofy/Undo/TileAction.cs:38-44 | the other action's point and value are appended only when the point is new, so points stay distinct and aligned with their values |
| TileActions.SelectedBeforeMembers | Necrofy/Undo/TileAction.cs:62-69 | the cells the scan has passed are exactly the selected in-bounds cells before it in row-major order |
| TileActions.SelectedBeforeOrdered | Necrofy/Undo/TileAction.cs:62-69 | the passed cells are in row-major order |
| TileActions.SelectedExactly | Necrofy/Undo/TileAction.cs:61-70 | the selection holds exactly the selected cells of the level, in row-major order, each once |
| TileActions.ValuesAt | Necrofy/Undo/TileAction.cs:66 | the background value of each point |
| TileActions.FindSelected | Necrofy/Undo/TileAction.cs:61-70 | the nested loop finds the selection and each cell's current value |
| TileActions.FillSelectionAction.constructor | Necrofy/Undo/TileAction.cs:57-59 | no points, no values, the given tile type |
| TileActions.FillSelectionAction.AfterSetEditor | Necrofy/Undo/TileAction.cs:61-70 | appends the selection in row-major order with each cell's current value |
| TileActions.FillSelectionAction.Undo | Necrofy/Undo/TileAction.cs:72-76 | each point gets its recorded previous value; other cells are unchanged |
| TileActions.FillSelectionAction.Redo | Necrofy/Undo/TileAction.cs:78-82 | each point gets the tile type; other cells are unchanged |
| TileActions.FillSelectionAction.Merge | Necrofy/Undo/TileAction.cs:86-88 | only the tile type is replaced; the points are kept |

## Left out

- File system work: `File.*` and `Directory.*`, the directory listing of the project files, and the directory creation in `GetFilename`. The project's files are given to `Project.Build` as (path, contents) pairs.
- `FindFilename` is left out, because it lists a directory.
- AssetPaths.Combine: models Path.Combine with one separator. Alternate separators, and rooted or drive-letter pieces that replace the directory, are not modelled.
- The compressed-asset cache is left out, because it depends on file modification times.
- The `ZAMNCompress` codec, the `asar` patch step of `Build`, and `Run` are left out: they are external programs.
- JSON serialisation of the sprites file and the settings is left out.
- Project creation, which copies and deletes files, is left out.
- Project.FinishImage: Floating point. `Math.Ceiling(Math.Log(length, 2)) - 10` is modelled as an integer ceiling log2. `Math.Ceiling(length / (double)BankSize)` is modelled as integer ceiling division. The model takes the two to agree for lengths below 2^29 bytes. Floating-point rounding of the logarithm is not modelled.
- The `ROMInfo` constructor is not part of this model, because its source is not shown. The build starts from a `ROMInfo` whose asset list it clears.
- The creators of the tileset, palette and level assets are parameters. Their `GetNameInfo`, `FromRom`, `AutoTrackFreespace`, defaults, `ReserveSpace` and `Insert` are not modelled; InsertAsset leaves such assets unwritten.
- RomInfo.ReserveAsset: takes the tileset, palette and level kinds to reserve nothing, because their `ReserveSpace` overrides are not part of this model.
- Some readers and writers are parameters, and their formats are not modelled:
  - `Monster`, `OneTimeMonster`, `Item`, `TitlePage`;
  - the level-monster kinds other than the tile animation;
  - `Sprite.WriteToROM` and `Sprite.AddFromROM`.
- `TilesetTilemapAsset.cs` is not part of this model. It only delegates to classes that are not shown and to the compression codec.
- UI code is left out:
  - the main window, the level editor, the object browser, the tile-select tool and the scroll wrapper;
  - the undo manager's drop-down menus, its 20-item cap, button enabling, and the `DirtyChanged` event.
- Undo.UndoManager.Do: an action's `Undo`, `Redo` and `Merge` are recorded as effects in a log. On tile actions they are modelled separately in `TileActions`. `SetEditor` is left out.
- Undo.UndoManager.Do: the action's concrete type is modelled as its `kind` field, and an action's identity as its `id`. An action is a value, so two actions with equal fields count as the same action where the source compares references (`Contains`, `==`).
- TileActions.PaintTileAction.AfterSetEditor: the background array and the selection are parameters. The model does not keep the editor reference of the source.
- Project.SortByCategory: .NET's `List.Sort` is unstable. The model is a stable insertion sort. Only the category order and the permutation are stated, and the order of equal-category assets is not claimed.
- Rom.NStream, Rom.Freespace and Movable.MovableData are the specifications described above, not models of shown code. Some details are not modelled:
  - how `Freespace` searches for a range. Claims keep within one bank and take the lowest fitting address (`Fits`, `Claim`), and nothing more of its internals is modelled;
  - `MovableData`'s placement of child blocks and its pointer encoding.
- DisplayNames.LastIndexOf: .NET's culture-sensitive string search is modelled as ordinal search.
- DisplayNames.IsDigit: `char.IsDigit` is modelled for ASCII digits only.
- After an exception, the state of the stream, the free space and the tables is left unspecified.
- Levels.ReadBackground: an out-of-range array index or stream position is an error result or a precondition.
- Project.InsertAll: states where the graphics bytes end up, not whether the sprite tables written before them survive later inserts.
- Project.GetRelativePath: the `Debug.Assert` of the prefix is not checked. Only the length is used, as `Substring` does.
- Project.LoadFile: uses the corrected FromFile of the Findings row. On a project file four or more segments deep, the source's FromFile throws a NullReferenceException and Build stops; the model skips the file (see LoadFileAsWritten and AsWrittenThrowsOnlyUnparsed).
- Project.Build: inherits LoadFile's corrected lookup, so it goes on past a project file four or more segments deep where the source throws.

## Findings

| source | as written | input that shows it | evidently intended | confidence | as-written member | corrected member |
|---|---|---|---|---|---|---|
| Necrofy/Assets/Asset.cs:81-102 | `FromFile` and `GetInfo` pass `ParsePath`'s null result for a path of four or more segments to every creator, and the graphics creator's `FromPath` dereferences it (NullReferenceException) | `Graphics/a/b/c.bin`, as Assets.DeepPathThrows states | a path that does not parse is not an asset: return null, as for a path no creator matches | not executed | Assets.InfoOfAsWritten | Assets.FromFile |

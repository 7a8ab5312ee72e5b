/** Assets: their names, the creators that recognise their files, the ROM-info
    tables that map names to pointers, and the helpers every asset kind uses to
    reserve space and to write itself into the image. Graphics and sprites are the
    two kinds modelled in full; the creators whose source is not part of this model
    are reached through a record of functions. */
module Assets {
  import opened Wrappers
  import opened Bytes
  import opened Rom
  import opened AssetPaths

  // --------------------------------------------------------------- name infos

  /** NameInfo and its subclasses. A name of a kind that is not modelled carries
      its category, its name and its path parts. */
  datatype NameInfo =
    | GraphicsName(name: string, pointer: Option<int>)
    | SpritesName
    | UnseenName(category: AssetCategory, unseenName: string, parts: PathParts)

  const GraphicsFolder: string := "Graphics"
  const GraphicsExtension: string := "bin"
  const SpritesFolder: string := "Tilemaps"
  const SpritesFileName: string := "Sprites"
  const SpritesExtension: string := "json"
  /** The name of the one graphics asset of a clean ROM. */
  const SpritesGraphicsName: string := "Sprites"

  /** The name an asset is referenced by; a sprites name is always "Sprites". */
  function Name(n: NameInfo): (r: string)
    ensures n.SpritesName? ==> r == SpritesFileName
    ensures n.GraphicsName? ==> r == n.name
  {
    match n
    case GraphicsName(name, _) => name
    case SpritesName => SpritesFileName
    case UnseenName(_, name, _) => name
  }

  /** The name shown in the project browser: the same as Name for both kinds. */
  function DisplayName(n: NameInfo): (r: string)
    ensures !n.UnseenName? ==> r == Name(n)
  {
    Name(n)
  }

  function Category(n: NameInfo): (r: AssetCategory)
    ensures n.GraphicsName? ==> r == Graphics
    ensures n.SpritesName? ==> r == Sprites
  {
    match n
    case GraphicsName(_, _) => Graphics
    case SpritesName => Sprites
    case UnseenName(c, _, _) => c
  }

  /** The parts of the file name an asset is written under. */
  function GetPathParts(n: NameInfo): PathParts
  {
    match n
    case GraphicsName(name, pointer) =>
      PathParts(Some(GraphicsFolder), None, name, Some(GraphicsExtension), pointer)
    case SpritesName =>
      PathParts(Some(SpritesFolder), None, SpritesFileName, Some(SpritesExtension), None)
    case UnseenName(_, _, parts) => parts
  }

  /** GraphicsNameInfo.FromPath: a file directly under Graphics with extension bin. */
  function GraphicsFromPath(parts: PathParts): (r: Option<NameInfo>)
    ensures r.Some? <==> parts.topFolder == Some(GraphicsFolder) && parts.subFolder.None? &&
                         parts.fileExtension == Some(GraphicsExtension)
    ensures r.Some? ==> r.value == GraphicsName(parts.name, parts.pointer)
  {
    if parts.topFolder != Some(GraphicsFolder) then None
    else if parts.subFolder.Some? then None
    else if parts.fileExtension != Some(GraphicsExtension) then None
    else Some(GraphicsName(parts.name, parts.pointer))
  }

  /** SpritesNameInfo.FromPath: exactly Tilemaps/Sprites.json, without a pointer. */
  function SpritesFromPath(parts: PathParts): (r: Option<NameInfo>)
    ensures r.Some? <==> parts == GetPathParts(SpritesName)
    ensures r.Some? ==> r.value == SpritesName
  {
    if parts.topFolder != Some(SpritesFolder) then None
    else if parts.subFolder.Some? then None
    else if parts.name != SpritesFileName then None
    else if parts.fileExtension != Some(SpritesExtension) then None
    else if parts.pointer.Some? then None
    else Some(SpritesName)
  }

  /** Graphics names and the path parts FromPath accepts are in one-to-one
      correspondence through GetPathParts. */
  lemma GraphicsPathCorrespondence(parts: PathParts, n: NameInfo)
    ensures GraphicsFromPath(parts) == Some(n) <==> n.GraphicsName? && GetPathParts(n) == parts
  {
  }

  /** The one sprites name is exactly the one the sprites creator accepts. */
  lemma SpritesPathCorrespondence(parts: PathParts, n: NameInfo)
    ensures SpritesFromPath(parts) == Some(n) <==> n.SpritesName? && GetPathParts(n) == parts
  {
  }

  // ----------------------------------------------------------------- creators

  /** The creators, one per asset kind. */
  datatype Creator =
    | GraphicsCreator | LevelCreator | PaletteCreator | SpritesCreator
    | TilesetCollisionCreator | TilesetGraphicsCreator | TilesetPaletteCreator
    | TilesetTilemapCreator

  /** Registration order: the static constructor of Asset registers them so. */
  const Creators: seq<Creator> := [
    GraphicsCreator, LevelCreator, PaletteCreator, SpritesCreator,
    TilesetCollisionCreator, TilesetGraphicsCreator, TilesetPaletteCreator,
    TilesetTilemapCreator]

  /** Information about an asset in a clean ROM. */
  datatype DefaultParams = DefaultParams(pointer: int, nameInfo: NameInfo, size: Option<nat>)

  /** An asset loaded from a project file or from the ROM: its name and its bytes
      (for sprites, the serialised sprite table). */
  datatype Asset = Asset(info: NameInfo, data: seq<byte>)

  /** What the model needs from code it does not show: the creators of the other
      asset kinds, the sprite table reader and writer, and the sprite-data offsets
      of ROMPointers. */
  datatype Collaborators = Collaborators(
    getNameInfo: (Creator, PathParts) -> Option<NameInfo>,
    nameInfoForName: (Creator, string) -> Option<NameInfo>,
    /** FromRom at an offset: the asset's bytes and how many bytes were consumed. */
    fromRom: (Creator, seq<byte>, nat) -> (seq<byte>, nat),
    autoTrack: Creator -> bool,
    defaults: Creator -> seq<DefaultParams>,
    /** Sprite.WriteToROM: from a starting index, the next index and the bytes
        written at the given offset. */
    writeSprites: (seq<byte>, nat, nat) -> (nat, seq<byte>),
    spriteData1: nat,
    spriteData2: nat)

  /** Creator.GetNameInfo. */
  function GetNameInfo(c: Creator, parts: PathParts, u: Collaborators): Option<NameInfo>
  {
    match c
    case GraphicsCreator => GraphicsFromPath(parts)
    case SpritesCreator => SpritesFromPath(parts)
    case _ => u.getNameInfo(c, parts)
  }

  /** Creator.GetNameInfoForName: graphics names carry no pointer; the sprites
      creator keeps the base implementation, which returns null. */
  function GetNameInfoForName(c: Creator, name: string, u: Collaborators): (r: Option<NameInfo>)
    ensures c == GraphicsCreator ==> r == Some(GraphicsName(name, None))
    ensures c == SpritesCreator ==> r == None
  {
    match c
    case GraphicsCreator => Some(GraphicsName(name, None))
    case SpritesCreator => None
    case _ => u.nameInfoForName(c, name)
  }

  /** Creator.AutoTrackFreespace: the sprites creator turns it off. */
  function AutoTrackFreespace(c: Creator, u: Collaborators): (r: bool)
    ensures c == SpritesCreator ==> !r
    ensures c == GraphicsCreator ==> r
  {
    match c
    case GraphicsCreator => true
    case SpritesCreator => false
    case _ => u.autoTrack(c)
  }

  /** Creator.GetDefaults. */
  function GetDefaults(c: Creator, u: Collaborators): seq<DefaultParams>
  {
    match c
    case GraphicsCreator =>
      [DefaultParams(0x20000, GraphicsName(SpritesGraphicsName, Some(0x20000)), Some(0x5D300))]
    case SpritesCreator => [DefaultParams(0, SpritesName, None)]
    case _ => u.defaults(c)
  }

  /** The clean ROM holds one graphics asset, 0x5D300 bytes at 0x20000, whose file
      is Graphics/Sprites@020000.bin and is recognised as it. */
  lemma GraphicsDefault(u: Collaborators)
    ensures var g := GetDefaults(GraphicsCreator, u);
      |g| == 1 && g[0].pointer == 0x20000 && g[0].size == Some(0x5D300) &&
      ToString(GetPathParts(g[0].nameInfo)) == "Graphics/Sprites@020000.bin" &&
      InfoOf("Graphics/Sprites@020000.bin", '/', u) == Some(g[0].nameInfo)
  {
    var n := GraphicsName(SpritesGraphicsName, Some(0x20000));
    GraphicsDefaultFile(n);
    GraphicsFileRecognised(n, '/', u);
  }

  lemma GraphicsDefaultFile(n: NameInfo)
    requires n == GraphicsName(SpritesGraphicsName, Some(0x20000))
    ensures ToString(GetPathParts(n)) == "Graphics/Sprites@020000.bin"
    ensures Invertible(GetPathParts(n), '/')
  {
    X6Of20000();
    GraphicsDefaultInvertible(n);
  }

  lemma GraphicsDefaultInvertible(n: NameInfo)
    requires n == GraphicsName(SpritesGraphicsName, Some(0x20000))
    ensures Invertible(GetPathParts(n), '/')
  {
    assert forall i :: 0 <= i < |SpritesGraphicsName| ==>
      SpritesGraphicsName[i] != '.' && SpritesGraphicsName[i] != '/' && SpritesGraphicsName[i] != '\n';
  }

  lemma X6Of20000()
    ensures FormatX6(0x20000) == "020000"
  {
    assert Digits(0x20000, 6) == "020000";
  }

  /** The clean ROM holds one sprites asset, at pointer 0 and without a size; its
      file is Tilemaps/Sprites.json. */
  lemma SpritesDefault(u: Collaborators)
    ensures var d := GetDefaults(SpritesCreator, u);
      |d| == 1 && d[0] == DefaultParams(0, SpritesName, None) &&
      ToString(GetPathParts(d[0].nameInfo)) == "Tilemaps/Sprites.json"
  {
  }

  // ------------------------------------------------------------ file dispatch

  /** The first creator, in order, that recognises the parts. */
  function FirstMatch(cs: seq<Creator>, parts: PathParts, u: Collaborators): (r: Option<nat>)
    ensures r.Some? ==> r.value < |cs| && GetNameInfo(cs[r.value], parts, u).Some? &&
                        forall j :: 0 <= j < r.value ==> GetNameInfo(cs[j], parts, u).None?
    ensures r.None? ==> forall j :: 0 <= j < |cs| ==> GetNameInfo(cs[j], parts, u).None?
  {
    if cs == [] then None
    else if GetNameInfo(cs[0], parts, u).Some? then Some(0)
    else match FirstMatch(cs[1..], parts, u)
      case None => None
      case Some(k) => Some(k + 1)
  }

  /** The first match is the index i when the creators before it say no and it says
      yes, and there is none when all of them say no. */
  lemma FirstMatchIs(cs: seq<Creator>, parts: PathParts, u: Collaborators, i: nat)
    requires i <= |cs| && forall j :: 0 <= j < i ==> GetNameInfo(cs[j], parts, u).None?
    ensures i < |cs| && GetNameInfo(cs[i], parts, u).Some? ==> FirstMatch(cs, parts, u) == Some(i)
    ensures i == |cs| ==> FirstMatch(cs, parts, u) == None
  {
  }

  /** The name GetInfo yields for a path; null when nothing recognises it, and (as it
      should be) null when ParsePath yields null. */
  function InfoOf(path: string, sep: char, u: Collaborators): Option<NameInfo>
  {
    match ParsePath(path, sep)
    case None => None
    case Some(parts) =>
      match FirstMatch(Creators, parts, u)
      case None => None
      case Some(k) => GetNameInfo(Creators[k], parts, u)
  }

  /** The creator loop shared by FromFile and GetInfo, with a null check on the
      parsed path. */
  method FindCreator(path: string, sep: char, u: Collaborators) returns (r: Option<(Creator, NameInfo)>)
    ensures r.Some? <==> InfoOf(path, sep, u).Some?
    ensures r.Some? ==> r.value.1 == InfoOf(path, sep, u).value &&
                        GetNameInfo(r.value.0, ParsePath(path, sep).value, u) == Some(r.value.1)
  {
    var parsed := ParsePath(path, sep);
    if parsed.None? {
      return None;
    }
    var parts := parsed.value;
    var i := 0;
    while i < |Creators|
      invariant 0 <= i <= |Creators|
      invariant forall j :: 0 <= j < i ==> GetNameInfo(Creators[j], parts, u).None?
    {
      var n := GetNameInfo(Creators[i], parts, u);
      if n.Some? {
        FirstMatchIs(Creators, parts, u, i);
        return Some((Creators[i], n.value));
      }
      i := i + 1;
    }
    FirstMatchIs(Creators, parts, u, i);
    return None;
  }

  /** Asset.GetInfo on a path relative to the project. */
  method GetInfo(path: string, sep: char, u: Collaborators) returns (r: Option<NameInfo>)
    ensures r == InfoOf(path, sep, u)
  {
    var found := FindCreator(path, sep, u);
    if found.Some? {
      r := Some(found.value.1);
    } else {
      r := None;
    }
  }

  /** Asset.FromFile: the recognised asset with the file's contents, or null. */
  method FromFile(path: string, sep: char, contents: seq<byte>, u: Collaborators) returns (r: Option<Asset>)
    ensures r.Some? <==> InfoOf(path, sep, u).Some?
    ensures r.Some? ==> r.value == Asset(InfoOf(path, sep, u).value, contents)
  {
    var found := FindCreator(path, sep, u);
    if found.Some? {
      r := Some(Asset(found.value.1, contents));
    } else {
      r := None;
    }
  }

  /** The first creator is the graphics one: a path whose parts it accepts is a
      graphics asset whatever the other creators do, and the file name of a graphics
      name is recognised as that name. */
  lemma GraphicsFileRecognised(n: NameInfo, sep: char, u: Collaborators)
    requires n.GraphicsName? && Invertible(GetPathParts(n), sep)
    ensures InfoOf(JoinPath(GetPathParts(n), sep), sep, u) == Some(n)
  {
    ParseJoinRoundTrip(GetPathParts(n), sep);
  }

  /** The sprites file is recognised as the sprites asset unless one of the two
      creators registered between the graphics and the sprites one claims it. */
  lemma SpritesFileRecognised(sep: char, u: Collaborators)
    requires IsSeparator(sep)
    requires forall j :: 1 <= j < 3 ==> u.getNameInfo(Creators[j], GetPathParts(SpritesName)).None?
    ensures InfoOf(JoinPath(GetPathParts(SpritesName), sep), sep, u) == Some(SpritesName)
  {
    var parts := GetPathParts(SpritesName);
    SpritesPathParses(sep);
    assert GetNameInfo(Creators[0], parts, u).None?;
    assert GetNameInfo(Creators[1], parts, u).None?;
    assert GetNameInfo(Creators[2], parts, u).None?;
    assert GetNameInfo(Creators[3], parts, u) == Some(SpritesName);
    var k := FirstMatch(Creators, parts, u);
    assert k == Some(3);
  }

  lemma SpritesPathParses(sep: char)
    requires IsSeparator(sep)
    ensures ParsePath(JoinPath(GetPathParts(SpritesName), sep), sep) == Some(GetPathParts(SpritesName))
  {
    assert PointerSuffix(SpritesFileName).None?;
    ParseJoinRoundTrip(GetPathParts(SpritesName), sep);
  }

  // ---- the creator loop as written, without the null check

  /** Creator.GetNameInfo on a possibly null PathParts: every creator reads a field
      of it first, so a null one is a NullReferenceException. */
  function GetNameInfoOrThrow(c: Creator, parts: Option<PathParts>, u: Collaborators): Result<Option<NameInfo>>
  {
    if parts.None? then Err(NullReference) else Ok(GetNameInfo(c, parts.value, u))
  }

  /** The loop of FromFile and GetInfo as written: it hands ParsePath's result to the
      creators without looking at it. */
  function FirstMatchAsWritten(cs: seq<Creator>, parts: Option<PathParts>, u: Collaborators): Result<Option<NameInfo>>
  {
    if cs == [] then Ok(None)
    else match GetNameInfoOrThrow(cs[0], parts, u)
      case Err(e) => Err(e)
      case Ok(Some(n)) => Ok(Some(n))
      case Ok(None) => FirstMatchAsWritten(cs[1..], parts, u)
  }

  function InfoOfAsWritten(path: string, sep: char, u: Collaborators): Result<Option<NameInfo>>
  {
    FirstMatchAsWritten(Creators, ParsePath(path, sep), u)
  }

  /** The two agree wherever ParsePath succeeds. */
  lemma AsWrittenAgreesOnShortPaths(path: string, sep: char, u: Collaborators)
    requires |Split(path, sep)| <= 3
    ensures InfoOfAsWritten(path, sep, u) == Ok(InfoOf(path, sep, u))
  {
    var parts := ParsePath(path, sep).value;
    FirstMatchAgrees(Creators, parts, u);
  }

  /** The loop as written throws exactly when ParsePath yields null, and otherwise
      gives the corrected lookup's name. */
  lemma AsWrittenThrowsOnlyUnparsed(path: string, sep: char, u: Collaborators)
    ensures InfoOfAsWritten(path, sep, u).Err? <==> ParsePath(path, sep).None?
    ensures InfoOfAsWritten(path, sep, u).Err? ==> InfoOfAsWritten(path, sep, u).error == NullReference
    ensures InfoOfAsWritten(path, sep, u).Ok? ==> InfoOfAsWritten(path, sep, u) == Ok(InfoOf(path, sep, u))
  {
    if ParsePath(path, sep).Some? {
      FirstMatchAgrees(Creators, ParsePath(path, sep).value, u);
    }
  }

  lemma {:induction false} FirstMatchAgrees(cs: seq<Creator>, parts: PathParts, u: Collaborators)
    ensures FirstMatchAsWritten(cs, Some(parts), u) ==
      Ok(match FirstMatch(cs, parts, u) case None => None case Some(k) => GetNameInfo(cs[k], parts, u))
  {
    if cs != [] && GetNameInfo(cs[0], parts, u).None? {
      FirstMatchAgrees(cs[1..], parts, u);
    }
  }

  /** A project file three folders deep makes the loop as written throw instead of
      skipping the file. */
  lemma DeepPathThrows(u: Collaborators)
    ensures InfoOfAsWritten("Graphics/a/b/c.bin", '/', u) == Err(NullReference)
    ensures InfoOf("Graphics/a/b/c.bin", '/', u) == None
  {
    DeepPathSplits();
    assert ParsePath("Graphics/a/b/c.bin", '/') == None;
  }

  lemma DeepPathSplits()
    ensures |Split("Graphics/a/b/c.bin", '/')| == 4
  {
    assert "Graphics/a/b/c.bin" == "Graphics" + ['/'] + ("a" + ['/'] + ("b" + ['/'] + "c.bin"));
    FourPieces("Graphics", "a", "b", "c.bin", '/');
  }

  lemma FourPieces(w: string, x: string, y: string, z: string, c: char)
    requires c !in w && c !in x && c !in y && c !in z
    ensures |Split(w + [c] + (x + [c] + (y + [c] + z)), c)| == 4
  {
    SplitNone(z, c);
    SplitCons(y, c, z);
    SplitCons(x, c, y + [c] + z);
    SplitCons(w, c, x + [c] + (y + [c] + z));
  }

  // ----------------------------------------------------------------- ordering

  /** Asset.CompareTo: by category only. */
  function CompareTo(a: Asset, b: Asset): (r: int)
    ensures r == 0 <==> Category(a.info) == Category(b.info)
    ensures r < 0 <==> Ordinal(Category(a.info)) < Ordinal(Category(b.info))
  {
    CompareCategories(Category(a.info), Category(b.info))
  }
}

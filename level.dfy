/** Level (Level/Level.cs): a level as read from the image by its read constructor
    and as rebuilt by Build. The level's bytes are seven 4-byte pointers, three
    2-byte pointers to object lists, ten header words, two 2-byte pointers to title
    pages, an optional 2-byte pointer to the bonus list and the level monsters up to
    a negative pointer; the background is a separate block of width x height words. */
module Levels {
  import opened Wrappers
  import opened Bytes
  import opened Rom
  import opened Movable
  import opened AssetPaths
  import opened Assets
  import opened RomInfo
  import opened TileAnim
  import opened LevelObjects
  import opened DisplayNames

  /** A title page; TitlePage's source is not part of this model. */
  datatype TitlePage = TitlePage(fields: seq<Word>)

  /** How the parts of a level whose classes are not shown read and write
      themselves. */
  datatype LevelFormats = LevelFormats(
    readMonster: Reader<Monster>,
    monsterWords: Monster -> seq<Word>,
    readOneTimeMonster: Reader<OneTimeMonster>,
    oneTimeMonsterWords: OneTimeMonster -> seq<Word>,
    readItem: Reader<Item>,
    itemWords: Item -> seq<Word>,
    /** new TitlePage(s) at an offset */
    readTitle: (seq<byte>, nat) -> Result<TitlePage>,
    /** TitlePage.ToString */
    titleText: TitlePage -> string,
    /** TitlePage.Build(index) */
    buildTitle: (TitlePage, nat) -> seq<Piece>,
    loadLevelMonster: Loader,
    buildLevelMonster: LevelMonster -> seq<Piece>)

  ghost predicate FormatsAdvance(f: LevelFormats)
  {
    Advances(f.readMonster) && Advances(f.readOneTimeMonster) && Advances(f.readItem) &&
    LoaderAdvances(f.loadLevelMonster)
  }

  /** Some levels hold monsters of a negative type; reading drops them. */
  function KeepMonster(m: Monster): bool
  {
    m.monsterType > -1
  }

  function KeepAny<T>(o: T): bool
  {
    true
  }

  /** The 4-byte pointer field at p. */
  function PointerAt(data: seq<byte>, p: nat): int
    requires p + 4 <= |data|
  {
    DecodePointer(WordAt(data, p), WordAt(data, p + 2))
  }

  // ------------------------------------------------------------------ header

  datatype Header = Header(
    width: Word, height: Word, tilePriorityEnd: Word, hiddenTilesStart: Word,
    p1startX: Word, p1startY: Word, p2startX: Word, p2startY: Word,
    music: Word, sounds: Word)

  /** The ten header words in the order Build writes them. */
  function HeaderWords(h: Header): (r: seq<Word>)
    ensures |r| == 10
  {
    [h.width, h.height, h.tilePriorityEnd, h.hiddenTilesStart,
     h.p1startX, h.p1startY, h.p2startX, h.p2startY, h.music, h.sounds]
  }

  /** The header as the read constructor reads it at p. */
  function HeaderAt(data: seq<byte>, p: nat): Result<Header>
  {
    if p + 20 > |data| then Err(EndOfStream)
    else Ok(Header(WordAt(data, p), WordAt(data, p + 2), WordAt(data, p + 4), WordAt(data, p + 6),
                   WordAt(data, p + 8), WordAt(data, p + 10), WordAt(data, p + 12), WordAt(data, p + 14),
                   WordAt(data, p + 16), WordAt(data, p + 18)))
  }

  /** The header words Build writes read back, wherever they are placed, as the
      same header: the fields are written in the order they are read. */
  lemma HeaderRoundTrip(pre: seq<byte>, h: Header, post: seq<byte>)
    ensures HeaderAt(pre + WordsToBytes(HeaderWords(h)) + post, |pre|) == Ok(h)
  {
    var ws := HeaderWords(h);
    WordAtInside(pre, ws, post, 0);
    WordAtInside(pre, ws, post, 1);
    WordAtInside(pre, ws, post, 2);
    WordAtInside(pre, ws, post, 3);
    WordAtInside(pre, ws, post, 4);
    WordAtInside(pre, ws, post, 5);
    WordAtInside(pre, ws, post, 6);
    WordAtInside(pre, ws, post, 7);
    WordAtInside(pre, ws, post, 8);
    WordAtInside(pre, ws, post, 9);
  }

  /** The ten ReadInt16 calls of the read constructor. */
  method ReadHeader(s: NStream) returns (r: Result<Header>)
    modifies s`pos
    ensures r == HeaderAt(s.data, old(s.pos))
    ensures r.Ok? ==> s.pos == old(s.pos) + 20
  {
    var width := s.ReadInt16();
    if width.Err? { return Err(width.error); }
    var height := s.ReadInt16();
    if height.Err? { return Err(height.error); }
    var tilePriorityEnd := s.ReadInt16();
    if tilePriorityEnd.Err? { return Err(tilePriorityEnd.error); }
    var hiddenTilesStart := s.ReadInt16();
    if hiddenTilesStart.Err? { return Err(hiddenTilesStart.error); }
    var p1startX := s.ReadInt16();
    if p1startX.Err? { return Err(p1startX.error); }
    var p1startY := s.ReadInt16();
    if p1startY.Err? { return Err(p1startY.error); }
    var p2startX := s.ReadInt16();
    if p2startX.Err? { return Err(p2startX.error); }
    var p2startY := s.ReadInt16();
    if p2startY.Err? { return Err(p2startY.error); }
    var music := s.ReadInt16();
    if music.Err? { return Err(music.error); }
    var sounds := s.ReadInt16();
    if sounds.Err? { return Err(sounds.error); }
    r := Ok(Header(width.value, height.value, tilePriorityEnd.value, hiddenTilesStart.value,
                   p1startX.value, p1startY.value, p2startX.value, p2startY.value,
                   music.value, sounds.value));
  }

  // ------------------------------------------------------- titles and bonuses

  /** The title page whose 2-byte pointer is at p. */
  function TitleAt(data: seq<byte>, p: nat, f: LevelFormats): Result<TitlePage>
  {
    if p + 2 > |data| then Err(EndOfStream)
    else f.readTitle(data, DecodeRelative(p, WordAt(data, p)))
  }

  method ReadTitle(s: NStream, f: LevelFormats) returns (r: Result<TitlePage>)
    modifies s`pos, s`stack
    ensures r == TitleAt(s.data, old(s.pos), f)
    ensures r.Ok? ==> s.pos == old(s.pos) + 2 && s.stack == old(s.stack)
  {
    var go := s.GoToRelativePointerPush();
    if go.Err? {
      return Err(go.error);
    }
    // the unseen TitlePage constructor reads at the cursor
    r := f.readTitle(s.data, s.pos);
    if r.Err? {
      return;
    }
    s.PopPosition();
  }

  /** The optional bonus list at p: read when the word there is non-zero, and the
      offset after it (after the pointer, or p itself when there is none). */
  function BonusesAt(data: seq<byte>, p: nat): (r: Result<(seq<Word>, nat)>)
    ensures r.Ok? ==> p + 2 <= |data| && r.value.1 == if WordAt(data, p) > 0 then p + 2 else p
  {
    ReadWordAdvances();
    if p + 2 > |data| then Err(EndOfStream)
    else if WordAt(data, p) > 0 then
      match ListAt(data, p, ReadWord, KeepAny)
      case Err(e) => Err(e)
      case Ok(bs) => Ok((bs, p + 2))
    else Ok(([], p))
  }

  method ReadBonuses(s: NStream) returns (r: Result<seq<Word>>)
    modifies s`pos, s`stack
    ensures var b := BonusesAt(s.data, old(s.pos));
      (r.Ok? <==> b.Ok?) && (r.Err? ==> r.error == b.error) &&
      (r.Ok? ==> r.value == b.value.0 && s.pos == b.value.1 && s.stack == old(s.stack))
  {
    var peek := s.PeekInt16();
    if peek.Err? {
      return Err(peek.error);
    }
    if peek.value > 0 {
      ReadWordAdvances();
      r := AddAllObjects(s, ReadWord, KeepAny);
    } else {
      r := Ok([]);
    }
  }

  // ------------------------------------------------------------------- body

  /** What the read constructor reads after the seven 4-byte pointers. */
  datatype Body = Body(
    monsters: seq<Monster>, oneTimeMonsters: seq<OneTimeMonster>, items: seq<Item>,
    header: Header, title1: TitlePage, title2: TitlePage,
    bonuses: seq<Word>, levelMonsters: seq<LevelMonster>)

  /** The body at p, and the offset where the level's block ends. */
  function BodyAt(data: seq<byte>, p: nat, f: LevelFormats): Result<(Body, nat)>
    requires FormatsAdvance(f)
  {
    match ListAt(data, p, f.readMonster, KeepMonster)
    case Err(e) => Err(e)
    case Ok(ms) =>
    match ListAt(data, p + 2, f.readOneTimeMonster, KeepAny)
    case Err(e) => Err(e)
    case Ok(os) =>
    match ListAt(data, p + 4, f.readItem, KeepAny)
    case Err(e) => Err(e)
    case Ok(its) =>
    match HeaderAt(data, p + 6)
    case Err(e) => Err(e)
    case Ok(h) =>
    match TitleAt(data, p + 26, f)
    case Err(e) => Err(e)
    case Ok(t1) =>
    match TitleAt(data, p + 28, f)
    case Err(e) => Err(e)
    case Ok(t2) =>
    match BonusesAt(data, p + 30)
    case Err(e) => Err(e)
    case Ok((bs, q)) =>
    match LevelMonstersAt(data, q, f.loadLevelMonster)
    case Err(e) => Err(e)
    case Ok((lms, end)) => Ok((Body(ms, os, its, h, t1, t2, bs, lms), end))
  }

  /** A body reader: the body at an offset of the image and the offset after it. */
  type BodyReader = nat -> Result<(Body, nat)>

  /** BodyAt on the image `data`, as a body reader. */
  function ReadBody(data: seq<byte>, f: LevelFormats): BodyReader
    requires FormatsAdvance(f)
  {
    (p: nat) => BodyAt(data, p, f)
  }

  /** `body` is BodyAt on the image `data`: it gives what BodyAt gives at every offset. */
  ghost predicate BodyReaderIs(body: BodyReader, data: seq<byte>, f: LevelFormats)
  {
    FormatsAdvance(f) && forall p: nat {:trigger BodyAt(data, p, f)} :: body(p) == BodyAt(data, p, f)
  }

  /** ReadBody is such a body reader. */
  lemma ReadBodyIs(data: seq<byte>, f: LevelFormats)
    requires FormatsAdvance(f)
    ensures BodyReaderIs(ReadBody(data, f), data, f)
  {
  }

  /** Every monster a body holds has a type above -1. */
  lemma BodyMonstersKept(data: seq<byte>, p: nat, f: LevelFormats)
    requires FormatsAdvance(f) && BodyAt(data, p, f).Ok?
    ensures forall i :: 0 <= i < |BodyAt(data, p, f).value.0.monsters| ==>
      BodyAt(data, p, f).value.0.monsters[i].monsterType > -1
  {
    ObjectsAreKept(data, DecodeRelative(p, WordAt(data, p)), f.readMonster, KeepMonster);
  }

  /** The body part of the read constructor. */
  method LoadBody(s: NStream, f: LevelFormats, ghost body: BodyReader) returns (r: Result<Body>)
    requires FormatsAdvance(f) && BodyReaderIs(body, s.data, f)
    modifies s`pos, s`stack
    ensures var b := body(old(s.pos));
      (r.Ok? <==> b.Ok?) && (r.Err? ==> r.error == b.error) &&
      (r.Ok? ==> r.value == b.value.0 && s.pos == b.value.1 && s.stack == old(s.stack))
  {
    assert body(s.pos) == BodyAt(s.data, s.pos, f);
    var ms := AddAllObjects(s, f.readMonster, KeepMonster);
    if ms.Err? { return Err(ms.error); }
    var os := AddAllObjects(s, f.readOneTimeMonster, KeepAny);
    if os.Err? { return Err(os.error); }
    var its := AddAllObjects(s, f.readItem, KeepAny);
    if its.Err? { return Err(its.error); }
    var h := ReadHeader(s);
    if h.Err? { return Err(h.error); }
    var t1 := ReadTitle(s, f);
    if t1.Err? { return Err(t1.error); }
    var t2 := ReadTitle(s, f);
    if t2.Err? { return Err(t2.error); }
    var bs := ReadBonuses(s);
    if bs.Err? { return Err(bs.error); }
    var lms := ReadLevelMonsters(s, f.loadLevelMonster);
    if lms.Err? { return Err(lms.error); }
    r := Ok(Body(ms.value, os.value, its.value, h.value, t1.value, t2.value, bs.value, lms.value));
  }

  // ------------------------------------------------------------- background

  /** Row y of the background, x ascending. */
  function Row(bg: array2<Word>, y: nat): (r: seq<Word>)
    requires y < bg.Length1
    reads bg
    ensures |r| == bg.Length0
    ensures forall x :: 0 <= x < bg.Length0 ==> r[x] == bg[x, y]
  {
    seq(bg.Length0, x requires 0 <= x < bg.Length0 reads bg => bg[x, y])
  }

  /** The first `rows` rows of the background in row-major order (y outer, x inner). */
  function RowMajor(bg: array2<Word>, rows: nat): (r: seq<Word>)
    requires rows <= bg.Length1
    reads bg
    ensures |r| == rows * bg.Length0
  {
    if rows == 0 then []
    else
      assert rows * bg.Length0 == (rows - 1) * bg.Length0 + bg.Length0;
      RowMajor(bg, rows - 1) + Row(bg, rows - 1)
  }

  /** Cell (x, y) is word y * width + x of the row-major order. */
  lemma {:induction false} RowMajorAt(bg: array2<Word>, rows: nat, x: nat, y: nat)
    requires y < rows <= bg.Length1 && x < bg.Length0
    ensures y * bg.Length0 + x < rows * bg.Length0
    ensures RowMajor(bg, rows)[y * bg.Length0 + x] == bg[x, y]
    decreases rows
  {
    var w := bg.Length0;
    assert rows * w == (rows - 1) * w + w;
    if y < rows - 1 {
      RowMajorAt(bg, rows - 1, x, y);
    } else {
      assert y * w == (rows - 1) * w;
    }
  }

  /** The byte offset of row y of a background w words wide, read from ptr. */
  function RowOffset(ptr: nat, w: nat, y: nat): (o: nat)
    ensures o >= ptr
  {
    if y == 0 then ptr else RowOffset(ptr, w, y - 1) + 2 * w
  }

  /** Row y starts ptr + 2 * (y * w) bytes in. */
  lemma {:induction false} RowOffsetIs(ptr: nat, w: nat, y: nat)
    ensures RowOffset(ptr, w, y) == ptr + 2 * (y * w)
  {
    if y > 0 {
      RowOffsetIs(ptr, w, y - 1);
      assert y * w == (y - 1) * w + w;
    }
  }

  /** Later rows start no earlier. */
  lemma {:induction false} RowOffsetMono(ptr: nat, w: nat, y: nat, h: nat)
    requires y <= h
    ensures RowOffset(ptr, w, y) <= RowOffset(ptr, w, h)
    decreases h - y
  {
    if y < h {
      RowOffsetMono(ptr, w, y + 1, h);
    }
  }

  /** Row y of the background holds the words at start, start + 2, ... */
  ghost predicate RowAt(bg: array2<Word>, data: seq<byte>, start: nat, y: nat)
    reads bg
  {
    forall x :: 0 <= x < bg.Length0 && y < bg.Length1 ==>
      start + 2 * x + 2 <= |data| && bg[x, y] == WordAt(data, start + 2 * x)
  }

  /** Rows 0 .. rows - 1 of the background hold the words at their row-major
      places in the block at ptr. */
  ghost predicate RowsAt(bg: array2<Word>, data: seq<byte>, ptr: nat, rows: nat)
    reads bg
  {
    forall y :: 0 <= y < rows ==> RowAt(bg, data, RowOffset(ptr, bg.Length0, y), y)
  }

  /** The whole background holds the block at ptr. */
  ghost predicate BackgroundAt(bg: array2<Word>, data: seq<byte>, ptr: int)
    reads bg
  {
    ptr >= 0 && RowsAt(bg, data, ptr, bg.Length1)
  }

  /** In a background read from ptr, cell (x, y) is word y * width + x of the block. */
  lemma BackgroundCell(bg: array2<Word>, data: seq<byte>, ptr: nat, x: nat, y: nat)
    requires BackgroundAt(bg, data, ptr) && x < bg.Length0 && y < bg.Length1
    ensures ptr + 2 * (y * bg.Length0 + x) + 2 <= |data|
    ensures bg[x, y] == WordAt(data, ptr + 2 * (y * bg.Length0 + x))
  {
    RowOffsetIs(ptr, bg.Length0, y);
    var start := RowOffset(ptr, bg.Length0, y);
    assert RowAt(bg, data, start, y);
    assert start + 2 * x == ptr + 2 * (y * bg.Length0 + x);
  }

  /** The inner loop of the background read: row y from the next width words;
      the other rows are left as they were. */
  method ReadRow(s: NStream, bg: array2<Word>, y: nat) returns (r: Result<()>)
    requires y < bg.Length1
    modifies s`pos, bg
    ensures r.Ok? <==> bg.Length0 == 0 || old(s.pos) + 2 * bg.Length0 <= |s.data|
    ensures r.Err? ==> r.error == EndOfStream
    ensures r.Ok? ==> s.pos == old(s.pos) + 2 * bg.Length0 && RowAt(bg, s.data, old(s.pos), y)
    ensures forall start: nat, y': nat :: y' != y && old(RowAt(bg, s.data, start, y')) ==> RowAt(bg, s.data, start, y')
  {
    var x := 0;
    while x < bg.Length0
      invariant 0 <= x <= bg.Length0 && s.pos == old(s.pos) + 2 * x
      invariant x > 0 ==> s.pos <= |s.data|
      invariant forall x' :: 0 <= x' < x ==>
        old(s.pos) + 2 * x' + 2 <= |s.data| && bg[x', y] == WordAt(s.data, old(s.pos) + 2 * x')
      invariant forall x', y' :: 0 <= x' < bg.Length0 && 0 <= y' < bg.Length1 && y' != y ==> bg[x', y'] == old(bg[x', y'])
    {
      var w := s.ReadInt16();
      if w.Err? {
        return Err(w.error);
      }
      bg[x, y] := w.value;
      x := x + 1;
    }
    forall start: nat, y': nat | y' != y && old(RowAt(bg, s.data, start, y'))
      ensures RowAt(bg, s.data, start, y')
    {
      forall x' | 0 <= x' < bg.Length0 && y' < bg.Length1
        ensures bg[x', y'] == old(bg[x', y'])
      {
      }
    }
    r := Ok(());
  }

  /** The outer loop of the background read: every row in turn from the cursor,
      which stands at the block's start ptr. */
  method ReadRows(s: NStream, bg: array2<Word>, ghost ptr: nat) returns (r: Result<()>)
    requires s.pos == ptr
    modifies s`pos, bg
    ensures r.Ok? <==> bg.Length0 == 0 || bg.Length1 == 0 || RowOffset(ptr, bg.Length0, bg.Length1) <= |s.data|
    ensures r.Err? ==> r.error == EndOfStream
    ensures r.Ok? ==> RowsAt(bg, s.data, ptr, bg.Length1)
  {
    var y := 0;
    while y < bg.Length1
      invariant 0 <= y <= bg.Length1
      invariant s.pos == RowOffset(ptr, bg.Length0, y)
      invariant y > 0 && bg.Length0 > 0 ==> s.pos <= |s.data|
      invariant RowsAt(bg, s.data, ptr, y)
    {
      var row := ReadRow(s, bg, y);
      if row.Err? {
        RowOffsetMono(ptr, bg.Length0, y + 1, bg.Length1);
        return Err(row.error);
      }
      y := y + 1;
    }
    r := Ok(());
  }

  /** The background's width x height words fit the image from ptr on. */
  predicate BackgroundFits(data: seq<byte>, ptr: int, width: Word, height: Word)
  {
    ptr >= 0 && (width * height == 0 || ptr + 2 * (width * height) <= |data|)
  }

  /** The background part of the read constructor: width x height words read row
      by row at ptr, whose bytes are then marked free. */
  method ReadBackground(s: NStream, fs: Freespace, ptr: int, width: Word, height: Word) returns (r: Result<array2<Word>>)
    requires fs.Valid()
    modifies s`pos, fs
    ensures fs.Valid()
    ensures r.Ok? <==> BackgroundFits(s.data, ptr, width, height)
    ensures r.Err? ==> r.error == if ptr < 0 then NegativeSeek else EndOfStream
    ensures r.Ok? ==>
      fresh(r.value) && r.value.Length0 == width && r.value.Length1 == height &&
      BackgroundAt(r.value, s.data, ptr) && fs.free == old(fs.free) + Range(ptr, width * height * 2)
  {
    var bg := new Word[width, height];
    var seek := s.Seek(ptr);
    if seek.Err? {
      return Err(seek.error);
    }
    var rows := ReadRows(s, bg, ptr);
    RowOffsetIs(ptr, width, height);
    assert height * width == width * height;
    assert width * height == 0 <==> width == 0 || height == 0;
    if rows.Err? {
      return Err(rows.error);
    }
    fs.AddSize(ptr, width * height * 2);
    r := Ok(bg);
  }

  /** The inner loop of the background build: row y as 16-bit words. */
  method BuildRow(bg: array2<Word>, y: nat, d: MovableData)
    requires y < bg.Length1
    modifies d
    ensures d.pieces == old(d.pieces) + Words(Row(bg, y))
  {
    ghost var row := Row(bg, y);
    var x := 0;
    while x < bg.Length0
      invariant 0 <= x <= bg.Length0
      invariant d.pieces == old(d.pieces) + Words(row[..x])
    {
      d.AddInt16(bg[x, y]);
      assert row[..x + 1] == row[..x] + [bg[x, y]];
      WordsAppend(row[..x], [bg[x, y]]);
      x := x + 1;
    }
    assert row[..x] == row;
  }

  /** The background block of Build: every cell as a 16-bit word, row by row. */
  method BuildBackground(bg: array2<Word>) returns (d: MovableData)
    ensures fresh(d) && d.pieces == Words(RowMajor(bg, bg.Length1))
  {
    d := new MovableData();
    var y := 0;
    while y < bg.Length1
      invariant 0 <= y <= bg.Length1 && fresh(d)
      invariant d.pieces == Words(RowMajor(bg, y))
    {
      BuildRow(bg, y, d);
      WordsAppend(RowMajor(bg, y), Row(bg, y));
      y := y + 1;
    }
  }

  /** Round trip: the background block Build emits, placed at ptr, reads back cell
      by cell as the same background. */
  lemma BackgroundRoundTrip(bg: array2<Word>, pre: seq<byte>, post: seq<byte>, x: nat, y: nat)
    requires x < bg.Length0 && y < bg.Length1
    ensures var data := pre + WordsToBytes(RowMajor(bg, bg.Length1)) + post;
      |pre| + 2 * (y * bg.Length0 + x) + 2 <= |data| &&
      WordAt(data, |pre| + 2 * (y * bg.Length0 + x)) == bg[x, y]
  {
    RowMajorAt(bg, bg.Length1, x, y);
    WordAtInside(pre, RowMajor(bg, bg.Length1), post, y * bg.Length0 + x);
  }

  // ------------------------------------------------------------- asset names

  /** The names of the five assets a level refers to. */
  datatype AssetNames = AssetNames(
    tilemap: string, collision: string, graphics: string, palette: string, spritePalette: string)

  /** One TilesetXAsset.GetAssetName(s, r, s.ReadPointer()) on the tables: the 4-byte
      pointer at `at`, resolved by GetAssetName. */
  function NameAt(t: Tables, data: seq<byte>, at: nat, c: (Creator, AssetCategory), u: Collaborators)
    : Result<(string, Tables)>
  {
    if at + 4 > |data| then Err(EndOfStream) else NameOf(t, data, PointerAt(data, at), c.0, c.1, u)
  }

  /** A lookup: the name given to the pointer at an offset for a creator and a
      category, with the tables it leaves. */
  type Lookup = (Tables, nat, (Creator, AssetCategory)) -> Result<(string, Tables)>

  /** NameAt on the image `data`, as a lookup. */
  function ReadName(data: seq<byte>, u: Collaborators): Lookup
  {
    (t: Tables, at: nat, c: (Creator, AssetCategory)) => NameAt(t, data, at, c, u)
  }

  /** `look` is NameAt on the image `data`: it gives what NameAt gives for every
      tables, offset, creator and category. */
  ghost predicate LookupIs(look: Lookup, data: seq<byte>, u: Collaborators)
  {
    forall t: Tables, at: nat, c: (Creator, AssetCategory) {:trigger NameAt(t, data, at, c, u)} ::
      look(t, at, c) == NameAt(t, data, at, c, u)
  }

  /** ReadName is such a lookup. */
  lemma ReadNameIs(data: seq<byte>, u: Collaborators)
    ensures LookupIs(ReadName(data, u), data, u)
  {
  }

  /** Every pointer of the run is inside the image and its name resolvable on the
      tables t. */
  ghost predicate AllResolvable(t: Tables, data: seq<byte>, at: nat, cs: seq<(Creator, AssetCategory)>, u: Collaborators)
  {
    forall k :: 0 <= k < |cs| ==>
      at + 4 * k + 4 <= |data| && Resolvable(t, PointerAt(data, at + 4 * k), cs[k].0, cs[k].1, u)
  }

  /** A resolvable name stays resolvable as the tables grow. */
  lemma ResolvableGrows(t: Tables, t': Tables, pointer: int, c: Creator, category: AssetCategory, u: Collaborators)
    requires -0x8000_0000 <= pointer < 0x8000_0000
    requires Grows(t, t') && Resolvable(t, pointer, c, category, u)
    ensures Resolvable(t', pointer, c, category, u)
  {
  }

  lemma AllResolvableGrows(t: Tables, t': Tables, data: seq<byte>, at: nat, cs: seq<(Creator, AssetCategory)>,
                           u: Collaborators)
    requires Grows(t, t') && AllResolvable(t, data, at, cs, u)
    ensures AllResolvable(t', data, at, cs, u)
  {
    forall k | 0 <= k < |cs| ensures Resolvable(t', PointerAt(data, at + 4 * k), cs[k].0, cs[k].1, u) {
      ResolvableGrows(t, t', PointerAt(data, at + 4 * k), cs[k].0, cs[k].1, u);
    }
  }

  /** What a lookup on the image `data` promises when it succeeds: its pointer was
      inside the image and recorded or non-negative, and the tables have only
      grown. */
  ghost predicate LookupReads(look: Lookup, data: seq<byte>)
  {
    forall t: Tables, at: nat, c: (Creator, AssetCategory) {:trigger look(t, at, c)} :: look(t, at, c).Ok? ==>
      at + 4 <= |data| &&
      ((c.1, PointerAt(data, at)) in t.names || PointerAt(data, at) >= 0) &&
      Grows(t, look(t, at, c).value.1)
  }

  /** A lookup on the image `data` succeeds on every resolvable name. */
  ghost predicate LookupResolves(look: Lookup, data: seq<byte>, u: Collaborators)
  {
    forall t: Tables, at: nat, c: (Creator, AssetCategory) {:trigger look(t, at, c)} ::
      at + 4 <= |data| && Resolvable(t, PointerAt(data, at), c.0, c.1, u) ==> look(t, at, c).Ok?
  }

  /** ReadAssetName, as a lookup, keeps both promises. */
  lemma ReadNameLooksUp(look: Lookup, data: seq<byte>, u: Collaborators)
    requires LookupIs(look, data, u)
    ensures LookupReads(look, data) && LookupResolves(look, data, u)
  {
    forall t: Tables, at: nat, c: (Creator, AssetCategory)
      ensures (look(t, at, c).Ok? ==>
                at + 4 <= |data| &&
                ((c.1, PointerAt(data, at)) in t.names || PointerAt(data, at) >= 0) &&
                Grows(t, look(t, at, c).value.1)) &&
              (at + 4 <= |data| && Resolvable(t, PointerAt(data, at), c.0, c.1, u) ==> look(t, at, c).Ok?)
    {
      assert look(t, at, c) == NameAt(t, data, at, c, u);
      if at + 4 <= |data| {
        NameOfCases(t, data, PointerAt(data, at), c.0, c.1, u);
      }
    }
  }

  /** One lookup of a resolvable name inside the image succeeds and grows the
      tables. */
  lemma ResolvesStep(look: Lookup, data: seq<byte>, u: Collaborators, t: Tables, at: nat, c: (Creator, AssetCategory))
    requires LookupReads(look, data) && LookupResolves(look, data, u)
    requires at + 4 <= |data| && Resolvable(t, PointerAt(data, at), c.0, c.1, u)
    ensures look(t, at, c).Ok? && Grows(t, look(t, at, c).value.1)
  {
  }

  lemma GrowsTransitive(t: Tables, t': Tables, t'': Tables)
    requires Grows(t, t') && Grows(t', t'')
    ensures Grows(t, t'')
  {
  }

  /** One TilesetXAsset.GetAssetName(s, r, s.ReadPointer()) of the read constructor:
      the 4-byte pointer at the cursor, resolved to a name through the memo of names
      already taken from the image. */
  method ReadAssetName(s: NStream, info: ROMInfo, c: Creator, category: AssetCategory, u: Collaborators,
                       ghost look: Lookup)
    returns (r: Result<string>)
    requires info.Valid() && LookupIs(look, s.data, u)
    modifies s`pos, s`stack, info`assets, info`names, info.freespace
    ensures info.Valid()
    ensures old(s.pos) + 4 > |s.data| ==> r == Err(EndOfStream)
    ensures r.Ok? ==>
      old(s.pos) + 4 <= |s.data| && s.pos == old(s.pos) + 4 && s.stack == old(s.stack) &&
      old(info.freespace.free) <= info.freespace.free &&
      var p := PointerAt(s.data, old(s.pos));
      ((category, p) in old(info.names) ==> r.value == old(info.names)[(category, p)] && info.names == old(info.names)) &&
      ((category, p) !in old(info.names) ==> |info.assets| == |old(info.assets)| + 1)
    ensures var e := look(old(TablesOf(info)), old(s.pos), (c, category));
      (r.Ok? <==> e.Ok?) && (r.Err? ==> r.error == e.error) &&
      (r.Ok? ==> r.value == e.value.0 && TablesOf(info) == e.value.1)
  {
    assert look(TablesOf(info), s.pos, (c, category)) == NameAt(TablesOf(info), s.data, s.pos, (c, category), u);
    var p := s.ReadPointer();
    if p.Err? {
      return Err(p.error);
    }
    r := GetAssetName(s, info, p.value, c, category, u);
  }

  /** What the read constructor takes from the seven 4-byte pointers. */
  datatype Head = Head(names: AssetNames, backgroundPtr: int, paletteAnimationPtr: int)

  /** The creators and categories of the third to sixth pointers. */
  const TilesetLookups: seq<(Creator, AssetCategory)> :=
    [(TilesetCollisionCreator, Collision), (TilesetGraphicsCreator, Graphics),
     (TilesetPaletteCreator, Palette), (PaletteCreator, Palette)]

  /** The third to seventh pointers at `at` on the tables: four names, each looked
      up on the tables the one before left, then the palette-animation pointer; the
      first error stops the rest. */
  function TilesetNamesAt(t: Tables, data: seq<byte>, at: nat, look: Lookup)
    : (r: Result<((string, string, string, string, int), Tables)>)
  {
    match look(t, at, TilesetLookups[0])
    case Err(e) => Err(e)
    case Ok((collision, t1)) =>
      match look(t1, at + 4, TilesetLookups[1])
      case Err(e) => Err(e)
      case Ok((graphics, t2)) =>
        match look(t2, at + 8, TilesetLookups[2])
        case Err(e) => Err(e)
        case Ok((palette, t3)) =>
          match look(t3, at + 12, TilesetLookups[3])
          case Err(e) => Err(e)
          case Ok((spritePalette, t4)) =>
            if at + 20 > |data| then Err(EndOfStream)
            else Ok(((collision, graphics, palette, spritePalette, PointerAt(data, at + 16)), t4))
  }

  /** The seven pointers at `at` on the tables: the tilemap name, the background
      pointer, the four tileset names and the palette-animation pointer. */
  function HeadAt(t: Tables, data: seq<byte>, at: nat, look: Lookup): (r: Result<(Head, Tables)>)
  {
    match look(t, at, (TilesetTilemapCreator, Tilemap))
    case Err(e) => Err(e)
    case Ok((tilemap, t1)) =>
      if at + 8 > |data| then Err(EndOfStream)
      else
        match TilesetNamesAt(t1, data, at + 8, look)
        case Err(e) => Err(e)
        case Ok(((collision, graphics, palette, spritePalette, animation), t2)) =>
          Ok((Head(AssetNames(tilemap, collision, graphics, palette, spritePalette), PointerAt(data, at + 4), animation), t2))
  }

  /** A tileset-names reader: the four names and the palette-animation pointer at an
      offset of the image, read on some tables. */
  type NamesReader = (Tables, nat) -> Result<((string, string, string, string, int), Tables)>

  /** TilesetNamesAt on the image `data`, as a tileset-names reader. */
  function ReadTilesetNames(data: seq<byte>, look: Lookup): NamesReader
  {
    (t: Tables, at: nat) => TilesetNamesAt(t, data, at, look)
  }

  /** `names` is TilesetNamesAt on the image `data`. */
  ghost predicate NamesReaderIs(names: NamesReader, data: seq<byte>, look: Lookup)
  {
    forall t: Tables, at: nat {:trigger TilesetNamesAt(t, data, at, look)} :: names(t, at) == TilesetNamesAt(t, data, at, look)
  }

  /** ReadTilesetNames is such a reader. */
  lemma ReadTilesetNamesIs(data: seq<byte>, look: Lookup)
    ensures NamesReaderIs(ReadTilesetNames(data, look), data, look)
  {
  }

  /** A head reader: the head at an offset of the image, read on some tables. */
  type HeadReader = (Tables, nat) -> Result<(Head, Tables)>

  /** HeadAt on the image `data`, as a head reader. */
  function ReadHead(data: seq<byte>, look: Lookup): HeadReader
  {
    (t: Tables, at: nat) => HeadAt(t, data, at, look)
  }

  /** `head` is HeadAt on the image `data`: it gives what HeadAt gives for every
      tables and offset. */
  ghost predicate HeadReaderIs(head: HeadReader, data: seq<byte>, look: Lookup)
  {
    forall t: Tables, at: nat {:trigger HeadAt(t, data, at, look)} :: head(t, at) == HeadAt(t, data, at, look)
  }

  /** ReadHead is such a head reader. */
  lemma ReadHeadIs(data: seq<byte>, look: Lookup)
    ensures HeadReaderIs(ReadHead(data, look), data, look)
  {
  }

  /** The four tileset names read when their pointers are inside the image and
      resolvable on the tables they start from. */
  lemma TilesetNamesAtResolves(t: Tables, data: seq<byte>, at: nat, look: Lookup, u: Collaborators)
    requires LookupReads(look, data) && LookupResolves(look, data, u)
    requires at + 20 <= |data| && AllResolvable(t, data, at, TilesetLookups, u)
    ensures TilesetNamesAt(t, data, at, look).Ok?
  {
    var cs := TilesetLookups;
    assert Resolvable(t, PointerAt(data, at + 4 * 0), cs[0].0, cs[0].1, u);
    ResolvesStep(look, data, u, t, at, cs[0]);
    var t1 := look(t, at, cs[0]).value.1;
    AllResolvableGrows(t, t1, data, at, cs, u);
    assert Resolvable(t1, PointerAt(data, at + 4 * 1), cs[1].0, cs[1].1, u);
    ResolvesStep(look, data, u, t1, at + 4, cs[1]);
    var t2 := look(t1, at + 4, cs[1]).value.1;
    AllResolvableGrows(t1, t2, data, at, cs, u);
    assert Resolvable(t2, PointerAt(data, at + 4 * 2), cs[2].0, cs[2].1, u);
    ResolvesStep(look, data, u, t2, at + 8, cs[2]);
    var t3 := look(t2, at + 8, cs[2]).value.1;
    AllResolvableGrows(t2, t3, data, at, cs, u);
    assert Resolvable(t3, PointerAt(data, at + 4 * 3), cs[3].0, cs[3].1, u);
    ResolvesStep(look, data, u, t3, at + 12, cs[3]);
  }

  /** The head reads when the seven pointers are inside the image and the five names
      are resolvable on the tables it starts from. */
  lemma HeadAtResolves(t: Tables, data: seq<byte>, at: nat, look: Lookup, u: Collaborators)
    requires LookupReads(look, data) && LookupResolves(look, data, u)
    requires at + 28 <= |data| && Resolvable(t, PointerAt(data, at), TilesetTilemapCreator, Tilemap, u)
    requires AllResolvable(t, data, at + 8, TilesetLookups, u)
    ensures HeadAt(t, data, at, look).Ok?
  {
    ResolvesStep(look, data, u, t, at, (TilesetTilemapCreator, Tilemap));
    var t1 := look(t, at, (TilesetTilemapCreator, Tilemap)).value.1;
    AllResolvableGrows(t, t1, data, at + 8, TilesetLookups, u);
    TilesetNamesAtResolves(t1, data, at + 8, look, u);
  }

  /** When the four tileset names read, their pointers were inside the image and the
      tables have only grown. */
  lemma TilesetNamesAtReads(t: Tables, data: seq<byte>, at: nat, look: Lookup)
    requires LookupReads(look, data) && TilesetNamesAt(t, data, at, look).Ok?
    ensures at + 20 <= |data| && Grows(t, TilesetNamesAt(t, data, at, look).value.1)
  {
    var cs := TilesetLookups;
    var t1 := look(t, at, cs[0]).value.1;
    var t2 := look(t1, at + 4, cs[1]).value.1;
    var t3 := look(t2, at + 8, cs[2]).value.1;
    GrowsTransitive(t, t1, t2);
    GrowsTransitive(t, t2, t3);
    GrowsTransitive(t, t3, look(t3, at + 12, cs[3]).value.1);
  }

  /** When the head reads, the seven pointers are inside the image, the tables have
      only grown, and the two plain pointers are the ones stored. */
  lemma HeadAtReads(t: Tables, data: seq<byte>, at: nat, look: Lookup)
    requires LookupReads(look, data) && HeadAt(t, data, at, look).Ok?
    ensures at + 28 <= |data| && Grows(t, HeadAt(t, data, at, look).value.1)
    ensures HeadAt(t, data, at, look).value.0.backgroundPtr == PointerAt(data, at + 4)
    ensures HeadAt(t, data, at, look).value.0.paletteAnimationPtr == PointerAt(data, at + 24)
  {
    var t1 := look(t, at, (TilesetTilemapCreator, Tilemap)).value.1;
    TilesetNamesAtReads(t1, data, at + 8, look);
    GrowsTransitive(t, t1, HeadAt(t, data, at, look).value.1);
  }

  /** The seven 4-byte pointers: tilemap, background, collision, graphics, palette,
      sprite palette and palette animation. */
  method LoadHead(s: NStream, info: ROMInfo, u: Collaborators, ghost look: Lookup, ghost head: HeadReader,
                  ghost t0: Tables, ghost d0: seq<byte>, ghost p0: nat)
    returns (r: Result<Head>)
    requires info.Valid() && LookupIs(look, s.data, u) && HeadReaderIs(head, s.data, look)
    requires t0 == TablesOf(info) && d0 == s.data && p0 == s.pos
    modifies s`pos, s`stack, info`assets, info`names, info.freespace
    ensures info.Valid()
    ensures r.Ok? ==>
      old(s.pos) + 28 <= |s.data| && s.pos == old(s.pos) + 28 && s.stack == old(s.stack) &&
      old(info.freespace.free) <= info.freespace.free &&
      r.value.backgroundPtr == PointerAt(s.data, old(s.pos) + 4) &&
      r.value.paletteAnimationPtr == PointerAt(s.data, old(s.pos) + 24) &&
      ((Tilemap, PointerAt(s.data, old(s.pos))) in old(info.names) ==>
        r.value.names.tilemap == old(info.names)[(Tilemap, PointerAt(s.data, old(s.pos)))])
    ensures var e := head(t0, p0);
      (r.Ok? <==> e.Ok?) && (r.Err? ==> r.error == e.error) &&
      (r.Ok? ==> r.value == e.value.0 && TablesOf(info) == e.value.1)
  {
    assert head(t0, p0) == HeadAt(t0, d0, p0, look);
    var tilemap := ReadAssetName(s, info, TilesetTilemapCreator, Tilemap, u, look);
    if tilemap.Err? { return Err(tilemap.error); }
    var backgroundPtr := s.ReadPointer();
    if backgroundPtr.Err? { return Err(backgroundPtr.error); }
    ReadTilesetNamesIs(s.data, look);
    var rest := LoadTilesetNames(s, info, u, look, ReadTilesetNames(s.data, look), TablesOf(info), s.data, s.pos);
    if rest.Err? { return Err(rest.error); }
    var (collision, graphics, palette, spritePalette, paletteAnimationPtr) := rest.value;
    r := Ok(Head(AssetNames(tilemap.value, collision, graphics, palette, spritePalette),
                 backgroundPtr.value, paletteAnimationPtr));
  }

  /** The third to seventh 4-byte pointers: the collision, graphics, palette and
      sprite-palette names, then the palette-animation pointer. */
  method LoadTilesetNames(s: NStream, info: ROMInfo, u: Collaborators, ghost look: Lookup,
                          ghost names: NamesReader, ghost t0: Tables, ghost d0: seq<byte>, ghost p0: nat)
    returns (r: Result<(string, string, string, string, int)>)
    requires info.Valid() && LookupIs(look, s.data, u) && NamesReaderIs(names, s.data, look)
    requires t0 == TablesOf(info) && d0 == s.data && p0 == s.pos
    modifies s`pos, s`stack, info`assets, info`names, info.freespace
    ensures info.Valid()
    ensures r.Ok? ==>
      old(s.pos) + 20 <= |s.data| && s.pos == old(s.pos) + 20 && s.stack == old(s.stack) &&
      old(info.freespace.free) <= info.freespace.free &&
      r.value.4 == PointerAt(s.data, old(s.pos) + 16)
    ensures var e := names(t0, p0);
      (r.Ok? <==> e.Ok?) && (r.Err? ==> r.error == e.error) &&
      (r.Ok? ==> r.value == e.value.0 && TablesOf(info) == e.value.1)
  {
    ghost var e := TilesetNamesAt(t0, d0, p0, look);
    assert names(t0, p0) == e;
    var collision := ReadAssetName(s, info, TilesetCollisionCreator, Collision, u, look);
    if collision.Err? {
      assert e == Err(collision.error);
      return Err(collision.error);
    }
    ghost var t1 := TablesOf(info);
    assert look(t0, p0, TilesetLookups[0]) == Ok((collision.value, t1));
    var graphics := ReadAssetName(s, info, TilesetGraphicsCreator, Graphics, u, look);
    if graphics.Err? {
      assert e == Err(graphics.error);
      return Err(graphics.error);
    }
    ghost var t2 := TablesOf(info);
    assert look(t1, p0 + 4, TilesetLookups[1]) == Ok((graphics.value, t2));
    var palette := ReadAssetName(s, info, TilesetPaletteCreator, Palette, u, look);
    if palette.Err? {
      assert e == Err(palette.error);
      return Err(palette.error);
    }
    ghost var t3 := TablesOf(info);
    assert look(t2, p0 + 8, TilesetLookups[2]) == Ok((palette.value, t3));
    var spritePalette := ReadAssetName(s, info, PaletteCreator, Palette, u, look);
    if spritePalette.Err? {
      assert e == Err(spritePalette.error);
      return Err(spritePalette.error);
    }
    ghost var t4 := TablesOf(info);
    assert look(t3, p0 + 12, TilesetLookups[3]) == Ok((spritePalette.value, t4));
    var paletteAnimationPtr := s.ReadPointer();
    if paletteAnimationPtr.Err? {
      assert e == Err(EndOfStream);
      return Err(paletteAnimationPtr.error);
    }
    r := Ok((collision.value, graphics.value, palette.value, spritePalette.value, paletteAnimationPtr.value));
    assert e == Ok((r.value, t4));
  }

  /** The part of the read constructor whose bytes are tracked as one block: the
      seven pointers and the body, from StartBlock to EndBlock. */
  method LoadBlock(info: ROMInfo, s: NStream, f: LevelFormats, u: Collaborators, ghost look: Lookup,
                   ghost head: HeadReader, ghost body: BodyReader)
    returns (r: Result<(Head, Body)>)
    requires info.Valid() && FormatsAdvance(f) && LookupIs(look, s.data, u)
    requires HeadReaderIs(head, s.data, look) && BodyReaderIs(body, s.data, f)
    modifies s`pos, s`stack, s`blockStart, info`assets, info`names, info.freespace
    ensures info.Valid()
    ensures r.Ok? ==>
      old(s.pos) + 28 <= |s.data| && body(old(s.pos) + 28).Ok? &&
      r.value.1 == body(old(s.pos) + 28).value.0 &&
      r.value.0.backgroundPtr == PointerAt(s.data, old(s.pos) + 4) &&
      r.value.0.paletteAnimationPtr == PointerAt(s.data, old(s.pos) + 24) &&
      old(info.freespace.free) + Range(old(s.pos), body(old(s.pos) + 28).value.1 - old(s.pos))
        <= info.freespace.free
    ensures var h := head(old(TablesOf(info)), old(s.pos));
      (r.Ok? <==> h.Ok? && body(old(s.pos) + 28).Ok?) &&
      (r.Err? ==> r.error == if h.Err? then h.error else body(old(s.pos) + 28).error) &&
      (r.Ok? ==>
        r.value.0 == h.value.0 && info.assets == h.value.1.assets && info.names == h.value.1.names &&
        info.freespace.free ==
          h.value.1.free + Range(old(s.pos), body(old(s.pos) + 28).value.1 - old(s.pos)))
  {
    ghost var t0, d0, p0 := TablesOf(info), s.data, s.pos;
    s.StartBlock();
    var h := LoadHead(s, info, u, look, head, t0, d0, p0);
    if h.Err? { return Err(h.error); }
    ghost var t1 := TablesOf(info);
    var b := LoadBody(s, f, body);
    if b.Err? { return Err(b.error); }
    s.EndBlock(info.freespace);
    assert s.data == d0 && s.blockStart == p0 && s.pos == body(p0 + 28).value.1;
    assert info.freespace.free == t1.free + Range(p0, s.pos - p0);
    r := Ok((h.value, b.value));
  }

  /** ROMInfo.GetAssetPointer over several (category, name) keys, in order: all the
      pointers, or the error of the first name that has none. */
  function PointersOf(rom: ROMInfo, keys: seq<(AssetCategory, string)>): (r: Result<seq<int>>)
    reads rom
    ensures r.Ok? <==> forall i :: 0 <= i < |keys| ==> keys[i] in rom.pointers
    ensures r.Ok? ==> |r.value| == |keys| && forall i :: 0 <= i < |keys| ==> r.value[i] == rom.pointers[keys[i]]
    ensures r.Err? ==> exists i :: (0 <= i < |keys| && keys[i] !in rom.pointers &&
      (forall j :: 0 <= j < i ==> keys[j] in rom.pointers) &&
      r.error == UnresolvedName(Ordinal(keys[i].0), keys[i].1))
  {
    if keys == [] then Ok([])
    else
      match rom.GetAssetPointer(keys[0].0, keys[0].1)
      case Err(e) => Err(e)
      case Ok(p) =>
        match PointersOf(rom, keys[1..])
        case Err(e) => assert forall i :: 0 <= i < |keys| - 1 ==> keys[1..][i] == keys[i + 1]; Err(e)
        case Ok(ps) => Ok([p] + ps)
  }

  // ------------------------------------------------------ palette animation

  /** The palette-animation field Build writes: the pointer when it is positive,
      otherwise two zero words. */
  function PaletteAnimationPieces(ptr: int): seq<Piece>
  {
    if ptr > 0 then [Pointer(ptr)] else [Int16(0), Int16(0)]
  }

  /** The two words the field holds once its pointer is written out as a 4-byte
      pointer. */
  function PaletteAnimationField(ptr: int): (Word, Word)
    requires ptr < 0x1_0000 * BankSize
  {
    if ptr > 0 then EncodePointer(ptr) else (0, 0)
  }

  /** Reading the field back gives the pointer when it is positive and the value of
      a zero field otherwise, and a rebuild writes the field the same way again. */
  lemma PaletteAnimationRoundTrip(ptr: int)
    requires ptr < 0x1_0000 * BankSize
    ensures var (addr, bank) := PaletteAnimationField(ptr);
      var back := DecodePointer(addr, bank);
      (ptr > 0 ==> back == ptr) && (ptr <= 0 ==> back == -0x8000) &&
      PaletteAnimationPieces(back) == PaletteAnimationPieces(ptr)
  {
  }

  // ------------------------------------------------------------- the level

  /** How the game sees a level-monster-list entry: a level object exactly when it
      has a position (the tile animation has none). */
  predicate IsLevelObject(m: LevelMonster)
  {
    m.OtherLevelMonster? && m.position.Some?
  }

  /** The indices of the level monsters that are level objects, ascending. */
  function PositionedIndices(lms: seq<LevelMonster>): (r: seq<nat>)
    ensures forall k :: 0 <= k < |r| ==> r[k] < |lms| && IsLevelObject(lms[r[k]])
    ensures forall k, k' :: 0 <= k < k' < |r| ==> r[k] < r[k']
  {
    if lms == [] then []
    else
      var rest := PositionedIndices(lms[..|lms| - 1]);
      assert forall j :: 0 <= j < |lms| - 1 ==> lms[..|lms| - 1][j] == lms[j];
      if IsLevelObject(lms[|lms| - 1]) then rest + [|lms| - 1] else rest
  }

  /** Every level monster that is a level object is among PositionedIndices. */
  lemma {:induction false} PositionedIndicesComplete(lms: seq<LevelMonster>)
    ensures forall j :: 0 <= j < |lms| && IsLevelObject(lms[j]) ==> j in PositionedIndices(lms)
  {
    if lms != [] {
      var init := lms[..|lms| - 1];
      PositionedIndicesComplete(init);
      forall j | 0 <= j < |lms| && IsLevelObject(lms[j]) ensures j in PositionedIndices(lms) {
        if j < |lms| - 1 {
          assert init[j] == lms[j];
        }
      }
    }
  }

  /** One of the objects GetAllObjects yields: an index into one of the lists, or a
      player start. */
  datatype ObjectRef =
    | MonsterRef(index: nat) | OneTimeMonsterRef(index: nat) | ItemRef(index: nat)
    | LevelMonsterRef(index: nat) | Player1 | Player2

  /** Entry k of the references to n1 monsters, n2 one-time monsters, n3 items, the
      level monsters at the indices lo and the two players, taken one after another. */
  function RefIn(n1: nat, n2: nat, n3: nat, lo: seq<nat>, k: nat): ObjectRef
  {
    if k < n1 then MonsterRef(k)
    else if k < n1 + n2 then OneTimeMonsterRef(k - n1)
    else if k < n1 + n2 + n3 then ItemRef(k - (n1 + n2))
    else if k < n1 + n2 + n3 + |lo| then LevelMonsterRef(lo[k - (n1 + n2 + n3)])
    else if k == n1 + n2 + n3 + |lo| then Player1
    else Player2
  }

  function Refs(n1: nat, n2: nat, n3: nat, lo: seq<nat>): seq<ObjectRef>
  {
    seq(n1 + n2 + n3 + |lo| + 2, k requires 0 <= k => RefIn(n1, n2, n3, lo, k))
  }

  /** The references come list by list: n1 monsters, n2 one-time monsters, n3
      items, the level monsters at the indices lo, then player 1 and player 2. */
  ghost predicate RefsInOrder(r: seq<ObjectRef>, n1: nat, n2: nat, n3: nat, lo: seq<nat>)
  {
    var n := n1 + n2 + n3;
    |r| == n + |lo| + 2 &&
    (forall i :: 0 <= i < n1 ==> r[i] == MonsterRef(i)) &&
    (forall i :: 0 <= i < n2 ==> r[n1 + i] == OneTimeMonsterRef(i)) &&
    (forall i :: 0 <= i < n3 ==> r[n1 + n2 + i] == ItemRef(i)) &&
    (forall k :: 0 <= k < |lo| ==> r[n + k] == LevelMonsterRef(lo[k])) &&
    r[n + |lo|] == Player1 && r[n + |lo| + 1] == Player2
  }

  lemma RefsOrder(n1: nat, n2: nat, n3: nat, lo: seq<nat>)
    ensures RefsInOrder(Refs(n1, n2, n3, lo), n1, n2, n3, lo)
  {
    var r := Refs(n1, n2, n3, lo);
    var n := n1 + n2 + n3;
    forall i | 0 <= i < n1 ensures r[i] == MonsterRef(i) {
      assert r[i] == RefIn(n1, n2, n3, lo, i);
    }
    forall i | 0 <= i < n2 ensures r[n1 + i] == OneTimeMonsterRef(i) {
      assert r[n1 + i] == RefIn(n1, n2, n3, lo, n1 + i);
    }
    forall i | 0 <= i < n3 ensures r[n1 + n2 + i] == ItemRef(i) {
      assert r[n1 + n2 + i] == RefIn(n1, n2, n3, lo, n1 + n2 + i);
    }
    forall k | 0 <= k < |lo| ensures r[n + k] == LevelMonsterRef(lo[k]) {
      assert r[n + k] == RefIn(n1, n2, n3, lo, n + k);
    }
    assert r[n + |lo|] == RefIn(n1, n2, n3, lo, n + |lo|);
    assert r[n + |lo| + 1] == RefIn(n1, n2, n3, lo, n + |lo| + 1);
  }

  class Level {
    var displayName: string
    var background: array2<Word>
    var tilesetTilemapName: string
    var tilesetCollisionName: string
    var tilesetGraphicsName: string
    var paletteName: string
    var spritePaletteName: string
    var paletteAnimationPtr: int
    var music: Word
    var sounds: Word
    var tilePriorityEnd: Word
    var hiddenTilesStart: Word
    var p1startX: Word
    var p1startY: Word
    var p2startX: Word
    var p2startY: Word
    var monsters: seq<Monster>
    var oneTimeMonsters: seq<OneTimeMonster>
    var items: seq<Item>
    var bonuses: seq<Word>
    var levelMonsters: seq<LevelMonster>
    var title1: TitlePage
    var title2: TitlePage

    /** The level from its parts; the header's width and height are the
        background's. */
    constructor (names: AssetNames, bg: array2<Word>, paletteAnimationPtr: int, b: Body, displayName: string)
      ensures this.displayName == displayName && background == bg
      ensures tilesetTilemapName == names.tilemap && tilesetCollisionName == names.collision &&
        tilesetGraphicsName == names.graphics && paletteName == names.palette &&
        spritePaletteName == names.spritePalette && this.paletteAnimationPtr == paletteAnimationPtr
      ensures music == b.header.music && sounds == b.header.sounds &&
        tilePriorityEnd == b.header.tilePriorityEnd && hiddenTilesStart == b.header.hiddenTilesStart &&
        p1startX == b.header.p1startX && p1startY == b.header.p1startY &&
        p2startX == b.header.p2startX && p2startY == b.header.p2startY
      ensures monsters == b.monsters && oneTimeMonsters == b.oneTimeMonsters && items == b.items &&
        bonuses == b.bonuses && levelMonsters == b.levelMonsters && title1 == b.title1 && title2 == b.title2
    {
      this.displayName := displayName;
      background := bg;
      tilesetTilemapName, tilesetCollisionName, tilesetGraphicsName := names.tilemap, names.collision, names.graphics;
      paletteName, spritePaletteName := names.palette, names.spritePalette;
      this.paletteAnimationPtr := paletteAnimationPtr;
      music, sounds := b.header.music, b.header.sounds;
      tilePriorityEnd, hiddenTilesStart := b.header.tilePriorityEnd, b.header.hiddenTilesStart;
      p1startX, p1startY, p2startX, p2startY := b.header.p1startX, b.header.p1startY, b.header.p2startX, b.header.p2startY;
      monsters, oneTimeMonsters, items := b.monsters, b.oneTimeMonsters, b.items;
      bonuses, levelMonsters := b.bonuses, b.levelMonsters;
      title1, title2 := b.title1, b.title2;
    }

    /** The level's lists, titles and header fields are those of a body, and its
        background has the body's width and height. */
    ghost predicate Holds(b: Body)
      reads this, background
    {
      monsters == b.monsters && oneTimeMonsters == b.oneTimeMonsters && items == b.items &&
      bonuses == b.bonuses && levelMonsters == b.levelMonsters && title1 == b.title1 && title2 == b.title2 &&
      music == b.header.music && sounds == b.header.sounds &&
      tilePriorityEnd == b.header.tilePriorityEnd && hiddenTilesStart == b.header.hiddenTilesStart &&
      p1startX == b.header.p1startX && p1startY == b.header.p1startY &&
      p2startX == b.header.p2startX && p2startY == b.header.p2startY &&
      background.Length0 == b.header.width && background.Length1 == b.header.height
    }

    /** The five asset names the level refers to. */
    function Names(): AssetNames
      reads this
    {
      AssetNames(tilesetTilemapName, tilesetCollisionName, tilesetGraphicsName, paletteName, spritePaletteName)
    }

    /** The level holds what the read constructor reads from the level at p0 and
        the background its pointer leads to. */
    ghost predicate LoadedFrom(data: seq<byte>, p0: nat, f: LevelFormats)
      requires FormatsAdvance(f)
      reads this, background
    {
      p0 + 28 <= |data| && BodyAt(data, p0 + 28, f).Ok? &&
      var b := BodyAt(data, p0 + 28, f).value.0;
      Holds(b) &&
      BackgroundAt(background, data, PointerAt(data, p0 + 4)) &&
      paletteAnimationPtr == PointerAt(data, p0 + 24) &&
      displayName == DisplayNames.DisplayName(f.titleText(b.title1), f.titleText(b.title2))
    }

    /** The read constructor Level(r, s): the level at the cursor. The bytes from
        the level's start to the end of its level-monster list, and the background's
        width x height words, are marked free. */
    static method Load(info: ROMInfo, s: NStream, f: LevelFormats, u: Collaborators, ghost look: Lookup,
                       ghost head: HeadReader, ghost body: BodyReader)
      returns (r: Result<Level>)
      requires info.Valid() && FormatsAdvance(f) && LookupIs(look, s.data, u)
      requires HeadReaderIs(head, s.data, look) && BodyReaderIs(body, s.data, f)
      modifies s`pos, s`stack, s`blockStart, info`assets, info`names, info.freespace
      ensures info.Valid()
      ensures r.Ok? ==>
        fresh(r.value) && fresh(r.value.background) && r.value.LoadedFrom(s.data, old(s.pos), f) &&
        old(info.freespace.free) +
          Range(old(s.pos), body(old(s.pos) + 28).value.1 - old(s.pos)) +
          Range(PointerAt(s.data, old(s.pos) + 4), r.value.background.Length0 * r.value.background.Length1 * 2)
        <= info.freespace.free
      ensures var h := head(old(TablesOf(info)), old(s.pos));
        var b := body(old(s.pos) + 28);
        (r.Ok? <==>
          (h.Ok? && b.Ok? &&
           BackgroundFits(s.data, h.value.0.backgroundPtr, b.value.0.header.width, b.value.0.header.height))) &&
        (r.Err? ==>
          r.error == if h.Err? then h.error else if b.Err? then b.error
                     else if h.value.0.backgroundPtr < 0 then NegativeSeek else EndOfStream) &&
        (r.Ok? ==>
          r.value.Names() == h.value.0.names &&
          info.assets == h.value.1.assets && info.names == h.value.1.names &&
          info.freespace.free == h.value.1.free + Range(old(s.pos), b.value.1 - old(s.pos)) +
            Range(h.value.0.backgroundPtr, b.value.0.header.width * b.value.0.header.height * 2))
    {
      var block := LoadBlock(info, s, f, u, look, head, body);
      if block.Err? { return Err(block.error); }
      var (hd, b) := block.value;
      var bg := ReadBackground(s, info.freespace, hd.backgroundPtr, b.header.width, b.header.height);
      if bg.Err? { return Err(bg.error); }
      var level := new Level(hd.names, bg.value, hd.paletteAnimationPtr, b,
                             DisplayNames.DisplayName(f.titleText(b.title1), f.titleText(b.title2)));
      assert level.Holds(b);
      r := Ok(level);
    }

    /** The header Build writes: the background's size cut to 16 bits, as the
        (ushort) casts do, then the stored fields. */
    function HeaderOf(): (h: Header)
      reads this, background
    {
      Header(background.Length0 % 0x1_0000, background.Length1 % 0x1_0000, tilePriorityEnd, hiddenTilesStart,
             p1startX, p1startY, p2startX, p2startY, music, sounds)
    }

    /** A level that holds a body writes back that body's header: the 16-bit casts
        of the background's size lose nothing. */
    lemma HeaderRebuilds(b: Body)
      requires Holds(b)
      ensures HeaderOf() == b.header
    {
    }

    /** The five asset keys, in the order Build looks up their pointers. */
    function AssetKeys(): (r: seq<(AssetCategory, string)>)
      reads this
    {
      [(Tilemap, tilesetTilemapName), (Collision, tilesetCollisionName), (Graphics, tilesetGraphicsName),
       (Palette, paletteName), (Palette, spritePaletteName)]
    }

    /** The pieces Build appends, in order: the tilemap pointer, a 4-byte pointer to
        the background block, the collision, graphics, palette and sprite-palette
        pointers, the palette-animation field, 2-byte pointers to the three object
        lists, the header words, 2-byte pointers to the two title pages and to the
        bonus list, the level monsters and two zero words. */
    function Pieces(ptrs: seq<int>, f: LevelFormats): (r: seq<Piece>)
      requires |ptrs| == 5
      reads this, background
    {
      HeadPieces(ptrs) + ListPieces(f) + TailPieces(f)
    }

    function HeadPieces(ptrs: seq<int>): (r: seq<Piece>)
      requires |ptrs| == 5
      reads this, background
    {
      [Pointer(ptrs[0]), Child(FourBytes, Words(RowMajor(background, background.Length1))),
       Pointer(ptrs[1]), Pointer(ptrs[2]), Pointer(ptrs[3]), Pointer(ptrs[4])] +
      PaletteAnimationPieces(paletteAnimationPtr)
    }

    function ListPieces(f: LevelFormats): (r: seq<Piece>)
      reads this, background
    {
      ObjectListsPieces(monsters, oneTimeMonsters, items, HeaderOf(), f)
    }

    function TailPieces(f: LevelFormats): (r: seq<Piece>)
      reads this
    {
      [Child(TwoBytes, f.buildTitle(title1, 0)), Child(TwoBytes, f.buildTitle(title2, 1)),
       Child(TwoBytes, Words(ListWords(bonuses, BonusWords)))] +
      LevelMonstersPieces(levelMonsters, f.buildLevelMonster) + [Int16(0), Int16(0)]
    }

    /** Level.Build(rom): the level's data with every asset name resolved to the
        pointer the build gave it; a name without one stops the build. */
    method Build(rom: ROMInfo, f: LevelFormats) returns (r: Result<MovableData>)
      ensures r.Ok? <==> PointersOf(rom, AssetKeys()).Ok?
      ensures r.Err? ==> r == Err(PointersOf(rom, AssetKeys()).error)
      ensures r.Ok? ==> fresh(r.value) && r.value.pieces == Pieces(PointersOf(rom, AssetKeys()).value, f)
    {
      var ptrs := PointersOf(rom, AssetKeys());
      if ptrs.Err? {
        return Err(ptrs.error);
      }
      ghost var head, lists, tail := HeadPieces(ptrs.value), ListPieces(f), TailPieces(f);
      var data := new MovableData();
      BuildHead(ptrs.value, data);
      assert data.pieces == head;
      BuildLists(f, data);
      assert data.pieces == head + lists;
      BuildTail(f, data);
      assert data.pieces == head + lists + tail;
      r := Ok(data);
    }

    /** The pointers of Build up to the palette-animation field. */
    method BuildHead(ptrs: seq<int>, data: MovableData)
      requires |ptrs| == 5
      modifies data
      ensures data.pieces == old(data.pieces) + HeadPieces(ptrs)
    {
      BuildPointers(ptrs, data);
      BuildPaletteAnimation(data);
    }

    /** The tileset-tilemap pointer, the background block and the four asset
        pointers after it. */
    method BuildPointers(ptrs: seq<int>, data: MovableData)
      requires |ptrs| == 5
      modifies data
      ensures data.pieces == old(data.pieces) +
        [Pointer(ptrs[0]), Child(FourBytes, Words(RowMajor(background, background.Length1))),
         Pointer(ptrs[1]), Pointer(ptrs[2]), Pointer(ptrs[3]), Pointer(ptrs[4])]
    {
      ghost var start := data.pieces;
      data.AddPointer(ptrs[0]);
      AddBackgroundBlock(data);
      data.AddPointer(ptrs[1]);
      data.AddPointer(ptrs[2]);
      data.AddPointer(ptrs[3]);
      data.AddPointer(ptrs[4]);
      SixThen(start, Pointer(ptrs[0]), Child(FourBytes, Words(RowMajor(background, background.Length1))),
              Pointer(ptrs[1]), Pointer(ptrs[2]), Pointer(ptrs[3]), Pointer(ptrs[4]), []);
    }

    /** The background block: its words row by row behind a 4-byte pointer. */
    method AddBackgroundBlock(data: MovableData)
      modifies data
      ensures data.pieces == old(data.pieces) + [Child(FourBytes, Words(RowMajor(background, background.Length1)))]
    {
      var backgroundData := BuildBackground(background);
      data.AddBlock(FourBytes, backgroundData);
    }

    /** The palette-animation field: its pointer when positive, two zero words
        otherwise. */
    method BuildPaletteAnimation(data: MovableData)
      modifies data
      ensures data.pieces == old(data.pieces) + PaletteAnimationPieces(paletteAnimationPtr)
    {
      if paletteAnimationPtr > 0 {
        data.AddPointer(paletteAnimationPtr);
      } else {
        data.AddInt16(0);
        data.AddInt16(0);
      }
    }

    /** The three object lists and the header of Build. */
    method BuildLists(f: LevelFormats, data: MovableData)
      modifies data
      ensures data.pieces == old(data.pieces) + ListPieces(f)
    {
      BuildObjectLists(monsters, oneTimeMonsters, items, HeaderOf(), f, data);
    }

    /** The titles, bonuses and level monsters of Build. */
    method BuildTail(f: LevelFormats, data: MovableData)
      modifies data
      ensures data.pieces == old(data.pieces) + TailPieces(f)
    {
      ghost var start := data.pieces;
      AddTitles(f, data);
      BuildAll(bonuses, data, BonusWords);
      ghost var mid := data.pieces;
      BuildLevelMonsters(levelMonsters, data, f.buildLevelMonster);
      assert data.pieces == mid + (LevelMonstersPieces(levelMonsters, f.buildLevelMonster) + [Int16(0), Int16(0)]);
    }

    /** The two title pages, each behind a 2-byte pointer. */
    method AddTitles(f: LevelFormats, data: MovableData)
      modifies data
      ensures data.pieces == old(data.pieces) + [Child(TwoBytes, f.buildTitle(title1, 0)), Child(TwoBytes, f.buildTitle(title2, 1))]
    {
      var t1 := new MovableData();
      t1.pieces := f.buildTitle(title1, 0);
      data.AddBlock(TwoBytes, t1);
      var t2 := new MovableData();
      t2.pieces := f.buildTitle(title2, 1);
      data.AddBlock(TwoBytes, t2);
    }

    /** The objects GetAllObjects yields, in order: monsters, one-time monsters,
        items, the level monsters that are level objects, player 1, player 2. */
    function AllObjects(): (r: seq<ObjectRef>)
      reads this
    {
      Refs(|monsters|, |oneTimeMonsters|, |items|, PositionedIndices(levelMonsters))
    }

    /** GetAllObjects yields the monsters, one-time monsters, items, the level
        monsters that are level objects, player 1 and player 2, in that order. */
    lemma AllObjectsOrder()
      ensures RefsInOrder(AllObjects(), |monsters|, |oneTimeMonsters|, |items|, PositionedIndices(levelMonsters))
    {
      RefsOrder(|monsters|, |oneTimeMonsters|, |items|, PositionedIndices(levelMonsters));
    }

    /** The object a reference names exists. */
    predicate Refers(o: ObjectRef)
      reads this
    {
      match o
      case MonsterRef(i) => i < |monsters|
      case OneTimeMonsterRef(i) => i < |oneTimeMonsters|
      case ItemRef(i) => i < |items|
      case LevelMonsterRef(i) => i < |levelMonsters| && IsLevelObject(levelMonsters[i])
      case Player1 => true
      case Player2 => true
    }

    /** Every object GetAllObjects yields exists. */
    lemma AllObjectsRefer()
      ensures forall k :: 0 <= k < |AllObjects()| ==> Refers(AllObjects()[k])
    {
      var r := AllObjects();
      var lo := PositionedIndices(levelMonsters);
      forall k | 0 <= k < |r|
        ensures Refers(r[k])
      {
        assert r[k] == RefIn(|monsters|, |oneTimeMonsters|, |items|, lo, k);
        RefInRefers(k, lo);
      }
    }

    lemma RefInRefers(k: nat, lo: seq<nat>)
      requires lo == PositionedIndices(levelMonsters)
      requires k < |monsters| + |oneTimeMonsters| + |items| + |lo| + 2
      ensures Refers(RefIn(|monsters|, |oneTimeMonsters|, |items|, lo, k))
    {
    }

    /** An object's position (LevelObject.x and y). */
    function Position(o: ObjectRef): (Word, Word)
      requires Refers(o)
      reads this
    {
      match o
      case MonsterRef(i) => (monsters[i].x, monsters[i].y)
      case OneTimeMonsterRef(i) => (oneTimeMonsters[i].x, oneTimeMonsters[i].y)
      case ItemRef(i) => (items[i].x, items[i].y)
      case LevelMonsterRef(i) => levelMonsters[i].position.value
      case Player1 => (p1startX, p1startY)
      case Player2 => (p2startX, p2startY)
    }

    /** The x setter of a player-start object writes the level's own field. */
    method SetPlayerX(o: ObjectRef, x: Word)
      requires o.Player1? || o.Player2?
      modifies this`p1startX, this`p2startX
      ensures Position(o) == (x, old(Position(o)).1)
      ensures o.Player1? ==> p2startX == old(p2startX)
      ensures o.Player2? ==> p1startX == old(p1startX)
    {
      if o.Player1? {
        p1startX := x;
      } else {
        p2startX := x;
      }
    }

    /** The y setter of a player-start object writes the level's own field. */
    method SetPlayerY(o: ObjectRef, y: Word)
      requires o.Player1? || o.Player2?
      modifies this`p1startY, this`p2startY
      ensures Position(o) == (old(Position(o)).0, y)
      ensures o.Player1? ==> p2startY == old(p2startY)
      ensures o.Player2? ==> p1startY == old(p1startY)
    {
      if o.Player1? {
        p1startY := y;
      } else {
        p2startY := y;
      }
    }
  }

  /** The object-list pointers and the header words of Build. */
  function ObjectListsPieces(ms: seq<Monster>, os: seq<OneTimeMonster>, its: seq<Item>, h: Header,
                             f: LevelFormats): seq<Piece>
  {
    [Child(TwoBytes, Words(ListWords(ms, f.monsterWords))),
     Child(TwoBytes, Words(ListWords(os, f.oneTimeMonsterWords))),
     Child(TwoBytes, Words(ListWords(its, f.itemWords)))] +
    Words(HeaderWords(h))
  }

  method BuildObjectLists(ms: seq<Monster>, os: seq<OneTimeMonster>, its: seq<Item>, h: Header,
                          f: LevelFormats, data: MovableData)
    modifies data
    ensures data.pieces == old(data.pieces) + ObjectListsPieces(ms, os, its, h, f)
  {
    ghost var start := data.pieces;
    BuildAll(ms, data, f.monsterWords);
    BuildAll(os, data, f.oneTimeMonsterWords);
    BuildAll(its, data, f.itemWords);
    BuildHeader(h, data);
    ThreeThen(start, Child(TwoBytes, Words(ListWords(ms, f.monsterWords))),
              Child(TwoBytes, Words(ListWords(os, f.oneTimeMonsterWords))),
              Child(TwoBytes, Words(ListWords(its, f.itemWords))), Words(HeaderWords(h)));
  }

  /** Appending six pieces and then a sequence appends them together. */
  lemma SixThen(a: seq<Piece>, p: Piece, q: Piece, x: Piece, y: Piece, z: Piece, v: Piece, w: seq<Piece>)
    ensures a + [p] + [q] + [x] + [y] + [z] + [v] + w == a + ([p, q, x, y, z, v] + w)
  {
  }

  /** Appending three pieces and then a sequence appends them together. */
  lemma ThreeThen(a: seq<Piece>, x: Piece, y: Piece, z: Piece, w: seq<Piece>)
    ensures a + [x] + [y] + [z] + w == a + ([x, y, z] + w)
  {
  }

  /** The ten AddInt16 calls of Build for the header, written here as one call per
      header word in the order HeaderWords lists them. */
  method BuildHeader(h: Header, data: MovableData)
    modifies data
    ensures data.pieces == old(data.pieces) + Words(HeaderWords(h))
  {
    var ws := HeaderWords(h);
    var k := 0;
    while k < |ws|
      invariant 0 <= k <= |ws|
      invariant data.pieces == old(data.pieces) + Words(ws[..k])
    {
      data.AddInt16(ws[k]);
      assert ws[..k + 1] == ws[..k] + [ws[k]];
      WordsAppend(ws[..k], [ws[k]]);
      k := k + 1;
    }
    assert ws[..k] == ws;
  }
}

/** TileAnimLevelMonster (Level/TileAnimLevelMonster.cs): the level monster that
    animates background tiles. Its data is a table of 2-byte pointers, one per
    entry and ending in a zero word; each entry is a list of tile words closed by
    0xFFFF (loop) or 0xFFFE (stop). */
module TileAnim {
  import opened Wrappers
  import opened Bytes
  import opened Rom
  import opened Movable

  /** TileAnimLevelMonster.Type: the level-monster type pointer of this kind. */
  const TileAnimType: int := 0x157CF
  /** Closes an entry that loops. */
  const LoopEnd: Word := 0xFFFF
  /** Closes an entry that stops; every word below it is a tile. */
  const StopEnd: Word := 0xFFFE

  datatype Entry = Entry(tiles: seq<Word>, loop: bool)

  datatype TileAnimMonster = TileAnimMonster(entries: seq<Entry>)

  // ------------------------------------------------------------- one entry

  /** The entry at p and the offset just past its terminator. Reading runs to the
      first word >= 0xFFFE; the image ending first is the end-of-stream error. */
  function DecodeEntry(data: seq<byte>, p: nat): (r: Result<(Entry, nat)>)
    ensures r.Ok? ==> r.value.1 == p + 2 * (|r.value.0.tiles| + 1) <= |data|
    ensures r.Err? ==> r.error == EndOfStream
    decreases |data| - p
  {
    if p + 2 > |data| then Err(EndOfStream)
    else
      var w := WordAt(data, p);
      if w >= StopEnd then Ok((Entry([], w == LoopEnd), p + 2))
      else
        match DecodeEntry(data, p + 2)
        case Err(e) => Err(e)
        case Ok((e, q)) => Ok((Entry([w] + e.tiles, e.loop), q))
  }

  /** A decoded entry holds the words before the first word >= 0xFFFE, all of them
      tiles, and loops iff that terminator is 0xFFFF. */
  lemma {:induction false} DecodedEntryShape(data: seq<byte>, p: nat)
    requires DecodeEntry(data, p).Ok?
    ensures var (e, q) := DecodeEntry(data, p).value;
      (forall i :: 0 <= i < |e.tiles| ==> e.tiles[i] == WordAt(data, p + 2 * i) && e.tiles[i] < StopEnd) &&
      WordAt(data, q - 2) >= StopEnd && (e.loop <==> WordAt(data, q - 2) == LoopEnd)
    decreases |data| - p
  {
    var (e, q) := DecodeEntry(data, p).value;
    if WordAt(data, p) < StopEnd {
      DecodedEntryShape(data, p + 2);
      var (e', q') := DecodeEntry(data, p + 2).value;
      forall i | 0 <= i < |e.tiles| ensures e.tiles[i] == WordAt(data, p + 2 * i) && e.tiles[i] < StopEnd {
        if i > 0 {
          assert e.tiles[i] == e'.tiles[i - 1];
          assert p + 2 * i == p + 2 + 2 * (i - 1);
        }
      }
    }
  }

  /** The words Entry.Build writes: the tiles, then the terminator. */
  function EntryWords(e: Entry): (r: seq<Word>)
    ensures |r| == |e.tiles| + 1
  {
    e.tiles + [if e.loop then LoopEnd else StopEnd]
  }

  /** The entry read so far, in front of what the rest of the stream decodes to. */
  function Prefixed(tiles: seq<Word>, r: Result<(Entry, nat)>): Result<(Entry, nat)>
  {
    match r
    case Err(e) => Err(e)
    case Ok((e, q)) => Ok((Entry(tiles + e.tiles, e.loop), q))
  }

  lemma PrefixedNothing(r: Result<(Entry, nat)>)
    ensures Prefixed([], r) == r
  {
    if r.Ok? {
      assert [] + r.value.0.tiles == r.value.0.tiles;
    }
  }

  /** The Entry(NStream) constructor. */
  method ReadEntry(s: NStream) returns (r: Result<Entry>)
    modifies s`pos
    ensures var d := DecodeEntry(s.data, old(s.pos));
      (r.Ok? <==> d.Ok?) && (r.Ok? ==> r.value == d.value.0 && s.pos == d.value.1)
    ensures r.Err? ==> r.error == EndOfStream
  {
    var tiles: seq<Word> := [];
    PrefixedNothing(DecodeEntry(s.data, s.pos));
    while true
      invariant old(s.pos) <= s.pos
      invariant DecodeEntry(s.data, old(s.pos)) == Prefixed(tiles, DecodeEntry(s.data, s.pos))
      decreases |s.data| - s.pos
    {
      var value := s.ReadInt16();
      if value.Err? {
        return Err(value.error);
      }
      if value.value >= StopEnd {
        assert tiles + [] == tiles;
        return Ok(Entry(tiles, value.value == LoopEnd));
      }
      ghost var rest := DecodeEntry(s.data, s.pos);
      assert rest.Ok? ==> tiles + ([value.value] + rest.value.0.tiles) == (tiles + [value.value]) + rest.value.0.tiles;
      tiles := tiles + [value.value];
    }
  }

  /** Entry.Build. */
  method BuildEntry(e: Entry, data: MovableData)
    modifies data
    ensures data.pieces == old(data.pieces) + Words(EntryWords(e))
  {
    var i := 0;
    while i < |e.tiles|
      invariant 0 <= i <= |e.tiles|
      invariant data.pieces == old(data.pieces) + Words(e.tiles[..i])
    {
      assert e.tiles[..i + 1] == e.tiles[..i] + [e.tiles[i]];
      assert Words(e.tiles[..i + 1]) == Words(e.tiles[..i]) + [Int16(e.tiles[i])];
      data.AddInt16(e.tiles[i]);
      i := i + 1;
    }
    assert e.tiles[..i] == e.tiles;
    if e.loop {
      data.AddInt16(LoopEnd);
    } else {
      data.AddInt16(StopEnd);
    }
    assert Words(EntryWords(e)) == Words(e.tiles) + [Int16(EntryWords(e)[|e.tiles|])];
  }

  /** Decoding what Entry.Build wrote, wherever it lies, gives the entry back and
      ends just past its 2 * (|tiles| + 1) bytes, provided no tile is a terminator. */
  lemma EntryRoundTrip(pre: seq<byte>, e: Entry, post: seq<byte>)
    requires forall i :: 0 <= i < |e.tiles| ==> e.tiles[i] < StopEnd
    ensures |WordsToBytes(EntryWords(e))| == 2 * (|e.tiles| + 1)
    ensures DecodeEntry(pre + WordsToBytes(EntryWords(e)) + post, |pre|) == Ok((e, |pre| + 2 * (|e.tiles| + 1)))
  {
    DecodeEntryFrom(pre, e, post, 0);
    assert e.tiles[0..] == e.tiles;
  }

  lemma {:induction false} DecodeEntryFrom(pre: seq<byte>, e: Entry, post: seq<byte>, k: nat)
    requires k <= |e.tiles|
    requires forall i :: 0 <= i < |e.tiles| ==> e.tiles[i] < StopEnd
    ensures DecodeEntry(pre + WordsToBytes(EntryWords(e)) + post, |pre| + 2 * k) ==
      Ok((Entry(e.tiles[k..], e.loop), |pre| + 2 * (|e.tiles| + 1)))
    decreases |e.tiles| - k
  {
    var ws := EntryWords(e);
    var d := pre + WordsToBytes(ws) + post;
    WordAtInside(pre, ws, post, k);
    assert |d| >= |pre| + 2 * k + 2;
    if k < |e.tiles| {
      assert ws[k] == e.tiles[k];
      DecodeEntryFrom(pre, e, post, k + 1);
      assert e.tiles[k..] == [e.tiles[k]] + e.tiles[k + 1..];
    } else {
      assert ws[k] == if e.loop then LoopEnd else StopEnd;
      assert e.tiles[k..] == [];
    }
  }

  /** What a decoded entry took up is exactly what Entry.Build writes for it. */
  lemma {:induction false} DecodeThenBuild(data: seq<byte>, p: nat)
    requires DecodeEntry(data, p).Ok?
    ensures var (e, q) := DecodeEntry(data, p).value;
      WordsToBytes(EntryWords(e)) == data[p..q]
    decreases |data| - p
  {
    var (e, q) := DecodeEntry(data, p).value;
    WordBytesOfWordAt(data, p);
    var w := WordAt(data, p);
    if w < StopEnd {
      DecodeThenBuild(data, p + 2);
      var (e', q') := DecodeEntry(data, p + 2).value;
      assert EntryWords(e) == [w] + EntryWords(e');
      assert data[p..q] == data[p..p + 2] + data[p + 2..q];
    } else {
      assert EntryWords(e) == [w];
    }
  }

  /** The two bytes of a word read at p are the bytes at p. */
  lemma WordBytesOfWordAt(data: seq<byte>, p: nat)
    requires p + 2 <= |data|
    ensures WordBytes(WordAt(data, p)) == data[p..p + 2]
  {
  }

  // ----------------------------------------------------------- entry table

  /** The entry a non-zero table slot at p points to, in the bank of the slot. */
  function SlotEntry(data: seq<byte>, p: nat): Result<Entry>
    requires p + 2 <= |data|
  {
    match DecodeEntry(data, DecodeRelative(p, WordAt(data, p)))
    case Err(e) => Err(e)
    case Ok((e, _)) => Ok(e)
  }

  /** The entries of the table at p: one per non-zero 2-byte pointer, up to the
      zero word. */
  function EntriesAt(data: seq<byte>, p: nat): (r: Result<seq<Entry>>)
    ensures r.Ok? ==> p + 2 * |r.value| + 2 <= |data|
    decreases |data| - p
  {
    if p + 2 > |data| then Err(EndOfStream)
    else if WordAt(data, p) == 0 then Ok([])
    else
      match SlotEntry(data, p)
      case Err(e) => Err(e)
      case Ok(e) =>
        match EntriesAt(data, p + 2)
        case Err(e') => Err(e')
        case Ok(rest) => Ok([e] + rest)
  }

  /** Slot by slot from p, each table slot is non-zero and points to the matching
      entry. */
  predicate SlotsHold(data: seq<byte>, p: nat, es: seq<Entry>)
    decreases |es|
  {
    es == [] ||
    (p + 2 <= |data| && WordAt(data, p) != 0 && SlotEntry(data, p) == Ok(es[0]) &&
     SlotsHold(data, p + 2, es[1..]))
  }

  /** The table at p reads as `es` iff its slots point to the entries of `es` in
      order and the slot after the last one is a zero word. */
  lemma {:induction false} TableReadsEntries(data: seq<byte>, p: nat, es: seq<Entry>)
    ensures EntriesAt(data, p) == Ok(es) <==>
      p + 2 * |es| + 2 <= |data| && WordAt(data, p + 2 * |es|) == 0 && SlotsHold(data, p, es)
    decreases |es|
  {
    if es != [] {
      TableReadsEntries(data, p + 2, es[1..]);
      assert p + 2 + 2 * |es[1..]| == p + 2 * |es|;
      if EntriesAt(data, p) == Ok(es) {
        assert EntriesAt(data, p + 2) == Ok(es[1..]);
      }
      if p + 2 * |es| + 2 <= |data| && WordAt(data, p + 2 * |es|) == 0 && SlotsHold(data, p, es) {
        EntriesAtStep(data, p, es[0], es[1..]);
        assert es == [es[0]] + es[1..];
      }
    }
  }

  lemma EntriesAtStep(data: seq<byte>, at: nat, e: Entry, rest: seq<Entry>)
    requires at + 2 <= |data| && WordAt(data, at) != 0 && SlotEntry(data, at) == Ok(e)
    requires EntriesAt(data, at + 2) == Ok(rest)
    ensures EntriesAt(data, at) == Ok([e] + rest)
  {
  }

  function PrefixedEntries(es: seq<Entry>, r: Result<seq<Entry>>): Result<seq<Entry>>
  {
    match r
    case Err(e) => Err(e)
    case Ok(rest) => Ok(es + rest)
  }

  lemma PrefixedEntriesNothing(r: Result<seq<Entry>>)
    ensures PrefixedEntries([], r) == r
  {
    if r.Ok? {
      assert [] + r.value == r.value;
    }
  }

  /** A non-zero slot pointing to e moves e from the rest of the table to the
      entries read so far. */
  lemma EntriesStep(es: seq<Entry>, e: Entry, data: seq<byte>, p: nat)
    requires p + 2 <= |data| && WordAt(data, p) != 0 && SlotEntry(data, p) == Ok(e)
    ensures PrefixedEntries(es, EntriesAt(data, p)) == PrefixedEntries(es + [e], EntriesAt(data, p + 2))
  {
    var rest := EntriesAt(data, p + 2);
    if rest.Ok? {
      assert es + ([e] + rest.value) == (es + [e]) + rest.value;
    }
  }

  /** One iteration of the reader: through the slot's relative pointer to the entry
      and back to just past the slot. */
  method ReadSlot(s: NStream) returns (r: Result<Entry>)
    requires s.pos + 2 <= |s.data|
    modifies s`pos, s`stack
    ensures r == SlotEntry(s.data, old(s.pos))
    ensures r.Ok? ==> s.pos == old(s.pos) + 2 && s.stack == old(s.stack)
  {
    var _ := s.GoToRelativePointerPush();
    var entry := ReadEntry(s);
    if entry.Err? {
      return Err(entry.error);
    }
    s.PopPosition();
    r := entry;
  }

  /** The TileAnimLevelMonster(NStream) constructor: entries while the peeked word is
      non-zero, each read through its relative pointer with the position restored. */
  method ReadEntries(s: NStream) returns (r: Result<seq<Entry>>)
    modifies s`pos, s`stack
    ensures r == EntriesAt(s.data, old(s.pos))
    ensures r.Ok? ==> s.pos == old(s.pos) + 2 * |r.value| && s.stack == old(s.stack)
  {
    var entries: seq<Entry> := [];
    PrefixedEntriesNothing(EntriesAt(s.data, s.pos));
    while true
      invariant s.pos == old(s.pos) + 2 * |entries| && s.stack == old(s.stack)
      invariant EntriesAt(s.data, old(s.pos)) == PrefixedEntries(entries, EntriesAt(s.data, s.pos))
      decreases |s.data| - s.pos
    {
      var peek := s.PeekInt16();
      if peek.Err? {
        return Err(peek.error);
      }
      if peek.value == 0 {
        assert entries + [] == entries;
        return Ok(entries);
      }
      var entry := ReadSlot(s);
      if entry.Err? {
        return Err(entry.error);
      }
      EntriesStep(entries, entry.value, s.data, s.pos - 2);
      entries := entries + [entry.value];
    }
  }

  /** The tile animation whose 4-byte data pointer is at p. */
  function TileAnimAt(data: seq<byte>, p: nat): (r: Result<TileAnimMonster>)
    ensures r.Ok? ==> p + 4 <= |data|
  {
    if p + 4 > |data| then Err(EndOfStream)
    else
      var t := DecodePointer(WordAt(data, p), WordAt(data, p + 2));
      if t < 0 then Err(NegativeSeek)
      else
        match EntriesAt(data, t)
        case Err(e) => Err(e)
        case Ok(es) => Ok(TileAnimMonster(es))
  }

  /** The loader TileAnimLevelMonster registers: it follows the 4-byte pointer after
      the type, reads the entries there and comes back to just past the pointer. */
  method LoadTileAnim(s: NStream) returns (r: Result<TileAnimMonster>)
    modifies s`pos, s`stack
    ensures r == TileAnimAt(s.data, old(s.pos))
    ensures r.Ok? ==> s.pos == old(s.pos) + 4 && s.stack == old(s.stack)
  {
    var go := s.GoToPointerPush();
    if go.Err? {
      return Err(go.error);
    }
    var entries := ReadEntries(s);
    if entries.Err? {
      return Err(entries.error);
    }
    s.PopPosition();
    r := Ok(TileAnimMonster(entries.value));
  }

  /** The 2-byte pointers of the entry table, one per entry, in entry order. */
  function Slots(es: seq<Entry>): (r: seq<Piece>)
    ensures |r| == |es|
  {
    if es == [] then [] else Slots(es[..|es| - 1]) + [Child(TwoBytes, Words(EntryWords(es[|es| - 1])))]
  }

  lemma {:induction false} SlotsAt(es: seq<Entry>, i: nat)
    requires i < |es|
    ensures Slots(es)[i] == Child(TwoBytes, Words(EntryWords(es[i])))
  {
    if i < |es| - 1 {
      SlotsAt(es[..|es| - 1], i);
    }
  }

  /** The entry table TileAnimLevelMonster.Build emits: the slots, then a zero word. */
  function EntryTable(es: seq<Entry>): (r: seq<Piece>)
  {
    Slots(es) + [Int16(0)]
  }

  /** The table part of TileAnimLevelMonster.Build. */
  method BuildEntryTable(es: seq<Entry>) returns (animData: MovableData)
    ensures fresh(animData) && animData.pieces == EntryTable(es)
  {
    animData := new MovableData();
    var i := 0;
    while i < |es|
      invariant 0 <= i <= |es| && fresh(animData)
      invariant animData.pieces == Slots(es[..i])
    {
      var entryData := new MovableData();
      BuildEntry(es[i], entryData);
      assert entryData.pieces == Words(EntryWords(es[i]));
      animData.AddBlock(TwoBytes, entryData);
      assert es[..i + 1][..i] == es[..i];
      i := i + 1;
    }
    assert es[..i] == es;
    animData.AddInt16(0);
  }

  /** TileAnimLevelMonster.Build: the type pointer, then a 4-byte pointer to the
      entry table. */
  method BuildTileAnim(m: TileAnimMonster, data: MovableData)
    modifies data
    ensures data.pieces == old(data.pieces) + [Pointer(TileAnimType), Child(FourBytes, EntryTable(m.entries))]
  {
    data.AddPointer(TileAnimType);
    var animData := BuildEntryTable(m.entries);
    data.AddBlock(FourBytes, animData);
  }
}

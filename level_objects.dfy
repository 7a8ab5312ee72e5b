/** The object lists a level points to (Level.AddAllObjects and Level.BuildAll), and
    the list of level monsters that follows the level header. The objects' own
    classes (Monster, OneTimeMonster, Item, the level-monster kinds other than the
    tile animation) are not part of this model: each is given by how it reads from
    and writes to the image. */
module LevelObjects {
  import opened Wrappers
  import opened Bytes
  import opened Rom
  import opened Movable
  import opened TileAnim

  /** A monster placed in the level; only its type and position are seen by the
      modelled code, the rest is kept as its words. */
  datatype Monster = Monster(monsterType: int, x: Word, y: Word, fields: seq<Word>)

  datatype OneTimeMonster = OneTimeMonster(x: Word, y: Word, fields: seq<Word>)

  datatype Item = Item(x: Word, y: Word, fields: seq<Word>)

  /** A level monster: the tile animation, or another kind, which is a level object
      exactly when it has a position. */
  datatype LevelMonster =
    | TileAnimLevelMonster(anim: TileAnimMonster)
    | OtherLevelMonster(monsterType: int, position: Option<(Word, Word)>, fields: seq<Word>)

  /** Reads one object at an offset: the object and the offset just past it. */
  type Reader<T> = (seq<byte>, nat) -> Result<(T, nat)>

  /** A successful read consumes at least one byte and stays inside the image. */
  ghost predicate Advances<T>(read: Reader<T>)
  {
    forall d: seq<byte>, p: nat :: read(d, p).Ok? ==> p < read(d, p).value.1 <= |d|
  }

  // -------------------------------------------------------------- object lists

  /** The objects of the list at p: one object per read while the word at the read
      position is non-zero (PeekInt16() > 0 on an unsigned word), keeping those the
      caller keeps; also the offset of the zero word that ends the list. */
  function ObjectsAt<T>(data: seq<byte>, p: nat, read: Reader<T>, keep: T -> bool): (r: Result<(seq<T>, nat)>)
    requires Advances(read)
    decreases |data| - p
  {
    if p + 2 > |data| then Err(EndOfStream)
    else if WordAt(data, p) == 0 then Ok(([], p))
    else
      match read(data, p)
      case Err(e) => Err(e)
      case Ok((o, q)) =>
        match ObjectsAt(data, q, read, keep)
        case Err(e) => Err(e)
        case Ok((os, end)) => Ok((if keep(o) then [o] + os else os, end))
  }

  /** Every listed object is one the caller keeps; the list ends at a zero word. */
  lemma {:induction false} ObjectsAreKept<T>(data: seq<byte>, p: nat, read: Reader<T>, keep: T -> bool)
    requires Advances(read) && ObjectsAt(data, p, read, keep).Ok?
    ensures var (os, end) := ObjectsAt(data, p, read, keep).value;
      p <= end && end + 2 <= |data| && WordAt(data, end) == 0 &&
      forall i :: 0 <= i < |os| ==> keep(os[i])
    decreases |data| - p
  {
    if WordAt(data, p) != 0 {
      var q := read(data, p).value.1;
      ObjectsAreKept(data, q, read, keep);
    }
  }

  function Prepended<T>(os: seq<T>, r: Result<(seq<T>, nat)>): Result<(seq<T>, nat)>
  {
    match r
    case Err(e) => Err(e)
    case Ok((rest, end)) => Ok((os + rest, end))
  }

  lemma PrependedNothing<T>(r: Result<(seq<T>, nat)>)
    ensures Prepended([], r) == r
  {
    if r.Ok? {
      assert [] + r.value.0 == r.value.0;
    }
  }

  /** The list whose 2-byte pointer is at p. */
  function ListAt<T>(data: seq<byte>, p: nat, read: Reader<T>, keep: T -> bool): (r: Result<seq<T>>)
    requires Advances(read)
  {
    if p + 2 > |data| then Err(EndOfStream)
    else
      match ObjectsAt(data, DecodeRelative(p, WordAt(data, p)), read, keep)
      case Err(e) => Err(e)
      case Ok((os, _)) => Ok(os)
  }

  /** Level.AddAllObjects with the object reader and the condition for adding what
      it read: follows the 2-byte list pointer at the cursor, reads the list and
      returns to just past the pointer. */
  method AddAllObjects<T>(s: NStream, read: Reader<T>, keep: T -> bool) returns (r: Result<seq<T>>)
    requires Advances(read)
    modifies s`pos, s`stack
    ensures r == ListAt(s.data, old(s.pos), read, keep)
    ensures r.Ok? ==> s.pos == old(s.pos) + 2 && s.stack == old(s.stack)
  {
    var go := s.GoToRelativePointerPush();
    if go.Err? {
      return Err(go.error);
    }
    var objects: seq<T> := [];
    PrependedNothing(ObjectsAt(s.data, s.pos, read, keep));
    while true
      invariant s.stack == old(s.stack) + [old(s.pos) + 2]
      invariant ObjectsAt(s.data, go.value, read, keep) == Prepended(objects, ObjectsAt(s.data, s.pos, read, keep))
      decreases |s.data| - s.pos
    {
      var peek := s.PeekInt16();
      if peek.Err? {
        return Err(peek.error);
      }
      if peek.value == 0 {
        assert objects + [] == objects;
        break;
      }
      // the unseen object constructor reads from the cursor
      var next := read(s.data, s.pos);
      if next.Err? {
        return Err(next.error);
      }
      var (o, q) := next.value;
      ghost var rest := ObjectsAt(s.data, q, read, keep);
      if keep(o) {
        assert rest.Ok? ==> objects + ([o] + rest.value.0) == (objects + [o]) + rest.value.0;
        objects := objects + [o];
      }
      s.pos := q;
    }
    s.PopPosition();
    r := Ok(objects);
  }

  /** The words of the objects, in list order. */
  function Flatten<T>(objects: seq<T>, build: T -> seq<Word>): seq<Word>
  {
    if objects == [] then []
    else Flatten(objects[..|objects| - 1], build) + build(objects[|objects| - 1])
  }

  lemma {:induction false} FlattenCons<T>(o: T, rest: seq<T>, build: T -> seq<Word>)
    ensures Flatten([o] + rest, build) == build(o) + Flatten(rest, build)
    decreases |rest|
  {
    if rest != [] {
      var n := |rest|;
      assert ([o] + rest)[..n] == [o] + rest[..n - 1];
      FlattenCons(o, rest[..n - 1], build);
    } else {
      assert [o] + rest == [o];
      assert [o][..0] == [];
    }
  }

  /** The block BuildAll emits for a list: the objects' words, then a zero word. */
  function ListWords<T>(objects: seq<T>, build: T -> seq<Word>): (r: seq<Word>)
    ensures |r| > 0 && r[|r| - 1] == 0
  {
    Flatten(objects, build) + [0]
  }

  /** The unseen Build of one object: it appends the object's words. */
  method BuildObject<T>(o: T, build: T -> seq<Word>, d: MovableData)
    modifies d
    ensures d.pieces == old(d.pieces) + Words(build(o))
  {
    d.pieces := d.pieces + Words(build(o));
  }

  /** Level.BuildAll: a 2-byte pointer to a block of the objects followed by a zero
      word. */
  method BuildAll<T>(objects: seq<T>, data: MovableData, build: T -> seq<Word>)
    modifies data
    ensures data.pieces == old(data.pieces) + [Child(TwoBytes, Words(ListWords(objects, build)))]
  {
    var objectData := new MovableData();
    var i := 0;
    while i < |objects|
      invariant 0 <= i <= |objects| && fresh(objectData) && data.pieces == old(data.pieces)
      invariant objectData.pieces == Words(Flatten(objects[..i], build))
    {
      BuildObject(objects[i], build, objectData);
      WordsAppend(Flatten(objects[..i], build), build(objects[i]));
      assert objects[..i + 1][..i] == objects[..i];
      i := i + 1;
    }
    assert objects[..i] == objects;
    objectData.AddInt16(0);
    WordsAppend(Flatten(objects, build), [0]);
    assert Words([0]) == [Int16(0)];
    assert objectData.pieces == Words(ListWords(objects, build));
    data.AddBlock(TwoBytes, objectData);
  }

  /** An object reads back from its own words wherever they lie in the image, and
      its first word is not the zero word that would end the list. */
  ghost predicate Decodes<T>(read: Reader<T>, build: T -> seq<Word>, o: T)
  {
    build(o) != [] && build(o)[0] != 0 &&
    forall pre: seq<byte>, post: seq<byte> ::
      read(pre + WordsToBytes(build(o)) + post, |pre|) == Ok((o, |pre| + 2 * |build(o)|))
  }

  /** Round trip: a list block built by BuildAll, wherever it is placed, reads back
      as the same objects when each object reads back from its own words and is one
      the reader keeps. */
  lemma {:induction false} ListRoundTrip<T>(read: Reader<T>, build: T -> seq<Word>, keep: T -> bool,
                                           objects: seq<T>, pre: seq<byte>, post: seq<byte>)
    requires Advances(read)
    requires forall i :: 0 <= i < |objects| ==> Decodes(read, build, objects[i]) && keep(objects[i])
    ensures ObjectsAt(pre + WordsToBytes(ListWords(objects, build)) + post, |pre|, read, keep)
      == Ok((objects, |pre| + 2 * |Flatten(objects, build)|))
    decreases |objects|
  {
    var data := pre + WordsToBytes(ListWords(objects, build)) + post;
    if objects == [] {
      assert ListWords(objects, build) == [0];
      WordAtInside(pre, [0], post, 0);
    } else {
      var o, rest := objects[0], objects[1..];
      assert objects == [o] + rest;
      FlattenCons(o, rest, build);
      var ws, tail := build(o), ListWords(rest, build);
      assert ListWords(objects, build) == ws + tail;
      WordsToBytesAppend(ws, tail);
      var pre' := pre + WordsToBytes(ws);
      assert data == pre + WordsToBytes(ws) + (WordsToBytes(tail) + post);
      assert data == pre' + WordsToBytes(tail) + post;
      WordAtInside(pre, ws, WordsToBytes(tail) + post, 0);
      assert Decodes(read, build, o);
      assert read(data, |pre|) == Ok((o, |pre'|));
      assert forall i :: 0 <= i < |rest| ==> rest[i] == objects[i + 1];
      ListRoundTrip(read, build, keep, rest, pre', post);
    }
  }

  // --------------------------------------------------------------- bonuses

  /** A bonus is one 16-bit word: ReadInt16 reads it and AddInt16 writes it. */
  function ReadWord(data: seq<byte>, p: nat): Result<(Word, nat)>
  {
    if p + 2 <= |data| then Ok((WordAt(data, p), p + 2)) else Err(EndOfStream)
  }

  function BonusWords(b: Word): seq<Word>
  {
    [b]
  }

  lemma ReadWordAdvances()
    ensures Advances(ReadWord)
  {
  }

  /** A non-zero bonus reads back; a zero bonus would end the list early. */
  lemma BonusDecodes(b: Word)
    requires b != 0
    ensures Decodes(ReadWord, BonusWords, b)
  {
    forall pre: seq<byte>, post: seq<byte>
      ensures ReadWord(pre + WordsToBytes([b]) + post, |pre|) == Ok((b, |pre| + 2))
    {
      WordAtInside(pre, [b], post, 0);
    }
  }

  lemma ZeroBonusEndsList(pre: seq<byte>, post: seq<byte>, keep: Word -> bool)
    ensures ObjectsAt(pre + WordsToBytes(BonusWords(0)) + post, |pre|, ReadWord, keep) == Ok(([], |pre|))
  {
    WordAtInside(pre, [0], post, 0);
  }

  // ---------------------------------------------------------- level monsters

  /** The loaders of the level-monster kinds whose source is not shown: the type
      pointer already read, the image and the offset after the type. */
  type Loader = (int, seq<byte>, nat) -> Result<(LevelMonster, nat)>

  ghost predicate LoaderAdvances(load: Loader)
  {
    forall t: int, d: seq<byte>, p: nat :: load(t, d, p).Ok? ==> p <= load(t, d, p).value.1 <= |d|
  }

  /** LevelMonster.FromROM at p: the 4-byte type pointer, then the loader
      registered for that type; the tile animation's is TileAnimLevelMonster's. */
  function LevelMonsterAt(data: seq<byte>, p: nat, other: Loader): (r: Result<(LevelMonster, nat)>)
    requires p + 4 <= |data|
  {
    var t := DecodePointer(WordAt(data, p), WordAt(data, p + 2));
    if t == TileAnimType then
      match TileAnimAt(data, p + 4)
      case Err(e) => Err(e)
      case Ok(m) => Ok((TileAnimLevelMonster(m), p + 8))
    else other(t, data, p + 4)
  }

  /** The level monsters at p: read while the 4-byte pointer at the cursor is
      non-negative (PeekPointer() > -1), and the offset where the list stops. */
  function LevelMonstersAt(data: seq<byte>, p: nat, other: Loader): (r: Result<(seq<LevelMonster>, nat)>)
    requires LoaderAdvances(other)
    decreases |data| - p
  {
    if p + 4 > |data| then Err(EndOfStream)
    else if DecodePointer(WordAt(data, p), WordAt(data, p + 2)) <= -1 then Ok(([], p))
    else
      match LevelMonsterAt(data, p, other)
      case Err(e) => Err(e)
      case Ok((m, q)) =>
        match LevelMonstersAt(data, q, other)
        case Err(e) => Err(e)
        case Ok((ms, end)) => Ok(([m] + ms, end))
  }

  /** The two zero words Level.Build closes the list with stop the reader: they
      decode to a negative pointer. */
  lemma ZeroWordsEndLevelMonsters(pre: seq<byte>, post: seq<byte>, other: Loader)
    requires LoaderAdvances(other)
    ensures LevelMonstersAt(pre + WordsToBytes([0, 0]) + post, |pre|, other) == Ok(([], |pre|))
  {
    WordAtInside(pre, [0, 0], post, 0);
    WordAtInside(pre, [0, 0], post, 1);
    assert DecodePointer(0, 0) == -0x8000;
  }

  function PrependedMonsters(ms: seq<LevelMonster>, r: Result<(seq<LevelMonster>, nat)>): Result<(seq<LevelMonster>, nat)>
  {
    match r
    case Err(e) => Err(e)
    case Ok((rest, end)) => Ok((ms + rest, end))
  }

  lemma PrependedMonstersNothing(r: Result<(seq<LevelMonster>, nat)>)
    ensures PrependedMonsters([], r) == r
  {
    if r.Ok? {
      assert [] + r.value.0 == r.value.0;
    }
  }

  /** A level monster at p with a non-negative pointer moves from the rest of the
      list to the monsters read so far. */
  lemma MonstersStep(ms: seq<LevelMonster>, data: seq<byte>, p: nat, other: Loader)
    requires LoaderAdvances(other) && p + 4 <= |data|
    requires DecodePointer(WordAt(data, p), WordAt(data, p + 2)) > -1 && LevelMonsterAt(data, p, other).Ok?
    ensures var (m, q) := LevelMonsterAt(data, p, other).value;
      PrependedMonsters(ms, LevelMonstersAt(data, p, other)) == PrependedMonsters(ms + [m], LevelMonstersAt(data, q, other))
  {
    var (m, q) := LevelMonsterAt(data, p, other).value;
    var rest := LevelMonstersAt(data, q, other);
    if rest.Ok? {
      assert ms + ([m] + rest.value.0) == (ms + [m]) + rest.value.0;
    }
  }

  /** LevelMonster.FromROM on the stream. */
  method FromRom(s: NStream, other: Loader) returns (r: Result<LevelMonster>)
    requires s.pos + 4 <= |s.data|
    modifies s`pos, s`stack
    ensures var m := LevelMonsterAt(s.data, old(s.pos), other);
      (r.Ok? <==> m.Ok?) && (r.Err? ==> r.error == m.error) &&
      (r.Ok? ==> r.value == m.value.0 && s.pos == m.value.1 && s.stack == old(s.stack))
  {
    var t := s.ReadPointer();
    if t.value == TileAnimType {
      var m := LoadTileAnim(s);
      if m.Err? {
        return Err(m.error);
      }
      r := Ok(TileAnimLevelMonster(m.value));
    } else {
      // the unseen loader reads from the cursor
      var next := other(t.value, s.data, s.pos);
      if next.Err? {
        return Err(next.error);
      }
      s.pos := next.value.1;
      r := Ok(next.value.0);
    }
  }

  /** The level-monster loop of the Level read constructor. */
  method ReadLevelMonsters(s: NStream, other: Loader) returns (r: Result<seq<LevelMonster>>)
    requires LoaderAdvances(other)
    modifies s`pos, s`stack
    ensures var list := LevelMonstersAt(s.data, old(s.pos), other);
      (r.Ok? <==> list.Ok?) && (r.Err? ==> r.error == list.error) &&
      (r.Ok? ==> r.value == list.value.0 && s.pos == list.value.1 && s.stack == old(s.stack))
  {
    var monsters: seq<LevelMonster> := [];
    PrependedMonstersNothing(LevelMonstersAt(s.data, s.pos, other));
    while true
      invariant s.stack == old(s.stack)
      invariant LevelMonstersAt(s.data, old(s.pos), other) == PrependedMonsters(monsters, LevelMonstersAt(s.data, s.pos, other))
      decreases |s.data| - s.pos
    {
      var peek := s.PeekPointer();
      if peek.Err? {
        return Err(peek.error);
      }
      if peek.value <= -1 {
        assert monsters + [] == monsters;
        return Ok(monsters);
      }
      ghost var p := s.pos;
      var m := FromRom(s, other);
      if m.Err? {
        return Err(m.error);
      }
      MonstersStep(monsters, s.data, p, other);
      monsters := monsters + [m.value];
    }
  }

  /** The pieces LevelMonster.Build appends: TileAnimLevelMonster's, or the unseen
      kind's own. */
  function LevelMonsterPieces(m: LevelMonster, buildOther: LevelMonster -> seq<Piece>): seq<Piece>
  {
    match m
    case TileAnimLevelMonster(a) => [Pointer(TileAnimType), Child(FourBytes, EntryTable(a.entries))]
    case OtherLevelMonster(_, _, _) => buildOther(m)
  }

  method BuildLevelMonster(m: LevelMonster, data: MovableData, buildOther: LevelMonster -> seq<Piece>)
    modifies data
    ensures data.pieces == old(data.pieces) + LevelMonsterPieces(m, buildOther)
  {
    if m.TileAnimLevelMonster? {
      BuildTileAnim(m.anim, data);
    } else {
      // the unseen Build of the other kinds
      data.pieces := data.pieces + buildOther(m);
    }
  }

  /** The pieces of the level-monster list, in list order. */
  function LevelMonstersPieces(ms: seq<LevelMonster>, buildOther: LevelMonster -> seq<Piece>): seq<Piece>
  {
    if ms == [] then []
    else LevelMonstersPieces(ms[..|ms| - 1], buildOther) + LevelMonsterPieces(ms[|ms| - 1], buildOther)
  }

  /** The level-monster part of Level.Build: each monster's pieces, then two zero
      words. */
  method BuildLevelMonsters(ms: seq<LevelMonster>, data: MovableData, buildOther: LevelMonster -> seq<Piece>)
    modifies data
    ensures data.pieces == old(data.pieces) + LevelMonstersPieces(ms, buildOther) + [Int16(0), Int16(0)]
  {
    var i := 0;
    while i < |ms|
      invariant 0 <= i <= |ms|
      invariant data.pieces == old(data.pieces) + LevelMonstersPieces(ms[..i], buildOther)
    {
      BuildLevelMonster(ms[i], data, buildOther);
      assert ms[..i + 1][..i] == ms[..i];
      i := i + 1;
    }
    assert ms[..i] == ms;
    data.AddInt16(0);
    data.AddInt16(0);
  }
}

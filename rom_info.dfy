/** The tables of assets taken from or put into a ROM (ROMInfo, whose own source is
    not part of this model, as a small specification), and the steps of Asset that
    move assets between the image and those tables: CreateAsset and GetAssetName when
    reading, ReserveSpace and InsertByteArray when building, and the graphics and
    sprites overrides of ReserveSpace and Insert. */
module RomInfo {
  import opened Wrappers
  import opened Bytes
  import opened Rom
  import opened AssetPaths
  import opened Assets

  class ROMInfo {
    var assets: seq<Asset>
    /** (category, pointer) to name: filled while reading. */
    var names: map<(AssetCategory, int), string>
    /** (category, name) to pointer: filled while inserting. */
    var pointers: map<(AssetCategory, string), int>
    const freespace: Freespace

    ghost predicate Valid()
      reads this, freespace
    {
      freespace.Valid()
    }

    constructor ()
      ensures Valid() && fresh(freespace)
      ensures assets == [] && names == map[] && pointers == map[] && freespace.free == {}
    {
      assets, names, pointers := [], map[], map[];
      freespace := new Freespace();
    }

    function GetAssetName(category: AssetCategory, pointer: int): (r: Option<string>)
      reads this
      ensures r.Some? <==> (category, pointer) in names
      ensures r.Some? ==> r.value == names[(category, pointer)]
    {
      if (category, pointer) in names then Some(names[(category, pointer)]) else None
    }

    /** A name the build has not inserted (yet) has no pointer. */
    function GetAssetPointer(category: AssetCategory, name: string): (r: Result<int>)
      reads this
      ensures r.Ok? <==> (category, name) in pointers
      ensures r.Ok? ==> r.value == pointers[(category, name)]
      ensures r.Err? ==> r.error == UnresolvedName(Ordinal(category), name)
    {
      if (category, name) in pointers then Ok(pointers[(category, name)])
      else Err(UnresolvedName(Ordinal(category), name))
    }

    method AddAssetName(category: AssetCategory, pointer: int, name: string)
      modifies this`names
      ensures names == old(names)[(category, pointer) := name]
    {
      names := names[(category, pointer) := name];
    }

    method AddAssetPointer(category: AssetCategory, name: string, pointer: int)
      modifies this`pointers
      ensures pointers == old(pointers)[(category, name) := pointer]
    {
      pointers := pointers[(category, name) := pointer];
    }
  }

  // ------------------------------------------------------------------ reading

  /** Length of the ReadBytes(n) result at `at`. */
  function Available(data: seq<byte>, at: nat, n: nat): (k: nat)
    ensures k <= n
    ensures at <= |data| ==> at + k <= |data|
    ensures at + n <= |data| ==> k == n
  {
    if at + n <= |data| then n else if at <= |data| then |data| - at else 0
  }

  /** Creator.FromRom at offset `at`: the asset and the number of bytes it took up.
      A graphics asset is `size` raw bytes; reading one without a size is the
      InvalidOperationException of the cast from a null int?. */
  function RomRead(c: Creator, n: NameInfo, data: seq<byte>, at: nat, size: Option<nat>, u: Collaborators): (r: Result<(Asset, nat)>)
    ensures c == GraphicsCreator ==> (r.Ok? <==> size.Some?)
    ensures r.Err? ==> r.error == MissingSize
    ensures c == GraphicsCreator && size.Some? && at + size.value <= |data| ==>
      r == Ok((Asset(n, data[at..at + size.value]), size.value))
  {
    if c == GraphicsCreator then
      if size.None? then Err(MissingSize)
      else
        var k := Available(data, at, size.value);
        Ok((Asset(n, if at <= |data| then data[at..at + k] else []), k))
    else
      var (d, k) := u.fromRom(c, data, at);
      Ok((Asset(n, d), k))
  }

  method FromRom(s: NStream, c: Creator, n: NameInfo, size: Option<nat>, u: Collaborators) returns (r: Result<Asset>)
    modifies s`pos
    ensures var rd := RomRead(c, n, s.data, old(s.pos), size, u);
      (r.Ok? <==> rd.Ok?) && (r.Ok? ==> r.value == rd.value.0 && s.pos == old(s.pos) + rd.value.1)
    ensures r.Err? ==> r.error == MissingSize
  {
    if c == GraphicsCreator {
      if size.None? {
        return Err(MissingSize);
      }
      var bytes := s.ReadBytes(size.value);
      r := Ok(Asset(n, bytes));
    } else {
      var (d, k) := u.fromRom(c, s.data, s.pos);
      s.pos := s.pos + k;
      r := Ok(Asset(n, d));
    }
  }

  /** Asset.CreateAsset: reads the asset at `pointer` with the stream position saved
      and restored, records it and its name, and frees the bytes it took up when the
      creator tracks free space. After an error (an exception in the source) the
      state is not specified. */
  method CreateAsset(s: NStream, info: ROMInfo, c: Creator, n: NameInfo, pointer: int,
                     size: Option<nat>, u: Collaborators) returns (r: Result<Asset>)
    requires info.Valid()
    modifies s`pos, s`stack, info`assets, info`names, info.freespace
    ensures info.Valid()
    ensures pointer < 0 ==> r == Err(NegativeSeek)
    ensures pointer >= 0 && r.Err? ==> r.error == MissingSize
    ensures pointer >= 0 ==>
      var rd := RomRead(c, n, s.data, pointer, size, u);
      (r.Ok? <==> rd.Ok?) &&
      (r.Ok? ==>
        r.value == rd.value.0 &&
        s.pos == old(s.pos) && s.stack == old(s.stack) &&
        info.assets == old(info.assets) + [r.value] &&
        info.names == old(info.names)[(Category(n), pointer) := Name(n)] &&
        info.freespace.free ==
          old(info.freespace.free) + (if AutoTrackFreespace(c, u) then Range(pointer, rd.value.1) else {}))
  {
    s.PushPosition();
    var seek := s.Seek(pointer);
    if seek.Err? {
      return Err(seek.error);
    }
    var startPos := s.pos;
    var asset := FromRom(s, c, n, size, u);
    if asset.Err? {
      return Err(asset.error);
    }
    if AutoTrackFreespace(c, u) {
      info.freespace.AddSize(pointer, s.pos - startPos);
    }
    info.assets := info.assets + [asset.value];
    info.AddAssetName(Category(n), pointer, Name(n));
    s.PopPosition();
    r := asset;
  }

  /** The three tables of a ROMInfo that reading an asset fills: the assets created,
      the names recorded by (category, pointer), and the free space. */
  datatype Tables = Tables(assets: seq<Asset>, names: map<(AssetCategory, int), string>, free: set<int>)

  ghost function TablesOf(info: ROMInfo): Tables
    reads info, info.freespace
  {
    Tables(info.assets, info.names, info.freespace.free)
  }

  /** Reading only adds to the tables: the assets are extended, no name key is
      lost, and no free byte stops being free. */
  ghost predicate Grows(t: Tables, t': Tables)
  {
    t.assets <= t'.assets && (forall k :: k in t.names ==> k in t'.names) && t.free <= t'.free
  }

  /** Asset.CreateAsset on the tables: the tables after, or the exception it throws.
      The seek comes first, so a negative pointer fails before anything is read. */
  function Created(t: Tables, data: seq<byte>, c: Creator, n: NameInfo, pointer: int, size: Option<nat>,
                   u: Collaborators): (r: Result<Tables>)
    ensures pointer < 0 ==> r == Err(NegativeSeek)
    ensures r.Ok? ==> Grows(t, r.value) && |r.value.assets| == |t.assets| + 1 && r.value.assets[..|t.assets|] == t.assets
    ensures r.Ok? ==> r.value.names == t.names[(Category(n), pointer) := Name(n)]
  {
    if pointer < 0 then Err(NegativeSeek)
    else
      match RomRead(c, n, data, pointer, size, u)
      case Err(e) => Err(e)
      case Ok((a, k)) =>
        Ok(Tables(t.assets + [a], t.names[(Category(n), pointer) := Name(n)],
                  t.free + if AutoTrackFreespace(c, u) then Range(pointer, k) else {}))
  }

  /** Created in terms of what RomRead reads, as CreateAsset states it. */
  lemma CreatedReads(t: Tables, data: seq<byte>, c: Creator, n: NameInfo, pointer: int, size: Option<nat>,
                     u: Collaborators)
    requires pointer >= 0
    ensures var rd := RomRead(c, n, data, pointer, size, u);
      (Created(t, data, c, n, pointer, size, u).Ok? <==> rd.Ok?) &&
      (rd.Err? ==> Created(t, data, c, n, pointer, size, u) == Err(rd.error)) &&
      (rd.Ok? ==>
         Created(t, data, c, n, pointer, size, u) ==
         Ok(Tables(t.assets + [rd.value.0], t.names[(Category(n), pointer) := Name(n)],
                   t.free + if AutoTrackFreespace(c, u) then Range(pointer, rd.value.1) else {})))
  {
  }

  /** Asset.GetAssetName on the tables: the name and the tables after, or the
      exception it throws. CreateAsset seeks before the null name info is used, so a
      negative pointer is a negative seek whatever the creator. A name is created
      only for a non-negative pointer, so every key it adds has one. */
  function NameOf(t: Tables, data: seq<byte>, pointer: int, c: Creator, category: AssetCategory,
                  u: Collaborators): (r: Result<(string, Tables)>)
    requires -0x8000_0000 <= pointer < 0x8000_0000
    ensures r.Ok? ==> Grows(t, r.value.1)
    ensures r.Ok? ==> forall k :: k in r.value.1.names ==> k in t.names || (k.1 == pointer && pointer >= 0)
  {
    if (category, pointer) in t.names then Ok((t.names[(category, pointer)], t))
    else if pointer < 0 then Err(NegativeSeek)
    else
      match GetNameInfoForName(c, FormatX6(pointer), u)
      case None => Err(NullReference)
      case Some(n) =>
        match Created(t, data, c, n, pointer, None, u)
        case Err(e) => Err(e)
        case Ok(t') => Ok((Name(n), t'))
  }

  /** A name can be given to the asset at `pointer`: it is recorded, or the creator
      names pointers and can read an asset without a size (every creator but the
      graphics one). */
  ghost predicate Resolvable(t: Tables, pointer: int, c: Creator, category: AssetCategory, u: Collaborators)
    requires -0x8000_0000 <= pointer < 0x8000_0000
  {
    (category, pointer) in t.names ||
    (pointer >= 0 && GetNameInfoForName(c, FormatX6(pointer), u).Some? && c != GraphicsCreator)
  }

  /** GetAssetName succeeds exactly when the name is resolvable; a recorded name
      changes nothing, and a created one records the asset read at the pointer,
      its name, and (when the creator tracks free space) the bytes it took up. */
  lemma NameOfCases(t: Tables, data: seq<byte>, pointer: int, c: Creator, category: AssetCategory, u: Collaborators)
    requires -0x8000_0000 <= pointer < 0x8000_0000
    ensures NameOf(t, data, pointer, c, category, u).Ok? <==> Resolvable(t, pointer, c, category, u)
    ensures (category, pointer) !in t.names && pointer < 0 ==> NameOf(t, data, pointer, c, category, u) == Err(NegativeSeek)
    ensures (category, pointer) in t.names ==>
      NameOf(t, data, pointer, c, category, u) == Ok((t.names[(category, pointer)], t))
    ensures (category, pointer) !in t.names && Resolvable(t, pointer, c, category, u) ==>
      var n := GetNameInfoForName(c, FormatX6(pointer), u).value;
      var (a, k) := RomRead(c, n, data, pointer, None, u).value;
      NameOf(t, data, pointer, c, category, u) ==
        Ok((Name(n), Tables(t.assets + [a], t.names[(Category(n), pointer) := Name(n)],
                            t.free + if AutoTrackFreespace(c, u) then Range(pointer, k) else {})))
  {
  }

  /** Asset.GetAssetName: the recorded name of the asset at (category, pointer);
      otherwise the asset is created once under its pointer's six-digit hex name.
      A creator without names for pointers (null NameInfo) makes it throw. */
  method GetAssetName(s: NStream, info: ROMInfo, pointer: int, c: Creator, category: AssetCategory,
                      u: Collaborators) returns (r: Result<string>)
    requires info.Valid()
    requires -0x8000_0000 <= pointer < 0x8000_0000
    modifies s`pos, s`stack, info`assets, info`names, info.freespace
    ensures info.Valid()
    ensures (category, pointer) in old(info.names) ==>
      r == Ok(old(info.names)[(category, pointer)]) &&
      info.assets == old(info.assets) && info.names == old(info.names) &&
      info.freespace.free == old(info.freespace.free) && s.pos == old(s.pos) && s.stack == old(s.stack)
    ensures (category, pointer) !in old(info.names) ==>
      var n := GetNameInfoForName(c, FormatX6(pointer), u);
      (n.None? ==> r == Err(if pointer < 0 then NegativeSeek else NullReference)) &&
      (r.Ok? ==>
        n.Some? && r.value == Name(n.value) &&
        |info.assets| == |old(info.assets)| + 1 && info.assets[..|old(info.assets)|] == old(info.assets) &&
        info.names == old(info.names)[(Category(n.value), pointer) := Name(n.value)] &&
        s.pos == old(s.pos) && s.stack == old(s.stack))
    ensures r.Ok? ==> old(info.freespace.free) <= info.freespace.free
    ensures r.Ok? && (category, pointer) !in old(info.names) && c == GraphicsCreator && category == Graphics ==>
      (category, pointer) in info.names && info.names[(category, pointer)] == r.value
    ensures var e := NameOf(old(TablesOf(info)), s.data, pointer, c, category, u);
      (r.Ok? <==> e.Ok?) && (r.Err? ==> r.error == e.error) &&
      (r.Ok? ==> r.value == e.value.0 && TablesOf(info) == e.value.1 && s.pos == old(s.pos) && s.stack == old(s.stack))
  {
    var name := info.GetAssetName(category, pointer);
    if name.Some? {
      return Ok(name.value);
    }
    var hexName := FormatX6(pointer);
    var n := GetNameInfoForName(c, hexName, u);
    if n.None? {
      // CreateAsset seeks before it reads the null name info
      if pointer < 0 {
        return Err(NegativeSeek);
      }
      return Err(NullReference);
    }
    var created := CreateAsset(s, info, c, n.value, pointer, None, u);
    if created.Err? {
      return Err(created.error);
    }
    r := Ok(Name(n.value));
  }

  // ----------------------------------------------------------------- defaults

  /** One creator's defaults, each paired with that creator. */
  function Paired(c: Creator, ds: seq<DefaultParams>): (r: seq<(Creator, DefaultParams)>)
    ensures |r| == |ds| && forall k :: 0 <= k < |ds| ==> r[k] == (c, ds[k])
  {
    seq(|ds|, k requires 0 <= k < |ds| => (c, ds[k]))
  }

  /** The defaults of the creators cs, creator by creator in the order given. */
  function DefaultList(cs: seq<Creator>, u: Collaborators): seq<(Creator, DefaultParams)>
  {
    if cs == [] then []
    else DefaultList(cs[..|cs| - 1], u) + Paired(cs[|cs| - 1], GetDefaults(cs[|cs| - 1], u))
  }

  /** The asset CreateAsset reads for one default, or None when it throws. */
  function DefaultAsset(data: seq<byte>, cd: (Creator, DefaultParams), u: Collaborators): Option<Asset>
  {
    if cd.1.pointer < 0 then None
    else match RomRead(cd.0, cd.1.nameInfo, data, cd.1.pointer, cd.1.size, u)
      case Err(_) => None
      case Ok((a, _)) => Some(a)
  }

  /** The bytes CreateAsset frees for one default: what it read, when its creator
      tracks free space. */
  function DefaultFreed(data: seq<byte>, cd: (Creator, DefaultParams), u: Collaborators): set<int>
  {
    if cd.1.pointer < 0 || !AutoTrackFreespace(cd.0, u) then {}
    else match RomRead(cd.0, cd.1.nameInfo, data, cd.1.pointer, cd.1.size, u)
      case Err(_) => {}
      case Ok((_, k)) => Range(cd.1.pointer, k)
  }

  /** The tables after the defaults ds are created one after the other on top of t,
      or the exception of the first that throws (the later ones are then not
      created). */
  function DefaultTables(t: Tables, data: seq<byte>, ds: seq<(Creator, DefaultParams)>, u: Collaborators): Result<Tables>
  {
    if ds == [] then Ok(t)
    else match DefaultTables(t, data, ds[..|ds| - 1], u)
      case Err(e) => Err(e)
      case Ok(t') =>
        var cd := ds[|ds| - 1];
        Created(t', data, cd.0, cd.1.nameInfo, cd.1.pointer, cd.1.size, u)
  }

  /** Creating the defaults succeeds exactly when each of them can be read, whatever
      the tables hold. */
  lemma {:induction false} DefaultsSucceed(t: Tables, data: seq<byte>, ds: seq<(Creator, DefaultParams)>, u: Collaborators)
    ensures DefaultTables(t, data, ds, u).Ok? <==> forall k :: 0 <= k < |ds| ==> DefaultAsset(data, ds[k], u).Some?
    decreases |ds|
  {
    if ds != [] {
      var init := ds[..|ds| - 1];
      DefaultsSucceed(t, data, init, u);
      assert forall k :: 0 <= k < |init| ==> init[k] == ds[k];
    }
  }

  /** After the defaults, the assets are those before followed by each default's
      asset in order. */
  lemma {:induction false} DefaultsAppend(t: Tables, data: seq<byte>, ds: seq<(Creator, DefaultParams)>, u: Collaborators)
    requires DefaultTables(t, data, ds, u).Ok?
    ensures var t' := DefaultTables(t, data, ds, u).value;
      |t'.assets| == |t.assets| + |ds| && t'.assets[..|t.assets|] == t.assets &&
      forall k :: 0 <= k < |ds| ==>
        DefaultAsset(data, ds[k], u).Some? && t'.assets[|t.assets| + k] == DefaultAsset(data, ds[k], u).value
    decreases |ds|
  {
    DefaultsSucceed(t, data, ds, u);
    if ds != [] {
      var init := ds[..|ds| - 1];
      var cd := ds[|ds| - 1];
      DefaultsAppend(t, data, init, u);
      var t1 := DefaultTables(t, data, init, u).value;
      var t' := DefaultTables(t, data, ds, u).value;
      assert t'.assets == t1.assets + [DefaultAsset(data, cd, u).value];
      forall k | 0 <= k < |ds|
        ensures DefaultAsset(data, ds[k], u).Some? && t'.assets[|t.assets| + k] == DefaultAsset(data, ds[k], u).value
      {
        if k < |init| { assert init[k] == ds[k]; }
      }
    }
  }

  /** After the defaults, every name recorded before is kept and each default has a
      name under its category and pointer. */
  lemma {:induction false} DefaultsRecord(t: Tables, data: seq<byte>, ds: seq<(Creator, DefaultParams)>, u: Collaborators)
    requires DefaultTables(t, data, ds, u).Ok?
    ensures var t' := DefaultTables(t, data, ds, u).value;
      (forall key :: key in t.names ==> key in t'.names) &&
      forall k :: 0 <= k < |ds| ==> (Category(ds[k].1.nameInfo), ds[k].1.pointer) in t'.names
    decreases |ds|
  {
    if ds != [] {
      var init := ds[..|ds| - 1];
      DefaultsRecord(t, data, init, u);
      var t' := DefaultTables(t, data, ds, u).value;
      forall k | 0 <= k < |ds| ensures (Category(ds[k].1.nameInfo), ds[k].1.pointer) in t'.names {
        if k < |init| { assert init[k] == ds[k]; }
      }
    }
  }

  /** One default frees the bytes DefaultFreed names. */
  lemma CreatedFrees(t: Tables, data: seq<byte>, cd: (Creator, DefaultParams), u: Collaborators)
    requires Created(t, data, cd.0, cd.1.nameInfo, cd.1.pointer, cd.1.size, u).Ok?
    ensures Created(t, data, cd.0, cd.1.nameInfo, cd.1.pointer, cd.1.size, u).value.free == t.free + DefaultFreed(data, cd, u)
  {
  }

  /** After the defaults, the free space has grown by exactly the bytes each default
      frees. */
  lemma DefaultsFree(t: Tables, data: seq<byte>, ds: seq<(Creator, DefaultParams)>, u: Collaborators)
    requires DefaultTables(t, data, ds, u).Ok?
    ensures t.free <= DefaultTables(t, data, ds, u).value.free
    ensures forall k, i :: 0 <= k < |ds| && i in DefaultFreed(data, ds[k], u) ==> i in DefaultTables(t, data, ds, u).value.free
    ensures forall i :: i in DefaultTables(t, data, ds, u).value.free ==>
      i in t.free || exists k :: 0 <= k < |ds| && i in DefaultFreed(data, ds[k], u)
  {
    DefaultsFreeCovers(t, data, ds, u);
    DefaultsFreeWithin(t, data, ds, u);
  }

  lemma {:induction false} DefaultsFreeCovers(t: Tables, data: seq<byte>, ds: seq<(Creator, DefaultParams)>, u: Collaborators)
    requires DefaultTables(t, data, ds, u).Ok?
    ensures t.free <= DefaultTables(t, data, ds, u).value.free
    ensures forall k, i :: 0 <= k < |ds| && i in DefaultFreed(data, ds[k], u) ==> i in DefaultTables(t, data, ds, u).value.free
    decreases |ds|
  {
    if ds != [] {
      var init := ds[..|ds| - 1];
      var cd := ds[|ds| - 1];
      DefaultsFreeCovers(t, data, init, u);
      var t1 := DefaultTables(t, data, init, u).value;
      CreatedFrees(t1, data, cd, u);
      var f := DefaultTables(t, data, ds, u).value.free;
      assert f == t1.free + DefaultFreed(data, cd, u);
      forall k, i | 0 <= k < |ds| && i in DefaultFreed(data, ds[k], u) ensures i in f {
        if k < |init| { assert init[k] == ds[k]; }
      }
    }
  }

  lemma {:induction false} DefaultsFreeWithin(t: Tables, data: seq<byte>, ds: seq<(Creator, DefaultParams)>, u: Collaborators)
    requires DefaultTables(t, data, ds, u).Ok?
    ensures forall i :: i in DefaultTables(t, data, ds, u).value.free ==>
      i in t.free || exists k :: 0 <= k < |ds| && i in DefaultFreed(data, ds[k], u)
    decreases |ds|
  {
    if ds != [] {
      var init := ds[..|ds| - 1];
      var cd := ds[|ds| - 1];
      DefaultsFreeWithin(t, data, init, u);
      var t1 := DefaultTables(t, data, init, u).value;
      CreatedFrees(t1, data, cd, u);
      var f := DefaultTables(t, data, ds, u).value.free;
      assert f == t1.free + DefaultFreed(data, cd, u);
      forall i | i in f ensures i in t.free || exists k :: 0 <= k < |ds| && i in DefaultFreed(data, ds[k], u) {
        if i !in t1.free {
          assert i in DefaultFreed(data, ds[|ds| - 1], u);
        } else if i !in t.free {
          var k :| 0 <= k < |init| && i in DefaultFreed(data, init[k], u);
          assert ds[k] == init[k];
        }
      }
    }
  }

  /** The defaults of a prefix of the creators come first. */
  lemma {:induction false} DefaultListPrefix(cs: seq<Creator>, i: nat, u: Collaborators)
    requires i <= |cs|
    ensures DefaultList(cs[..i], u) <= DefaultList(cs, u)
    decreases |cs|
  {
    if i < |cs| {
      var init := cs[..|cs| - 1];
      assert init[..i] == cs[..i];
      DefaultListPrefix(init, i, u);
    } else {
      assert cs[..i] == cs;
    }
  }

  /** Once a default fails, the defaults that extend it fail with the same exception. */
  lemma {:induction false} DefaultsStop(t: Tables, data: seq<byte>, p: seq<(Creator, DefaultParams)>,
                                        q: seq<(Creator, DefaultParams)>, u: Collaborators)
    requires p <= q && DefaultTables(t, data, p, u).Err?
    ensures DefaultTables(t, data, q, u) == DefaultTables(t, data, p, u)
    decreases |q|
  {
    if |q| > |p| {
      DefaultsStop(t, data, p, q[..|q| - 1], u);
    } else {
      assert p == q;
    }
  }

  /** The graphics creator, registered first, contributes the first default: the
      sprite graphics at 0x20000. */
  lemma GraphicsDefaultFirst(u: Collaborators)
    ensures |DefaultList(Creators, u)| > 0
    ensures DefaultList(Creators, u)[0] ==
      (GraphicsCreator, DefaultParams(0x20000, GraphicsName(SpritesGraphicsName, Some(0x20000)), Some(0x5D300)))
  {
    DefaultListPrefix(Creators, 1, u);
    assert Creators[..1][..0] == [];
  }

  /** The defaults done have been created on top of the tables t0, and the stream
      position and its stack are back where they were. */
  ghost predicate DefaultsDone(s: NStream, info: ROMInfo, done: seq<(Creator, DefaultParams)>, t0: Tables,
                               pos0: nat, stack0: seq<nat>, u: Collaborators)
    reads s, info, info.freespace
  {
    var d := DefaultTables(t0, s.data, done, u);
    info.Valid() && d.Ok? && TablesOf(info) == d.value && s.pos == pos0 && s.stack == stack0
  }

  /** The defaults of one more creator follow those of the creators before it. */
  lemma DefaultListStep(cs: seq<Creator>, i: nat, u: Collaborators)
    requires i < |cs|
    ensures DefaultList(cs[..i + 1], u) == DefaultList(cs[..i], u) + Paired(cs[i], GetDefaults(cs[i], u))
  {
    assert cs[..i + 1][..i] == cs[..i];
  }

  /** The call to CreateAsset for one default. */
  method CreateDefault(s: NStream, info: ROMInfo, cd: (Creator, DefaultParams), ghost done: seq<(Creator, DefaultParams)>,
                       ghost t0: Tables, ghost pos0: nat, ghost stack0: seq<nat>,
                       u: Collaborators) returns (r: Result<()>)
    requires DefaultsDone(s, info, done, t0, pos0, stack0, u)
    modifies s`pos, s`stack, info`assets, info`names, info.freespace
    ensures info.Valid()
    ensures r.Ok? ==> DefaultsDone(s, info, done + [cd], t0, pos0, stack0, u)
    ensures r.Err? ==> DefaultTables(t0, s.data, done + [cd], u) == Err(r.error)
  {
    ghost var t1 := TablesOf(info);
    var created := CreateAsset(s, info, cd.0, cd.1.nameInfo, cd.1.pointer, cd.1.size, u);
    if cd.1.pointer >= 0 {
      CreatedReads(t1, s.data, cd.0, cd.1.nameInfo, cd.1.pointer, cd.1.size, u);
    }
    ghost var after := done + [cd];
    assert after[..|after| - 1] == done && after[|after| - 1] == cd;
    if created.Err? {
      return Err(created.error);
    }
    r := Ok(());
  }

  /** Pairing one more default of c extends the list by that default. */
  lemma PairedStep(prior: seq<(Creator, DefaultParams)>, c: Creator, ds: seq<DefaultParams>, k: nat)
    requires k < |ds|
    ensures prior + Paired(c, ds[..k + 1]) == prior + Paired(c, ds[..k]) + [(c, ds[k])]
    ensures Paired(c, ds)[..k + 1] == Paired(c, ds[..k + 1])
  {
    assert Paired(c, ds[..k + 1]) == Paired(c, ds[..k]) + [(c, ds[k])];
  }

  /** The inner loop of AddAllDefaults: the defaults of one creator. */
  method CreateDefaultsOf(s: NStream, info: ROMInfo, c: Creator, ghost prior: seq<(Creator, DefaultParams)>,
                          ghost t0: Tables, ghost pos0: nat, ghost stack0: seq<nat>,
                          u: Collaborators) returns (r: Result<()>, ghost failed: nat)
    requires DefaultsDone(s, info, prior, t0, pos0, stack0, u)
    modifies s`pos, s`stack, info`assets, info`names, info.freespace
    ensures info.Valid()
    ensures r.Ok? ==> DefaultsDone(s, info, prior + Paired(c, GetDefaults(c, u)), t0, pos0, stack0, u)
    ensures r.Err? ==> 0 < failed <= |GetDefaults(c, u)| &&
                       DefaultTables(t0, s.data, prior + Paired(c, GetDefaults(c, u))[..failed], u) == Err(r.error)
  {
    var ds := GetDefaults(c, u);
    assert prior + Paired(c, ds[..0]) == prior;
    for k := 0 to |ds|
      invariant DefaultsDone(s, info, prior + Paired(c, ds[..k]), t0, pos0, stack0, u)
    {
      var created := CreateDefault(s, info, (c, ds[k]), prior + Paired(c, ds[..k]), t0, pos0, stack0, u);
      PairedStep(prior, c, ds, k);
      if created.Err? {
        return Err(created.error), k + 1;
      }
    }
    assert ds[..|ds|] == ds;
    r, failed := Ok(()), 0;
  }

  /** Asset.AddAllDefaults: every default of every creator, in registration order,
      is created from the image; the first failure stops the rest. */
  method AddAllDefaults(s: NStream, info: ROMInfo, u: Collaborators) returns (r: Result<()>)
    requires info.Valid()
    modifies s`pos, s`stack, info`assets, info`names, info.freespace
    ensures info.Valid()
    ensures var d := DefaultTables(old(TablesOf(info)), s.data, DefaultList(Creators, u), u);
      (r.Ok? <==> d.Ok?) && (r.Err? ==> r.error == d.error) &&
      (r.Ok? ==> TablesOf(info) == d.value && s.pos == old(s.pos) && s.stack == old(s.stack))
  {
    ghost var t0, pos0, stack0 := TablesOf(info), s.pos, s.stack;
    assert DefaultList(Creators[..0], u) == [];
    for i := 0 to |Creators|
      invariant DefaultsDone(s, info, DefaultList(Creators[..i], u), t0, pos0, stack0, u)
    {
      DefaultListStep(Creators, i, u);
      var created, failed := CreateDefaultsOf(s, info, Creators[i], DefaultList(Creators[..i], u), t0, pos0, stack0, u);
      if created.Err? {
        DefaultsFail(t0, s.data, Creators, i, failed, u);
        return Err(created.error);
      }
    }
    assert Creators[..|Creators|] == Creators;
    r := Ok(());
  }

  /** A failure among the first k defaults of creator i makes the whole list fail
      with that exception. */
  lemma DefaultsFail(t: Tables, data: seq<byte>, cs: seq<Creator>, i: nat, k: nat, u: Collaborators)
    requires i < |cs| && k <= |GetDefaults(cs[i], u)|
    requires DefaultTables(t, data, DefaultList(cs[..i], u) + Paired(cs[i], GetDefaults(cs[i], u))[..k], u).Err?
    ensures DefaultTables(t, data, DefaultList(cs, u), u) ==
            DefaultTables(t, data, DefaultList(cs[..i], u) + Paired(cs[i], GetDefaults(cs[i], u))[..k], u)
  {
    var prior := DefaultList(cs[..i], u);
    var q := prior + Paired(cs[i], GetDefaults(cs[i], u));
    var p := prior + Paired(cs[i], GetDefaults(cs[i], u))[..k];
    assert p == q[..|prior| + k];
    DefaultListStep(cs, i, u);
    DefaultListPrefix(cs, i + 1, u);
    DefaultsStop(t, data, p, DefaultList(cs, u), u);
  }

  // ----------------------------------------------------------------- building

  /** Asset.ReserveSpace(freespace, pointer, length): only a fixed pointer reserves. */
  method ReserveSpace(fs: Freespace, pointer: Option<int>, length: nat) returns (r: Result<()>)
    requires fs.Valid()
    modifies fs
    ensures fs.Valid()
    ensures pointer.None? ==> r == Ok(()) && fs.free == old(fs.free)
    ensures pointer.Some? ==>
      var p := pointer.value;
      ((forall i :: p <= i < p + length ==> i in old(fs.free)) <==> r.Ok?) &&
      (r.Ok? ==> fs.free == old(fs.free) - Range(p, length)) &&
      (r.Err? ==> r.error == AllocationConflict(p, length) && fs.free == old(fs.free))
  {
    if pointer.Some? {
      var res := fs.Reserve(pointer.value, length);
      if res.Err? {
        return Err(res.error);
      }
    }
    r := Ok(());
  }

  /** Asset.InsertByteArray: writes the bytes at the fixed pointer, or at the first
      fitting free range when there is none, and records the pointer under the
      asset's name. */
  method InsertByteArray(s: NStream, info: ROMInfo, category: AssetCategory, name: string,
                         data: seq<byte>, pointer: Option<int>) returns (r: Result<int>)
    requires info.Valid()
    modifies s`data, s`pos, info`pointers, info.freespace
    ensures info.Valid()
    ensures pointer.Some? || r.Err? ==> info.freespace.free == old(info.freespace.free)
    ensures pointer.Some? && pointer.value < 0 ==> r == Err(NegativeSeek)
    ensures pointer.Some? && pointer.value >= 0 ==> r == Ok(pointer.value)
    ensures pointer.None? && r.Ok? ==>
      Fits(old(info.freespace.free), r.value, |data|) &&
      (forall b :: 0 <= b < r.value ==> !Fits(old(info.freespace.free), b, |data|)) &&
      info.freespace.free == old(info.freespace.free) - Range(r.value, |data|)
    ensures pointer.None? && r.Err? ==>
      r.error == OutOfSpace(|data|) && forall b :: !Fits(old(info.freespace.free), b, |data|)
    ensures r.Ok? ==>
      r.value >= 0 &&
      s.data == Overwrite(old(s.data), r.value, data) &&
      info.pointers == old(info.pointers)[(category, name) := r.value]
  {
    var p: int;
    if pointer.None? {
      var claimed := info.freespace.Claim(|data|);
      if claimed.Err? {
        return Err(claimed.error);
      }
      p := claimed.value;
    } else {
      p := pointer.value;
    }
    var seek := s.Seek(p);
    if seek.Err? {
      return Err(seek.error);
    }
    s.Write(data);
    info.AddAssetPointer(category, name, p);
    r := Ok(p);
  }

  /** SpritesAsset.Insert: both sprite tables are written by the sprite writer, the
      second starting at the index where the first stopped. */
  method InsertSprites(s: NStream, sprites: seq<byte>, u: Collaborators)
    modifies s`data, s`pos
    ensures var w1 := u.writeSprites(sprites, 0, u.spriteData1);
            var w2 := u.writeSprites(sprites, w1.0, u.spriteData2);
            s.data == Overwrite(Overwrite(old(s.data), u.spriteData1, w1.1), u.spriteData2, w2.1)
  {
    var i := 0;
    var w1 := u.writeSprites(sprites, i, u.spriteData1);
    i := w1.0;
    var _ := s.Seek(u.spriteData1);
    s.Write(w1.1);
    var w2 := u.writeSprites(sprites, i, u.spriteData2);
    i := w2.0;
    var _ := s.Seek(u.spriteData2);
    s.Write(w2.1);
  }

  /** Asset.ReserveSpace on an asset: a graphics asset reserves its bytes at its fixed
      pointer; a sprites asset keeps the base implementation, which reserves nothing. */
  method ReserveAsset(fs: Freespace, a: Asset) returns (r: Result<()>)
    requires fs.Valid()
    modifies fs
    ensures fs.Valid()
    ensures !a.info.GraphicsName? ==> r == Ok(()) && fs.free == old(fs.free)
    ensures a.info.GraphicsName? && a.info.pointer.None? ==> r == Ok(()) && fs.free == old(fs.free)
    ensures a.info.GraphicsName? && a.info.pointer.Some? ==>
      (r.Ok? <==> forall i :: a.info.pointer.value <= i < a.info.pointer.value + |a.data| ==> i in old(fs.free)) &&
      (r.Ok? ==> fs.free == old(fs.free) - Range(a.info.pointer.value, |a.data|)) &&
      (r.Err? ==> fs.free == old(fs.free))
  {
    if a.info.GraphicsName? {
      r := ReserveSpace(fs, a.info.pointer, |a.data|);
    } else {
      r := Ok(());
    }
  }

  /** Asset.Insert on an asset of a modelled kind. */
  method InsertAsset(s: NStream, info: ROMInfo, a: Asset, u: Collaborators) returns (r: Result<()>)
    requires info.Valid()
    modifies s`data, s`pos, info`pointers, info.freespace
    ensures info.Valid()
    ensures a.info.SpritesName? ==>
      r == Ok(()) && info.pointers == old(info.pointers) && info.freespace.free == old(info.freespace.free) &&
      var w1 := u.writeSprites(a.data, 0, u.spriteData1);
      var w2 := u.writeSprites(a.data, w1.0, u.spriteData2);
      s.data == Overwrite(Overwrite(old(s.data), u.spriteData1, w1.1), u.spriteData2, w2.1)
    ensures a.info.UnseenName? ==>
      r == Ok(()) && s.data == old(s.data) &&
      info.pointers == old(info.pointers) && info.freespace.free == old(info.freespace.free)
    ensures r.Ok? ==> |s.data| >= |old(s.data)|
    ensures info.freespace.free <= old(info.freespace.free)
    ensures a.info.GraphicsName? ==>
      (r.Err? <==> if a.info.pointer.Some? then a.info.pointer.value < 0
                   else forall b :: !Fits(old(info.freespace.free), b, |a.data|))
    ensures a.info.GraphicsName? && r.Ok? ==>
      (Graphics, a.info.name) in info.pointers &&
      var p := info.pointers[(Graphics, a.info.name)];
      p >= 0 && s.data == Overwrite(old(s.data), p, a.data) &&
      info.pointers == old(info.pointers)[(Graphics, a.info.name) := p] &&
      (a.info.pointer.Some? ==> p == a.info.pointer.value && info.freespace.free == old(info.freespace.free)) &&
      (a.info.pointer.None? ==>
        Fits(old(info.freespace.free), p, |a.data|) &&
        (forall b :: 0 <= b < p ==> !Fits(old(info.freespace.free), b, |a.data|)) &&
        info.freespace.free == old(info.freespace.free) - Range(p, |a.data|))
  {
    match a.info
    case GraphicsName(name, pointer) =>
      var res := InsertByteArray(s, info, Graphics, name, a.data, pointer);
      if res.Err? {
        return Err(res.error);
      }
      r := Ok(());
    case SpritesName =>
      InsertSprites(s, a.data, u);
      r := Ok(());
    case UnseenName(_, _, _) =>
      r := Ok(());
  }
}

/** Project (Project.cs): its path helpers, the scan that seeds free space from the
    0xFF padding at the end of each bank, the ROM size rounding and the build that
    puts every project file back into a copy of the base ROM. */
module Project {
  import opened Wrappers
  import opened Bytes
  import opened Rom
  import opened AssetPaths
  import opened Assets
  import opened RomInfo

  // ------------------------------------------------------------------- paths

  predicate EndsWith(s: string, c: char)
  {
    |s| > 0 && s[|s| - 1] == c
  }

  /** The project path with a trailing separator. */
  function FixPath(path: string, sep: char): (r: string)
    ensures EndsWith(r, sep)
    ensures r == path || r == path + [sep]
    ensures EndsWith(path, sep) ==> r == path
  {
    if !EndsWith(path, sep) then path + [sep] else path
  }

  lemma FixPathIdempotent(path: string, sep: char)
    ensures FixPath(FixPath(path, sep), sep) == FixPath(path, sep)
  {
  }

  /** Project.GetRelativePath: drops as many characters as the project path has.
      The prefix check is a debug assertion only; a shorter file name makes
      Substring throw. */
  function GetRelativePath(path: string, filename: string): (r: Result<string>)
    ensures r.Ok? <==> |path| <= |filename|
    ensures r.Ok? ==> |r.value| == |filename| - |path| && r.value == filename[|path|..]
  {
    if |filename| < |path| then Err(SubstringOutOfRange) else Ok(filename[|path|..])
  }

  /** A file under the project directory comes back as its path below it. */
  lemma RelativePathStripsPrefix(path: string, rel: string)
    ensures GetRelativePath(path, path + rel) == Ok(rel)
  {
    assert (path + rel)[|path|..] == rel;
  }

  // ------------------------------------------------------- end-of-bank scan

  /** The number of consecutive 0xFF bytes ending at `end`, going backwards. */
  function RunLength(data: seq<byte>, end: nat): (n: nat)
    requires end < |data|
    ensures n <= end + 1
  {
    if data[end] != 0xFF then 0
    else if end == 0 then 1
    else 1 + RunLength(data, end - 1)
  }

  /** The run is all 0xFF and is preceded by a byte that is not, or by the start. */
  lemma {:induction false} RunLengthIsRun(data: seq<byte>, end: nat)
    requires end < |data|
    ensures var n := RunLength(data, end);
      (forall i :: end - n < i <= end ==> data[i] == 0xFF) && (n <= end ==> data[end - n] != 0xFF)
  {
    if data[end] == 0xFF && end > 0 {
      RunLengthIsRun(data, end - 1);
    }
  }

  /** What one bank's scan frees: the run without its two lowest bytes. */
  function BankFree(data: seq<byte>, end: nat): (r: set<int>)
    requires end < |data|
  {
    var n := RunLength(data, end);
    if n >= 2 then Range(end - n + 3, n - 2) else {}
  }

  /** A run of length L >= 2 frees exactly the L - 2 bytes ending at the bank's last
      byte, all of them 0xFF; a shorter run frees nothing. */
  lemma BankFreeIsRunTail(data: seq<byte>, end: nat)
    requires end < |data|
    ensures var n := RunLength(data, end);
      forall i :: i in BankFree(data, end) <==> n >= 2 && end - n + 3 <= i <= end
    ensures forall i :: i in BankFree(data, end) ==> 0 <= i < |data| && data[i] == 0xFF
  {
    RunLengthIsRun(data, end);
  }

  /** The last byte of bank b. */
  function BankEnd(b: nat): nat
  {
    b * BankSize + BankSize - 1
  }

  /** The banks whose last byte lies inside an image of n bytes: the full banks. */
  function ScannedBanks(n: nat): nat
  {
    n / BankSize
  }

  lemma ScannedBanksAreInside(n: nat, b: nat)
    ensures BankEnd(b) < n <==> b < ScannedBanks(n)
  {
  }

  /** The offsets freed by the scans of banks 0 .. k-1. */
  function EndOfBankFree(data: seq<byte>, k: nat): set<int>
    requires k <= ScannedBanks(|data|)
  {
    if k == 0 then {} else EndOfBankFree(data, k - 1) + BankFree(data, BankEnd(k - 1))
  }

  /** A run that reaches offset 0 makes the scan seek to -1. */
  predicate ReachesStart(data: seq<byte>, end: nat)
    requires end < |data|
  {
    RunLength(data, end) == end + 1
  }

  /** Project.AddEndOfBankFreespace. Every bank's scan stops at the first byte that
      is not 0xFF; only a bank whose run goes back to offset 0 makes it fail. */
  method AddEndOfBankFreespace(s: NStream, fs: Freespace) returns (r: Result<()>)
    requires fs.Valid()
    modifies s`pos, fs
    ensures fs.Valid()
    ensures r.Ok? <==> forall b :: 0 <= b < ScannedBanks(|s.data|) ==> !ReachesStart(s.data, BankEnd(b))
    ensures r.Ok? ==> fs.free == old(fs.free) + EndOfBankFree(s.data, ScannedBanks(|s.data|))
  {
    var data := s.data;
    var bank := 0;
    var bankEndPos := BankSize - 1;
    while bankEndPos < |s.data|
      invariant s.data == data
      invariant bankEndPos == BankEnd(bank) && bank <= ScannedBanks(|data|)
      invariant fs.Valid() && fs.free == old(fs.free) + EndOfBankFree(data, bank)
      invariant forall b :: 0 <= b < bank ==> !ReachesStart(data, BankEnd(b))
      decreases |s.data| - bankEndPos
    {
      ScannedBanksAreInside(|data|, bank);
      var res := ScanBank(s, fs, bankEndPos);
      if res.Err? {
        assert ReachesStart(data, BankEnd(bank));
        return Err(res.error);
      }
      bank := bank + 1;
      bankEndPos := bankEndPos + BankSize;
    }
    ScannedBanksAreInside(|data|, bank);
    r := Ok(());
  }

  /** The body of the scan loop for the bank ending at `end`. */
  method ScanBank(s: NStream, fs: Freespace, end: nat) returns (r: Result<()>)
    requires fs.Valid() && end < |s.data|
    modifies s`pos, fs
    ensures fs.Valid()
    ensures r.Ok? <==> !ReachesStart(s.data, end)
    ensures r.Ok? ==> fs.free == old(fs.free) + BankFree(s.data, end)
  {
    var _ := s.Seek(end);
    var length := 0;
    var b := s.ReadByte();
    while b == 0xFF
      invariant length <= end && s.pos == end - length + 1
      invariant b == s.data[end - length]
      invariant RunLength(s.data, end) == length + RunLength(s.data, end - length)
      invariant fs.free == old(fs.free) && fs.limit == old(fs.limit)
      decreases end - length
    {
      length := length + 1;
      if length > end {
        return Err(NegativeSeek);
      }
      var _ := s.Seek(s.pos - 2);
      b := s.ReadByte();
    }
    if length >= 2 {
      fs.AddSize(s.pos + 2, length - 2);
    }
    r := Ok(());
  }

  // ------------------------------------------------------------- ROM size

  /** The header byte that holds the ROM size (ROMPointers.ROMSize, LoROM offset of
      $00:FFD7). */
  const ROMSize: nat := 0x7FD7

  /** The length rounded up to whole banks (integer ceiling division). */
  function RoundUpToBank(n: nat): (r: nat)
    ensures r % BankSize == 0 && n <= r < n + BankSize
  {
    (n + BankSize - 1) / BankSize * BankSize
  }

  function Pow2(k: nat): (r: nat)
    ensures r >= 1
  {
    if k == 0 then 1 else 2 * Pow2(k - 1)
  }

  lemma {:induction false} Pow2Monotone(a: nat, b: nat)
    requires a <= b
    ensures Pow2(a) <= Pow2(b)
  {
    if a < b {
      Pow2Monotone(a, b - 1);
    }
  }

  /** The smallest k with n <= 2^k: the exact value of Ceiling(Log(n, 2)). */
  function CeilLog2(n: nat): (k: nat)
    ensures n <= Pow2(k)
    ensures k > 0 ==> Pow2(k - 1) < n
  {
    if n <= 1 then 0 else CeilLog2((n + 1) / 2) + 1
  }

  /** The size byte for a length of whole banks: ceil(log2(length)) - 10 as a byte.
      An empty image would take the logarithm of 0; it is given 0 here. */
  function SizeByte(n: nat): byte
    requires n % BankSize == 0
  {
    if n == 0 then 0 else (CeilLog2(n) - 10) % 0x100
  }

  lemma Pow2Fourteen()
    ensures Pow2(14) == 0x4000
  {
    assert Pow2(0) == 1 && Pow2(1) == 2 && Pow2(2) == 4 && Pow2(3) == 8;
    assert Pow2(4) == 16 && Pow2(5) == 32 && Pow2(6) == 64 && Pow2(7) == 128;
    assert Pow2(8) == 256 && Pow2(9) == 512 && Pow2(10) == 1024 && Pow2(11) == 2048;
    assert Pow2(12) == 4096 && Pow2(13) == 8192;
  }

  /** For a non-empty image of whole banks (at most 2^63 bytes, a stream length),
      2^(v + 10) is the smallest power of two that holds it. */
  lemma SizeByteIsLog(n: nat)
    requires n % BankSize == 0 && 0 < n <= Pow2(63)
    ensures 5 <= SizeByte(n) <= 53
    ensures n <= Pow2(SizeByte(n) + 10) && Pow2(SizeByte(n) + 9) < n
  {
    var k := CeilLog2(n);
    WholeBanksAtLeastOne(n);
    Pow2Fourteen();
    if k < 15 {
      Pow2Monotone(k, 14);
      assert false;
    }
    if k > 63 {
      Pow2Monotone(63, k - 1);
      assert false;
    }
    assert 0 <= k - 10 < 0x100;
    assert SizeByte(n) == k - 10;
  }

  lemma WholeBanksAtLeastOne(n: nat)
    requires n % BankSize == 0 && 0 < n
    ensures n >= BankSize
  {
    var q := n / BankSize;
    assert n == q * BankSize;
    assert q >= 1;
  }

  // ------------------------------------------------------------ asset order

  function Key(a: Asset): nat
  {
    Ordinal(Category(a.info))
  }

  predicate SortedByCategory(xs: seq<Asset>)
  {
    forall i, j :: 0 <= i < j < |xs| ==> Key(xs[i]) <= Key(xs[j])
  }

  function InsertByCategory(a: Asset, xs: seq<Asset>): (r: seq<Asset>)
    ensures multiset(r) == multiset(xs) + multiset{a}
  {
    if xs == [] || Key(a) <= Key(xs[0]) then [a] + xs
    else
      assert xs == [xs[0]] + xs[1..];
      [xs[0]] + InsertByCategory(a, xs[1..])
  }

  lemma {:induction false} InsertKeepsSorted(a: Asset, xs: seq<Asset>)
    requires SortedByCategory(xs)
    ensures SortedByCategory(InsertByCategory(a, xs))
  {
    if xs != [] && Key(a) > Key(xs[0]) {
      var rest := InsertByCategory(a, xs[1..]);
      InsertKeepsSorted(a, xs[1..]);
      forall k | 0 <= k < |rest| ensures Key(xs[0]) <= Key(rest[k]) {
        assert rest[k] in multiset(rest);
        assert rest[k] == a || rest[k] in multiset(xs[1..]);
      }
    }
  }

  /** info.assets.Sort(): the assets in category order (Asset.CompareTo), as a
      permutation of the loaded list. */
  function SortByCategory(xs: seq<Asset>): (r: seq<Asset>)
    ensures SortedByCategory(r)
    ensures multiset(r) == multiset(xs)
  {
    if xs == [] then []
    else
      assert xs == [xs[0]] + xs[1..];
      InsertKeepsSorted(xs[0], SortByCategory(xs[1..]));
      InsertByCategory(xs[0], SortByCategory(xs[1..]))
  }

  /** Category order and CompareTo agree on a sorted list. */
  lemma SortedMeansCompareOrdered(xs: seq<Asset>)
    requires SortedByCategory(xs)
    ensures forall i, j :: 0 <= i < j < |xs| ==> CompareTo(xs[i], xs[j]) <= 0
  {
  }

  // -------------------------------------------------------------- loading

  /** One file of the listing: its path below the project directory, then
      Asset.FromFile (null when no creator recognises it). A file name shorter than
      the project path is the Substring error. */
  function LoadFile(projectPath: string, file: (string, seq<byte>), sep: char, u: Collaborators): (r: Result<Option<Asset>>)
    ensures r.Ok? <==> |projectPath| <= |file.0|
    ensures r.Err? ==> r.error == SubstringOutOfRange
    ensures r.Ok? && r.value.Some? ==> r.value.value.data == file.1
  {
    match GetRelativePath(projectPath, file.0)
    case Err(e) => Err(e)
    case Ok(rel) =>
      match InfoOf(rel, sep, u)
      case None => Ok(None)
      case Some(n) => Ok(Some(Asset(n, file.1)))
  }

  /** Wherever the source's FromFile does not throw, LoadFile gives what it gives:
      the recognised asset with the file's contents, or null. */
  lemma LoadFileAsWritten(projectPath: string, file: (string, seq<byte>), sep: char, u: Collaborators)
    requires |projectPath| <= |file.0|
    requires InfoOfAsWritten(file.0[|projectPath|..], sep, u).Ok?
    ensures LoadFile(projectPath, file, sep, u) ==
      Ok(match InfoOfAsWritten(file.0[|projectPath|..], sep, u).value
         case None => None
         case Some(n) => Some(Asset(n, file.1)))
  {
    AsWrittenThrowsOnlyUnparsed(file.0[|projectPath|..], sep, u);
  }

  /** The assets a per-file loader gives for the listed files, in listing order,
      skipping the files it does not recognise and stopping at its first error. */
  function LoadEach(files: seq<(string, seq<byte>)>, load: ((string, seq<byte>)) -> Result<Option<Asset>>): Result<seq<Asset>>
  {
    if files == [] then Ok([])
    else
      var prev := LoadEach(files[..|files| - 1], load);
      var last := load(files[|files| - 1]);
      if prev.Err? then prev
      else if last.Err? then Err(last.error)
      else if last.value.Some? then Ok(prev.value + [last.value.value])
      else prev
  }

  function LoadAll(projectPath: string, files: seq<(string, seq<byte>)>, sep: char, u: Collaborators): Result<seq<Asset>>
  {
    LoadEach(files, file => LoadFile(projectPath, file, sep, u))
  }

  /** Loading succeeds iff every file loads, and then it keeps exactly the
      recognised files: every loaded asset is some file's asset, and every
      recognised file's asset is loaded. */
  lemma {:induction false} LoadEachKeepsRecognised(files: seq<(string, seq<byte>)>, load: ((string, seq<byte>)) -> Result<Option<Asset>>)
    ensures LoadEach(files, load).Ok? <==> forall j :: 0 <= j < |files| ==> load(files[j]).Ok?
    ensures LoadEach(files, load).Ok? ==>
      var xs := LoadEach(files, load).value;
      |xs| <= |files| &&
      (forall k :: 0 <= k < |xs| ==> exists j :: 0 <= j < |files| && load(files[j]) == Ok(Some(xs[k]))) &&
      (forall j :: 0 <= j < |files| && load(files[j]).value.Some? ==> load(files[j]).value.value in xs)
  {
    if files != [] {
      var init := files[..|files| - 1];
      LoadEachKeepsRecognised(init, load);
      assert forall j :: 0 <= j < |init| ==> files[j] == init[j];
      if LoadEach(files, load).Ok? {
        var xs := LoadEach(files, load).value;
        var ys := LoadEach(init, load).value;
        assert xs[..|ys|] == ys;
        forall k | 0 <= k < |xs|
          ensures exists j :: 0 <= j < |files| && load(files[j]) == Ok(Some(xs[k]))
        {
          if k < |ys| {
            assert xs[k] == ys[k];
            var j :| 0 <= j < |init| && load(init[j]) == Ok(Some(ys[k]));
            assert files[j] == init[j];
          } else {
            assert load(files[|files| - 1]) == Ok(Some(xs[k]));
          }
        }
      }
    }
  }

  /** The listing loop of Project.Build. */
  method LoadProjectAssets(projectPath: string, files: seq<(string, seq<byte>)>, sep: char, u: Collaborators)
    returns (r: Result<seq<Asset>>)
    ensures r == LoadAll(projectPath, files, sep, u)
  {
    var load := file => LoadFile(projectPath, file, sep, u);
    var loaded: seq<Asset> := [];
    var i := 0;
    while i < |files|
      invariant 0 <= i <= |files|
      invariant LoadEach(files[..i], load) == Ok(loaded)
    {
      assert files[..i + 1][..i] == files[..i];
      var (name, contents) := files[i];
      assert files[..i + 1][i] == files[i];
      var rel := GetRelativePath(projectPath, name);
      if rel.Err? {
        LoadEachStopsAtError(files, i + 1, load);
        return Err(rel.error);
      }
      var asset := FromFile(rel.value, sep, contents, u);
      assert load(files[i]) == Ok(asset);
      if asset.Some? {
        loaded := loaded + [asset.value];
      }
      i := i + 1;
    }
    assert files[..i] == files;
    r := Ok(loaded);
  }

  /** An error in a prefix of the listing is the error of the whole. */
  lemma {:induction false} LoadEachStopsAtError(files: seq<(string, seq<byte>)>, k: nat, load: ((string, seq<byte>)) -> Result<Option<Asset>>)
    requires k <= |files| && LoadEach(files[..k], load).Err?
    ensures LoadEach(files, load) == LoadEach(files[..k], load)
    decreases |files| - k
  {
    if k < |files| {
      assert files[..k + 1][..k] == files[..k];
      LoadEachStopsAtError(files, k + 1, load);
    } else {
      assert files[..k] == files;
    }
  }

  // ------------------------------------------------------------ reserving

  /** A graphics asset with a fixed pointer: the only kind whose ReserveSpace
      reserves anything. */
  predicate IsFixed(a: Asset)
  {
    a.info.GraphicsName? && a.info.pointer.Some?
  }

  function FixedRange(a: Asset): set<int>
    requires IsFixed(a)
  {
    Range(a.info.pointer.value, |a.data|)
  }

  /** The free space after one asset's ReserveSpace, or None when its fixed range is
      not all free. */
  function ReserveOne(free: set<int>, a: Asset): Option<set<int>>
  {
    if !IsFixed(a) then Some(free)
    else if FixedRange(a) <= free then Some(free - FixedRange(a))
    else None
  }

  /** The free space after ReserveSpace on every asset in order. */
  function ReserveEach(free: set<int>, xs: seq<Asset>): Option<set<int>>
  {
    if xs == [] then Some(free)
    else
      match ReserveEach(free, xs[..|xs| - 1])
      case None => None
      case Some(f) => ReserveOne(f, xs[|xs| - 1])
  }

  /** The fixed ranges are free and pairwise disjoint. */
  predicate FixedRangesFit(free: set<int>, xs: seq<Asset>)
  {
    (forall j :: 0 <= j < |xs| && IsFixed(xs[j]) ==> FixedRange(xs[j]) <= free) &&
    (forall j, k :: 0 <= j < k < |xs| && IsFixed(xs[j]) && IsFixed(xs[k]) ==> FixedRange(xs[j]) !! FixedRange(xs[k]))
  }

  /** Offset i lies in the fixed range of some asset. */
  predicate InSomeFixedRange(xs: seq<Asset>, i: int)
  {
    exists j :: 0 <= j < |xs| && IsFixed(xs[j]) && i in FixedRange(xs[j])
  }

  /** Reserving succeeds iff the fixed ranges are free and pairwise disjoint; it
      then removes exactly their union. */
  lemma {:induction false} ReserveEachRemovesFixed(free: set<int>, xs: seq<Asset>)
    ensures ReserveEach(free, xs).Some? <==> FixedRangesFit(free, xs)
    ensures ReserveEach(free, xs).Some? ==>
      ReserveEach(free, xs).value <= free &&
      forall i :: i in free - ReserveEach(free, xs).value <==> InSomeFixedRange(xs, i)
  {
    if xs != [] {
      var init := xs[..|xs| - 1];
      var a := xs[|xs| - 1];
      assert xs == init + [a];
      ReserveEachRemovesFixed(free, init);
      FitsPrefix(free, init, a);
      if ReserveEach(free, init).Some? {
        var f := ReserveEach(free, init).value;
        if !IsFixed(a) {
          UnfixedStep(free, init, a);
        } else if FixedRange(a) <= f {
          FixedStepFits(free, f, init, a);
          FixedStepRemoves(free, f, init, a);
        } else {
          FixedStepConflicts(free, f, init, a);
        }
      }
    }
  }

  lemma FitsPrefix(free: set<int>, init: seq<Asset>, a: Asset)
    ensures FixedRangesFit(free, init + [a]) ==> FixedRangesFit(free, init)
    ensures forall i :: InSomeFixedRange(init, i) ==> InSomeFixedRange(init + [a], i)
  {
    var xs := init + [a];
    assert forall j :: 0 <= j < |init| ==> xs[j] == init[j];
    forall i | InSomeFixedRange(init, i) ensures InSomeFixedRange(xs, i) {
      var j :| 0 <= j < |init| && IsFixed(init[j]) && i in FixedRange(init[j]);
      assert xs[j] == init[j];
    }
  }

  lemma UnfixedStep(free: set<int>, init: seq<Asset>, a: Asset)
    requires !IsFixed(a)
    ensures FixedRangesFit(free, init) ==> FixedRangesFit(free, init + [a])
    ensures forall i :: InSomeFixedRange(init + [a], i) ==> InSomeFixedRange(init, i)
  {
    var xs := init + [a];
    assert forall j :: 0 <= j < |init| ==> xs[j] == init[j];
    forall i | InSomeFixedRange(xs, i) ensures InSomeFixedRange(init, i) {
      var j :| 0 <= j < |xs| && IsFixed(xs[j]) && i in FixedRange(xs[j]);
      assert j < |init| && xs[j] == init[j];
    }
  }

  lemma FixedStepFits(free: set<int>, f: set<int>, init: seq<Asset>, a: Asset)
    requires IsFixed(a) && FixedRange(a) <= f && f <= free && FixedRangesFit(free, init)
    requires forall i :: i in free - f <==> InSomeFixedRange(init, i)
    ensures FixedRangesFit(free, init + [a])
  {
    var xs := init + [a];
    assert forall j :: 0 <= j < |init| ==> xs[j] == init[j];
    forall j | 0 <= j < |init| && IsFixed(init[j]) ensures FixedRange(init[j]) !! FixedRange(a) {
      forall i | i in FixedRange(init[j]) ensures i !in FixedRange(a) {
        assert InSomeFixedRange(init, i);
      }
    }
    assert xs[|xs| - 1] == a;
  }

  lemma FixedStepRemoves(free: set<int>, f: set<int>, init: seq<Asset>, a: Asset)
    requires IsFixed(a) && FixedRange(a) <= f && f <= free
    requires forall i :: i in free - f <==> InSomeFixedRange(init, i)
    ensures forall i :: i in free - (f - FixedRange(a)) <==> InSomeFixedRange(init + [a], i)
  {
    var xs := init + [a];
    forall i | InSomeFixedRange(xs, i) ensures InSomeFixedRange(init, i) || i in FixedRange(a) {
      var j :| 0 <= j < |xs| && IsFixed(xs[j]) && i in FixedRange(xs[j]);
      if j < |init| {
        assert xs[j] == init[j];
      }
    }
    forall i | InSomeFixedRange(init, i) ensures InSomeFixedRange(xs, i) {
      var j :| 0 <= j < |init| && IsFixed(init[j]) && i in FixedRange(init[j]);
      assert xs[j] == init[j];
    }
    forall i | i in FixedRange(a) ensures InSomeFixedRange(xs, i) {
      assert xs[|xs| - 1] == a;
    }
  }

  lemma FixedStepConflicts(free: set<int>, f: set<int>, init: seq<Asset>, a: Asset)
    requires IsFixed(a) && !(FixedRange(a) <= f)
    requires forall i :: i in free - f <==> InSomeFixedRange(init, i)
    ensures !FixedRangesFit(free, init + [a])
  {
    var xs := init + [a];
    var i :| i in FixedRange(a) && i !in f;
    if i in free {
      assert i in free - f;
      var j :| 0 <= j < |init| && IsFixed(init[j]) && i in FixedRange(init[j]);
      assert xs[j] == init[j] && xs[|xs| - 1] == a;
      assert !(FixedRange(xs[j]) !! FixedRange(xs[|xs| - 1]));
    } else {
      assert xs[|xs| - 1] == a;
    }
  }

  /** The ReserveSpace loop of Project.Build. */
  method ReserveAll(fs: Freespace, xs: seq<Asset>) returns (r: Result<()>)
    requires fs.Valid()
    modifies fs
    ensures fs.Valid()
    ensures r.Ok? <==> ReserveEach(old(fs.free), xs).Some?
    ensures r.Ok? ==> fs.free == ReserveEach(old(fs.free), xs).value
  {
    var i := 0;
    while i < |xs|
      invariant 0 <= i <= |xs| && fs.Valid()
      invariant ReserveEach(old(fs.free), xs[..i]) == Some(fs.free)
    {
      assert xs[..i + 1][..i] == xs[..i];
      var res := ReserveAsset(fs, xs[i]);
      if res.Err? {
        assert ReserveEach(old(fs.free), xs[..i + 1]).None?;
        ReserveEachStopsAtConflict(old(fs.free), xs, i + 1);
        return Err(res.error);
      }
      assert ReserveEach(old(fs.free), xs[..i + 1]) == Some(fs.free);
      i := i + 1;
    }
    assert xs[..i] == xs;
    r := Ok(());
  }

  lemma {:induction false} ReserveEachStopsAtConflict(free: set<int>, xs: seq<Asset>, k: nat)
    requires k <= |xs| && ReserveEach(free, xs[..k]).None?
    ensures ReserveEach(free, xs).None?
    decreases |xs| - k
  {
    if k < |xs| {
      assert xs[..k + 1][..k] == xs[..k];
      ReserveEachStopsAtConflict(free, xs, k + 1);
    } else {
      assert xs[..k] == xs;
    }
  }

  /** After a successful reservation, no fixed range is still free, and no two
      overlap. */
  lemma ReservedSeparated(free: set<int>, xs: seq<Asset>)
    requires ReserveEach(free, xs).Some?
    ensures Separated(ReserveEach(free, xs).value, xs)
  {
    ReserveEachRemovesFixed(free, xs);
    var rest := ReserveEach(free, xs).value;
    forall k | 0 <= k < |xs| && IsFixed(xs[k]) ensures FixedRange(xs[k]) !! rest {
      forall i | i in FixedRange(xs[k]) ensures i !in rest {
        assert InSomeFixedRange(xs, i);
      }
    }
  }

  // ------------------------------------------------------------- inserting

  /** xs[j] is a graphics asset and no graphics asset after it in xs[..n] has its
      name, so the pointer recorded under that name is its own. */
  predicate LastOfName(xs: seq<Asset>, j: int, n: int)
  {
    0 <= j < n <= |xs| && xs[j].info.GraphicsName? &&
    forall k :: j < k < n && xs[k].info.GraphicsName? ==> xs[k].info.name != xs[j].info.name
  }

  /** Before the inserts: no fixed range is free, and no two of them overlap. */
  predicate Separated(free: set<int>, xs: seq<Asset>)
  {
    (forall k :: 0 <= k < |xs| && IsFixed(xs[k]) ==> FixedRange(xs[k]) !! free) &&
    (forall j, k :: 0 <= j < k < |xs| && IsFixed(xs[j]) && IsFixed(xs[k]) ==> FixedRange(xs[j]) !! FixedRange(xs[k]))
  }

  /** The bytes of graphics asset `a` sit in the image at the pointer recorded under
      its name, which is its fixed pointer when it has one, and none of them is free. */
  ghost predicate Placed(a: Asset, data: seq<byte>, pointers: map<(AssetCategory, string), int>, free: set<int>)
    requires a.info.GraphicsName?
  {
    (Graphics, a.info.name) in pointers &&
    var p := pointers[(Graphics, a.info.name)];
    0 <= p && p + |a.data| <= |data| && data[p..p + |a.data|] == a.data &&
    (a.info.pointer.Some? ==> p == a.info.pointer.value) &&
    Range(p, |a.data|) !! free
  }

  /** Every graphics asset of xs[..n] that is the last of its name is placed, and
      the ones without a fixed pointer were put where `free0` was free. */
  ghost predicate PlacedUpTo(xs: seq<Asset>, n: int, data: seq<byte>, pointers: map<(AssetCategory, string), int>,
                            free: set<int>, free0: set<int>)
  {
    forall j :: 0 <= j < n && LastOfName(xs, j, n) ==>
      Placed(xs[j], data, pointers, free) &&
      (xs[j].info.pointer.None? ==> Range(pointers[(Graphics, xs[j].info.name)], |xs[j].data|) <= free0)
  }

  /** Sprites sort before graphics. */
  lemma SpritesBeforeGraphics(xs: seq<Asset>, i: int)
    requires SortedByCategory(xs) && 0 <= i < |xs| && xs[i].info.SpritesName?
    ensures forall j :: 0 <= j <= i ==> !xs[j].info.GraphicsName?
  {
    forall j | 0 <= j <= i ensures !xs[j].info.GraphicsName? {
      if j < i {
        assert Key(xs[j]) <= Key(xs[i]);
      }
    }
  }

  /** An insert that writes no graphics keeps every placement. */
  lemma OtherStep(xs: seq<Asset>, i: int, data: seq<byte>, pointers: map<(AssetCategory, string), int>,
                  free: set<int>, free0: set<int>)
    requires 0 <= i < |xs| && !xs[i].info.GraphicsName? && PlacedUpTo(xs, i, data, pointers, free, free0)
    ensures PlacedUpTo(xs, i + 1, data, pointers, free, free0)
  {
    forall j | 0 <= j < i + 1 && LastOfName(xs, j, i + 1) ensures LastOfName(xs, j, i) {
    }
  }

  /** The ranges of an earlier placed asset and of the one being inserted are disjoint:
      a claimed range was free, a fixed one is reserved and apart from every other. */
  lemma Disjoint(xs: seq<Asset>, j: int, i: int, q: int, p: int, free: set<int>, free0: set<int>)
    requires 0 <= j < i < |xs| && xs[j].info.GraphicsName? && xs[i].info.GraphicsName?
    requires Separated(free0, xs) && free <= free0
    requires Range(q, |xs[j].data|) !! free
    requires xs[j].info.pointer.Some? ==> q == xs[j].info.pointer.value
    requires xs[j].info.pointer.None? ==> Range(q, |xs[j].data|) <= free0
    requires xs[i].info.pointer.Some? ==> p == xs[i].info.pointer.value
    requires xs[i].info.pointer.None? ==> Range(p, |xs[i].data|) <= free
    ensures Range(q, |xs[j].data|) !! Range(p, |xs[i].data|)
  {
    if xs[i].info.pointer.Some? && xs[j].info.pointer.Some? {
      assert FixedRange(xs[j]) !! FixedRange(xs[i]);
    } else if xs[i].info.pointer.Some? {
      assert FixedRange(xs[i]) !! free0;
    }
  }

  /** A graphics insert places its asset and keeps every earlier placement of another
      name. */
  lemma GraphicsStep(xs: seq<Asset>, i: int, data: seq<byte>, data': seq<byte>,
                     pointers: map<(AssetCategory, string), int>, pointers': map<(AssetCategory, string), int>,
                     free: set<int>, free': set<int>, free0: set<int>, p: int)
    requires 0 <= i < |xs| && xs[i].info.GraphicsName? && Separated(free0, xs) && free <= free0
    requires PlacedUpTo(xs, i, data, pointers, free, free0)
    requires p >= 0 && data' == Overwrite(data, p, xs[i].data)
    requires pointers' == pointers[(Graphics, xs[i].info.name) := p]
    requires xs[i].info.pointer.Some? ==> p == xs[i].info.pointer.value && free' == free
    requires xs[i].info.pointer.None? ==> Range(p, |xs[i].data|) <= free && free' == free - Range(p, |xs[i].data|)
    ensures PlacedUpTo(xs, i + 1, data', pointers', free', free0)
  {
    var a := xs[i];
    forall j | 0 <= j < i + 1 && LastOfName(xs, j, i + 1)
      ensures Placed(xs[j], data', pointers', free') &&
              (xs[j].info.pointer.None? ==> Range(pointers'[(Graphics, xs[j].info.name)], |xs[j].data|) <= free0)
    {
      if j == i {
        if a.info.pointer.Some? {
          assert FixedRange(a) !! free0;
        }
        assert data'[p..p + |a.data|] == a.data;
      } else {
        assert LastOfName(xs, j, i);
        var b := xs[j];
        var q := pointers[(Graphics, b.info.name)];
        assert pointers'[(Graphics, b.info.name)] == q;
        Disjoint(xs, j, i, q, p, free, free0);
        KeptOutside(data, p, a.data, q, b.data);
      }
    }
  }

  /** Bytes that an overwrite does not touch stay where they were. */
  lemma KeptOutside(data: seq<byte>, p: nat, bytes: seq<byte>, q: int, d: seq<byte>)
    requires 0 <= q && q + |d| <= |data| && data[q..q + |d|] == d
    requires Range(q, |d|) !! Range(p, |bytes|)
    ensures Overwrite(data, p, bytes)[q..q + |d|] == d
  {
    var r := Overwrite(data, p, bytes);
    forall k | 0 <= k < |d| ensures r[q + k] == d[k] {
      assert q + k in Range(q, |d|);
      assert data[q..q + |d|][k] == data[q + k];
    }
  }

  /** The Insert loop of Project.Build, in list order. No name loses its pointer.
      On a list sorted by category whose fixed ranges have been reserved, each
      graphics asset that is the last of its name ends up with its bytes at the
      pointer recorded under that name (its fixed pointer, or a range claimed from
      the free space), outside the free space that remains; the sprite tables,
      written earlier, cannot overwrite them. */
  method InsertAll(s: NStream, info: ROMInfo, xs: seq<Asset>, u: Collaborators) returns (r: Result<()>)
    requires info.Valid()
    modifies s`data, s`pos, info`pointers, info.freespace
    ensures info.Valid() && info.assets == old(info.assets)
    ensures info.freespace.free <= old(info.freespace.free)
    ensures r.Ok? ==> |s.data| >= |old(s.data)|
    ensures r.Ok? ==> forall k :: k in old(info.pointers) ==> k in info.pointers
    ensures r.Ok? ==> forall a :: a in xs && a.info.GraphicsName? ==> (Graphics, a.info.name) in info.pointers
    ensures r.Ok? && SortedByCategory(xs) && Separated(old(info.freespace.free), xs) ==>
      PlacedUpTo(xs, |xs|, s.data, info.pointers, info.freespace.free, old(info.freespace.free))
  {
    ghost var free0 := info.freespace.free;
    ghost var placing := SortedByCategory(xs) && Separated(free0, xs);
    var i := 0;
    while i < |xs|
      invariant 0 <= i <= |xs| && info.Valid()
      invariant info.freespace.free <= free0
      invariant |s.data| >= |old(s.data)|
      invariant forall k :: k in old(info.pointers) ==> k in info.pointers
      invariant forall j :: 0 <= j < i && xs[j].info.GraphicsName? ==> (Graphics, xs[j].info.name) in info.pointers
      invariant placing ==> PlacedUpTo(xs, i, s.data, info.pointers, info.freespace.free, free0)
    {
      ghost var data, pointers, free := s.data, info.pointers, info.freespace.free;
      var res := InsertAsset(s, info, xs[i], u);
      if res.Err? {
        return Err(res.error);
      }
      if placing {
        if xs[i].info.GraphicsName? {
          GraphicsStep(xs, i, data, s.data, pointers, info.pointers, free, info.freespace.free, free0,
                       info.pointers[(Graphics, xs[i].info.name)]);
        } else if xs[i].info.SpritesName? {
          SpritesBeforeGraphics(xs, i);
        } else {
          OtherStep(xs, i, s.data, info.pointers, info.freespace.free, free0);
        }
      }
      i := i + 1;
    }
    r := Ok(());
  }

  // ----------------------------------------------------------------- build

  /** Project.Build up to the inserts, on the copy `s` of the base ROM and the tables
      `info` read from it, with the project directory `path` (already ending in a
      separator) listing `files`: the assets read from the ROM are dropped, the
      end-of-bank padding is freed, and the project files are loaded, sorted by
      category, all reserved and then all inserted. */
  method PlaceAssets(s: NStream, info: ROMInfo, path: string, files: seq<(string, seq<byte>)>,
                     sep: char, u: Collaborators) returns (r: Result<()>)
    requires info.Valid()
    modifies s`data, s`pos, info`assets, info`pointers, info.freespace
    ensures info.Valid()
    ensures r.Ok? ==>
      forall b :: 0 <= b < ScannedBanks(|old(s.data)|) ==> !ReachesStart(old(s.data), BankEnd(b))
    ensures r.Ok? ==>
      LoadAll(path, files, sep, u).Ok? && info.assets == SortByCategory(LoadAll(path, files, sep, u).value)
    ensures r.Ok? ==>
      ReserveEach(old(info.freespace.free) + EndOfBankFree(old(s.data), ScannedBanks(|old(s.data)|)), info.assets).Some?
    ensures r.Ok? ==> forall a :: a in info.assets && a.info.GraphicsName? ==> (Graphics, a.info.name) in info.pointers
    ensures r.Ok? ==> |old(s.data)| <= |s.data|
    ensures r.Ok? ==>
      var reserved := ReserveEach(old(info.freespace.free) + EndOfBankFree(old(s.data), ScannedBanks(|old(s.data)|)), info.assets);
      reserved.Some? &&
      PlacedUpTo(info.assets, |info.assets|, s.data, info.pointers, info.freespace.free, reserved.value)
  {
    info.assets := [];
    var scan := AddEndOfBankFreespace(s, info.freespace);
    if scan.Err? {
      return Err(scan.error);
    }
    var loaded := LoadProjectAssets(path, files, sep, u);
    if loaded.Err? {
      return Err(loaded.error);
    }
    info.assets := info.assets + loaded.value;
    assert info.assets == loaded.value;
    info.assets := SortByCategory(info.assets);
    var reserved := ReserveAll(info.freespace, info.assets);
    if reserved.Err? {
      return Err(reserved.error);
    }
    ReservedSeparated(old(info.freespace.free) + EndOfBankFree(old(s.data), ScannedBanks(|old(s.data)|)), info.assets);
    r := InsertAll(s, info, info.assets, u);
  }

  /** The end of Project.Build: the image is padded to whole banks, its size byte is
      written at ROMSize, and every free byte is filled with 0xFF; no other byte
      changes. */
  method FinishImage(s: NStream, fs: Freespace)
    modifies s`data, s`pos
    ensures ROMSize < |s.data| && |old(s.data)| <= |s.data|
    ensures |old(s.data)| == 0 ==> |s.data| == ROMSize + 1
    ensures |old(s.data)| > 0 ==>
      |s.data| == RoundUpToBank(|old(s.data)|) &&
      (ROMSize !in fs.free ==> s.data[ROMSize] == SizeByte(|s.data|))
    ensures forall i :: 0 <= i < |s.data| && i in fs.free ==> s.data[i] == 0xFF
    ensures forall i :: 0 <= i < |old(s.data)| && i != ROMSize && i !in fs.free ==> s.data[i] == old(s.data)[i]
  {
    var length := RoundUpToBank(|s.data|);
    s.SetLength(length);
    var _ := s.Seek(ROMSize);
    s.Write([SizeByte(length)]);
    fs.Fill(s, 0xFF);
  }

  /** Project.Build, without the copy of the base ROM, the reading of its tables and
      the assembler patch that follows. */
  method Build(s: NStream, info: ROMInfo, path: string, files: seq<(string, seq<byte>)>,
               sep: char, u: Collaborators) returns (r: Result<()>)
    requires info.Valid()
    modifies s`data, s`pos, info`assets, info`pointers, info.freespace
    ensures info.Valid()
    ensures r.Ok? ==>
      forall b :: 0 <= b < ScannedBanks(|old(s.data)|) ==> !ReachesStart(old(s.data), BankEnd(b))
    ensures r.Ok? ==>
      LoadAll(path, files, sep, u).Ok? && info.assets == SortByCategory(LoadAll(path, files, sep, u).value)
    ensures r.Ok? ==>
      ReserveEach(old(info.freespace.free) + EndOfBankFree(old(s.data), ScannedBanks(|old(s.data)|)), info.assets).Some?
    ensures r.Ok? ==> forall a :: a in info.assets && a.info.GraphicsName? ==> (Graphics, a.info.name) in info.pointers
    ensures r.Ok? ==> ROMSize < |s.data|
    ensures r.Ok? && |old(s.data)| > 0 ==>
      |old(s.data)| <= |s.data| && |s.data| % BankSize == 0 &&
      (ROMSize !in info.freespace.free ==> s.data[ROMSize] == SizeByte(|s.data|))
    ensures r.Ok? ==> forall i :: 0 <= i < |s.data| && i in info.freespace.free ==> s.data[i] == 0xFF
    ensures r.Ok? ==> forall j :: 0 <= j < |info.assets| && LastOfName(info.assets, j, |info.assets|) ==>
      InImage(info.assets[j], s.data, info.pointers, ROMSize)
  {
    r := PlaceAssets(s, info, path, files, sep, u);
    if r.Ok? {
      ghost var placed, reserved := s.data, ReserveEach(old(info.freespace.free) + EndOfBankFree(old(s.data), ScannedBanks(|old(s.data)|)), info.assets).value;
      FinishImage(s, info.freespace);
      FinishKeepsPlaced(info.assets, placed, s.data, info.pointers, info.freespace.free, reserved);
    }
  }

  /** The bytes of graphics asset `a` are in the finished image at the pointer
      recorded under its name (its fixed pointer when it has one), all but the one
      at offset `except`, which the size byte may have replaced. */
  ghost predicate InImage(a: Asset, data: seq<byte>, pointers: map<(AssetCategory, string), int>, except: int)
    requires a.info.GraphicsName?
  {
    (Graphics, a.info.name) in pointers &&
    var p := pointers[(Graphics, a.info.name)];
    0 <= p && p + |a.data| <= |data| &&
    (a.info.pointer.Some? ==> p == a.info.pointer.value) &&
    forall k :: 0 <= k < |a.data| && p + k != except ==> data[p + k] == a.data[k]
  }

  /** Padding, the size byte and the fill of the free space leave placed bytes alone. */
  lemma FinishKeepsPlaced(xs: seq<Asset>, data: seq<byte>, data': seq<byte>,
                          pointers: map<(AssetCategory, string), int>, free: set<int>, free0: set<int>)
    requires PlacedUpTo(xs, |xs|, data, pointers, free, free0)
    requires |data| <= |data'|
    requires forall i :: 0 <= i < |data| && i != ROMSize && i !in free ==> data'[i] == data[i]
    ensures forall j :: 0 <= j < |xs| && LastOfName(xs, j, |xs|) ==> InImage(xs[j], data', pointers, ROMSize)
  {
    forall j | 0 <= j < |xs| && LastOfName(xs, j, |xs|) ensures InImage(xs[j], data', pointers, ROMSize) {
      var a := xs[j];
      var p := pointers[(Graphics, a.info.name)];
      forall k | 0 <= k < |a.data| && p + k != ROMSize ensures data'[p + k] == a.data[k] {
        assert p + k in Range(p, |a.data|);
        assert data[p..p + |a.data|][k] == data[p + k];
      }
    }
  }
}

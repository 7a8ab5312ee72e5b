/** Asset categories and the codec between asset identities and project paths of
    the form `top/sub/name[@XXXXXX].ext` (Asset.cs). */
module AssetPaths {
  import opened Wrappers

  /** Declared in insertion order: levels refer to everything else, so they come last. */
  datatype AssetCategory = Editor | Sprites | Collision | Graphics | Palette | Tilemap | Level

  /** The underlying value of the enum constant. */
  function Ordinal(c: AssetCategory): (n: nat)
    ensures n <= 6
  {
    match c
    case Editor => 0
    case Sprites => 1
    case Collision => 2
    case Graphics => 3
    case Palette => 4
    case Tilemap => 5
    case Level => 6
  }

  /** Asset.CompareTo: assets compare by category alone (Int32.CompareTo on the enum). */
  function CompareCategories(a: AssetCategory, b: AssetCategory): (r: int)
    ensures r == 0 <==> a == b
    ensures r < 0 <==> Ordinal(a) < Ordinal(b)
    ensures -1 <= r <= 1
  {
    if Ordinal(a) < Ordinal(b) then -1 else if Ordinal(a) > Ordinal(b) then 1 else 0
  }

  /** The declared order, as the build relies on it. */
  lemma CategoryOrder()
    ensures CompareCategories(Editor, Sprites) < 0 && CompareCategories(Sprites, Collision) < 0
    ensures CompareCategories(Collision, Graphics) < 0 && CompareCategories(Graphics, Palette) < 0
    ensures CompareCategories(Palette, Tilemap) < 0 && CompareCategories(Tilemap, Level) < 0
    ensures forall c :: c != Level ==> CompareCategories(c, Level) < 0
  {
  }

  lemma CompareAntisymmetric(a: AssetCategory, b: AssetCategory)
    ensures CompareCategories(a, b) == -CompareCategories(b, a)
  {
  }

  lemma CompareTransitive(a: AssetCategory, b: AssetCategory, c: AssetCategory)
    requires CompareCategories(a, b) <= 0 && CompareCategories(b, c) <= 0
    ensures CompareCategories(a, c) <= 0
  {
  }

  // ---------------------------------------------------------------- hex numbers

  function HexDigit(d: nat): (c: char)
    requires d < 16
  {
    if d < 10 then ('0' as int + d) as char else ('A' as int + d - 10) as char
  }

  predicate IsHexChar(c: char)
  {
    '0' <= c <= '9' || 'A' <= c <= 'F' || 'a' <= c <= 'f'
  }

  function HexValue(c: char): (d: nat)
    requires IsHexChar(c)
    ensures d < 16
  {
    if '0' <= c <= '9' then c as int - '0' as int
    else if 'A' <= c <= 'F' then c as int - 'A' as int + 10
    else c as int - 'a' as int + 10
  }

  lemma HexValueOfDigit(d: nat)
    requires d < 16
    ensures IsHexChar(HexDigit(d)) && HexValue(HexDigit(d)) == d
  {
  }

  /** The k lowest hex digits of n, most significant first, zero-padded. */
  function Digits(n: nat, k: nat): (s: seq<char>)
    ensures |s| == k
  {
    if k == 0 then [] else Digits(n / 16, k - 1) + [HexDigit(n % 16)]
  }

  /** The shortest hex representation of n. */
  function HexString(n: nat): (s: seq<char>)
    ensures |s| >= 1
    decreases n
  {
    if n < 16 then [HexDigit(n)] else HexString(n / 16) + [HexDigit(n % 16)]
  }

  function Pow16(k: nat): (r: nat)
    ensures r >= 1
  {
    if k == 0 then 1 else 16 * Pow16(k - 1)
  }

  /** Int32.ToString("X6"): upper-case hex with at least six digits; a negative
      value prints as its 32-bit two's complement. */
  function FormatX6(p: int): (s: string)
    requires -0x8000_0000 <= p < 0x8000_0000
  {
    var n: nat := if p < 0 then p + 0x1_0000_0000 else p;
    if n < 0x100_0000 then Digits(n, 6) else HexString(n)
  }

  /** Convert.ToInt32(s, 16) on a string of hex digits. */
  function ParseHex(s: seq<char>): (n: nat)
    requires forall i :: 0 <= i < |s| ==> IsHexChar(s[i])
  {
    if s == [] then 0 else 16 * ParseHex(s[..|s| - 1]) + HexValue(s[|s| - 1])
  }

  lemma {:induction false} DigitsAreHex(n: nat, k: nat)
    ensures forall i :: 0 <= i < k ==> IsHexChar(Digits(n, k)[i])
  {
    if k > 0 {
      DigitsAreHex(n / 16, k - 1);
      HexValueOfDigit(n % 16);
    }
  }

  /** Parsing k padded digits gives back any n below 16^k. */
  lemma {:induction false} ParseDigits(n: nat, k: nat)
    requires n < Pow16(k)
    ensures forall i :: 0 <= i < k ==> IsHexChar(Digits(n, k)[i])
    ensures ParseHex(Digits(n, k)) == n
  {
    DigitsAreHex(n, k);
    if k > 0 {
      var s := Digits(n, k);
      assert s[..|s| - 1] == Digits(n / 16, k - 1);
      ParseDigits(n / 16, k - 1);
      HexValueOfDigit(n % 16);
    }
  }

  /** Six-digit formatting inverts the parse for pointers below 0x1000000. */
  lemma FormatX6RoundTrip(p: nat)
    requires p < 0x100_0000
    ensures |FormatX6(p)| == 6
    ensures forall i :: 0 <= i < 6 ==> IsHexChar(FormatX6(p)[i])
    ensures ParseHex(FormatX6(p)) == p
  {
    assert Pow16(6) == 0x100_0000;
    ParseDigits(p, 6);
  }

  // ------------------------------------------------------------ string helpers

  /** String.Split(c): the pieces between the occurrences of c. */
  function Split(s: string, c: char): (r: seq<string>)
    ensures |r| >= 1
  {
    if s == [] then [[]]
    else
      var rest := Split(s[1..], c);
      if s[0] == c then [[]] + rest else [[s[0]] + rest[0]] + rest[1..]
  }

  function Count(s: string, c: char): nat
  {
    if s == [] then 0 else (if s[0] == c then 1 else 0) + Count(s[1..], c)
  }

  /** Split yields one more piece than there are separators, none containing it. */
  lemma {:induction false} SplitShape(s: string, c: char)
    ensures |Split(s, c)| == Count(s, c) + 1
    ensures forall k :: 0 <= k < |Split(s, c)| ==> c !in Split(s, c)[k]
  {
    if s != [] {
      SplitShape(s[1..], c);
      var rest := Split(s[1..], c);
      if s[0] != c {
        assert c !in rest[0];
        var r := Split(s, c);
        forall k | 0 <= k < |r| ensures c !in r[k] {
          if k > 0 { assert r[k] == rest[k]; }
        }
      }
    }
  }

  /** A string without the separator is one piece. */
  lemma {:induction false} SplitNone(s: string, c: char)
    requires c !in s
    ensures Split(s, c) == [s]
  {
    if s != [] {
      SplitNone(s[1..], c);
      assert s[0] != c;
      assert [s[0]] + s[1..] == s;
    }
  }

  /** A piece free of the separator, then the separator, then the rest. */
  lemma {:induction false} SplitCons(a: string, c: char, b: string)
    requires c !in a
    ensures Split(a + [c] + b, c) == [a] + Split(b, c)
  {
    if a == [] {
      assert a + [c] + b == [c] + b;
      assert ([c] + b)[1..] == b;
    } else {
      assert (a + [c] + b)[1..] == a[1..] + [c] + b;
      SplitCons(a[1..], c, b);
      assert [a[0]] + a[1..] == a;
    }
  }

  /** String.LastIndexOf(c), or -1. */
  function LastIndexOf(s: string, c: char): (r: int)
    ensures -1 <= r < |s|
    ensures r >= 0 ==> s[r] == c
    ensures forall i :: r < i < |s| ==> s[i] != c
  {
    if s == [] then -1
    else if s[|s| - 1] == c then |s| - 1
    else LastIndexOf(s[..|s| - 1], c)
  }

  /** The last dot of `base.e` is the one between them. */
  lemma LastDot(base: string, e: string)
    requires '.' !in base && '.' !in e
    ensures LastIndexOf(base + ['.'] + e, '.') == |base|
  {
    var f := base + ['.'] + e;
    assert f[|base|] == '.';
    assert forall i :: |base| < i < |f| ==> f[i] == e[i - |base| - 1];
    assert forall i :: 0 <= i < |base| ==> f[i] == base[i];
  }

  // --------------------------------------------------------------- path parts

  /** The pieces a file name is made of; absent parts are null in the source. */
  datatype PathParts = PathParts(
    topFolder: Option<string>,
    subFolder: Option<string>,
    name: string,
    fileExtension: Option<string>,
    pointer: Option<int>)

  predicate IsSeparator(sep: char)
  {
    sep == '/' || sep == '\\'
  }

  /** The regular expression ^(.*)@([0-9A-Fa-f]{6})$ with .NET's semantics: '.'
      does not match a line feed, and '$' matches at the end or before a final line
      feed. The '@' sits at index k. */
  predicate SuffixAt(t: string, k: nat)
  {
    k + 7 <= |t| && t[k] == '@' &&
    (forall i :: k + 1 <= i < k + 7 ==> IsHexChar(t[i])) &&
    '\n' !in t[..k] &&
    (k + 7 == |t| || (k + 8 == |t| && t[k + 7] == '\n'))
  }

  /** The name and pointer the pattern yields, if it matches. */
  function PointerSuffix(t: string): (r: Option<(string, int)>)
    ensures r.Some? <==> ((|t| >= 7 && SuffixAt(t, |t| - 7)) || (|t| >= 8 && SuffixAt(t, |t| - 8)))
  {
    if |t| >= 7 && SuffixAt(t, |t| - 7) then
      Some((t[..|t| - 7], ParseHex(t[|t| - 6..])))
    else if |t| >= 8 && SuffixAt(t, |t| - 8) then
      Some((t[..|t| - 8], ParseHex(t[|t| - 7..|t| - 1])))
    else None
  }

  /** The file-name segment: the name, the extension after the last dot, and the
      pointer annotation stripped off the name. */
  function ParseFileName(fileName: string): (r: (string, Option<string>, Option<int>))
  {
    var dot := LastIndexOf(fileName, '.');
    var ext := if dot >= 0 then Some(fileName[dot + 1..]) else None;
    var base := if dot >= 0 then fileName[..dot] else fileName;
    match PointerSuffix(base)
    case Some((n, p)) => (n, ext, Some(p))
    case None => (base, ext, None)
  }

  /** NameInfo.ParsePath: null for more than three segments. */
  function ParsePath(path: string, sep: char): (r: Option<PathParts>)
    ensures r.None? <==> |Split(path, sep)| > 3
    ensures r.Some? ==> (r.value.topFolder.Some? <==> |Split(path, sep)| >= 2)
    ensures r.Some? ==> (r.value.subFolder.Some? <==> |Split(path, sep)| == 3)
  {
    var parts := Split(path, sep);
    if |parts| > 3 then None
    else
      var top := if |parts| >= 2 then Some(parts[0]) else None;
      var sub := if |parts| == 3 then Some(parts[1]) else None;
      var (name, ext, pointer) := ParseFileName(parts[|parts| - 1]);
      Some(PathParts(top, sub, name, ext, pointer))
  }

  /** The file-name segment: name, then "@" and the pointer in X6, then "." and the extension. */
  function FileName(p: PathParts): string
    requires p.pointer.Some? ==> -0x8000_0000 <= p.pointer.value < 0x8000_0000
  {
    p.name +
    (if p.pointer.Some? then "@" + FormatX6(p.pointer.value) else "") +
    (if p.fileExtension.Some? then "." + p.fileExtension.value else "")
  }

  /** The path with the given separator after each present folder; PathParts.ToString
      is this with '/'. */
  function JoinPath(p: PathParts, sep: char): string
    requires p.pointer.Some? ==> -0x8000_0000 <= p.pointer.value < 0x8000_0000
  {
    (if p.topFolder.Some? then p.topFolder.value + [sep] else "") +
    (if p.subFolder.Some? then p.subFolder.value + [sep] else "") +
    FileName(p)
  }

  function ToString(p: PathParts): string
    requires p.pointer.Some? ==> -0x8000_0000 <= p.pointer.value < 0x8000_0000
  {
    JoinPath(p, '/')
  }

  /** Path.Combine on two pieces. Alternate separators and drive letters are not modelled. */
  function Combine(a: string, b: string, sep: char): (r: string)
    ensures |a| > 0 && a[|a| - 1] == sep && |b| > 0 && b[0] != sep ==> r == a + b
  {
    if |b| == 0 then a
    else if b[0] == sep then b
    else if |a| == 0 then b
    else if a[|a| - 1] == sep then a + b
    else a + [sep] + b
  }

  /** NameInfo.GetFilename without the directory creation. */
  function GetFilename(p: PathParts, projectDir: string, sep: char): string
    requires p.pointer.Some? ==> -0x8000_0000 <= p.pointer.value < 0x8000_0000
  {
    var d1 := if p.topFolder.Some? then Combine(projectDir, p.topFolder.value, sep) else projectDir;
    var d2 := if p.subFolder.Some? then Combine(d1, p.subFolder.value, sep) else d1;
    Combine(d2, FileName(p), sep)
  }

  /** The conditions under which the file name of a PathParts parses back to it. */
  predicate Invertible(p: PathParts, sep: char)
  {
    IsSeparator(sep) &&
    (p.topFolder.Some? ==> sep !in p.topFolder.value) &&
    (p.subFolder.Some? ==> p.topFolder.Some? && sep !in p.subFolder.value) &&
    sep !in p.name && '.' !in p.name &&
    (p.fileExtension.Some? ==> sep !in p.fileExtension.value && '.' !in p.fileExtension.value) &&
    (p.pointer.Some? ==> 0 <= p.pointer.value < 0x100_0000 && '\n' !in p.name) &&
    (p.pointer.None? ==> PointerSuffix(p.name).None?)
  }

  /** ParsePath inverts the joined path whenever the parts are invertible. */
  lemma ParseJoinRoundTrip(p: PathParts, sep: char)
    requires Invertible(p, sep)
    ensures ParsePath(JoinPath(p, sep), sep) == Some(p)
  {
    if p.topFolder.Some? && p.subFolder.Some? {
      ParseThreeSegments(p, sep);
    } else if p.topFolder.Some? {
      ParseTwoSegments(p, sep);
    } else {
      ParseOneSegment(p, sep);
    }
  }

  lemma ParseOneSegment(p: PathParts, sep: char)
    requires Invertible(p, sep) && p.topFolder.None?
    ensures ParsePath(JoinPath(p, sep), sep) == Some(p)
  {
    var f := FileName(p);
    FileNameRoundTrip(p, sep);
    assert JoinPath(p, sep) == f;
    ParseSingle(f, sep);
  }

  /** A path without a separator is a bare file name. */
  lemma ParseSingle(f: string, sep: char)
    requires sep !in f
    ensures var (n, e, q) := ParseFileName(f); ParsePath(f, sep) == Some(PathParts(None, None, n, e, q))
  {
    SplitNone(f, sep);
  }

  lemma ParseThreeSegments(p: PathParts, sep: char)
    requires Invertible(p, sep) && p.topFolder.Some? && p.subFolder.Some?
    ensures ParsePath(JoinPath(p, sep), sep) == Some(p)
  {
    var f := FileName(p);
    FileNameRoundTrip(p, sep);
    var t, u := p.topFolder.value, p.subFolder.value;
    assert JoinPath(p, sep) == t + [sep] + (u + [sep] + f);
    ParseTriple(t, u, f, sep);
  }

  lemma ParseTwoSegments(p: PathParts, sep: char)
    requires Invertible(p, sep) && p.topFolder.Some? && p.subFolder.None?
    ensures ParsePath(JoinPath(p, sep), sep) == Some(p)
  {
    var f := FileName(p);
    FileNameRoundTrip(p, sep);
    var t := p.topFolder.value;
    assert JoinPath(p, sep) == t + [sep] + f;
    ParseDouble(t, f, sep);
  }

  /** A folder, the separator and a file name. */
  lemma ParseDouble(t: string, f: string, sep: char)
    requires sep !in t && sep !in f
    ensures var (n, e, q) := ParseFileName(f);
      ParsePath(t + [sep] + f, sep) == Some(PathParts(Some(t), None, n, e, q))
  {
    SplitNone(f, sep);
    SplitCons(t, sep, f);
  }

  /** Two folders and a file name, separated. */
  lemma ParseTriple(t: string, u: string, f: string, sep: char)
    requires sep !in t && sep !in u && sep !in f
    ensures var (n, e, q) := ParseFileName(f);
      ParsePath(t + [sep] + (u + [sep] + f), sep) == Some(PathParts(Some(t), Some(u), n, e, q))
  {
    SplitNone(f, sep);
    SplitCons(u, sep, f);
    SplitCons(t, sep, u + [sep] + f);
  }

  /** The name with its optional pointer annotation, before the extension. */
  function Base(p: PathParts): string
    requires p.pointer.Some? ==> -0x8000_0000 <= p.pointer.value < 0x8000_0000
  {
    p.name + (if p.pointer.Some? then "@" + FormatX6(p.pointer.value) else "")
  }

  /** Hex digits are neither separators, dots nor line feeds. */
  lemma HexCharIsPlain(c: char, sep: char)
    requires IsHexChar(c) && IsSeparator(sep)
    ensures c != '.' && c != sep && c != '\n' && c != '@'
  {
  }

  /** The annotation comes back from the base, and the base holds no dot or separator. */
  lemma BaseParses(p: PathParts, sep: char)
    requires Invertible(p, sep)
    ensures '.' !in Base(p) && sep !in Base(p)
    ensures PointerSuffix(Base(p)) == if p.pointer.Some? then Some((p.name, p.pointer.value)) else None
  {
    var base := Base(p);
    if p.pointer.Some? {
      var d := FormatX6(p.pointer.value);
      FormatX6RoundTrip(p.pointer.value);
      forall i | 0 <= i < 6 ensures d[i] != '.' && d[i] != sep && d[i] != '\n' {
        HexCharIsPlain(d[i], sep);
      }
      assert base == p.name + ['@'] + d;
      assert |base| == |p.name| + 7;
      assert base[..|p.name|] == p.name;
      assert base[|p.name| + 1..] == d;
      assert SuffixAt(base, |base| - 7);
      assert base[..|base| - 7] == p.name;
      assert base[|base| - 6..] == d;
      assert forall i :: 0 <= i < |base| ==> base[i] != '.' && base[i] != sep by {
        forall i | 0 <= i < |base| ensures base[i] != '.' && base[i] != sep {
          if i < |p.name| {
            assert base[i] == p.name[i];
          } else if i > |p.name| {
            assert base[i] == d[i - |p.name| - 1];
          }
        }
      }
    } else {
      assert base == p.name;
    }
  }

  /** A string without a dot has no last dot. */
  lemma {:induction false} NoDot(t: string)
    requires '.' !in t
    ensures LastIndexOf(t, '.') == -1
  {
    if t != [] {
      assert t[|t| - 1] in t;
      assert forall c :: c in t[..|t| - 1] ==> c in t;
      NoDot(t[..|t| - 1]);
    }
  }

  /** A file name split at its only dot, or without one, parses to its base. */
  lemma ParseFileNameParts(f: string, base: string, ext: Option<string>)
    requires '.' !in base
    requires ext.Some? ==> f == base + ['.'] + ext.value && '.' !in ext.value
    requires ext.None? ==> f == base
    ensures ParseFileName(f) == match PointerSuffix(base)
      case Some((n, q)) => (n, ext, Some(q))
      case None => (base, ext, None)
  {
    if ext.Some? {
      LastDot(base, ext.value);
      assert f[|base| + 1..] == ext.value;
      assert f[..|base|] == base;
    } else {
      NoDot(base);
    }
  }

  /** The file-name segment alone: its name, extension and pointer come back. */
  lemma FileNameRoundTrip(p: PathParts, sep: char)
    requires Invertible(p, sep)
    ensures sep !in FileName(p)
    ensures ParseFileName(FileName(p)) == (p.name, p.fileExtension, p.pointer)
  {
    var base := Base(p);
    BaseParses(p, sep);
    var f := FileName(p);
    if p.fileExtension.Some? {
      assert f == base + ['.'] + p.fileExtension.value;
    } else {
      assert f == base;
    }
    ParseFileNameParts(f, base, p.fileExtension);
    if p.pointer.None? {
      assert base == p.name;
    }
  }

  lemma FileNameHasNoSeparator(p: PathParts, sep: char)
    requires Invertible(p, sep)
    ensures sep !in FileName(p)
  {
    FileNameRoundTrip(p, sep);
  }

  /** A non-empty piece without the separator neither starts nor ends with it. */
  lemma PieceEnds(t: string, sep: char)
    requires |t| > 0 && sep !in t
    ensures t[0] != sep && t[|t| - 1] != sep
  {
    assert t[0] in t && t[|t| - 1] in t;
  }

  /** Combine of a piece onto a directory: directly after a trailing separator, with
      one in between otherwise. */
  lemma CombinePiece(a: string, t: string, sep: char)
    requires |a| > 0 && |t| > 0 && sep !in t
    ensures Combine(a, t, sep) == if a[|a| - 1] == sep then a + t else a + [sep] + t
    ensures var r := Combine(a, t, sep); |r| > 0 && r[|r| - 1] != sep
  {
    PieceEnds(t, sep);
  }

  /** GetFilename under a project directory that ends in the separator is that
      directory followed by the joined path, provided no part is empty. */
  lemma GetFilenameIsJoin(p: PathParts, projectDir: string, sep: char)
    requires Invertible(p, sep)
    requires |projectDir| > 0 && projectDir[|projectDir| - 1] == sep
    requires p.topFolder.Some? ==> |p.topFolder.value| > 0
    requires p.subFolder.Some? ==> |p.subFolder.value| > 0
    requires |FileName(p)| > 0
    ensures GetFilename(p, projectDir, sep) == projectDir + JoinPath(p, sep)
  {
    FileNameHasNoSeparator(p, sep);
    CombineFolders(projectDir, p.topFolder, p.subFolder, FileName(p), sep);
  }

  /** The Combine chain of GetFilename over plain pieces: the optional folders and
      the file name, none empty nor holding the separator, under a directory that
      ends in it. */
  lemma CombineFolders(dir: string, top: Option<string>, sub: Option<string>, f: string, sep: char)
    requires |dir| > 0 && dir[|dir| - 1] == sep
    requires top.Some? ==> |top.value| > 0 && sep !in top.value
    requires sub.Some? ==> top.Some? && |sub.value| > 0 && sep !in sub.value
    requires |f| > 0 && sep !in f
    ensures var d1 := if top.Some? then Combine(dir, top.value, sep) else dir;
      var d2 := if sub.Some? then Combine(d1, sub.value, sep) else d1;
      Combine(d2, f, sep) ==
        dir + ((if top.Some? then top.value + [sep] else "") + (if sub.Some? then sub.value + [sep] else "") + f)
  {
    if sub.Some? {
      CombineThree(dir, top.value, sub.value, f, sep);
    } else if top.Some? {
      CombineTwo(dir, top.value, f, sep);
    } else {
      CombinePiece(dir, f, sep);
    }
  }

  lemma CombineTwo(dir: string, t: string, f: string, sep: char)
    requires |dir| > 0 && dir[|dir| - 1] == sep
    requires |t| > 0 && sep !in t && |f| > 0 && sep !in f
    ensures Combine(Combine(dir, t, sep), f, sep) == dir + (t + [sep] + f)
  {
    CombinePiece(dir, t, sep);
    CombinePiece(dir + t, f, sep);
  }

  lemma CombineThree(dir: string, t: string, u: string, f: string, sep: char)
    requires |dir| > 0 && dir[|dir| - 1] == sep
    requires |t| > 0 && sep !in t && |u| > 0 && sep !in u && |f| > 0 && sep !in f
    ensures Combine(Combine(Combine(dir, t, sep), u, sep), f, sep) ==
            dir + (t + [sep] + u + [sep] + f)
  {
    CombinePiece(dir, t, sep);
    CombinePiece(dir + t, u, sep);
    CombinePiece(dir + t + [sep] + u, f, sep);
  }
}

/** The two collaborators every build step goes through: the positional stream over
    the image and the free-space ledger. Neither class's source is part of this model;
    both are small specifications of what the modelled code relies on. */
module Rom {
  import opened Wrappers
  import opened Bytes

  /** `bytes` written over `data` at `p`; a write past the end first extends the
      image with zero bytes, as a file stream does. */
  function Overwrite(data: seq<byte>, p: nat, bytes: seq<byte>): (r: seq<byte>)
    ensures |r| == if p + |bytes| > |data| then p + |bytes| else |data|
    ensures forall i :: p <= i < p + |bytes| ==> r[i] == bytes[i - p]
    ensures forall i :: 0 <= i < |data| && !(p <= i < p + |bytes|) ==> r[i] == data[i]
    ensures forall i :: |data| <= i < |r| && !(p <= i < p + |bytes|) ==> r[i] == 0
  {
    var n := if p + |bytes| > |data| then p + |bytes| else |data|;
    seq(n, i requires 0 <= i < n =>
      if p <= i < p + |bytes| then bytes[i - p] else if i < |data| then data[i] else 0)
  }

  /** A seekable byte stream over the image with a stack of saved positions. */
  class NStream {
    var data: seq<byte>
    var pos: nat
    var stack: seq<nat>
    /** Where the block opened by StartBlock begins. */
    var blockStart: nat

    constructor (image: seq<byte>)
      ensures data == image && pos == 0 && stack == [] && blockStart == 0
    {
      data, pos, stack, blockStart := image, 0, [], 0;
    }

    /** Seek from the beginning; a negative target is an IOException. */
    method Seek(p: int) returns (r: Result<nat>)
      modifies this`pos
      ensures p >= 0 ==> r == Ok(p) && pos == p
      ensures p < 0 ==> r == Err(NegativeSeek) && pos == old(pos)
    {
      if p < 0 {
        r := Err(NegativeSeek);
      } else {
        pos := p;
        r := Ok(p);
      }
    }

    /** Stream.ReadByte: the byte at the cursor, or -1 at the end (no advance). */
    method ReadByte() returns (b: int)
      modifies this`pos
      ensures old(pos) < |data| ==> b == data[old(pos)] && pos == old(pos) + 1
      ensures old(pos) >= |data| ==> b == -1 && pos == old(pos)
    {
      if pos < |data| {
        b := data[pos];
        pos := pos + 1;
      } else {
        b := -1;
      }
    }

    method PeekInt16() returns (r: Result<Word>)
      ensures pos + 2 <= |data| ==> r == Ok(WordAt(data, pos))
      ensures pos + 2 > |data| ==> r == Err(EndOfStream)
    {
      if pos + 2 <= |data| {
        r := Ok(WordAt(data, pos));
      } else {
        r := Err(EndOfStream);
      }
    }

    method ReadInt16() returns (r: Result<Word>)
      modifies this`pos
      ensures old(pos) + 2 <= |data| ==> r == Ok(WordAt(data, old(pos))) && pos == old(pos) + 2
      ensures old(pos) + 2 > |data| ==> r == Err(EndOfStream) && pos == old(pos)
    {
      r := PeekInt16();
      if r.Ok? {
        pos := pos + 2;
      }
    }

    /** The 4-byte pointer field at the cursor, decoded to a file offset. */
    method PeekPointer() returns (r: Result<int>)
      ensures pos + 4 <= |data| ==>
        r == Ok(DecodePointer(WordAt(data, pos), WordAt(data, pos + 2)))
      ensures pos + 4 > |data| ==> r == Err(EndOfStream)
    {
      if pos + 4 <= |data| {
        r := Ok(DecodePointer(WordAt(data, pos), WordAt(data, pos + 2)));
      } else {
        r := Err(EndOfStream);
      }
    }

    method ReadPointer() returns (r: Result<int>)
      modifies this`pos
      ensures old(pos) + 4 <= |data| ==>
        r == Ok(DecodePointer(WordAt(data, old(pos)), WordAt(data, old(pos) + 2))) &&
        pos == old(pos) + 4
      ensures old(pos) + 4 > |data| ==> r == Err(EndOfStream) && pos == old(pos)
    {
      r := PeekPointer();
      if r.Ok? {
        pos := pos + 4;
      }
    }

    method PushPosition()
      modifies this`stack
      ensures stack == old(stack) + [pos]
    {
      stack := stack + [pos];
    }

    /** Every caller pops a position it pushed before. */
    method PopPosition()
      requires |stack| > 0
      modifies this`pos, this`stack
      ensures pos == old(stack[|stack| - 1]) && stack == old(stack[..|stack| - 1])
    {
      pos := stack[|stack| - 1];
      stack := stack[..|stack| - 1];
    }

    /** Reads a 2-byte pointer, saves the position after it and moves to the offset
        it names in the bank that holds the pointer. */
    method GoToRelativePointerPush() returns (r: Result<nat>)
      modifies this`pos, this`stack
      ensures old(pos) + 2 <= |data| ==>
        r == Ok(pos) && stack == old(stack) + [old(pos) + 2] &&
        pos == DecodeRelative(old(pos), WordAt(data, old(pos)))
      ensures old(pos) + 2 > |data| ==>
        r == Err(EndOfStream) && pos == old(pos) && stack == old(stack)
    {
      var at := pos;
      var v := ReadInt16();
      if v.Err? {
        r := Err(v.error);
      } else {
        PushPosition();
        pos := DecodeRelative(at, v.value);
        r := Ok(pos);
      }
    }

    /** Reads a 4-byte pointer, saves the position after it and moves to its target. */
    method GoToPointerPush() returns (r: Result<nat>)
      modifies this`pos, this`stack
      ensures old(pos) + 4 <= |data| ==>
        var t := DecodePointer(WordAt(data, old(pos)), WordAt(data, old(pos) + 2));
        if t >= 0 then r == Ok(t) && pos == t && stack == old(stack) + [old(pos) + 4]
        else r == Err(NegativeSeek)
      ensures old(pos) + 4 > |data| ==> r == Err(EndOfStream) && stack == old(stack)
    {
      var p := ReadPointer();
      if p.Err? {
        r := Err(p.error);
      } else {
        PushPosition();
        r := Seek(p.value);
      }
    }

    /** Reads up to n bytes; fewer when the image ends first. */
    method ReadBytes(n: nat) returns (r: seq<byte>)
      modifies this`pos
      ensures pos == old(pos) + |r|
      ensures old(pos) <= |data| ==> old(pos) + |r| <= |data| && r == data[old(pos)..old(pos) + |r|]
      ensures |r| == if old(pos) + n <= |data| then n else if old(pos) <= |data| then |data| - old(pos) else 0
    {
      if pos + n <= |data| {
        r := data[pos..pos + n];
        pos := pos + n;
      } else if pos <= |data| {
        r := data[pos..];
        pos := |data|;
      } else {
        r := [];
      }
    }

    /** Writes `bytes` at the cursor and moves past them. */
    method Write(bytes: seq<byte>)
      modifies this`data, this`pos
      ensures data == Overwrite(old(data), old(pos), bytes) && pos == old(pos) + |bytes|
    {
      data := Overwrite(data, pos, bytes);
      pos := pos + |bytes|;
    }

    /** Truncates or zero-extends the image; a cursor past the new end moves to it. */
    method SetLength(n: nat)
      modifies this`data, this`pos
      ensures |data| == n
      ensures forall i :: 0 <= i < n ==> data[i] == if i < |old(data)| then old(data)[i] else 0
      ensures pos == if old(pos) > n then n else old(pos)
    {
      var d := data;
      data := seq(n, i requires 0 <= i < n => if i < |d| then d[i] else 0);
      if pos > n {
        pos := n;
      }
    }

    method StartBlock()
      modifies this`blockStart
      ensures blockStart == pos
    {
      blockStart := pos;
    }

    /** Frees the bytes read since StartBlock: they will be re-emitted by the build. */
    method EndBlock(fs: Freespace)
      requires fs.Valid()
      modifies fs
      ensures fs.Valid() && fs.free == old(fs.free) + Range(blockStart, pos - blockStart)
    {
      fs.AddSize(blockStart, pos - blockStart);
    }
  }

  /** The half-open range [start, start + length) as a set of offsets. */
  function Range(start: int, length: int): (r: set<int>)
    ensures forall i :: i in r <==> start <= i < start + length
  {
    if length <= 0 then {} else Range(start, length - 1) + {start + length - 1}
  }

  /** A length-byte range at `a` that is free and lies inside one bank. */
  ghost predicate Fits(free: set<int>, a: int, length: int)
  {
    length >= 1 && 0 <= a && a / BankSize == (a + length - 1) / BankSize &&
    forall i :: a <= i < a + length ==> i in free
  }

  /** A fitting range starts at a free offset, hence below any bound of the set. */
  lemma FitsBelowLimit(free: set<int>, hi: int, length: int)
    requires forall i :: i in free ==> i < hi
    ensures forall b :: Fits(free, b, length) ==> b < hi
  {
    forall b | Fits(free, b, length) ensures b < hi {
      assert b in free;
    }
  }

  /** The free-space ledger: the set of offsets that may be allocated. */
  class Freespace {
    var free: set<int>
    /** An offset above every free one (bookkeeping of the model). */
    var limit: int

    ghost predicate Valid()
      reads this
    {
      forall i :: i in free ==> i < limit
    }

    constructor ()
      ensures Valid() && free == {}
    {
      free, limit := {}, 0;
    }

    /** Records [start, start + length) as free. */
    method AddSize(start: int, length: int)
      requires Valid()
      modifies this
      ensures Valid() && free == old(free) + Range(start, length)
    {
      free := free + Range(start, length);
      if start + length > limit {
        limit := start + length;
      }
    }

    /** Takes a caller-chosen range; fails when part of it is not free. */
    method Reserve(start: int, length: int) returns (r: Result<int>)
      requires Valid()
      modifies this
      ensures Valid()
      ensures (forall i :: start <= i < start + length ==> i in old(free)) <==> r.Ok?
      ensures r.Ok? ==> r.value == start && free == old(free) - Range(start, length)
      ensures r.Err? ==> r.error == AllocationConflict(start, length) && free == old(free)
    {
      if forall i :: start <= i < start + length ==> i in free {
        free := free - Range(start, length);
        r := Ok(start);
      } else {
        r := Err(AllocationConflict(start, length));
      }
    }

    /** First fit: the lowest offset where `length` free bytes lie inside one bank. */
    method Claim(length: int) returns (r: Result<int>)
      requires Valid()
      modifies this
      ensures Valid()
      ensures r.Ok? ==> Fits(old(free), r.value, length) &&
                        (forall b :: 0 <= b < r.value ==> !Fits(old(free), b, length)) &&
                        free == old(free) - Range(r.value, length)
      ensures r.Err? ==> r.error == OutOfSpace(length) && free == old(free) &&
                         forall b :: !Fits(old(free), b, length)
    {
      var hi := limit;
      // no fitting range can start at or beyond hi: its first byte would not be free
      var a := 0;
      while a < hi
        invariant 0 <= a
        invariant forall b :: 0 <= b < a ==> !Fits(free, b, length)
      {
        if length >= 1 && a / BankSize == (a + length - 1) / BankSize &&
           forall i :: a <= i < a + length ==> i in free
        {
          free := free - Range(a, length);
          return Ok(a);
        }
        a := a + 1;
      }
      FitsBelowLimit(free, hi, length);
      r := Err(OutOfSpace(length));
    }

    /** Writes `value` into every free byte of the image and nothing else. */
    method Fill(s: NStream, value: byte)
      modifies s`data
      ensures |s.data| == |old(s.data)|
      ensures forall i :: 0 <= i < |s.data| ==>
        s.data[i] == if i in free then value else old(s.data)[i]
    {
      var i := 0;
      while i < |s.data|
        invariant 0 <= i <= |s.data| == |old(s.data)|
        invariant forall k :: 0 <= k < |s.data| ==>
          s.data[k] == if k < i && k in free then value else old(s.data)[k]
      {
        if i in free {
          s.data := s.data[i := value];
        }
        i := i + 1;
      }
    }
  }
}

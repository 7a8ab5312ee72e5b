/** Bytes, 16-bit words and the LoROM pointer encoding the image uses. */
module Bytes {

  type byte = b: int | 0 <= b < 0x100
  type Word = w: int | 0 <= w < 0x1_0000

  /** Size of one bank of the image (LoROM: 32 KiB). */
  const BankSize: nat := 0x8000

  /** A word as two bytes, low byte first (the SNES is little-endian). */
  function WordBytes(w: Word): (r: seq<byte>)
    ensures |r| == 2 && r[0] as int + 0x100 * (r[1] as int) == w
  {
    [w % 0x100, w / 0x100]
  }

  function WordAt(data: seq<byte>, p: nat): (w: Word)
    requires p + 2 <= |data|
  {
    data[p] as int + 0x100 * (data[p + 1] as int)
  }

  function WordsToBytes(ws: seq<Word>): (r: seq<byte>)
    ensures |r| == 2 * |ws|
  {
    if ws == [] then [] else WordBytes(ws[0]) + WordsToBytes(ws[1..])
  }

  lemma {:induction false} WordsToBytesAppend(a: seq<Word>, b: seq<Word>)
    ensures WordsToBytes(a + b) == WordsToBytes(a) + WordsToBytes(b)
  {
    if a == [] {
      assert a + b == b;
    } else {
      assert (a + b)[1..] == a[1..] + b;
      WordsToBytesAppend(a[1..], b);
    }
  }

  /** Reading word k of an encoded word sequence gives back that word. */
  lemma {:induction false} WordAtWordsToBytes(ws: seq<Word>, k: nat)
    requires k < |ws|
    ensures WordAt(WordsToBytes(ws), 2 * k) == ws[k]
  {
    if k > 0 {
      WordAtWordsToBytes(ws[1..], k - 1);
      assert WordsToBytes(ws)[2 * k..] == WordsToBytes(ws[1..])[2 * (k - 1)..];
    }
  }

  /** Reading a word inside `pre + WordsToBytes(ws) + post`. */
  lemma WordAtInside(pre: seq<byte>, ws: seq<Word>, post: seq<byte>, k: nat)
    requires k < |ws|
    ensures WordAt(pre + WordsToBytes(ws) + post, |pre| + 2 * k) == ws[k]
  {
    var d := pre + WordsToBytes(ws) + post;
    WordAtWordsToBytes(ws, k);
    assert d[|pre| + 2 * k] == WordsToBytes(ws)[2 * k];
    assert d[|pre| + 2 * k + 1] == WordsToBytes(ws)[2 * k + 1];
  }

  /** Decodes a 4-byte pointer field: a 16-bit in-bank address (0x8000..0xFFFF for
      ROM) followed by a 16-bit bank number. An all-zero field decodes to a negative
      offset, which is how the readers recognise a null pointer. */
  function DecodePointer(addr: Word, bank: Word): (r: int)
    ensures -0x8000 <= r < 0x8000_0000
  {
    bank * BankSize + addr - 0x8000
  }

  /** The two words of a 4-byte pointer field for a file offset. */
  function EncodePointer(offset: nat): (r: (Word, Word))
    requires offset < 0x1_0000 * BankSize
    ensures DecodePointer(r.0, r.1) == offset
    ensures r.0 >= 0x8000
  {
    (0x8000 + offset % BankSize, offset / BankSize)
  }

  /** A 2-byte pointer names an offset in the bank that holds `at`. */
  function DecodeRelative(at: nat, value: Word): (r: nat)
    ensures r / BankSize == at / BankSize
    ensures r % BankSize == value % BankSize
  {
    (at / BankSize) * BankSize + value % BankSize
  }

  function EncodeRelative(target: nat): (r: Word)
    ensures DecodeRelative(target, r) == target
    ensures r > 0
  {
    0x8000 + target % BankSize
  }
}

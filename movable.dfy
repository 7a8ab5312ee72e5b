/** Relocatable data as the level and animation builders emit it: a sequence of
    16-bit literals, literal 4-byte pointers, and placeholders for a pointer to a
    child block whose address is chosen when the data is placed. The placement
    itself is not part of this model. */
module Movable {
  import opened Bytes

  datatype PointerSize = TwoBytes | FourBytes

  datatype Piece =
    | Int16(w: Word)
    | Pointer(target: int)
    | Child(size: PointerSize, block: seq<Piece>)

  /** The literal pieces of a word sequence, in order. */
  function Words(ws: seq<Word>): (r: seq<Piece>)
    ensures |r| == |ws|
    ensures forall i :: 0 <= i < |ws| ==> r[i] == Int16(ws[i])
  {
    if ws == [] then [] else [Int16(ws[0])] + Words(ws[1..])
  }

  lemma WordsAppend(a: seq<Word>, b: seq<Word>)
    ensures Words(a + b) == Words(a) + Words(b)
  {
    assert forall i :: 0 <= i < |b| ==> (a + b)[|a| + i] == b[i];
  }

  /** A block made only of 16-bit literals. */
  predicate IsFlat(ps: seq<Piece>)
  {
    forall i :: 0 <= i < |ps| ==> ps[i].Int16?
  }

  /** The words of a flat block. */
  function FlatWords(ps: seq<Piece>): (r: seq<Word>)
    requires IsFlat(ps)
    ensures |r| == |ps|
    ensures forall i :: 0 <= i < |ps| ==> ps[i] == Int16(r[i])
  {
    if ps == [] then [] else [ps[0].w] + FlatWords(ps[1..])
  }

  lemma {:induction false} WordsAreFlat(ws: seq<Word>)
    ensures IsFlat(Words(ws)) && FlatWords(Words(ws)) == ws
  {
    if ws != [] {
      WordsAreFlat(ws[1..]);
    }
  }

  lemma FlatAppend(a: seq<Piece>, b: seq<Piece>)
    requires IsFlat(a) && IsFlat(b)
    ensures IsFlat(a + b) && FlatWords(a + b) == FlatWords(a) + FlatWords(b)
  {
    var r := FlatWords(a + b);
    assert forall i :: 0 <= i < |a| ==> (a + b)[i] == a[i];
    assert forall i :: 0 <= i < |b| ==> (a + b)[|a| + i] == b[i];
    assert r == FlatWords(a) + FlatWords(b);
  }

  /** MovableData: the pieces appended so far. `data.data.AddInt16` and
      `data.data.AddPointer` append literals; `data.AddPointer(size, child)` appends
      a placeholder for a pointer to the child block. */
  class MovableData {
    var pieces: seq<Piece>

    constructor ()
      ensures pieces == []
    {
      pieces := [];
    }

    method AddInt16(w: Word)
      modifies this
      ensures pieces == old(pieces) + [Int16(w)]
    {
      pieces := pieces + [Int16(w)];
    }

    /** A literal 4-byte pointer. */
    method AddPointer(target: int)
      modifies this
      ensures pieces == old(pieces) + [Pointer(target)]
    {
      pieces := pieces + [Pointer(target)];
    }

    /** A pointer of the given size to the block built in `child`. */
    method AddBlock(size: PointerSize, child: MovableData)
      modifies this
      ensures pieces == old(pieces) + [Child(size, old(child.pieces))]
    {
      pieces := pieces + [Child(size, child.pieces)];
    }
  }
}

/** PaintTileAction and FillSelectionAction (Undo/TileAction.cs): undoable edits of
    a level's background, whose cells are indexed [x, y]. Each action keeps the
    points it covers and, index for index, the tile each point held before. The
    background an action works on is passed to it as a parameter. */
module TileActions {
  import opened Wrappers
  import opened Bytes

  datatype Point = Point(x: int, y: int)

  predicate InBounds(bg: array2<Word>, p: Point)
  {
    0 <= p.x < bg.Length0 && 0 <= p.y < bg.Length1
  }

  predicate AllInBounds(bg: array2<Word>, ps: seq<Point>)
  {
    forall i :: 0 <= i < |ps| ==> InBounds(bg, ps[i])
  }

  predicate Distinct(ps: seq<Point>)
  {
    forall i, j :: 0 <= i < j < |ps| ==> ps[i] != ps[j]
  }

  /** The last index of p in ps, or -1. */
  function LastAt(ps: seq<Point>, p: Point): (k: int)
    ensures -1 <= k < |ps|
    ensures k == -1 <==> p !in ps
    ensures k >= 0 ==> ps[k] == p && p !in ps[k + 1..]
  {
    if ps == [] then -1
    else if ps[|ps| - 1] == p then |ps| - 1
    else
      var init := ps[..|ps| - 1];
      var k := LastAt(init, p);
      assert ps == init + [ps[|ps| - 1]];
      assert k >= 0 ==> ps[k + 1..] == init[k + 1..] + [ps[|ps| - 1]];
      k
  }

  /** The tile at p, which held c, once vs[i] has been written at ps[i] for each i
      in turn: the last write to p wins, and a point never written keeps c. */
  function CellAfter(c: Word, ps: seq<Point>, vs: seq<Word>, p: Point): Word
    requires |ps| <= |vs|
  {
    var k := LastAt(ps, p);
    if k >= 0 then vs[k] else c
  }

  /** The loop shared by Undo and Redo: background[ps[l]] = vs[l] for each l. */
  method WriteCells(bg: array2<Word>, ps: seq<Point>, vs: seq<Word>)
    requires |ps| <= |vs| && AllInBounds(bg, ps)
    modifies bg
    ensures forall x, y :: 0 <= x < bg.Length0 && 0 <= y < bg.Length1 ==>
      bg[x, y] == CellAfter(old(bg[x, y]), ps, vs, Point(x, y))
  {
    for l := 0 to |ps|
      invariant forall x, y :: 0 <= x < bg.Length0 && 0 <= y < bg.Length1 ==>
        bg[x, y] == CellAfter(old(bg[x, y]), ps[..l], vs, Point(x, y))
    {
      assert ps[..l + 1][..l] == ps[..l];
      bg[ps[l].x, ps[l].y] := vs[l];
    }
    assert ps[..|ps|] == ps;
  }

  /** Undo and Redo change no cell outside the action's points. */
  lemma Untouched(c: Word, ps: seq<Point>, vs: seq<Word>, p: Point)
    requires |ps| <= |vs| && p !in ps
    ensures CellAfter(c, ps, vs, p) == c
  {
  }

  /** With distinct points, the cell at ps[i] ends up holding vs[i]. */
  lemma WrittenAt(c: Word, ps: seq<Point>, vs: seq<Word>, i: nat)
    requires |ps| <= |vs| && Distinct(ps) && i < |ps|
    ensures CellAfter(c, ps, vs, ps[i]) == vs[i]
  {
  }

  /** Redo followed by Undo gives back every cell whose previous value was
      recorded, when the points are distinct. */
  lemma RedoThenUndoRestores(c: Word, ps: seq<Point>, prev: seq<Word>, t: Word, p: Point)
    requires |ps| <= |prev| && Distinct(ps)
    requires forall i :: 0 <= i < |ps| && ps[i] == p ==> prev[i] == c
    ensures CellAfter(CellAfter(c, ps, Filled(|ps|, t), p), ps, prev, p) == c
  {
    var k := LastAt(ps, p);
    if k >= 0 {
      WrittenAt(CellAfter(c, ps, Filled(|ps|, t), p), ps, prev, k);
    }
  }

  /** n copies of t: what Redo writes. */
  function Filled(n: nat, t: Word): (r: seq<Word>)
    ensures |r| == n && forall i :: 0 <= i < n ==> r[i] == t
  {
    seq(n, _ => t)
  }

  class PaintTileAction {
    var points: seq<Point>
    var prevTileType: seq<Word>
    const tileType: Word

    /** The previous tiles line up with the points, which are distinct. */
    ghost predicate Valid()
      reads this
    {
      |prevTileType| == |points| && Distinct(points)
    }

    constructor (x: int, y: int, tileType: Word)
      ensures points == [Point(x, y)] && prevTileType == [] && this.tileType == tileType
    {
      points := [Point(x, y)];
      prevTileType := [];
      this.tileType := tileType;
    }

    /** AfterSetEditor: records the tile now at the first point. A point off the
        background is the array's IndexOutOfRangeException, and nothing is recorded. */
    method AfterSetEditor(bg: array2<Word>) returns (r: Result<()>)
      requires |points| > 0
      modifies this`prevTileType
      ensures r.Ok? <==> InBounds(bg, points[0])
      ensures r.Err? ==> r.error == IndexOutOfRange && prevTileType == old(prevTileType)
      ensures r.Ok? ==> prevTileType == old(prevTileType) + [bg[points[0].x, points[0].y]]
      ensures r.Ok? && old(|points| == 1 && prevTileType == []) ==> Valid()
    {
      if !InBounds(bg, points[0]) {
        return Err(IndexOutOfRange);
      }
      prevTileType := prevTileType + [bg[points[0].x, points[0].y]];
      r := Ok(());
    }

    /** Undo: every point gets back its recorded tile. */
    method Undo(bg: array2<Word>)
      requires |points| <= |prevTileType| && AllInBounds(bg, points)
      modifies bg
      ensures forall x, y :: 0 <= x < bg.Length0 && 0 <= y < bg.Length1 ==>
        bg[x, y] == CellAfter(old(bg[x, y]), points, prevTileType, Point(x, y))
    {
      WriteCells(bg, points, prevTileType);
    }

    /** Redo: every point gets the painted tile. */
    method Redo(bg: array2<Word>)
      requires AllInBounds(bg, points)
      modifies bg
      ensures forall x, y :: 0 <= x < bg.Length0 && 0 <= y < bg.Length1 ==>
        bg[x, y] == CellAfter(old(bg[x, y]), points, Filled(|points|, tileType), Point(x, y))
    {
      WriteCells(bg, points, Filled(|points|, tileType));
    }

    /** Merge: a later paint adds its point and that point's previous tile unless
        the point is already covered, so the points stay distinct. */
    method Merge(other: PaintTileAction)
      requires |other.points| > 0 && (other.points[0] !in points ==> |other.prevTileType| > 0)
      modifies this`points, this`prevTileType
      ensures old(other.points[0] in points) ==> points == old(points) && prevTileType == old(prevTileType)
      ensures old(other.points[0] !in points) ==>
        points == old(points) + [old(other.points[0])] &&
        prevTileType == old(prevTileType) + [old(other.prevTileType[0])]
      ensures old(Valid()) ==> Valid()
    {
      var p := other.points[0];
      if p !in points {
        var t := other.prevTileType[0];
        points := points + [p];
        prevTileType := prevTileType + [t];
      }
    }
  }

  /** The selected points before (x, y) in row-major order (y outer, x inner) over
      a grid of width w. */
  function SelectedBefore(sel: (int, int) -> bool, w: nat, y: nat, x: nat): (r: seq<Point>)
    requires x <= w
    decreases y, x
  {
    if x == 0 then (if y == 0 then [] else SelectedBefore(sel, w, y - 1, w))
    else SelectedBefore(sel, w, y, x - 1) + (if sel(x - 1, y) then [Point(x - 1, y)] else [])
  }

  /** Every selected point of a w by h grid, in row-major order. */
  function Selected(sel: (int, int) -> bool, w: nat, h: nat): seq<Point>
  {
    SelectedBefore(sel, w, h, 0)
  }

  predicate RowMajorBefore(p: Point, q: Point)
  {
    p.y < q.y || (p.y == q.y && p.x < q.x)
  }

  predicate RowMajorOrdered(s: seq<Point>)
  {
    forall i, j :: 0 <= i < j < |s| ==> RowMajorBefore(s[i], s[j])
  }

  /** A point is listed exactly when it lies in the grid before (x, y) and is
      selected. */
  lemma {:induction false} SelectedBeforeMembers(sel: (int, int) -> bool, w: nat, y: nat, x: nat, p: Point)
    requires x <= w
    ensures p in SelectedBefore(sel, w, y, x) <==>
      0 <= p.x < w && 0 <= p.y && RowMajorBefore(p, Point(x, y)) && sel(p.x, p.y)
    decreases y, x
  {
    if x == 0 {
      if y > 0 {
        SelectedBeforeMembers(sel, w, y - 1, w, p);
      }
    } else {
      SelectedBeforeMembers(sel, w, y, x - 1, p);
    }
  }

  /** The list is strictly in row-major order. */
  lemma {:induction false} SelectedBeforeOrdered(sel: (int, int) -> bool, w: nat, y: nat, x: nat)
    requires x <= w
    ensures RowMajorOrdered(SelectedBefore(sel, w, y, x))
    decreases y, x
  {
    if x == 0 {
      if y > 0 {
        SelectedBeforeOrdered(sel, w, y - 1, w);
      }
    } else {
      SelectedBeforeOrdered(sel, w, y, x - 1);
      var a := SelectedBefore(sel, w, y, x - 1);
      forall i | 0 <= i < |a|
        ensures RowMajorBefore(a[i], Point(x - 1, y))
      {
        SelectedBeforeMembers(sel, w, y, x - 1, a[i]);
      }
      var s := SelectedBefore(sel, w, y, x);
      forall i, j | 0 <= i < j < |s|
        ensures RowMajorBefore(s[i], s[j])
      {
        if j == |a| {
          assert s[i] == a[i] && s[j] == Point(x - 1, y);
        } else {
          assert s[i] == a[i] && s[j] == a[j];
        }
      }
    }
  }

  /** FillSelectionAction records every selected cell of the grid, each once, in
      row-major order. */
  lemma SelectedExactly(sel: (int, int) -> bool, w: nat, h: nat)
    ensures var s := Selected(sel, w, h);
      (forall p :: p in s <==> 0 <= p.x < w && 0 <= p.y < h && sel(p.x, p.y)) &&
      RowMajorOrdered(s) &&
      Distinct(s)
  {
    forall p
      ensures p in Selected(sel, w, h) <==> 0 <= p.x < w && 0 <= p.y < h && sel(p.x, p.y)
    {
      SelectedBeforeMembers(sel, w, h, 0, p);
    }
    SelectedBeforeOrdered(sel, w, h, 0);
  }

  /** The tiles the background holds at ps. */
  function ValuesAt(bg: array2<Word>, ps: seq<Point>): (r: seq<Word>)
    requires AllInBounds(bg, ps)
    reads bg
    ensures |r| == |ps| && forall i :: 0 <= i < |ps| ==> r[i] == bg[ps[i].x, ps[i].y]
  {
    seq(|ps|, i requires 0 <= i < |ps| reads bg => bg[ps[i].x, ps[i].y])
  }

  class FillSelectionAction {
    var points: seq<Point>
    var prevTileType: seq<Word>
    var tileType: Word

    ghost predicate Valid()
      reads this
    {
      |prevTileType| == |points| && Distinct(points)
    }

    constructor (tileType: Word)
      ensures points == [] && prevTileType == [] && this.tileType == tileType
    {
      points := [];
      prevTileType := [];
      this.tileType := tileType;
    }

    /** AfterSetEditor: walks the grid row by row and records each selected cell and
        the tile it holds; sel stands for the editor's selection. */
    method AfterSetEditor(bg: array2<Word>, sel: (int, int) -> bool)
      modifies this`points, this`prevTileType
      ensures points == old(points) + Selected(sel, bg.Length0, bg.Length1)
      ensures AllInBounds(bg, Selected(sel, bg.Length0, bg.Length1)) &&
        prevTileType == old(prevTileType) + ValuesAt(bg, Selected(sel, bg.Length0, bg.Length1))
      ensures old(points == [] && prevTileType == []) ==> Valid()
    {
      var found, vals := FindSelected(bg, sel);
      SelectedExactly(sel, bg.Length0, bg.Length1);
      points := points + found;
      prevTileType := prevTileType + vals;
    }

    /** Undo: every point gets back its recorded tile. */
    method Undo(bg: array2<Word>)
      requires |points| <= |prevTileType| && AllInBounds(bg, points)
      modifies bg
      ensures forall x, y :: 0 <= x < bg.Length0 && 0 <= y < bg.Length1 ==>
        bg[x, y] == CellAfter(old(bg[x, y]), points, prevTileType, Point(x, y))
    {
      WriteCells(bg, points, prevTileType);
    }

    /** Redo: every point gets the fill tile. */
    method Redo(bg: array2<Word>)
      requires AllInBounds(bg, points)
      modifies bg
      ensures forall x, y :: 0 <= x < bg.Length0 && 0 <= y < bg.Length1 ==>
        bg[x, y] == CellAfter(old(bg[x, y]), points, Filled(|points|, tileType), Point(x, y))
    {
      WriteCells(bg, points, Filled(|points|, tileType));
    }

    /** Merge: a later fill of the same selection only changes the tile. */
    method Merge(other: FillSelectionAction)
      modifies this`tileType
      ensures tileType == old(other.tileType)
    {
      tileType := other.tileType;
    }
  }

  /** The double loop of FillSelectionAction.AfterSetEditor, collecting the
      selected points and their tiles. */
  method FindSelected(bg: array2<Word>, sel: (int, int) -> bool) returns (found: seq<Point>, vals: seq<Word>)
    ensures found == Selected(sel, bg.Length0, bg.Length1)
    ensures AllInBounds(bg, found) && vals == ValuesAt(bg, found)
  {
    found, vals := [], [];
    for y := 0 to bg.Length1
      invariant found == SelectedBefore(sel, bg.Length0, y, 0)
      invariant AllInBounds(bg, found) && vals == ValuesAt(bg, found)
    {
      for x := 0 to bg.Length0
        invariant found == SelectedBefore(sel, bg.Length0, y, x)
        invariant AllInBounds(bg, found) && vals == ValuesAt(bg, found)
      {
        if sel(x, y) {
          found := found + [Point(x, y)];
          vals := vals + [bg[x, y]];
        }
      }
    }
  }
}

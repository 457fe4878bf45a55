/**
 * The 8x8 board as a value: row `x`, column `y`. Pure rules read this value;
 * class Boards.Board keeps the same contents in an array.
 */
module Grids {
  import opened Optional
  import opened Coords
  import opened Pieces

  type Grid = seq<seq<Option<Piece>>>

  predicate IsGrid(g: Grid) {
    |g| == 8 && forall i :: 0 <= i < 8 ==> |g[i]| == 8
  }

  function At(g: Grid, p: Point): Option<Piece>
    requires IsGrid(g) && p.InRange()
  {
    g[p.x][p.y]
  }

  /** The grid with square `p` holding `c` and every other square as before. */
  function Put(g: Grid, p: Point, c: Option<Piece>): (r: Grid)
    requires IsGrid(g) && p.InRange()
    ensures IsGrid(r) && At(r, p) == c
    ensures forall q: Point :: q.InRange() && q != p ==> At(r, q) == At(g, q)
  {
    g[p.x := g[p.x][p.y := c]]
  }

  /** Every piece records the square that holds it (the check in Board::get). */
  predicate Consistent(g: Grid)
    requires IsGrid(g)
  {
    forall i, j :: 0 <= i < 8 && 0 <= j < 8 && g[i][j].Some? ==> g[i][j].value.pos == Point(i, j)
  }

  function EmptyGrid(): (g: Grid)
    ensures IsGrid(g) && forall q: Point :: q.InRange() ==> At(g, q) == None
  {
    seq(8, i => seq(8, j => None))
  }

  /** Board::set and Board::set_piece: store `c` at `p` and set its position to `p`. */
  function SetCell(g: Grid, p: Point, c: Option<Piece>): (r: Grid)
    requires IsGrid(g) && p.InRange()
    ensures IsGrid(r) && At(r, p) == (if c.Some? then Some(c.value.(pos := p)) else None)
    ensures forall q: Point :: q.InRange() && q != p ==> At(r, q) == At(g, q)
    ensures Consistent(g) ==> Consistent(r)
  {
    var r := Put(g, p, if c.Some? then Some(c.value.(pos := p)) else None);
    assert forall i, j :: 0 <= i < 8 && 0 <= j < 8 ==> r[i][j] == At(r, Point(i, j));
    r
  }

  /**
   * Board::move_piece: the occupant of `p1` goes to `p2` (and records the
   * move), `p1` becomes empty.
   */
  function MoveCells(g: Grid, p1: Point, p2: Point): (r: Grid)
    requires IsGrid(g) && p1.InRange() && p2.InRange() && At(g, p1).Some?
    ensures IsGrid(r)
  {
    Put(Put(g, p2, Some(Moved(At(g, p1).value, p2))), p1, None)
  }

  /** What move_piece promises: the mover at `p2`, `p1` empty, nothing else changed. */
  lemma MoveCellsEffect(g: Grid, p1: Point, p2: Point)
    requires IsGrid(g) && p1.InRange() && p2.InRange() && At(g, p1).Some? && p1 != p2
    ensures At(MoveCells(g, p1, p2), p2) == Some(Moved(At(g, p1).value, p2))
    ensures At(MoveCells(g, p1, p2), p1) == None
    ensures forall q: Point :: q.InRange() && q != p1 && q != p2 ==> At(MoveCells(g, p1, p2), q) == At(g, q)
    ensures Consistent(g) ==> Consistent(MoveCells(g, p1, p2))
  {
    var r: Grid := MoveCells(g, p1, p2);
    if Consistent(g) {
      forall i: int, j: int | 0 <= i < 8 && 0 <= j < 8 && r[i][j].Some?
        ensures r[i][j].value.pos == Point(i, j)
      {
        assert r[i][j] == At(r, Point(i, j));
      }
    }
  }

  /** One square after move_piece, by index. */
  lemma MoveCellsAt(g: Grid, p1: Point, p2: Point, i: int, j: int)
    requires IsGrid(g) && p1.InRange() && p2.InRange() && At(g, p1).Some? && p1 != p2
    requires 0 <= i < 8 && 0 <= j < 8
    ensures MoveCells(g, p1, p2)[i][j] ==
      if Point(i, j) == p1 then None
      else if Point(i, j) == p2 then Some(Moved(At(g, p1).value, p2))
      else g[i][j]
  {
  }

  /** Two grids with the same squares are the same grid. */
  lemma GridExt(a: Grid, b: Grid)
    requires IsGrid(a) && IsGrid(b)
    requires forall q: Point :: q.InRange() ==> At(a, q) == At(b, q)
    ensures a == b
  {
    forall i | 0 <= i < 8 ensures a[i] == b[i] {
      forall j | 0 <= j < 8 ensures a[i][j] == b[i][j] {
        assert At(a, Point(i, j)) == At(b, Point(i, j));
      }
    }
  }

  /**
   * Setting a square back to what it held undoes a set: with consistent
   * positions, restoring both squares a hypothetical move touched restores
   * the whole grid (the revert step of Chess::check).
   */
  lemma RestoreIsIdentity(g: Grid, p1: Point, p2: Point)
    requires IsGrid(g) && Consistent(g) && p1.InRange() && p2.InRange() && p1 != p2
    ensures SetCell(SetCell(SetCell(SetCell(g, p1, None), p2, At(g, p1)), p1, At(g, p1)), p2, At(g, p2)) == g
  {
    var h := SetCell(SetCell(SetCell(SetCell(g, p1, None), p2, At(g, p1)), p1, At(g, p1)), p2, At(g, p2));
    assert At(g, p1).Some? ==> At(g, p1).value.pos == p1 by {
      assert At(g, p1) == g[p1.x][p1.y];
    }
    assert At(g, p2).Some? ==> At(g, p2).value.pos == p2 by {
      assert At(g, p2) == g[p2.x][p2.y];
    }
    GridExt(h, g);
  }
}

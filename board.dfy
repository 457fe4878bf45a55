/**
 * class Board in server/chess.hpp: an 8x8 array of optional pieces, updated
 * in place. Its contents as a value are `Cells()`.
 */
module Boards {
  import opened Optional
  import opened Coords
  import opened Pieces
  import opened Grids

  class Board {
    const squares: array2<Option<Piece>>

    /**
     * The array is 8x8 and every piece records the square that holds it, so
     * the "Error" diagnostic of Board::get never fires.
     */
    ghost predicate Valid()
      reads this, squares
    {
      squares.Length0 == 8 && squares.Length1 == 8 &&
      forall i, j :: 0 <= i < 8 && 0 <= j < 8 && squares[i, j].Some? ==> squares[i, j].value.pos == Point(i, j)
    }

    function Cells(): (g: Grid)
      reads this, squares
      requires squares.Length0 == 8 && squares.Length1 == 8
      ensures IsGrid(g)
      ensures forall i, j :: 0 <= i < 8 && 0 <= j < 8 ==> g[i][j] == squares[i, j]
    {
      seq(8, i requires 0 <= i < 8 reads this, squares =>
        seq(8, j requires 0 <= j < 8 reads this, squares => squares[i, j]))
    }

    lemma CellsConsistent()
      requires Valid()
      ensures Consistent(Cells())
    {
    }

    /** Board(): the source leaves the squares unset and always clears them next. */
    constructor ()
      ensures Valid() && fresh(squares)
      ensures Cells() == EmptyGrid()
    {
      squares := new Option<Piece>[8, 8]((i, j) => None);
      new;
      GridExt(Cells(), EmptyGrid());
    }

    /** Board::get: the occupant of `p`, whose recorded position is `p`. */
    function Get(p: Point): (c: Option<Piece>)
      reads this, squares
      requires Valid() && p.InRange()
      ensures c == At(Cells(), p)
      ensures c.Some? ==> c.value.pos == p
    {
      squares[p.x, p.y]
    }

    /** Board::set: store `c` at `p`, set its position, return the former occupant. */
    method Set(p: Point, c: Option<Piece>) returns (previous: Option<Piece>)
      requires Valid() && p.InRange()
      modifies squares
      ensures Valid()
      ensures previous == old(Get(p))
      ensures Cells() == SetCell(old(Cells()), p, c)
      ensures squares[p.x, p.y] == if c.Some? then Some(c.value.(pos := p)) else None
      ensures forall i, j :: 0 <= i < 8 && 0 <= j < 8 && (i != p.x || j != p.y) ==> squares[i, j] == old(squares[i, j])
    {
      previous := squares[p.x, p.y];
      squares[p.x, p.y] := if c.Some? then Some(c.value.(pos := p)) else None;
      GridExt(Cells(), SetCell(old(Cells()), p, c));
    }

    /** Board::set_piece: as `Set`; the source sets the position a second time. */
    method SetPiece(c: Option<Piece>, p: Point) returns (previous: Option<Piece>)
      requires Valid() && p.InRange()
      modifies squares
      ensures Valid()
      ensures previous == old(Get(p))
      ensures Cells() == SetCell(old(Cells()), p, c)
    {
      previous := Set(p, c);
    }

    /**
     * Board::move_piece: the occupant of `p1` moves to `p2` (Piece::move
     * records the move), `p1` is emptied, the former occupant of `p2` is
     * returned.
     */
    method MovePiece(p1: Point, p2: Point) returns (captured: Option<Piece>)
      requires Valid() && p1.InRange() && p2.InRange() && Get(p1).Some?
      modifies squares
      ensures Valid()
      ensures captured == old(Get(p2))
      ensures Cells() == MoveCells(old(Cells()), p1, p2)
    {
      var piece1 := Get(p1);
      captured := Get(p2);
      // The record is updated before it is stored, as piece1->move(p2) updates the object.
      var _ := Set(p2, Some(Moved(piece1.value, p2)));
      var _ := Set(p1, None);
      GridExt(Cells(), MoveCells(old(Cells()), p1, p2));
    }

    /** Board::clear: every square becomes empty. */
    method Clear()
      requires Valid()
      modifies squares
      ensures Valid()
      ensures Cells() == EmptyGrid()
    {
      for i := 0 to 8
        invariant Valid()
        invariant forall a, b :: 0 <= a < i && 0 <= b < 8 ==> squares[a, b] == None
      {
        for j := 0 to 8
          invariant Valid()
          invariant forall a, b :: 0 <= a < i && 0 <= b < 8 ==> squares[a, b] == None
          invariant forall b :: 0 <= b < j ==> squares[i, b] == None
        {
          var _ := Set(Point(i, j), None);
        }
      }
      GridExt(Cells(), EmptyGrid());
    }
  }
}

/**
 * The move tokens the Qt client sends (client/chess_gui.hpp): a drag from one
 * square to another becomes "O-O", "O-O-O" or four characters of file and
 * rank, which the server parses with Point::from_string.
 *
 * The client's QPoint is (column, row), the transpose of the server's Point,
 * which is (row, column); rows count from the top, so row 0 is rank 8.
 */
module MoveToken {
  import opened Coords
  import opened CInt
  import opened Rules

  /** A QPoint of the client: `x` is the column, `y` the row. */
  datatype QPoint = QPoint(x: int, y: int) {
    predicate OnBoard() {
      0 <= x <= 7 && 0 <= y <= 7
    }

    /** The same square as a server Point. */
    function AsPoint(): Point {
      Point(y, x)
    }
  }

  /** The colour codes of SquareWidget. */
  const Black: int32 := 0
  const White: int32 := 1

  /** SquareWidget::switchColor: `WHITE ^ BLACK ^ color`. */
  function SwitchColor(color: int32): (r: int32)
    ensures color == White ==> r == Black
    ensures color == Black ==> r == White
  {
    Xor(Xor(White, Black), color)
  }

  /** Switching twice gives back any colour code, not only 0 and 1. */
  lemma SwitchColorInvolution(color: int32)
    ensures SwitchColor(SwitchColor(color)) == color
  {
    var k := Xor(White, Black);
    XorCommutes(k, color);
    XorCommutes(k, Xor(color, k));
    XorCancels(color, k);
  }

  /** BoardWidget::pointToString: the column as a file letter, the row as a rank digit. */
  function PointToString(p: QPoint): (s: string)
    ensures |s| == 2
    ensures s == Coords.ToString(p.AsPoint())
  {
    [ByteChar(p.x + 'a' as int), ByteChar(7 - p.y + '1' as int)]
  }

  /** The server reads back the square the client wrote: column x, row y. */
  lemma PointToStringParsed(p: QPoint)
    requires p.OnBoard()
    ensures FromString(PointToString(p), 0) == (Point(p.y, p.x), true)
  {
    ToStringRoundTrip(p.AsPoint());
  }

  /** A drag that starts on the king's file of a back rank and stays on that rank. */
  predicate KingRankDrag(start: QPoint, end: QPoint) {
    start.x == 4 && (start.y == 0 || start.y == 7) && end.y == start.y
  }

  /** BoardWidget::formMove: a two-file king-file drag is castling, anything else is coordinates. */
  function FormMove(start: QPoint, end: QPoint): (m: string)
    ensures KingRankDrag(start, end) && end.x - start.x == 2 ==> m == "O-O"
    ensures KingRankDrag(start, end) && end.x - start.x == -2 ==> m == "O-O-O"
    ensures !(KingRankDrag(start, end) && (end.x - start.x == 2 || end.x - start.x == -2)) ==>
      m == PointToString(start) + PointToString(end)
  {
    if start.x == 4 && (start.y == 0 || start.y == 7) then
      var d := QPoint(end.x - start.x, end.y - start.y);
      if d.y == 0 && d.x == 2 then "O-O"
      else if d.y == 0 && d.x == -2 then "O-O-O"
      else PointToString(start) + PointToString(end)
    else PointToString(start) + PointToString(end)
  }

  /** The castling tokens come from exactly the castling drags, whatever piece is dragged. */
  lemma FormMoveCastling(start: QPoint, end: QPoint)
    ensures FormMove(start, end) == "O-O" <==> KingRankDrag(start, end) && end.x == 6
    ensures FormMove(start, end) == "O-O-O" <==> KingRankDrag(start, end) && end.x == 2
    ensures |FormMove(start, end)| in {3, 4, 5}
  {
  }

  /**
   * On the server, a drag between two squares that is not a castling drag is
   * the coordinate move between the same squares.
   */
  lemma FormMoveCoordinates(s: ChessState, start: QPoint, end: QPoint)
    requires Inv(s) && start.OnBoard() && end.OnBoard()
    requires !(KingRankDrag(start, end) && (end.x == 6 || end.x == 2))
    ensures EnterMove(s, FormMove(start, end)) == CoordMove(s, start.AsPoint(), end.AsPoint())
  {
    var m := FormMove(start, end);
    PointToStringParsed(start);
    PointToStringParsed(end);
    assert m[0..2] == PointToString(start);
    assert m[2..4] == PointToString(end);
    assert FromString(m, 0) == FromString(PointToString(start), 0);
    assert FromString(m, 2) == FromString(PointToString(end), 0);
  }

  /** A castling drag reaches the server as castling on the side the king moves to. */
  lemma FormMoveCastles(s: ChessState, start: QPoint, end: QPoint)
    requires Inv(s) && KingRankDrag(start, end)
    ensures end.x == 6 ==>
      (CastlingInv(s, Kingside); EnterMove(s, FormMove(start, end)) == SwitchIfAccepted(Castling(s, Kingside)))
    ensures end.x == 2 ==>
      (CastlingInv(s, Queenside); EnterMove(s, FormMove(start, end)) == SwitchIfAccepted(Castling(s, Queenside)))
  {
    if end.x == 6 || end.x == 2 {
      var m := FormMove(start, end);
      assert m == "O-O" || m == "O-O-O";
      assert !FromString(m, 0).1;
    }
  }
}

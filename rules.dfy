/**
 * The state of class Chess (server/chess.hpp:259-539) as a value, and what
 * each of its operations does to it. The pointers of the source become
 * squares: `enPassant` is the square of the pawn m_en_passant points to,
 * `whiteKing`/`blackKing` those of m_kings, and `toPromote` is the pawn
 * m_to_promote points to, as it stood when it reached the last rank.
 */
module Rules {
  import opened Optional
  import opened Coords
  import opened Pieces
  import opened Grids
  import opened Legality
  import opened Attack

  // The return codes of Chess::enter_move.
  const Accepted := 1
  const Promotion := 2
  const InvalidFormat := -1
  const IdleMove := -2
  const NoSuchPiece := -3
  const NotInTurn := -4
  const SquareOccupied := -5
  const InCheck := -6
  const InvalidMove := -7

  /** CASTLING_KINGSIDE = 1, CASTLING_QUEENSIDE = 2. */
  datatype Side = Kingside | Queenside

  datatype ChessState = ChessState(
    cells: Grid,
    turn: Color,
    enPassant: Option<Point>,
    toPromote: Option<Piece>,
    whiteKing: Point,
    blackKing: Point)
  {
    /** m_kings[c]->pos(). */
    function KingAt(c: Color): Point {
      if c == White then whiteKing else blackKing
    }
  }

  /** The squares the engine tracks are on the board, and every piece records its square. */
  ghost predicate Shape(s: ChessState) {
    IsGrid(s.cells) && Consistent(s.cells) &&
    s.whiteKing.InRange() && s.blackKing.InRange() &&
    (s.enPassant.Some? ==> s.enPassant.value.InRange()) &&
    (s.toPromote.Some? ==> s.toPromote.value.pos.InRange())
  }

  /** A pawn flagged en passant stands on the tracked square and is not of the side to move. */
  ghost predicate FlagsTracked(s: ChessState)
    requires IsGrid(s.cells)
  {
    forall i, j :: 0 <= i < 8 && 0 <= j < 8 && s.cells[i][j].Some? && s.cells[i][j].value.enPassant ==>
      s.enPassant == Some(Point(i, j)) && s.cells[i][j].value.kind == Pawn && s.cells[i][j].value.color != s.turn
  }

  /** A king on the board stands on the square tracked for its colour (m_kings). */
  ghost predicate KingsTracked(s: ChessState)
    requires IsGrid(s.cells)
  {
    forall i, j :: 0 <= i < 8 && 0 <= j < 8 && s.cells[i][j].Some? && s.cells[i][j].value.kind == King ==>
      s.KingAt(s.cells[i][j].value.color) == Point(i, j)
  }

  /** No piece on the board carries the en-passant flag. */
  ghost predicate NoFlags(g: Grid)
    requires IsGrid(g)
  {
    forall i, j :: 0 <= i < 8 && 0 <= j < 8 && g[i][j].Some? ==> !g[i][j].value.enPassant
  }

  /** The invariant every operation of the engine keeps. */
  ghost predicate Inv(s: ChessState) {
    Shape(s) && FlagsTracked(s) && KingsTracked(s)
  }

  /**
   * The flags once the piece on `p1` has gone to `p2`: every flagged piece
   * that survives the move (nothing survives on `p2`) is tracked where it lands.
   */
  ghost predicate FlagsAfterMove(s: ChessState, p1: Point, p2: Point)
    requires IsGrid(s.cells)
  {
    forall i, j :: 0 <= i < 8 && 0 <= j < 8 && Point(i, j) != p2 && s.cells[i][j].Some? && s.cells[i][j].value.enPassant ==>
      s.enPassant == Some(if Point(i, j) == p1 then p2 else Point(i, j)) &&
      s.cells[i][j].value.kind == Pawn && s.cells[i][j].value.color != s.turn
  }

  /** An unflagged mover leaves the tracked flags as they are. */
  lemma FlagsStay(s: ChessState, p1: Point, p2: Point)
    requires Inv(s) && p1.InRange() && At(s.cells, p1).Some? && !At(s.cells, p1).value.enPassant
    ensures FlagsAfterMove(s, p1, p2)
  {
    assert At(s.cells, p1) == s.cells[p1.x][p1.y];
  }

  /** Pawn::en_passant(false) on the piece at `q`, if any. */
  function ClearFlag(g: Grid, q: Point): (r: Grid)
    requires IsGrid(g) && q.InRange()
    ensures IsGrid(r)
  {
    match At(g, q)
    case None => g
    case Some(pc) => Put(g, q, Some(pc.(enPassant := false)))
  }

  /** Board::set of the unflagged piece on its own square clears the flag as ClearFlag does. */
  lemma ClearFlagBySet(g: Grid, q: Point)
    requires IsGrid(g) && Consistent(g) && q.InRange() && At(g, q).Some?
    ensures SetCell(g, q, Some(At(g, q).value.(enPassant := false))) == ClearFlag(g, q)
  {
    var pc := At(g, q).value.(enPassant := false);
    assert pc.(pos := q) == pc;
  }

  /** Chess::switchTurn: clear the en-passant pawn, then flip the side to move. */
  function SwitchTurn(s: ChessState): (t: ChessState)
    requires Inv(s)
    ensures Inv(t) && NoFlags(t.cells)
    ensures t.turn == s.turn.Opponent() && t.enPassant == None
    ensures t.toPromote == s.toPromote && t.whiteKing == s.whiteKing && t.blackKing == s.blackKing
    ensures forall q: Point :: q.InRange() && At(s.cells, q).Some? ==>
      At(t.cells, q) == Some(At(s.cells, q).value.(enPassant := false))
    ensures forall q: Point :: q.InRange() && At(s.cells, q).None? ==> At(t.cells, q).None?
  {
    var cells := if s.enPassant.Some? then ClearFlag(s.cells, s.enPassant.value) else s.cells;
    var t := s.(cells := cells, enPassant := None, turn := s.turn.Opponent());
    forall i, j | 0 <= i < 8 && 0 <= j < 8
      ensures cells[i][j] == (if s.cells[i][j].Some? then Some(s.cells[i][j].value.(enPassant := false)) else None)
    {
      assert cells[i][j] == At(cells, Point(i, j)) && s.cells[i][j] == At(s.cells, Point(i, j));
    }
    t
  }

  /** m_kings follow a king that moves. */
  function Follow(s: ChessState, pc: Piece, to: Point): ChessState {
    if pc.kind != King then s
    else if pc.color == White then s.(whiteKing := to)
    else s.(blackKing := to)
  }

  /** m_board->move_piece(p1, p2) seen from the engine: the king pointers follow their kings. */
  function MoveOn(s: ChessState, p1: Point, p2: Point): (t: ChessState)
    requires IsGrid(s.cells) && p1.InRange() && p2.InRange() && At(s.cells, p1).Some?
    ensures IsGrid(t.cells) && t.turn == s.turn && t.enPassant == s.enPassant && t.toPromote == s.toPromote
    ensures t.cells == MoveCells(s.cells, p1, p2)
    ensures forall c :: t.KingAt(c) == if At(s.cells, p1).value.kind == King && At(s.cells, p1).value.color == c then p2 else s.KingAt(c)
  {
    Follow(s.(cells := MoveCells(s.cells, p1, p2)), At(s.cells, p1).value, p2)
  }

  /** The board during Chess::check: `p1` emptied, its piece set on `p2`. */
  function Simulated(g: Grid, p1: Point, p2: Point): (h: Grid)
    requires IsGrid(g) && p1.InRange() && p2.InRange()
    ensures IsGrid(h)
  {
    SetCell(SetCell(g, p1, None), p2, At(g, p1))
  }

  /**
   * Chess::check(p1, p2): the attack on the mover's king once the piece on
   * `p1` stands on `p2`; a king that is itself the mover is looked for on `p2`.
   */
  function CheckSpec(s: ChessState, p1: Point, p2: Point): int
    requires Inv(s) && p1.InRange() && p2.InRange() && At(s.cells, p1).Some?
  {
    var pc := At(s.cells, p1).value;
    var king := if pc.kind == King && pc.color == s.turn then p2 else s.KingAt(s.turn);
    AttackCode(Simulated(s.cells, p1, p2), king, s.turn)
  }

  /** Board::move_piece keeps the invariant when the flags are tracked where they land. */
  lemma MoveOnInv(s: ChessState, p1: Point, p2: Point)
    requires Shape(s) && KingsTracked(s) && p1.InRange() && p2.InRange() && p1 != p2 && At(s.cells, p1).Some?
    requires FlagsAfterMove(s, p1, p2)
    ensures Inv(MoveOn(s, p1, p2))
  {
    MoveCellsEffect(s.cells, p1, p2);
    MoveOnFlags(s, p1, p2);
    MoveOnKings(s, p1, p2);
  }

  lemma MoveOnFlags(s: ChessState, p1: Point, p2: Point)
    requires IsGrid(s.cells) && Consistent(s.cells) && p1.InRange() && p2.InRange() && p1 != p2 && At(s.cells, p1).Some?
    requires FlagsAfterMove(s, p1, p2)
    ensures FlagsTracked(MoveOn(s, p1, p2))
  {
    var t := MoveOn(s, p1, p2);
    assert At(s.cells, p1) == s.cells[p1.x][p1.y];
    forall i, j | 0 <= i < 8 && 0 <= j < 8 && t.cells[i][j].Some? && t.cells[i][j].value.enPassant
      ensures t.enPassant == Some(Point(i, j)) && t.cells[i][j].value.kind == Pawn && t.cells[i][j].value.color != t.turn
    {
      MoveCellsAt(s.cells, p1, p2, i, j);
      MoveCellsAt(s.cells, p1, p2, i, j);
    }
  }

  lemma MoveOnKings(s: ChessState, p1: Point, p2: Point)
    requires IsGrid(s.cells) && p1.InRange() && p2.InRange() && p1 != p2 && At(s.cells, p1).Some?
    requires KingsTracked(s)
    ensures KingsTracked(MoveOn(s, p1, p2))
  {
    var t := MoveOn(s, p1, p2);
    var pc := At(s.cells, p1).value;
    assert At(s.cells, p1) == s.cells[p1.x][p1.y];
    forall i, j | 0 <= i < 8 && 0 <= j < 8 && t.cells[i][j].Some? && t.cells[i][j].value.kind == King
      ensures t.KingAt(t.cells[i][j].value.color) == Point(i, j)
    {
      MoveCellsAt(s.cells, p1, p2, i, j);
    }
  }

  /** A status of 3 means that the tracked en-passant pawn stands behind the target. */
  lemma EnPassantTracked(s: ChessState, p1: Point, p2: Point)
    requires Inv(s) && p1.InRange() && p2.InRange() && At(s.cells, p1).Some?
    requires ValidMove(At(s.cells, p1).value, p2, s.cells) == 3
    ensures s.enPassant == Some(Point(p1.x, p2.y))
    ensures At(s.cells, Point(p1.x, p2.y)).Some? && At(s.cells, Point(p1.x, p2.y)).value.kind == Pawn
  {
    var pc := At(s.cells, p1).value;
    assert pc.pos == p1 by {
      assert At(s.cells, p1) == s.cells[p1.x][p1.y];
    }
    var q := Point(p1.x, p2.y);
    assert At(s.cells, q) == s.cells[q.x][q.y];
  }

  /** The piece of the side to move is never the flagged one. */
  lemma MoverUnflagged(s: ChessState, p1: Point)
    requires Inv(s) && p1.InRange() && At(s.cells, p1).Some? && At(s.cells, p1).value.color == s.turn
    ensures !At(s.cells, p1).value.enPassant
  {
    assert At(s.cells, p1) == s.cells[p1.x][p1.y];
  }

  /** Status 2, before the move: the turn switched, the pawn on `p1` flagged and tracked as landing on `p2`. */
  function DoublePushed(s: ChessState, p1: Point, p2: Point): (t: ChessState)
    requires Inv(s) && p1.InRange() && p2.InRange() && At(s.cells, p1).Some?
    ensures IsGrid(t.cells) && At(t.cells, p1).Some?
  {
    var t := SwitchTurn(s);
    t.(cells := SetCell(t.cells, p1, Some(At(s.cells, p1).value.(enPassant := true))), enPassant := Some(p2))
  }

  lemma DoublePushInv(s: ChessState, p1: Point, p2: Point)
    requires Inv(s) && p1.InRange() && p2.InRange() && p1 != p2 && At(s.cells, p1).Some?
    requires At(s.cells, p1).value.kind == Pawn && At(s.cells, p1).value.color == s.turn
    ensures Inv(MoveOn(DoublePushed(s, p1, p2), p1, p2))
  {
    var t := SwitchTurn(s);
    var u := DoublePushed(s, p1, p2);
    forall i, j | 0 <= i < 8 && 0 <= j < 8 && u.cells[i][j].Some?
      ensures Point(i, j) != p2 && u.cells[i][j].value.enPassant ==>
        u.enPassant == Some(if Point(i, j) == p1 then p2 else Point(i, j)) &&
        u.cells[i][j].value.kind == Pawn && u.cells[i][j].value.color != u.turn
      ensures u.cells[i][j].value.kind == King ==> u.KingAt(u.cells[i][j].value.color) == Point(i, j)
    {
      var q := Point(i, j);
      assert u.cells[i][j] == At(u.cells, q);
      if q != p1 {
        assert At(t.cells, q) == t.cells[i][j];
      }
    }
    MoveOnInv(u, p1, p2);
  }

  /** Status 3, before the move: the pawn taken en passant removed and no longer tracked. */
  function EnPassantTaken(s: ChessState, q: Point): (t: ChessState)
    requires IsGrid(s.cells) && q.InRange()
    ensures IsGrid(t.cells)
  {
    s.(cells := SetCell(s.cells, q, None), enPassant := None)
  }

  lemma EnPassantInv(s: ChessState, p1: Point, p2: Point)
    requires Inv(s) && s.enPassant.Some? && p1.InRange() && p2.InRange() && p1 != p2 && At(s.cells, p1).Some?
    requires p1 != s.enPassant.value
    ensures At(EnPassantTaken(s, s.enPassant.value).cells, p1) == At(s.cells, p1)
    ensures Inv(MoveOn(EnPassantTaken(s, s.enPassant.value), p1, p2))
  {
    var q := s.enPassant.value;
    var u := EnPassantTaken(s, q);
    forall i, j | 0 <= i < 8 && 0 <= j < 8 && u.cells[i][j].Some?
      ensures !u.cells[i][j].value.enPassant
      ensures u.cells[i][j].value.kind == King ==> u.KingAt(u.cells[i][j].value.color) == Point(i, j)
    {
      var r := Point(i, j);
      assert u.cells[i][j] == At(u.cells, r);
      assert At(s.cells, r) == s.cells[i][j];
    }
    MoveOnInv(u, p1, p2);
  }

  /** Status 4, before the move: the pawn remembered as it will stand on `p2`. */
  lemma PromotionMoveInv(s: ChessState, p1: Point, p2: Point)
    requires Inv(s) && p1.InRange() && p2.InRange() && p1 != p2 && At(s.cells, p1).Some?
    requires At(s.cells, p1).value.color == s.turn
    ensures Inv(MoveOn(s.(toPromote := Some(Moved(At(s.cells, p1).value, p2))), p1, p2))
  {
    MoverUnflagged(s, p1);
    FlagsStay(s, p1, p2);
    MoveOnInv(s.(toPromote := Some(Moved(At(s.cells, p1).value, p2))), p1, p2);
  }

  /** The piece on `p1` may go to `p2`: it is the mover's, and valid_move gave a status from 1 to 4. */
  ghost predicate Movable(s: ChessState, p1: Point, p2: Point) {
    Inv(s) && p1.InRange() && p2.InRange() && p1 != p2 && At(s.cells, p1).Some? &&
    At(s.cells, p1).value.color == s.turn && ValidMove(At(s.cells, p1).value, p2, s.cells) != 0
  }

  /**
   * What enter_move does for each status of valid_move: 1 moves and switches
   * the turn; 2 switches the turn, flags the pawn and moves it; 3 removes the
   * pawn taken en passant, moves and switches; 4 remembers the pawn and moves
   * it, leaving the turn to the same side.
   */
  function Perform(s: ChessState, p1: Point, p2: Point): (t: ChessState)
    requires Movable(s, p1, p2)
    ensures Inv(t)
    ensures var status := ValidMove(At(s.cells, p1).value, p2, s.cells);
      && t.turn == (if status == 4 then s.turn else s.turn.Opponent())
      && t.toPromote == (if status == 4 then Some(Moved(At(s.cells, p1).value, p2)) else s.toPromote)
  {
    var pc := At(s.cells, p1).value;
    var status := ValidMove(pc, p2, s.cells);
    if status == 1 then
      MoverUnflagged(s, p1);
      FlagsStay(s, p1, p2);
      MoveOnInv(s, p1, p2);
      SwitchTurn(MoveOn(s, p1, p2))
    else if status == 2 then
      DoublePushInv(s, p1, p2);
      MoveOn(DoublePushed(s, p1, p2), p1, p2)
    else if status == 3 then
      EnPassantTracked(s, p1, p2);
      EnPassantInv(s, p1, p2);
      SwitchTurn(MoveOn(EnPassantTaken(s, s.enPassant.value), p1, p2))
    else
      PromotionMoveInv(s, p1, p2);
      MoveOn(s.(toPromote := Some(Moved(pc, p2))), p1, p2)
  }

  /**
   * The status-1 branch of enter_move as the source writes it
   * (server/chess.hpp:352-355): move_piece, `delete piece2`, switchTurn. When
   * piece2 is the flagged pawn m_en_passant points to, switchTurn writes into
   * that deleted pawn (server/chess.hpp:530-531); None stands for that write.
   * Perform is the corrected step the rest of the model uses.
   */
  function StepAsWritten(s: ChessState, p1: Point, p2: Point): (r: Option<ChessState>)
    requires Movable(s, p1, p2) && ValidMove(At(s.cells, p1).value, p2, s.cells) == 1
    ensures r.None? ==> s.enPassant == Some(p2)
    ensures r.Some? ==> r.value == Perform(s, p1, p2)
  {
    var captured := At(s.cells, p2);
    if captured.Some? && captured.value.enPassant then
      assert captured == s.cells[p2.x][p2.y];
      None
    else Some(Perform(s, p1, p2))
  }

  /**
   * The coordinate branch of Chess::enter_move (server/chess.hpp:341-376):
   * the checks in their order, then the move the status of valid_move calls for.
   */
  function CoordMove(s: ChessState, p1: Point, p2: Point): (r: (int, ChessState))
    requires Inv(s) && p1.InRange() && p2.InRange()
    ensures Inv(r.1)
    ensures r.0 in {Accepted, Promotion, IdleMove, NoSuchPiece, NotInTurn, SquareOccupied, InCheck, InvalidMove}
    ensures r.0 < 0 ==> r.1 == s
    ensures r.0 == IdleMove <==> p1 == p2
    ensures r.0 == NoSuchPiece <==> p1 != p2 && At(s.cells, p1).None?
    ensures r.0 == NotInTurn <==> p1 != p2 && At(s.cells, p1).Some? && At(s.cells, p1).value.color != s.turn
    ensures r.0 in {Accepted, Promotion} ==> Movable(s, p1, p2) && r.1 == Perform(s, p1, p2)
    ensures r.0 == Accepted ==> r.1.turn == s.turn.Opponent() && r.1.toPromote == s.toPromote
    ensures r.0 == Promotion ==> r.1.turn == s.turn && r.1.toPromote == Some(Moved(At(s.cells, p1).value, p2))
  {
    if p1 == p2 then (IdleMove, s)
    else if At(s.cells, p1).None? then (NoSuchPiece, s)
    else
      var pc := At(s.cells, p1).value;
      var target := At(s.cells, p2);
      if pc.color != s.turn then (NotInTurn, s)
      else if target.Some? && target.value.color == pc.color then (SquareOccupied, s)
      else if CheckSpec(s, p1, p2) != 0 then (InCheck, s)
      else
        var status := ValidMove(pc, p2, s.cells);
        if status == 0 then (InvalidMove, s)
        else (if status == 4 then Promotion else Accepted, Perform(s, p1, p2))
  }

  /** The back rank of the side to move: rank 1 (row 7) for White, rank 8 (row 0) for Black. */
  function CastlingRow(turn: Color): int {
    if turn == White then 7 else 0
  }

  /** king_position and rook_position of handle_castling: e1, a1 or h1 for White; e8, a8 or h8 for Black. */
  function CastlingKing(turn: Color): Point {
    Point(CastlingRow(turn), 4)
  }

  function CastlingRook(turn: Color, side: Side): Point {
    Point(CastlingRow(turn), if side == Queenside then 0 else 7)
  }

  function CastlingStep(side: Side): Point {
    if side == Queenside then Point(0, -1) else Point(0, 1)
  }

  /** new_king_position: the c or g file. */
  function CastledKing(turn: Color, side: Side): Point {
    Point(CastlingRow(turn), if side == Queenside then 2 else 6)
  }

  /** new_rook_position: the d or f file. */
  function CastledRook(turn: Color, side: Side): Point {
    Point(CastlingRow(turn), if side == Queenside then 3 else 5)
  }

  /** The four squares of a castling are on the board and pairwise distinct. */
  lemma CastlingSquaresApart(turn: Color, side: Side)
    ensures CastlingKing(turn).InRange() && CastlingRook(turn, side).InRange()
    ensures CastledKing(turn, side).InRange() && CastledRook(turn, side).InRange()
    ensures CastlingKing(turn) != CastledKing(turn, side) && CastlingKing(turn) != CastlingRook(turn, side)
    ensures CastlingKing(turn) != CastledRook(turn, side) && CastlingRook(turn, side) != CastledKing(turn, side)
    ensures CastlingRook(turn, side) != CastledRook(turn, side) && CastledKing(turn, side) != CastledRook(turn, side)
  {
    assert CastlingRow(turn) == 7 || CastlingRow(turn) == 0;
  }

  /** The king lands two steps along, on king_position + (0, -2) or (0, 2). */
  lemma CastledKingAlong(turn: Color, side: Side)
    ensures CastledKing(turn, side) == CastlingKing(turn).Plus(CastlingStep(side)).Plus(CastlingStep(side))
    ensures CastledKing(turn, side) == CastlingKing(turn).Plus(if side == Queenside then Point(0, -2) else Point(0, 2))
  {
    var row := CastlingRow(turn);
    if side == Queenside {
      assert Point(row, 4).Plus(Point(0, -1)) == Point(row, 3);
      assert Point(row, 3).Plus(Point(0, -1)) == Point(row, 2);
    } else {
      assert Point(row, 4).Plus(Point(0, 1)) == Point(row, 5);
      assert Point(row, 5).Plus(Point(0, 1)) == Point(row, 6);
    }
  }

  /** The rook lands on the square the king crosses, rook_position + (0, 3) or (0, -2). */
  lemma CastledRookAlong(turn: Color, side: Side)
    ensures CastledRook(turn, side) == CastlingKing(turn).Plus(CastlingStep(side))
    ensures CastledRook(turn, side) == CastlingRook(turn, side).Plus(if side == Queenside then Point(0, 3) else Point(0, -2))
  {
    RookOnCrossedSquare(turn, side);
    RookShift(turn, side);
  }

  lemma RookOnCrossedSquare(turn: Color, side: Side)
    ensures CastledRook(turn, side) == CastlingKing(turn).Plus(CastlingStep(side))
  {
    var row := CastlingRow(turn);
    if side == Queenside {
      assert Point(row, 4).Plus(Point(0, -1)) == Point(row, 3);
    } else {
      assert Point(row, 4).Plus(Point(0, 1)) == Point(row, 5);
    }
  }

  lemma RookShift(turn: Color, side: Side)
    ensures CastledRook(turn, side) == CastlingRook(turn, side).Plus(if side == Queenside then Point(0, 3) else Point(0, -2))
  {
    if side == Queenside {
      QueensRookShift(turn);
    } else {
      KingsRookShift(turn);
    }
  }

  lemma QueensRookShift(turn: Color)
    ensures CastledRook(turn, Queenside) == CastlingRook(turn, Queenside).Plus(Point(0, 3))
  {
  }

  lemma KingsRookShift(turn: Color)
    ensures CastledRook(turn, Kingside) == CastlingRook(turn, Kingside).Plus(Point(0, -2))
  {
  }

  /** Both facts about the squares of a castling together. */
  lemma CastlingSquares(turn: Color, side: Side)
    ensures CastlingKing(turn).InRange() && CastlingRook(turn, side).InRange()
    ensures CastledKing(turn, side).InRange() && CastledRook(turn, side).InRange()
    ensures CastlingKing(turn) != CastledKing(turn, side) && CastlingKing(turn) != CastlingRook(turn, side)
    ensures CastlingKing(turn) != CastledRook(turn, side) && CastlingRook(turn, side) != CastledKing(turn, side)
    ensures CastlingRook(turn, side) != CastledRook(turn, side) && CastledKing(turn, side) != CastledRook(turn, side)
    ensures CastledKing(turn, side) == CastlingKing(turn).Plus(CastlingStep(side)).Plus(CastlingStep(side))
    ensures CastledKing(turn, side) == CastlingKing(turn).Plus(if side == Queenside then Point(0, -2) else Point(0, 2))
    ensures CastledRook(turn, side) == CastlingKing(turn).Plus(CastlingStep(side))
    ensures CastledRook(turn, side) == CastlingRook(turn, side).Plus(if side == Queenside then Point(0, 3) else Point(0, -2))
  {
    CastlingSquaresApart(turn, side);
    CastledKingAlong(turn, side);
    CastledRookAlong(turn, side);
  }

  /** The squares are the ones the source names: e1/a1/h1 for White, e8/a8/h8 for Black. */
  lemma CastlingSquaresNamed()
    ensures FromString("e1", 0) == (CastlingKing(White), true)
    ensures FromString("a1", 0) == (CastlingRook(White, Queenside), true)
    ensures FromString("h1", 0) == (CastlingRook(White, Kingside), true)
    ensures FromString("e8", 0) == (CastlingKing(Black), true)
    ensures FromString("a8", 0) == (CastlingRook(Black, Queenside), true)
    ensures FromString("h8", 0) == (CastlingRook(Black, Kingside), true)
  {
  }

  /**
   * The loop of handle_castling and the test after it: the king's square,
   * the square it crosses and the one it lands on are not under attack.
   */
  predicate PassageSafe(g: Grid, kp: Point, step: Point, c: Color)
    requires IsGrid(g)
  {
    AttackCode(g, kp, c) == 0 && AttackCode(g, kp.Plus(step), c) == 0 &&
    AttackCode(g, kp.Plus(step).Plus(step), c) == 0
  }

  /** The king goes two squares towards the rook, the rook to the square the king crossed. */
  ghost predicate CanCastle(s: ChessState, side: Side) {
    Inv(s) &&
    var kp := CastlingKing(s.turn);
    var rp := CastlingRook(s.turn, side);
    At(s.cells, kp).Some? && At(s.cells, kp).value.kind == King &&
    At(s.cells, rp).Some? && At(s.cells, rp).value.kind == Rook
  }

  /** The two move_piece calls of handle_castling: the king two squares towards the rook, the rook to the square the king crossed. */
  function CastlingMoves(s: ChessState, side: Side): (t: ChessState)
    requires IsGrid(s.cells) && At(s.cells, CastlingKing(s.turn)).Some? && At(s.cells, CastlingRook(s.turn, side)).Some?
    ensures IsGrid(t.cells) && t.turn == s.turn && t.enPassant == s.enPassant && t.toPromote == s.toPromote
  {
    var kp := CastlingKing(s.turn);
    var rp := CastlingRook(s.turn, side);
    var newKing := CastledKing(s.turn, side);
    CastlingSquares(s.turn, side);
    MoveCellsAt(s.cells, kp, newKing, rp.x, rp.y);
    MoveOn(MoveOn(s, kp, newKing), rp, CastledRook(s.turn, side))
  }

  lemma CastlingMovesKeepInv(s: ChessState, side: Side)
    requires CanCastle(s, side)
    ensures Inv(CastlingMoves(s, side))
  {
    CastlingSquares(s.turn, side);
    CastlingMovesInv(s, CastlingKing(s.turn), CastledKing(s.turn, side), CastlingRook(s.turn, side), CastledRook(s.turn, side));
  }

  /**
   * The tests of Chess::handle_castling in their order: the code it returns,
   * ACCEPTED when the king and the rook may go.
   */
  function CastlingVerdict(s: ChessState, side: Side): (code: int)
    requires IsGrid(s.cells) && Consistent(s.cells)
    ensures code in {Accepted, NoSuchPiece, InvalidMove, SquareOccupied, InCheck}
    ensures code == Accepted ==>
      At(s.cells, CastlingKing(s.turn)).Some? && At(s.cells, CastlingKing(s.turn)).value.kind == King &&
      At(s.cells, CastlingRook(s.turn, side)).Some? && At(s.cells, CastlingRook(s.turn, side)).value.kind == Rook
  {
    var code := CastlingPieces(s, side);
    if code != Accepted then code
    else
      var kp := CastlingKing(s.turn);
      var rp := CastlingRook(s.turn, side);
      var rook := At(s.cells, rp).value;
      assert rook.pos == rp by {
        assert At(s.cells, rp) == s.cells[rp.x][rp.y];
      }
      CastlingPath(s.cells, rook, kp, CastlingStep(side), At(s.cells, kp).value.color)
  }

  /** A castling whose pieces are missing or have moved changes nothing and returns that test's code. */
  lemma CastlingRefused(s: ChessState, side: Side)
    requires IsGrid(s.cells) && Consistent(s.cells) && CastlingPieces(s, side) != Accepted
    ensures Castling(s, side) == (CastlingPieces(s, side), s)
  {
  }

  /** The verdict of handle_castling is the code of the first tests that fails, else that of the path tests. */
  lemma CastlingVerdictSteps(s: ChessState, side: Side)
    requires IsGrid(s.cells) && Consistent(s.cells)
    ensures CastlingPieces(s, side) != Accepted ==> CastlingVerdict(s, side) == CastlingPieces(s, side)
    ensures CastlingPieces(s, side) == Accepted ==>
      var rook := At(s.cells, CastlingRook(s.turn, side)).value;
      && rook.pos.InRange()
      && CastlingVerdict(s, side) ==
        CastlingPath(s.cells, rook, CastlingKing(s.turn), CastlingStep(side), At(s.cells, CastlingKing(s.turn)).value.color)
  {
    CastlingSquares(s.turn, side);
  }

  /** The first tests of handle_castling: a king and a rook on their home squares, neither of which has moved. */
  function CastlingPieces(s: ChessState, side: Side): (code: int)
    requires IsGrid(s.cells)
    ensures code in {Accepted, NoSuchPiece, InvalidMove}
    ensures code == Accepted <==>
      var king := At(s.cells, CastlingKing(s.turn));
      var rook := At(s.cells, CastlingRook(s.turn, side));
      && king.Some? && king.value.kind == King && !king.value.moved
      && rook.Some? && rook.value.kind == Rook && !rook.value.moved
  {
    CastlingSquares(s.turn, side);
    var king := At(s.cells, CastlingKing(s.turn));
    var rook := At(s.cells, CastlingRook(s.turn, side));
    if king.None? || rook.None? then NoSuchPiece
    else if king.value.kind != King || rook.value.kind != Rook then NoSuchPiece
    else if king.value.moved || rook.value.moved then InvalidMove
    else Accepted
  }

  /** The last two tests of handle_castling: the squares between rook and king are empty, then the king's passage is safe. */
  function CastlingPath(g: Grid, rook: Piece, kp: Point, step: Point, c: Color): (code: int)
    requires IsGrid(g) && rook.pos.InRange() && kp.InRange()
    ensures code in {SquareOccupied, InCheck, Accepted}
  {
    if RookMove(rook, kp, g) == 0 then SquareOccupied
    else if !PassageSafe(g, kp, step, c) then InCheck
    else Accepted
  }

  /** Chess::handle_castling (server/chess.hpp:405-436): the tests, then the two moves; the turn is not switched here. */
  function Castling(s: ChessState, side: Side): (r: (int, ChessState))
    requires IsGrid(s.cells) && Consistent(s.cells)
    ensures r.0 in {Accepted, NoSuchPiece, InvalidMove, SquareOccupied, InCheck}
    ensures r.0 != Accepted ==> r.1 == s
    ensures r.0 == Accepted ==>
      At(s.cells, CastlingKing(s.turn)).Some? && At(s.cells, CastlingKing(s.turn)).value.kind == King &&
      At(s.cells, CastlingRook(s.turn, side)).Some? && At(s.cells, CastlingRook(s.turn, side)).value.kind == Rook &&
      r.1 == CastlingMoves(s, side)
  {
    var code := CastlingVerdict(s, side);
    if code == Accepted then (Accepted, CastlingMoves(s, side)) else (code, s)
  }

  /** Castling keeps the invariant. */
  lemma CastlingInv(s: ChessState, side: Side)
    requires Inv(s)
    ensures Inv(Castling(s, side).1)
  {
    if Castling(s, side).0 == Accepted {
      CastlingMovesKeepInv(s, side);
    }
  }

  /** Castling's two moves keep the invariant: neither the king nor the rook is a flagged pawn. */
  lemma CastlingMovesInv(s: ChessState, kp: Point, newKing: Point, rp: Point, newRook: Point)
    requires Inv(s) && kp.InRange() && newKing.InRange() && rp.InRange() && newRook.InRange()
    requires kp != newKing && rp != newRook && rp != kp && rp != newKing
    requires At(s.cells, kp).Some? && At(s.cells, kp).value.kind == King
    requires At(s.cells, rp).Some? && At(s.cells, rp).value.kind == Rook
    ensures At(MoveOn(s, kp, newKing).cells, rp) == At(s.cells, rp)
    ensures Inv(MoveOn(MoveOn(s, kp, newKing), rp, newRook))
  {
    assert At(s.cells, kp) == s.cells[kp.x][kp.y];
    FlagsStay(s, kp, newKing);
    MoveOnInv(s, kp, newKing);
    var t := MoveOn(s, kp, newKing);
    MoveCellsEffect(s.cells, kp, newKing);
    assert At(t.cells, rp) == t.cells[rp.x][rp.y];
    FlagsStay(t, rp, newRook);
    MoveOnInv(t, rp, newRook);
  }

  /** The piece a promotion letter asks for. */
  function PromotionKind(c: char): Option<Kind> {
    match c
    case 'N' => Some(Knight)
    case 'B' => Some(Bishop)
    case 'R' => Some(Rook)
    case 'Q' => Some(Queen)
    case _ => None
  }

  /** Replacing the pending pawn by an unflagged piece that is not a king keeps the invariant. */
  lemma PromotedInv(s: ChessState, pc: Piece)
    requires Inv(s) && s.toPromote.Some? && !pc.enPassant && pc.kind != King
    ensures Inv(s.(cells := SetCell(s.cells, s.toPromote.value.pos, Some(pc)), toPromote := None))
  {
    var q := s.toPromote.value.pos;
    var u := s.(cells := SetCell(s.cells, q, Some(pc)), toPromote := None);
    forall i, j | 0 <= i < 8 && 0 <= j < 8 && u.cells[i][j].Some?
      ensures u.cells[i][j].value.enPassant ==>
        u.enPassant == Some(Point(i, j)) && u.cells[i][j].value.kind == Pawn && u.cells[i][j].value.color != u.turn
      ensures u.cells[i][j].value.kind == King ==> u.KingAt(u.cells[i][j].value.color) == Point(i, j)
    {
      assert u.cells[i][j] == At(u.cells, Point(i, j));
      assert At(s.cells, Point(i, j)) == s.cells[i][j];
    }
  }

  /** Chess::handle_promotion (server/chess.hpp:504-527); the turn is not switched here. */
  function HandlePromotion(s: ChessState, token: string): (r: (int, ChessState))
    requires Inv(s)
    ensures Inv(r.1)
    ensures r.0 in {Accepted, InvalidMove, InvalidFormat}
    ensures r.0 != Accepted ==> r.1 == s
    ensures r.0 == InvalidMove <==> s.toPromote.None?
    ensures r.0 == InvalidFormat <==> s.toPromote.Some? && PromotionKind(CharAt(token, 1)).None?
    ensures r.0 == Accepted ==>
      var pawn := s.toPromote.value;
      r.1.toPromote == None && r.1.turn == s.turn &&
      r.1.enPassant == s.enPassant && r.1.whiteKing == s.whiteKing && r.1.blackKing == s.blackKing &&
      At(r.1.cells, pawn.pos) == Some(Piece(PromotionKind(CharAt(token, 1)).value, pawn.color, pawn.pos, false, false)) &&
      forall q: Point :: q.InRange() && q != pawn.pos ==> At(r.1.cells, q) == At(s.cells, q)
  {
    if s.toPromote.None? then (InvalidMove, s)
    else match PromotionKind(CharAt(token, 1))
      case None => (InvalidFormat, s)
      case Some(k) =>
        var pawn := s.toPromote.value;
        PromotedInv(s, NewPiece(k, pawn.color));
        (Accepted, s.(cells := SetCell(s.cells, pawn.pos, Some(NewPiece(k, pawn.color))), toPromote := None))
  }

  /** Switch the turn after a castling or promotion that was accepted. */
  function SwitchIfAccepted(r: (int, ChessState)): (t: (int, ChessState))
    requires Inv(r.1)
    ensures Inv(t.1) && t.0 == r.0
    ensures t.1.turn == if r.0 == Accepted then r.1.turn.Opponent() else r.1.turn
  {
    if r.0 == Accepted then (r.0, SwitchTurn(r.1)) else r
  }

  /** Chess::enter_move (server/chess.hpp:339-391). */
  function EnterMove(s: ChessState, token: string): (r: (int, ChessState))
    requires Inv(s)
    ensures Inv(r.1)
    ensures r.0 in {Accepted, Promotion, InvalidFormat, IdleMove, NoSuchPiece, NotInTurn, SquareOccupied, InCheck, InvalidMove}
    // a rejected move changes nothing
    ensures r.0 < 0 ==> r.1 == s
    // the turn passes exactly when the move is accepted
    ensures r.1.turn == if r.0 == Accepted then s.turn.Opponent() else s.turn
  {
    var (p1, ok1) := FromString(token, 0);
    var (p2, ok2) := FromString(token, 2);
    if ok1 && ok2 then CoordMove(s, p1, p2)
    else if token == "O-O" then
      CastlingInv(s, Kingside);
      SwitchIfAccepted(Castling(s, Kingside))
    else if token == "O-O-O" then
      CastlingInv(s, Queenside);
      SwitchIfAccepted(Castling(s, Queenside))
    else if CharAt(token, 0) == '=' then
      SwitchIfAccepted(HandlePromotion(s, token))
    else (InvalidMove, s)
  }
}

/** The starting position of Chess::setup (server/chess.hpp:280-320) and the properties of the rules. */
module RuleFacts {
  import opened Optional
  import opened Coords
  import opened Pieces
  import opened Grids
  import opened Legality
  import opened Attack
  import opened Rules

  /** The back-rank piece of column `j`: rooks, knights, bishops, queen on d, king on e. */
  function BackRank(j: int): Kind {
    if j == 0 || j == 7 then Rook
    else if j == 1 || j == 6 then Knight
    else if j == 2 || j == 5 then Bishop
    else if j == 3 then Queen
    else King
  }

  /** What setup places on square (i, j): Black on rows 0-1, White on rows 6-7. */
  function StartSquare(i: int, j: int): Option<Piece> {
    if i == 0 then Some(Piece(BackRank(j), Black, Point(i, j), false, false))
    else if i == 1 then Some(Piece(Pawn, Black, Point(i, j), false, false))
    else if i == 6 then Some(Piece(Pawn, White, Point(i, j), false, false))
    else if i == 7 then Some(Piece(BackRank(j), White, Point(i, j), false, false))
    else None
  }

  function StartGrid(): (g: Grid)
    ensures IsGrid(g)
  {
    seq(8, i => seq(8, j => StartSquare(i, j)))
  }

  /** White to move, nothing pending, the kings on e1 and e8. */
  function InitialState(): (s: ChessState)
    ensures Inv(s)
  {
    var s := ChessState(StartGrid(), White, None, None, Point(7, 4), Point(0, 4));
    assert forall i, j :: 0 <= i < 8 && 0 <= j < 8 ==> s.cells[i][j] == StartSquare(i, j);
    s
  }

  /** A king of colour `c` stands on `q`. */
  predicate KingOf(g: Grid, q: Point, c: Color)
    requires IsGrid(g) && q.InRange()
  {
    At(g, q).Some? && At(g, q).value.kind == King && At(g, q).value.color == c
  }

  /**
   * The scan of setup(board, turn): m_kings[c] ends on the last king of
   * colour `c` among the squares before (i, j) in row order (rows before `i`,
   * then columns before `j` of row `i`); with none, it keeps `dflt`, its
   * former value. The whole board is ScanKings(g, c, dflt, 8, 0).
   */
  function ScanKings(g: Grid, c: Color, dflt: Point, i: int, j: int): (p: Point)
    requires IsGrid(g) && 0 <= i <= 8 && 0 <= j <= 8
    ensures p == dflt || (p.InRange() && KingOf(g, p, c))
    decreases i, j
  {
    if j == 0 then
      if i == 0 then dflt else ScanKings(g, c, dflt, i - 1, 8)
    else if i < 8 && KingOf(g, Point(i, j - 1), c) then Point(i, j - 1)
    else ScanKings(g, c, dflt, i, j - 1)
  }

  /** A king among the scanned squares is found: the scan ends on a king of that colour. */
  lemma {:induction false} ScanKingsFinds(g: Grid, c: Color, dflt: Point, i: int, j: int, k: Point)
    requires IsGrid(g) && 0 <= i <= 8 && 0 <= j <= 8 && k.InRange() && KingOf(g, k, c)
    requires k.x < i || (k.x == i && k.y < j)
    ensures var p := ScanKings(g, c, dflt, i, j); p.InRange() && KingOf(g, p, c)
    decreases i, j
  {
    if j == 0 {
      ScanKingsFinds(g, c, dflt, i - 1, 8, k);
    } else if !(i < 8 && KingOf(g, Point(i, j - 1), c)) {
      ScanKingsFinds(g, c, dflt, i, j - 1, k);
    }
  }

  /** With exactly one king of colour `c`, the scan of the whole board ends on it. */
  lemma OnlyKingFound(g: Grid, c: Color, dflt: Point, k: Point)
    requires IsGrid(g) && k.InRange() && KingOf(g, k, c)
    requires forall i, j :: 0 <= i < 8 && 0 <= j < 8 && KingOf(g, Point(i, j), c) ==> Point(i, j) == k
    ensures ScanKings(g, c, dflt, 8, 0) == k
  {
    ScanKingsFinds(g, c, dflt, 8, 0, k);
    var p := ScanKings(g, c, dflt, 8, 0);
    assert KingOf(g, Point(p.x, p.y), c);
  }

  /** In the starting position the scan finds the kings on e1 and e8. */
  lemma StartKings(g: Grid, w: Point, b: Point)
    requires IsGrid(g) && forall i, j :: 0 <= i < 8 && 0 <= j < 8 ==> g[i][j] == StartSquare(i, j)
    ensures ScanKings(g, White, w, 8, 0) == Point(7, 4)
    ensures ScanKings(g, Black, b, 8, 0) == Point(0, 4)
  {
    forall i, j | 0 <= i < 8 && 0 <= j < 8
      ensures KingOf(g, Point(i, j), White) ==> Point(i, j) == Point(7, 4)
      ensures KingOf(g, Point(i, j), Black) ==> Point(i, j) == Point(0, 4)
    {
      assert At(g, Point(i, j)) == StartSquare(i, j);
    }
    assert At(g, Point(7, 4)) == StartSquare(7, 4);
    assert At(g, Point(0, 4)) == StartSquare(0, 4);
    OnlyKingFound(g, White, w, Point(7, 4));
    OnlyKingFound(g, Black, b, Point(0, 4));
  }

  /**
   * The checks of the coordinate branch come in the order of the source:
   * once the piece is found and is the mover's, an own piece on the target
   * is reported before check, and check before an illegal move.
   */
  lemma CoordMoveOrder(s: ChessState, p1: Point, p2: Point)
    requires Inv(s) && p1.InRange() && p2.InRange() && p1 != p2
    requires At(s.cells, p1).Some? && At(s.cells, p1).value.color == s.turn
    ensures var pc := At(s.cells, p1).value;
      var own := At(s.cells, p2).Some? && At(s.cells, p2).value.color == s.turn;
      var r := CoordMove(s, p1, p2).0;
      && (r == SquareOccupied <==> own)
      && (r == InCheck <==> !own && CheckSpec(s, p1, p2) != 0)
      && (r == InvalidMove <==> !own && CheckSpec(s, p1, p2) == 0 && ValidMove(pc, p2, s.cells) == 0)
      && (r == Promotion <==> !own && CheckSpec(s, p1, p2) == 0 && ValidMove(pc, p2, s.cells) == 4)
      && (r == Accepted <==> !own && CheckSpec(s, p1, p2) == 0 && 1 <= ValidMove(pc, p2, s.cells) <= 3)
  {
  }

  /** A square's contents with the en-passant flag cleared. */
  function Unflagged(c: Option<Piece>): Option<Piece> {
    if c.Some? then Some(c.value.(enPassant := false)) else None
  }

  /**
   * An accepted coordinate move (or one waiting for its promotion letter)
   * empties `p1`, puts the mover on `p2`, removes the pawn taken en passant,
   * moves the tracked king with it, and leaves every other square as it was
   * but for en-passant flags.
   */
  lemma PerformEffect(s: ChessState, p1: Point, p2: Point)
    requires Movable(s, p1, p2)
    ensures MoveEffect(s, Perform(s, p1, p2), p1, p2)
  {
    var status := ValidMove(At(s.cells, p1).value, p2, s.cells);
    if status == 1 {
      StepEffect(s, p1, p2);
    } else if status == 2 {
      DoublePushEffect(s, p1, p2);
    } else if status == 3 {
      EnPassantEffect(s, p1, p2);
    } else {
      PromotionEffect(s, p1, p2);
    }
  }

  /**
   * `t` is the state after the piece on `p1` went to `p2`: `p1` is empty, the
   * piece stands on `p2` as moved, the king tracker follows a king, an
   * en-passant capture (status 3) empties the victim's square, and every
   * other square holds what it held, flags aside.
   */
  ghost predicate MoveEffect(s: ChessState, t: ChessState, p1: Point, p2: Point)
    requires Movable(s, p1, p2) && IsGrid(t.cells)
  {
    var pc := At(s.cells, p1).value;
    var status := ValidMove(pc, p2, s.cells);
    var victim := Point(p1.x, p2.y);
    && At(t.cells, p1) == None
    && Unflagged(At(t.cells, p2)) == Some(Moved(pc, p2).(enPassant := false))
    && (pc.kind == King ==> t.KingAt(pc.color) == p2)
    && (status == 3 ==> At(t.cells, victim) == None)
    && forall q: Point :: q.InRange() && q != p1 && q != p2 && (status == 3 ==> q != victim) ==>
         Unflagged(At(t.cells, q)) == Unflagged(At(s.cells, q))
  }

  lemma StepEffect(s: ChessState, p1: Point, p2: Point)
    requires Movable(s, p1, p2) && ValidMove(At(s.cells, p1).value, p2, s.cells) == 1
    ensures MoveEffect(s, Perform(s, p1, p2), p1, p2)
  {
    MoverUnflagged(s, p1);
    FlagsStay(s, p1, p2);
    MoveOnInv(s, p1, p2);
    MoveCellsEffect(s.cells, p1, p2);
  }

  lemma DoublePushEffect(s: ChessState, p1: Point, p2: Point)
    requires Movable(s, p1, p2) && ValidMove(At(s.cells, p1).value, p2, s.cells) == 2
    ensures MoveEffect(s, Perform(s, p1, p2), p1, p2)
  {
    DoublePushInv(s, p1, p2);
    MoveCellsEffect(DoublePushed(s, p1, p2).cells, p1, p2);
  }

  lemma EnPassantEffect(s: ChessState, p1: Point, p2: Point)
    requires Movable(s, p1, p2) && ValidMove(At(s.cells, p1).value, p2, s.cells) == 3
    ensures MoveEffect(s, Perform(s, p1, p2), p1, p2)
  {
    EnPassantTracked(s, p1, p2);
    EnPassantInv(s, p1, p2);
    MoveCellsEffect(EnPassantTaken(s, s.enPassant.value).cells, p1, p2);
  }

  lemma PromotionEffect(s: ChessState, p1: Point, p2: Point)
    requires Movable(s, p1, p2) && ValidMove(At(s.cells, p1).value, p2, s.cells) == 4
    ensures MoveEffect(s, Perform(s, p1, p2), p1, p2)
  {
    PromotionMoveInv(s, p1, p2);
    MoveCellsEffect(s.cells, p1, p2);
  }

  /** A double step flags the pawn on its new square; the flag is what the opponent may capture next. */
  lemma DoublePushFlags(s: ChessState, p1: Point, p2: Point)
    requires Movable(s, p1, p2) && ValidMove(At(s.cells, p1).value, p2, s.cells) == 2
    ensures var t := Perform(s, p1, p2);
      && t.enPassant == Some(p2) && t.turn == s.turn.Opponent()
      && At(t.cells, p2).Some? && At(t.cells, p2).value.kind == Pawn && At(t.cells, p2).value.enPassant
  {
    DoublePushInv(s, p1, p2);
    var u := DoublePushed(s, p1, p2);
    MoveCellsEffect(u.cells, p1, p2);
  }

  /** The flag lasts one turn: after any accepted move no pawn of the opponent is flagged. */
  lemma FlagLastsOneTurn(s: ChessState, token: string)
    requires Inv(s) && EnterMove(s, token).0 == Accepted
    ensures var t := EnterMove(s, token).1;
      forall i, j :: 0 <= i < 8 && 0 <= j < 8 && t.cells[i][j].Some? && t.cells[i][j].value.color != s.turn ==>
        !t.cells[i][j].value.enPassant
  {
  }

  /** A pawn waiting for its promotion letter does not hold up coordinate moves. */
  lemma PendingPromotionDoesNotBlock(s: ChessState, pawn: Piece, p1: Point, p2: Point)
    requires Inv(s) && pawn.pos.InRange() && p1.InRange() && p2.InRange()
    ensures CoordMove(s.(toPromote := Some(pawn)), p1, p2).0 == CoordMove(s, p1, p2).0
  {
    var s' := s.(toPromote := Some(pawn));
    assert Inv(s');
    if p1 != p2 && At(s.cells, p1).Some? && At(s.cells, p1).value.color == s.turn {
      assert CheckSpec(s', p1, p2) == CheckSpec(s, p1, p2);
      CoordMoveOrder(s, p1, p2);
      CoordMoveOrder(s', p1, p2);
    }
  }

  /**
   * After 1.e4 d5, White's exd5 is a status-1 capture of the pawn
   * m_en_passant points to, so the source's switchTurn writes into the pawn
   * it has just deleted.
   */
  lemma CaptureOfFlaggedPawn(s: ChessState)
    requires Inv(s) && s.turn == White
    requires At(s.cells, Point(4, 4)) == Some(Piece(Pawn, White, Point(4, 4), true, false))
    requires At(s.cells, Point(3, 3)) == Some(Piece(Pawn, Black, Point(3, 3), true, true))
    ensures s.enPassant == Some(Point(3, 3))
    ensures Movable(s, Point(4, 4), Point(3, 3))
    ensures ValidMove(At(s.cells, Point(4, 4)).value, Point(3, 3), s.cells) == 1
    ensures StepAsWritten(s, Point(4, 4), Point(3, 3)).None?
  {
    var e4, d5 := Point(4, 4), Point(3, 3);
    assert At(s.cells, d5) == s.cells[3][3];
    assert ValidMove(At(s.cells, e4).value, d5, s.cells) == 1;
  }

  /**
   * Capturing the flagged pawn with a status-1 move ends its tracking: nothing
   * is tracked afterwards and the board is the move alone, no piece's flag
   * written.
   */
  lemma CaptureEndsTracking(s: ChessState, p1: Point, p2: Point)
    requires Movable(s, p1, p2) && ValidMove(At(s.cells, p1).value, p2, s.cells) == 1
    requires At(s.cells, p2).Some? && At(s.cells, p2).value.enPassant
    ensures s.enPassant == Some(p2)
    ensures Perform(s, p1, p2).enPassant == None && Perform(s, p1, p2).turn == s.turn.Opponent()
    ensures forall q: Point :: q.InRange() ==> At(Perform(s, p1, p2).cells, q) == At(MoveCells(s.cells, p1, p2), q)
  {
    assert At(s.cells, p2) == s.cells[p2.x][p2.y];
    MoverUnflagged(s, p1);
    FlagsStay(s, p1, p2);
    MoveOnInv(s, p1, p2);
    var m := MoveOn(s, p1, p2);
    assert Perform(s, p1, p2) == SwitchTurn(m);
    MoveCellsEffect(s.cells, p1, p2);
    forall q: Point | q.InRange() && At(m.cells, q).Some?
      ensures !At(m.cells, q).value.enPassant
    {
      if q != p1 && q != p2 {
        assert At(s.cells, q) == s.cells[q.x][q.y];
      }
    }
  }

  /**
   * Castling is accepted exactly when the unmoved king and rook are on their
   * home squares with nothing between them, and the king's square, the one it
   * crosses and the one it lands on are not attacked.
   */
  lemma CastlingPreconditions(s: ChessState, side: Side)
    requires Inv(s)
    ensures var kp := CastlingKing(s.turn);
      var rp := CastlingRook(s.turn, side);
      var step := CastlingStep(side);
      var king := At(s.cells, kp);
      var rook := At(s.cells, rp);
      Castling(s, side).0 == Accepted <==>
      && king.Some? && king.value.kind == King && !king.value.moved
      && rook.Some? && rook.value.kind == Rook && !rook.value.moved
      && NothingBetween(s.cells, rp, kp)
      && PassageSafe(s.cells, kp, step, king.value.color)
  {
    var kp := CastlingKing(s.turn);
    var rp := CastlingRook(s.turn, side);
    assert Castling(s, side).0 == CastlingVerdict(s, side);
    if CastlingPieces(s, side) == Accepted {
      var rook := At(s.cells, rp).value;
      assert rook.pos == rp by {
        assert At(s.cells, rp) == s.cells[rp.x][rp.y];
      }
      assert rp.x == kp.x;
      assert CastlingVerdict(s, side) == CastlingPath(s.cells, rook, kp, CastlingStep(side), At(s.cells, kp).value.color);
    }
  }

  /**
   * Castling puts the king two squares along, the rook on the square the
   * king crossed, and changes nothing else.
   */
  lemma CastlingEffect(s: ChessState, side: Side)
    requires CanCastle(s, side)
    ensures var kp := CastlingKing(s.turn);
      var rp := CastlingRook(s.turn, side);
      var step := CastlingStep(side);
      var newKing := kp.Plus(step).Plus(step);
      var king := At(s.cells, kp).value;
      var rook := At(s.cells, rp).value;
      var t := CastlingMoves(s, side);
      && At(t.cells, newKing) == Some(Moved(king, newKing))
      && At(t.cells, kp.Plus(step)) == Some(Moved(rook, kp.Plus(step)))
      && At(t.cells, kp) == None && At(t.cells, rp) == None
      && t.KingAt(king.color) == newKing
      && forall q: Point :: q.InRange() && q != kp && q != rp && q != newKing && q != kp.Plus(step) ==>
           At(t.cells, q) == At(s.cells, q)
  {
    var kp := CastlingKing(s.turn);
    var rp := CastlingRook(s.turn, side);
    CastlingSquares(s.turn, side);
    TwoMoves(s, kp, CastledKing(s.turn, side), rp, CastledRook(s.turn, side));
  }

  /** The two moves of castling, square by square. */
  lemma TwoMoves(s: ChessState, kp: Point, newKing: Point, rp: Point, newRook: Point)
    requires IsGrid(s.cells) && kp.InRange() && newKing.InRange() && rp.InRange() && newRook.InRange()
    requires kp != newKing && rp != newRook && rp != kp && rp != newKing && newKing != newRook && kp != newRook
    requires At(s.cells, kp).Some? && At(s.cells, kp).value.kind == King
    requires At(s.cells, rp).Some? && At(s.cells, rp).value.kind == Rook
    ensures var king := At(s.cells, kp).value;
      var rook := At(s.cells, rp).value;
      var u := MoveOn(s, kp, newKing);
      At(u.cells, rp) == At(s.cells, rp) &&
      var t := MoveOn(u, rp, newRook);
      && At(t.cells, newKing) == Some(Moved(king, newKing))
      && At(t.cells, newRook) == Some(Moved(rook, newRook))
      && At(t.cells, kp) == None && At(t.cells, rp) == None
      && t.KingAt(king.color) == newKing
      && forall q: Point :: q.InRange() && q != kp && q != rp && q != newKing && q != newRook ==>
           At(t.cells, q) == At(s.cells, q)
  {
    MoveCellsEffect(s.cells, kp, newKing);
    var u := MoveOn(s, kp, newKing);
    MoveCellsEffect(u.cells, rp, newRook);
  }

  /** From the starting position, a move onto its own square is IDLE_MOVE. */
  lemma OpeningIdle()
    ensures EnterMove(InitialState(), "e2e2").0 == IdleMove
  {
  }

  /** From the starting position, a move from an empty square is NO_SUCH_PIECE. */
  lemma OpeningEmptySquare()
    ensures EnterMove(InitialState(), "e4e5").0 == NoSuchPiece
  {
    var s := InitialState();
    assert At(s.cells, Point(4, 4)) == None;
  }

  /** From the starting position, White to move, moving a black pawn is NOT_IN_TURN. */
  lemma OpeningNotInTurn()
    ensures EnterMove(InitialState(), "e7e5").0 == NotInTurn
  {
    var s := InitialState();
    assert At(s.cells, Point(1, 4)) == StartSquare(1, 4);
  }

  /** From the starting position, the king moving onto its own pawn is SQUARE_OCCUPIED. */
  lemma OpeningOwnPiece()
    ensures EnterMove(InitialState(), "e1e2").0 == SquareOccupied
  {
    var s := InitialState();
    assert At(s.cells, Point(7, 4)) == StartSquare(7, 4);
    assert At(s.cells, Point(6, 4)) == StartSquare(6, 4);
  }

  /** A promotion letter with no pawn waiting is INVALID_MOVE. */
  lemma OpeningNoPromotion()
    ensures EnterMove(InitialState(), "=Q").0 == InvalidMove
  {
  }

  /** A token that is not two squares, a castling or a promotion is INVALID_MOVE, not INVALID_FORMAT. */
  lemma OpeningUnreadable()
    ensures EnterMove(InitialState(), "e9e4").0 == InvalidMove
  {
  }

  /** Castling at the start is refused: the knight and bishop stand between king and rook. */
  lemma OpeningCastlingBlocked()
    ensures EnterMove(InitialState(), "O-O").0 == SquareOccupied
    ensures EnterMove(InitialState(), "O-O-O").0 == SquareOccupied
  {
    OpeningKingsRookBlocked();
    OpeningQueensRookBlocked();
    assert "O-O-O" != "O-O";
  }

  /** In the starting position the king's rook is blocked by the knight on g1. */
  lemma OpeningKingsRookBlocked()
    ensures Castling(InitialState(), Kingside).0 == SquareOccupied
  {
    var s := InitialState();
    var e1 := Point(7, 4);
    assert At(s.cells, e1) == StartSquare(7, 4);
    assert At(s.cells, Point(7, 7)) == StartSquare(7, 7);
    assert At(s.cells, Point(7, 6)) == StartSquare(7, 6);
    assert e1.Minus(Point(7, 7)).Sign() == Point(0, -1);
    assert Along(Point(7, 7), Point(0, -1), 1) == Point(7, 6);
    assert !NothingBetween(s.cells, Point(7, 7), e1);
  }

  /** In the starting position the queen's rook is blocked by the knight on b1. */
  lemma OpeningQueensRookBlocked()
    ensures Castling(InitialState(), Queenside).0 == SquareOccupied
  {
    var s := InitialState();
    var e1 := Point(7, 4);
    assert At(s.cells, e1) == StartSquare(7, 4);
    assert At(s.cells, Point(7, 0)) == StartSquare(7, 0);
    assert At(s.cells, Point(7, 1)) == StartSquare(7, 1);
    assert e1.Minus(Point(7, 0)).Sign() == Point(0, 1);
    assert Along(Point(7, 0), Point(0, 1), 1) == Point(7, 1);
    assert !NothingBetween(s.cells, Point(7, 0), e1);
  }
}

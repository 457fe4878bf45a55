/**
 * class Chess of server/chess.hpp:259-539: the board plus the side to move,
 * the pawn that may be taken en passant, the pawn waiting for promotion and
 * the two kings. Each method is proved to change the state as the function
 * of the same name in module Rules says.
 */
module Engine {
  import opened Optional
  import opened Coords
  import opened Pieces
  import opened Grids
  import opened Boards
  import opened Legality
  import opened Attack
  import opened Rules
  import opened RuleFacts

  class Chess {
    const board: Board
    var turn: Color
    var enPassant: Option<Point>
    var toPromote: Option<Piece>
    var whiteKing: Point
    var blackKing: Point

    function State(): ChessState
      reads this, board, board.squares
      requires board.squares.Length0 == 8 && board.squares.Length1 == 8
    {
      ChessState(board.Cells(), turn, enPassant, toPromote, whiteKing, blackKing)
    }

    ghost predicate Valid()
      reads this, board, board.squares
    {
      board.Valid() && Inv(State())
    }

    /**
     * Chess::setup(): a new cleared board, the pieces of both sides in their
     * starting squares, then setup(board) with White to move.
     */
    constructor Setup()
      ensures Valid() && fresh(board) && fresh(board.squares)
      ensures State() == InitialState()
    {
      board := new Board();
      turn := White;
      enPassant := None;
      toPromote := None;
      whiteKing := Point(0, 0);
      blackKing := Point(0, 0);
      new;
      board.Clear();
      PlacePieces();
      ghost var w, b := whiteKing, blackKing;
      Restart(White);
      StartKings(StartGrid(), w, b);
      assert State() == InitialState();
    }

    /** The placing lines of Chess::setup(): both sides on their starting squares of a cleared board. */
    method PlacePieces()
      requires board.Valid() && forall a, b :: 0 <= a < 8 && 0 <= b < 8 ==> board.squares[a, b] == None
      modifies board.squares
      ensures board.Valid() && board.Cells() == StartGrid()
    {
      for j := 0 to 8
        modifies board.squares
        invariant board.Valid()
        invariant forall a, b :: 0 <= a < 8 && 0 <= b < 8 ==>
          board.squares[a, b] == if a == 6 && b < j then StartSquare(a, b) else None
      {
        Place(Pawn, White, 6, j);
      }
      PlaceBackRank(White, 7);
      for j := 0 to 8
        modifies board.squares
        invariant board.Valid()
        invariant forall a, b :: 0 <= a < 8 && 0 <= b < 8 ==>
          board.squares[a, b] == if a == 6 || a == 7 || (a == 1 && b < j) then StartSquare(a, b) else None
      {
        Place(Pawn, Black, 1, j);
      }
      PlaceBackRank(Black, 0);
      GridExt(board.Cells(), StartGrid());
    }

    /** NEW_W_PIECE / NEW_B_PIECE: a new, unmoved piece set on (i, j). */
    method Place(kind: Kind, color: Color, i: int, j: int)
      requires board.Valid() && 0 <= i < 8 && 0 <= j < 8
      modifies board.squares
      ensures board.Valid()
      ensures board.squares[i, j] == Some(Piece(kind, color, Point(i, j), false, false))
      ensures forall a, b :: 0 <= a < 8 && 0 <= b < 8 && (a != i || b != j) ==> board.squares[a, b] == old(board.squares[a, b])
    {
      var _ := board.Set(Point(i, j), Some(NewPiece(kind, color)));
    }

    /** The eight back-rank lines of setup() for one side. */
    method PlaceBackRank(color: Color, i: int)
      requires board.Valid() && 0 <= i < 8
      modifies board.squares
      ensures board.Valid()
      ensures forall b :: 0 <= b < 8 ==> board.squares[i, b] == Some(Piece(BackRank(b), color, Point(i, b), false, false))
      ensures forall a, b :: 0 <= a < 8 && 0 <= b < 8 && a != i ==> board.squares[a, b] == old(board.squares[a, b])
    {
      Place(Rook, color, i, 0);
      Place(Rook, color, i, 7);
      Place(Knight, color, i, 1);
      Place(Knight, color, i, 6);
      Place(Bishop, color, i, 2);
      Place(Bishop, color, i, 5);
      Place(Queen, color, i, 3);
      Place(King, color, i, 4);
    }

    /**
     * Chess::setup(board, turn): `t` to move, nothing pending, and each king
     * tracker on the last king of its colour in row order (unchanged if
     * there is none).
     */
    method Restart(t: Color)
      requires board.Valid()
      modifies this
      ensures board.Cells() == old(board.Cells())
      ensures turn == t && enPassant == None && toPromote == None
      ensures whiteKing == ScanKings(board.Cells(), White, old(whiteKing), 8, 0)
      ensures blackKing == ScanKings(board.Cells(), Black, old(blackKing), 8, 0)
    {
      turn := t;
      enPassant := None;
      toPromote := None;
      whiteKing, blackKing := FindKings(whiteKing, blackKing);
    }

    /** The loop of setup(board, turn) over the squares in row order, starting from the trackers `white0`, `black0`. */
    method FindKings(white0: Point, black0: Point) returns (white: Point, black: Point)
      requires board.Valid()
      ensures white == ScanKings(board.Cells(), White, white0, 8, 0)
      ensures black == ScanKings(board.Cells(), Black, black0, 8, 0)
    {
      ghost var g := board.Cells();
      white, black := white0, black0;
      for i := 0 to 8
        invariant white == ScanKings(g, White, white0, i, 0)
        invariant black == ScanKings(g, Black, black0, i, 0)
      {
        for j := 0 to 8
          invariant white == ScanKings(g, White, white0, i, j)
          invariant black == ScanKings(g, Black, black0, i, j)
        {
          var piece := board.Get(Point(i, j));
          if piece.Some? && piece.value.kind == King {
            if piece.value.color == White {
              white := Point(i, j);
            } else {
              black := Point(i, j);
            }
          }
        }
      }
    }

    /** One ray of under_attack: skip empty squares, stop at the first piece. */
    method Ray(pos: Point, step: Point, color: Color, diagonal: bool) returns (code: int)
      requires board.Valid() && step.IsUnit()
      ensures board.Cells() == old(board.Cells())
      ensures code == RayHit(board.Cells(), pos.Plus(step), step, color, diagonal)
    {
      var g := board.Cells();
      var p := pos.Plus(step);
      while p.InRange()
        invariant RayHit(g, p, step, color, diagonal) == RayHit(g, pos.Plus(step), step, color, diagonal)
        decreases Room(p, step)
      {
        var piece := board.Get(p);
        if piece.None? {
          p := p.Plus(step);
          continue;
        }
        if piece.value.color == color {
          break;
        }
        if Slides(piece.value.kind, diagonal) {
          return piece.value.kind.Code();
        }
        break;
      }
      code := 0;
    }

    /** The loop of under_attack over the ray directions `steps`: the first ray that meets an attacker. */
    method Rays(pos: Point, color: Color, steps: seq<Point>, diagonal: bool) returns (code: int)
      requires board.Valid() && AllUnit(steps)
      ensures board.Cells() == old(board.Cells())
      ensures code == FirstRayHit(board.Cells(), pos, color, steps, diagonal)
    {
      ghost var g := board.Cells();
      for i := 0 to |steps|
        invariant FirstRayHit(g, pos, color, steps, diagonal) == FirstRayHit(g, pos, color, steps[i..], diagonal)
      {
        assert steps[i..][0] == steps[i] && steps[i..][1..] == steps[i + 1..];
        code := Ray(pos, steps[i], color, diagonal);
        if code != 0 {
          return;
        }
      }
      code := 0;
    }

    /** The loop of under_attack over knight jumps or pawn squares: an enemy `kind` on one of them. */
    method Jumps(pos: Point, color: Color, offs: seq<Point>, kind: Kind) returns (code: int)
      requires board.Valid()
      ensures board.Cells() == old(board.Cells())
      ensures code == JumpHit(board.Cells(), pos, color, offs, kind)
    {
      ghost var g := board.Cells();
      for i := 0 to |offs|
        invariant JumpHit(g, pos, color, offs, kind) == JumpHit(g, pos, color, offs[i..], kind)
      {
        assert offs[i..][0] == offs[i] && offs[i..][1..] == offs[i + 1..];
        var p := pos.Plus(offs[i]);
        if !p.InRange() {
          continue;
        }
        var piece := board.Get(p);
        if piece.None? {
          continue;
        }
        if piece.value.color != color && piece.value.kind == kind {
          return kind.Code();
        }
      }
      code := 0;
    }

    /**
     * Chess::under_attack: the bit value of the kind of the first attacker
     * found on the bishop rays, the rook rays, the knight jumps and the pawn
     * squares, in that order; 0 when `pos` is safe for `color`.
     */
    method UnderAttack(pos: Point, color: Color) returns (code: int)
      requires board.Valid()
      ensures board.Cells() == old(board.Cells())
      ensures code == AttackCode(board.Cells(), pos, color)
    {
      StepsUnit();
      code := Rays(pos, color, BishopSteps, true);
      if code != 0 {
        return;
      }
      code := Rays(pos, color, RookSteps, false);
      if code != 0 {
        return;
      }
      code := Jumps(pos, color, KnightJumps, Knight);
      if code != 0 {
        return;
      }
      code := Jumps(pos, color, PawnSteps(color), Pawn);
    }

    /** m_board->move_piece(p1, p2); the m_kings pointers follow a king that moves. */
    method MoveTracked(p1: Point, p2: Point)
      requires board.Valid() && p1.InRange() && p2.InRange() && board.Get(p1).Some?
      modifies this, board.squares
      ensures board.Valid()
      ensures State() == MoveOn(old(State()), p1, p2)
    {
      var piece := board.Get(p1).value;
      var _ := board.MovePiece(p1, p2);
      if piece.kind == King {
        if piece.color == White {
          whiteKing := p2;
        } else {
          blackKing := p2;
        }
      }
    }

    /**
     * Chess::check: set the piece of `p1` on `p2`, ask whether the king of
     * the side to move is attacked, and put both squares back.
     */
    method Check(p1: Point, p2: Point) returns (code: int)
      requires Valid() && p1.InRange() && p2.InRange() && p1 != p2 && board.Get(p1).Some?
      modifies board.squares
      ensures Valid() && State() == old(State())
      ensures code == CheckSpec(State(), p1, p2)
    {
      var piece1 := board.Get(p1).value;
      // m_kings[m_turn] is the moved piece itself when the king moves: its position is then p2.
      var king := if piece1.kind == King && piece1.color == turn then p2
        else if turn == White then whiteKing else blackKing;
      code := TryMove(p1, p2, king, turn);
    }

    /** The board work of Chess::check: the attack on `king` with the piece of `p1` on `p2`, then both squares restored. */
    method TryMove(p1: Point, p2: Point, king: Point, color: Color) returns (code: int)
      requires board.Valid() && p1.InRange() && p2.InRange() && p1 != p2
      modifies board.squares
      ensures board.Valid() && board.Cells() == old(board.Cells())
      ensures code == AttackCode(Simulated(board.Cells(), p1, p2), king, color)
    {
      ghost var g := board.Cells();
      board.CellsConsistent();
      var piece1 := board.Get(p1);
      var piece2 := board.Get(p2);
      var _ := board.Set(p1, None);
      var _ := board.Set(p2, piece1);
      code := UnderAttack(king, color);
      var _ := board.Set(p1, piece1);
      var _ := board.Set(p2, piece2);
      RestoreIsIdentity(g, p1, p2);
    }

    /** Chess::switchTurn: the flagged pawn loses its flag, the other side moves; returns the new side. */
    method SwitchTurn() returns (t: Color)
      requires Valid()
      modifies this, board.squares
      ensures Valid() && State() == Rules.SwitchTurn(old(State()))
      ensures t == turn
    {
      ghost var s := State();
      if enPassant.Some? {
        var pawn := board.Get(enPassant.value);
        if pawn.Some? {
          var _ := board.Set(enPassant.value, Some(pawn.value.(enPassant := false)));
          ClearFlagBySet(s.cells, s.enPassant.value);
        }
        enPassant := None;
      }
      turn := turn.Opponent();
      t := turn;
      assert State() == Rules.SwitchTurn(s);
    }

    /**
     * Chess::enter_move: a coordinate move such as "e2e4", "O-O", "O-O-O" or
     * "=Q"; the turn passes after an accepted castling or promotion.
     */
    method EnterMove(token: string) returns (r: int)
      requires Valid()
      modifies this, board.squares
      ensures Valid() && (r, State()) == Rules.EnterMove(old(State()), token)
    {
      var (p1, ok1) := FromString(token, 0);
      var (p2, ok2) := FromString(token, 2);
      if ok1 && ok2 {
        r := MoveByCoords(p1, p2);
      } else if token == "O-O" {
        r := CastleKeepingValid(Kingside);
        if r == Accepted {
          var _ := SwitchTurn();
        }
      } else if token == "O-O-O" {
        r := CastleKeepingValid(Queenside);
        if r == Accepted {
          var _ := SwitchTurn();
        }
      } else if CharAt(token, 0) == '=' {
        r := HandlePromotion(token);
        if r == Accepted {
          var _ := SwitchTurn();
        }
      } else {
        r := InvalidMove;
      }
    }

    /** handle_castling keeps the engine's invariant. */
    method CastleKeepingValid(side: Side) returns (r: int)
      requires Valid()
      modifies this, board.squares
      ensures Valid() && (r, State()) == Castling(old(State()), side)
    {
      CastlingInv(State(), side);
      r := HandleCastling(side);
    }

    /** The coordinate branch of enter_move: the checks in their order, then the move valid_move's status calls for. */
    method MoveByCoords(p1: Point, p2: Point) returns (r: int)
      requires Valid() && p1.InRange() && p2.InRange()
      modifies this, board.squares
      ensures Valid() && (r, State()) == CoordMove(old(State()), p1, p2)
    {
      if p1 == p2 {
        return IdleMove;
      }
      var piece1 := board.Get(p1);
      if piece1.None? {
        return NoSuchPiece;
      }
      if piece1.value.color != turn {
        return NotInTurn;
      }
      var piece2 := board.Get(p2);
      if piece2.Some? && piece2.value.color == piece1.value.color {
        return SquareOccupied;
      }
      var attacked := Check(p1, p2);
      if attacked != 0 {
        return InCheck;
      }
      var status := ValidMove(piece1.value, p2, board.Cells());
      if status == 0 {
        return InvalidMove;
      }
      PerformMove(p1, p2, status);
      r := if status == 4 then Promotion else Accepted;
    }

    /** The four outcomes of valid_move in enter_move: the state becomes Perform of the old one. */
    method PerformMove(p1: Point, p2: Point, status: int)
      requires board.Valid() && Movable(State(), p1, p2)
      requires status == ValidMove(board.Get(p1).value, p2, board.Cells())
      modifies this, board.squares
      ensures Valid() && State() == Perform(old(State()), p1, p2)
    {
      if status == 1 {
        ghost var s := State();
        MoverUnflagged(s, p1);
        FlagsStay(s, p1, p2);
        MoveOnInv(s, p1, p2);
        StepMove(p1, p2);
      } else if status == 2 {
        DoublePush(p1, p2);
      } else if status == 3 {
        ghost var s := State();
        EnPassantTracked(s, p1, p2);
        EnPassantInv(s, p1, p2);
        TakeEnPassant(p1, p2);
      } else {
        PromotionMove(p1, p2);
      }
    }

    /** Status 1: move_piece, then switchTurn. */
    method StepMove(p1: Point, p2: Point)
      requires board.Valid() && p1.InRange() && p2.InRange() && board.Get(p1).Some?
      requires Inv(MoveOn(State(), p1, p2))
      modifies this, board.squares
      ensures Valid() && State() == Rules.SwitchTurn(MoveOn(old(State()), p1, p2))
    {
      MoveTracked(p1, p2);
      var _ := SwitchTurn();
    }

    /** Status 2: switchTurn, the pawn flagged and remembered as m_en_passant, then move_piece. */
    method DoublePush(p1: Point, p2: Point)
      requires Valid() && p1.InRange() && p2.InRange() && p1 != p2 && board.Get(p1).Some?
      requires board.Get(p1).value.kind == Pawn && board.Get(p1).value.color == turn
      modifies this, board.squares
      ensures Valid() && State() == MoveOn(DoublePushed(old(State()), p1, p2), p1, p2)
    {
      ghost var s := State();
      DoublePushInv(s, p1, p2);
      var pawn := board.Get(p1).value;
      assert Some(pawn) == At(s.cells, p1);
      var _ := SwitchTurn();
      ghost var t := State();
      var _ := board.Set(p1, Some(pawn.(enPassant := true)));
      enPassant := Some(p2);
      assert board.Cells() == SetCell(t.cells, p1, Some(pawn.(enPassant := true)));
      assert State() == DoublePushed(s, p1, p2);
      MoveTracked(p1, p2);
    }

    /** Status 3: the pawn taken en passant removed, m_en_passant cleared, move_piece, then switchTurn. */
    method TakeEnPassant(p1: Point, p2: Point)
      requires board.Valid() && p1.InRange() && p2.InRange() && board.Get(p1).Some?
      requires enPassant.Some? && enPassant.value.InRange() && enPassant.value != p1
      requires Inv(MoveOn(EnPassantTaken(State(), enPassant.value), p1, p2))
      modifies this, board.squares
      ensures Valid() && State() == Rules.SwitchTurn(MoveOn(EnPassantTaken(old(State()), old(enPassant).value), p1, p2))
    {
      var _ := board.SetPiece(None, enPassant.value);
      enPassant := None;
      MoveTracked(p1, p2);
      var _ := SwitchTurn();
    }

    /** Status 4: the pawn remembered as m_to_promote, then move_piece; the turn stays. */
    method PromotionMove(p1: Point, p2: Point)
      requires Valid() && p1.InRange() && p2.InRange() && p1 != p2 && board.Get(p1).Some?
      requires board.Get(p1).value.color == turn
      modifies this, board.squares
      ensures Valid() && State() == MoveOn(old(State()).(toPromote := Some(Moved(old(board.Get(p1)).value, p2))), p1, p2)
    {
      ghost var s := State();
      PromotionMoveInv(s, p1, p2);
      toPromote := Some(Moved(board.Get(p1).value, p2));
      MoveTracked(p1, p2);
    }

    /** Chess::handle_castling: the tests in their order, then the king's and the rook's moves. */
    method HandleCastling(side: Side) returns (r: int)
      requires board.Valid()
      modifies this, board.squares
      ensures board.Valid() && Consistent(old(State()).cells)
      ensures (r, State()) == Castling(old(State()), side)
    {
      var kp, rp, newKing, newRook;
      r, kp, rp, newKing, newRook := CastlingTests(side);
      if r == Accepted {
        CastlingPair(side, kp, newKing, rp, newRook);
      }
    }

    /**
     * The part of handle_castling before the moves: the code of the first
     * test that fails (ACCEPTED if none does) and the four squares involved.
     */
    method CastlingTests(side: Side) returns (code: int, kp: Point, rp: Point, newKing: Point, newRook: Point)
      requires board.Valid()
      ensures State() == old(State())
      ensures Consistent(State().cells) && code == CastlingVerdict(State(), side)
      ensures kp == CastlingKing(turn) && rp == CastlingRook(turn, side)
      ensures newKing == CastledKing(turn, side) && newRook == CastledRook(turn, side)
    {
      board.CellsConsistent();
      var step;
      kp, rp, newKing, newRook, step := CastlingPlan(side);
      var king, rook;
      code, king, rook := PieceTests(side, kp, rp);
      if code != Accepted {
        return;
      }
      ghost var s := State();
      CastlingVerdictSteps(s, side);
      code := PathTest(rook.value, kp, newKing, step, king.value.color);
    }

    /**
     * The first tests of handle_castling: NO_SUCH_PIECE unless a king and a
     * rook stand on their home squares, INVALID_MOVE if either has moved.
     */
    method PieceTests(side: Side, kp: Point, rp: Point) returns (code: int, king: Option<Piece>, rook: Option<Piece>)
      requires board.Valid() && kp == CastlingKing(turn) && rp == CastlingRook(turn, side)
      ensures State() == old(State())
      ensures king == board.Get(kp) && rook == board.Get(rp)
      ensures code == CastlingPieces(State(), side)
    {
      CastlingSquares(turn, side);
      king := board.Get(kp);
      rook := board.Get(rp);
      if king.None? || rook.None? {
        return NoSuchPiece, king, rook;
      }
      if king.value.kind != King || rook.value.kind != Rook {
        return NoSuchPiece, king, rook;
      }
      if king.value.moved || rook.value.moved {
        return InvalidMove, king, rook;
      }
      code := Accepted;
    }

    /** The squares handle_castling works with: the king's and the rook's homes, their targets and the king's step. */
    method CastlingPlan(side: Side) returns (kp: Point, rp: Point, newKing: Point, newRook: Point, step: Point)
      requires board.Valid()
      ensures State() == old(State())
      ensures kp == CastlingKing(turn) && rp == CastlingRook(turn, side)
      ensures newKing == CastledKing(turn, side) && newRook == CastledRook(turn, side)
      ensures step == CastlingStep(side) && (step == Point(0, 1) || step == Point(0, -1))
      ensures kp.InRange() && rp.InRange() && newKing == kp.Plus(step).Plus(step)
    {
      kp, rp := HomeSquares(side);
      CastlingSquares(turn, side);
      if side == Queenside {
        newRook := rp.Plus(Point(0, 3));
        newKing := kp.Plus(Point(0, -2));
        step := Point(0, -1);
      } else {
        newRook := rp.Plus(Point(0, -2));
        newKing := kp.Plus(Point(0, 2));
        step := Point(0, 1);
      }
    }

    /** The rook's path test and the loop over the king's passage in handle_castling. */
    method PathTest(rook: Piece, kp: Point, newKing: Point, step: Point, color: Color) returns (code: int)
      requires board.Valid() && kp.InRange() && rook.pos.InRange() && newKing == kp.Plus(step).Plus(step)
      requires step == Point(0, 1) || step == Point(0, -1)
      ensures State() == old(State())
      ensures code == CastlingPath(board.Cells(), rook, kp, step, color)
    {
      var g := board.Cells();
      if RookMove(rook, kp, g) == 0 {
        return SquareOccupied;
      }
      var attacked := PassageAttacked(kp, newKing, step, color);
      if attacked != 0 {
        return InCheck;
      }
      code := Accepted;
    }

    /** The first lines of handle_castling: Point("e1") and Point("a1") or Point("h1") for White, the rank-8 squares for Black. */
    method HomeSquares(side: Side) returns (kp: Point, rp: Point)
      requires board.Valid()
      ensures State() == old(State())
      ensures kp == CastlingKing(turn) && rp == CastlingRook(turn, side)
    {
      CastlingSquaresNamed();
      if turn == White {
        kp := FromString("e1", 0).0;
        rp := if side == Queenside then FromString("a1", 0).0 else FromString("h1", 0).0;
      } else {
        kp := FromString("e8", 0).0;
        rp := if side == Queenside then FromString("a8", 0).0 else FromString("h8", 0).0;
      }
    }

    /** The two move_piece calls of a castling that passed its checks. */
    method CastlingPair(side: Side, kp: Point, newKing: Point, rp: Point, newRook: Point)
      requires board.Valid() && kp == CastlingKing(turn) && rp == CastlingRook(turn, side)
      requires newKing == CastledKing(turn, side) && newRook == CastledRook(turn, side)
      requires board.Get(kp).Some? && board.Get(rp).Some?
      modifies this, board.squares
      ensures board.Valid() && State() == CastlingMoves(old(State()), side)
    {
      CastlingSquares(turn, side);
      ghost var s0 := State();
      MoveTracked(kp, newKing);
      ghost var s1 := State();
      MoveCellsAt(s0.cells, kp, newKing, rp.x, rp.y);
      MoveTracked(rp, newRook);
      assert State() == MoveOn(s1, rp, newRook);
    }

    /**
     * The loop of handle_castling over the squares from the king's up to the
     * one it lands on, and the test of that last square: nonzero when one of
     * them is attacked.
     */
    method PassageAttacked(kp: Point, newKing: Point, step: Point, color: Color) returns (attacked: int)
      requires board.Valid() && kp.InRange() && newKing == kp.Plus(step).Plus(step)
      requires step == Point(0, 1) || step == Point(0, -1)
      ensures attacked == 0 <==> PassageSafe(board.Cells(), kp, step, color)
    {
      ghost var g := board.Cells();
      var pos := kp;
      while pos != newKing
        invariant board.Cells() == g
        invariant pos == kp || pos == kp.Plus(step) || pos == newKing
        invariant pos != kp ==> AttackCode(g, kp, color) == 0
        invariant pos == newKing ==> AttackCode(g, kp.Plus(step), color) == 0
        decreases if pos == kp then 2 else if pos == kp.Plus(step) then 1 else 0
      {
        attacked := UnderAttack(pos, color);
        if attacked != 0 {
          return;
        }
        pos := pos.Plus(step);
      }
      attacked := UnderAttack(newKing, color);
    }

    /** Chess::handle_promotion: the pending pawn replaced by the piece the letter after '=' names. */
    method HandlePromotion(token: string) returns (r: int)
      requires Valid()
      modifies this, board.squares
      ensures Valid() && (r, State()) == Rules.HandlePromotion(old(State()), token)
    {
      if toPromote.None? {
        return InvalidMove;
      }
      var kind;
      match CharAt(token, 1) {
        case 'N' => kind := Knight;
        case 'B' => kind := Bishop;
        case 'R' => kind := Rook;
        case 'Q' => kind := Queen;
        case _ => return InvalidFormat;
      }
      assert PromotionKind(CharAt(token, 1)) == Some(kind);
      Promote(kind);
      r := Accepted;
    }

    /** The body of handle_promotion once the letter is known: the new piece on the pawn's square, nothing pending. */
    method Promote(kind: Kind)
      requires board.Valid() && toPromote.Some? && toPromote.value.pos.InRange()
      modifies this, board.squares
      ensures board.Valid()
      ensures State() == old(State()).(cells := SetCell(old(State()).cells, old(toPromote).value.pos,
        Some(NewPiece(kind, old(toPromote).value.color))), toPromote := None)
    {
      var pawn := toPromote.value;
      var _ := board.SetPiece(Some(NewPiece(kind, pawn.color)), pawn.pos);
      toPromote := None;
    }
  }
}

/**
 * Pieces (class Piece and its six subclasses in server/chess.hpp), as value
 * records. A piece records its own square, as `m_pos` does in the source.
 */
module Pieces {
  import opened Coords

  /** Piece::BLACK = 0, Piece::WHITE = 1. */
  datatype Color = Black | White {
    function Code(): int {
      if this == Black then 0 else 1
    }

    function Opponent(): (c: Color)
      ensures c != this
    {
      if this == Black then White else Black
    }
  }

  datatype Kind = Pawn | Knight | Bishop | Rook | Queen | King {
    /** The bit values PAWN = 1 ... KING = 32, returned by under_attack. */
    function Code(): int {
      match this
      case Pawn => 1
      case Knight => 2
      case Bishop => 4
      case Rook => 8
      case Queen => 16
      case King => 32
    }
  }

  /**
   * `moved` is m_moved of Pawn, Rook and King (always false for the other
   * kinds); `enPassant` is Pawn::m_en_passant (always false for the others).
   */
  datatype Piece = Piece(kind: Kind, color: Color, pos: Point, moved: bool, enPassant: bool)

  /** `new Pawn(color)` and its siblings: not moved, no en-passant flag. */
  function NewPiece(kind: Kind, color: Color): (pc: Piece)
    ensures pc.kind == kind && pc.color == color && !pc.moved && !pc.enPassant
  {
    Piece(kind, color, Point(0, 0), false, false)
  }

  /**
   * Piece::move and its overrides: the position becomes `to`; Pawn, Rook and
   * King also record that they have moved.
   */
  function Moved(pc: Piece, to: Point): (r: Piece)
    ensures r.kind == pc.kind && r.color == pc.color && r.pos == to
    ensures r.enPassant == pc.enPassant
    ensures r.moved == (pc.moved || pc.kind in {Pawn, Rook, King})
  {
    if pc.kind in {Pawn, Rook, King} then pc.(pos := to, moved := true) else pc.(pos := to)
  }
}

/**
 * The `valid_move` overrides of Pawn, Knight, Bishop, Rook, Queen and King
 * (server/chess.hpp). Each reads the board and answers for the piece standing
 * on its recorded square: 0 rejects the move, 1 accepts it, and a pawn also
 * answers 2 (double step), 3 (en-passant capture) or 4 (reaches the last rank).
 */
module Legality {
  import opened Optional
  import opened Coords
  import opened Pieces
  import opened Grids

  /** The larger of the two coordinate distances. */
  function Dist(d: Point): nat {
    if d.XAbs() < d.YAbs() then d.YAbs() else d.XAbs()
  }

  predicate Aligned(d: Point) {
    d.x == 0 || d.y == 0 || d.XAbs() == d.YAbs()
  }

  predicate SmallStep(step: Point) {
    -1 <= step.x <= 1 && -1 <= step.y <= 1
  }

  /**
   * The stepping loop `for (pos = start; ...; pos += step) if (board->get(pos)
   * != NULL) return 0;` over `n` squares: true when all of them are empty.
   */
  function PathClear(g: Grid, p: Point, step: Point, n: nat): bool
    requires IsGrid(g) && SmallStep(step)
    requires n == 0 || (p.InRange() && Along(p, step, n - 1).InRange())
    decreases n
  {
    n == 0 || (At(g, p) == None && PathClear(g, p.Plus(step), step, n - 1))
  }

  /** Every square of a scan lies on the board. */
  lemma AlongInRange(p: Point, step: Point, n: nat, k: nat)
    requires SmallStep(step) && p.InRange() && Along(p, step, n).InRange() && k <= n
    ensures Along(p, step, k).InRange()
  {
  }

  /** The `n` squares from `p` in direction `step` are on the board and empty. */
  ghost predicate AllEmpty(g: Grid, p: Point, step: Point, n: nat)
    requires IsGrid(g)
  {
    forall k :: 0 <= k < n ==> Along(p, step, k).InRange() && At(g, Along(p, step, k)) == None
  }

  lemma AlongShift(p: Point, step: Point, k: int)
    requires SmallStep(step)
    ensures Along(p.Plus(step), step, k) == Along(p, step, k + 1)
  {
  }

  /** A scan of `n` squares is its first square followed by the scan of `n - 1` squares one step on. */
  lemma AllEmptyUnfold(g: Grid, p: Point, step: Point, n: nat)
    requires IsGrid(g) && SmallStep(step) && n > 0
    ensures AllEmpty(g, p, step, n) <==>
      p.InRange() && At(g, p) == None && AllEmpty(g, p.Plus(step), step, n - 1)
  {
    var q := p.Plus(step);
    assert Along(p, step, 0) == p;
    if AllEmpty(g, p, step, n) {
      forall k | 0 <= k < n - 1 ensures Along(q, step, k).InRange() && At(g, Along(q, step, k)) == None {
        AlongShift(p, step, k);
      }
    }
    if p.InRange() && At(g, p) == None && AllEmpty(g, q, step, n - 1) {
      forall k | 0 <= k < n ensures Along(p, step, k).InRange() && At(g, Along(p, step, k)) == None {
        if k > 0 {
          AlongShift(p, step, k - 1);
        }
      }
    }
  }

  /** The scan succeeds exactly when each of its `n` squares is empty. */
  lemma {:induction false} PathClearAll(g: Grid, p: Point, step: Point, n: nat)
    requires IsGrid(g) && SmallStep(step)
    requires n == 0 || (p.InRange() && Along(p, step, n - 1).InRange())
    ensures PathClear(g, p, step, n) <==> AllEmpty(g, p, step, n)
    decreases n
  {
    if n > 0 {
      if n > 1 {
        AlongInRange(p, step, n - 1, 1);
        AlongShift(p, step, n - 2);
      }
      PathClearAll(g, p.Plus(step), step, n - 1);
      AllEmptyUnfold(g, p, step, n);
    }
  }

  /** The squares strictly between `from` and `to` on a line are empty. */
  ghost predicate NothingBetween(g: Grid, from: Point, to: Point)
    requires IsGrid(g)
  {
    var d := to.Minus(from);
    forall k :: 1 <= k < Dist(d) ==> Along(from, d.Sign(), k).InRange() && At(g, Along(from, d.Sign(), k)) == None
  }

  /** The scan of a slide covers exactly the squares strictly between its ends. */
  lemma SlideScan(g: Grid, from: Point, to: Point)
    requires IsGrid(g) && from.InRange() && to.InRange() && Aligned(to.Minus(from)) && Dist(to.Minus(from)) > 0
    ensures var d := to.Minus(from);
      var n := Dist(d);
      && (n - 1 == 0 || (from.Plus(d.Sign()).InRange() && Along(from.Plus(d.Sign()), d.Sign(), n - 2).InRange()))
      && (PathClear(g, from.Plus(d.Sign()), d.Sign(), n - 1) <==> NothingBetween(g, from, to))
  {
    var d := to.Minus(from);
    var step := d.Sign();
    var n := Dist(d);
    assert Along(from, step, n) == to;
    if n > 1 {
      AlongInRange(from, step, n, 1);
      AlongInRange(from, step, n, n - 1);
      assert Along(from.Plus(step), step, n - 2) == Along(from, step, n - 1);
    }
    PathClearAll(g, from.Plus(step), step, n - 1);
    EmptyBetween(g, from, to);
  }

  /** The squares strictly between two aligned squares are the scan from the square after the first. */
  lemma EmptyBetween(g: Grid, from: Point, to: Point)
    requires IsGrid(g) && Dist(to.Minus(from)) > 0
    ensures var step := to.Minus(from).Sign();
      AllEmpty(g, from.Plus(step), step, Dist(to.Minus(from)) - 1) <==> NothingBetween(g, from, to)
  {
    var step := to.Minus(from).Sign();
    var n := Dist(to.Minus(from));
    forall k | 0 <= k < n - 1 ensures Along(from.Plus(step), step, k) == Along(from, step, k + 1) {
      AlongShift(from, step, k);
    }
    forall k | 1 <= k < n ensures Along(from, step, k) == Along(from.Plus(step), step, k - 1) {
      AlongShift(from, step, k - 1);
    }
  }

  /** The shared sliding scan of Bishop, Rook and Queen from `from` towards `to`. */
  function Slide(g: Grid, from: Point, to: Point): (r: bool)
    requires IsGrid(g) && from.InRange() && to.InRange() && Aligned(to.Minus(from))
    ensures r <==> NothingBetween(g, from, to)
  {
    var d := to.Minus(from);
    if Dist(d) == 0 then true
    else
      SlideScan(g, from, to);
      PathClear(g, from.Plus(d.Sign()), d.Sign(), Dist(d) - 1)
  }

  /**
   * Pawn::valid_move as written: `None` is the null dereference of
   * chess.hpp:169, reached when a diagonal step onto an empty square of the
   * en-passant rank has an empty square behind it.
   */
  function PawnStatusAsWritten(pc: Piece, point: Point, g: Grid): (r: Option<int>)
    requires IsGrid(g) && pc.pos.InRange() && point.InRange()
    ensures r.Some? ==> 0 <= r.value <= 4
  {
    var d := point.Minus(pc.pos);
    var sign := if pc.color == White then -1 else 1;
    var status := if (pc.color == White && point.x == 0) || (pc.color == Black && point.x == 7) then 4 else 1;
    if d.y == 0 then
      if d.x == sign then
        Some(if At(g, point) == None then status else 0)
      else if d.x == sign * 2 && !pc.moved then
        Some(if At(g, point) == None && At(g, pc.pos.Plus(d.Sign())) == None then 2 else 0)
      else Some(0)
    else if (d.y == 1 || d.y == -1) && d.x == sign then
      if At(g, point) != None then Some(status)
      else if (pc.color == White && point.x == 2) || (pc.color == Black && point.x == 5) then
        var behind := At(g, point.Plus(Point(-sign, 0)));
        if behind.None? then None
        else Some(if behind.value.kind == Pawn && behind.value.enPassant then 3 else 0)
      else Some(0)
    else Some(0)
  }

  /** The last rank of a pawn of colour `c`: row 0 for White, row 7 for Black. */
  predicate LastRank(c: Color, row: int) {
    if c == White then row == 0 else row == 7
  }

  function Forward(c: Color): int {
    if c == White then -1 else 1
  }

  /**
   * Pawn::valid_move with the missing null check added: an empty square
   * behind the target means no en-passant capture (0).
   */
  function PawnStatus(pc: Piece, point: Point, g: Grid): (r: int)
    requires IsGrid(g) && pc.pos.InRange() && point.InRange()
    ensures 0 <= r <= 4
    // 2: the unmoved pawn's double step over an empty square onto an empty square
    ensures r == 2 <==>
      !pc.moved && point.y == pc.pos.y && point.x == pc.pos.x + 2 * Forward(pc.color) &&
      At(g, point) == None && At(g, Point(pc.pos.x + Forward(pc.color), pc.pos.y)) == None
    // 4 and 1: a single step onto an empty square or a diagonal capture, by landing rank
    ensures r == 4 <==> (LastRank(pc.color, point.x) && point.x == pc.pos.x + Forward(pc.color) &&
      ((point.y == pc.pos.y && At(g, point) == None) ||
       ((point.y == pc.pos.y + 1 || point.y == pc.pos.y - 1) && At(g, point) != None)))
    ensures r == 1 <==> (!LastRank(pc.color, point.x) && point.x == pc.pos.x + Forward(pc.color) &&
      ((point.y == pc.pos.y && At(g, point) == None) ||
       ((point.y == pc.pos.y + 1 || point.y == pc.pos.y - 1) && At(g, point) != None)))
    // 3: a diagonal step onto an empty square with a flagged pawn behind it
    ensures r == 3 <==>
      point.x == pc.pos.x + Forward(pc.color) && (point.y == pc.pos.y + 1 || point.y == pc.pos.y - 1) &&
      At(g, point) == None && point.x == (if pc.color == White then 2 else 5) &&
      At(g, Point(pc.pos.x, point.y)).Some? &&
      At(g, Point(pc.pos.x, point.y)).value.kind == Pawn && At(g, Point(pc.pos.x, point.y)).value.enPassant
  {
    match PawnStatusAsWritten(pc, point, g)
    case Some(s) => s
    case None => 0
  }

  /** Knight::valid_move: three squares away in an L, blockers ignored. */
  function KnightMove(pc: Piece, point: Point): (r: int)
    ensures r == 0 || r == 1
    ensures r == 1 <==> (var d := point.Minus(pc.pos); d.x != 0 && d.y != 0 && d.XAbs() + d.YAbs() == 3)
  {
    var d := point.Minus(pc.pos).Abs();
    if (d.x == 2 && d.y == 1) || (d.x == 1 && d.y == 2) then 1 else 0
  }

  /** Bishop::valid_move: a diagonal with nothing in between. */
  function BishopMove(pc: Piece, point: Point, g: Grid): (r: int)
    requires IsGrid(g) && pc.pos.InRange() && point.InRange()
    ensures r == 0 || r == 1
    ensures r == 1 <==> point.Minus(pc.pos).XAbs() == point.Minus(pc.pos).YAbs() && NothingBetween(g, pc.pos, point)
  {
    var d := point.Minus(pc.pos);
    if d.XAbs() != d.YAbs() then 0
    else if Slide(g, pc.pos, point) then 1 else 0
  }

  /** Rook::valid_move: a rank or a file with nothing in between. */
  function RookMove(pc: Piece, point: Point, g: Grid): (r: int)
    requires IsGrid(g) && pc.pos.InRange() && point.InRange()
    ensures r == 0 || r == 1
    ensures r == 1 <==> (point.x == pc.pos.x || point.y == pc.pos.y) && NothingBetween(g, pc.pos, point)
  {
    var d := point.Minus(pc.pos);
    if d.x != 0 && d.y != 0 then 0
    else if Slide(g, pc.pos, point) then 1 else 0
  }

  /** Queen::valid_move: exactly the union of the bishop's and the rook's moves. */
  function QueenMove(pc: Piece, point: Point, g: Grid): (r: int)
    requires IsGrid(g) && pc.pos.InRange() && point.InRange()
    ensures r == 0 || r == 1
    ensures r == 1 <==> BishopMove(pc, point, g) == 1 || RookMove(pc, point, g) == 1
  {
    var d := point.Minus(pc.pos);
    if d.x == 0 || d.y == 0 || d.XAbs() == d.YAbs() then
      if Slide(g, pc.pos, point) then 1 else 0
    else 0
  }

  /** King::valid_move: at most one square in each direction; castling is separate. */
  function KingMove(pc: Piece, point: Point): (r: int)
    ensures r == 0 || r == 1
    ensures r == 1 <==> Dist(point.Minus(pc.pos)) <= 1
  {
    var d := point.Minus(pc.pos).Abs();
    if d.x <= 1 && d.y <= 1 then 1 else 0
  }

  /** The virtual call piece->valid_move(point, board). */
  function ValidMove(pc: Piece, point: Point, g: Grid): (r: int)
    requires IsGrid(g) && pc.pos.InRange() && point.InRange()
    ensures 0 <= r <= 4
    ensures r >= 2 ==> pc.kind == Pawn
  {
    match pc.kind
    case Pawn => PawnStatus(pc, point, g)
    case Knight => KnightMove(pc, point)
    case Bishop => BishopMove(pc, point, g)
    case Rook => RookMove(pc, point, g)
    case Queen => QueenMove(pc, point, g)
    case King => KingMove(pc, point)
  }

  /** The corrected predicate differs from the original only where the original crashes. */
  lemma PawnStatusAgrees(pc: Piece, point: Point, g: Grid)
    requires IsGrid(g) && pc.pos.InRange() && point.InRange()
    ensures PawnStatusAsWritten(pc, point, g).Some? ==> PawnStatus(pc, point, g) == PawnStatusAsWritten(pc, point, g).value
    ensures PawnStatusAsWritten(pc, point, g).None? <==>
      point.x == pc.pos.x + Forward(pc.color) && (point.y == pc.pos.y + 1 || point.y == pc.pos.y - 1) &&
      At(g, point) == None && point.x == (if pc.color == White then 2 else 5) &&
      At(g, Point(pc.pos.x, point.y)) == None
  {
  }

  /**
   * The crash is reachable: a white pawn on e5 stepping to f6 on an otherwise
   * empty board dereferences the empty square f5.
   */
  lemma PawnNullDereference()
    ensures var pawn := Piece(Pawn, White, Point(3, 4), true, false);
            PawnStatusAsWritten(pawn, Point(2, 5), Put(EmptyGrid(), Point(3, 4), Some(pawn))).None?
  {
  }
}

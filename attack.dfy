/**
 * The specification of Chess::under_attack (server/chess.hpp:438-502): rays
 * for bishops and queens, then for rooks and queens, then knight jumps, then
 * pawn attacks. The answer is the bit value of the first attacker's kind, or 0.
 */
module Attack {
  import opened Optional
  import opened Coords
  import opened Pieces
  import opened Grids
  import opened Legality

  /** bishop_moves as written: (1, -1) twice, and no (-1, 1). */
  const BishopSteps: seq<Point> := [Point(1, 1), Point(1, -1), Point(1, -1), Point(-1, -1)]
  const RookSteps: seq<Point> := [Point(0, 1), Point(0, -1), Point(1, 0), Point(-1, 0)]
  const KnightJumps: seq<Point> :=
    [Point(1, 2), Point(1, -2), Point(-1, 2), Point(-1, -2), Point(2, 1), Point(2, -1), Point(-2, 1), Point(-2, -1)]

  /** The ray directions are unit steps. */
  lemma StepsUnit()
    ensures AllUnit(BishopSteps) && AllUnit(RookSteps)
  {
    var b := BishopSteps;
    assert b[0].IsUnit() && b[1].IsUnit() && b[2].IsUnit() && b[3].IsUnit();
    var r := RookSteps;
    assert r[0].IsUnit() && r[1].IsUnit() && r[2].IsUnit() && r[3].IsUnit();
  }

  /** The squares from which an enemy pawn attacks a piece of colour `c`. */
  function PawnSteps(c: Color): seq<Point> {
    if c == White then [Point(-1, 1), Point(-1, -1)] else [Point(1, 1), Point(1, -1)]
  }

  predicate AllUnit(steps: seq<Point>) {
    forall i :: 0 <= i < |steps| ==> steps[i].IsUnit()
  }

  /** Squares left on the board from `p` in direction `step`, `p` included. */
  function Room(p: Point, step: Point): int {
    if step.x == 1 then 8 - p.x
    else if step.x == -1 then p.x + 1
    else if step.y == 1 then 8 - p.y
    else p.y + 1
  }

  /** Kinds that attack along a diagonal (BISHOP | QUEEN) or a line (ROOK | QUEEN). */
  predicate Slides(k: Kind, diagonal: bool) {
    if diagonal then k == Bishop || k == Queen else k == Rook || k == Queen
  }

  /**
   * One ray of under_attack from `p` on: empty squares are skipped, a piece of
   * colour `color` or an enemy that does not slide this way stops the ray.
   */
  function RayHit(g: Grid, p: Point, step: Point, color: Color, diagonal: bool): int
    requires IsGrid(g) && step.IsUnit()
    decreases Room(p, step)
  {
    if !p.InRange() then 0
    else match At(g, p)
      case None => RayHit(g, p.Plus(step), step, color, diagonal)
      case Some(pc) => if pc.color != color && Slides(pc.kind, diagonal) then pc.kind.Code() else 0
  }

  /** The first direction of `steps` whose ray meets an attacker. */
  function FirstRayHit(g: Grid, pos: Point, color: Color, steps: seq<Point>, diagonal: bool): int
    requires IsGrid(g) && AllUnit(steps)
  {
    if steps == [] then 0
    else
      var h := RayHit(g, pos.Plus(steps[0]), steps[0], color, diagonal);
      if h != 0 then h else FirstRayHit(g, pos, color, steps[1..], diagonal)
  }

  /** The first of the squares `pos + offs[i]` on the board holding an enemy `kind`. */
  function JumpHit(g: Grid, pos: Point, color: Color, offs: seq<Point>, kind: Kind): (r: int)
    requires IsGrid(g)
    ensures r == 0 || r == kind.Code()
  {
    if offs == [] then 0
    else if EnemyAt(g, pos.Plus(offs[0]), color, kind) then kind.Code()
    else JumpHit(g, pos, color, offs[1..], kind)
  }

  /** The jump loop reports an attacker exactly when one of its squares holds an enemy of that kind. */
  lemma {:induction false} JumpHitFinds(g: Grid, pos: Point, color: Color, offs: seq<Point>, kind: Kind)
    requires IsGrid(g)
    ensures JumpHit(g, pos, color, offs, kind) != 0 <==> exists i :: 0 <= i < |offs| && EnemyAt(g, pos.Plus(offs[i]), color, kind)
    decreases |offs|
  {
    if offs != [] {
      JumpHitFinds(g, pos, color, offs[1..], kind);
      assert forall i :: 1 <= i < |offs| ==> offs[i] == offs[1..][i - 1];
      if !EnemyAt(g, pos.Plus(offs[0]), color, kind) && JumpHit(g, pos, color, offs, kind) != 0 {
        var i :| 0 <= i < |offs[1..]| && EnemyAt(g, pos.Plus(offs[1..][i]), color, kind);
        assert EnemyAt(g, pos.Plus(offs[i + 1]), color, kind);
      }
    }
  }

  predicate EnemyAt(g: Grid, q: Point, color: Color, kind: Kind)
    requires IsGrid(g)
  {
    q.InRange() && At(g, q).Some? && At(g, q).value.color != color && At(g, q).value.kind == kind
  }

  /** Chess::under_attack(pos, color). */
  function AttackCode(g: Grid, pos: Point, color: Color): int
    requires IsGrid(g)
  {
    var b := FirstRayHit(g, pos, color, BishopSteps, true);
    if b != 0 then b
    else
      var r := FirstRayHit(g, pos, color, RookSteps, false);
      if r != 0 then r
      else
        var n := JumpHit(g, pos, color, KnightJumps, Knight);
        if n != 0 then n else JumpHit(g, pos, color, PawnSteps(color), Pawn)
  }

  /** The ray from `p` meets, after `k` empty squares, an enemy that slides this way. */
  ghost predicate HitAt(g: Grid, p: Point, step: Point, k: nat, color: Color, diagonal: bool)
    requires IsGrid(g)
  {
    AllEmpty(g, p, step, k) && Along(p, step, k).InRange() && At(g, Along(p, step, k)).Some? &&
    At(g, Along(p, step, k)).value.color != color && Slides(At(g, Along(p, step, k)).value.kind, diagonal)
  }

  /** An empty square in front of a hit moves the hit one square further. */
  lemma HitShift(g: Grid, p: Point, step: Point, k: nat, color: Color, diagonal: bool)
    requires IsGrid(g) && step.IsUnit() && p.InRange() && At(g, p).None?
    requires HitAt(g, p.Plus(step), step, k, color, diagonal)
    ensures HitAt(g, p, step, k + 1, color, diagonal)
    ensures Along(p, step, k + 1) == Along(p.Plus(step), step, k)
  {
    AlongShift(p, step, k);
    assert Along(p, step, 0) == p;
    forall j | 0 <= j < k + 1 ensures Along(p, step, j).InRange() && At(g, Along(p, step, j)) == None {
      if j > 0 {
        AlongShift(p, step, j - 1);
      }
    }
  }

  /** A ray reports an attacker only if one stands at the end of empty squares. */
  lemma {:induction false} RayHitSound(g: Grid, p: Point, step: Point, color: Color, diagonal: bool)
    requires IsGrid(g) && step.IsUnit()
    ensures RayHit(g, p, step, color, diagonal) != 0 ==>
      exists k: nat :: HitAt(g, p, step, k, color, diagonal) &&
        RayHit(g, p, step, color, diagonal) == At(g, Along(p, step, k)).value.kind.Code()
    decreases Room(p, step)
  {
    var r := RayHit(g, p, step, color, diagonal);
    if p.InRange() && r != 0 {
      if At(g, p).None? {
        var q := p.Plus(step);
        assert r == RayHit(g, q, step, color, diagonal);
        RayHitSound(g, q, step, color, diagonal);
        var k: nat :| HitAt(g, q, step, k, color, diagonal) && r == At(g, Along(q, step, k)).value.kind.Code();
        HitShift(g, p, step, k, color, diagonal);
        assert HitAt(g, p, step, k + 1, color, diagonal) && r == At(g, Along(p, step, k + 1)).value.kind.Code();
      } else {
        assert Along(p, step, 0) == p;
        assert HitAt(g, p, step, 0, color, diagonal) && r == At(g, Along(p, step, 0)).value.kind.Code();
      }
    }
  }

  /** A ray reports the first attacker behind empty squares. */
  lemma {:induction false} RayHitComplete(g: Grid, p: Point, step: Point, k: nat, color: Color, diagonal: bool)
    requires IsGrid(g) && step.IsUnit() && HitAt(g, p, step, k, color, diagonal)
    ensures RayHit(g, p, step, color, diagonal) == At(g, Along(p, step, k)).value.kind.Code()
    decreases k
  {
    assert Along(p, step, 0) == p;
    if k > 0 {
      var q := p.Plus(step);
      AlongShift(p, step, k - 1);
      forall j | 0 <= j < k - 1 ensures Along(q, step, j).InRange() && At(g, Along(q, step, j)) == None {
        AlongShift(p, step, j);
      }
      assert p.InRange() && At(g, p).None?;
      RayHitComplete(g, q, step, k - 1, color, diagonal);
    }
  }

  /** A ray whose squares up to the edge are all empty reports nothing. */
  lemma {:induction false} RayHitEmpty(g: Grid, p: Point, step: Point, color: Color, diagonal: bool)
    requires IsGrid(g) && step.IsUnit()
    requires forall k: nat :: Along(p, step, k).InRange() ==> At(g, Along(p, step, k)) == None
    ensures RayHit(g, p, step, color, diagonal) == 0
    decreases Room(p, step)
  {
    assert Along(p, step, 0) == p;
    if p.InRange() {
      forall k: nat | Along(p.Plus(step), step, k).InRange() ensures At(g, Along(p.Plus(step), step, k)) == None {
        AlongShift(p, step, k);
      }
      RayHitEmpty(g, p.Plus(step), step, color, diagonal);
    }
  }

  /** The scan of the directions reports nothing exactly when no direction meets an attacker. */
  lemma {:induction false} FirstRayHitNone(g: Grid, pos: Point, color: Color, steps: seq<Point>, diagonal: bool)
    requires IsGrid(g) && AllUnit(steps)
    ensures FirstRayHit(g, pos, color, steps, diagonal) == 0 <==>
      forall i :: 0 <= i < |steps| ==> RayHit(g, pos.Plus(steps[i]), steps[i], color, diagonal) == 0
    decreases |steps|
  {
    if steps != [] {
      assert forall i :: 0 <= i < |steps| - 1 ==> steps[1..][i] == steps[i + 1];
      FirstRayHitNone(g, pos, color, steps[1..], diagonal);
    }
  }
}

module AttackQuirks {
  import opened Optional
  import opened Coords
  import opened Pieces
  import opened Grids
  import opened Legality
  import opened Attack

  /** The board of the example: a white king on a1 and a black bishop on b2. */
  ghost predicate CornerBoard(g: Grid)
  {
    IsGrid(g) &&
    forall i, j :: 0 <= i < 8 && 0 <= j < 8 ==> (g[i][j] ==
      if i == 7 && j == 0 then Some(Piece(King, White, Point(7, 0), false, false))
      else if i == 6 && j == 1 then Some(Piece(Bishop, Black, Point(6, 1), true, false))
      else None)
  }

  lemma CornerDiagonalsMiss(g: Grid)
    requires IsGrid(g)
    ensures FirstRayHit(g, Point(7, 0), White, BishopSteps, true) == 0
  {
    var a := Point(7, 0);
    var steps := BishopSteps;
    assert steps[0] == Point(1, 1) && steps[1] == Point(1, -1) && steps[2] == Point(1, -1) && steps[3] == Point(-1, -1);
    OffBoardRay(g, Point(8, 1), Point(1, 1), White, true);
    OffBoardRay(g, Point(8, -1), Point(1, -1), White, true);
    OffBoardRay(g, Point(6, -1), Point(-1, -1), White, true);
    assert forall i :: 0 <= i < |steps| ==> RayHit(g, a.Plus(steps[i]), steps[i], White, true) == 0;
    StepsUnit();
    FirstRayHitNone(g, a, White, steps, true);
  }

  /** A ray that starts off the board reports nothing. */
  lemma OffBoardRay(g: Grid, p: Point, step: Point, color: Color, diagonal: bool)
    requires IsGrid(g) && step.IsUnit() && (p.x == 8 || p.y == -1)
    ensures RayHit(g, p, step, color, diagonal) == 0
  {
  }

  lemma CornerRankEmpty(g: Grid)
    requires CornerBoard(g)
    ensures RayHit(g, Point(7, 1), Point(0, 1), White, false) == 0
  {
    forall k: nat | Along(Point(7, 1), Point(0, 1), k).InRange()
      ensures At(g, Along(Point(7, 1), Point(0, 1), k)) == None
    {
      var q := Along(Point(7, 1), Point(0, 1), k);
      assert q == Point(7, 1 + k);
      assert q != Point(7, 0) && q != Point(6, 1);
    }
    RayHitEmpty(g, Point(7, 1), Point(0, 1), White, false);
  }

  lemma CornerFileEmpty(g: Grid)
    requires CornerBoard(g)
    ensures RayHit(g, Point(6, 0), Point(-1, 0), White, false) == 0
  {
    forall k: nat | Along(Point(6, 0), Point(-1, 0), k).InRange()
      ensures At(g, Along(Point(6, 0), Point(-1, 0), k)) == None
    {
      var q := Along(Point(6, 0), Point(-1, 0), k);
      assert q == Point(6 - k, 0);
      assert q != Point(7, 0) && q != Point(6, 1);
    }
    RayHitEmpty(g, Point(6, 0), Point(-1, 0), White, false);
  }

  lemma CornerLinesMiss(g: Grid)
    requires IsGrid(g)
    requires RayHit(g, Point(7, 1), Point(0, 1), White, false) == 0
    requires RayHit(g, Point(6, 0), Point(-1, 0), White, false) == 0
    ensures FirstRayHit(g, Point(7, 0), White, RookSteps, false) == 0
  {
    var a := Point(7, 0);
    forall i | 0 <= i < |RookSteps| ensures RayHit(g, a.Plus(RookSteps[i]), RookSteps[i], White, false) == 0 {
      if i == 0 || i == 3 {
      } else {
        assert !a.Plus(RookSteps[i]).InRange();
      }
    }
    StepsUnit();
    FirstRayHitNone(g, a, White, RookSteps, false);
  }

  lemma CornerJumpsMiss(g: Grid)
    requires CornerBoard(g)
    ensures JumpHit(g, Point(7, 0), White, KnightJumps, Knight) == 0
    ensures JumpHit(g, Point(7, 0), White, PawnSteps(White), Pawn) == 0
  {
    var a := Point(7, 0);
    forall i | 0 <= i < |KnightJumps| ensures !EnemyAt(g, a.Plus(KnightJumps[i]), White, Knight) {
    }
    forall i | 0 <= i < 2 ensures !EnemyAt(g, a.Plus(PawnSteps(White)[i]), White, Pawn) {
    }
    JumpHitFinds(g, a, White, KnightJumps, Knight);
    JumpHitFinds(g, a, White, PawnSteps(White), Pawn);
  }

  /**
   * The repeated (1, -1) in bishop_moves leaves the (-1, +1) diagonal
   * unscanned: a black bishop on b2 can move to a1, yet under_attack does not
   * report a white king on a1 as attacked.
   */
  lemma BlindDiagonal()
    ensures var king := Piece(King, White, Point(7, 0), false, false);
            var bishop := Piece(Bishop, Black, Point(6, 1), true, false);
            var g := Put(Put(EmptyGrid(), Point(7, 0), Some(king)), Point(6, 1), Some(bishop));
            BishopMove(bishop, Point(7, 0), g) == 1 && AttackCode(g, Point(7, 0), White) == 0
  {
    var king := Piece(King, White, Point(7, 0), false, false);
    var bishop := Piece(Bishop, Black, Point(6, 1), true, false);
    var g := Put(Put(EmptyGrid(), Point(7, 0), Some(king)), Point(6, 1), Some(bishop));
    assert Dist(Point(7, 0).Minus(Point(6, 1))) == 1;
    assert CornerBoard(g);
    CornerDiagonalsMiss(g);
    CornerRankEmpty(g);
    CornerFileEmpty(g);
    CornerLinesMiss(g);
    CornerJumpsMiss(g);
  }
}

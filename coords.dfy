/** The optional value used for empty squares and unset engine pointers. */
module Optional {
  datatype Option<+T> = None | Some(value: T)
}

/**
 * Board coordinates (class Point in server/chess.hpp).
 *
 * As in the source, `x` is the ROW index (0 is rank 8, 7 is rank 1) and `y`
 * is the COLUMN index (0 is file a, 7 is file h).
 */
module Coords {

  datatype Point = Point(x: int, y: int) {

    predicate InRange() {
      0 <= x <= 7 && 0 <= y <= 7
    }

    function Plus(p: Point): Point {
      Point(x + p.x, y + p.y)
    }

    function Minus(p: Point): Point {
      Point(x - p.x, y - p.y)
    }

    function XAbs(): nat {
      if x < 0 then -x else x
    }

    function YAbs(): nat {
      if y < 0 then -y else y
    }

    function Abs(): Point {
      Point(XAbs(), YAbs())
    }

    function Sign(): (s: Point)
      ensures s.IsUnit() || s == Point(0, 0)
    {
      Point(SignOf(x), SignOf(y))
    }

    /** A step of one square in one of the eight directions. */
    predicate IsUnit() {
      -1 <= x <= 1 && -1 <= y <= 1 && (x != 0 || y != 0)
    }
  }

  function SignOf(n: int): int {
    if n == 0 then 0 else if n < 0 then -1 else 1
  }

  /** `k` copies of a unit component `s`, without multiplication. */
  function Scale(s: int, k: int): int {
    if s == 0 then 0 else if s > 0 then k else -k
  }

  /** The square `k` steps of `step` away from `p`. */
  function Along(p: Point, step: Point, k: int): Point {
    Point(p.x + Scale(step.x, k), p.y + Scale(step.y, k))
  }

  /** Character `i` of a C string: the terminating NUL past its end. */
  function CharAt(s: string, i: nat): char {
    if i < |s| then s[i] else '\0'
  }

  /**
   * Point::from_string applied at offset `off`: the file letter gives the
   * column and the rank digit the row, and the flag says whether the result is
   * on the board.
   */
  function FromString(s: string, off: nat): (r: (Point, bool))
    ensures r.1 <==> IsFile(CharAt(s, off)) && IsRank(CharAt(s, off + 1))
    ensures r.1 ==> (r.0.y == CharAt(s, off) as int - 'a' as int &&
                     r.0.x == '8' as int - CharAt(s, off + 1) as int)
  {
    var p := Point(7 - (CharAt(s, off + 1) as int - '1' as int), CharAt(s, off) as int - 'a' as int);
    (p, p.InRange())
  }

  /** A byte written into a `char`: the value taken modulo 256. */
  function ByteChar(n: int): char {
    (n % 256) as char
  }

  /** Point::to_string: the file letter, then the rank digit. */
  function ToString(p: Point): (s: string)
    ensures |s| == 2
  {
    [ByteChar(p.y + 'a' as int), ByteChar(7 - p.x + '1' as int)]
  }

  predicate IsFile(c: char) { 'a' <= c <= 'h' }

  predicate IsRank(c: char) { '1' <= c <= '8' }

  /** Printing an on-board square and parsing it back gives the same square. */
  lemma ToStringRoundTrip(p: Point)
    requires p.InRange()
    ensures FromString(ToString(p), 0) == (p, true)
  {
    var s := ToString(p);
    assert s[0] as int == p.y + 'a' as int;
    assert s[1] as int == 7 - p.x + '1' as int;
  }

  /** Parsing a square and printing it back gives the same two characters. */
  lemma FromStringRoundTrip(s: string, off: nat)
    requires FromString(s, off).1
    ensures off + 2 <= |s| && ToString(FromString(s, off).0) == s[off..off + 2]
  {
    var p := FromString(s, off).0;
    assert ToString(p)[0] == CharAt(s, off);
    assert ToString(p)[1] == CharAt(s, off + 1);
  }
}

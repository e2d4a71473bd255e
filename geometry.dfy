/**
 * Board cells, teams and the integer distances used throughout the rules and the AI:
 * Unity's Vector2Int, the Team enum, Mathf helpers, and AIController.Manhattan/Chebyshev.
 */
module Geometry {

  /** A board cell (Vector2Int). */
  datatype Coord = Coord(x: int, y: int) {

    /** Component-wise sum, Vector2Int's `+`. */
    function Plus(d: Coord): Coord {
      Coord(x + d.x, y + d.y)
    }
  }

  /** The two sides the code names (Team.White, Team.Black). */
  datatype Team = White | Black

  function Abs(n: int): nat {
    if n < 0 then -n else n
  }

  /** Mathf.Max on integers. */
  function Max(a: int, b: int): int {
    if a < b then b else a
  }

  /** Mathf.Min on integers. */
  function Min(a: int, b: int): int {
    if a < b then a else b
  }

  /** Mathf.Clamp(v, lo, hi) for lo <= hi. */
  function Clamp(v: int, lo: int, hi: int): (r: int)
    requires lo <= hi
    ensures lo <= r <= hi
    ensures lo <= v <= hi ==> r == v
  {
    if v < lo then lo else if v > hi then hi else v
  }

  /** Mathf.Clamp(n, -1, 1): the unit step toward n along one axis. */
  function Sign(n: int): (r: int)
    ensures -1 <= r <= 1
    ensures (r == 0) == (n == 0) && (r > 0) == (n > 0)
  {
    if n < 0 then -1 else if n > 0 then 1 else 0
  }

  /** AIController.Manhattan: |dx| + |dy|. */
  function Manhattan(a: Coord, b: Coord): (r: nat)
    ensures r == 0 <==> a == b
    ensures Chebyshev(a, b) <= r <= 2 * Chebyshev(a, b)
  {
    Abs(a.x - b.x) + Abs(a.y - b.y)
  }

  /** AIController.Chebyshev (also the base move cost): the larger of |dx| and |dy|. */
  function Chebyshev(a: Coord, b: Coord): (r: nat)
    ensures Abs(a.x - b.x) <= r && Abs(a.y - b.y) <= r
    ensures r == Abs(a.x - b.x) || r == Abs(a.y - b.y)
    ensures r == 0 <==> a == b
  {
    Max(Abs(a.x - b.x), Abs(a.y - b.y))
  }

  /** `k` times the unit sign `s` (s in -1..1), written without multiplication. */
  function Scale(k: int, s: int): int {
    if s > 0 then k else if s < 0 then -k else 0
  }

  /** Whether `d` is one of the eight unit steps a ray or a king can take. */
  predicate UnitStep(d: Coord) {
    -1 <= d.x <= 1 && -1 <= d.y <= 1 && d != Coord(0, 0)
  }

  /** The cell reached from `o` after `k` applications of `p += d`. */
  function Along(o: Coord, d: Coord, k: nat): Coord {
    if k == 0 then o else Along(o, d, k - 1).Plus(d)
  }

  /** For steps with components in -1..1, walking k steps moves each coordinate by k in the step's direction. */
  lemma {:induction false} AlongOffset(o: Coord, d: Coord, k: nat)
    requires -1 <= d.x <= 1 && -1 <= d.y <= 1
    ensures Along(o, d, k) == Coord(o.x + Scale(k, d.x), o.y + Scale(k, d.y))
  {
    if k > 0 {
      AlongOffset(o, d, k - 1);
    }
  }

  /** Starting one step further is the same as walking one step more. */
  lemma {:induction false} AlongShift(o: Coord, d: Coord, k: nat)
    ensures Along(o.Plus(d), d, k) == Along(o, d, k + 1)
  {
    if k > 0 {
      AlongShift(o, d, k - 1);
    }
  }
}

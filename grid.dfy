/** Geometry of the drone board: its dimensions, cells, the Manhattan
    heuristic, the four-way neighbourhood the search expands, and the
    routes it may return (main.py:9-10, 23-25, 101-111). */
module Grid {

  const WindowWidth: int := 400
  const WindowHeight: int := 450
  /** Side of one cell in pixels. */
  const GridSize: int := 40
  /** Columns: 400 // 40, that is 10. */
  const Width: int := WindowWidth / GridSize
  /** Rows: the bottom 150 pixels hold the buttons, so (450 - 150) // 40, that is 7. */
  const Height: int := (WindowHeight - 150) / GridSize

  /** A cell by its column x and its row y, as the source's `(x, y)` tuples. */
  datatype Cell = Cell(x: int, y: int)

  predicate InBounds(c: Cell) {
    0 <= c.x < Width && 0 <= c.y < Height
  }

  /** An obstacle map indexed `obs[x][y]`, like the source's `grid[x][y]`. */
  predicate IsGrid(obs: seq<seq<bool>>) {
    |obs| == Width && forall x :: 0 <= x < Width ==> |obs[x]| == Height
  }

  predicate Blocked(obs: seq<seq<bool>>, c: Cell)
    requires IsGrid(obs) && InBounds(c)
  {
    obs[c.x][c.y]
  }

  /** The test `neighbors` applies to a candidate cell: on the board and not an obstacle. */
  predicate Passable(obs: seq<seq<bool>>, c: Cell)
    requires IsGrid(obs)
  {
    InBounds(c) && !obs[c.x][c.y]
  }

  function Abs(n: int): nat {
    if n < 0 then -n else n
  }

  /** The Manhattan distance |dx| + |dy|. */
  function Heuristic(a: Cell, b: Cell): (d: nat)
    ensures d == 0 <==> a == b
  {
    Abs(a.x - b.x) + Abs(a.y - b.y)
  }

  /** One orthogonal unit step apart. */
  predicate Adjacent(a: Cell, b: Cell) {
    Heuristic(a, b) == 1
  }

  lemma HeuristicSymmetric(a: Cell, b: Cell)
    ensures Heuristic(a, b) == Heuristic(b, a)
  {
  }

  lemma HeuristicTriangle(a: Cell, b: Cell, c: Cell)
    ensures Heuristic(a, c) <= Heuristic(a, b) + Heuristic(b, c)
  {
  }

  /** Consistency: moving one step changes the estimate by at most one. */
  lemma HeuristicConsistent(a: Cell, b: Cell, e: Cell)
    requires Adjacent(a, b)
    ensures Heuristic(a, e) <= Heuristic(b, e) + 1
    ensures Heuristic(b, e) <= Heuristic(a, e) + 1
  {
    HeuristicTriangle(a, b, e);
    HeuristicTriangle(b, a, e);
  }

  /** The directions `neighbors` tries, in its order (main.py:102). */
  const Dirs: seq<(int, int)> := [(0, 1), (1, 0), (0, -1), (-1, 0)]

  /** The cell one step from c in direction d. */
  function Toward(c: Cell, d: nat): Cell
    requires d < |Dirs|
  {
    Cell(c.x + Dirs[d].0, c.y + Dirs[d].1)
  }

  /** The position in `Dirs` of the step from c to n, or 4 when n is not one step away. */
  function Rank(c: Cell, n: Cell): (r: nat)
    ensures r <= |Dirs|
    ensures r < |Dirs| ==> n == Toward(c, r)
  {
    if n == Toward(c, 0) then 0
    else if n == Toward(c, 1) then 1
    else if n == Toward(c, 2) then 2
    else if n == Toward(c, 3) then 3
    else 4
  }

  lemma TowardIsAdjacent(c: Cell, d: nat)
    requires d < |Dirs|
    ensures Adjacent(c, Toward(c, d)) && Rank(c, Toward(c, d)) == d
  {
  }

  lemma AdjacentHasRank(c: Cell, n: Cell)
    requires Adjacent(c, n)
    ensures Rank(c, n) < |Dirs|
  {
  }

  /** What `neighbors` has collected after trying the first m directions. */
  function NeighborsUpTo(obs: seq<seq<bool>>, c: Cell, m: nat): (r: seq<Cell>)
    requires IsGrid(obs) && m <= |Dirs|
    ensures |r| <= m
    ensures forall k :: 0 <= k < |r| ==> Passable(obs, r[k]) && Rank(c, r[k]) < m
    ensures forall i, j :: 0 <= i < j < |r| ==> Rank(c, r[i]) < Rank(c, r[j])
    ensures forall d :: 0 <= d < m && Passable(obs, Toward(c, d)) ==> Toward(c, d) in r
  {
    if m == 0 then []
    else
      var r := NeighborsUpTo(obs, c, m - 1);
      var n := Toward(c, m - 1);
      TowardIsAdjacent(c, m - 1);
      if Passable(obs, n) then r + [n] else r
  }

  /** The cells `neighbors` returns for c (main.py:101-108). */
  function Neighbors(obs: seq<seq<bool>>, c: Cell): (r: seq<Cell>)
    requires IsGrid(obs)
    ensures |r| <= |Dirs|
    ensures forall k :: 0 <= k < |r| ==> Passable(obs, r[k])
  {
    NeighborsUpTo(obs, c, |Dirs|)
  }

  /** `neighbors` returns at most four cells, exactly the passable cells one
      step away, each once, in the order of `Dirs`. */
  lemma NeighborsSpec(obs: seq<seq<bool>>, c: Cell)
    requires IsGrid(obs)
    ensures |Neighbors(obs, c)| <= 4
    ensures forall n :: n in Neighbors(obs, c) <==> Passable(obs, n) && Adjacent(c, n)
    ensures forall i, j :: 0 <= i < j < |Neighbors(obs, c)| ==>
              Rank(c, Neighbors(obs, c)[i]) < Rank(c, Neighbors(obs, c)[j])
    ensures Distinct(Neighbors(obs, c))
  {
    var r := Neighbors(obs, c);
    forall n | n in r
      ensures Passable(obs, n) && Adjacent(c, n)
    {
      var k :| 0 <= k < |r| && r[k] == n;
      TowardIsAdjacent(c, Rank(c, n));
    }
    forall n | Passable(obs, n) && Adjacent(c, n)
      ensures n in r
    {
      AdjacentHasRank(c, n);
    }
  }

  /** A legal move of the search: from a cell on the board to a passable cell one step away. */
  predicate Step(obs: seq<seq<bool>>, a: Cell, b: Cell)
    requires IsGrid(obs)
  {
    InBounds(a) && Passable(obs, b) && Adjacent(a, b)
  }

  lemma StepIsNeighbor(obs: seq<seq<bool>>, a: Cell, b: Cell)
    requires IsGrid(obs)
    ensures Step(obs, a, b) <==> InBounds(a) && b in Neighbors(obs, a)
  {
    NeighborsSpec(obs, a);
  }

  /** A route from s to e: on the board, s first, e last, every move a Step.
      The first cell may be an obstacle; every later one may not. */
  predicate IsRoute(obs: seq<seq<bool>>, w: seq<Cell>, s: Cell, e: Cell)
    requires IsGrid(obs)
  {
    && |w| > 0 && w[0] == s && w[|w| - 1] == e && InBounds(s)
    && forall k :: 0 <= k < |w| - 1 ==> Step(obs, w[k], w[k + 1])
  }

  predicate Distinct<T(==)>(w: seq<T>) {
    forall i, j :: 0 <= i < j < |w| ==> w[i] != w[j]
  }

  lemma {:induction false} RouteReach(obs: seq<seq<bool>>, w: seq<Cell>, s: Cell, e: Cell, k: nat)
    requires IsGrid(obs) && IsRoute(obs, w, s, e) && k < |w|
    ensures InBounds(w[k]) && Heuristic(s, w[k]) <= k
  {
    if k > 0 {
      RouteReach(obs, w, s, e, k - 1);
      HeuristicTriangle(s, w[k - 1], w[k]);
    }
  }

  /** A route is never shorter than the Manhattan distance of its ends plus one cell. */
  lemma RouteLength(obs: seq<seq<bool>>, w: seq<Cell>, s: Cell, e: Cell)
    requires IsGrid(obs) && IsRoute(obs, w, s, e)
    ensures |w| >= Heuristic(s, e) + 1
    ensures forall k :: 0 <= k < |w| ==> InBounds(w[k])
  {
    RouteReach(obs, w, s, e, |w| - 1);
    forall k | 0 <= k < |w|
      ensures InBounds(w[k])
    {
      RouteReach(obs, w, s, e, k);
    }
  }

  /** The source's `path[::-1]`. */
  function Reversed<T>(w: seq<T>): (r: seq<T>)
    ensures |r| == |w|
    ensures forall k :: 0 <= k < |w| ==> r[k] == w[|w| - 1 - k]
  {
    if w == [] then [] else Reversed(w[1..]) + [w[0]]
  }

  lemma ReversedDistinct<T>(w: seq<T>)
    requires Distinct(w)
    ensures Distinct(Reversed(w))
  {
    var r := Reversed(w);
    var n := |w|;
    forall i, j | 0 <= i < j < n
      ensures r[i] != r[j]
    {
      assert r[i] == w[n - 1 - i] && r[j] == w[n - 1 - j];
    }
  }
}

/** The game's mutable state and the code that changes it in place
    (main.py:32-58, 101-108, 113-188, 199-211). The source keeps this state
    in module globals and in the `Node` objects of `grid`; here it is one
    `Board` object. Each `Node` field becomes one `array2` indexed `[x, y]`:
    `obstacle`, `g`, `f` and `parent`. */
module Game {
  import opened Options
  import opened Grid
  import opened Editor
  import opened Search
  import Pathfinder
  import Playback

  class Board {
    var obstacle: array2<bool>
    var g: array2<Cost>
    var f: array2<Cost>
    var parent: array2<Option<Cell>>
    var start: Option<Cell>
    var end: Option<Cell>
    var path: seq<Cell>
    var completedPath: seq<Cell>
    var dronePos: Option<Cell>
    var droneMoving: bool
    var completionAnimation: bool
    var animationTimer: int
    /** The obstacle flags as a `[x][y]` map. */
    ghost var obstacles: seq<seq<bool>>

    /** The arrays cover the board, `obstacles` mirrors the `obstacle` array,
        and a designated start or end lies on the board. */
    ghost predicate Valid()
      reads this`obstacle, this`g, this`f, this`parent, this`start, this`end, this`obstacles, obstacle
    {
      && obstacle.Length0 == Width && obstacle.Length1 == Height
      && IsGrid(obstacles)
      && (forall x, y :: 0 <= x < Width && 0 <= y < Height ==> obstacles[x][y] == obstacle[x, y])
      && g.Length0 == Width && g.Length1 == Height
      && f.Length0 == Width && f.Length1 == Height
      && parent.Length0 == Width && parent.Length1 == Height
      && g != f
      && (start.Some? ==> InBounds(start.value))
      && (end.Some? ==> InBounds(end.value))
    }

    /** The part the user edits: obstacles, start and end. */
    ghost function Layout(): (d: Design)
      reads this`obstacle, this`g, this`f, this`parent, this`start, this`end, this`obstacles, obstacle
      requires Valid()
      ensures ValidDesign(d)
    {
      Design(obstacles, start, end)
    }

    /** The playback globals. */
    ghost function ReplayState(): Playback.Replay
      reads this`path, this`completedPath, this`dronePos, this`droneMoving, this`completionAnimation, this`animationTimer
    {
      Playback.Replay(path, completedPath, dronePos, droneMoving, completionAnimation, animationTimer)
    }

    /** `parent` holds the parent links of s. */
    ghost predicate ParentsAre(s: State)
      reads this`parent, parent
    {
      && parent.Length0 == Width && parent.Length1 == Height && Shaped(s)
      && forall x, y :: 0 <= x < Width && 0 <= y < Height ==> parent[x, y] == s.parent[x][y]
    }

    /** `g` holds the scores of s, and `f` is `g + heuristic` towards e (main.py:122, 140). */
    ghost predicate ScoresAre(s: State, e: Cell)
      reads this`g, this`f, g, f
    {
      && g.Length0 == Width && g.Length1 == Height && f.Length0 == Width && f.Length1 == Height
      && Shaped(s)
      && forall x, y :: 0 <= x < Width && 0 <= y < Height ==>
           g[x, y] == s.g[x][y] && f[x, y] == FOf(s.g[x][y], Cell(x, y), e)
    }

    /** The search arrays hold state s for target e. */
    ghost predicate Mirrors(s: State, e: Cell)
      reads this`obstacle, this`g, this`f, this`parent, this`start, this`end, this`obstacles, obstacle, g, f, parent
    {
      Valid() && ScoresAre(s, e) && ParentsAre(s)
    }

    /** The module-level start-up state (main.py:46-58): no obstacle, no
        start or end, nothing to play back. */
    constructor ()
      ensures Valid() && fresh(obstacle) && fresh(g) && fresh(f) && fresh(parent)
      ensures Layout() == Cleared()
      ensures ReplayState() == Playback.Replay([], [], None, false, false, 0)
    {
      obstacle := new bool[Width, Height]((_, _) => false);
      g := new Cost[Width, Height]((_, _) => Inf);
      f := new Cost[Width, Height]((_, _) => Inf);
      parent := new Option<Cell>[Width, Height]((_, _) => None);
      start, end := None, None;
      path, completedPath := [], [];
      dronePos := None;
      droneMoving, completionAnimation := false, false;
      animationTimer := 0;
      obstacles := EmptyGrid();
    }

    /** `handle_click` for the selected tool and a click at pixel (px, py)
        (main.py:145-156). */
    method HandleClick(tool: Option<Tool>, px: nat, py: nat)
      requires Valid()
      modifies this`start, this`end, this`obstacles, obstacle
      ensures Valid()
      ensures Layout() == Click(old(Layout()), tool, px, py)
    {
      var gridX, gridY := px / GridSize, py / GridSize;
      if gridX >= Width || gridY >= Height {
        return;
      }
      match tool {
        case Some(StartTool) =>
          start := Some(Cell(gridX, gridY));
        case Some(EndTool) =>
          end := Some(Cell(gridX, gridY));
        case Some(ObstacleTool) =>
          obstacle[gridX, gridY] := !obstacle[gridX, gridY];
          obstacles := Toggle(obstacles, Cell(gridX, gridY));
          forall x, y | 0 <= x < Width && 0 <= y < Height
            ensures obstacles[x][y] == obstacle[x, y]
          {
            if x != gridX || y != gridY {
              assert Blocked(obstacles, Cell(x, y)) == Blocked(old(obstacles), Cell(x, y));
            }
          }
        case None =>
      }
    }

    /** `reset_grid` (main.py:177-188): clears start, end, every obstacle and
        the playback; the search arrays and the animation clock are left alone. */
    method ResetGrid()
      requires Valid()
      modifies this`start, this`end, this`obstacles, obstacle, this`path, this`completedPath,
               this`dronePos, this`droneMoving, this`completionAnimation
      ensures Valid()
      ensures Layout() == Cleared()
      ensures ReplayState() == Playback.Replay([], [], None, false, false, old(animationTimer))
    {
      start, end := None, None;
      ClearObstacles();
      path := [];
      completedPath := [];
      dronePos := None;
      droneMoving := false;
      completionAnimation := false;
      obstacles := EmptyGrid();
      forall x, y | 0 <= x < Width && 0 <= y < Height
        ensures obstacles[x][y] == obstacle[x, y]
      {
        assert !Blocked(obstacles, Cell(x, y));
      }
    }

    /** The loop of `reset_grid` over every node (main.py:180-182). */
    method ClearObstacles()
      requires obstacle.Length0 == Width && obstacle.Length1 == Height
      modifies obstacle
      ensures forall x, y :: 0 <= x < Width && 0 <= y < Height ==> !obstacle[x, y]
    {
      for x := 0 to Width
        invariant forall i, j :: 0 <= i < x && 0 <= j < Height ==> !obstacle[i, j]
      {
        for y := 0 to Height
          invariant forall i, j :: 0 <= i < x && 0 <= j < Height ==> !obstacle[i, j]
          invariant forall j :: 0 <= j < y ==> !obstacle[x, j]
        {
          obstacle[x, y] := false;
        }
      }
    }

    /** `neighbors` (main.py:101-108): tries the four directions in order and
        keeps the cells on the board that are not obstacles. */
    method NeighborsOf(c: Cell) returns (result: seq<Cell>)
      requires Valid()
      ensures result == Neighbors(obstacles, c)
    {
      ghost var obs := obstacles;
      result := [];
      for d := 0 to |Dirs|
        invariant result == NeighborsUpTo(obs, c, d)
      {
        var (dx, dy) := Dirs[d];
        var nx, ny := c.x + dx, c.y + dy;
        assert Cell(nx, ny) == Toward(c, d);
        if 0 <= nx < Width && 0 <= ny < Height && !obstacle[nx, ny] {
          result := result + [Cell(nx, ny)];
        }
      }
    }

    /** The reset loop at the top of `a_star` (main.py:114-118). */
    method ClearSearch()
      requires Valid()
      modifies g, f, parent
      ensures forall x, y :: 0 <= x < Width && 0 <= y < Height ==>
                g[x, y] == Inf && f[x, y] == Inf && parent[x, y] == None
    {
      for x := 0 to Width
        invariant forall i, j :: 0 <= i < x && 0 <= j < Height ==>
                    g[i, j] == Inf && f[i, j] == Inf && parent[i, j] == None
      {
        for y := 0 to Height
          invariant forall i, j :: 0 <= i < x && 0 <= j < Height ==>
                      g[i, j] == Inf && f[i, j] == Inf && parent[i, j] == None
          invariant forall j :: 0 <= j < y ==> g[x, j] == Inf && f[x, j] == Inf && parent[x, j] == None
        {
          g[x, y] := Inf;
          f[x, y] := Inf;
          parent[x, y] := None;
        }
      }
    }

    /** The model's pop rule for `heappop` (main.py:126) on the frontier
        cells open, whose stored `f` scores are fs: the first one of least `f`. */
    method PopIndex(open: seq<Cell>, ghost fs: seq<nat>) returns (best: nat)
      requires f.Length0 == Width && f.Length1 == Height
      requires |open| == |fs| > 0
      requires forall k :: 0 <= k < |open| ==> InBounds(open[k]) && f[open[k].x, open[k].y] == Fin(fs[k])
      ensures best == FirstMin(fs)
    {
      best := 0;
      var j := 1;
      while j < |open|
        invariant 1 <= j <= |open| && best < j
        invariant best == FirstMin(fs[..j])
      {
        assert fs[..j + 1][..j] == fs[..j];
        if Less(f[open[j].x, open[j].y], f[open[best].x, open[best].y]) {
          best := j;
        }
        j := j + 1;
      }
      assert fs[..|open|] == fs;
    }

    /** The body of the relaxation test when it succeeds (main.py:138-140):
        nb gets parent cur, `g` t and `f` t plus its distance to e. */
    method Improve(nb: Cell, cur: Cell, t: nat, e: Cell, ghost s: State)
      requires g != f && ScoresAre(s, e) && ParentsAre(s) && InBounds(nb)
      modifies g, f, parent
      ensures ScoresAre(s.(g := Put(s.g, nb, Fin(t))), e)
      ensures ParentsAre(s.(parent := Put(s.parent, nb, Some(cur))))
    {
      parent[nb.x, nb.y] := Some(cur);
      g[nb.x, nb.y] := Fin(t);
      f[nb.x, nb.y] := Fin(t + Heuristic(nb, e));
    }

    /** One pass of the relaxation loop for neighbour nb of cur
        (main.py:136-142): test the tentative score, and on success update
        the arrays and push nb unless it is on the frontier. */
    method RelaxOne(cur: Cell, nb: Cell, e: Cell, open: seq<Cell>, ghost s: State)
      returns (open': seq<Cell>, ghost s': State)
      requires g != f && ScoresAre(s, e) && ParentsAre(s) && s.open == open
      requires InBounds(cur) && InBounds(nb) && G(s, cur).Fin?
      modifies g, f, parent
      ensures ScoresAre(s', e) && ParentsAre(s') && s' == Relax(s, cur, nb) && open' == s'.open
    {
      var tentative := g[cur.x, cur.y].n + 1;
      open', s' := open, s;
      if Less(Fin(tentative), g[nb.x, nb.y]) {
        Improve(nb, cur, tentative, e, s);
        if nb !in open {
          open' := open + [nb];
        }
        s' := Relax(s, cur, nb);
      }
    }

    /** The relaxation loop of `a_star` over the neighbours nbs of cur
        (main.py:135-142), writing `parent`, `g` and `f` in place. */
    method RelaxNeighbors(cur: Cell, nbs: seq<Cell>, e: Cell, open0: seq<Cell>, ghost s0: State)
      returns (open: seq<Cell>, ghost s: State)
      requires g != f && ScoresAre(s0, e) && ParentsAre(s0) && s0.open == open0
      requires InBounds(cur) && G(s0, cur).Fin?
      requires forall k :: 0 <= k < |nbs| ==> InBounds(nbs[k])
      modifies g, f, parent
      ensures ScoresAre(s, e) && ParentsAre(s) && s == RelaxAll(s0, cur, nbs) && open == s.open
    {
      open, s := open0, s0;
      var k := 0;
      while k < |nbs|
        invariant 0 <= k <= |nbs|
        invariant ScoresAre(s, e) && ParentsAre(s) && open == s.open && s == RelaxAll(s0, cur, nbs[..k])
      {
        RelaxAllPrefix(s0, cur, nbs, k);
        open, s := RelaxOne(cur, nbs[k], e, open, s);
        k := k + 1;
      }
      assert nbs[..|nbs|] == nbs;
    }

    /** The reconstruction loop of `a_star` (main.py:129-133): follow the
        `parent` links from e until a cell has none, then reverse. With the
        links of a search state p in `parent`, the result is `Chain` from e
        reversed. */
    method TracePath(e: Cell, ghost obs: seq<seq<bool>>, ghost st: Cell, ghost p: State)
      returns (route: seq<Cell>)
      requires IsGrid(obs) && Core(obs, st, p) && ParentsAre(p) && InBounds(e) && G(p, e).Fin?
      ensures route == Reversed(Chain(obs, st, p, e))
    {
      ghost var full := Chain(obs, st, p, e);
      var trail: seq<Cell> := [];
      var current: Option<Cell> := Some(e);
      while current.Some?
        invariant current.Some? ==> InBounds(current.value) && G(p, current.value).Fin?
        invariant current.Some? ==> trail + Chain(obs, st, p, current.value) == full
        invariant current.None? ==> trail == full
        decreases if current.Some? then G(p, current.value).n + 1 else 0
      {
        var c := current.value;
        ChainStep(obs, st, p, c);
        var next := parent[c.x, c.y];
        if next.Some? {
          assert trail + [c] + Chain(obs, st, p, next.value) == trail + ([c] + Chain(obs, st, p, next.value));
        }
        trail := trail + [c];
        current := next;
      }
      route := Reversed(trail);
    }

    /** The stored `f` of every frontier cell of s is its entry in `FValues`. */
    lemma FScores(s: State, e: Cell)
      requires ScoresAre(s, e) && OpenOk(s)
      ensures var fs := FValues(s, s.open, e);
              forall k :: 0 <= k < |s.open| ==> InBounds(s.open[k]) && f[s.open[k].x, s.open[k].y] == Fin(fs[k])
    {
    }

    /** The reset loop and the seeding of the start at the top of `a_star`
        (main.py:114-123): the arrays then hold the initial search state. */
    method Seed(st: Cell, e: Cell) returns (ghost s: State)
      requires Valid() && InBounds(st)
      modifies g, f, parent
      ensures s == Init(st) && ScoresAre(s, e) && ParentsAre(s)
    {
      ClearSearch();
      g[st.x, st.y] := Fin(0);
      f[st.x, st.y] := Fin(Heuristic(st, e));
      s := Init(st);
    }

    /** A popped cell other than the end (main.py:135-142): its neighbours
        are relaxed, giving the state `Expand` describes. */
    method ExpandCurrent(current: Cell, e: Cell, open: seq<Cell>, ghost obs: seq<seq<bool>>, ghost s: State, ghost i: nat)
      returns (open': seq<Cell>, ghost s': State)
      requires Valid() && obs == obstacles && ScoresAre(s, e) && ParentsAre(s) && OpenOk(s)
      requires i < |s.open| && s.open[i] == current && open == Pop(s, i).open
      modifies g, f, parent
      ensures s' == Expand(obs, s, i) && open' == s'.open && ScoresAre(s', e) && ParentsAre(s')
    {
      var nbs := NeighborsOf(current);
      open', s' := RelaxNeighbors(current, nbs, e, open, Pop(s, i));
    }

    /** One pass of the main loop of `a_star` (main.py:125-142) on a
        non-empty frontier: pop the first cell of least `f`; if it is the end,
        return the traced path (`done`), otherwise relax its neighbours. The
        outcome is that of `Pathfinder.Run`: a finished pass returns its
        path, an unfinished one moves to a state with the same outcome and a
        smaller termination measure. */
    method Advance(st: Cell, e: Cell, open: seq<Cell>, ghost obs: seq<seq<bool>>, ghost s: State)
      returns (done: bool, route: seq<Cell>, open': seq<Cell>, ghost s': State)
      requires Valid() && obs == obstacles && open == s.open && open != []
      requires Inv(obs, st, e, s) && ScoresAre(s, e) && ParentsAre(s)
      modifies g, f, parent
      ensures done ==> route == Pathfinder.Run(obs, st, e, s).path
      ensures done ==> Mirrors(Pathfinder.Run(obs, st, e, s).last, e)
      ensures !done ==> && Inv(obs, st, e, s') && open' == s'.open && ScoresAre(s', e) && ParentsAre(s')
                        && Pathfinder.Run(obs, st, e, s') == Pathfinder.Run(obs, st, e, s)
      ensures !done ==> || Weight(s'.g, Unreached) < Weight(s.g, Unreached)
                        || (Weight(s'.g, Unreached) == Weight(s.g, Unreached) && Weight(s'.g, Spent) < Weight(s.g, Spent))
                        || (s'.g == s.g && |open'| < |open|)
    {
      ghost var fs := FValues(s, open, e);
      FScores(s, e);
      var i := PopIndex(open, fs);
      var current := open[i];
      open' := open[..i] + open[i + 1..];
      Pathfinder.RunStep(obs, st, e, s);
      if current == e {
        PopKeepsCore(obs, st, s, i);
        route := TracePath(e, obs, st, Pop(s, i));
        return true, route, open', Pop(s, i);
      }
      ExpandKeeps(obs, st, e, s, i);
      open', s' := ExpandCurrent(current, e, open', obs, s, i);
      return false, [], open', s';
    }

    /** `a_star` from st to e (main.py:113-143). Its result is the path of
        `Pathfinder.AStar` for the current obstacles: the reset at entry
        makes it independent of the scores any earlier call left behind, so
        two calls on an unchanged board return the same path. The ghost obs
        names the obstacle map the search runs on. */
    method AStar(st: Cell, e: Cell, ghost obs: seq<seq<bool>>) returns (result: seq<Cell>)
      requires Valid() && InBounds(st) && InBounds(e) && obs == obstacles
      modifies g, f, parent
      ensures Valid()
      ensures result == Pathfinder.AStar(obs, st, e)
    {
      ghost var s := Seed(st, e);
      var open := [st];
      InitInv(obs, st, e);
      while open != []
        invariant Valid() && obs == obstacles
        invariant Inv(obs, st, e, s) && open == s.open && ScoresAre(s, e) && ParentsAre(s)
        invariant Pathfinder.Run(obs, st, e, s) == Pathfinder.Solve(obs, st, e)
        decreases Weight(s.g, Unreached), Weight(s.g, Spent), |open|
      {
        var done, route;
        done, route, open, s := Advance(st, e, open, obs, s);
        if done {
          return route;
        }
      }
      result := [];
    }

    /** The Run button (main.py:164-173): with both start and end set, clear
        both path lists and search; only a non-empty result starts the drone. */
    method Run()
      requires Valid()
      modifies this`path, this`completedPath, this`dronePos, this`droneMoving,
               this`completionAnimation, g, f, parent
      ensures Valid() && Layout() == old(Layout())
      ensures old(start).Some? && old(end).Some? ==>
                ReplayState() == Playback.Launch(old(ReplayState()),
                                                 Pathfinder.AStar(obstacles, start.value, end.value),
                                                 start.value)
      ensures !(old(start).Some? && old(end).Some?) ==>
                ReplayState() == old(ReplayState()) && unchanged(g, f, parent)
    {
      if start.Some? && end.Some? {
        RunSearch(start.value, end.value, obstacles);
      }
    }

    /** The Run button with start st and end e set (main.py:166-173). */
    method RunSearch(st: Cell, e: Cell, ghost obs: seq<seq<bool>>)
      requires Valid() && start == Some(st) && end == Some(e) && obs == obstacles
      modifies this`path, this`completedPath, this`dronePos, this`droneMoving,
               this`completionAnimation, g, f, parent
      ensures ReplayState() == Playback.Launch(old(ReplayState()), Pathfinder.AStar(obs, st, e), st)
    {
      ghost var v := ReplayState();
      path := [];
      completedPath := [];
      var result := AStar(st, e, obs);
      Launch(result, v);
    }

    /** The rest of the Run button once `a_star` has returned result
        (main.py:170-173): a non-empty result becomes the path to play back,
        with the drone on the start. */
    method Launch(result: seq<Cell>, ghost v: Playback.Replay)
      requires start.Some? && ReplayState() == v.(path := [], completed := [])
      modifies this`path, this`dronePos, this`droneMoving, this`completionAnimation
      ensures ReplayState() == Playback.Launch(v, result, start.value)
    {
      if result != [] {
        path := path + result;
        dronePos := start;
        droneMoving := true;
        completionAnimation := false;
      }
    }

    /** The playback part of one pass of the main loop at time now
        (main.py:199-211). */
    method Tick(now: int)
      modifies this`path, this`completedPath, this`dronePos, this`droneMoving,
               this`completionAnimation, this`animationTimer
      ensures ReplayState() == Playback.Tick(old(ReplayState()), now)
    {
      if droneMoving && path != [] {
        dronePos := Some(path[0]);
        path := path[1..];
        completedPath := completedPath + [dronePos.value];
        if path == [] {
          droneMoving := false;
          completionAnimation := true;
          animationTimer := now;
        }
      }
      if completionAnimation {
        if now - animationTimer > Playback.CelebrationMillis {
          completionAnimation := false;
        }
      }
    }
  }
}

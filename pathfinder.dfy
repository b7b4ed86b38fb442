/** `a_star` as a whole (main.py:113-143): the main loop run to the end,
    and what its result means for the board. */
module Pathfinder {
  import opened Options
  import opened Grid
  import opened Search

  /** What the search returns, with the state it leaves behind in the nodes. */
  datatype Outcome = Outcome(path: seq<Cell>, last: State)

  /** The main loop from state s (main.py:125-143): an empty frontier gives
      `[]`; otherwise one round is done. It always stops: each round lowers
      the number of unreached cells, or the sum of finite `g`, or the
      frontier. */
  function Run(obs: seq<seq<bool>>, st: Cell, e: Cell, s: State): (r: Outcome)
    requires IsGrid(obs) && Inv(obs, st, e, s)
    ensures Core(obs, st, r.last)
    ensures r.path == [] ==> Inv(obs, st, e, r.last) && r.last.open == []
    ensures r.path != [] ==> IsRoute(obs, r.path, st, e) && Distinct(r.path)
    decreases Weight(s.g, Unreached), Weight(s.g, Spent), |s.open|, 1
  {
    if s.open == [] then Outcome([], s) else Round(obs, st, e, s)
  }

  /** One round of the main loop on a non-empty frontier (main.py:126-143):
      popping the end gives the reversed parent chain; otherwise the popped
      cell is expanded and the loop goes on. */
  function Round(obs: seq<seq<bool>>, st: Cell, e: Cell, s: State): (r: Outcome)
    requires IsGrid(obs) && Inv(obs, st, e, s) && s.open != []
    ensures Core(obs, st, r.last)
    ensures r.path == [] ==> Inv(obs, st, e, r.last) && r.last.open == []
    ensures r.path != [] ==> IsRoute(obs, r.path, st, e) && Distinct(r.path)
    decreases Weight(s.g, Unreached), Weight(s.g, Spent), |s.open|, 0
  {
    var i := PopChoice(s, e);
    if s.open[i] == e then
      var p := Pop(s, i);
      PopKeepsCore(obs, st, s, i);
      ChainIsRoute(obs, st, p, e);
      Outcome(Reversed(Chain(obs, st, p, e)), p)
    else
      ExpandKeeps(obs, st, e, s, i);
      Run(obs, st, e, Expand(obs, s, i))
  }

  /** One round of the main loop, unfolded. */
  lemma RunStep(obs: seq<seq<bool>>, st: Cell, e: Cell, s: State)
    requires IsGrid(obs) && Inv(obs, st, e, s) && s.open != []
    ensures var i := PopChoice(s, e);
            && (s.open[i] == e ==> Core(obs, st, Pop(s, i))
                                   && Run(obs, st, e, s) == Outcome(Reversed(Chain(obs, st, Pop(s, i), e)), Pop(s, i)))
            && (s.open[i] != e ==> Inv(obs, st, e, Expand(obs, s, i))
                                   && Run(obs, st, e, s) == Run(obs, st, e, Expand(obs, s, i)))
  {
    var i := PopChoice(s, e);
    assert Run(obs, st, e, s) == Round(obs, st, e, s);
    if s.open[i] == e {
      PopKeepsCore(obs, st, s, i);
    } else {
      ExpandKeeps(obs, st, e, s, i);
    }
  }

  /** A whole call of `a_star`: reset, seed the start, run the loop. */
  function Solve(obs: seq<seq<bool>>, st: Cell, e: Cell): Outcome
    requires IsGrid(obs) && InBounds(st) && InBounds(e)
  {
    InitInv(obs, st, e);
    Run(obs, st, e, Init(st))
  }

  /** The path `a_star` returns for start st and end e on obstacle map obs.
      It reads nothing else: the scores left by an earlier call are reset. */
  function AStar(obs: seq<seq<bool>>, st: Cell, e: Cell): (r: seq<Cell>)
    requires IsGrid(obs) && InBounds(st) && InBounds(e)
    ensures r != [] ==> IsRoute(obs, r, st, e) && Distinct(r)
  {
    Solve(obs, st, e).path
  }

  /** A non-empty result runs from the start to the end by legal moves
      (the start may be an obstacle, no later cell is), repeats no cell, and
      has at least Manhattan distance plus one cells. */
  lemma AStarFindsRoute(obs: seq<seq<bool>>, st: Cell, e: Cell)
    requires IsGrid(obs) && InBounds(st) && InBounds(e)
    requires AStar(obs, st, e) != []
    ensures IsRoute(obs, AStar(obs, st, e), st, e)
    ensures Distinct(AStar(obs, st, e))
    ensures |AStar(obs, st, e)| >= Heuristic(st, e) + 1
    ensures forall k :: 0 <= k < |AStar(obs, st, e)| ==> InBounds(AStar(obs, st, e)[k])
    ensures forall k :: 0 < k < |AStar(obs, st, e)| ==> !Blocked(obs, AStar(obs, st, e)[k])
  {
    var w := AStar(obs, st, e);
    RouteLength(obs, w, st, e);
    forall k | 0 < k < |w|
      ensures !Blocked(obs, w[k])
    {
      assert Step(obs, w[k - 1], w[k]);
    }
  }

  /** In a finished search that found no path, every cell along any route
      from the start has been reached. */
  lemma {:induction false} ReachedAlong(obs: seq<seq<bool>>, st: Cell, e: Cell, s: State, w: seq<Cell>, k: nat)
    requires IsGrid(obs) && Inv(obs, st, e, s) && s.open == []
    requires IsRoute(obs, w, st, e) && k < |w|
    ensures InBounds(w[k]) && G(s, w[k]).Fin?
  {
    if k > 0 {
      ReachedAlong(obs, st, e, s, w, k - 1);
      var a := w[k - 1];
      assert Step(obs, a, w[k]);
      StepIsNeighbor(obs, a, w[k]);
      var ns := Neighbors(obs, a);
      var j :| 0 <= j < |ns| && ns[j] == w[k];
      assert Settled(obs, s, a);
    }
  }

  /** An empty result means there is no route at all: the search is complete. */
  lemma AStarNoRoute(obs: seq<seq<bool>>, st: Cell, e: Cell, w: seq<Cell>)
    requires IsGrid(obs) && InBounds(st) && InBounds(e)
    requires AStar(obs, st, e) == []
    ensures !IsRoute(obs, w, st, e)
  {
    var out := Solve(obs, st, e);
    if IsRoute(obs, w, st, e) {
      ReachedAlong(obs, st, e, out.last, w, |w| - 1);
      assert false;
    }
  }

  /** `a_star` returns `[]` exactly when no route joins the start to the end. */
  lemma AStarEmptyIffNoRoute(obs: seq<seq<bool>>, st: Cell, e: Cell)
    requires IsGrid(obs) && InBounds(st) && InBounds(e)
    ensures AStar(obs, st, e) != [] <==> exists w :: IsRoute(obs, w, st, e)
  {
    if AStar(obs, st, e) == [] {
      forall w
        ensures !IsRoute(obs, w, st, e)
      {
        AStarNoRoute(obs, st, e, w);
      }
    } else {
      assert IsRoute(obs, AStar(obs, st, e), st, e);
    }
  }

  /** When the start is the end, the first pop ends the search with the one-cell path. */
  lemma AStarSameCell(obs: seq<seq<bool>>, st: Cell)
    requires IsGrid(obs) && InBounds(st)
    ensures AStar(obs, st, st) == [st]
  {
    InitInv(obs, st, st);
    var s := Init(st);
    assert PopChoice(s, st) == 0;
    var p := Pop(s, 0);
    PopKeepsCore(obs, st, s, 0);
    assert Chain(obs, st, p, st) == [st];
  }
}

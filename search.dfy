/** The A* search state of `a_star` and one round of its main loop
    (main.py:32-43, 113-143).

    The source keeps `g`, `f` and `parent` on the grid's `Node` objects and
    the frontier in a `heapq` list. Here a `State` holds `g` and `parent` as
    `[x][y]` grids and the frontier as a duplicate-free sequence; `f` is
    always `g + heuristic`, so it is computed rather than stored. The heap is
    abstracted: every lemma about one round holds whichever frontier element
    is popped, and `PopChoice` fixes one choice, the model's pop rule: the
    first element of least `f`. */
module Search {
  import opened Options
  import opened Grid

  /** A `g` or `f` score: the source's `float('inf')`, or a finite number of unit steps. */
  datatype Cost = Inf | Fin(n: nat)

  /** The source's `<` on scores; `inf < inf` is false. */
  predicate Less(a: Cost, b: Cost) {
    a.Fin? && (b.Inf? || a.n < b.n)
  }

  /** `a <= b` on scores. */
  predicate AtMost(a: Cost, b: Cost) {
    b.Inf? || (a.Fin? && a.n <= b.n)
  }

  /** The `f` the source stores beside a `g` of gc on cell c, for target e. */
  function FOf(gc: Cost, c: Cell, e: Cell): Cost {
    match gc
    case Inf => Inf
    case Fin(n) => Fin(n + Heuristic(c, e))
  }

  datatype State = State(g: seq<seq<Cost>>, parent: seq<seq<Option<Cell>>>, open: seq<Cell>)

  predicate Shaped(s: State) {
    && |s.g| == Width && |s.parent| == Width
    && forall x :: 0 <= x < Width ==> |s.g[x]| == Height && |s.parent[x]| == Height
  }

  function G(s: State, c: Cell): Cost
    requires Shaped(s) && InBounds(c)
  {
    s.g[c.x][c.y]
  }

  function Par(s: State, c: Cell): Option<Cell>
    requires Shaped(s) && InBounds(c)
  {
    s.parent[c.x][c.y]
  }

  /** The grid m with cell c set to v. */
  function Put<T>(m: seq<seq<T>>, c: Cell, v: T): (r: seq<seq<T>>)
    requires 0 <= c.x < |m| && 0 <= c.y < |m[c.x]|
    ensures |r| == |m| && forall x :: 0 <= x < |m| ==> |r[x]| == |m[x]|
    ensures forall x, y :: 0 <= x < |m| && 0 <= y < |m[x]| ==>
              r[x][y] == if x == c.x && y == c.y then v else m[x][y]
  {
    m[c.x := m[c.x][c.y := v]]
  }

  // ---------------------------------------------------------------------
  // The invariant of the search loop
  // ---------------------------------------------------------------------

  /** Every frontier cell is on the board, has a finite `g`, and appears once
      (the `neighbor not in open_set` test, main.py:141). */
  ghost predicate OpenOk(s: State)
    requires Shaped(s)
  {
    && Distinct(s.open)
    && forall k :: 0 <= k < |s.open| ==> InBounds(s.open[k]) && G(s, s.open[k]).Fin?
  }

  /** A parent link: the parent is one legal move before c and has a smaller `g`. */
  ghost predicate Linked(obs: seq<seq<bool>>, s: State, c: Cell)
    requires IsGrid(obs) && Shaped(s) && InBounds(c) && Par(s, c).Some?
  {
    var p := Par(s, c).value;
    Step(obs, p, c) && G(s, c).Fin? && G(s, p).Fin? && G(s, p).n < G(s, c).n
  }

  /** What holds of every state the search reaches, also right after a pop:
      the frontier is sound, the start keeps `g == 0` and no parent, every
      parent link is a legal move to a cell of larger `g`, and every other
      reached cell has a parent. */
  ghost predicate Core(obs: seq<seq<bool>>, st: Cell, s: State)
    requires IsGrid(obs)
  {
    && Shaped(s) && InBounds(st) && OpenOk(s)
    && G(s, st) == Fin(0) && Par(s, st).None?
    && (forall c {:trigger Linked(obs, s, c)} :: InBounds(c) && Par(s, c).Some? ==> Linked(obs, s, c))
    && (forall c :: InBounds(c) && G(s, c).Fin? && c != st ==> Par(s, c).Some?)
  }

  /** Cell c has been expanded: each of its neighbours has a `g` at most one more than c's. */
  ghost predicate Settled(obs: seq<seq<bool>>, s: State, c: Cell)
    requires IsGrid(obs) && Shaped(s) && InBounds(c) && G(s, c).Fin?
  {
    var ns := Neighbors(obs, c);
    forall k :: 0 <= k < |ns| ==> G(s, ns[k]).Fin? && G(s, ns[k]).n <= G(s, c).n + 1
  }

  /** Every reached cell off the frontier, except possibly `skip`, has been expanded. */
  ghost predicate ClosedExcept(obs: seq<seq<bool>>, s: State, skip: Option<Cell>)
    requires IsGrid(obs) && Shaped(s)
  {
    forall c {:trigger Settled(obs, s, c)} :: InBounds(c) && G(s, c).Fin? && c !in s.open && Some(c) != skip ==> Settled(obs, s, c)
  }

  /** The loop invariant at the top of `while open_set`: besides `Core`, every
      reached cell off the frontier is expanded, and a reached end is on the
      frontier (it leaves it only by being popped, which ends the search). */
  ghost predicate Inv(obs: seq<seq<bool>>, st: Cell, e: Cell, s: State)
    requires IsGrid(obs)
  {
    && Core(obs, st, s) && InBounds(e) && ClosedExcept(obs, s, None)
    && (G(s, e).Fin? ==> e in s.open)
  }

  // ---------------------------------------------------------------------
  // Seeding, popping and relaxing
  // ---------------------------------------------------------------------

  /** The state after the reset loop and the seeding of the start (main.py:114-123). */
  function Init(st: Cell): (s: State)
    requires InBounds(st)
    ensures Shaped(s) && s.open == [st]
    ensures forall c :: InBounds(c) ==> G(s, c) == (if c == st then Fin(0) else Inf) && Par(s, c).None?
  {
    State(Put(seq(Width, _ => seq(Height, _ => Inf)), st, Fin(0)),
          seq(Width, _ => seq(Height, _ => None)),
          [st])
  }

  /** The seeded state satisfies the loop invariant. */
  lemma InitInv(obs: seq<seq<bool>>, st: Cell, e: Cell)
    requires IsGrid(obs) && InBounds(st) && InBounds(e)
    ensures Inv(obs, st, e, Init(st))
  {
    var s := Init(st);
    assert forall c :: InBounds(c) && c != st ==> G(s, c) == Inf;
  }

  /** Removing the frontier element at index i. */
  function Pop(s: State, i: nat): (r: State)
    requires i < |s.open|
    ensures r.g == s.g && r.parent == s.parent && |r.open| == |s.open| - 1
  {
    s.(open := s.open[..i] + s.open[i + 1..])
  }

  lemma PopOpen(s: State, i: nat)
    requires Shaped(s) && OpenOk(s) && i < |s.open|
    ensures forall c :: c in Pop(s, i).open <==> c in s.open && c != s.open[i]
    ensures Shaped(Pop(s, i)) && OpenOk(Pop(s, i))
  {
    var r := Pop(s, i);
    assert forall k :: 0 <= k < |r.open| ==> r.open[k] == if k < i then s.open[k] else s.open[k + 1];
    forall c | c in s.open && c != s.open[i]
      ensures c in r.open
    {
      var k :| 0 <= k < |s.open| && s.open[k] == c;
      assert r.open[if k < i then k else k - 1] == c;
    }
  }

  /** Popping any frontier element keeps `Core`. */
  lemma PopKeepsCore(obs: seq<seq<bool>>, st: Cell, s: State, i: nat)
    requires IsGrid(obs) && Core(obs, st, s) && i < |s.open|
    ensures Core(obs, st, Pop(s, i))
  {
    PopOpen(s, i);
    var r := Pop(s, i);
    forall c | InBounds(c) && Par(r, c).Some?
      ensures Linked(obs, r, c)
    {
      assert Linked(obs, s, c);
    }
  }

  /** One pass of the relaxation loop body for neighbour nb of cur (main.py:136-142):
      with unit cost, a strictly better `g` sets the parent, `g` and `f`, and
      pushes nb unless it is already on the frontier. */
  function Relax(s: State, cur: Cell, nb: Cell): (r: State)
    requires Shaped(s) && InBounds(cur) && InBounds(nb) && G(s, cur).Fin?
    ensures Shaped(r) && G(r, cur) == G(s, cur)
    ensures !Less(Fin(G(s, cur).n + 1), G(s, nb)) ==> r == s
  {
    var tentative := G(s, cur).n + 1;
    if Less(Fin(tentative), G(s, nb)) then
      State(Put(s.g, nb, Fin(tentative)),
            Put(s.parent, nb, Some(cur)),
            if nb in s.open then s.open else s.open + [nb])
    else s
  }

  /** The relaxation loop over the neighbour list nbs, in order. */
  function RelaxAll(s: State, cur: Cell, nbs: seq<Cell>): (r: State)
    requires Shaped(s) && InBounds(cur) && G(s, cur).Fin?
    requires forall k :: 0 <= k < |nbs| ==> InBounds(nbs[k])
    ensures Shaped(r) && G(r, cur) == G(s, cur)
    decreases |nbs|
  {
    if nbs == [] then s
    else Relax(RelaxAll(s, cur, nbs[..|nbs| - 1]), cur, nbs[|nbs| - 1])
  }

  /** Relaxing the first k + 1 neighbours is relaxing the first k, then the next. */
  lemma RelaxAllPrefix(s: State, cur: Cell, nbs: seq<Cell>, k: nat)
    requires Shaped(s) && InBounds(cur) && G(s, cur).Fin?
    requires forall j :: 0 <= j < |nbs| ==> InBounds(nbs[j])
    requires k < |nbs|
    ensures RelaxAll(s, cur, nbs[..k + 1]) == Relax(RelaxAll(s, cur, nbs[..k]), cur, nbs[k])
  {
    assert nbs[..k + 1][..k] == nbs[..k];
  }

  /** One round of the main loop that does not reach the end: pop the element
      at index i and relax all its neighbours. */
  function Expand(obs: seq<seq<bool>>, s: State, i: nat): (r: State)
    requires IsGrid(obs) && Shaped(s) && OpenOk(s) && i < |s.open|
    ensures Shaped(r) && G(r, s.open[i]) == G(s, s.open[i])
  {
    var cur := s.open[i];
    RelaxAll(Pop(s, i), cur, Neighbors(obs, cur))
  }

  // ---------------------------------------------------------------------
  // Which element is popped
  // ---------------------------------------------------------------------

  /** The `f` scores of the cells cs. */
  function FValues(s: State, cs: seq<Cell>, e: Cell): (fs: seq<nat>)
    requires Shaped(s) && forall k :: 0 <= k < |cs| ==> InBounds(cs[k]) && G(s, cs[k]).Fin?
    ensures |fs| == |cs|
    ensures forall k :: 0 <= k < |cs| ==> fs[k] == G(s, cs[k]).n + Heuristic(cs[k], e)
  {
    if cs == [] then [] else [G(s, cs[0]).n + Heuristic(cs[0], e)] + FValues(s, cs[1..], e)
  }

  /** The index of the first least element of fs. */
  function FirstMin(fs: seq<nat>): (i: nat)
    requires |fs| > 0
    ensures i < |fs|
    ensures forall j :: 0 <= j < |fs| ==> fs[i] <= fs[j]
    ensures forall j :: 0 <= j < i ==> fs[i] < fs[j]
  {
    if |fs| == 1 then 0
    else
      var b := FirstMin(fs[..|fs| - 1]);
      if fs[|fs| - 1] < fs[b] then |fs| - 1 else b
  }

  /** The model's pop rule for `heappop` (main.py:126, with the order of
      `Node.__lt__`, main.py:42-43): the first frontier element of least `f`.
      The heap itself may pick another element of least `f`, or, once line
      140 has lowered an `f` inside the heap, not a least one at all. */
  function PopChoice(s: State, e: Cell): (i: nat)
    requires Shaped(s) && OpenOk(s) && |s.open| > 0
    ensures i < |s.open|
  {
    FirstMin(FValues(s, s.open, e))
  }

  // ---------------------------------------------------------------------
  // The termination measure
  // ---------------------------------------------------------------------

  function Unreached(c: Cost): nat {
    if c.Inf? then 1 else 0
  }

  function Spent(c: Cost): nat {
    if c.Fin? then c.n else 0
  }

  function RowWeight(row: seq<Cost>, w: Cost -> nat): nat {
    if row == [] then 0 else w(row[0]) + RowWeight(row[1..], w)
  }

  function Weight(g: seq<seq<Cost>>, w: Cost -> nat): nat {
    if g == [] then 0 else RowWeight(g[0], w) + Weight(g[1..], w)
  }

  lemma {:induction false} RowWeightPut(row: seq<Cost>, y: nat, v: Cost, w: Cost -> nat)
    requires y < |row|
    ensures RowWeight(row[y := v], w) + w(row[y]) == RowWeight(row, w) + w(v)
  {
    if y == 0 {
      assert row[y := v][1..] == row[1..];
    } else {
      RowWeightPut(row[1..], y - 1, v, w);
      assert row[y := v][1..] == row[1..][y - 1 := v];
    }
  }

  lemma {:induction false} WeightPut(g: seq<seq<Cost>>, c: Cell, v: Cost, w: Cost -> nat)
    requires 0 <= c.x < |g| && 0 <= c.y < |g[c.x]|
    ensures Weight(Put(g, c, v), w) + w(g[c.x][c.y]) == Weight(g, w) + w(v)
    decreases c.x
  {
    if c.x == 0 {
      RowWeightPut(g[0], c.y, v, w);
      assert Put(g, c, v)[1..] == g[1..];
    } else {
      WeightPut(g[1..], Cell(c.x - 1, c.y), v, w);
      assert Put(g, c, v)[1..] == Put(g[1..], Cell(c.x - 1, c.y), v);
    }
  }

  /** Search progress: fewer unreached cells, or as many and a smaller sum of finite `g`. */
  predicate LexLess(a: seq<seq<Cost>>, b: seq<seq<Cost>>) {
    || Weight(a, Unreached) < Weight(b, Unreached)
    || (Weight(a, Unreached) == Weight(b, Unreached) && Weight(a, Spent) < Weight(b, Spent))
  }

  // ---------------------------------------------------------------------
  // One round keeps the invariant and makes progress
  // ---------------------------------------------------------------------

  /** The facts that hold while the neighbours of cur are being relaxed. */
  ghost predicate Relaxing(obs: seq<seq<bool>>, st: Cell, e: Cell, s: State, cur: Cell)
    requires IsGrid(obs)
  {
    && Core(obs, st, s) && InBounds(e) && ClosedExcept(obs, s, Some(cur))
    && (G(s, e).Fin? ==> e in s.open)
    && InBounds(cur) && G(s, cur).Fin? && cur !in s.open
  }

  /** What a relaxation that improves nb's score changes: nb's `g` and parent, and the frontier. */
  lemma RelaxUpdates(s: State, cur: Cell, nb: Cell)
    requires Shaped(s) && InBounds(cur) && InBounds(nb) && G(s, cur).Fin?
    requires Less(Fin(G(s, cur).n + 1), G(s, nb))
    ensures var r := Relax(s, cur, nb);
            && (forall c :: InBounds(c) ==> G(r, c) == if c == nb then Fin(G(s, cur).n + 1) else G(s, c))
            && (forall c :: InBounds(c) ==> Par(r, c) == if c == nb then Some(cur) else Par(s, c))
            && (forall c :: c in r.open <==> c in s.open || c == nb)
            && (Distinct(s.open) ==> Distinct(r.open))
  {
  }

  lemma RelaxKeepsCore(obs: seq<seq<bool>>, st: Cell, e: Cell, s: State, cur: Cell, nb: Cell)
    requires IsGrid(obs) && Relaxing(obs, st, e, s, cur) && Step(obs, cur, nb)
    requires Less(Fin(G(s, cur).n + 1), G(s, nb))
    ensures Core(obs, st, Relax(s, cur, nb))
  {
    var r := Relax(s, cur, nb);
    RelaxUpdates(s, cur, nb);
    assert nb != st;
    forall c | InBounds(c) && Par(r, c).Some?
      ensures Linked(obs, r, c)
    {
      if c != nb {
        assert Linked(obs, s, c);
      }
    }
    forall k | 0 <= k < |r.open|
      ensures InBounds(r.open[k]) && G(r, r.open[k]).Fin?
    {
      if k < |s.open| {
        assert r.open[k] == s.open[k];
      }
    }
  }

  lemma RelaxKeepsClosed(obs: seq<seq<bool>>, st: Cell, e: Cell, s: State, cur: Cell, nb: Cell)
    requires IsGrid(obs) && Relaxing(obs, st, e, s, cur) && Step(obs, cur, nb)
    requires Less(Fin(G(s, cur).n + 1), G(s, nb))
    ensures ClosedExcept(obs, Relax(s, cur, nb), Some(cur))
  {
    var r := Relax(s, cur, nb);
    RelaxUpdates(s, cur, nb);
    forall c | InBounds(c) && G(r, c).Fin? && c !in r.open && Some(c) != Some(cur)
      ensures Settled(obs, r, c)
    {
      assert c != nb && c !in s.open;
      assert Settled(obs, s, c);
    }
  }

  /** Relaxing one neighbour keeps the facts, raises no score, leaves the
      neighbour at most one step more costly than cur, and either changes
      nothing or makes progress. */
  lemma RelaxKeeps(obs: seq<seq<bool>>, st: Cell, e: Cell, s: State, cur: Cell, nb: Cell)
    requires IsGrid(obs) && Relaxing(obs, st, e, s, cur) && Step(obs, cur, nb)
    ensures var r := Relax(s, cur, nb);
            && Relaxing(obs, st, e, r, cur)
            && G(r, nb).Fin? && G(r, nb).n <= G(s, cur).n + 1
            && (forall c :: InBounds(c) ==> AtMost(G(r, c), G(s, c)))
            && (r == s || LexLess(r.g, s.g))
  {
    var r := Relax(s, cur, nb);
    var t := G(s, cur).n + 1;
    if Less(Fin(t), G(s, nb)) {
      RelaxUpdates(s, cur, nb);
      RelaxKeepsCore(obs, st, e, s, cur, nb);
      RelaxKeepsClosed(obs, st, e, s, cur, nb);
      assert nb != cur;
      WeightPut(s.g, nb, Fin(t), Unreached);
      WeightPut(s.g, nb, Fin(t), Spent);
    }
  }

  lemma {:induction false} RelaxAllKeeps(obs: seq<seq<bool>>, st: Cell, e: Cell, s: State, cur: Cell, nbs: seq<Cell>)
    requires IsGrid(obs) && Relaxing(obs, st, e, s, cur)
    requires forall k :: 0 <= k < |nbs| ==> InBounds(nbs[k]) && Step(obs, cur, nbs[k])
    ensures var r := RelaxAll(s, cur, nbs);
            && Relaxing(obs, st, e, r, cur)
            && (forall k :: 0 <= k < |nbs| ==> G(r, nbs[k]).Fin? && G(r, nbs[k]).n <= G(s, cur).n + 1)
            && (forall c :: InBounds(c) ==> AtMost(G(r, c), G(s, c)))
            && (r == s || LexLess(r.g, s.g))
    decreases |nbs|
  {
    if nbs != [] {
      var front := nbs[..|nbs| - 1];
      var last := nbs[|nbs| - 1];
      RelaxAllKeeps(obs, st, e, s, cur, front);
      var r0 := RelaxAll(s, cur, front);
      RelaxKeeps(obs, st, e, r0, cur, last);
      var r := Relax(r0, cur, last);
      assert RelaxAll(s, cur, nbs) == r;
      forall k | 0 <= k < |nbs|
        ensures G(r, nbs[k]).Fin? && G(r, nbs[k]).n <= G(s, cur).n + 1
      {
        if k < |nbs| - 1 {
          assert nbs[k] == front[k];
          assert AtMost(G(r, nbs[k]), G(r0, nbs[k]));
        }
      }
    }
  }

  /** One round that pops any frontier element other than the end keeps the
      loop invariant and decreases (unreached cells, sum of finite `g`,
      frontier size) lexicographically. */
  lemma ExpandKeeps(obs: seq<seq<bool>>, st: Cell, e: Cell, s: State, i: nat)
    requires IsGrid(obs) && Inv(obs, st, e, s) && i < |s.open| && s.open[i] != e
    ensures Inv(obs, st, e, Expand(obs, s, i))
    ensures var r := Expand(obs, s, i);
            || Weight(r.g, Unreached) < Weight(s.g, Unreached)
            || (Weight(r.g, Unreached) == Weight(s.g, Unreached) && Weight(r.g, Spent) < Weight(s.g, Spent))
            || (r.g == s.g && |r.open| < |s.open|)
  {
    var cur := s.open[i];
    var p := Pop(s, i);
    PopOpen(s, i);
    PopKeepsCore(obs, st, s, i);
    forall c | InBounds(c) && G(p, c).Fin? && c !in p.open && Some(c) != Some(cur)
      ensures Settled(obs, p, c)
    {
      assert Settled(obs, s, c);
    }
    var ns := Neighbors(obs, cur);
    NeighborsSpec(obs, cur);
    assert forall k :: 0 <= k < |ns| ==> ns[k] in ns;
    RelaxAllKeeps(obs, st, e, p, cur, ns);
    var r := Expand(obs, s, i);
    assert Settled(obs, r, cur);
  }

  // ---------------------------------------------------------------------
  // Following parent links
  // ---------------------------------------------------------------------

  /** The cells the reconstruction loop visits from c (main.py:130-132):
      c, its parent, its parent's parent, ..., down to the start. */
  function Chain(obs: seq<seq<bool>>, st: Cell, s: State, c: Cell): (w: seq<Cell>)
    requires IsGrid(obs) && Core(obs, st, s) && InBounds(c) && G(s, c).Fin?
    ensures |w| >= 1 && w[0] == c && w[|w| - 1] == st
    ensures forall k :: 0 <= k < |w| ==> InBounds(w[k]) && G(s, w[k]).Fin?
    ensures forall k :: 0 <= k < |w| - 1 ==> Step(obs, w[k + 1], w[k])
    ensures forall i, j :: 0 <= i < j < |w| ==> G(s, w[j]).n < G(s, w[i]).n
    decreases G(s, c).n
  {
    match Par(s, c)
    case None => [c]
    case Some(p) =>
      assert Linked(obs, s, c);
      [c] + Chain(obs, st, s, p)
  }

  /** One step of the reconstruction loop: the chain from c is c followed by
      the chain from c's parent, whose `g` is smaller; a cell without a
      parent ends the chain. */
  lemma ChainStep(obs: seq<seq<bool>>, st: Cell, s: State, c: Cell)
    requires IsGrid(obs) && Core(obs, st, s) && InBounds(c) && G(s, c).Fin?
    ensures Par(s, c).None? ==> Chain(obs, st, s, c) == [c]
    ensures Par(s, c).Some? ==>
              var p := Par(s, c).value;
              && InBounds(p) && G(s, p).Fin? && G(s, p).n < G(s, c).n
              && Chain(obs, st, s, c) == [c] + Chain(obs, st, s, p)
  {
    if Par(s, c).Some? {
      assert Linked(obs, s, c);
    }
  }

  /** The reversed chain from a reached cell is a route from the start to it that repeats no cell. */
  lemma ChainIsRoute(obs: seq<seq<bool>>, st: Cell, s: State, c: Cell)
    requires IsGrid(obs) && Core(obs, st, s) && InBounds(c) && G(s, c).Fin?
    ensures IsRoute(obs, Reversed(Chain(obs, st, s, c)), st, c)
    ensures Distinct(Reversed(Chain(obs, st, s, c)))
  {
    var w := Chain(obs, st, s, c);
    ReversedRoute(obs, st, c, w);
    assert Distinct(w);
    ReversedDistinct(w);
  }

  /** Reversing a chain of legal backward moves from c to st gives a route from st to c. */
  lemma ReversedRoute(obs: seq<seq<bool>>, st: Cell, c: Cell, w: seq<Cell>)
    requires IsGrid(obs) && |w| >= 1 && w[0] == c && w[|w| - 1] == st && InBounds(st)
    requires forall k :: 0 <= k < |w| - 1 ==> Step(obs, w[k + 1], w[k])
    ensures IsRoute(obs, Reversed(w), st, c)
  {
    var r := Reversed(w);
    var n := |w|;
    forall k | 0 <= k < n - 1
      ensures Step(obs, r[k], r[k + 1])
    {
      var j := n - 2 - k;
      assert Step(obs, w[j + 1], w[j]);
      assert r[k] == w[j + 1] && r[k + 1] == w[j];
    }
  }
}

# Drone delivery pathfinding, modelled in Dafny

The program is a small grid game. The user marks a start cell, an end cell and obstacles on a
board of 10 columns by 7 rows (`GRID_WIDTH = 400 // 40`, `GRID_HEIGHT = (450 - 150) // 40`,
main.py:24-25). The Run button searches for a route with A* and then plays the
drone along the route one cell per pass of the main loop. A short completion animation
follows. This project models the logic of `main.py`:

- **the board and its edits**: `handle_click` with the Start, End and Obstacle tools, and
  `reset_grid`;
- **the A\* pathfinder**: `neighbors`, `heuristic` and `a_star`, including the reset of every
  node's `g`, `f` and `parent`, the seeding, the pop, the relaxation with unit cost, the
  duplicate-free push and the reconstruction of the path from `parent` links;
- **the Run button and the playback**: the Run branch of `handle_buttons`, and the drone step
  and completion-animation step of the main loop.

Layout:

- `options.dfy` (`Options`): the `Option` type.
- `grid.dfy` (`Grid`): dimensions, cells, the Manhattan heuristic, the neighbour order, and
  routes.
- `editor.dfy` (`Editor`): what a click or a reset does to the user's design, as values.
- `search.dfy` (`Search`): the search state, the loop invariant, one round of the loop, the
  termination measure, and parent chains.
- `pathfinder.dfy` (`Pathfinder`): `a_star` as a function of the obstacle map, with its
  soundness and completeness theorems.
- `playback.dfy` (`Playback`): the Run button's effect on the playback globals and the
  main-loop step, as values, with the replay theorems.
- `board.dfy` (`Game`): class `Board`. It holds the state the source keeps in module globals
  and `Node` objects. The node fields become `array2` fields indexed `[x, y]`: `obstacle`,
  `g`, `f` and `parent`. The methods update that state in place, as the source does. Most of them
  are proved against the functional definitions above. `ClearObstacles` and `ClearSearch`
  are proved cell by cell instead; their callers `ResetGrid` and `Seed` are proved against
  `Editor.Cleared` and `Search.Init`.

Key facts that are proved:

- A non-empty result of `a_star` is a route from the start to the end. Every move in it is one
  orthogonal step onto a passable cell. No cell repeats. Its length is at least the Manhattan
  distance plus one.
- The result is empty exactly when no such route exists.
- The search terminates. The measure is, in lexicographic order: unreached cells, then the sum
  of finite `g`, then the frontier size.
- The in-place search computes the same path as the functional one. That path depends only on
  the obstacle map and the two cells, so two searches on an unchanged board agree.
- During playback, the visited cells followed by the remaining cells are always the route. An
  N-cell route is finished after N passes, because the start cell is the first one popped
  (main.py:170-171, 199-202).

## Model

| member | source | states |
|---|---|---|
| Grid.Heuristic | main.py:110-111 | the Manhattan distance is zero exactly when the two cells coincide |
| Grid.HeuristicSymmetric | main.py:110-111 | the heuristic is symmetric |
| Grid.HeuristicConsistent | main.py:110-111 | between orthogonally adjacent cells the heuristic to any target differs by at most one |
| Grid.NeighborsUpTo | main.py:102-107 | after trying the first m directions, the list holds exactly the passable cells among them, in direction order, each at most once |
| Grid.Neighbors | main.py:101-108 | `neighbors` returns at most four cells, each on the board and not an obstacle; adjacency, completeness and order are stated by `Grid.NeighborsSpec` |
| Grid.NeighborsSpec | main.py:101-108 | `neighbors` returns at most four cells: exactly the in-bounds non-obstacle cells at distance one, each once, in the order (0,1), (1,0), (0,-1), (-1,0) |
| Grid.StepIsNeighbor | main.py:101-108 | a legal move from an on-board cell is exactly a move to one of its `neighbors` |
| Grid.Reversed | main.py:133 | `path[::-1]` has the same length, with element k taken from position len-1-k |
| Editor.EmptyGrid | main.py:180-182 | the obstacle map at start-up and after a reset covers the board and has no obstacle |
| Editor.Cleared | main.py:179-182 | after a reset there is no start, no end and no obstacle |
| Editor.Toggle | main.py:156 | the obstacle tool flips the clicked cell's flag and no other |
| Editor.CellAt | main.py:147 | `pos // GRID_SIZE`: the clicked pixel lies inside the 40-pixel square of the cell returned |
| Editor.Click | main.py:145-156 | a click keeps the design valid (start and end on the board); its effects are stated by `Editor.ClickOutsideIgnored`, `Editor.ClickPlaces`, `Editor.ClickFlips` and `Editor.ClickTwiceRestores` |
| Editor.ClickOutsideIgnored | main.py:147-149 | a click right of or below the grid changes nothing |
| Editor.ClickPlaces | main.py:151-156 | the Start and End tools replace only `start` or `end`, respectively, with the clicked cell; with no tool selected, an on-board click changes nothing |
| Editor.ClickFlips | main.py:155-156 | the Obstacle tool flips exactly the clicked cell and keeps start and end |
| Editor.ClickTwiceRestores | main.py:155-156 | two Obstacle clicks on the same spot restore the design |
| Search.InitInv | main.py:114-123 | after the reset and the seeding, the loop invariant holds |
| Search.Init | main.py:114-123 | after the reset and the seeding, the start alone is reached, with `g` 0; every other cell has `g` infinite; no cell has a parent; the frontier is `[start]` |
| Search.PopOpen | main.py:126 | removing one frontier element keeps the frontier duplicate-free and removes exactly that cell |
| Search.PopKeepsCore | main.py:126 | popping any frontier element keeps the parent-link and frontier invariant |
| Search.Pop | main.py:126 | removing the popped element from the frontier keeps `g` and `parent` and shortens the frontier by one; membership is stated by `Search.PopOpen` |
| Search.Relax | main.py:136-142 | one relaxation keeps the current cell's `g`, and changes nothing when the tentative score is not strictly smaller; the improving case is stated by `Search.RelaxUpdates` and `Search.RelaxKeeps` |
| Search.RelaxAll | main.py:135-142 | relaxing the neighbour list in order keeps the grids full-size and the current cell's `g`; the invariant is stated by `Search.RelaxAllKeeps` |
| Search.RelaxUpdates | main.py:136-142 | a successful relaxation changes exactly the neighbour's `g` and parent, and adds it to the frontier unless it is there already |
| Search.RelaxKeeps | main.py:136-142 | relaxing one neighbour keeps the invariant, raises no `g`, leaves the neighbour at most one more than the current cell, and either changes nothing or lowers the measure |
| Search.RelaxAllKeeps | main.py:135-142 | relaxing all neighbours in turn keeps the invariant and reaches each neighbour with `g` at most one more than the current cell |
| Search.ExpandKeeps | main.py:125-142 | a round that pops any non-end frontier cell and relaxes its neighbours keeps the loop invariant and lowers the termination measure |
| Search.Expand | main.py:135-142 | a round that pops the cell at index i and relaxes its neighbours leaves that cell's `g` unchanged; the invariant and the progress are stated by `Search.ExpandKeeps` |
| Search.FirstMin | main.py:126 | the index chosen is that of a least `f`, and the first such index |
| Search.PopChoice | main.py:126 | the model's pop rule picks a frontier index, the one `Search.FirstMin` gives for the frontier's `f` scores |
| Search.Chain | main.py:129-132 | the cells visited by following `parent` from a reached cell end at the start, are legal backward moves, and have strictly decreasing `g` (so parents are acyclic) |
| Search.ChainStep | main.py:130-132 | one step of the reconstruction loop: a cell without parent ends the chain; otherwise the chain continues from a parent with smaller `g` |
| Search.ChainIsRoute | main.py:129-133 | the reversed parent chain is a route from the start, with no repeated cell |
| Pathfinder.Run | main.py:125-143 | the main loop: a non-empty result is a route from start to end with no repeated cell; an empty result leaves an empty frontier with the invariant intact |
| Pathfinder.Round | main.py:126-142 | one round on a non-empty frontier keeps the same guarantees as the loop |
| Pathfinder.RunStep | main.py:125-142 | popping the end returns the reversed chain; popping another cell continues the loop from the expanded state |
| Pathfinder.AStar | main.py:113-143 | a whole call of `a_star`, a function of the obstacle map and the two cells only: a non-empty result is a route from start to end with no repeated cell |
| Pathfinder.AStarFindsRoute | main.py:113-143 | a non-empty result runs start to end in bounds by orthogonal steps; no cell after the first is an obstacle; no cell repeats; its length is at least Manhattan distance plus one |
| Pathfinder.AStarNoRoute | main.py:125-143 | an empty result means no route exists |
| Pathfinder.AStarEmptyIffNoRoute | main.py:113-143 | the result is empty if and only if no route joins start and end |
| Pathfinder.AStarSameCell | main.py:121-133 | with start equal to end the result is exactly `[start]` |
| Playback.LaunchStartsReplay | main.py:169-173 | after a Run that found a route, the drone is on the start and moving, the animation is off, and the route is all remaining |
| Playback.LaunchWithoutPath | main.py:165-169 | a Run that found nothing empties both lists and leaves the drone position and both flags alone |
| Playback.Launch | main.py:166-173 | after Run the remaining path is the search result, nothing is visited and the animation clock is kept; the drone and flags are stated by `Playback.LaunchStartsReplay` and `Playback.LaunchWithoutPath` |
| Playback.TickMoves | main.py:199-206 | a pass with cells ahead moves the drone onto the next cell and records it; taking the last cell stops the drone and starts the animation clock |
| Playback.TickKeepsReplay | main.py:199-202 | each pass keeps visited followed by remaining equal to the route, with the drone on the last visited cell |
| Playback.TicksKeepReplay | main.py:199-202 | any number of passes keeps that invariant |
| Playback.ReplayProgress | main.py:199-206 | k passes with k at most the remaining count move k cells from remaining to visited, and stop the drone exactly at the last one |
| Playback.RunThenArrive | main.py:199-206 | after a Run that found an N-cell route, N passes visit every cell in order, stop the drone on the end and start the animation |
| Playback.CelebrationEnds | main.py:208-211 | with the drone stopped, a pass only clears the animation, and only when more than 3000 ms have passed |
| Playback.Tick | main.py:199-211 | a pass keeps visited followed by remaining unchanged, only extends visited, by at most one cell, and either keeps the animation clock or stamps it with now |
| Game.Board.constructor | main.py:46-58 | the start-up state: no obstacle, no start or end, empty paths, drone absent and idle |
| Game.Board.HandleClick | main.py:145-156 | the board's design after the click is `Editor.Click` of the design before |
| Game.Board.ResetGrid | main.py:177-188 | no start or end, no obstacle, empty paths, no drone, both flags false; the animation clock kept |
| Game.Board.ClearObstacles | main.py:180-182 | the nested loop clears every obstacle flag |
| Game.Board.NeighborsOf | main.py:101-108 | the loop returns `Grid.Neighbors` of the current obstacle map |
| Game.Board.ClearSearch | main.py:114-118 | every node ends with `g` and `f` infinite and no parent |
| Game.Board.Seed | main.py:114-123 | the arrays hold the seeded initial search state, with `f` equal to `g` plus heuristic |
| Game.Board.PopIndex | main.py:126 | the scan returns the first frontier index of least stored `f` |
| Game.Board.Improve | main.py:138-140 | the improved neighbour gets the new parent, the new `g`, and `f` equal to `g` plus heuristic |
| Game.Board.RelaxOne | main.py:136-142 | one pass of the relaxation loop leaves the arrays and the frontier as `Search.Relax` describes |
| Game.Board.RelaxNeighbors | main.py:135-142 | the in-place relaxation loop leaves the arrays and the frontier as `Search.RelaxAll` describes |
| Game.Board.TracePath | main.py:129-133 | following `parent` from the end and reversing returns the reversed parent chain |
| Game.Board.ExpandCurrent | main.py:135-142 | expanding a popped non-end cell leaves the arrays and frontier as `Search.Expand` describes |
| Game.Board.Advance | main.py:125-142 | one pass of the loop either returns the path `Pathfinder.Run` returns, or moves to a state with the same outcome and a smaller measure |
| Game.Board.AStar | main.py:113-143 | the in-place search returns `Pathfinder.AStar` for the current obstacle map, whatever scores earlier searches left |
| Game.Board.Run | main.py:164-173 | with start and end set, the playback becomes `Playback.Launch` of the search result; otherwise nothing changes; the design is untouched |
| Game.Board.RunSearch | main.py:166-173 | clearing both lists, searching, and launching the result |
| Game.Board.Launch | main.py:169-173 | a non-empty result becomes the remaining path, with the drone on the start, moving, and no animation |
| Game.Board.Tick | main.py:199-211 | the playback globals after one pass are `Playback.Tick` of those before |

## Left out

- Drawing, fonts, colours, button rectangles, the event loop, `clock.tick`, `time.sleep` and
  `pygame` start-up are presentation and I/O; they are not modelled.
- The clock `pygame.time.get_ticks()` is the parameter `now` of `Tick`. The source reads it
  twice in one pass, at the stamp and at the 3000 ms test; the model uses one reading for both.
- `pulse_timer` and its sine colour pulse are cosmetic floating point; not modelled.
- `selected_tool` is a parameter of `HandleClick` rather than a field; the buttons that set it
  are not modelled. The unused globals `obstacles`, `status_message` and `running` are not
  modelled either.
- The mapping from a mouse event to `handle_click` or `handle_buttons` (by `pos[1] < HEIGHT - 150`) is not
  modelled; `HandleClick` accepts any non-negative pixel position and applies the source's own
  bounds test.
- `heapq` is not modelled. The frontier is a duplicate-free sequence, and the model's pop rule
  takes the first frontier element of least `f`. `heappop` can return another element for two
  reasons. Among cells of equal `f` it picks by heap position, not by order of insertion. And
  line 140 lowers `f` on a node already in the heap without a re-sift, so the heap order can
  break. The invariant and progress lemmas (`Search.PopKeepsCore`, `Search.ExpandKeeps`) hold
  for any popped element, so route validity, completeness and termination do not depend on the
  choice. Which route is returned among several does depend on it.
- Search.PopChoice: follows the model's pop rule above, not `heappop`'s heap positions.
- Pathfinder.AStar: optimality (a shortest route) is not claimed, because the heap order can
  break, as above.
- Game.Board.AStar: does not state the `g`, `f` and `parent` values the search leaves in the
  arrays, only the returned path; nothing in the program reads them before the next search resets
  them.
- Game.Board.Run: likewise leaves the final search scores unstated.
- Game.Board.RunSearch: likewise leaves the final search scores unstated; it is the body of `Run`.

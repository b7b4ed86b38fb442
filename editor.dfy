/** What a click on the board does to the design the user edits: the
    obstacle map and the start and end designations (main.py:145-156, 177-182). */
module Editor {
  import opened Options
  import opened Grid

  /** The three board tools; the source keeps the selected one in `selected_tool`. */
  datatype Tool = StartTool | EndTool | ObstacleTool

  /** The editable part of the board: obstacle flags and the optional start and end. */
  datatype Design = Design(obs: seq<seq<bool>>, start: Option<Cell>, end: Option<Cell>)

  predicate ValidDesign(d: Design) {
    && IsGrid(d.obs)
    && (d.start.Some? ==> InBounds(d.start.value))
    && (d.end.Some? ==> InBounds(d.end.value))
  }

  /** A board without obstacles, as built at start-up and by `reset_grid`. */
  function EmptyGrid(): (obs: seq<seq<bool>>)
    ensures IsGrid(obs)
    ensures forall c :: InBounds(c) ==> !Blocked(obs, c)
  {
    seq(Width, _ => seq(Height, _ => false))
  }

  /** The design after `reset_grid`: no obstacle, no start, no end. */
  function Cleared(): (d: Design)
    ensures ValidDesign(d) && d.start.None? && d.end.None?
    ensures forall c :: InBounds(c) ==> !Blocked(d.obs, c)
  {
    Design(EmptyGrid(), None, None)
  }

  /** The obstacle tool on cell c: flips c's flag and no other. */
  function Toggle(obs: seq<seq<bool>>, c: Cell): (r: seq<seq<bool>>)
    requires IsGrid(obs) && InBounds(c)
    ensures IsGrid(r)
    ensures Blocked(r, c) == !Blocked(obs, c)
    ensures forall d :: InBounds(d) && d != c ==> Blocked(r, d) == Blocked(obs, d)
  {
    obs[c.x := obs[c.x][c.y := !obs[c.x][c.y]]]
  }

  /** The cell under the pixel position (px, py): `pos // GRID_SIZE`. */
  function CellAt(px: nat, py: nat): (c: Cell)
    ensures 0 <= c.x && c.x * GridSize <= px < (c.x + 1) * GridSize
    ensures 0 <= c.y && c.y * GridSize <= py < (c.y + 1) * GridSize
  {
    Cell(px / GridSize, py / GridSize)
  }

  /** `handle_click`: a click outside the grid changes nothing; otherwise the
      selected tool places the start, places the end or flips an obstacle. */
  function Click(d: Design, tool: Option<Tool>, px: nat, py: nat): (r: Design)
    requires ValidDesign(d)
    ensures ValidDesign(r)
  {
    var c := CellAt(px, py);
    if c.x >= Width || c.y >= Height then d
    else
      match tool
      case Some(StartTool) => d.(start := Some(c))
      case Some(EndTool) => d.(end := Some(c))
      case Some(ObstacleTool) => d.(obs := Toggle(d.obs, c))
      case None => d
  }

  /** Clicks below or right of the grid are ignored. */
  lemma ClickOutsideIgnored(d: Design, tool: Option<Tool>, px: nat, py: nat)
    requires ValidDesign(d)
    requires px >= Width * GridSize || py >= Height * GridSize
    ensures Click(d, tool, px, py) == d
  {
  }

  /** The start and end tools replace only their own designation, with the
      clicked cell; with no tool selected a click changes nothing. */
  lemma ClickPlaces(d: Design, tool: Option<Tool>, px: nat, py: nat)
    requires ValidDesign(d) && InBounds(CellAt(px, py))
    ensures tool == Some(StartTool) ==>
              Click(d, tool, px, py) == Design(d.obs, Some(CellAt(px, py)), d.end)
    ensures tool == Some(EndTool) ==>
              Click(d, tool, px, py) == Design(d.obs, d.start, Some(CellAt(px, py)))
    ensures tool == None ==> Click(d, tool, px, py) == d
  {
  }

  /** The obstacle tool flips exactly the clicked cell and leaves start and end alone. */
  lemma ClickFlips(d: Design, px: nat, py: nat)
    requires ValidDesign(d) && InBounds(CellAt(px, py))
    ensures var r := Click(d, Some(ObstacleTool), px, py);
            && r.start == d.start && r.end == d.end
            && Blocked(r.obs, CellAt(px, py)) == !Blocked(d.obs, CellAt(px, py))
            && forall c :: InBounds(c) && c != CellAt(px, py) ==> Blocked(r.obs, c) == Blocked(d.obs, c)
  {
  }

  /** Two obstacle clicks on the same pixel restore the design. */
  lemma ClickTwiceRestores(d: Design, px: nat, py: nat)
    requires ValidDesign(d)
    ensures Click(Click(d, Some(ObstacleTool), px, py), Some(ObstacleTool), px, py) == d
  {
    var c := CellAt(px, py);
    if InBounds(c) {
      var twice := Toggle(Toggle(d.obs, c), c);
      assert twice[c.x] == d.obs[c.x];
      assert twice == d.obs;
    }
  }
}

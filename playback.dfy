/** The drone playback: what the Run button sets up after a search and what
    each pass of the main loop does with it (main.py:49-58, 164-173, 199-211).
    The clock (`pygame.time.get_ticks()`) is the parameter `now`. */
module Playback {
  import opened Options
  import opened Grid

  /** How long, in milliseconds, the completion animation lasts (main.py:210). */
  const CelebrationMillis: int := 3000

  /** The playback globals: `path` (cells still to visit), `completed_path`,
      `drone_pos`, `drone_moving`, `completion_animation`, `animation_timer`. */
  datatype Replay = Replay(path: seq<Cell>, completed: seq<Cell>, drone: Option<Cell>,
                           moving: bool, animating: bool, timer: int)

  /** The Run button once `a_star` has returned `result` for start st
      (main.py:166-173): both lists are cleared; only a non-empty result
      starts the drone at the start cell. */
  function Launch(v: Replay, result: seq<Cell>, st: Cell): (r: Replay)
    ensures r.path == result && r.completed == [] && r.timer == v.timer
  {
    if result == [] then v.(path := [], completed := [])
    else Replay(result, [], Some(st), true, false, v.timer)
  }

  /** One pass of the main loop at time now (main.py:199-211): a moving drone
      takes the next cell; taking the last one stops it and starts the
      animation clock; the animation stops once more than 3000 ms have passed. */
  function Tick(v: Replay, now: int): (r: Replay)
    ensures r.completed + r.path == v.completed + v.path
    ensures v.completed <= r.completed && |r.completed| <= |v.completed| + 1
    ensures r.timer == v.timer || r.timer == now
  {
    var stepped :=
      if v.moving && v.path != [] then
        var moved := v.(drone := Some(v.path[0]), path := v.path[1..], completed := v.completed + [v.path[0]]);
        assert moved.completed + moved.path == v.completed + v.path;
        if moved.path == [] then moved.(moving := false, animating := true, timer := now) else moved
      else v;
    if stepped.animating && now - stepped.timer > CelebrationMillis then stepped.(animating := false)
    else stepped
  }

  /** Successive passes of the main loop at the given times. */
  function Ticks(v: Replay, times: seq<int>): Replay
    decreases |times|
  {
    if times == [] then v else Ticks(Tick(v, times[0]), times[1..])
  }

  /** The playback invariant for a route: the visited cells followed by the
      remaining ones are the route, and the drone stands on the last visited
      cell, or on the route's first cell before the first pass. */
  ghost predicate Replaying(v: Replay, route: seq<Cell>) {
    && route != []
    && v.completed + v.path == route
    && v.drone == Some(if v.completed == [] then route[0] else v.completed[|v.completed| - 1])
  }

  /** A Run whose search returned a route from st starts a replay of it, with
      the drone moving and no animation. */
  lemma LaunchStartsReplay(v: Replay, route: seq<Cell>, st: Cell)
    requires route != [] && route[0] == st
    ensures Replaying(Launch(v, route, st), route)
    ensures Launch(v, route, st).moving && !Launch(v, route, st).animating
  {
  }

  /** A Run whose search found nothing clears both lists and leaves the drone
      position and both flags as they were. */
  lemma LaunchWithoutPath(v: Replay, st: Cell)
    ensures var r := Launch(v, [], st);
            && r.path == [] && r.completed == []
            && r.drone == v.drone && r.moving == v.moving && r.animating == v.animating
  {
  }

  /** Each pass keeps the playback invariant. */
  lemma TickKeepsReplay(v: Replay, route: seq<Cell>, now: int)
    requires Replaying(v, route)
    ensures Replaying(Tick(v, now), route)
  {
    if v.moving && v.path != [] {
      assert v.completed + [v.path[0]] + v.path[1..] == v.completed + v.path;
    }
  }

  lemma {:induction false} TicksKeepReplay(v: Replay, route: seq<Cell>, times: seq<int>)
    requires Replaying(v, route)
    ensures Replaying(Ticks(v, times), route)
    decreases |times|
  {
    if times != [] {
      TickKeepsReplay(v, route, times[0]);
      TicksKeepReplay(Tick(v, times[0]), route, times[1..]);
    }
  }

  /** A pass with the drone moving and cells ahead moves it onto the next
      one; taking the last cell stops it and starts the animation at now. */
  lemma TickMoves(v: Replay, now: int)
    requires v.moving && !v.animating && v.path != []
    ensures var r := Tick(v, now);
            && r.completed == v.completed + [v.path[0]] && r.path == v.path[1..]
            && r.drone == Some(v.path[0])
            && r.moving == (|v.path| > 1) && r.animating == (|v.path| == 1)
            && (|v.path| == 1 ==> r.timer == now)
  {
  }

  /** From a moving drone with k cells ahead, the first passes (at most k)
      each move it one cell along; the k-th stops it and starts the animation. */
  lemma {:induction false} ReplayProgress(v: Replay, times: seq<int>)
    requires v.moving && !v.animating && v.path != [] && |times| <= |v.path|
    ensures var r := Ticks(v, times);
            && r.completed == v.completed + v.path[..|times|]
            && r.path == v.path[|times|..]
            && (times != [] ==> r.drone == Some(v.path[|times| - 1]))
            && r.moving == (|times| < |v.path|)
            && r.animating == (|times| == |v.path|)
            && (|times| == |v.path| ==> r.timer == times[|times| - 1])
    decreases |times|
  {
    if times != [] {
      var v1 := Tick(v, times[0]);
      TickMoves(v, times[0]);
      if |v.path| == 1 {
        assert times[1..] == [];
      } else {
        ReplayProgress(v1, times[1..]);
        assert v.path[1..][..|times| - 1] == v.path[1..|times|];
        assert v.completed + [v.path[0]] + v.path[1..|times|] == v.completed + v.path[..|times|];
      }
    }
  }

  /** After a Run that found a route of n cells, n passes bring the drone to
      the route's last cell, with every cell visited in order, the drone
      stopped and the animation started at the last pass. */
  lemma RunThenArrive(v: Replay, route: seq<Cell>, st: Cell, times: seq<int>)
    requires route != [] && route[0] == st && |times| == |route|
    ensures var r := Ticks(Launch(v, route, st), times);
            && r.completed == route && r.path == []
            && r.drone == Some(route[|route| - 1])
            && !r.moving && r.animating && r.timer == times[|times| - 1]
  {
    var l := Launch(v, route, st);
    ReplayProgress(l, times);
    assert route[..|times|] == route;
  }

  /** Once the drone is not moving, a pass changes nothing but the animation
      flag, which it clears exactly when more than 3000 ms have passed since
      the animation started. */
  lemma CelebrationEnds(v: Replay, now: int)
    requires !(v.moving && v.path != [])
    ensures Tick(v, now) == v.(animating := v.animating && now - v.timer <= CelebrationMillis)
  {
  }
}

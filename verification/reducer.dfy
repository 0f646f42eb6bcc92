/**
 * The app's reducer (App.tsx, `reducer`) as a pure function from a state and an
 * action to the next state, and the discipline under which the tile buttons
 * dispatch actions.
 */
module Reducer {
  import opened Levels
  import opened Generation

  /** The reducer's state holds only the current level. */
  datatype State = State(level: Level)

  /** `START_NEW_LEVEL` carries the draws its `generateLevel()` call consumes; any
      other action type falls to the reducer's `default` case. */
  datatype Action =
    | StartNewLevel(draws: Draws)
    | SelectTile(i: int, num: int)
    | DeselectTile(i: int, num: int)
    | Unrecognized

  /** `[...tiles.slice(0, i), { ...tiles[i], selected }, ...tiles.slice(i + 1)]`. */
  function WithSelected(tiles: seq<Tile>, i: nat, selected: bool): (r: seq<Tile>)
    requires i < |tiles|
    ensures r == tiles[i := tiles[i].(selected := selected)]
  {
    tiles[..i] + [tiles[i].(selected := selected)] + tiles[i + 1..]
  }

  /** The `SELECT_TILE` case. */
  function Select(level: Level, i: int, num: int): (r: Level)
    requires 0 <= i < |level.tiles|
    ensures r.id == level.id && r.goal == level.goal
    ensures |r.tiles| == |level.tiles|
    ensures r.tiles[i] == level.tiles[i].(selected := true)
    ensures forall k | 0 <= k < |r.tiles| && k != i :: r.tiles[k] == level.tiles[k]
    ensures r.numberOfTilesSelected == level.numberOfTilesSelected + 1
    ensures r.sum == level.sum + num
    ensures level.numberOfTilesSelected >= 0 ==>
      (r.solved <==> r.sum == r.goal * r.numberOfTilesSelected)
    ensures level.numberOfTilesSelected == -1 ==> !r.solved
    ensures level.numberOfTilesSelected != -1 ==>
      (r.solved <==> r.sum == r.goal * r.numberOfTilesSelected)
  {
    var newNumberOfTilesSelected := level.numberOfTilesSelected + 1;
    var newSum := level.sum + num;
    level.(
      tiles := WithSelected(level.tiles, i, true),
      numberOfTilesSelected := newNumberOfTilesSelected,
      sum := newSum,
      solved := MeanIsGoal(newSum, newNumberOfTilesSelected, level.goal))
  }

  /** The `DESELECT_TILE` case. */
  function Deselect(level: Level, i: int, num: int): (r: Level)
    requires 0 <= i < |level.tiles|
    ensures r.id == level.id && r.goal == level.goal
    ensures |r.tiles| == |level.tiles|
    ensures r.tiles[i] == level.tiles[i].(selected := false)
    ensures forall k | 0 <= k < |r.tiles| && k != i :: r.tiles[k] == level.tiles[k]
    ensures r.numberOfTilesSelected == level.numberOfTilesSelected - 1
    ensures r.sum == level.sum - num
    ensures r.numberOfTilesSelected == 0 ==> !r.solved
    ensures r.numberOfTilesSelected != 0 ==>
      (r.solved <==> r.sum == r.goal * r.numberOfTilesSelected)
  {
    var newNumberOfTilesSelected := level.numberOfTilesSelected - 1;
    var newSum := level.sum - num;
    level.(
      tiles := WithSelected(level.tiles, i, false),
      numberOfTilesSelected := newNumberOfTilesSelected,
      sum := newSum,
      solved := MeanIsGoal(newSum, newNumberOfTilesSelected, level.goal))
  }

  /** What the reducer needs to evaluate an action without reading past the tiles:
      an index into them, or draws `Math.random` can produce. */
  predicate Admissible(state: State, action: Action) {
    match action
    case StartNewLevel(d) => ValidDraws(d)
    case SelectTile(i, _) => 0 <= i < |state.level.tiles|
    case DeselectTile(i, _) => 0 <= i < |state.level.tiles|
    case Unrecognized => true
  }

  /** `reducer`. */
  function Reduce(state: State, action: Action): (r: State)
    requires Admissible(state, action)
    ensures action.Unrecognized? ==> r == state
    ensures action.StartNewLevel? ==> r.level == GenerateLevel(action.draws)
    ensures action.StartNewLevel? ==>
      Consistent(r.level) && r.level.numberOfTilesSelected == 0 && !r.level.solved
      && |r.level.tiles| == TileCount && r.level.id == action.draws.levelId
    ensures !action.StartNewLevel? ==>
      && r.level.id == state.level.id
      && r.level.goal == state.level.goal
      && Nums(r.level.tiles) == Nums(state.level.tiles)
      && Ids(r.level.tiles) == Ids(state.level.tiles)
  {
    match action
    case StartNewLevel(d) => state.(level := GenerateLevel(d))
    case SelectTile(i, num) => state.(level := Select(state.level, i, num))
    case DeselectTile(i, num) => state.(level := Deselect(state.level, i, num))
    case Unrecognized => state
  }

  /**
   * The only dispatch site (the tile's `handlePress`) sends `SELECT_TILE` for an
   * unselected tile and `DESELECT_TILE` for a selected one, each with the tile's own
   * index and `num`. `START_NEW_LEVEL` comes from the Next Level button.
   */
  predicate Dispatchable(state: State, action: Action)
    ensures Dispatchable(state, action) ==> Admissible(state, action)
  {
    match action
    case StartNewLevel(d) => ValidDraws(d)
    case SelectTile(i, num) =>
      0 <= i < |state.level.tiles| && !state.level.tiles[i].selected
      && num == state.level.tiles[i].num
    case DeselectTile(i, num) =>
      0 <= i < |state.level.tiles| && state.level.tiles[i].selected
      && num == state.level.tiles[i].num
    case Unrecognized => true
  }

  /** Selecting an unselected tile with its own `num` keeps the accumulators and
      `solved` in step with the tiles. */
  lemma SelectKeepsConsistent(level: Level, i: int)
    requires Consistent(level)
    requires 0 <= i < |level.tiles| && !level.tiles[i].selected
    ensures Consistent(Select(level, i, level.tiles[i].num))
  {
    ReplaceTile(level.tiles, i, level.tiles[i].(selected := true));
  }

  /** Deselecting a selected tile with its own `num` keeps the accumulators and
      `solved` in step with the tiles. */
  lemma DeselectKeepsConsistent(level: Level, i: int)
    requires Consistent(level)
    requires 0 <= i < |level.tiles| && level.tiles[i].selected
    ensures Consistent(Deselect(level, i, level.tiles[i].num))
  {
    ReplaceTile(level.tiles, i, level.tiles[i].(selected := false));
  }

  /** Every dispatched action keeps the count, the sum and `solved` in step with the
      tiles. */
  lemma DispatchKeepsConsistent(state: State, action: Action)
    requires Consistent(state.level)
    requires Dispatchable(state, action)
    ensures Consistent(Reduce(state, action).level)
  {
    match action
    case SelectTile(i, num) => SelectKeepsConsistent(state.level, i);
    case DeselectTile(i, num) => DeselectKeepsConsistent(state.level, i);
    case _ =>
  }

  /** SELECT_TILE then DESELECT_TILE of the same unselected tile restores the state. */
  lemma SelectThenDeselect(state: State, i: int, num: int)
    requires 0 <= i < |state.level.tiles| && !state.level.tiles[i].selected
    requires state.level.solved ==
      MeanIsGoal(state.level.sum, state.level.numberOfTilesSelected, state.level.goal)
    ensures Reduce(Reduce(state, SelectTile(i, num)), DeselectTile(i, num)) == state
  {
    var tiles := state.level.tiles;
    assert tiles[i := tiles[i].(selected := true)][i := tiles[i]] == tiles;
  }

  /** DESELECT_TILE then SELECT_TILE of the same selected tile restores the state. */
  lemma DeselectThenSelect(state: State, i: int, num: int)
    requires 0 <= i < |state.level.tiles| && state.level.tiles[i].selected
    requires state.level.solved ==
      MeanIsGoal(state.level.sum, state.level.numberOfTilesSelected, state.level.goal)
    ensures Reduce(Reduce(state, DeselectTile(i, num)), SelectTile(i, num)) == state
  {
    var tiles := state.level.tiles;
    assert tiles[i := tiles[i].(selected := false)][i := tiles[i]] == tiles;
  }

  /** The actions apply one after another, each dispatchable where it arrives. */
  predicate DisciplinedRun(state: State, actions: seq<Action>)
    decreases |actions|
  {
    |actions| == 0 ||
    (Dispatchable(state, actions[0]) &&
     DisciplinedRun(Reduce(state, actions[0]), actions[1..]))
  }

  /** The state after a sequence of dispatched actions. */
  function Run(state: State, actions: seq<Action>): State
    requires DisciplinedRun(state, actions)
    decreases |actions|
  {
    if |actions| == 0 then state else Run(Reduce(state, actions[0]), actions[1..])
  }

  /** `initialState`: a generated level. */
  function InitialState(d: Draws): (s: State)
    requires ValidDraws(d)
    ensures Consistent(s.level) && |s.level.tiles| == TileCount
  {
    State(GenerateLevel(d))
  }

  /** From a consistent four-tile state, every disciplined run ends in a consistent
      four-tile state: count in [0, 4], count and sum matching the selected tiles, and
      `solved` exactly when some tile is selected and their mean is the goal. */
  lemma {:induction false} RunKeepsConsistent(state: State, actions: seq<Action>)
    requires Consistent(state.level) && |state.level.tiles| == TileCount
    requires DisciplinedRun(state, actions)
    ensures var r := Run(state, actions);
      Consistent(r.level) && |r.level.tiles| == TileCount
      && 0 <= r.level.numberOfTilesSelected <= TileCount
    decreases |actions|
  {
    if |actions| > 0 {
      DispatchKeepsConsistent(state, actions[0]);
      RunKeepsConsistent(Reduce(state, actions[0]), actions[1..]);
    }
  }

  /** From a level with nothing selected, selecting one tile solves it exactly when
      that tile shows the goal. */
  lemma SelectOneSolvesIff(level: Level, p: int)
    requires Consistent(level) && level.numberOfTilesSelected == 0
    requires 0 <= p < |level.tiles|
    ensures Dispatchable(State(level), SelectTile(p, level.tiles[p].num))
    ensures Reduce(State(level), SelectTile(p, level.tiles[p].num)).level.solved
      <==> level.tiles[p].num == level.goal
  {
    NothingSelectedSumsToZero(level.tiles);
  }

  /** From a level with nothing selected, selecting two distinct tiles solves it
      exactly when their values sum to twice the goal. */
  lemma SelectTwoSolvesIff(level: Level, p: int, q: int)
    requires Consistent(level) && level.numberOfTilesSelected == 0
    requires 0 <= p < |level.tiles| && 0 <= q < |level.tiles| && p != q
    ensures var s1 := Reduce(State(level), SelectTile(p, level.tiles[p].num));
      && Dispatchable(State(level), SelectTile(p, level.tiles[p].num))
      && Dispatchable(s1, SelectTile(q, s1.level.tiles[q].num))
      && (Reduce(s1, SelectTile(q, s1.level.tiles[q].num)).level.solved
          <==> level.tiles[p].num + level.tiles[q].num == 2 * level.goal)
  {
    NothingSelectedSumsToZero(level.tiles);
  }

  /** Selecting the goal pair of a fresh level solves it. */
  lemma GoalPairSolves(d: Draws)
    requires ValidDraws(d)
    ensures var level := GenerateLevel(d);
      var (p, q) := GoalPair(d);
      var s1 := Reduce(State(level), SelectTile(p, level.tiles[p].num));
      && Dispatchable(State(level), SelectTile(p, level.tiles[p].num))
      && Dispatchable(s1, SelectTile(q, s1.level.tiles[q].num))
      && Reduce(s1, SelectTile(q, s1.level.tiles[q].num)).level.solved
  {
    var (p, q) := GoalPair(d);
    SelectTwoSolvesIff(GenerateLevel(d), p, q);
  }

  /** The goal pair is not always the only answer: with offset 0 both pair tiles equal
      the goal, and selecting either one alone solves the level. */
  lemma ZeroOffsetSingleTileSolves(d: Draws)
    requires ValidDraws(d) && OffsetOf(d) == 0
    ensures var level := GenerateLevel(d);
      var p := GoalPair(d).0;
      Reduce(State(level), SelectTile(p, level.tiles[p].num)).level.solved
  {
    var level := GenerateLevel(d);
    SelectOneSolvesIff(level, GoalPair(d).0);
  }
}

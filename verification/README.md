# Average game: level reducer and level generation

A model of the logic under the "average the tiles to the goal" puzzle. A level shows a
goal and four numbered tiles. The player selects tiles until the mean of the selected
tiles equals the goal. Two pieces of logic make this work:

- **Level generation** (`generateLevel` and `shuffleArray` in `utility.tsx`). It draws a
  goal in [2, 99] and an offset `x`. It emits the goal pair `goal - x` and `goal + x`
  and two distractors in [1, 100]. It shuffles the four tiles in place with Fisher–Yates
  and returns a level with nothing selected.
- **The reducer** (`reducer` in `App.tsx`). It handles `START_NEW_LEVEL`, `SELECT_TILE`
  and `DESELECT_TILE`. Select and deselect flip one tile's `selected` flag and update two
  running accumulators, `numberOfTilesSelected` and `sum`. Both then recompute `solved`
  as `sum / numberOfTilesSelected === goal`. Any other action leaves the state as it is.

Files, one module each:

- `sequences.dfy` (`Sequences`): small helpers for sequences (`Map`, `Iota`, `IndexOf`).
- `levels.dfy` (`Levels`): the `Tile` and `Level` records, and the mean test
  `MeanIsGoal`. Also the selected count and sum recomputed from the tiles, and the
  `Consistent` invariant that ties the accumulators to the tiles.
- `shuffle.dfy` (`Shuffle`): the in-place shuffle `ShuffleArray` and its functional
  reference `Shuffled`. Also the permutation `Placement` that it applies.
- `generation.dfy` (`Generation`): the random draws as a `Draws` record, `GenerateLevel`,
  and where the goal pair lands (`GoalPair`).
- `reducer.dfy` (`Reducer`): `Reduce` and its cases. Also the dispatch discipline of the
  tile buttons, the round-trip laws, the invariant over every disciplined run, and when
  a selection solves the level.

Modelling choices:

- The records follow the `Level` type (`App.tsx:69-78`). `Levels.Tile` holds an `id`, a
  `num` and a `selected` flag. `Levels.Level` holds an `id`, the `tiles`, the `goal`, the
  running `numberOfTilesSelected` and `sum`, and the `solved` flag. The reducer's state,
  `Reducer.State`, holds only the current level, as `initialState` does
  (`App.tsx:15-17`).

- Each `Math.floor(Math.random() * k)` becomes a natural-number draw below `k`. For the
  shuffle step at position `i`, the draw is `js[i]` in `[0, i]`. `js[0]` is never read.
- `uuidv4()` identifiers are opaque strings supplied with the draws. They are only
  copied.
- `solved` is `count != 0 && sum == goal * count`. This is the JavaScript
  `sum / count === goal` for integer operands. A zero count gives NaN or an infinity, and
  neither equals a finite goal. `Levels.MeanIsGoalIsDivision` ties this test to exact
  division.
- The reducer requires a tile index in range. The only dispatch site (`App.tsx:103`)
  also sends SELECT only for an unselected tile and DESELECT only for a selected one,
  each with that tile's own `num`. That rule is the predicate `Reducer.Dispatchable`.
  The invariants are proved under it.

Where the code and its surroundings disagree, the model follows the code:

- The comment at `utility.tsx:20` says the goal lies in [2-98]. The code reaches 99
  (draw 97), and `Generation.Goal` states that.
- The on-screen instruction (`App.tsx:110`, "Select the two tiles that average to your
  goal") suggests that the goal pair is the answer. The code does not make it the only
  one. With offset 0 both pair tiles equal the goal, so either tile alone
  solves the level (`Reducer.ZeroOffsetSingleTileSolves`). A distractor equal to the goal
  does the same. `Reducer.SelectOneSolvesIff` and `Reducer.SelectTwoSolvesIff` state
  exactly which one- and two-tile selections solve a level.

## Model

| member | source | states |
|---|---|---|
| Levels.MeanIsGoal | App.tsx:41 | the `solved` test (also at App.tsx:59) never holds with a zero count, and when it holds the sum divides by the count exactly, with quotient the goal |
| Levels.ExactQuotient | App.tsx:41 | in integer arithmetic, a sum that is goal times a non-zero count has integer quotient goal and remainder 0 by that count; this backs the quotient clause of `Levels.MeanIsGoal` |
| Levels.MeanIsGoalIsDivision | App.tsx:41 | the cross-multiplied `solved` test holds iff the count is non-zero and sum divided by count is exactly the goal; a zero count never solves (NaN or infinity in the source) |
| Levels.CountSelected | App.tsx:69-78 | the number of selected tiles is at most the tile count, and it is zero iff no tile is selected |
| Levels.NothingSelectedSumsToZero | utility.tsx:25-33 | with no tile selected, the selected tiles sum to 0, matching the fresh level's `sum: 0` |
| Levels.ReplaceTile | App.tsx:38-40 | replacing one tile changes the selected count and the selected sum by exactly that tile's old and new contributions |
| Levels.ConsistentSolvedMeaning | App.tsx:27-61 | on a level whose accumulators agree with its tiles, the count lies in [0, tile count], and `solved` holds iff some tile is selected and the selected sum is goal times the selected count |
| Shuffle.Swap | utility.tsx:14 | the destructuring swap exchanges positions i and j and leaves every other position alone |
| Shuffle.SwapIsPermutation | utility.tsx:14 | a swap keeps the multiset of elements |
| Shuffle.ShuffleFrom | utility.tsx:12-15 | the `for` loop from index i down to 1, swapping position i with its drawn partner in [0, i] at each step, keeps the length |
| Shuffle.ShuffleFromIsPermutation | utility.tsx:12-15 | the swap loop from index i down to 1 keeps the multiset of elements |
| Shuffle.ShuffleFromKeepsSuffix | utility.tsx:12-15 | the swap loop from index i down to 1 never changes a position above i, so Fisher–Yates fixes positions from the top down |
| Shuffle.Shuffled | utility.tsx:11-16 | the whole shuffle is a permutation: same length, same multiset |
| Shuffle.ShuffleArray | utility.tsx:11-16 | the in-place loop, with every index within bounds, leaves the array equal to the functional shuffle of its old contents, a permutation of them |
| Shuffle.MapShuffleFrom | utility.tsx:11-16 | shuffling commutes with mapping a function over the elements, so the positions moved do not depend on the values |
| Shuffle.Placement | utility.tsx:11-16 | the arrangement the draws apply has one entry per position and is a permutation of 0..n-1 |
| Shuffle.PlacementIsPermutation | utility.tsx:11-16 | every entry of the arrangement is a valid position, and every position occurs in it |
| Shuffle.ShuffledFollowsPlacement | utility.tsx:11-16 | position k of the shuffled sequence holds the input element at the arrangement's entry k |
| Generation.Goal | utility.tsx:20 | for a draw in [0, 98) the goal lies in [2, 99], and draw 97 gives 99 (beyond the comment's 98) |
| Generation.OffsetRange | utility.tsx:21 | the offset range is at least 1 and is the smaller of goal - 1 and 100 - goal |
| Generation.Offset | utility.tsx:21 | the offset x is below that range, so goal - x and goal + x both lie in [2, 99] |
| Generation.Distractor | utility.tsx:22-23 | a distractor lies in [1, 100] |
| Generation.InitialNumsMultiset | utility.tsx:25 | the unshuffled values are the multiset {goal - x, goal + x, a, b} |
| Generation.InitialTiles | utility.tsx:25 | the unshuffled tiles carry those values and the drawn identifiers in order, all unselected |
| Generation.ShuffledTilesInRange | utility.tsx:25-26 | after the shuffle every tile is still unselected and shows a value in [1, 100] |
| Generation.ShuffledTilesKeepValues | utility.tsx:25-26 | the shuffle keeps the multiset of tile values {goal - x, goal + x, a, b} and the multiset of tile identifiers |
| Generation.GenerateLevel | utility.tsx:18-36 | a fresh level has the drawn id, a goal in [2, 99], exactly 4 unselected tiles valued in [1, 100] whose values are {goal - x, goal + x, a, b} as a multiset, count 0, sum 0, not solved, and consistent accumulators |
| Generation.PositionOf | utility.tsx:25-26 | each unshuffled tile lands at some position of the generated level |
| Generation.GoalPair | utility.tsx:25-26 | the generated level has two distinct positions holding goal - x and goal + x, which sum to twice the goal |
| Reducer.WithSelected | App.tsx:38 | the slice-and-spread rebuild equals the tile list with only tile i's `selected` replaced |
| Reducer.Select | App.tsx:27-43 | SELECT_TILE sets `selected` on tile i only, keeps every other tile, the nums, ids, goal, level id and tile count, adds 1 to the count and num to the sum; `solved` holds iff the new sum is goal times the new count whenever the new count is non-zero, and is false when the new count is 0 |
| Reducer.Deselect | App.tsx:45-61 | DESELECT_TILE clears `selected` on tile i only, keeps everything else, subtracts 1 from the count and num from the sum; with the count back at 0 the level is not solved |
| Reducer.Reduce | App.tsx:19-67 | an unrecognised action returns the state unchanged; START_NEW_LEVEL replaces the level with the generated one, a consistent four-tile level with nothing selected; select and deselect keep the level id, goal, tile values and tile ids |
| Reducer.Dispatchable | App.tsx:103 | the tile buttons send SELECT_TILE for an unselected tile and DESELECT_TILE for a selected one, each with the tile's own index and num; every such action meets the reducer's index requirement |
| Reducer.SelectKeepsConsistent | App.tsx:27-43 | selecting an unselected tile with its own num keeps the count and sum equal to the selected tiles' count and sum, and `solved` equal to the mean test |
| Reducer.DeselectKeepsConsistent | App.tsx:45-61 | deselecting a selected tile with its own num keeps the count and sum equal to the selected tiles' count and sum, and `solved` equal to the mean test |
| Reducer.DispatchKeepsConsistent | App.tsx:27-61 | an action sent the way the tile buttons send it keeps the count and sum equal to the selected tiles' count and sum, and `solved` equal to the mean test |
| Reducer.SelectThenDeselect | App.tsx:27-61 | selecting an unselected tile and then deselecting it, with any num, gives back the original state |
| Reducer.DeselectThenSelect | App.tsx:27-61 | deselecting a selected tile and then selecting it again gives back the original state |
| Reducer.InitialState | App.tsx:15-17 | the initial state holds a consistent four-tile level |
| Reducer.RunKeepsConsistent | App.tsx:99-104 | after any sequence of button-dispatched actions, the level still has four tiles, a count in [0, 4], accumulators that match the selected tiles, and `solved` equal to the mean test |
| Reducer.SelectOneSolvesIff | App.tsx:27-43 | from an empty selection, selecting one tile solves the level iff that tile shows the goal |
| Reducer.SelectTwoSolvesIff | App.tsx:27-43 | from an empty selection, selecting two distinct tiles solves the level iff their values sum to twice the goal |
| Reducer.GoalPairSolves | utility.tsx:25 | on a fresh level, selecting the goal pair through two SELECT_TILE actions is allowed and solves the level |
| Reducer.ZeroOffsetSingleTileSolves | utility.tsx:21-25 | when the offset is 0, selecting one goal-pair tile alone already solves the level, so the pair is not the unique solution |

## Left out

- Rendering, styling, animation and colours (`Tile`, the JSX of `App`, `styles`, `Animated`, `useEffect`, `palette`): presentation only.
- The `useReducer`/`useRef` hook plumbing: the reducer is modelled as a plain function over `State`.
- `uuidv4`: identifiers are opaque values supplied with the draws, with no claim that they are fresh or distinct.
- `Math.random`: draws are parameters, so the uniform distribution of goals, offsets, distractors and permutations is not modelled.
- Floating point: tile values, sums and counts are unbounded integers. `sum / count === goal` is modelled by exact cross-multiplication. This agrees with IEEE doubles for the small values the generator produces, not for magnitudes near 2^53.
- Reducer.Reduce: requires a select or deselect index within the tiles. In JavaScript an index past the end appends a stray `{ selected }` object. For a negative index on n tiles: `i = -1` gives the first n-1 tiles, the stray object, then all n tiles again; an index from -n to -2 replaces tile n+i with the stray object; an index below -n puts the stray object first. The count and sum change by one and by `num` either way. The only dispatch site passes an index of the tile list, so it never does either.
- Touch gating while solved (`pointerEvents`) and the Next Level button: `Reducer.Dispatchable` does not forbid selecting while solved. The invariants hold without that restriction, and the button is `START_NEW_LEVEL`.

/**
 * Level generation (utility.tsx, `generateLevel`). Each `Math.floor(Math.random() * k)`
 * becomes a natural-number draw below `k`, and each `uuidv4()` an identifier supplied
 * with the draws.
 */
module Generation {
  import opened Sequences
  import opened Shuffle
  import opened Levels

  /** `Math.random() * 98` for the goal. */
  const GoalDrawRange: nat := 98
  /** `Math.random() * 100` for each distractor. */
  const DistractorDrawRange: nat := 100
  const TileCount: nat := 4

  function Abs(n: int): nat {
    if n < 0 then -n else n
  }

  function Min(a: int, b: int): int {
    if a <= b then a else b
  }

  /** The goal; the source comment says [2-98], but a draw of 97 gives 99. */
  function Goal(draw: nat): (goal: int)
    requires draw < GoalDrawRange
    ensures 2 <= goal <= 99
    ensures draw == GoalDrawRange - 1 ==> goal == 99
  {
    draw + 2
  }

  /** The number of choices for the offset x: the distance from the goal to 1 or to
      100, whichever is nearer. */
  function OffsetRange(goal: int): (m: nat)
    requires 2 <= goal <= 99
    ensures 1 <= m
    ensures m <= goal - 1 && m <= 100 - goal
    ensures m == goal - 1 || m == 100 - goal
  {
    Min(Abs(goal - 1), Abs(goal - 100))
  }

  /** The offset x of the goal pair from the goal. */
  function Offset(goal: int, draw: nat): (x: nat)
    requires 2 <= goal <= 99
    requires draw < OffsetRange(goal)
    ensures x < OffsetRange(goal)
    ensures 2 <= goal - x <= goal + x <= 99
  {
    Abs(draw)
  }

  /** A distractor value, `Math.floor(Math.random() * 100) + 1`. */
  function Distractor(draw: nat): (n: int)
    requires draw < DistractorDrawRange
    ensures 1 <= n <= 100
  {
    draw + 1
  }

  /** Everything `generateLevel` takes from `Math.random` and `uuidv4`, in call order
      for the numbers; `swaps` are the draws of `shuffleArray`. */
  datatype Draws = Draws(
    goalDraw: nat,
    offsetDraw: nat,
    firstDistractorDraw: nat,
    secondDistractorDraw: nat,
    swaps: seq<nat>,
    tileIds: seq<Id>,
    levelId: Id)

  /** The draws `Math.random` can produce. */
  predicate ValidDraws(d: Draws) {
    && d.goalDraw < GoalDrawRange
    && d.offsetDraw < OffsetRange(Goal(d.goalDraw))
    && d.firstDistractorDraw < DistractorDrawRange
    && d.secondDistractorDraw < DistractorDrawRange
    && ValidSwaps(d.swaps, TileCount)
    && |d.tileIds| == TileCount
  }

  function GoalOf(d: Draws): int
    requires ValidDraws(d)
  {
    Goal(d.goalDraw)
  }

  function OffsetOf(d: Draws): nat
    requires ValidDraws(d)
  {
    Offset(GoalOf(d), d.offsetDraw)
  }

  /** `[goal - x, goal + x, a, b]` before the shuffle. */
  function InitialNums(d: Draws): (nums: seq<int>)
    requires ValidDraws(d)
  {
    [GoalOf(d) - OffsetOf(d), GoalOf(d) + OffsetOf(d),
     Distractor(d.firstDistractorDraw), Distractor(d.secondDistractorDraw)]
  }

  lemma InitialNumsMultiset(d: Draws)
    requires ValidDraws(d)
    ensures multiset(InitialNums(d)) == multiset{
      GoalOf(d) - OffsetOf(d), GoalOf(d) + OffsetOf(d),
      Distractor(d.firstDistractorDraw), Distractor(d.secondDistractorDraw)}
  {
    var low, high := GoalOf(d) - OffsetOf(d), GoalOf(d) + OffsetOf(d);
    var a, b := Distractor(d.firstDistractorDraw), Distractor(d.secondDistractorDraw);
    assert InitialNums(d) == [low, high, a, b];
    assert multiset([low, high, a, b]) == multiset{low, high, a, b};
  }

  /** The unshuffled tiles, all unselected. */
  function InitialTiles(d: Draws): (tiles: seq<Tile>)
    requires ValidDraws(d)
    ensures Nums(tiles) == InitialNums(d)
    ensures Ids(tiles) == d.tileIds
    ensures forall k | 0 <= k < |tiles| :: !tiles[k].selected
  {
    var nums := InitialNums(d);
    seq(TileCount, k requires 0 <= k < TileCount => Tile(d.tileIds[k], nums[k], false))
  }

  /** After the shuffle every tile is still unselected and shows a number in [1, 100]. */
  lemma ShuffledTilesInRange(d: Draws)
    requires ValidDraws(d)
    ensures var tiles := Shuffled(InitialTiles(d), d.swaps);
      forall k | 0 <= k < |tiles| :: !tiles[k].selected && 1 <= tiles[k].num <= 100
  {
    var initial := InitialTiles(d);
    var tiles := Shuffled(initial, d.swaps);
    ShuffledFollowsPlacement(initial, d.swaps);
    forall k | 0 <= k < |tiles|
      ensures !tiles[k].selected && 1 <= tiles[k].num <= 100
    {
      var o := Placement(TileCount, d.swaps)[k];
      assert tiles[k] == initial[o];
      assert Nums(initial)[o] == InitialNums(d)[o];
    }
  }

  /** The shuffle keeps the values and the identifiers of the tiles, as multisets. */
  lemma ShuffledTilesKeepValues(d: Draws)
    requires ValidDraws(d)
    ensures var tiles := Shuffled(InitialTiles(d), d.swaps);
      && multiset(Nums(tiles)) == multiset(InitialNums(d))
      && multiset(Ids(tiles)) == multiset(d.tileIds)
  {
    var initial := InitialTiles(d);
    MapShuffleFrom(NumOf, initial, d.swaps, TileCount - 1);
    ShuffleFromIsPermutation(Nums(initial), d.swaps, TileCount - 1);
    MapShuffleFrom(IdOf, initial, d.swaps, TileCount - 1);
    ShuffleFromIsPermutation(Ids(initial), d.swaps, TileCount - 1);
  }

  /** `generateLevel`: four shuffled unselected tiles around the goal pair, with an
      empty selection. */
  function GenerateLevel(d: Draws): (level: Level)
    requires ValidDraws(d)
    ensures level.id == d.levelId
    ensures level.goal == GoalOf(d) && 2 <= level.goal <= 99
    ensures |level.tiles| == TileCount
    ensures forall k | 0 <= k < |level.tiles| ::
      !level.tiles[k].selected && 1 <= level.tiles[k].num <= 100
    ensures multiset(Nums(level.tiles)) == multiset{
      GoalOf(d) - OffsetOf(d), GoalOf(d) + OffsetOf(d),
      Distractor(d.firstDistractorDraw), Distractor(d.secondDistractorDraw)}
    ensures multiset(Ids(level.tiles)) == multiset(d.tileIds)
    ensures level.numberOfTilesSelected == 0 && level.sum == 0 && !level.solved
    ensures Consistent(level)
  {
    var tiles := Shuffled(InitialTiles(d), d.swaps);
    ShuffledTilesInRange(d);
    ShuffledTilesKeepValues(d);
    InitialNumsMultiset(d);
    NothingSelectedSumsToZero(tiles);
    Level(d.levelId, tiles, GoalOf(d), 0, 0, false)
  }

  /** The position at which the tile that started at `origin` lands. */
  function PositionOf(d: Draws, origin: nat): (k: nat)
    requires ValidDraws(d)
    requires origin < TileCount
    ensures k < TileCount
    ensures GenerateLevel(d).tiles[k] == InitialTiles(d)[origin]
  {
    PlacementIsPermutation(TileCount, d.swaps);
    ShuffledFollowsPlacement(InitialTiles(d), d.swaps);
    IndexOf(Placement(TileCount, d.swaps), origin)
  }

  /** Where the goal pair lies after the shuffle: two distinct positions holding
      `goal - x` and `goal + x`, which sum to twice the goal. */
  function GoalPair(d: Draws): (pq: (nat, nat))
    requires ValidDraws(d)
    ensures pq.0 < TileCount && pq.1 < TileCount && pq.0 != pq.1
    ensures GenerateLevel(d).tiles[pq.0].num == GoalOf(d) - OffsetOf(d)
    ensures GenerateLevel(d).tiles[pq.1].num == GoalOf(d) + OffsetOf(d)
    ensures GenerateLevel(d).tiles[pq.0].num + GenerateLevel(d).tiles[pq.1].num
      == 2 * GenerateLevel(d).goal
  {
    var p := PositionOf(d, 0);
    var q := PositionOf(d, 1);
    assert Placement(TileCount, d.swaps)[p] == 0 by {
      ShuffledFollowsPlacement(InitialTiles(d), d.swaps);
    }
    (p, q)
  }
}

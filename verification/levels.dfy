/**
 * The `Level` record of the game (App.tsx, `type Level`) and the bookkeeping the
 * reducer keeps on it: a running count and sum of the selected tiles and the
 * `solved` flag derived from them.
 */
module Levels {
  import opened Sequences

  /** A uuid in the app; the model only ever copies identifiers. */
  type Id = string

  datatype Tile = Tile(id: Id, num: int, selected: bool)

  datatype Level = Level(
    id: Id,
    tiles: seq<Tile>,
    goal: int,
    numberOfTilesSelected: int,
    sum: int,
    solved: bool)

  function NumOf(t: Tile): int {
    t.num
  }

  function IdOf(t: Tile): Id {
    t.id
  }

  function Nums(tiles: seq<Tile>): seq<int> {
    Map(NumOf, tiles)
  }

  function Ids(tiles: seq<Tile>): seq<Id> {
    Map(IdOf, tiles)
  }

  /**
   * `sum / count === goal` in JavaScript, for integer operands small enough to be
   * exact doubles. A zero count gives NaN (0 / 0) or an infinity, and neither is
   * `===` to a finite goal.
   */
  predicate MeanIsGoal(sum: int, count: int, goal: int)
    ensures count == 0 ==> !MeanIsGoal(sum, count, goal)
    ensures MeanIsGoal(sum, count, goal) ==> sum / count == goal && sum % count == 0
  {
    ExactQuotient(sum, count, goal);
    count != 0 && sum == goal * count
  }

  /** A multiple of a non-zero count divides by it without remainder. */
  lemma ExactQuotient(sum: int, count: int, goal: int)
    ensures count != 0 && sum == goal * count ==> sum / count == goal && sum % count == 0
  {
    if count != 0 && sum == goal * count {
      var q, r := sum / count, sum % count;
      var d := goal - q;
      var m := if count < 0 then -count else count;
      assert 0 <= r < m;
      assert r == count * d by {
        assert sum == count * q + r;
      }
      var e := if count < 0 then -d else d;
      assert r == m * e by {
        if count < 0 { assert count * d == (-count) * (-d); }
      }
      if e >= 1 {
        NonNegativeProduct(m, e - 1);
        assert false;
      } else if e <= -1 {
        NonNegativeProduct(m, -e);
        assert false;
      }
    }
  }

  lemma NonNegativeProduct(a: int, b: int)
    requires a >= 0 && b >= 0
    ensures a * b >= 0
  {
  }

  /** The cross-multiplied form agrees with exact division of the mean. */
  lemma MeanIsGoalIsDivision(sum: int, count: int, goal: int)
    ensures MeanIsGoal(sum, count, goal) <==>
      count != 0 && (sum as real) / (count as real) == goal as real
  {
    if count != 0 {
      var q := (sum as real) / (count as real);
      assert q * (count as real) == sum as real;
      if q == goal as real {
        assert sum as real == (goal * count) as real;
      }
      if sum == goal * count {
        assert (sum as real) == (goal as real) * (count as real);
      }
    }
  }

  function Weight(t: Tile): nat {
    if t.selected then 1 else 0
  }

  function Contribution(t: Tile): int {
    if t.selected then t.num else 0
  }

  /** The number of selected tiles. */
  function CountSelected(tiles: seq<Tile>): (n: nat)
    ensures n <= |tiles|
    ensures n == 0 <==> forall k | 0 <= k < |tiles| :: !tiles[k].selected
  {
    if |tiles| == 0 then 0 else Weight(tiles[0]) + CountSelected(tiles[1..])
  }

  /** The sum of the `num`s of the selected tiles. */
  function SumSelected(tiles: seq<Tile>): int {
    if |tiles| == 0 then 0 else Contribution(tiles[0]) + SumSelected(tiles[1..])
  }

  /** With nothing selected the selection sums to 0. */
  lemma {:induction false} NothingSelectedSumsToZero(tiles: seq<Tile>)
    requires forall k | 0 <= k < |tiles| :: !tiles[k].selected
    ensures SumSelected(tiles) == 0
  {
    if |tiles| > 0 {
      NothingSelectedSumsToZero(tiles[1..]);
    }
  }

  /** Replacing one tile changes the count and the sum by exactly the difference of
      that tile's contributions. */
  lemma {:induction false} ReplaceTile(tiles: seq<Tile>, i: nat, t: Tile)
    requires i < |tiles|
    ensures CountSelected(tiles[i := t]) == CountSelected(tiles) - Weight(tiles[i]) + Weight(t)
    ensures SumSelected(tiles[i := t]) == SumSelected(tiles) - Contribution(tiles[i]) + Contribution(t)
  {
    if i == 0 {
      assert tiles[i := t][1..] == tiles[1..];
    } else {
      assert tiles[i := t][1..] == tiles[1..][i - 1 := t];
      ReplaceTile(tiles[1..], i - 1, t);
    }
  }

  /** The level's accumulators agree with its tiles, and `solved` with the mean. */
  predicate Consistent(level: Level) {
    && level.numberOfTilesSelected == CountSelected(level.tiles)
    && level.sum == SumSelected(level.tiles)
    && level.solved == MeanIsGoal(level.sum, level.numberOfTilesSelected, level.goal)
  }

  /** On a consistent level, `solved` means: some tile is selected and the selected
      tiles' mean is the goal. */
  lemma ConsistentSolvedMeaning(level: Level)
    requires Consistent(level)
    ensures 0 <= level.numberOfTilesSelected <= |level.tiles|
    ensures level.solved <==>
      (exists k | 0 <= k < |level.tiles| :: level.tiles[k].selected)
      && SumSelected(level.tiles) == level.goal * CountSelected(level.tiles)
  {
  }
}

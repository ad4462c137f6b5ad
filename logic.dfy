/** The interface of the 2048 grid engine that the genetic algorithm drives
    (`logic.new_game`, `logic.up/down/left/right`, `logic.add_two`,
    `logic.game_state`). The engine's own rules are not part of this model:
    a `Rules` value stands for any engine, and every fact proved about the
    replay holds for all of them, or for those meeting a stated assumption. */
module Logic {
  /** The grid `matriz`: a list of rows of tile values, 0 for an empty cell. */
  type Board = seq<seq<int>>

  datatype Direction = Up | Down | Left | Right

  /** What `logic.game_state` reports. */
  datatype GameState = Win | Lose | NotOver

  datatype Rules = Rules(
    /** `logic.up/down/left/right`: the new board, and whether the move changed it. */
    move: (Direction, Board) -> (Board, bool),
    /** `logic.add_two`: the board with one tile spawned, placed by a random draw. */
    addTwo: (Board, nat) -> Board,
    /** `logic.game_state` */
    gameState: Board -> GameState)

  /** The randomness of one simulated game: the board `logic.new_game`
      returned, and the draw used by each successive spawn. */
  datatype Chance = Chance(start: Board, spawns: nat -> nat)

  /** An engine whose "unchanged" flag is truthful: a move reporting no change
      hands back the board it was given. */
  ghost predicate Honest(rules: Rules) {
    forall d, b :: !rules.move(d, b).1 ==> rules.move(d, b).0 == b
  }

  /** `v` is 1, 2, 4, 8, ...: the values a 2048 tile can take. */
  predicate PowerOfTwo(v: int)
    decreases if v < 0 then 0 else v
  {
    v == 1 || (v > 1 && v % 2 == 0 && PowerOfTwo(v / 2))
  }

  /** A tile value the game can show: a power of two in lo..hi. */
  predicate TileWithin(v: int, lo: int, hi: int) {
    lo <= v <= hi && PowerOfTwo(v)
  }

  /** The board has at least one tile, and every tile (every non-empty cell)
      is a power of two in lo..hi; empty cells are unconstrained zeros. */
  ghost predicate Within(b: Board, lo: int, hi: int) {
    (exists i, j :: 0 <= i < |b| && 0 <= j < |b[i]| && b[i][j] != 0) &&
    forall i, j :: 0 <= i < |b| && 0 <= j < |b[i]| ==> b[i][j] == 0 || TileWithin(b[i][j], lo, hi)
  }

  /** Of two powers of two, the larger is at least twice the smaller. */
  lemma {:induction false} PowerGap(p: int, v: int)
    requires PowerOfTwo(p) && PowerOfTwo(v) && p < v
    ensures p + p <= v
    decreases if p < 0 then 0 else p
  {
    if p != 1 {
      PowerGap(p / 2, v / 2);
    }
  }

  /** A tile of a board still in play is below 2048, the winning tile; merged
      with its equal it gives a power of two that is again within 2..2048.
      So an engine that merges equal tiles into their sum, declares a win at
      2048 and spawns 2s can keep boards within 2..2048 (`KeepsWithin`). */
  lemma MergeStaysWithin(v: int)
    requires TileWithin(v, 2, 2048) && v != 2048
    ensures TileWithin(v + v, 2, 2048)
  {
    assert (v + v) / 2 == v;
    if v > 1024 {
      assert PowerOfTwo(1024) by {
        assert PowerOfTwo(2) && PowerOfTwo(4) && PowerOfTwo(8) && PowerOfTwo(16) && PowerOfTwo(32);
        assert PowerOfTwo(64) && PowerOfTwo(128) && PowerOfTwo(256) && PowerOfTwo(512);
      }
      PowerGap(1024, v);
    }
  }

  /** Moves on a board still in play, and spawns, keep every board within
      lo..hi. Only such moves are ever applied: the replay stops at a won or
      lost board. */
  ghost predicate KeepsWithin(rules: Rules, lo: int, hi: int) {
    (forall d, b :: Within(b, lo, hi) && rules.gameState(b) == NotOver ==> Within(rules.move(d, b).0, lo, hi)) &&
    (forall b, k :: Within(b, lo, hi) ==> Within(rules.addTwo(b, k), lo, hi))
  }
}

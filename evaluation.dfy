/** Monte-Carlo fitness and the evaluation of a population
    (algorithm.py: `fitness`, `avaliar_populacao`). */
module Evaluation {
  import opened Moves
  import opened Logic
  import opened Replay

  /** A simulator of games: trial `j` of an individual gives
      `(maior_tile, movimentos_validos)`. */
  type Simulator = (nat, Individual) -> (int, int)

  /** An evaluation record `(fitness, individuo)`. */
  type Evaluated = (real, Individual)

  /** The simulator `executar_jogo` is: trial `j` replays the individual on a
      fresh game whose randomness is `games(j)`. */
  function Replayed(rules: Rules, games: nat -> Chance): Simulator {
    (j: nat, ind: Individual) => Simulate(rules, games(j), ind)
  }

  /** `soma_maior_tile` after the first `n` trials. */
  function SumMaxTiles(sim: Simulator, individuo: Individual, n: nat): int {
    if n == 0 then 0 else SumMaxTiles(sim, individuo, n - 1) + sim(n - 1, individuo).0
  }

  /** The fitness of an individual: 0.0 for an empty individual or no trials,
      otherwise the summed maximum tiles divided by `num_simulacoes`. A negative
      count runs no trial and also yields 0.0. */
  function MeanMaxTile(sim: Simulator, individuo: Individual, numSimulacoes: int): (r: real)
    ensures individuo == [] || numSimulacoes <= 0 ==> r == 0.0
  {
    if individuo == [] || numSimulacoes == 0 then 0.0
    else SumMaxTiles(sim, individuo, Len(numSimulacoes)) as real / numSimulacoes as real
  }

  /** `fitness(individuo, num_simulacoes)`; trial `j` plays the game `games(j)`. */
  method Fitness(rules: Rules, games: nat -> Chance, individuo: Individual, numSimulacoes: int)
    returns (r: real)
    ensures r == MeanMaxTile(Replayed(rules, games), individuo, numSimulacoes)
  {
    if individuo == [] || numSimulacoes == 0 {
      return 0.0;
    }
    var somaMaiorTile := 0;
    for j := 0 to Len(numSimulacoes)
      invariant somaMaiorTile == SumMaxTiles(Replayed(rules, games), individuo, j)
    {
      var maiorTile, _ := ExecutarJogo(rules, games(j), individuo);
      somaMaiorTile := somaMaiorTile + maiorTile;
    }
    r := somaMaiorTile as real / numSimulacoes as real;
  }

  lemma {:induction false} SumWithin(sim: Simulator, individuo: Individual, n: nat, lo: int, hi: int)
    requires forall j :: 0 <= j < n ==> lo <= sim(j, individuo).0 <= hi
    ensures n * lo <= SumMaxTiles(sim, individuo, n) <= n * hi
  {
    if n > 0 {
      SumWithin(sim, individuo, n - 1, lo, hi);
    }
  }

  /** Dividing by a positive count keeps a sum of `n` values in lo..hi a
      value in lo..hi. */
  lemma QuotientWithin(s: real, n: real, lo: real, hi: real)
    requires n > 0.0 && n * lo <= s <= n * hi
    ensures lo <= s / n <= hi
  {
    assert s / n - lo == (s - n * lo) / n;
    assert hi - s / n == (n * hi - s) / n;
  }

  /** The same for a sum and a count that are integers. */
  lemma MeanOfIntsWithin(sum: int, n: int, lo: int, hi: int)
    requires n > 0 && n * lo <= sum <= n * hi
    ensures lo as real <= sum as real / n as real <= hi as real
  {
    var nr, lr, hr := n as real, lo as real, hi as real;
    assert (n * lo) as real == nr * lr;
    assert (n * hi) as real == nr * hr;
    QuotientWithin(sum as real, nr, lr, hr);
  }

  lemma {:induction false} SumIgnoresMoveCounts(sim1: Simulator, sim2: Simulator, individuo: Individual, n: nat)
    requires forall j :: 0 <= j < n ==> sim1(j, individuo).0 == sim2(j, individuo).0
    ensures SumMaxTiles(sim1, individuo, n) == SumMaxTiles(sim2, individuo, n)
  {
    if n > 0 {
      SumIgnoresMoveCounts(sim1, sim2, individuo, n - 1);
    }
  }

  /** The fitness depends only on the maximum tiles the trials report: two
      simulators that agree on them, whatever move counts they report, give
      the same fitness. */
  lemma FitnessIgnoresMoveCounts(sim1: Simulator, sim2: Simulator, individuo: Individual, numSimulacoes: int)
    requires forall j :: 0 <= j < numSimulacoes ==> sim1(j, individuo).0 == sim2(j, individuo).0
    ensures MeanMaxTile(sim1, individuo, numSimulacoes) == MeanMaxTile(sim2, individuo, numSimulacoes)
  {
    SumIgnoresMoveCounts(sim1, sim2, individuo, Len(numSimulacoes));
  }

  /** A mean of trial results within lo..hi lies within lo..hi. */
  lemma MeanWithin(sim: Simulator, individuo: Individual, numSimulacoes: int, lo: int, hi: int)
    requires individuo != [] && numSimulacoes > 0
    requires forall j :: 0 <= j < numSimulacoes ==> lo <= sim(j, individuo).0 <= hi
    ensures lo as real <= MeanMaxTile(sim, individuo, numSimulacoes) <= hi as real
  {
    var n: nat := numSimulacoes;
    assert Len(numSimulacoes) == n;
    SumWithin(sim, individuo, n, lo, hi);
    var sum := SumMaxTiles(sim, individuo, n);
    MeanOfIntsWithin(sum, n, lo, hi);
    assert MeanMaxTile(sim, individuo, numSimulacoes) == sum as real / n as real;
  }

  /** When every game starts with its tiles powers of two within lo..hi
      (lo >= 0), and moves on boards in play and spawns keep them so, the
      fitness of a non-empty individual over a positive number of trials lies
      within lo..hi; otherwise it is 0.0. With lo = 2 and hi = 2048 this is the range
      the game allows, and a fresh board meets it (`Replay.NewGameBoardWithin`). */
  lemma FitnessWithin(rules: Rules, games: nat -> Chance, individuo: Individual, numSimulacoes: int, lo: int, hi: int)
    requires 0 <= lo && KeepsWithin(rules, lo, hi)
    requires forall j :: Within(games(j).start, lo, hi)
    ensures var f := MeanMaxTile(Replayed(rules, games), individuo, numSimulacoes);
      if individuo == [] || numSimulacoes <= 0 then f == 0.0 else lo as real <= f <= hi as real
  {
    if individuo != [] && numSimulacoes > 0 {
      forall j | 0 <= j < numSimulacoes
        ensures lo <= Replayed(rules, games)(j, individuo).0 <= hi
      {
        ReportedTileWithin(rules, games(j), individuo, lo, hi);
      }
      MeanWithin(Replayed(rules, games), individuo, numSimulacoes, lo, hi);
    }
  }

  /** `avaliar_populacao(populacao, num_simulacoes)`: individual `i` is
      simulated by `sims(i)`. */
  function AvaliarPopulacao(sims: nat -> Simulator, populacao: seq<Individual>, numSimulacoes: int)
    : (r: seq<Evaluated>)
    ensures |r| == |populacao|
    ensures forall i :: 0 <= i < |r| ==>
      r[i] == (MeanMaxTile(sims(i), populacao[i], numSimulacoes), populacao[i])
  {
    seq(|populacao|, i requires 0 <= i < |populacao| =>
      (MeanMaxTile(sims(i), populacao[i], numSimulacoes), populacao[i]))
  }
}

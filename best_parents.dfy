/** The earlier copies of the fitness and evaluation operators
    (AG/best_parents.py). Its `selecionar_pais` is the one of algorithm.py,
    `Selection.SelecionarPais`. */
module BestParents {
  import opened Moves
  import Evaluation
  import Selection

  /** `fitness(individuo, num_simulacoes)`: the game is the injected
      `simular_jogo`, whose call number `j` reports `simularJogo(j, individuo)`. */
  method Fitness(simularJogo: Evaluation.Simulator, individuo: Individual, numSimulacoes: int)
    returns (r: real)
    ensures r == Evaluation.MeanMaxTile(simularJogo, individuo, numSimulacoes)
  {
    if individuo == [] || numSimulacoes == 0 {
      return 0.0;
    }
    var somaMaiorTile := 0;
    for j := 0 to Len(numSimulacoes)
      invariant somaMaiorTile == Evaluation.SumMaxTiles(simularJogo, individuo, j)
    {
      var (maiorTile, _) := simularJogo(j, individuo);
      somaMaiorTile := somaMaiorTile + maiorTile;
    }
    r := somaMaiorTile as real / numSimulacoes as real;
  }

  /** `avaliar_populacao(populacao, num_simulacoes)`: one `(fitness, individuo)`
      pair appended per individual, in input order. */
  method AvaliarPopulacao(sims: nat -> Evaluation.Simulator, populacao: seq<Individual>, numSimulacoes: int)
    returns (populacaoAvaliada: seq<Evaluation.Evaluated>)
    ensures populacaoAvaliada == Evaluation.AvaliarPopulacao(sims, populacao, numSimulacoes)
  {
    populacaoAvaliada := [];
    for i := 0 to |populacao|
      invariant |populacaoAvaliada| == i
      invariant forall k :: 0 <= k < i ==>
        populacaoAvaliada[k] == (Evaluation.MeanMaxTile(sims(k), populacao[k], numSimulacoes), populacao[k])
    {
      var fitnessDoIndividuo := Fitness(sims(i), populacao[i], numSimulacoes);
      populacaoAvaliada := populacaoAvaliada + [(fitnessDoIndividuo, populacao[i])];
    }
  }

  /** The evaluated list carries the population itself, in order. */
  lemma EvaluationKeepsPopulation(sims: nat -> Evaluation.Simulator, populacao: seq<Individual>, numSimulacoes: int)
    ensures Selection.Individuals(Evaluation.AvaliarPopulacao(sims, populacao, numSimulacoes)) == populacao
  {
  }
}

/** The generational driver (algorithm.py: `calcular_metricas`, `rodar_ag`). */
module Driver {
  import opened Results
  import opened Moves
  import opened Logic
  import opened Evaluation
  import opened Selection
  import opened Generation
  import opened History

  /** Python's `max(list)` on a non-empty list. */
  function MaxOf(xs: seq<real>): (m: real)
    requires xs != []
    ensures m in xs && forall i :: 0 <= i < |xs| ==> xs[i] <= m
  {
    if |xs| == 1 then xs[0]
    else
      var m := MaxOf(xs[..|xs| - 1]);
      assert forall i :: 0 <= i < |xs| - 1 ==> xs[..|xs| - 1][i] == xs[i];
      if xs[|xs| - 1] > m then xs[|xs| - 1] else m
  }

  /** Python's `min(list)` on a non-empty list. */
  function MinOf(xs: seq<real>): (m: real)
    requires xs != []
    ensures m in xs && forall i :: 0 <= i < |xs| ==> m <= xs[i]
  {
    if |xs| == 1 then xs[0]
    else
      var m := MinOf(xs[..|xs| - 1]);
      assert forall i :: 0 <= i < |xs| - 1 ==> xs[..|xs| - 1][i] == xs[i];
      if xs[|xs| - 1] < m then xs[|xs| - 1] else m
  }

  /** The "melhor_fitness" and "pior_fitness" entries of `calcular_metricas`. */
  datatype Metrics = Metrics(melhorFitness: real, piorFitness: real)

  /** `calcular_metricas(fitness_geral)`: the best and worst fitness; `max` of
      an empty list raises ValueError. */
  function CalcularMetricas(fitnessGeral: seq<real>): (r: Result<Metrics>)
    ensures r.Err? <==> fitnessGeral == []
    ensures r.Err? ==> r.error == ValueError
    ensures r.Ok? ==> r.value.melhorFitness in fitnessGeral && r.value.piorFitness in fitnessGeral
    ensures r.Ok? ==> forall i :: 0 <= i < |fitnessGeral| ==>
      r.value.piorFitness <= fitnessGeral[i] <= r.value.melhorFitness
  {
    if fitnessGeral == [] then Err(ValueError)
    else Ok(Metrics(MaxOf(fitnessGeral), MinOf(fitnessGeral)))
  }

  lemma MetricsExample()
    ensures CalcularMetricas([0.3, 0.5, 0.0, 0.9, 0.99]) == Ok(Metrics(0.99, 0.0))
  {
    var xs := [0.3, 0.5, 0.0, 0.9, 0.99];
    assert xs[..1] == [0.3] && xs[..2] == [0.3, 0.5] && xs[..3] == [0.3, 0.5, 0.0] && xs[..4] == [0.3, 0.5, 0.0, 0.9];
    assert MinOf(xs[..3]) == 0.0;
    assert MaxOf(xs) == 0.99;
  }

  /** `[fitness_val for fitness_val, _ in populacao_avaliada]` */
  function Fitnesses(avaliada: seq<Evaluated>): (r: seq<real>)
    ensures |r| == |avaliada| && forall i :: 0 <= i < |r| ==> r[i] == avaliada[i].0
  {
    seq(|avaliada|, i requires 0 <= i < |avaliada| => avaliada[i].0)
  }

  /** `max(populacao_avaliada, key=lambda x: x[0])`: the first entry of
      greatest fitness. */
  function FirstBest(avaliada: seq<Evaluated>): (e: Evaluated)
    requires avaliada != []
    ensures forall j :: 0 <= j < |avaliada| ==> avaliada[j].0 <= e.0
    ensures exists i :: 0 <= i < |avaliada| && avaliada[i] == e &&
                        (forall j :: 0 <= j < i ==> avaliada[j].0 < e.0)
  {
    if |avaliada| == 1 then avaliada[0]
    else
      var init := avaliada[..|avaliada| - 1];
      var b := FirstBest(init);
      assert forall j :: 0 <= j < |init| ==> init[j] == avaliada[j];
      if avaliada[|avaliada| - 1].0 > b.0 then avaliada[|avaliada| - 1] else b
  }

  datatype Params = Params(populacoes: int, tamanhoPop: int, tamanhoIndividuo: int, taxaMutacao: real, numSimulacoes: int)

  /** The randomness of a whole run: the choices of `generate_population`, the
      game of trial `j` of individual `i` in generation `g` (`games(g)(i)(j)`),
      and pass `m` of the filling loop in generation `g` (`rounds(g)(m)`). */
  datatype RunLuck = RunLuck(genes: nat -> MoveIndex, games: nat -> nat -> nat -> Chance, rounds: nat -> nat -> Round)

  /** `num_pais = max(2, tamanho_pop // 2)`; Dafny's division by 2 rounds
      down like Python's `//`. */
  function NumPais(tamanhoPop: int): (n: int)
    ensures n >= 2 && n >= tamanhoPop / 2
    ensures n == 2 || n == tamanhoPop / 2
  {
    var half := tamanhoPop / 2;
    if 2 >= half then 2 else half
  }

  /** The simulators of generation `g`, one per individual. */
  function Sims(rules: Rules, luck: RunLuck, g: nat): nat -> Simulator {
    i => Replayed(rules, luck.games(g)(i))
  }

  /** `avaliar_populacao(populacao, num_simulacoes)` in generation `g`. */
  function Evaluate(params: Params, rules: Rules, luck: RunLuck, g: nat, populacao: seq<Individual>): seq<Evaluated> {
    AvaliarPopulacao(Sims(rules, luck, g), populacao, params.numSimulacoes)
  }

  /** The best fitness of a generation and the first individual reaching it
      (`max(populacao_avaliada, key=lambda x: x[0])`). */
  function Best(avaliada: seq<Evaluated>): (c: Record)
    requires avaliada != []
    ensures forall i :: 0 <= i < |avaliada| ==> avaliada[i].0 <= c.fitness
    ensures exists i :: 0 <= i < |avaliada| && avaliada[i] == (c.fitness, c.individuo) &&
                         forall j :: 0 <= j < i ==> avaliada[j].0 < c.fitness
  {
    var b := FirstBest(avaliada);
    var i :| 0 <= i < |avaliada| && avaliada[i] == b && (forall j :: 0 <= j < i ==> avaliada[j].0 < b.0);
    var m := MaxOf(Fitnesses(avaliada));
    assert m == b.0 by {
      var k :| 0 <= k < |avaliada| && Fitnesses(avaliada)[k] == m;
    }
    Record(m, b.1)
  }

  /** The parents of a generation: `selecionar_pais(populacao_avaliada, num_pais)`. */
  function Parents(params: Params, avaliada: seq<Evaluated>): seq<Individual> {
    Select(avaliada, NumPais(params.tamanhoPop))
  }

  /** One iteration of the generations loop: evaluate, compute the metrics
      (raising ValueError on an empty population), update the record, and
      breed the next population (raising what `gerar_nova_populacao` raises). */
  function GenerationStep(params: Params, rules: Rules, luck: RunLuck, g: nat, s: Search): (r: Result<Search>)
    ensures var e := Evaluate(params, rules, luck, g, s.populacao);
      var nova := NextPopulation(Parents(params, e), params.tamanhoPop, params.taxaMutacao, luck.rounds(g));
      && (e == [] ==> r == Err(ValueError))
      && (e != [] && nova.Err? ==> r == Err(nova.error))
      && (e != [] && nova.Ok? ==> r == Ok(Search(nova.value, Keep(s.melhor, Best(e)))))
  {
    var avaliada := Evaluate(params, rules, luck, g, s.populacao);
    match CalcularMetricas(Fitnesses(avaliada))
    case Err(e) => Err(e)
    case Ok(metricas) =>
      var melhor := Keep(s.melhor, Record(metricas.melhorFitness, FirstBest(avaliada).1));
      match NextPopulation(Parents(params, avaliada), params.tamanhoPop, params.taxaMutacao, luck.rounds(g))
      case Err(e) => Err(e)
      case Ok(populacao) => Ok(Search(populacao, melhor))
  }

  function Stepper(params: Params, rules: Rules, luck: RunLuck): Step {
    (h: nat, s: Search) => GenerationStep(params, rules, luck, h, s)
  }

  /** The state before the loop: a random population and no record. */
  function Start(params: Params, luck: RunLuck): Search {
    Search(GeneratePopulation(params.tamanhoPop, params.tamanhoIndividuo, luck.genes), None)
  }

  /** The loop state after `g` generations. */
  function After(params: Params, rules: Rules, luck: RunLuck, g: nat): Result<Search> {
    Iterate(Stepper(params, rules, luck), Start(params, luck), g)
  }

  /** What `rodar_ag` returns or raises. */
  function Outcome(params: Params, rules: Rules, luck: RunLuck): Result<Option<Record>> {
    match After(params, rules, luck, Len(params.populacoes))
    case Err(e) => Err(e)
    case Ok(s) => Ok(s.melhor)
  }

  /** The champion of generation `h` from its state `s` (any record when the
      generation has nobody, which raises anyway). */
  function Champ(params: Params, rules: Rules, luck: RunLuck): (nat, Search) -> Record {
    (h: nat, s: Search) =>
      var e := Evaluate(params, rules, luck, h, s.populacao);
      if e == [] then Record(0.0, []) else Best(e)
  }

  /** The champions of the first `g` generations, in order. */
  function Champions(params: Params, rules: Rules, luck: RunLuck, g: nat): (cs: seq<Record>)
    requires After(params, rules, luck, g).Ok?
    ensures |cs| == g
  {
    ChampionsOf(Stepper(params, rules, luck), Start(params, luck), Champ(params, rules, luck), g)
  }

  lemma StepRecords(params: Params, rules: Rules, luck: RunLuck)
    ensures Records(Stepper(params, rules, luck), Champ(params, rules, luck))
  {
    var step := Stepper(params, rules, luck);
    var champ := Champ(params, rules, luck);
    forall h: nat, s: Search | step(h, s).Ok? ensures step(h, s).value.melhor == Keep(s.melhor, champ(h, s)) {
      assert step(h, s) == GenerationStep(params, rules, luck, h, s);
    }
  }

  /** Entry `h` of the champions is the best of generation `h`, which had
      somebody to evaluate. */
  lemma ChampionIsGenerationBest(params: Params, rules: Rules, luck: RunLuck, g: nat, h: nat)
    requires h < g && After(params, rules, luck, g).Ok?
    ensures After(params, rules, luck, h).Ok?
    ensures var e := Evaluate(params, rules, luck, h, After(params, rules, luck, h).value.populacao);
      e != [] && Champions(params, rules, luck, g)[h] == Best(e)
  {
    var step := Stepper(params, rules, luck);
    var init := Start(params, luck);
    ChampionAt(step, init, Champ(params, rules, luck), g, h);
    var s := Iterate(step, init, h).value;
    assert step(h, s) == GenerationStep(params, rules, luck, h, s);
  }

  /** The best-ever record after `g` generations is the best of the champions
      so far: as fit as every one of them, and the earliest of its fitness,
      since a generation that only ties does not replace it. */
  lemma BestEverIsBestSoFar(params: Params, rules: Rules, luck: RunLuck, g: nat)
    requires After(params, rules, luck, g).Ok?
    ensures After(params, rules, luck, g).value.melhor == BestOf(Champions(params, rules, luck, g))
  {
    StepRecords(params, rules, luck);
    RecordIsBestSoFar(Stepper(params, rules, luck), Start(params, luck), Champ(params, rules, luck), g);
  }

  /** The best-ever fitness never decreases from one generation to a later one. */
  lemma BestEverMonotone(params: Params, rules: Rules, luck: RunLuck, g1: nat, g2: nat)
    requires 1 <= g1 <= g2 && After(params, rules, luck, g2).Ok?
    ensures After(params, rules, luck, g1).Ok?
    ensures After(params, rules, luck, g1).value.melhor.Some? && After(params, rules, luck, g2).value.melhor.Some?
    ensures After(params, rules, luck, g1).value.melhor.value.fitness <= After(params, rules, luck, g2).value.melhor.value.fitness
  {
    StepRecords(params, rules, luck);
    RecordMonotone(Stepper(params, rules, luck), Start(params, luck), Champ(params, rules, luck), g1, g2);
  }

  /** `tamanho_pop` individuals of `tamanho_individuo` valid moves, and a
      record of the same shape. */
  ghost predicate ShapeOk(params: Params, s: Search) {
    && |s.populacao| == Len(params.tamanhoPop)
    && Shaped(s.populacao, Len(params.tamanhoIndividuo))
    && (s.melhor.Some? ==> |s.melhor.value.individuo| == Len(params.tamanhoIndividuo) && AllMoves(s.melhor.value.individuo))
  }

  /** Parents selected from individuals of `l` valid moves have `l` valid moves. */
  lemma SelectKeepsShape(e: seq<Evaluated>, n: int, l: nat)
    requires forall j :: 0 <= j < |e| ==> |e[j].1| == l && AllMoves(e[j].1)
    ensures Shaped(Select(e, n), l)
  {
    var pais := Select(e, n);
    SelectedFromInput(e, n);
    forall i | 0 <= i < |pais| ensures |pais[i]| == l && AllMoves(pais[i]) {
      var j :| 0 <= j < |e| && pais[i] == e[j].1;
    }
  }

  lemma StepKeepsShape(params: Params, rules: Rules, luck: RunLuck, h: nat, s: Search)
    requires ShapeOk(params, s) && GenerationStep(params, rules, luck, h, s).Ok?
    ensures ShapeOk(params, GenerationStep(params, rules, luck, h, s).value)
  {
    var l := Len(params.tamanhoIndividuo);
    var e := Evaluate(params, rules, luck, h, s.populacao);
    var n := NumPais(params.tamanhoPop);
    var pais := Parents(params, e);
    assert forall j :: 0 <= j < |e| ==> e[j].1 == s.populacao[j];
    SelectKeepsShape(e, n, l);
    SelectLength(e, n);
    assert |pais| <= Len(params.tamanhoPop);
    var nova := NextPopulation(pais, params.tamanhoPop, params.taxaMutacao, luck.rounds(h));
    NextPopulationKeepsShape(pais, params.tamanhoPop, params.taxaMutacao, luck.rounds(h), l);
    var b := Best(e);
    var j :| 0 <= j < |e| && e[j] == (b.fitness, b.individuo);
    assert |b.individuo| == l && AllMoves(b.individuo);
    assert GenerationStep(params, rules, luck, h, s).value == Search(nova.value, Keep(s.melhor, b));
  }

  lemma StepPreservesShape(params: Params, rules: Rules, luck: RunLuck)
    ensures Preserves(Stepper(params, rules, luck), s => ShapeOk(params, s))
  {
    var step := Stepper(params, rules, luck);
    var inv := (s: Search) => ShapeOk(params, s);
    forall h: nat, s: Search | inv(s) && step(h, s).Ok? ensures inv(step(h, s).value) {
      assert step(h, s) == GenerationStep(params, rules, luck, h, s);
      StepKeepsShape(params, rules, luck, h, s);
    }
  }

  /** Every population has `tamanho_pop` individuals of `tamanho_individuo`
      valid moves, and so has the best-ever individual. */
  lemma RunKeepsShape(params: Params, rules: Rules, luck: RunLuck, g: nat)
    requires After(params, rules, luck, g).Ok?
    ensures ShapeOk(params, After(params, rules, luck, g).value)
  {
    StepPreservesShape(params, rules, luck);
    IterateKeeps(Stepper(params, rules, luck), Start(params, luck), s => ShapeOk(params, s), g);
  }

  /** A generation raises nothing when it has somebody to evaluate and either
      individuals long enough to cross, or needs no offspring because the
      parents already fill the population (`num_pais >= tamanho_pop`). */
  lemma StepSucceeds(params: Params, rules: Rules, luck: RunLuck, h: nat, s: Search)
    requires params.tamanhoPop >= 1
    requires params.tamanhoIndividuo >= 2 || params.tamanhoPop <= 2
    requires ShapeOk(params, s)
    ensures GenerationStep(params, rules, luck, h, s).Ok?
  {
    var e := Evaluate(params, rules, luck, h, s.populacao);
    assert forall j :: 0 <= j < |e| ==> e[j].1 == s.populacao[j];
    var n := NumPais(params.tamanhoPop);
    var pais := Parents(params, e);
    SelectLength(e, n);
    SelectedFromInput(e, n);
    if params.tamanhoIndividuo >= 2 {
      forall i | 0 <= i < |pais| ensures |pais[i]| >= 2 {
        var j :| 0 <= j < |e| && pais[i] == e[j].1;
      }
      NextPopulationBuilt(pais, params.tamanhoPop, params.taxaMutacao, luck.rounds(h));
    }
  }

  lemma RunSucceeds(params: Params, rules: Rules, luck: RunLuck)
    requires params.tamanhoPop >= 1
    requires params.tamanhoIndividuo >= 2 || params.tamanhoPop <= 2
    ensures Outcome(params, rules, luck).Ok?
    ensures params.populacoes >= 1 ==> Outcome(params, rules, luck).value.Some?
  {
    var step := Stepper(params, rules, luck);
    var inv := (s: Search) => ShapeOk(params, s);
    StepPreservesShape(params, rules, luck);
    forall h: nat, s: Search | inv(s) ensures step(h, s).Ok? {
      assert step(h, s) == GenerationStep(params, rules, luck, h, s);
      StepSucceeds(params, rules, luck, h, s);
    }
    IterateSucceeds(step, Start(params, luck), inv, Len(params.populacoes));
    BestEverIsBestSoFar(params, rules, luck, Len(params.populacoes));
  }

  /** Running no generation returns the initial `(float('-inf'), None)`. */
  lemma NoGenerations(params: Params, rules: Rules, luck: RunLuck)
    requires params.populacoes <= 0
    ensures Outcome(params, rules, luck) == Ok(None)
  {
  }

  /** The first generation's outcome decides a run that fails there. */
  lemma FirstGenerationRaises(params: Params, rules: Rules, luck: RunLuck, e: Error)
    requires params.populacoes >= 1
    requires GenerationStep(params, rules, luck, 0, Start(params, luck)) == Err(e)
    ensures Outcome(params, rules, luck) == Err(e)
  {
    var step := Stepper(params, rules, luck);
    IterateNext(step, Start(params, luck), 0, 1, Start(params, luck));
    assert step(0, Start(params, luck)) == GenerationStep(params, rules, luck, 0, Start(params, luck));
    IterateErrPersists(step, Start(params, luck), 1, Len(params.populacoes));
  }

  /** With no individuals `max` of the empty fitness list raises ValueError. */
  lemma EmptyPopulationRaises(params: Params, rules: Rules, luck: RunLuck)
    requires params.populacoes >= 1 && params.tamanhoPop <= 0
    ensures Outcome(params, rules, luck) == Err(ValueError)
  {
    FirstGenerationRaises(params, rules, luck, ValueError);
  }

  /** When offspring are needed (`tamanho_pop >= 3`) but no individual has two
      genes, `random.randint(1, len(pai1) - 1)` raises ValueError in the first
      generation. */
  lemma ShortGenomesRaise(params: Params, rules: Rules, luck: RunLuck)
    requires params.populacoes >= 1 && params.tamanhoPop >= 3 && params.tamanhoIndividuo <= 1
    ensures Outcome(params, rules, luck) == Err(ValueError)
  {
    var s := Start(params, luck);
    var e := Evaluate(params, rules, luck, 0, s.populacao);
    assert forall j :: 0 <= j < |e| ==> e[j].1 == s.populacao[j];
    var n := NumPais(params.tamanhoPop);
    var pais := Parents(params, e);
    SelectLength(e, n);
    SelectedFromInput(e, n);
    forall i | 0 <= i < |pais| ensures |pais[i]| < 2 {
      var j :| 0 <= j < |e| && pais[i] == e[j].1;
    }
    NextPopulationRaises(pais, params.tamanhoPop, params.taxaMutacao, luck.rounds(0));
    FirstGenerationRaises(params, rules, luck, ValueError);
  }

  /** One pass of the generations loop of `rodar_ag`: evaluate, record the
      best, and breed the next population (or raise). */
  method Evolve(params: Params, rules: Rules, luck: RunLuck, g: nat, populacao: seq<Individual>, melhor: Option<Record>)
    returns (r: Result<Search>)
    ensures r == GenerationStep(params, rules, luck, g, Search(populacao, melhor))
  {
    var avaliada := AvaliarPopulacao(Sims(rules, luck, g), populacao, params.numSimulacoes);
    var fitnessGeral := Fitnesses(avaliada);
    var metricas := CalcularMetricas(fitnessGeral);
    if metricas.Err? {
      return Err(metricas.error);
    }
    var melhorFitness := metricas.value.melhorFitness;
    var novoMelhor := melhor;
    if melhor.None? || melhorFitness > melhor.value.fitness {
      novoMelhor := Some(Record(melhorFitness, FirstBest(avaliada).1));
    }
    var lista := new Evaluated[|avaliada|](i requires 0 <= i < |avaliada| => avaliada[i]);
    assert lista[..] == avaliada;
    var nova := GerarNovaPopulacao(lista, params.tamanhoPop, params.taxaMutacao, NumPais(params.tamanhoPop), luck.rounds(g));
    if nova.Err? {
      return Err(nova.error);
    }
    r := Ok(Search(nova.value, novoMelhor));
  }

  /** `rodar_ag(populacoes, tamanho_pop, tamanho_individuo, taxa_mutacao,
      num_simulacoes)` against a given engine and randomness. */
  method RodarAg(populacoes: int, tamanhoPop: int, tamanhoIndividuo: int, taxaMutacao: real, numSimulacoes: int,
                 rules: Rules, luck: RunLuck)
    returns (r: Result<Option<Record>>)
    ensures r == Outcome(Params(populacoes, tamanhoPop, tamanhoIndividuo, taxaMutacao, numSimulacoes), rules, luck)
    ensures populacoes <= 0 ==> r == Ok(None)
  {
    var params := Params(populacoes, tamanhoPop, tamanhoIndividuo, taxaMutacao, numSimulacoes);
    ghost var step := Stepper(params, rules, luck);
    ghost var init := Start(params, luck);
    var melhor: Option<Record> := None;
    var populacao := GeneratePopulation(tamanhoPop, tamanhoIndividuo, luck.genes);
    for g := 0 to Len(populacoes)
      invariant Iterate(step, init, g) == Ok(Search(populacao, melhor))
    {
      var next := Evolve(params, rules, luck, g, populacao, melhor);
      var g1 := g + 1;
      IterateNext(step, init, g, g1, Search(populacao, melhor));
      assert step(g, Search(populacao, melhor)) == next;
      if next.Err? {
        IterateErrPersists(step, init, g1, Len(populacoes));
        return Err(next.error);
      }
      populacao := next.value.populacao;
      melhor := next.value.melhor;
    }
    r := Ok(melhor);
  }
}

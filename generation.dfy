/** Building the next generation (algorithm.py, `gerar_nova_populacao`):
    the selected elites are kept, then the population is filled with mutated
    children of random pairs of elites. */
module Generation {
  import opened Results
  import opened Rand
  import opened Moves
  import opened Evaluation
  import opened Selection
  import opened Operators

  /** The randomness of one pass of the `while` loop: the two
      `random.choice(pais)` draws, the crossover cut, and the two mutations. */
  datatype Round = Round(first: Unit, second: Unit, corte: Unit, mutation1: Luck, mutation2: Luck)

  /** The two mutated children one pass of the loop produces, or what it raises:
      IndexError when there are no parents to choose from, ValueError when the
      first parent is too short to cut. */
  function Offspring(pais: seq<Individual>, taxa: real, r: Round): (res: Result<(Individual, Individual)>)
    ensures res.Err? <==> pais == [] || |pais[Below(r.first, |pais|)]| < 2
    ensures res.Err? ==> (res.error == IndexError <==> pais == [])
  {
    if pais == [] then Err(IndexError)
    else
      var pai1 := pais[Below(r.first, |pais|)];
      var pai2 := pais[Below(r.second, |pais|)];
      match Cruzar(pai1, pai2, r.corte)
      case Err(e) => Err(e)
      case Ok((filho1, filho2)) => Ok((Mutated(filho1, taxa, r.mutation1), Mutated(filho2, taxa, r.mutation2)))
  }

  /** How many children must be added after the elites. */
  function Missing(pais: seq<Individual>, tamanhoPop: int): nat {
    Len(tamanhoPop - |pais|)
  }

  /** The first `n` passes of the loop all produce children. */
  predicate RoundsSucceed(pais: seq<Individual>, taxa: real, rounds: nat -> Round, n: nat) {
    forall m :: 0 <= m < n ==> Offspring(pais, taxa, rounds(m)).Ok?
  }

  /** Child `p` after the elites: pass `p / 2` of the loop, first or second child. */
  function Child(pais: seq<Individual>, taxa: real, rounds: nat -> Round, p: nat): Individual
    requires Offspring(pais, taxa, rounds(p / 2)).Ok?
  {
    var c := Offspring(pais, taxa, rounds(p / 2)).value;
    if p % 2 == 0 then c.0 else c.1
  }

  /** The first `n` children after the elites. */
  function Children(pais: seq<Individual>, taxa: real, rounds: nat -> Round, n: nat): (r: seq<Individual>)
    requires RoundsSucceed(pais, taxa, rounds, (n + 1) / 2)
    ensures |r| == n && forall p :: 0 <= p < n ==> r[p] == Child(pais, taxa, rounds, p)
  {
    seq(n, p requires 0 <= p < n => Child(pais, taxa, rounds, p))
  }

  /** The population `gerar_nova_populacao` returns for the parents `pais`:
      the elites unchanged, then as many children as the target size still
      needs, the second child of the last pass dropped when only one slot is
      left. A pass that raises makes the whole call raise. */
  function NextPopulation(pais: seq<Individual>, tamanhoPop: int, taxa: real, rounds: nat -> Round)
    : (r: Result<seq<Individual>>)
    ensures r.Ok? ==> |r.value| == (if tamanhoPop > |pais| then tamanhoPop else |pais|)
    ensures r.Ok? ==> r.value[..|pais|] == pais
    ensures r.Err? ==> (r.error == IndexError <==> pais == [])
    ensures tamanhoPop <= |pais| ==> r == Ok(pais)
  {
    var missing := Missing(pais, tamanhoPop);
    if RoundsSucceed(pais, taxa, rounds, (missing + 1) / 2) then
      assert missing == 0 ==> pais + Children(pais, taxa, rounds, missing) == pais;
      Ok(pais + Children(pais, taxa, rounds, missing))
    else Err(if pais == [] then IndexError else ValueError)
  }

  /** What one pass of the loop computes, step by step, is `Offspring`. */
  lemma OffspringUnfolded(pais: seq<Individual>, taxa: real, r: Round, c: Result<(Individual, Individual)>)
    requires pais != []
    requires c == Cruzar(pais[Below(r.first, |pais|)], pais[Below(r.second, |pais|)], r.corte)
    ensures c.Err? ==> Offspring(pais, taxa, r).Err?
    ensures c.Ok? ==> Offspring(pais, taxa, r) == Ok((Mutated(c.value.0, taxa, r.mutation1), Mutated(c.value.1, taxa, r.mutation2)))
  {
  }

  lemma NextPopulationFailsAt(pais: seq<Individual>, tamanhoPop: int, taxa: real, rounds: nat -> Round, m: nat)
    requires m < (Missing(pais, tamanhoPop) + 1) / 2 && Offspring(pais, taxa, rounds(m)).Err?
    ensures NextPopulation(pais, tamanhoPop, taxa, rounds) == Err(if pais == [] then IndexError else ValueError)
  {
  }

  lemma NextPopulationSucceeds(pais: seq<Individual>, tamanhoPop: int, taxa: real, rounds: nat -> Round)
    requires RoundsSucceed(pais, taxa, rounds, (Missing(pais, tamanhoPop) + 1) / 2)
    ensures NextPopulation(pais, tamanhoPop, taxa, rounds) == Ok(pais + Children(pais, taxa, rounds, Missing(pais, tamanhoPop)))
  {
  }

  /** `nova` is the elites followed by the first children, in order. */
  predicate Filled(pais: seq<Individual>, taxa: real, rounds: nat -> Round, nova: seq<Individual>) {
    |pais| <= |nova| && nova[..|pais|] == pais &&
    forall p :: 0 <= p < |nova| - |pais| ==>
      Offspring(pais, taxa, rounds(p / 2)).Ok? && nova[|pais| + p] == Child(pais, taxa, rounds, p)
  }

  /** Appending child `2 * round` (or `2 * round + 1` for the second child)
      keeps the population filled in order. */
  lemma FilledSnoc(pais: seq<Individual>, taxa: real, rounds: nat -> Round, nova: seq<Individual>,
                   round: nat, second: bool, x: Individual)
    requires Filled(pais, taxa, rounds, nova)
    requires |nova| == |pais| + 2 * round + (if second then 1 else 0)
    requires Offspring(pais, taxa, rounds(round)).Ok?
    requires x == (if second then Offspring(pais, taxa, rounds(round)).value.1 else Offspring(pais, taxa, rounds(round)).value.0)
    ensures Filled(pais, taxa, rounds, nova + [x])
  {
    var p := |nova| - |pais|;
    var b := if second then 1 else 0;
    assert p == 2 * round + b;
    assert p / 2 == round && p % 2 == b;
    assert Child(pais, taxa, rounds, p) == x;
    var longer := nova + [x];
    assert longer[..|pais|] == nova[..|pais|];
    forall q | 0 <= q < |longer| - |pais|
      ensures Offspring(pais, taxa, rounds(q / 2)).Ok? && longer[|pais| + q] == Child(pais, taxa, rounds, q)
    {
      if q < p {
        assert longer[|pais| + q] == nova[|pais| + q];
      }
    }
  }

  lemma RoundsSucceedSnoc(pais: seq<Individual>, taxa: real, rounds: nat -> Round, n: nat, next: nat)
    requires next == n + 1 && RoundsSucceed(pais, taxa, rounds, n) && Offspring(pais, taxa, rounds(n)).Ok?
    ensures RoundsSucceed(pais, taxa, rounds, next)
  {
  }

  lemma FilledIsNext(pais: seq<Individual>, taxa: real, rounds: nat -> Round, nova: seq<Individual>, n: nat)
    requires Filled(pais, taxa, rounds, nova) && |nova| == |pais| + n
    requires RoundsSucceed(pais, taxa, rounds, (n + 1) / 2)
    ensures nova == pais + Children(pais, taxa, rounds, n)
  {
    assert nova == nova[..|pais|] + nova[|pais|..];
  }

  /** `nova_populacao = pais.copy()` and the `while` loop that fills it. */
  method FillPopulation(pais: seq<Individual>, tamanhoPop: int, taxa: real, rounds: nat -> Round)
    returns (r: Result<seq<Individual>>)
    ensures r == NextPopulation(pais, tamanhoPop, taxa, rounds)
  {
    ghost var missing := Missing(pais, tamanhoPop);
    var novaPopulacao := pais;
    var round := 0;
    while |novaPopulacao| < tamanhoPop
      invariant round <= (missing + 1) / 2
      invariant |novaPopulacao| == |pais| + (if 2 * round < missing then 2 * round else missing)
      invariant RoundsSucceed(pais, taxa, rounds, round)
      invariant Filled(pais, taxa, rounds, novaPopulacao)
      decreases tamanhoPop - |novaPopulacao|
    {
      assert 2 * round < missing && |novaPopulacao| == |pais| + 2 * round;
      if pais == [] {
        NextPopulationFailsAt(pais, tamanhoPop, taxa, rounds, round);
        return Err(IndexError);
      }
      var pai1 := pais[Below(rounds(round).first, |pais|)];
      var pai2 := pais[Below(rounds(round).second, |pais|)];
      var cruzamento := Cruzar(pai1, pai2, rounds(round).corte);
      OffspringUnfolded(pais, taxa, rounds(round), cruzamento);
      if cruzamento.Err? {
        NextPopulationFailsAt(pais, tamanhoPop, taxa, rounds, round);
        return Err(cruzamento.error);
      }
      var (filho1, filho2) := cruzamento.value;
      var mutante1 := Mutar(filho1, taxa, rounds(round).mutation1);
      FilledSnoc(pais, taxa, rounds, novaPopulacao, round, false, mutante1);
      novaPopulacao := novaPopulacao + [mutante1];
      if |novaPopulacao| < tamanhoPop {
        var mutante2 := Mutar(filho2, taxa, rounds(round).mutation2);
        FilledSnoc(pais, taxa, rounds, novaPopulacao, round, true, mutante2);
        novaPopulacao := novaPopulacao + [mutante2];
      }
      var next := round + 1;
      RoundsSucceedSnoc(pais, taxa, rounds, round, next);
      round := next;
    }
    assert round == (missing + 1) / 2;
    FilledIsNext(pais, taxa, rounds, novaPopulacao, missing);
    NextPopulationSucceeds(pais, tamanhoPop, taxa, rounds);
    r := Ok(novaPopulacao);
  }

  /** `gerar_nova_populacao(populacao_com_fitness, tamanho_pop, taxa_mutacao,
      num_pais)`: selection sorts the caller's list in place. */
  method GerarNovaPopulacao(a: array<Evaluated>, tamanhoPop: int, taxa: real, numPais: int, rounds: nat -> Round)
    returns (r: Result<seq<Individual>>)
    modifies a
    ensures a[..] == SortDesc(old(a[..]))
    ensures r == NextPopulation(Select(old(a[..]), numPais), tamanhoPop, taxa, rounds)
  {
    var pais := SelecionarPais(a, numPais);
    r := FillPopulation(pais, tamanhoPop, taxa, rounds);
  }

  /** With at least one parent and every parent at least two genes long, no
      pass raises and the new population is built. */
  lemma NextPopulationBuilt(pais: seq<Individual>, tamanhoPop: int, taxa: real, rounds: nat -> Round)
    requires pais != [] && forall i :: 0 <= i < |pais| ==> |pais[i]| >= 2
    ensures NextPopulation(pais, tamanhoPop, taxa, rounds).Ok?
  {
    assert RoundsSucceed(pais, taxa, rounds, (Missing(pais, tamanhoPop) + 1) / 2);
  }

  /** When children are needed, no parents raise IndexError and parents all
      shorter than two genes raise ValueError. */
  lemma NextPopulationRaises(pais: seq<Individual>, tamanhoPop: int, taxa: real, rounds: nat -> Round)
    requires tamanhoPop > |pais|
    requires forall i :: 0 <= i < |pais| ==> |pais[i]| < 2
    ensures NextPopulation(pais, tamanhoPop, taxa, rounds) == Err(if pais == [] then IndexError else ValueError)
  {
    NextPopulationFailsAt(pais, tamanhoPop, taxa, rounds, 0);
  }

  /** Every individual of `pop` has `l` genes, all of them moves. */
  predicate Shaped(pop: seq<Individual>, l: nat) {
    forall i :: 0 <= i < |pop| ==> |pop[i]| == l && AllMoves(pop[i])
  }

  lemma MutatedKeepsMoves(individuo: Individual, taxa: real, luck: Luck)
    requires AllMoves(individuo)
    ensures AllMoves(Mutated(individuo, taxa, luck))
  {
    var m := Mutated(individuo, taxa, luck);
    forall i | 0 <= i < |m| ensures IsMove(m[i]) {
      if luck.draws(i) >= taxa {
        assert m[i] == individuo[i];
      }
    }
  }

  lemma OffspringShaped(pais: seq<Individual>, taxa: real, r: Round, l: nat)
    requires Shaped(pais, l) && Offspring(pais, taxa, r).Ok?
    ensures Shaped([Offspring(pais, taxa, r).value.0, Offspring(pais, taxa, r).value.1], l)
  {
    var pai1 := pais[Below(r.first, |pais|)];
    var pai2 := pais[Below(r.second, |pais|)];
    var c := Cruzar(pai1, pai2, r.corte);
    CrossoverKeepsLength(pai1, pai2, r.corte);
    var k :| 1 <= k < |pai1| && c.value == Splice(pai1, pai2, k);
    CrossoverKeepsMoves(pai1, pai2, k);
    MutatedKeepsMoves(c.value.0, taxa, r.mutation1);
    MutatedKeepsMoves(c.value.1, taxa, r.mutation2);
  }

  /** A generation of individuals of length L made of moves only yields a
      generation of the same kind: crossover and mutation keep the length of
      equal-length parents and only ever write moves. */
  lemma NextPopulationKeepsShape(pais: seq<Individual>, tamanhoPop: int, taxa: real, rounds: nat -> Round, l: nat)
    requires Shaped(pais, l)
    ensures var r := NextPopulation(pais, tamanhoPop, taxa, rounds);
      r.Ok? ==> Shaped(r.value, l)
  {
    var r := NextPopulation(pais, tamanhoPop, taxa, rounds);
    if r.Ok? {
      var missing := Missing(pais, tamanhoPop);
      var children := Children(pais, taxa, rounds, missing);
      assert r.value == pais + children;
      forall p | 0 <= p < missing ensures |children[p]| == l && AllMoves(children[p]) {
        OffspringShaped(pais, taxa, rounds(p / 2), l);
      }
    }
  }
}

/** The variation operators (algorithm.py: `cruzar`, `mutar`). */
module Operators {
  import opened Results
  import opened Slices
  import opened Rand
  import opened Moves

  /** The two children of a single-point crossover at `k`: the tails after
      `k` are swapped (Python slices, so a short `pai2` contributes less). */
  function Splice(pai1: Individual, pai2: Individual, k: int): (Individual, Individual) {
    (Take(pai1, k) + Drop(pai2, k), Take(pai2, k) + Drop(pai1, k))
  }

  /** `cruzar(pai1, pai2)`, where `corte` is the draw behind
      `random.randint(1, len(pai1) - 1)`. That call raises ValueError when
      `pai1` has fewer than two genes; the parents' lengths are not compared. */
  function Cruzar(pai1: Individual, pai2: Individual, corte: Unit): (r: Result<(Individual, Individual)>)
    ensures r.Ok? <==> |pai1| >= 2
    ensures r.Err? ==> r.error == ValueError
    ensures r.Ok? ==> exists k :: 1 <= k < |pai1| && r.value == Splice(pai1, pai2, k)
  {
    var tamanho := |pai1|;
    if tamanho - 1 < 1 then Err(ValueError)
    else
      var pontoCorte := RandInt(corte, 1, tamanho - 1);
      Ok(Splice(pai1, pai2, pontoCorte))
  }

  /** For equal-length parents and a cut strictly inside them, the children
      are the slice swaps and keep the parents' length. */
  lemma CrossoverSlices(pai1: Individual, pai2: Individual, k: int)
    requires |pai1| == |pai2| && 1 <= k < |pai1|
    ensures Splice(pai1, pai2, k) == (pai1[..k] + pai2[k..], pai2[..k] + pai1[k..])
    ensures |Splice(pai1, pai2, k).0| == |Splice(pai1, pai2, k).1| == |pai1|
  {
  }

  /** Crossover neither creates nor loses genes: the children together hold
      exactly the genes of the two parents, whatever their lengths. */
  lemma CrossoverKeepsGenes(pai1: Individual, pai2: Individual, k: int)
    ensures var (f1, f2) := Splice(pai1, pai2, k);
      multiset(f1) + multiset(f2) == multiset(pai1) + multiset(pai2)
  {
    TakeDrop(pai1, k);
    TakeDrop(pai2, k);
    assert multiset(pai1) == multiset(Take(pai1, k)) + multiset(Drop(pai1, k)) by {
      assert pai1 == Take(pai1, k) + Drop(pai1, k);
    }
    assert multiset(pai2) == multiset(Take(pai2, k)) + multiset(Drop(pai2, k)) by {
      assert pai2 == Take(pai2, k) + Drop(pai2, k);
    }
  }

  /** Children of parents whose genes are all moves have only moves. */
  lemma CrossoverKeepsMoves(pai1: Individual, pai2: Individual, k: int)
    requires AllMoves(pai1) && AllMoves(pai2)
    ensures AllMoves(Splice(pai1, pai2, k).0) && AllMoves(Splice(pai1, pai2, k).1)
  {
    var (f1, f2) := Splice(pai1, pai2, k);
    CrossoverKeepsGenes(pai1, pai2, k);
    forall i | 0 <= i < |f1| ensures IsMove(f1[i]) {
      assert f1[i] in multiset(pai1) + multiset(pai2);
    }
    forall i | 0 <= i < |f2| ensures IsMove(f2[i]) {
      assert f2[i] in multiset(pai1) + multiset(pai2);
    }
  }

  /** Crossover of two parents of length L gives two children of length L. */
  lemma CrossoverKeepsLength(pai1: Individual, pai2: Individual, corte: Unit)
    requires |pai1| == |pai2| && |pai1| >= 2
    ensures var r := Cruzar(pai1, pai2, corte);
      r.Ok? && |r.value.0| == |pai1| && |r.value.1| == |pai1|
  {
    var k := RandInt(corte, 1, |pai1| - 1);
    CrossoverSlices(pai1, pai2, k);
  }

  /** Cutting ["up","up","down","left"] and ["left","right","up","down"] at 2. */
  lemma CrossoverExample()
    ensures Cruzar(["up", "up", "down", "left"], ["left", "right", "up", "down"], 0.5)
      == Ok((["up", "up", "up", "down"], ["left", "right", "down", "left"]))
  {
    var pai1: Individual := ["up", "up", "down", "left"];
    var pai2: Individual := ["left", "right", "up", "down"];
    assert RandInt(0.5, 1, 3) == 2;
    assert Take(pai1, 2) == ["up", "up"] && Drop(pai1, 2) == ["down", "left"];
    assert Take(pai2, 2) == ["left", "right"] && Drop(pai2, 2) == ["up", "down"];
    assert Cruzar(pai1, pai2, 0.5) == Ok(Splice(pai1, pai2, 2));
    assert ["up", "up"] + ["up", "down"] == ["up", "up", "up", "down"];
    assert ["left", "right"] + ["down", "left"] == ["left", "right", "down", "left"];
    assert Splice(pai1, pai2, 2) == (["up", "up", "up", "down"], ["left", "right", "down", "left"]);
  }

  /** The randomness of one `mutar` call: `draws(i)` is the i-th
      `random.random()` (one per gene) and `picks(c)` the c-th
      `random.choice(valid_moves)` (one per replaced gene). */
  datatype Luck = Luck(draws: nat -> Unit, picks: nat -> MoveIndex)

  /** How many of the first `n` draws fall below the rate. */
  function CountBelow(draws: nat -> Unit, taxa: real, n: nat): (c: nat)
    ensures c <= n
  {
    if n == 0 then 0 else CountBelow(draws, taxa, n - 1) + (if draws(n - 1) < taxa then 1 else 0)
  }

  /** The individual `mutar` returns: gene `i` is kept when draw `i` is at least
      the rate, and otherwise replaced by the next unused choice. */
  function Mutated(individuo: Individual, taxa: real, luck: Luck): (r: Individual)
    ensures |r| == |individuo|
    ensures forall i :: 0 <= i < |r| && luck.draws(i) >= taxa ==> r[i] == individuo[i]
    ensures forall i :: 0 <= i < |r| && luck.draws(i) < taxa ==> IsMove(r[i])
  {
    seq(|individuo|, i requires 0 <= i < |individuo| =>
      if luck.draws(i) < taxa then Move(luck.picks(CountBelow(luck.draws, taxa, i))) else individuo[i])
  }

  /** `mutar(individuo, taxa_mutacao)`: a copy of the individual is changed
      gene by gene; the argument itself is a value and stays as it was. */
  method Mutar(individuo: Individual, taxa: real, luck: Luck) returns (mutante: Individual)
    ensures mutante == Mutated(individuo, taxa, luck)
  {
    mutante := individuo;
    var usados := 0;
    for i := 0 to |mutante|
      invariant |mutante| == |individuo|
      invariant usados == CountBelow(luck.draws, taxa, i)
      invariant forall j :: 0 <= j < i ==> mutante[j] == Mutated(individuo, taxa, luck)[j]
      invariant forall j :: i <= j < |mutante| ==> mutante[j] == individuo[j]
    {
      if luck.draws(i) < taxa {
        mutante := mutante[i := Move(luck.picks(usados))];
        usados := usados + 1;
      }
    }
  }

  /** The genes at the positions whose draw fell below the rate, in order. */
  function Replaced(m: Individual, taxa: real, draws: nat -> Unit, n: nat): seq<Gene>
    requires n <= |m|
  {
    if n == 0 then []
    else if draws(n - 1) < taxa then Replaced(m, taxa, draws, n - 1) + [m[n - 1]]
    else Replaced(m, taxa, draws, n - 1)
  }

  /** The first `k` choices, in order. */
  function Choices(picks: nat -> MoveIndex, k: nat): (r: seq<Gene>)
    ensures |r| == k
    decreases k
  {
    if k == 0 then [] else Choices(picks, k - 1) + [Move(picks(k - 1))]
  }

  /** Entry `c` of the first `k` choices is choice `c`. */
  lemma {:induction false} ChoiceAt(picks: nat -> MoveIndex, k: nat, c: nat)
    requires c < k
    ensures Choices(picks, k)[c] == Move(picks(c))
    decreases k
  {
    var h := k - 1;
    if c < h {
      ChoiceAt(picks, h, c);
      assert Choices(picks, k) == Choices(picks, h) + [Move(picks(h))];
    }
  }

  /** Gene `i` of `m`, when draw `i` is below the rate, is the choice numbered
      by the draws below the rate before it. */
  predicate TakesNextChoice(m: Individual, taxa: real, draws: nat -> Unit, picks: nat -> MoveIndex, i: nat)
    requires i < |m|
  {
    draws(i) < taxa ==> m[i] == Move(picks(CountBelow(draws, taxa, i)))
  }

  /** An individual whose replaced genes each take the next choice has as its
      replaced genes exactly the first choices. */
  lemma {:induction false} ReplacedAreChoices(m: Individual, taxa: real, draws: nat -> Unit, picks: nat -> MoveIndex, n: nat)
    requires n <= |m|
    requires forall i :: 0 <= i < n ==> TakesNextChoice(m, taxa, draws, picks, i)
    ensures Replaced(m, taxa, draws, n) == Choices(picks, CountBelow(draws, taxa, n))
    decreases n
  {
    if n > 0 {
      var h := n - 1;
      ReplacedAreChoices(m, taxa, draws, picks, h);
      var k := CountBelow(draws, taxa, h);
      assert TakesNextChoice(m, taxa, draws, picks, h);
      if draws(h) < taxa {
        var next := k + 1;
        assert CountBelow(draws, taxa, n) == next;
        assert Replaced(m, taxa, draws, n) == Choices(picks, k) + [m[h]];
        assert Choices(picks, next) == Choices(picks, k) + [Move(picks(k))];
      } else {
        assert CountBelow(draws, taxa, n) == k;
        assert Replaced(m, taxa, draws, n) == Replaced(m, taxa, draws, h);
      }
    }
  }

  /** The choices are consumed in order and each exactly once: the replaced
      genes are the first `CountBelow` choices, one per draw below the rate. */
  lemma ChoicesConsumedInOrder(individuo: Individual, taxa: real, luck: Luck, n: nat)
    requires n <= |individuo|
    ensures Replaced(Mutated(individuo, taxa, luck), taxa, luck.draws, n)
      == Choices(luck.picks, CountBelow(luck.draws, taxa, n))
  {
    var m := Mutated(individuo, taxa, luck);
    forall i | 0 <= i < n
      ensures TakesNextChoice(m, taxa, luck.draws, luck.picks, i)
    {
    }
    ReplacedAreChoices(m, taxa, luck.draws, luck.picks, n);
  }

  /** At rate 0.0 (or below) nothing changes. */
  lemma RateZeroKeepsAll(individuo: Individual, taxa: real, luck: Luck)
    requires taxa <= 0.0
    ensures Mutated(individuo, taxa, luck) == individuo
  {
  }

  lemma {:induction false} AllBelow(draws: nat -> Unit, taxa: real, n: nat)
    requires taxa >= 1.0
    ensures CountBelow(draws, taxa, n) == n
  {
    if n > 0 {
      AllBelow(draws, taxa, n - 1);
    }
  }

  /** At rate 1.0 (or above) every gene is replaced, gene `i` by choice `i`. */
  lemma RateOneReplacesAll(individuo: Individual, taxa: real, luck: Luck)
    requires taxa >= 1.0
    ensures var m := Mutated(individuo, taxa, luck);
      |m| == |individuo| && forall i :: 0 <= i < |m| ==> m[i] == Move(luck.picks(i))
  {
    forall i | 0 <= i < |individuo| {
      AllBelow(luck.draws, taxa, i);
    }
  }

  /** Rate 1.0 with every choice "down" turns ["up","up","up"] into all "down". */
  lemma MutationAllDownExample()
    ensures Mutated(["up", "up", "up"], 1.0, Luck(_ => 0.0, _ => 1)) == ["down", "down", "down"]
  {
    RateOneReplacesAll(["up", "up", "up"], 1.0, Luck(_ => 0.0, _ => 1));
  }

  /** Draws 0.3, 0.7, 0.4 at rate 0.5 with choices "right", "up" map
      ["up","down","left"] to ["right","down","up"]. */
  lemma MutationHalfRateExample()
    ensures var luck := Luck(
        i => if i == 0 then 0.3 else if i == 1 then 0.7 else 0.4,
        c => if c == 0 then 3 else 0);
      Mutated(["up", "down", "left"], 0.5, luck) == ["right", "down", "up"]
  {
    var luck := Luck(
        i => if i == 0 then 0.3 else if i == 1 then 0.7 else 0.4,
        c => if c == 0 then 3 else 0);
    assert CountBelow(luck.draws, 0.5, 2) == 1;
  }
}

/** Genes, individuals and the random generation of a first population
    (algorithm.py: `valid_moves`, `generate_individual`, `generate_population`). */
module Moves {
  /** A gene is a move symbol. Any string can occur in an individual; only the
      four in `ValidMoves` are understood by the game replay. */
  type Gene = string

  /** An individual (genome): the ordered list of moves it plays. */
  type Individual = seq<Gene>

  /** `valid_moves` */
  const ValidMoves: seq<Gene> := ["up", "down", "left", "right"]

  predicate IsMove(g: Gene) {
    g in ValidMoves
  }

  predicate AllMoves(ind: Individual) {
    forall i :: 0 <= i < |ind| ==> IsMove(ind[i])
  }

  /** The position `random.choice(valid_moves)` picks. */
  type MoveIndex = i: int | 0 <= i < 4

  function Move(c: MoveIndex): (g: Gene)
    ensures IsMove(g)
  {
    ValidMoves[c]
  }

  /** `len(range(n))`: a negative count is an empty range. */
  function Len(n: int): nat {
    if n < 0 then 0 else n
  }

  /** `generate_individual(size)`, where `picks(i)` is what the i-th call of
      `random.choice(valid_moves)` returned. */
  function GenerateIndividual(size: int, picks: nat -> MoveIndex): (r: Individual)
    ensures |r| == Len(size) && AllMoves(r)
    ensures forall i :: 0 <= i < |r| ==> r[i] == Move(picks(i))
  {
    var r := seq(Len(size), i requires 0 <= i => Move(picks(i)));
    assert forall i :: 0 <= i < |r| ==> r[i] == Move(picks(i));
    r
  }

  /** `generate_population(population_size, individual_size)`: individual `p`
      consumes the choices `p * individual_size` and the following ones, as one
      shared generator called in program order would. */
  function GeneratePopulation(populationSize: int, individualSize: int, picks: nat -> MoveIndex): (r: seq<Individual>)
    ensures |r| == Len(populationSize)
    ensures forall p :: 0 <= p < |r| ==> |r[p]| == Len(individualSize) && AllMoves(r[p])
  {
    seq(Len(populationSize), p requires 0 <= p =>
      GenerateIndividual(individualSize, i => picks(p * Len(individualSize) + i)))
  }
}

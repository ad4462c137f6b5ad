# A verified model of the AG-2048 genetic algorithm

AG-2048 evolves fixed sequences of 2048 moves ("up", "down", "left", "right")
with a genetic algorithm. An individual is a list of move strings. Its fitness
is the mean, over several simulated games, of the largest tile reached by
replaying it. Each generation does these steps in order:

1. Evaluate the population.
2. Report the best and worst fitness.
3. Keep a best-ever record.
4. Sort the evaluated population in place by fitness.
5. Keep the best `num_pais` individuals as elites.
6. Fill the rest of the population with mutated single-point crossovers of
   random pairs of elites.

This project models that core in Dafny, operation by operation, and proves
what each operation promises.

- **Randomness.** Every call into Python's `random` module is a parameter:
  - a uniform draw `Rand.Unit` in [0, 1) for `random.random()`;
  - `Rand.Below` for `random.choice` on a list;
  - `Rand.RandInt` for `random.randint`;
  - a `Moves.MoveIndex` in 0..3 for `random.choice(valid_moves)`.

  Streams of these are total functions from a call number. Once they are
  fixed, every operation is deterministic and is stated exactly.
- **The grid engine.** `logic.py` is not part of this model. `Logic.Rules`
  stands for any engine: its moves, its tile spawner and its win/lose test are
  function values. `Logic.Chance` is the randomness of one game: the initial
  board and the spawn draws. Tile bounds are assumptions about the engine,
  not theorems. `Logic.Within` asks that every occupied cell be a power of
  two within the bounds, and says nothing of empty cells. So every board
  `new_game` can return, with tiles of 2 or 4, is within 2..2048
  (`Replay.NewGameBoardWithin`). `Logic.KeepsWithin` asks only that moves on
  a board still in play, and spawns, keep the board within the bounds: those
  are the only moves the replay applies. A 2048 engine can meet it at
  2..2048. A board still in play has no 2048 tile. Merging two equal tiles
  below 2048 gives a power of two within 2..2048 (`Logic.MergeStaysWithin`),
  and spawns add 2s and 4s.
- **Exceptions.** The operators raise only the exceptions Python raises from
  inside them:
  - `ValueError` from `randint` on an empty range, and from `max` or `min` of
    an empty list;
  - `IndexError` from `choice` on an empty list.

  These are the `Results.Result` values.
- **State.** Where the source mutates state, the model does too:
  - `selecionar_pais` sorts the caller's list, an `array`, in place by
    insertion, proved equal to a stable sort function (`Selection.SortDesc`);
  - `mutar`, `gerar_nova_populacao`'s filling loop, `fitness`, the nested
    tile scans of `executar_jogo` and the generations loop of `rodar_ag` are
    loops with invariants, proved against specification functions.

Module layout follows the source:

| module | file | models |
|---|---|---|
| `Results`, `Slices`, `Rand` | `results.dfy`, `slices.dfy`, `rand.dfy` | exceptions and wrappers, Python slicing with integer bounds, the `random` calls |
| `Moves` | `moves.dfy` | genes, `valid_moves`, `generate_individual`, `generate_population` |
| `Logic` | `logic.dfy` | the interface of the grid engine |
| `Replay` | `replay.dfy` | `executar_jogo` |
| `Evaluation` | `evaluation.dfy` | `fitness`, `avaliar_populacao` |
| `Selection` | `selection.dfy` | `selecionar_pais` and its in-place stable sort |
| `Operators` | `operators.dfy` | `cruzar`, `mutar` |
| `Generation` | `generation.dfy` | `gerar_nova_populacao` |
| `History` | `history.dfy` | the generations loop and its best-ever record, for any generation step |
| `Driver` | `driver.dfy` | `calcular_metricas`, `rodar_ag` |
| `BestParents` | `best_parents.dfy` | the earlier copies of `fitness` and `avaliar_populacao` in `AG/best_parents.py` |

Where the code departs from what its tests or the usual contract of such an
operator would suggest, the model follows the code:

- **`cruzar`** does not compare the parents' lengths. It raises (ValueError,
  from `randint(1, 0)` or an empty range) only when the first parent has fewer
  than two genes. A shorter second parent gives shorter or longer children.
- **`selecionar_pais`** with a negative `n` is the Python slice `[:n]`. It
  drops the last `-n` entries instead of returning an empty list. `n = 0`
  gives an empty list.
- **The sort** is Python's stable `list.sort`. Equal fitnesses keep their
  input order. The model proves this exact order (`Selection.SortDescStable`).
- **`calcular_metricas([])`** raises ValueError (from `max`) rather than
  returning zeros. `rodar_ag` with `tamanho_pop <= 0` and at least one
  generation therefore raises (`Driver.EmptyPopulationRaises`).
- **No validation.** Nothing checks parameters up front. A non-positive count
  is an empty `range`; a mutation rate outside [0, 1] simply mutates every
  gene, or none.
- **`gerar_nova_populacao`** is called once per generation. A driver test
  expecting fewer calls does not describe the code.
- **The metrics test** writes `[0.3, 0.5, 0, 0,9, 0,99]`. That list holds
  99 and 9, so its expected maximum of 0.99 only fits the list it evidently
  means. `Driver.MetricsExample` uses `[0.3, 0.5, 0.0, 0.9, 0.99]`.

## Model

| member | source | states |
|---|---|---|
| Moves.Move | algorithm.py:8 | every pick of `random.choice(valid_moves)` is one of the four move symbols |
| Moves.GenerateIndividual | algorithm.py:48-49 | `size` genes (none for a negative size), all valid moves, gene `i` being choice `i` |
| Moves.GeneratePopulation | algorithm.py:52-53 | `population_size` individuals (none if negative), each of `individual_size` valid moves |
| Replay.MovesMap | algorithm.py:12-17 | a gene names a direction exactly when it is one of the valid moves, and "up", "down", "left" and "right" name exactly Up, Down, Left and Right |
| Replay.ScanMax | algorithm.py:36-38 | the nested scan returns the maximum of the accumulator and every tile of the board |
| Replay.ExecutarJogo | algorithm.py:11-45 | the replay loop, with its `continue`, `break`, spawn and scans, returns what the fold `Simulate` over the genes gives |
| Replay.RunAfterOver | algorithm.py:27-29 | after the `break` the remaining genes change nothing |
| Replay.EffectiveMovesBounded | algorithm.py:23-35 | effective moves are at most the genes naming a move, which are at most the genes |
| Replay.UnknownSymbolsSkipped | algorithm.py:24-25 | replaying an individual is replaying only its valid-move genes; unknown symbols are skipped |
| Replay.TerminalBoardFreezes | algorithm.py:27-29 | once the board is won or lost, later genes change neither board, count nor record, nor the result |
| Replay.SpawnOnlyAfterChange | algorithm.py:31-35 | a gene adds at most one effective move; it does so exactly when the move changed the board, and then a tile is spawned with the next spawn draw; with a truthful engine a gene adding no effective move leaves the board unchanged |
| Replay.RecordCoversBoard | algorithm.py:33-38 | with a truthful engine, before any effective move nothing is recorded and the board is the initial one; afterwards the record dominates every tile |
| Replay.ResultCoversFinalBoard | algorithm.py:40-45 | the reported tile is non-negative and at least every tile of the final board; with no effective move it is the initial board's largest tile |
| Replay.RunWithin | algorithm.py:23-38 | when the engine keeps the occupied cells powers of two within lo..hi (moves on boards in play, and spawns), every loop state does, and the record is 0 or such a tile value |
| Replay.BoardMaxWithin | algorithm.py:36-43 | scanning a board whose tiles are powers of two within lo..hi, from a record that is 0 or such a value, gives a power of two within lo..hi |
| Replay.NewGameBoardWithin | algorithm.py:19 | every board of 2s, 4s and empty cells with at least one tile, which is what `new_game` returns, is within the game's range 2..2048 |
| Logic.MergeStaysWithin | algorithm.py:27-31 | a tile of a board still in play (below the winning 2048), doubled by a merge, is again a power of two within 2..2048 |
| Replay.ReportedTileWithin | algorithm.py:40-45 | under the same assumption the reported tile is a power of two within lo..hi; with lo = 2 and hi = 2048 this is the game's range |
| Evaluation.MeanMaxTile | algorithm.py:57-58 | the fitness is 0.0 for an empty individual or a non-positive number of trials |
| Evaluation.Fitness | algorithm.py:56-65 | the accumulating loop over `executar_jogo` returns the mean of the trials' maximum tiles (0.0 in the edge cases) |
| Evaluation.FitnessIgnoresMoveCounts | algorithm.py:62-63 | the fitness depends only on the reported tiles, never on the move counts |
| Evaluation.MeanWithin | algorithm.py:65 | a mean of trial tiles within lo..hi lies within lo..hi |
| Evaluation.FitnessWithin | algorithm.py:56-65 | with every game starting within lo..hi and the engine keeping its occupied cells powers of two there, the fitness is 0.0 in the edge cases and otherwise within lo..hi (2..2048 for the game) |
| Evaluation.AvaliarPopulacao | algorithm.py:68-71 | one entry per individual, entry `i` pairing the fitness of individual `i` with that individual, in input order |
| Selection.InsertDescPermutes | algorithm.py:77 | an insertion step adds exactly the inserted entry |
| Selection.InsertDescSorted | algorithm.py:77 | an insertion step keeps a list ordered by non-increasing fitness |
| Selection.InsertDescStable | algorithm.py:77 | an insertion step places the inserted entry after every entry of its own fitness and keeps their order |
| Selection.SortDescStable | algorithm.py:77 | the sort is stable: for every fitness, its entries leave in the order they came in |
| Selection.SortDescSortsAndPermutes | algorithm.py:77 | the stable descending sort is a permutation of its input ordered by non-increasing fitness |
| Selection.InsertInPlace | algorithm.py:77 | one pass of the insertion sort on the array moves entry `i` into place and leaves the entries after it alone |
| Selection.SortInPlace | algorithm.py:77 | sorting the caller's array in place leaves it holding the stable descending sort of its old contents |
| Selection.Individuals | algorithm.py:78 | the comprehension keeps the individual of each entry, in order |
| Selection.SelecionarPais | algorithm.py:74-78 | the caller's list is left sorted, and the result is the individuals of its first `n` entries |
| Selection.SelectLength | algorithm.py:78 | min(n, len) parents for n >= 0; a negative n leaves out the last -n; an empty population gives none |
| Selection.SelectedAreBest | algorithm.py:77-78 | kept and excluded entries together are the input; every kept entry is at least as fit as every excluded one; the kept entries are ordered best first |
| Selection.SelectedFromInput | algorithm.py:78 | every parent is an individual of the evaluated population |
| Selection.SortDescSnoc | algorithm.py:77 | sorting a list with one more entry inserts that entry into the sorted list |
| Selection.SelectExample | algorithm.py:74-78 | fitnesses 0.3, 0.9, 0.1, 0.8 with n = 2 give the individuals of 0.9 and 0.8 |
| Selection.SelectTieExample | algorithm.py:77 | of three equal fitnesses the first two, in input order, are kept |
| Rand.Below | algorithm.py:107-108 | a draw picks a valid index of a non-empty list |
| Rand.RandInt | algorithm.py:83 | a draw gives a cut point within the inclusive bounds |
| Rand.RandIntOnto | algorithm.py:83 | every cut point in the bounds is reached by some draw |
| Slices.TakeDrop | algorithm.py:84-85 | `s[:k] + s[k:]` is `s` for every integer `k` |
| Operators.Cruzar | algorithm.py:81-86 | raises ValueError exactly when the first parent has fewer than two genes; otherwise the children are the slice swaps at some cut 1 <= k < len(pai1) |
| Operators.CrossoverSlices | algorithm.py:84-85 | with equal-length parents and a cut inside them, the children are `pai1[:k] + pai2[k:]` and `pai2[:k] + pai1[k:]`, both of the parents' length |
| Operators.CrossoverKeepsGenes | algorithm.py:84-85 | the two children hold exactly the genes of the two parents, as multisets |
| Operators.CrossoverKeepsMoves | algorithm.py:84-85 | children of valid-move parents hold only valid moves |
| Operators.CrossoverKeepsLength | algorithm.py:81-86 | equal-length parents of length >= 2 never raise and give children of that length |
| Operators.CrossoverExample | algorithm.py:81-86 | cutting ["up","up","down","left"] and ["left","right","up","down"] at 2 |
| Operators.CountBelow | algorithm.py:92 | the draws below the rate are at most the draws |
| Operators.Mutated | algorithm.py:89-94 | same length; gene `i` kept when draw `i` is at least the rate, otherwise a valid move |
| Operators.Mutar | algorithm.py:89-94 | the copy-and-mutate loop returns `Mutated`; the argument, a value, is untouched |
| Operators.Choices | algorithm.py:93 | the first `k` choices form a list of `k` genes |
| Operators.ChoiceAt | algorithm.py:93 | entry `c` of the first choices is choice `c` |
| Operators.ReplacedAreChoices | algorithm.py:91-93 | if each replaced gene takes the next unused choice, the replaced genes are exactly the first choices, in order |
| Operators.ChoicesConsumedInOrder | algorithm.py:91-93 | the mutant's replaced genes are the first CountBelow choices, each consumed once and in order |
| Operators.RateZeroKeepsAll | algorithm.py:92 | rate 0.0 or below returns an equal list |
| Operators.AllBelow | algorithm.py:92 | at rate 1.0 or above every draw counts as below the rate |
| Operators.RateOneReplacesAll | algorithm.py:92-93 | rate 1.0 or above replaces gene `i` by choice `i` |
| Operators.MutationAllDownExample | algorithm.py:89-94 | rate 1.0 with every choice "down" turns ["up","up","up"] into all "down" |
| Operators.MutationHalfRateExample | algorithm.py:89-94 | draws 0.3, 0.7, 0.4 at rate 0.5 with choices "right", "up" give ["right","down","up"] |
| Generation.Offspring | algorithm.py:107-112 | one pass raises exactly when there are no parents (IndexError) or the first chosen parent is shorter than two genes (ValueError) |
| Generation.Children | algorithm.py:106-112 | child `p` after the elites is child `p mod 2` of pass `p / 2` |
| Generation.NextPopulation | algorithm.py:97-114 | on success, max(tamanho_pop, len(pais)) individuals starting with the elites unchanged; IndexError exactly when there are no parents; the elites alone when they already fill the population |
| Generation.OffspringUnfolded | algorithm.py:107-112 | the loop body's steps compute `Offspring` |
| Generation.NextPopulationFailsAt | algorithm.py:106-109 | a pass that raises makes the whole call raise |
| Generation.NextPopulationSucceeds | algorithm.py:106-114 | when every needed pass succeeds, the result is the elites followed by the children |
| Generation.FilledSnoc | algorithm.py:110-112 | appending the next child keeps the population the elites followed by the children in order |
| Generation.FilledIsNext | algorithm.py:104-114 | a population filled in order is the elites followed by the children |
| Generation.FillPopulation | algorithm.py:104-114 | the `while` loop returns `NextPopulation`, raising from the first failing pass, and drops the second child of a last pass with one slot left |
| Generation.GerarNovaPopulacao | algorithm.py:97-114 | the caller's list is left sorted and the result is `NextPopulation` of the selected parents |
| Generation.NextPopulationBuilt | algorithm.py:106-112 | with parents all at least two genes long, nothing raises |
| Generation.NextPopulationRaises | algorithm.py:106-109 | when children are needed, no parents raise IndexError and parents all shorter than two genes raise ValueError |
| Generation.MutatedKeepsMoves | algorithm.py:93 | mutation of a valid-move individual gives one |
| Generation.OffspringShaped | algorithm.py:107-112 | children of parents of length L made of moves are of length L and made of moves |
| Generation.NextPopulationKeepsShape | algorithm.py:97-114 | a population of valid-move individuals of length L yields one of the same kind |
| History.IterateNext | algorithm.py:139 | one more pass of the loop applies the step to the current state |
| History.IterateErrPersists | algorithm.py:139-153 | an exception raised in some generation is what the whole run raises |
| History.IterateOkBefore | algorithm.py:139 | a run that succeeds succeeded at every earlier generation |
| History.IterateKeeps | algorithm.py:139 | an invariant of every pass holds after every number of passes |
| History.IterateSucceeds | algorithm.py:139 | passes that never raise from invariant states never raise |
| History.Keep | algorithm.py:145-149 | the record is replaced only by a strictly fitter champion; it never gets less fit |
| History.BestOf | algorithm.py:145-149 | the fittest of the champions, the earliest among equals; none for no champions |
| History.ChampionsOf | algorithm.py:139-149 | one champion per generation run |
| History.RecordIsBestSoFar | algorithm.py:135-149 | starting from no record, the record is the best of the champions so far |
| History.ChampionAt | algorithm.py:139-149 | champion `h` belongs to the state before generation `h`, a generation that succeeded |
| History.ChampionsOfPrefix | algorithm.py:139-149 | later generations only extend the list of champions |
| History.BestOfPrefix | algorithm.py:145-146 | the best of a prefix is no fitter than the best of the whole |
| History.RecordMonotone | algorithm.py:145-146 | the best-ever fitness never decreases from one generation to a later one |
| Driver.MaxOf | algorithm.py:119 | `max` of a non-empty list is an element at least every element |
| Driver.MinOf | algorithm.py:120 | `min` of a non-empty list is an element at most every element |
| Driver.CalcularMetricas | algorithm.py:117-124 | raises ValueError exactly on an empty list; otherwise best and worst are elements bounding every fitness |
| Driver.MetricsExample | algorithm.py:117-120 | [0.3, 0.5, 0.0, 0.9, 0.99] gives best 0.99 and worst 0.0 |
| Driver.Fitnesses | algorithm.py:141 | the fitness of each evaluated entry, in order |
| Driver.FirstBest | algorithm.py:147-149 | `max` with a key: an entry of greatest fitness, the first among equals |
| Driver.NumPais | algorithm.py:134 | `num_pais` is the larger of 2 and tamanho_pop // 2: at least both, and equal to one of them |
| Driver.Best | algorithm.py:143-149 | a generation's champion pairs the best fitness with the first evaluated individual reaching it |
| Driver.GenerationStep | algorithm.py:140-153 | one generation raises ValueError on an empty population, raises what breeding raises, and otherwise yields the new population with the record kept against the generation's best |
| Driver.Champions | algorithm.py:139-149 | one champion per generation run |
| Driver.StepRecords | algorithm.py:145-149 | every generation updates the record with its own champion |
| Driver.ChampionIsGenerationBest | algorithm.py:140-149 | champion `h` is the best of generation `h`'s evaluation, which was non-empty |
| Driver.BestEverIsBestSoFar | algorithm.py:135-149 | the best-ever record is the best of the generation champions so far, the earliest among equals |
| Driver.BestEverMonotone | algorithm.py:145-146 | the best-ever fitness never decreases over generations |
| Driver.SelectKeepsShape | algorithm.py:78 | parents selected from individuals of L valid moves have L valid moves |
| Driver.StepKeepsShape | algorithm.py:140-153 | a generation keeps `tamanho_pop` individuals of `tamanho_individuo` valid moves, and a record of that kind |
| Driver.StepPreservesShape | algorithm.py:140-153 | that shape is an invariant of every generation |
| Driver.RunKeepsShape | algorithm.py:137-153 | every population of a run has that shape, and so has the best-ever individual |
| Driver.StepSucceeds | algorithm.py:140-153 | a generation of the right shape raises nothing when it has somebody and either genomes of two genes or no offspring to breed |
| Driver.RunSucceeds | algorithm.py:127-155 | under those conditions the run returns, with a record once a generation ran |
| Driver.NoGenerations | algorithm.py:135-139 | running no generation returns `(float('-inf'), None)` |
| Driver.FirstGenerationRaises | algorithm.py:139-153 | an exception in the first generation is what the run raises |
| Driver.EmptyPopulationRaises | algorithm.py:142 | an empty population makes the first generation raise ValueError |
| Driver.ShortGenomesRaise | algorithm.py:151-153 | offspring needed but no genome of two genes: the first generation raises ValueError |
| Driver.Evolve | algorithm.py:140-153 | one pass of the loop body computes `GenerationStep`, sorting a copy of the evaluation |
| Driver.RodarAg | algorithm.py:127-155 | the loop returns what iterating the generation step gives, or the first exception; no generations yield no record |
| BestParents.Fitness | AG/best_parents.py:3-13 | the loop over the injected `simular_jogo` returns the mean of the reported tiles, 0.0 for an empty individual or no trials |
| BestParents.AvaliarPopulacao | AG/best_parents.py:16-22 | appending one pair per individual builds the same list as the comprehension in algorithm.py |
| BestParents.EvaluationKeepsPopulation | AG/best_parents.py:16-22 | the evaluated list carries the population itself, in order |

## Left out

- `logic.py` and `constants.py` (the grid engine and `GRID_LEN`) are not part of this model. They are abstract `Logic.Rules`, so the tile bounds of `Evaluation.FitnessWithin` (such as 2..2048) are hypotheses about the engine (`Logic.KeepsWithin` and a starting board within them), not theorems. That `logic.py`'s moves meet `KeepsWithin(_, 2, 2048)` is argued from `Logic.MergeStaysWithin`, not proved, since its merge code is not modelled.
- Replay.ReportedTileWithin: the 2..2048 instance rests on `KeepsWithin(_, 2, 2048)`. That `logic.py` meets it is argued from `Logic.MergeStaysWithin`: a board still in play has no 2048 tile, a merge doubles a tile below 2048, and spawns add 2s and 4s. It is not proved, because `logic.py`'s move and merge code is not modelled.
- Evaluation.FitnessWithin: its 2..2048 instance rests on the same `KeepsWithin(_, 2, 2048)` hypothesis, for the same reason.
- True randomness and its distributions: every draw, choice and spawn is a parameter, and nothing is said about probabilities.
- Floating point: fitnesses and rates are exact reals, so rounding in `soma_maior_tile / num_simulacoes` is not modelled.
- `statistics.mean`, `stdev` and `median` in `calcular_metricas`: floating-point statistics that nothing in the loop reads; the metrics hold the best and worst fitness only.
- The `.copy()` calls in `gerar_nova_populacao` and `rodar_ag`: lists are values here, so no aliasing can arise.
- `AG/mocks/mocks.py` (a random stand-in simulator) is a `Simulator` parameter of `BestParents.Fitness`.
- The draft tests of `test_genetic.py`, and the mock call-count checks in `test_algorithm.py`.
- `selecionar_pais` of `AG/best_parents.py` (lines 24-30) has no member of its own: it differs from that of `algorithm.py` only by naming its slice `n_melhores`, so `Selection.SelecionarPais` models both.

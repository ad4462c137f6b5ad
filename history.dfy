/** The generations loop of `rodar_ag` as an iteration of one pass, and what
    the loop keeps about the best individual ever seen; independent of what a
    pass computes. */
module History {
  import opened Results
  import opened Moves

  /** `melhor_fitness_global` with `melhor_individuo_global`. */
  datatype Record = Record(fitness: real, individuo: Individual)

  /** The loop state: the current population and the best-ever record, `None`
      standing for `(float('-inf'), None)`. */
  datatype Search = Search(populacao: seq<Individual>, melhor: Option<Record>)

  /** Pass `h` of the loop maps the state `s` to `step(h, s)`, or raises. */
  type Step = (nat, Search) -> Result<Search>

  /** The state after `g` passes from `init`; the first error ends the loop. */
  function Iterate(step: Step, init: Search, g: nat): Result<Search>
    decreases g
  {
    if g == 0 then Ok(init)
    else match Iterate(step, init, g - 1)
      case Err(e) => Err(e)
      case Ok(s) => step(g - 1, s)
  }

  lemma IterateNext(step: Step, init: Search, h: nat, g: nat, s: Search)
    requires g == h + 1 && Iterate(step, init, h) == Ok(s)
    ensures Iterate(step, init, g) == step(h, s)
  {
  }

  /** An error raised in some pass is what the whole loop raises. */
  lemma {:induction false} IterateErrPersists(step: Step, init: Search, g1: nat, g2: nat)
    requires g1 <= g2 && Iterate(step, init, g1).Err?
    ensures Iterate(step, init, g2) == Iterate(step, init, g1)
    decreases g2
  {
    if g1 < g2 {
      var h := g2 - 1;
      IterateErrPersists(step, init, g1, h);
    }
  }

  lemma IterateOkBefore(step: Step, init: Search, h: nat, g: nat)
    requires h <= g && Iterate(step, init, g).Ok?
    ensures Iterate(step, init, h).Ok?
  {
    if Iterate(step, init, h).Err? {
      IterateErrPersists(step, init, h, g);
    }
  }

  /** `inv` survives every successful pass. */
  ghost predicate Preserves(step: Step, inv: Search -> bool) {
    forall h: nat, s: Search :: inv(s) && step(h, s).Ok? ==> inv(step(h, s).value)
  }

  /** No pass raises from a state satisfying `inv`. */
  ghost predicate Enabled(step: Step, inv: Search -> bool) {
    forall h: nat, s: Search :: inv(s) ==> step(h, s).Ok?
  }

  lemma {:induction false} IterateKeeps(step: Step, init: Search, inv: Search -> bool, g: nat)
    requires inv(init) && Preserves(step, inv)
    ensures Iterate(step, init, g).Ok? ==> inv(Iterate(step, init, g).value)
    decreases g
  {
    if g > 0 {
      var h := g - 1;
      IterateKeeps(step, init, inv, h);
    }
  }

  lemma {:induction false} IterateSucceeds(step: Step, init: Search, inv: Search -> bool, g: nat)
    requires inv(init) && Preserves(step, inv) && Enabled(step, inv)
    ensures Iterate(step, init, g).Ok?
    ensures inv(Iterate(step, init, g).value)
    decreases g
  {
    if g > 0 {
      var h := g - 1;
      IterateSucceeds(step, init, inv, h);
    }
  }

  /** The record after a pass whose best is `c`: replaced only by a strictly
      fitter one (`melhor_fitness > melhor_fitness_global`). */
  function Keep(melhor: Option<Record>, c: Record): (r: Option<Record>)
    ensures r.Some?
    ensures melhor.Some? ==> melhor.value.fitness <= r.value.fitness
    ensures r == melhor || r == Some(c)
    ensures melhor.Some? && c.fitness <= melhor.value.fitness ==> r == melhor
  {
    if melhor.None? || c.fitness > melhor.value.fitness then Some(c) else melhor
  }

  /** The record of greatest fitness in `cs`, the earliest one among equals. */
  function BestOf(cs: seq<Record>): (b: Option<Record>)
    ensures b.None? <==> cs == []
    ensures b.Some? ==> forall i :: 0 <= i < |cs| ==> cs[i].fitness <= b.value.fitness
    ensures b.Some? ==> exists i :: 0 <= i < |cs| && cs[i] == b.value &&
                                    (forall k :: 0 <= k < i ==> cs[k].fitness < b.value.fitness)
  {
    if cs == [] then None
    else
      var init := cs[..|cs| - 1];
      var b := BestOf(init);
      assert forall i :: 0 <= i < |init| ==> init[i] == cs[i];
      Keep(b, cs[|cs| - 1])
  }

  /** Every successful pass updates the record with `champ(h, s)`. */
  ghost predicate Records(step: Step, champ: (nat, Search) -> Record) {
    forall h: nat, s: Search :: step(h, s).Ok? ==> step(h, s).value.melhor == Keep(s.melhor, champ(h, s))
  }

  /** The champions of the first `g` passes, in order. */
  function ChampionsOf(step: Step, init: Search, champ: (nat, Search) -> Record, g: nat): (cs: seq<Record>)
    requires Iterate(step, init, g).Ok?
    ensures |cs| == g
    decreases g
  {
    if g == 0 then []
    else
      var h := g - 1;
      IterateOkBefore(step, init, h, g);
      ChampionsOf(step, init, champ, h) + [champ(h, Iterate(step, init, h).value)]
  }

  /** Starting with no record, the record after `g` passes is the best of the
      champions so far: as fit as any of them and the earliest of its
      fitness. */
  lemma {:induction false} RecordIsBestSoFar(step: Step, init: Search, champ: (nat, Search) -> Record, g: nat)
    requires init.melhor.None? && Records(step, champ) && Iterate(step, init, g).Ok?
    ensures Iterate(step, init, g).value.melhor == BestOf(ChampionsOf(step, init, champ, g))
    decreases g
  {
    if g > 0 {
      var h := g - 1;
      IterateOkBefore(step, init, h, g);
      RecordIsBestSoFar(step, init, champ, h);
      var s := Iterate(step, init, h).value;
      IterateNext(step, init, h, g, s);
      var cs := ChampionsOf(step, init, champ, h);
      var c := champ(h, s);
      var all := ChampionsOf(step, init, champ, g);
      assert all == cs + [c];
      assert all[..|cs|] == cs;
      assert BestOf(all) == Keep(BestOf(cs), c);
      assert step(h, s).value.melhor == Keep(s.melhor, c);
    }
  }

  /** Entry `h` of the champions is the champion of the state before pass
      `h`, a pass that succeeded. */
  lemma ChampionAt(step: Step, init: Search, champ: (nat, Search) -> Record, g: nat, h: nat)
    requires h < g && Iterate(step, init, g).Ok?
    ensures Iterate(step, init, h).Ok?
    ensures step(h, Iterate(step, init, h).value).Ok?
    ensures ChampionsOf(step, init, champ, g)[h] == champ(h, Iterate(step, init, h).value)
  {
    var h1 := h + 1;
    IterateOkBefore(step, init, h1, g);
    IterateOkBefore(step, init, h, h1);
    ChampionsOfPrefix(step, init, champ, h1, g);
    var s := Iterate(step, init, h).value;
    IterateNext(step, init, h, h1, s);
    assert ChampionsOf(step, init, champ, h1) == ChampionsOf(step, init, champ, h) + [champ(h, s)];
  }

  /** Later passes only extend the list of champions. */
  lemma {:induction false} ChampionsOfPrefix(step: Step, init: Search, champ: (nat, Search) -> Record, g1: nat, g2: nat)
    requires g1 <= g2 && Iterate(step, init, g2).Ok?
    ensures Iterate(step, init, g1).Ok?
    ensures ChampionsOf(step, init, champ, g1) == ChampionsOf(step, init, champ, g2)[..g1]
    decreases g2
  {
    IterateOkBefore(step, init, g1, g2);
    if g1 < g2 {
      var h := g2 - 1;
      IterateOkBefore(step, init, h, g2);
      ChampionsOfPrefix(step, init, champ, g1, h);
      var cs := ChampionsOf(step, init, champ, h);
      assert ChampionsOf(step, init, champ, g2)[..g1] == cs[..g1];
    }
  }

  /** The best of a non-empty prefix is no fitter than the best of the whole. */
  lemma BestOfPrefix(c1: seq<Record>, c2: seq<Record>)
    requires c1 != [] && |c1| <= |c2| && c1 == c2[..|c1|]
    ensures BestOf(c1).Some? && BestOf(c2).Some?
    ensures BestOf(c1).value.fitness <= BestOf(c2).value.fitness
  {
    var b := BestOf(c1).value;
    var i :| 0 <= i < |c1| && c1[i] == b && (forall k :: 0 <= k < i ==> c1[k].fitness < b.fitness);
    assert c2[i] == b;
  }

  /** The best-ever fitness never decreases from one pass to a later one. */
  lemma RecordMonotone(step: Step, init: Search, champ: (nat, Search) -> Record, g1: nat, g2: nat)
    requires init.melhor.None? && Records(step, champ)
    requires 1 <= g1 <= g2 && Iterate(step, init, g2).Ok?
    ensures Iterate(step, init, g1).Ok?
    ensures Iterate(step, init, g1).value.melhor.Some? && Iterate(step, init, g2).value.melhor.Some?
    ensures Iterate(step, init, g1).value.melhor.value.fitness <= Iterate(step, init, g2).value.melhor.value.fitness
  {
    IterateOkBefore(step, init, g1, g2);
    RecordIsBestSoFar(step, init, champ, g1);
    RecordIsBestSoFar(step, init, champ, g2);
    ChampionsOfPrefix(step, init, champ, g1, g2);
    BestOfPrefix(ChampionsOf(step, init, champ, g1), ChampionsOf(step, init, champ, g2));
  }
}

/** Elitist parent selection (algorithm.py and AG/best_parents.py,
    `selecionar_pais`): sort the evaluated population in place by fitness,
    best first, and keep the first `n` individuals. */
module Selection {
  import opened Moves
  import opened Slices
  import opened Evaluation

  /** Inserts `x` after every entry whose fitness is at least `x`'s, scanning
      from the end of `s`. */
  function InsertDesc(s: seq<Evaluated>, x: Evaluated): seq<Evaluated> {
    if s == [] || s[|s| - 1].0 >= x.0 then s + [x]
    else InsertDesc(s[..|s| - 1], x) + [s[|s| - 1]]
  }

  /** `list.sort(key=lambda item: item[0], reverse=True)`: Python's sort is
      stable, so entries of equal fitness keep their input order. */
  function SortDesc(s: seq<Evaluated>): seq<Evaluated> {
    if s == [] then [] else InsertDesc(SortDesc(s[..|s| - 1]), s[|s| - 1])
  }

  predicate NonIncreasing(s: seq<Evaluated>) {
    forall i, j :: 0 <= i < j < |s| ==> s[i].0 >= s[j].0
  }

  lemma {:induction false} InsertDescPermutes(s: seq<Evaluated>, x: Evaluated)
    ensures multiset(InsertDesc(s, x)) == multiset(s) + multiset{x}
  {
    if !(s == [] || s[|s| - 1].0 >= x.0) {
      InsertDescPermutes(s[..|s| - 1], x);
      assert s == s[..|s| - 1] + [s[|s| - 1]];
    }
  }

  lemma {:induction false} InsertDescSorted(s: seq<Evaluated>, x: Evaluated)
    requires NonIncreasing(s)
    ensures NonIncreasing(InsertDesc(s, x))
  {
    if !(s == [] || s[|s| - 1].0 >= x.0) {
      var init, last := s[..|s| - 1], s[|s| - 1];
      InsertDescSorted(init, x);
      InsertDescPermutes(init, x);
      var r := InsertDesc(init, x);
      forall i | 0 <= i < |r| ensures r[i].0 >= last.0 {
        assert r[i] in multiset(init) + multiset{x};
        if r[i] != x {
          assert r[i] in init;
        }
      }
    }
  }

  /** The sort is a permutation of its input ordered by non-increasing fitness. */
  lemma {:induction false} SortDescSortsAndPermutes(s: seq<Evaluated>)
    ensures multiset(SortDesc(s)) == multiset(s) && |SortDesc(s)| == |s|
    ensures NonIncreasing(SortDesc(s))
  {
    if s != [] {
      var init, last := s[..|s| - 1], s[|s| - 1];
      SortDescSortsAndPermutes(init);
      InsertDescPermutes(SortDesc(init), last);
      InsertDescSorted(SortDesc(init), last);
      assert s == init + [last];
      assert |multiset(SortDesc(s))| == |multiset(s)|;
    }
  }

  /** The entries of `s` whose fitness is `f`, in their order in `s`. */
  function WithFitness(s: seq<Evaluated>, f: real): seq<Evaluated> {
    if s == [] then []
    else WithFitness(s[..|s| - 1], f) + (if s[|s| - 1].0 == f then [s[|s| - 1]] else [])
  }

  /** Inserting `x` puts it after every entry of its own fitness. */
  lemma {:induction false} InsertDescStable(s: seq<Evaluated>, x: Evaluated, f: real)
    ensures WithFitness(InsertDesc(s, x), f) == WithFitness(s, f) + (if x.0 == f then [x] else [])
  {
    if s == [] || s[|s| - 1].0 >= x.0 {
      assert (s + [x])[..|s|] == s;
    } else {
      var init, last := s[..|s| - 1], s[|s| - 1];
      InsertDescStable(init, x, f);
      var r := InsertDesc(init, x);
      assert (r + [last])[..|r|] == r;
    }
  }

  /** The sort is stable: for every fitness, the entries of that fitness come
      out in the order they went in. */
  lemma {:induction false} SortDescStable(s: seq<Evaluated>, f: real)
    ensures WithFitness(SortDesc(s), f) == WithFitness(s, f)
  {
    if s != [] {
      var init, last := s[..|s| - 1], s[|s| - 1];
      SortDescStable(init, f);
      InsertDescStable(SortDesc(init), last, f);
    }
  }

  /** One shift of the insertion loop, on the array's contents `b`: copying
      `b[j - 1]` into slot `j` keeps `InsertDesc(sorted, x)` described. */
  lemma ShiftStep(b: seq<Evaluated>, sorted: seq<Evaluated>, x: Evaluated, j: nat, i: nat)
    requires 0 < j <= i < |b| && b[j - 1].0 < x.0
    requires InsertDesc(sorted, x) == InsertDesc(b[..j], x) + b[j + 1..i + 1]
    ensures InsertDesc(sorted, x) == InsertDesc(b[j := b[j - 1]][..j - 1], x) + b[j := b[j - 1]][j..i + 1]
  {
    var c := b[j := b[j - 1]];
    assert b[..j][..j - 1] == b[..j - 1];
    assert InsertDesc(b[..j], x) == InsertDesc(b[..j - 1], x) + [b[j - 1]];
    assert c[..j - 1] == b[..j - 1];
    assert c[j..i + 1] == [b[j - 1]] + b[j + 1..i + 1];
  }

  /** The end of the insertion loop: `x` goes into slot `j`. */
  lemma PlaceStep(b: seq<Evaluated>, sorted: seq<Evaluated>, x: Evaluated, j: nat, i: nat)
    requires j <= i < |b| && (j == 0 || b[j - 1].0 >= x.0)
    requires InsertDesc(sorted, x) == InsertDesc(b[..j], x) + b[j + 1..i + 1]
    ensures b[j := x][..i + 1] == InsertDesc(sorted, x)
  {
    var c := b[j := x];
    assert c[..j] == b[..j];
    assert c[j + 1..i + 1] == b[j + 1..i + 1];
    assert c[..i + 1] == c[..j] + [x] + c[j + 1..i + 1];
  }

  /** Moves `a[i]` left past the entries of lower fitness just before it. */
  method InsertInPlace(a: array<Evaluated>, i: nat)
    requires i < a.Length
    modifies a
    ensures a[..i + 1] == InsertDesc(old(a[..i]), old(a[i]))
    ensures a[i + 1..] == old(a[i + 1..])
  {
    ghost var sorted := a[..i];
    var x := a[i];
    var j := i;
    assert a[j + 1..i + 1] == [];
    while j > 0 && a[j - 1].0 < x.0
      invariant 0 <= j <= i
      invariant InsertDesc(sorted, x) == InsertDesc(a[..j], x) + a[j + 1..i + 1]
      invariant a[i + 1..] == old(a[i + 1..])
    {
      ShiftStep(a[..], sorted, x, j, i);
      a[j] := a[j - 1];
      j := j - 1;
    }
    PlaceStep(a[..], sorted, x, j, i);
    a[j] := x;
  }

  /** `populacao_com_fitness.sort(key=lambda item: item[0], reverse=True)` on
      the caller's list, by insertion. */
  method SortInPlace(a: array<Evaluated>)
    modifies a
    ensures a[..] == SortDesc(old(a[..]))
  {
    ghost var s := a[..];
    var i := 0;
    while i < a.Length
      invariant 0 <= i <= a.Length
      invariant a[..i] == SortDesc(s[..i])
      invariant a[i..] == s[i..]
    {
      assert s[..i + 1][..i] == s[..i];
      assert a[i] == s[i];
      InsertInPlace(a, i);
      i := i + 1;
    }
    assert s[..a.Length] == s;
  }

  /** `[individuo for _, individuo in ...]` */
  function Individuals(s: seq<Evaluated>): (r: seq<Individual>)
    ensures |r| == |s| && forall i :: 0 <= i < |s| ==> r[i] == s[i].1
  {
    seq(|s|, i requires 0 <= i < |s| => s[i].1)
  }

  /** The parents `selecionar_pais(populacao_com_fitness, n)` returns. */
  function Select(s: seq<Evaluated>, n: int): seq<Individual> {
    Individuals(Take(SortDesc(s), n))
  }

  /** `selecionar_pais(populacao_com_fitness, n)`: the caller's list is left
      sorted, and the first `n` individuals of it are returned. */
  method SelecionarPais(a: array<Evaluated>, n: int) returns (pais: seq<Individual>)
    modifies a
    ensures a[..] == SortDesc(old(a[..]))
    ensures pais == Select(old(a[..]), n)
  {
    SortInPlace(a);
    pais := Individuals(Take(a[..], n));
  }

  /** For n >= 0 the selection has min(n, len) parents; a negative n, as a
      Python slice bound, leaves out the last -n entries. An empty population
      gives no parents. */
  lemma SelectLength(s: seq<Evaluated>, n: int)
    ensures |Select(s, n)| ==
      if n >= 0 then (if n <= |s| then n else |s|)
      else (if |s| + n >= 0 then |s| + n else 0)
  {
    SortDescSortsAndPermutes(s);
  }

  /** The kept entries and the excluded ones together are the input, and every
      kept entry has fitness at least that of every excluded one; the parents
      are the kept entries' individuals, best first. */
  lemma SelectedAreBest(s: seq<Evaluated>, n: int)
    ensures var r := SortDesc(s);
      var chosen, rest := Take(r, n), Drop(r, n);
      multiset(chosen) + multiset(rest) == multiset(s) &&
      (forall c, x :: c in chosen && x in rest ==> c.0 >= x.0) &&
      NonIncreasing(chosen) && Select(s, n) == Individuals(chosen)
  {
    var r := SortDesc(s);
    SortDescSortsAndPermutes(s);
    TakeDrop(r, n);
    assert multiset(Take(r, n) + Drop(r, n)) == multiset(s);
    var k := Bound(|r|, n);
    forall c, x | c in Take(r, n) && x in Drop(r, n) ensures c.0 >= x.0 {
      var i :| 0 <= i < k && r[i] == c;
      var j :| k <= j < |r| && r[j] == x;
    }
  }

  /** Every parent is an individual of the evaluated population. */
  lemma SelectedFromInput(s: seq<Evaluated>, n: int)
    ensures forall i :: 0 <= i < |Select(s, n)| ==> exists j :: 0 <= j < |s| && Select(s, n)[i] == s[j].1
  {
    var r := SortDesc(s);
    SortDescSortsAndPermutes(s);
    var p := Select(s, n);
    forall i | 0 <= i < |p| ensures exists j :: 0 <= j < |s| && p[i] == s[j].1 {
      assert r[i] in multiset(r);
      assert r[i] in s;
      var j :| 0 <= j < |s| && s[j] == r[i];
    }
  }

  lemma SortDescSnoc(s: seq<Evaluated>, x: Evaluated)
    ensures SortDesc(s + [x]) == InsertDesc(SortDesc(s), x)
  {
    assert (s + [x])[..|s|] == s;
  }

  /** The two best of four distinct fitnesses, best first. */
  lemma SelectExample()
    ensures Select([(0.3, ["left"]), (0.9, ["right"]), (0.1, ["down"]), (0.8, ["up"])], 2)
      == [["right"], ["up"]]
  {
    var a, b, c, d: Evaluated := (0.3, ["left"]), (0.9, ["right"]), (0.1, ["down"]), (0.8, ["up"]);
    assert SortDesc([a]) == [a] by {
      SortDescSnoc([], a);
    }
    assert SortDesc([a, b]) == [b, a] by {
      SortDescSnoc([a], b);
      assert InsertDesc([a], b) == InsertDesc([], b) + [a];
    }
    assert SortDesc([a, b, c]) == [b, a, c] by {
      SortDescSnoc([a, b], c);
      assert [a, b] + [c] == [a, b, c];
    }
    assert SortDesc([a, b, c, d]) == [b, d, a, c] by {
      SortDescSnoc([a, b, c], d);
      assert [a, b, c] + [d] == [a, b, c, d];
      assert [b, a, c][..2] == [b, a];
      assert [b, a][..1] == [b];
      assert InsertDesc([b], d) == [b, d];
      assert InsertDesc([b, a], d) == [b, d, a];
      assert InsertDesc([b, a, c], d) == [b, d, a, c];
    }
    assert Take([b, d, a, c], 2) == [b, d];
    assert Individuals([b, d]) == [["right"], ["up"]];
  }

  /** Ties keep their input order (the sort is stable): of three equal
      fitnesses the first two individuals are kept. */
  lemma SelectTieExample()
    ensures Select([(0.5, ["left"]), (0.5, ["right"]), (0.5, ["up"])], 2) == [["left"], ["right"]]
  {
    var a, b, c: Evaluated := (0.5, ["left"]), (0.5, ["right"]), (0.5, ["up"]);
    SortDescSnoc([], a);
    SortDescSnoc([a], b);
    SortDescSnoc([a, b], c);
    assert [a, b, c] == [a, b] + [c];
    assert SortDesc([a, b, c]) == [a, b, c];
  }
}

/** Replaying an individual's moves on one simulated game
    (algorithm.py, `executar_jogo`). */
module Replay {
  import opened Results
  import opened Moves
  import opened Logic

  /** `movimentos_map`: the direction a gene names, if it names one. */
  function MovesMap(g: Gene): (d: Option<Direction>)
    ensures d.Some? <==> IsMove(g)
    ensures d == Some(Up) <==> g == "up"
    ensures d == Some(Down) <==> g == "down"
    ensures d == Some(Left) <==> g == "left"
    ensures d == Some(Right) <==> g == "right"
  {
    if g == "up" then Some(Up)
    else if g == "down" then Some(Down)
    else if g == "left" then Some(Left)
    else if g == "right" then Some(Right)
    else None
  }

  /** Python's `max(a, b)` on integers. */
  function Max(a: int, b: int): int {
    if a >= b then a else b
  }

  /** `maior_numero` after folding `max` over one row, starting from `acc`. */
  function RowMax(acc: int, row: seq<int>): (m: int)
    ensures m >= acc && forall j :: 0 <= j < |row| ==> m >= row[j]
    ensures m == acc || exists j :: 0 <= j < |row| && m == row[j]
  {
    if row == [] then acc
    else
      var m := RowMax(acc, row[..|row| - 1]);
      assert forall j :: 0 <= j < |row| - 1 ==> row[..|row| - 1][j] == row[j];
      Max(m, row[|row| - 1])
  }

  /** `maior_numero` after folding `max` over every tile of the board. */
  function BoardMax(acc: int, b: Board): (m: int)
    ensures m >= acc && forall i, j :: 0 <= i < |b| && 0 <= j < |b[i]| ==> m >= b[i][j]
    ensures m == acc || exists i, j :: 0 <= i < |b| && 0 <= j < |b[i]| && m == b[i][j]
  {
    if b == [] then acc
    else
      var m := BoardMax(acc, b[..|b| - 1]);
      assert forall i :: 0 <= i < |b| - 1 ==> b[..|b| - 1][i] == b[i];
      RowMax(m, b[|b| - 1])
  }

  /** The nested `for linha in matriz: for numero in linha` scans. */
  method ScanMax(acc: int, matriz: Board) returns (m: int)
    ensures m == BoardMax(acc, matriz)
  {
    m := acc;
    for i := 0 to |matriz|
      invariant m == BoardMax(acc, matriz[..i])
    {
      var linha := matriz[i];
      ghost var before := m;
      for j := 0 to |linha|
        invariant m == RowMax(before, linha[..j])
      {
        assert linha[..j + 1][..j] == linha[..j];
        m := Max(m, linha[j]);
      }
      assert linha[..|linha|] == linha;
      assert matriz[..i + 1][..i] == matriz[..i];
    }
    assert matriz[..|matriz|] == matriz;
  }

  /** The loop variables of `executar_jogo`; `over` is set by the `break`. */
  datatype Play = Play(matriz: Board, movimentosValidos: nat, maiorNumero: int, over: bool)

  function Start(chance: Chance): Play {
    Play(chance.start, 0, 0, false)
  }

  /** One iteration of the replay loop on gene `g`. */
  function Step(rules: Rules, chance: Chance, p: Play, g: Gene): Play {
    if p.over then p
    else match MovesMap(g)
      case None => p
      case Some(d) =>
        var estado := rules.gameState(p.matriz);
        if estado == Lose || estado == Win then p.(over := true)
        else
          var (b, realizado) := rules.move(d, p.matriz);
          if realizado then
            var b' := rules.addTwo(b, chance.spawns(p.movimentosValidos));
            Play(b', p.movimentosValidos + 1, BoardMax(p.maiorNumero, b'), false)
          else p.(matriz := b)
  }

  /** The loop state after processing the genes `gs` in order. */
  function Run(rules: Rules, chance: Chance, gs: Individual): Play {
    if gs == [] then Start(chance)
    else Step(rules, chance, Run(rules, chance, gs[..|gs| - 1]), gs[|gs| - 1])
  }

  /** What `executar_jogo` returns: the largest tile seen (taken from the final
      board when none was recorded) and the number of effective moves. */
  function Simulate(rules: Rules, chance: Chance, individuo: Individual): (int, nat) {
    var p := Run(rules, chance, individuo);
    (if p.maiorNumero == 0 then BoardMax(p.maiorNumero, p.matriz) else p.maiorNumero,
     p.movimentosValidos)
  }

  lemma RunSnoc(rules: Rules, chance: Chance, gs: Individual, g: Gene)
    ensures Run(rules, chance, gs + [g]) == Step(rules, chance, Run(rules, chance, gs), g)
  {
    assert (gs + [g])[..|gs|] == gs;
  }

  /** Once the loop has broken, the remaining genes change nothing. */
  lemma {:induction false} RunAfterOver(rules: Rules, chance: Chance, gs: Individual, k: nat)
    requires k <= |gs| && Run(rules, chance, gs[..k]).over
    ensures Run(rules, chance, gs) == Run(rules, chance, gs[..k])
    decreases |gs|
  {
    if k < |gs| {
      var init := gs[..|gs| - 1];
      assert init[..k] == gs[..k];
      RunAfterOver(rules, chance, init, k);
    } else {
      assert gs[..k] == gs;
    }
  }

  /** `executar_jogo(individuo)` against a given engine and game randomness. */
  method ExecutarJogo(rules: Rules, chance: Chance, individuo: Individual)
    returns (maiorNumero: int, movimentosValidos: nat)
    ensures (maiorNumero, movimentosValidos) == Simulate(rules, chance, individuo)
  {
    var matriz := chance.start;
    movimentosValidos := 0;
    maiorNumero := 0;
    var i := 0;
    while i < |individuo|
      invariant 0 <= i <= |individuo|
      invariant Run(rules, chance, individuo[..i]) == Play(matriz, movimentosValidos, maiorNumero, false)
    {
      var movimento := individuo[i];
      RunSnoc(rules, chance, individuo[..i], movimento);
      assert individuo[..i + 1] == individuo[..i] + [movimento];
      var direcao := MovesMap(movimento);
      if direcao.None? {
        i := i + 1;
        continue;
      }
      var estadoJogo := rules.gameState(matriz);
      if estadoJogo == Lose || estadoJogo == Win {
        RunAfterOver(rules, chance, individuo, i + 1);
        assert individuo[..|individuo|] == individuo;
        break;
      }
      var (novaMatriz, movimentoRealizado) := rules.move(direcao.value, matriz);
      matriz := novaMatriz;
      if movimentoRealizado {
        matriz := rules.addTwo(matriz, chance.spawns(movimentosValidos));
        movimentosValidos := movimentosValidos + 1;
        maiorNumero := ScanMax(maiorNumero, matriz);
      }
      i := i + 1;
    }
    assert i == |individuo| ==> individuo[..i] == individuo;
    ghost var p := Run(rules, chance, individuo);
    assert p.matriz == matriz && p.movimentosValidos == movimentosValidos && p.maiorNumero == maiorNumero;
    if maiorNumero == 0 {
      maiorNumero := ScanMax(maiorNumero, matriz);
    }
  }

  /** The number of genes that name a move. */
  function CountMoves(gs: Individual): (n: nat)
    ensures n <= |gs|
  {
    if gs == [] then 0
    else CountMoves(gs[..|gs| - 1]) + (if IsMove(gs[|gs| - 1]) then 1 else 0)
  }

  /** The genes that name a move, in order. */
  function OnlyMoves(gs: Individual): (r: Individual)
    ensures AllMoves(r) && |r| == CountMoves(gs)
  {
    if gs == [] then []
    else OnlyMoves(gs[..|gs| - 1]) + (if IsMove(gs[|gs| - 1]) then [gs[|gs| - 1]] else [])
  }

  /** Effective moves never outnumber the genes that name a move, which never
      outnumber the genes. */
  lemma {:induction false} EffectiveMovesBounded(rules: Rules, chance: Chance, gs: Individual)
    ensures Run(rules, chance, gs).movimentosValidos <= CountMoves(gs) <= |gs|
  {
    if gs != [] {
      EffectiveMovesBounded(rules, chance, gs[..|gs| - 1]);
    }
  }

  /** Unknown symbols are skipped: replaying an individual is replaying only
      the genes of it that name a move. */
  lemma {:induction false} UnknownSymbolsSkipped(rules: Rules, chance: Chance, gs: Individual)
    ensures Run(rules, chance, gs) == Run(rules, chance, OnlyMoves(gs))
    ensures Simulate(rules, chance, gs) == Simulate(rules, chance, OnlyMoves(gs))
  {
    if gs != [] {
      var init, g := gs[..|gs| - 1], gs[|gs| - 1];
      UnknownSymbolsSkipped(rules, chance, init);
      if IsMove(g) {
        RunSnoc(rules, chance, OnlyMoves(init), g);
      } else {
        assert OnlyMoves(gs) == OnlyMoves(init) + [];
        assert OnlyMoves(init) + [] == OnlyMoves(init);
      }
    }
  }

  /** Once a board is won or lost, no further gene moves, spawns or scores:
      the loop breaks before applying any move. */
  lemma {:induction false} TerminalBoardFreezes(rules: Rules, chance: Chance, xs: Individual, ys: Individual)
    requires rules.gameState(Run(rules, chance, xs).matriz) != NotOver
    ensures var p, q := Run(rules, chance, xs), Run(rules, chance, xs + ys);
      q.matriz == p.matriz && q.movimentosValidos == p.movimentosValidos && q.maiorNumero == p.maiorNumero
    ensures Simulate(rules, chance, xs + ys) == Simulate(rules, chance, xs)
    decreases |ys|
  {
    if ys == [] {
      assert xs + ys == xs;
    } else {
      var init := ys[..|ys| - 1];
      TerminalBoardFreezes(rules, chance, xs, init);
      assert xs + ys == (xs + init) + [ys[|ys| - 1]];
      RunSnoc(rules, chance, xs + init, ys[|ys| - 1]);
    }
  }

  /** Each gene adds at most one effective move; a new tile is spawned exactly
      when the move changed the board, using the next spawn draw; and with an
      honest engine a gene that adds no effective move leaves the board as it was. */
  lemma SpawnOnlyAfterChange(rules: Rules, chance: Chance, xs: Individual, g: Gene)
    ensures var p, q := Run(rules, chance, xs), Run(rules, chance, xs + [g]);
      (q.movimentosValidos == p.movimentosValidos || q.movimentosValidos == p.movimentosValidos + 1) &&
      (q.movimentosValidos == p.movimentosValidos + 1 <==>
         !p.over && IsMove(g) && rules.gameState(p.matriz) == NotOver &&
         rules.move(MovesMap(g).value, p.matriz).1) &&
      (q.movimentosValidos == p.movimentosValidos + 1 ==>
         q.matriz == rules.addTwo(rules.move(MovesMap(g).value, p.matriz).0, chance.spawns(p.movimentosValidos))) &&
      (q.movimentosValidos == p.movimentosValidos && Honest(rules) ==> q.matriz == p.matriz)
  {
    RunSnoc(rules, chance, xs, g);
  }

  /** With an honest engine, the recorded maximum dominates the current board
      once a move has been effective; before that nothing was recorded and the
      board is still the initial one. */
  lemma {:induction false} RecordCoversBoard(rules: Rules, chance: Chance, gs: Individual)
    requires Honest(rules)
    ensures var p := Run(rules, chance, gs);
      (p.movimentosValidos == 0 ==> p.maiorNumero == 0 && p.matriz == chance.start) &&
      (p.movimentosValidos > 0 ==>
         forall i, j :: 0 <= i < |p.matriz| && 0 <= j < |p.matriz[i]| ==> p.matriz[i][j] <= p.maiorNumero)
  {
    if gs != [] {
      RecordCoversBoard(rules, chance, gs[..|gs| - 1]);
    }
  }

  /** With an honest engine the reported tile is at least every tile of the
      final board, and with no effective move it is the largest tile of the
      initial board (or 0 on a board without positive tiles). */
  lemma ResultCoversFinalBoard(rules: Rules, chance: Chance, individuo: Individual)
    requires Honest(rules)
    ensures var p, r := Run(rules, chance, individuo), Simulate(rules, chance, individuo);
      r.0 >= 0 &&
      (forall i, j :: 0 <= i < |p.matriz| && 0 <= j < |p.matriz[i]| ==> p.matriz[i][j] <= r.0) &&
      (r.1 == 0 ==> r.0 == BoardMax(0, chance.start))
  {
    RecordCoversBoard(rules, chance, individuo);
  }

  /** One pass of the loop keeps the board within lo..hi, and the record 0 or
      within lo..hi. */
  lemma StepWithin(rules: Rules, chance: Chance, p: Play, g: Gene, lo: int, hi: int)
    requires 0 <= lo && KeepsWithin(rules, lo, hi)
    requires Within(p.matriz, lo, hi) && (p.maiorNumero == 0 || TileWithin(p.maiorNumero, lo, hi))
    ensures var q := Step(rules, chance, p, g);
      Within(q.matriz, lo, hi) && (q.maiorNumero == 0 || TileWithin(q.maiorNumero, lo, hi))
  {
    if !p.over && MovesMap(g).Some? && rules.gameState(p.matriz) == NotOver {
      var b := rules.move(MovesMap(g).value, p.matriz).0;
      assert Within(b, lo, hi);
      if rules.move(MovesMap(g).value, p.matriz).1 {
        var b' := rules.addTwo(b, chance.spawns(p.movimentosValidos));
        assert Within(b', lo, hi);
        BoardMaxWithin(p.maiorNumero, b', lo, hi);
      }
    }
  }

  /** Every loop state keeps the board within lo..hi, and the record is either
      still 0 or a tile value within lo..hi. */
  lemma {:induction false} RunWithin(rules: Rules, chance: Chance, gs: Individual, lo: int, hi: int)
    requires 0 <= lo && KeepsWithin(rules, lo, hi) && Within(chance.start, lo, hi)
    ensures var p := Run(rules, chance, gs);
      Within(p.matriz, lo, hi) && (p.maiorNumero == 0 || TileWithin(p.maiorNumero, lo, hi))
    decreases |gs|
  {
    if gs != [] {
      var init, g := gs[..|gs| - 1], gs[|gs| - 1];
      RunWithin(rules, chance, init, lo, hi);
      var p := Run(rules, chance, init);
      assert Run(rules, chance, gs) == Step(rules, chance, p, g);
      StepWithin(rules, chance, p, g, lo, hi);
    }
  }

  /** The maximum of a board within lo..hi, from a record that is 0 or a
      tile value within lo..hi, is a tile value within lo..hi: it is a
      non-empty tile or the record, and it is not 0 since some tile is not. */
  lemma BoardMaxWithin(acc: int, b: Board, lo: int, hi: int)
    requires 0 <= lo && Within(b, lo, hi) && (acc == 0 || TileWithin(acc, lo, hi))
    ensures TileWithin(BoardMax(acc, b), lo, hi)
  {
    var i, j :| 0 <= i < |b| && 0 <= j < |b[i]| && b[i][j] != 0;
    assert TileWithin(b[i][j], lo, hi);
    assert b[i][j] <= BoardMax(acc, b);
  }

  /** Every board `logic.new_game` can hand out, tiles of 2 or 4 on an
      otherwise empty grid, is within the game's range 2..2048. */
  lemma NewGameBoardWithin(b: Board)
    requires exists i, j :: 0 <= i < |b| && 0 <= j < |b[i]| && b[i][j] != 0
    requires forall i, j :: 0 <= i < |b| && 0 <= j < |b[i]| ==> b[i][j] == 0 || b[i][j] == 2 || b[i][j] == 4
    ensures Within(b, 2, 2048)
  {
    assert PowerOfTwo(2) && PowerOfTwo(4);
  }

  /** When the initial board and every move and spawn keep tiles within lo..hi
      (lo >= 0), the tile `executar_jogo` reports is a power of two within
      lo..hi. */
  lemma ReportedTileWithin(rules: Rules, chance: Chance, individuo: Individual, lo: int, hi: int)
    requires 0 <= lo && KeepsWithin(rules, lo, hi) && Within(chance.start, lo, hi)
    ensures TileWithin(Simulate(rules, chance, individuo).0, lo, hi)
  {
    RunWithin(rules, chance, individuo, lo, hi);
    var p := Run(rules, chance, individuo);
    if p.maiorNumero == 0 {
      BoardMaxWithin(0, p.matriz, lo, hi);
    }
  }
}

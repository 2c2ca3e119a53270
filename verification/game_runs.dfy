/**
 * Runs of `do_move` and what the head-expiry rule does over a long game.
 *
 * Because `do_move` inspects both players' history heads on every move,
 * histories shrink once pieces start expiring; every game reaches a history
 * with no head, and the next move then raises IndexError. One legal game
 * shows it happens in play; the history shapes show it happens in every game.
 */
module GameRuns {
  import opened Results
  import opened Board
  import opened Game

  /** A legal opening that empties player 1's history. */
  const DrainingMoves: seq<int> := [0, 1, 2, 3, 4, 5, 7, 0, 1, 2, 3, 0, 1]

  // The game after each of the first k draining moves, from `init_board(1)`.
  const Drain0: Game := Game([[0, 0, 0], [0, 0, 0], [0, 0, 0]], FreshHistory, FreshHistory, 1, None)
  const Drain1: Game := Game([[1, 0, 0], [0, 0, 0], [0, 0, 0]], [Placeholder, Placeholder, Placeholder, Placed(Pos(0, 0))], [Placeholder, Placeholder, Placeholder, Placeholder], 2, None)
  const Drain2: Game := Game([[1, 2, 0], [0, 0, 0], [0, 0, 0]], [Placeholder, Placeholder, Placeholder, Placed(Pos(0, 0))], [Placeholder, Placeholder, Placeholder, Placed(Pos(0, 1))], 1, None)
  const Drain3: Game := Game([[1, 2, 1], [0, 0, 0], [0, 0, 0]], [Placeholder, Placeholder, Placed(Pos(0, 0)), Placed(Pos(0, 2))], [Placeholder, Placeholder, Placeholder, Placed(Pos(0, 1))], 2, None)
  const Drain4: Game := Game([[1, 2, 1], [2, 0, 0], [0, 0, 0]], [Placeholder, Placeholder, Placed(Pos(0, 0)), Placed(Pos(0, 2))], [Placeholder, Placeholder, Placed(Pos(0, 1)), Placed(Pos(1, 0))], 1, None)
  const Drain5: Game := Game([[1, 2, 1], [2, 1, 0], [0, 0, 0]], [Placeholder, Placed(Pos(0, 0)), Placed(Pos(0, 2)), Placed(Pos(1, 1))], [Placeholder, Placeholder, Placed(Pos(0, 1)), Placed(Pos(1, 0))], 2, None)
  const Drain6: Game := Game([[1, 2, 1], [2, 1, 2], [0, 0, 0]], [Placeholder, Placed(Pos(0, 0)), Placed(Pos(0, 2)), Placed(Pos(1, 1))], [Placeholder, Placed(Pos(0, 1)), Placed(Pos(1, 0)), Placed(Pos(1, 2))], 1, None)
  const Drain7: Game := Game([[0, 2, 1], [2, 1, 2], [0, 1, 0]], [Placed(Pos(0, 2)), Placed(Pos(1, 1)), Placed(Pos(2, 1))], [Placeholder, Placed(Pos(0, 1)), Placed(Pos(1, 0)), Placed(Pos(1, 2))], 2, None)
  const Drain8: Game := Game([[2, 0, 0], [2, 1, 2], [0, 1, 0]], [Placed(Pos(1, 1)), Placed(Pos(2, 1))], [Placed(Pos(1, 0)), Placed(Pos(1, 2)), Placed(Pos(0, 0))], 1, None)
  const Drain9: Game := Game([[2, 1, 0], [0, 0, 2], [0, 1, 0]], [Placed(Pos(2, 1)), Placed(Pos(0, 1))], [Placed(Pos(1, 2)), Placed(Pos(0, 0))], 2, None)
  const Drain10: Game := Game([[2, 1, 2], [0, 0, 0], [0, 0, 0]], [Placed(Pos(0, 1))], [Placed(Pos(0, 0)), Placed(Pos(0, 2))], 1, None)
  const Drain11: Game := Game([[0, 0, 2], [1, 0, 0], [0, 0, 0]], [Placed(Pos(1, 0))], [Placed(Pos(0, 2))], 2, None)
  const Drain12: Game := Game([[2, 0, 0], [0, 0, 0], [0, 0, 0]], [], [Placed(Pos(0, 0))], 1, None)
  const Drain13: Game := Game([[0, 0, 0], [0, 0, 0], [0, 0, 0]], [], [], 2, None)

  // Each draining move, one `do_move` at a time, and the facts that make it legal.

  lemma DrainingStep0(g: Game, m: int)
    requires g == Drain0 && m == 0
    ensures WellFormed(g) && !GameEnd(g).0 && m in Availables(g)
    ensures DoMove(g, m) == Ok(Drain1)
  {
    assert g.board[2][2] == 0 && Cell(g.board, PosOf(m)) == 0;
    var r := DoMove(g, m);
    assert r.value.board[0] == Drain1.board[0];
    assert r.value.board[1] == Drain1.board[1];
    assert r.value.board[2] == Drain1.board[2];
    assert r.value.board == Drain1.board;
    assert |r.value.player1| == 4;
    assert r.value.player1[0] == Drain1.player1[0];
    assert r.value.player1[1] == Drain1.player1[1];
    assert r.value.player1[2] == Drain1.player1[2];
    assert r.value.player1[3] == Drain1.player1[3];
    assert r.value.player1 == Drain1.player1;
    assert |r.value.player2| == 4;
    assert r.value.player2[0] == Drain1.player2[0];
    assert r.value.player2[1] == Drain1.player2[1];
    assert r.value.player2[2] == Drain1.player2[2];
    assert r.value.player2[3] == Drain1.player2[3];
    assert r.value.player2 == Drain1.player2;
  }

  lemma DrainingStep1(g: Game, m: int)
    requires g == Drain1 && m == 1
    ensures WellFormed(g) && !GameEnd(g).0 && m in Availables(g)
    ensures DoMove(g, m) == Ok(Drain2)
  {
    assert g.board[2][2] == 0 && Cell(g.board, PosOf(m)) == 0;
    var r := DoMove(g, m);
    assert r.value.board[0] == Drain2.board[0];
    assert r.value.board[1] == Drain2.board[1];
    assert r.value.board[2] == Drain2.board[2];
    assert r.value.board == Drain2.board;
    assert |r.value.player1| == 4;
    assert r.value.player1[0] == Drain2.player1[0];
    assert r.value.player1[1] == Drain2.player1[1];
    assert r.value.player1[2] == Drain2.player1[2];
    assert r.value.player1[3] == Drain2.player1[3];
    assert r.value.player1 == Drain2.player1;
    assert |r.value.player2| == 4;
    assert r.value.player2[0] == Drain2.player2[0];
    assert r.value.player2[1] == Drain2.player2[1];
    assert r.value.player2[2] == Drain2.player2[2];
    assert r.value.player2[3] == Drain2.player2[3];
    assert r.value.player2 == Drain2.player2;
  }

  lemma DrainingStep2(g: Game, m: int)
    requires g == Drain2 && m == 2
    ensures WellFormed(g) && !GameEnd(g).0 && m in Availables(g)
    ensures DoMove(g, m) == Ok(Drain3)
  {
    assert g.board[2][2] == 0 && Cell(g.board, PosOf(m)) == 0;
    var r := DoMove(g, m);
    assert r.value.board[0] == Drain3.board[0];
    assert r.value.board[1] == Drain3.board[1];
    assert r.value.board[2] == Drain3.board[2];
    assert r.value.board == Drain3.board;
    assert |r.value.player1| == 4;
    assert r.value.player1[0] == Drain3.player1[0];
    assert r.value.player1[1] == Drain3.player1[1];
    assert r.value.player1[2] == Drain3.player1[2];
    assert r.value.player1[3] == Drain3.player1[3];
    assert r.value.player1 == Drain3.player1;
    assert |r.value.player2| == 4;
    assert r.value.player2[0] == Drain3.player2[0];
    assert r.value.player2[1] == Drain3.player2[1];
    assert r.value.player2[2] == Drain3.player2[2];
    assert r.value.player2[3] == Drain3.player2[3];
    assert r.value.player2 == Drain3.player2;
  }

  lemma DrainingStep3(g: Game, m: int)
    requires g == Drain3 && m == 3
    ensures WellFormed(g) && !GameEnd(g).0 && m in Availables(g)
    ensures DoMove(g, m) == Ok(Drain4)
  {
    assert g.board[2][2] == 0 && Cell(g.board, PosOf(m)) == 0;
    var r := DoMove(g, m);
    assert r.value.board[0] == Drain4.board[0];
    assert r.value.board[1] == Drain4.board[1];
    assert r.value.board[2] == Drain4.board[2];
    assert r.value.board == Drain4.board;
    assert |r.value.player1| == 4;
    assert r.value.player1[0] == Drain4.player1[0];
    assert r.value.player1[1] == Drain4.player1[1];
    assert r.value.player1[2] == Drain4.player1[2];
    assert r.value.player1[3] == Drain4.player1[3];
    assert r.value.player1 == Drain4.player1;
    assert |r.value.player2| == 4;
    assert r.value.player2[0] == Drain4.player2[0];
    assert r.value.player2[1] == Drain4.player2[1];
    assert r.value.player2[2] == Drain4.player2[2];
    assert r.value.player2[3] == Drain4.player2[3];
    assert r.value.player2 == Drain4.player2;
  }

  lemma DrainingStep4(g: Game, m: int)
    requires g == Drain4 && m == 4
    ensures WellFormed(g) && !GameEnd(g).0 && m in Availables(g)
    ensures DoMove(g, m) == Ok(Drain5)
  {
    assert g.board[2][2] == 0 && Cell(g.board, PosOf(m)) == 0;
    var r := DoMove(g, m);
    assert r.value.board[0] == Drain5.board[0];
    assert r.value.board[1] == Drain5.board[1];
    assert r.value.board[2] == Drain5.board[2];
    assert r.value.board == Drain5.board;
    assert |r.value.player1| == 4;
    assert r.value.player1[0] == Drain5.player1[0];
    assert r.value.player1[1] == Drain5.player1[1];
    assert r.value.player1[2] == Drain5.player1[2];
    assert r.value.player1[3] == Drain5.player1[3];
    assert r.value.player1 == Drain5.player1;
    assert |r.value.player2| == 4;
    assert r.value.player2[0] == Drain5.player2[0];
    assert r.value.player2[1] == Drain5.player2[1];
    assert r.value.player2[2] == Drain5.player2[2];
    assert r.value.player2[3] == Drain5.player2[3];
    assert r.value.player2 == Drain5.player2;
  }

  lemma DrainingStep5(g: Game, m: int)
    requires g == Drain5 && m == 5
    ensures WellFormed(g) && !GameEnd(g).0 && m in Availables(g)
    ensures DoMove(g, m) == Ok(Drain6)
  {
    assert g.board[2][2] == 0 && Cell(g.board, PosOf(m)) == 0;
    var r := DoMove(g, m);
    assert r.value.board[0] == Drain6.board[0];
    assert r.value.board[1] == Drain6.board[1];
    assert r.value.board[2] == Drain6.board[2];
    assert r.value.board == Drain6.board;
    assert |r.value.player1| == 4;
    assert r.value.player1[0] == Drain6.player1[0];
    assert r.value.player1[1] == Drain6.player1[1];
    assert r.value.player1[2] == Drain6.player1[2];
    assert r.value.player1[3] == Drain6.player1[3];
    assert r.value.player1 == Drain6.player1;
    assert |r.value.player2| == 4;
    assert r.value.player2[0] == Drain6.player2[0];
    assert r.value.player2[1] == Drain6.player2[1];
    assert r.value.player2[2] == Drain6.player2[2];
    assert r.value.player2[3] == Drain6.player2[3];
    assert r.value.player2 == Drain6.player2;
  }

  lemma DrainingStep6(g: Game, m: int)
    requires g == Drain6 && m == 7
    ensures WellFormed(g) && !GameEnd(g).0 && m in Availables(g)
    ensures DoMove(g, m) == Ok(Drain7)
  {
    assert g.board[2][2] == 0 && Cell(g.board, PosOf(m)) == 0;
    var r := DoMove(g, m);
    assert r.value.board[0] == Drain7.board[0];
    assert r.value.board[1] == Drain7.board[1];
    assert r.value.board[2] == Drain7.board[2];
    assert r.value.board == Drain7.board;
    assert |r.value.player1| == 3;
    assert r.value.player1[0] == Drain7.player1[0];
    assert r.value.player1[1] == Drain7.player1[1];
    assert r.value.player1[2] == Drain7.player1[2];
    assert r.value.player1 == Drain7.player1;
    assert |r.value.player2| == 4;
    assert r.value.player2[0] == Drain7.player2[0];
    assert r.value.player2[1] == Drain7.player2[1];
    assert r.value.player2[2] == Drain7.player2[2];
    assert r.value.player2[3] == Drain7.player2[3];
    assert r.value.player2 == Drain7.player2;
  }

  lemma DrainingStep7(g: Game, m: int)
    requires g == Drain7 && m == 0
    ensures WellFormed(g) && !GameEnd(g).0 && m in Availables(g)
    ensures DoMove(g, m) == Ok(Drain8)
  {
    assert g.board[2][2] == 0 && Cell(g.board, PosOf(m)) == 0;
    var r := DoMove(g, m);
    assert r.value.board[0] == Drain8.board[0];
    assert r.value.board[1] == Drain8.board[1];
    assert r.value.board[2] == Drain8.board[2];
    assert r.value.board == Drain8.board;
    assert |r.value.player1| == 2;
    assert r.value.player1[0] == Drain8.player1[0];
    assert r.value.player1[1] == Drain8.player1[1];
    assert r.value.player1 == Drain8.player1;
    assert |r.value.player2| == 3;
    assert r.value.player2[0] == Drain8.player2[0];
    assert r.value.player2[1] == Drain8.player2[1];
    assert r.value.player2[2] == Drain8.player2[2];
    assert r.value.player2 == Drain8.player2;
  }

  lemma DrainingStep8(g: Game, m: int)
    requires g == Drain8 && m == 1
    ensures WellFormed(g) && !GameEnd(g).0 && m in Availables(g)
    ensures DoMove(g, m) == Ok(Drain9)
  {
    assert g.board[2][2] == 0 && Cell(g.board, PosOf(m)) == 0;
    var r := DoMove(g, m);
    assert r.value.board[0] == Drain9.board[0];
    assert r.value.board[1] == Drain9.board[1];
    assert r.value.board[2] == Drain9.board[2];
    assert r.value.board == Drain9.board;
    assert |r.value.player1| == 2;
    assert r.value.player1[0] == Drain9.player1[0];
    assert r.value.player1[1] == Drain9.player1[1];
    assert r.value.player1 == Drain9.player1;
    assert |r.value.player2| == 2;
    assert r.value.player2[0] == Drain9.player2[0];
    assert r.value.player2[1] == Drain9.player2[1];
    assert r.value.player2 == Drain9.player2;
  }

  lemma DrainingStep9(g: Game, m: int)
    requires g == Drain9 && m == 2
    ensures WellFormed(g) && !GameEnd(g).0 && m in Availables(g)
    ensures DoMove(g, m) == Ok(Drain10)
  {
    assert g.board[2][2] == 0 && Cell(g.board, PosOf(m)) == 0;
    var r := DoMove(g, m);
    assert r.value.board[0] == Drain10.board[0];
    assert r.value.board[1] == Drain10.board[1];
    assert r.value.board[2] == Drain10.board[2];
    assert r.value.board == Drain10.board;
    assert |r.value.player1| == 1;
    assert r.value.player1[0] == Drain10.player1[0];
    assert r.value.player1 == Drain10.player1;
    assert |r.value.player2| == 2;
    assert r.value.player2[0] == Drain10.player2[0];
    assert r.value.player2[1] == Drain10.player2[1];
    assert r.value.player2 == Drain10.player2;
  }

  lemma DrainingStep10(g: Game, m: int)
    requires g == Drain10 && m == 3
    ensures WellFormed(g) && !GameEnd(g).0 && m in Availables(g)
    ensures DoMove(g, m) == Ok(Drain11)
  {
    assert g.board[2][2] == 0 && Cell(g.board, PosOf(m)) == 0;
    var r := DoMove(g, m);
    assert r.value.board[0] == Drain11.board[0];
    assert r.value.board[1] == Drain11.board[1];
    assert r.value.board[2] == Drain11.board[2];
    assert r.value.board == Drain11.board;
    assert |r.value.player1| == 1;
    assert r.value.player1[0] == Drain11.player1[0];
    assert r.value.player1 == Drain11.player1;
    assert |r.value.player2| == 1;
    assert r.value.player2[0] == Drain11.player2[0];
    assert r.value.player2 == Drain11.player2;
  }

  lemma DrainingStep11(g: Game, m: int)
    requires g == Drain11 && m == 0
    ensures WellFormed(g) && !GameEnd(g).0 && m in Availables(g)
    ensures DoMove(g, m) == Ok(Drain12)
  {
    assert g.board[2][2] == 0 && Cell(g.board, PosOf(m)) == 0;
    var r := DoMove(g, m);
    assert r.value.board[0] == Drain12.board[0];
    assert r.value.board[1] == Drain12.board[1];
    assert r.value.board[2] == Drain12.board[2];
    assert r.value.board == Drain12.board;
    assert |r.value.player1| == 0;
    assert r.value.player1 == Drain12.player1;
    assert |r.value.player2| == 1;
    assert r.value.player2[0] == Drain12.player2[0];
    assert r.value.player2 == Drain12.player2;
  }

  lemma DrainingStep12(g: Game, m: int)
    requires g == Drain12 && m == 1
    ensures WellFormed(g) && !GameEnd(g).0 && m in Availables(g)
    ensures DoMove(g, m) == Ok(Drain13)
  {
    assert g.board[2][2] == 0 && Cell(g.board, PosOf(m)) == 0;
    var r := DoMove(g, m);
    assert r.value.board[0] == Drain13.board[0];
    assert r.value.board[1] == Drain13.board[1];
    assert r.value.board[2] == Drain13.board[2];
    assert r.value.board == Drain13.board;
    assert |r.value.player1| == 0;
    assert r.value.player1 == Drain13.player1;
    assert |r.value.player2| == 0;
    assert r.value.player2 == Drain13.player2;
  }

  /** The game after the first `k` draining moves. */
  function DrainingGame(k: nat): Game
    requires k < 14
  {
    if k == 0 then Drain0
    else if k == 1 then Drain1
    else if k == 2 then Drain2
    else if k == 3 then Drain3
    else if k == 4 then Drain4
    else if k == 5 then Drain5
    else if k == 6 then Drain6
    else if k == 7 then Drain7
    else if k == 8 then Drain8
    else if k == 9 then Drain9
    else if k == 10 then Drain10
    else if k == 11 then Drain11
    else if k == 12 then Drain12
    else Drain13
  }

  /** Draining moves 0..1, as steps of the trace. */
  lemma DrainingSteps0To1(k: nat, g: Game)
    requires 0 <= k < 2 && g == DrainingGame(k)
    ensures WellFormed(g) && !GameEnd(g).0 && DrainingMoves[k] in Availables(g)
    ensures DoMove(g, DrainingMoves[k]) == Ok(DrainingGame(k + 1))
  {
    if k == 0 { DrainingStep0(g, DrainingMoves[k]); } else { DrainingStep1(g, DrainingMoves[k]); }
  }

  /** Draining moves 2..3, as steps of the trace. */
  lemma DrainingSteps2To3(k: nat, g: Game)
    requires 2 <= k < 4 && g == DrainingGame(k)
    ensures WellFormed(g) && !GameEnd(g).0 && DrainingMoves[k] in Availables(g)
    ensures DoMove(g, DrainingMoves[k]) == Ok(DrainingGame(k + 1))
  {
    if k == 2 { DrainingStep2(g, DrainingMoves[k]); } else { DrainingStep3(g, DrainingMoves[k]); }
  }

  /** Draining moves 4..6, as steps of the trace. */
  lemma DrainingSteps4To6(k: nat, g: Game)
    requires 4 <= k < 7 && g == DrainingGame(k)
    ensures WellFormed(g) && !GameEnd(g).0 && DrainingMoves[k] in Availables(g)
    ensures DoMove(g, DrainingMoves[k]) == Ok(DrainingGame(k + 1))
  {
    if k == 4 { DrainingStep4(g, DrainingMoves[k]); }
    else if k == 5 { DrainingStep5(g, DrainingMoves[k]); }
    else { DrainingStep6(g, DrainingMoves[k]); }
  }

  /** Draining moves 7..9, as steps of the trace. */
  lemma DrainingSteps7To9(k: nat, g: Game)
    requires 7 <= k < 10 && g == DrainingGame(k)
    ensures WellFormed(g) && !GameEnd(g).0 && DrainingMoves[k] in Availables(g)
    ensures DoMove(g, DrainingMoves[k]) == Ok(DrainingGame(k + 1))
  {
    if k == 7 { DrainingStep7(g, DrainingMoves[k]); }
    else if k == 8 { DrainingStep8(g, DrainingMoves[k]); }
    else { DrainingStep9(g, DrainingMoves[k]); }
  }

  /** Draining moves 10..12, as steps of the trace. */
  lemma DrainingSteps10To12(k: nat, g: Game)
    requires 10 <= k < 13 && g == DrainingGame(k)
    ensures WellFormed(g) && !GameEnd(g).0 && DrainingMoves[k] in Availables(g)
    ensures DoMove(g, DrainingMoves[k]) == Ok(DrainingGame(k + 1))
  {
    if k == 10 { DrainingStep10(g, DrainingMoves[k]); }
    else if k == 11 { DrainingStep11(g, DrainingMoves[k]); }
    else { DrainingStep12(g, DrainingMoves[k]); }
  }

  /** Draining move `k`, as a step of the trace, with the facts that make it legal. */
  lemma DrainingStepAt(k: nat, g: Game)
    requires k < 13 && g == DrainingGame(k)
    ensures WellFormed(g) && !GameEnd(g).0 && DrainingMoves[k] in Availables(g)
    ensures DoMove(g, DrainingMoves[k]) == Ok(DrainingGame(k + 1))
  {
    if k < 2 { DrainingSteps0To1(k, g); }
    else if k < 4 { DrainingSteps2To3(k, g); }
    else if k < 7 { DrainingSteps4To6(k, g); }
    else if k < 10 { DrainingSteps7To9(k, g); }
    else { DrainingSteps10To12(k, g); }
  }

  /** `init_board(1)` is the first game of the trace. */
  lemma DrainingStartsFresh(g: Game)
    requires g == InitBoard(1)
    ensures g == DrainingGame(0)
  {
    assert g.board[0] == Drain0.board[0];
    assert g.board[1] == Drain0.board[1];
    assert g.board[2] == Drain0.board[2];
    assert g.board == Drain0.board;
  }

  /**
   * Each of the thirteen draining moves is made on a well-formed game that
   * has not ended, is among `availables`, and yields the next game of the trace.
   */
  lemma DrainingRunIsLegal()
    ensures forall k :: 0 <= k < 13 ==>
      && WellFormed(DrainingGame(k))
      && !GameEnd(DrainingGame(k)).0
      && DrainingMoves[k] in Availables(DrainingGame(k))
      && DoMove(DrainingGame(k), DrainingMoves[k]) == Ok(DrainingGame(k + 1))
  {
    forall k | 0 <= k < 13
      ensures WellFormed(DrainingGame(k))
      ensures !GameEnd(DrainingGame(k)).0
      ensures DrainingMoves[k] in Availables(DrainingGame(k))
      ensures DoMove(DrainingGame(k), DrainingMoves[k]) == Ok(DrainingGame(k + 1))
    {
      DrainingStepAt(k, DrainingGame(k));
    }
  }

  /**
   * At the end of the trace player 1's history is empty and player 2 is to
   * move; every move id 0..8 then raises on `player1[0]`.
   */
  lemma DrainedHistoryRaises(g: Game, lastMove: int)
    requires g == DrainingGame(13) && 0 <= lastMove < 9
    ensures g.player1 == [] && g.currentPlayer == 2
    ensures WellFormed(g)
    ensures DoMove(g, lastMove) == Err(EmptyHistory(1))
  {
    assert g == Drain13;
  }

  /** Three moves before the end of the trace `disappear` already raises on `player1[1]`. */
  lemma DrainedDisappearRaises(g: Game)
    requires g == DrainingGame(10)
    ensures Disappear(g) == Err(ShortHistory(1))
  {
    assert g == Drain10;
  }

  /**
   * Thirteen moves from `init_board(1)`, each made while the game has not
   * ended and each among `availables`, leave player 1 with an empty history
   * and player 2 to move; whatever id player 2 then plays, `do_move` raises
   * IndexError on `player1[0]`. Three moves earlier, with the game still
   * running, player 1's history already has no second entry, so
   * `disappear` raises IndexError there.
   */
  lemma HistoryDrainsInLegalPlay(lastMove: int)
    requires 0 <= lastMove < 9
    ensures InitBoard(1) == DrainingGame(0)
    ensures forall k :: 0 <= k < 13 ==>
      && WellFormed(DrainingGame(k))
      && !GameEnd(DrainingGame(k)).0
      && DrainingMoves[k] in Availables(DrainingGame(k))
      && DoMove(DrainingGame(k), DrainingMoves[k]) == Ok(DrainingGame(k + 1))
    ensures DrainingGame(13).player1 == [] && DrainingGame(13).currentPlayer == 2
    ensures WellFormed(DrainingGame(13))
    ensures DoMove(DrainingGame(13), lastMove) == Err(EmptyHistory(1))
    ensures Disappear(DrainingGame(10)) == Err(ShortHistory(1))
  {
    DrainingStartsFresh(InitBoard(1));
    DrainingRunIsLegal();
    DrainedHistoryRaises(DrainingGame(13), lastMove);
    DrainedDisappearRaises(DrainingGame(10));
  }

  // ---------------------------------------------------------------------
  // Every game drains: only the shape of the histories matters
  //
  // Whether `do_move` raises, and how the histories evolve, does not depend
  // on the board or on which cells are chosen: a history's shape (which
  // entries are cells) evolves the same way in every game. From
  // `init_board(1)` the shapes therefore follow one fixed trace.

  /** Which entries of a history are cells (`true`) and which placeholders (`false`). */
  function Shape(h: seq<Entry>): (r: seq<bool>)
    ensures |r| == |h| && forall k :: 0 <= k < |h| ==> r[k] == h[k].Placed?
  {
    seq(|h|, k requires 0 <= k < |h| => h[k].Placed?)
  }

  /** The history shapes and the player to move: all that decides whether `do_move` raises. */
  datatype Shapes = Shapes(s1: seq<bool>, s2: seq<bool>, mover: int)

  function ShapesOf(g: Game): Shapes {
    Shapes(Shape(g.player1), Shape(g.player2), g.currentPlayer)
  }

  /** `Push` on shapes: a cell is appended, and the head dropped once there are four. */
  function PushShape(s: seq<bool>): seq<bool> {
    var appended := s + [true];
    if |appended| >= 4 then appended[1..] else appended
  }

  /** `Expire` on shapes: a cell at the head is dropped, a placeholder kept. */
  function ExpireShape(s: seq<bool>): seq<bool>
    requires |s| > 0
  {
    if s[0] then s[1..] else s
  }

  /** One `do_move` on shapes, with the error it raises when a history has no head. */
  function StepShapes(x: Shapes): Result<Shapes, GameError> {
    var h1 := if x.mover == 1 then PushShape(x.s1) else x.s1;
    var h2 := if x.mover == 1 then x.s2 else PushShape(x.s2);
    if |h1| == 0 then Err(EmptyHistory(1))
    else if |h2| == 0 then Err(EmptyHistory(2))
    else Ok(Shapes(ExpireShape(h1), ExpireShape(h2), 3 - x.mover))
  }

  /** `n` moves on shapes, stopping at the first error. */
  function RunShapes(x: Shapes, n: nat): Result<Shapes, GameError>
    decreases n
  {
    if n == 0 then Ok(x)
    else match StepShapes(x)
      case Err(e) => Err(e)
      case Ok(y) => RunShapes(y, n - 1)
  }

  /** `PushShape` is `Push` seen through `Shape`. */
  lemma PushShapeAgrees(h: seq<Entry>, p: Pos)
    ensures Shape(Push(h, Placed(p))) == PushShape(Shape(h))
  {
    PushKeepsOrder(h, Placed(p));
    var r := Push(h, Placed(p));
    var sh := Shape(h);
    var s := PushShape(sh);
    var off := |h| + 1 - |r|;
    assert s == (sh + [true])[off..];
    forall k | 0 <= k < |r|
      ensures Shape(r)[k] == s[k]
    {
      if k < |r| - 1 {
        assert r[k] == r[..|r| - 1][k] == h[off + k];
        assert s[k] == sh[off + k];
      }
    }
  }

  /** `ExpireShape` is the expiry step seen through `Shape`. */
  lemma DropHeadShape(h: seq<Entry>)
    requires |h| > 0
    ensures Shape(DropHead(h)) == ExpireShape(Shape(h))
  {
    if h[0].Placed? {
      assert Shape(h[1..]) == Shape(h)[1..];
    }
  }

  /** Whether a move raises, and which error, is read off the shapes. */
  lemma DoMoveErrFollowsShapes(g: Game, moveId: int)
    requires WellFormed(g) && 0 <= moveId < 9
    ensures DoMove(g, moveId).Err? <==> StepShapes(ShapesOf(g)).Err?
    ensures DoMove(g, moveId).Err? ==> StepShapes(ShapesOf(g)) == Err(DoMove(g, moveId).error)
  {
  }

  /** Shapes after pushing and expiring are what the shape step computes. */
  lemma ShapesAfterStep(g: Game, g': Game, p: Pos)
    requires var h1 := Pushed(g.player1, p, g.currentPlayer == 1);
      var h2 := Pushed(g.player2, p, g.currentPlayer != 1);
      && |h1| > 0 && |h2| > 0
      && g'.player1 == DropHead(h1) && g'.player2 == DropHead(h2)
      && g'.currentPlayer == 3 - g.currentPlayer
    ensures StepShapes(ShapesOf(g)) == Ok(ShapesOf(g'))
  {
    PushShapeAgrees(g.player1, p);
    PushShapeAgrees(g.player2, p);
    DropHeadShape(Pushed(g.player1, p, g.currentPlayer == 1));
    DropHeadShape(Pushed(g.player2, p, g.currentPlayer != 1));
  }

  /** The shapes a successful move leaves are what the shape step computes. */
  lemma DoMoveOkFollowsShapes(g: Game, moveId: int)
    requires WellFormed(g) && 0 <= moveId < 9 && DoMove(g, moveId).Ok?
    ensures StepShapes(ShapesOf(g)) == Ok(ShapesOf(DoMove(g, moveId).value))
  {
    DoMoveHistories(g, moveId);
    ShapesAfterStep(g, DoMove(g, moveId).value, MoveIdToPos[moveId]);
  }

  /** The first step of a shape run. */
  lemma RunShapesUnfold(x: Shapes, n: nat)
    requires n > 0
    ensures StepShapes(x).Err? ==> RunShapes(x, n) == Err(StepShapes(x).error)
    ensures StepShapes(x).Ok? ==> RunShapes(x, n) == RunShapes(StepShapes(x).value, n - 1)
  {
  }

  /** A run of in-range moves raises, and leaves histories, exactly as the shape run says. */
  lemma {:induction false} PlayFollowsShapes(g: Game, moves: seq<int>)
    requires WellFormed(g)
    requires forall k :: 0 <= k < |moves| ==> 0 <= moves[k] < 9
    ensures Play(g, moves).Err? ==> RunShapes(ShapesOf(g), |moves|) == Err(Play(g, moves).error)
    ensures Play(g, moves).Ok? ==> RunShapes(ShapesOf(g), |moves|) == Ok(ShapesOf(Play(g, moves).value))
    decreases |moves|
  {
    if |moves| == 0 {
      assert Play(g, moves) == Ok(g);
    } else if DoMove(g, moves[0]).Err? {
      FirstMoveRaises(g, moves);
    } else {
      var rest := moves[1..];
      assert forall k :: 0 <= k < |rest| ==> 0 <= rest[k] < 9;
      PlayFollowsShapes(DoMove(g, moves[0]).value, rest);
      FirstMoveFollowsShapes(g, moves);
    }
  }

  /** A run whose first move raises raises as the shape run does. */
  lemma FirstMoveRaises(g: Game, moves: seq<int>)
    requires WellFormed(g) && |moves| > 0 && 0 <= moves[0] < 9
    requires DoMove(g, moves[0]).Err?
    ensures Play(g, moves).Err? && RunShapes(ShapesOf(g), |moves|) == Err(Play(g, moves).error)
  {
    PlayUnfold(g, moves);
    RunShapesUnfold(ShapesOf(g), |moves|);
    DoMoveErrFollowsShapes(g, moves[0]);
  }

  /** A run whose first move succeeds follows the shape run when the rest of it does. */
  lemma FirstMoveFollowsShapes(g: Game, moves: seq<int>)
    requires WellFormed(g) && |moves| > 0 && 0 <= moves[0] < 9
    requires DoMove(g, moves[0]).Ok?
    ensures var g' := DoMove(g, moves[0]).value; var rest := moves[1..];
      (&& (Play(g', rest).Err? ==> RunShapes(ShapesOf(g'), |rest|) == Err(Play(g', rest).error))
       && (Play(g', rest).Ok? ==> RunShapes(ShapesOf(g'), |rest|) == Ok(ShapesOf(Play(g', rest).value))))
      ==>
      (&& (Play(g, moves).Err? ==> RunShapes(ShapesOf(g), |moves|) == Err(Play(g, moves).error))
       && (Play(g, moves).Ok? ==> RunShapes(ShapesOf(g), |moves|) == Ok(ShapesOf(Play(g, moves).value))))
  {
    PlayUnfold(g, moves);
    RunShapesUnfold(ShapesOf(g), |moves|);
    DoMoveOkFollowsShapes(g, moves[0]);
  }

  /** The first move of a run. */
  lemma PlayUnfold(g: Game, moves: seq<int>)
    requires WellFormed(g) && |moves| > 0
    ensures DoMove(g, moves[0]).Err? ==> Play(g, moves) == Err(DoMove(g, moves[0]).error)
    ensures DoMove(g, moves[0]).Ok? ==> Play(g, moves) == Play(DoMove(g, moves[0]).value, moves[1..])
  {
  }

  /** The history shapes after `k` moves from `init_board(1)`, whatever the moves. */
  function ShapeTrace(k: nat): (x: Shapes)
    requires k <= 13
  {
    var none := [];
    var f := false;
    var t := true;
    if k == 0 then Shapes([f, f, f, f], [f, f, f, f], 1)
    else if k == 1 then Shapes([f, f, f, t], [f, f, f, f], 2)
    else if k == 2 then Shapes([f, f, f, t], [f, f, f, t], 1)
    else if k == 3 then Shapes([f, f, t, t], [f, f, f, t], 2)
    else if k == 4 then Shapes([f, f, t, t], [f, f, t, t], 1)
    else if k == 5 then Shapes([f, t, t, t], [f, f, t, t], 2)
    else if k == 6 then Shapes([f, t, t, t], [f, t, t, t], 1)
    else if k == 7 then Shapes([t, t, t], [f, t, t, t], 2)
    else if k == 8 then Shapes([t, t], [t, t, t], 1)
    else if k == 9 then Shapes([t, t], [t, t], 2)
    else if k == 10 then Shapes([t], [t, t], 1)
    else if k == 11 then Shapes([t], [t], 2)
    else if k == 12 then Shapes(none, [t], 1)
    else Shapes(none, none, 2)
  }

  /** Shape steps 0..2 of the trace. */
  lemma ShapeTraceSteps0To2(k: nat, x: Shapes)
    requires 0 <= k < 3 && x == ShapeTrace(k)
    ensures StepShapes(x) == Ok(ShapeTrace(k + 1))
  {
    var f := false;
    var t := true;
    if k == 0 {
      assert PushShape(x.s1) == [f, f, f, t];
      assert ExpireShape([f, f, f, t]) == [f, f, f, t];
      assert ExpireShape([f, f, f, f]) == [f, f, f, f];
    }
    else if k == 1 {
      assert PushShape(x.s2) == [f, f, f, t];
      assert ExpireShape([f, f, f, t]) == [f, f, f, t];
      assert ExpireShape([f, f, f, t]) == [f, f, f, t];
    }
    else {
      assert PushShape(x.s1) == [f, f, t, t];
      assert ExpireShape([f, f, t, t]) == [f, f, t, t];
      assert ExpireShape([f, f, f, t]) == [f, f, f, t];
    }
  }

  /** Shape steps 3..5 of the trace. */
  lemma ShapeTraceSteps3To5(k: nat, x: Shapes)
    requires 3 <= k < 6 && x == ShapeTrace(k)
    ensures StepShapes(x) == Ok(ShapeTrace(k + 1))
  {
    var f := false;
    var t := true;
    if k == 3 {
      assert PushShape(x.s2) == [f, f, t, t];
      assert ExpireShape([f, f, t, t]) == [f, f, t, t];
      assert ExpireShape([f, f, t, t]) == [f, f, t, t];
    }
    else if k == 4 {
      assert PushShape(x.s1) == [f, t, t, t];
      assert ExpireShape([f, t, t, t]) == [f, t, t, t];
      assert ExpireShape([f, f, t, t]) == [f, f, t, t];
    }
    else {
      assert PushShape(x.s2) == [f, t, t, t];
      assert ExpireShape([f, t, t, t]) == [f, t, t, t];
      assert ExpireShape([f, t, t, t]) == [f, t, t, t];
    }
  }

  /** Shape steps 6..8 of the trace. */
  lemma ShapeTraceSteps6To8(k: nat, x: Shapes)
    requires 6 <= k < 9 && x == ShapeTrace(k)
    ensures StepShapes(x) == Ok(ShapeTrace(k + 1))
  {
    var f := false;
    var t := true;
    if k == 6 {
      assert PushShape(x.s1) == [t, t, t, t];
      assert ExpireShape([t, t, t, t]) == [t, t, t];
      assert ExpireShape([f, t, t, t]) == [f, t, t, t];
    }
    else if k == 7 {
      assert PushShape(x.s2) == [t, t, t, t];
      assert ExpireShape([t, t, t]) == [t, t];
      assert ExpireShape([t, t, t, t]) == [t, t, t];
    }
    else {
      assert PushShape(x.s1) == [t, t, t];
      assert ExpireShape([t, t, t]) == [t, t];
      assert ExpireShape([t, t, t]) == [t, t];
    }
  }

  /** Shape steps 9..10 of the trace. */
  lemma ShapeTraceSteps9To10(k: nat, x: Shapes)
    requires 9 <= k < 11 && x == ShapeTrace(k)
    ensures StepShapes(x) == Ok(ShapeTrace(k + 1))
  {
    var f := false;
    var t := true;
    if k == 9 {
      assert PushShape(x.s2) == [t, t, t];
      assert ExpireShape([t, t]) == [t];
      assert ExpireShape([t, t, t]) == [t, t];
    }
    else {
      assert PushShape(x.s1) == [t, t];
      assert ExpireShape([t, t]) == [t];
      assert ExpireShape([t, t]) == [t];
    }
  }

  /** Shape steps 11..12 of the trace. */
  lemma ShapeTraceSteps11To12(k: nat, x: Shapes)
    requires 11 <= k < 13 && x == ShapeTrace(k)
    ensures StepShapes(x) == Ok(ShapeTrace(k + 1))
  {
    var f := false;
    var t := true;
    if k == 11 {
      assert PushShape(x.s2) == [t, t];
      assert ExpireShape([t]) == [];
      assert ExpireShape([t, t]) == [t];
    }
    else {
      assert PushShape(x.s1) == [t];
      assert ExpireShape([t]) == [];
      assert ExpireShape([t]) == [];
    }
  }

  /** Each shape step of the trace, and the error at its end. */
  lemma ShapeTraceSteps()
    ensures forall k :: 0 <= k < 13 ==> StepShapes(ShapeTrace(k)) == Ok(ShapeTrace(k + 1))
    ensures StepShapes(ShapeTrace(13)) == Err(EmptyHistory(1))
  {
    forall k | 0 <= k < 13
      ensures StepShapes(ShapeTrace(k)) == Ok(ShapeTrace(k + 1))
    {
      if k < 3 { ShapeTraceSteps0To2(k, ShapeTrace(k)); }
      else if k < 6 { ShapeTraceSteps3To5(k, ShapeTrace(k)); }
      else if k < 9 { ShapeTraceSteps6To8(k, ShapeTrace(k)); }
      else if k < 11 { ShapeTraceSteps9To10(k, ShapeTrace(k)); }
      else { ShapeTraceSteps11To12(k, ShapeTrace(k)); }
    }
  }

  /** From step `k` of the trace, `n` more moves stay on it up to step 13 and raise after. */
  lemma {:induction false} RunShapesFollowsTrace(k: nat, n: nat)
    requires k <= 13
    ensures k + n <= 13 ==> RunShapes(ShapeTrace(k), n) == Ok(ShapeTrace(k + n))
    ensures k + n > 13 ==> RunShapes(ShapeTrace(k), n) == Err(EmptyHistory(1))
    decreases n
  {
    ShapeTraceSteps();
    if n > 0 && k < 13 {
      RunShapesFollowsTrace(k + 1, n - 1);
    }
  }

  /**
   * Whatever cells are chosen, 13 moves from `init_board(1)` never raise, and
   * the 14th always raises IndexError on player 1's empty history.
   */
  lemma EveryGameDrains(moves: seq<int>)
    requires |moves| <= 14 && forall k :: 0 <= k < |moves| ==> 0 <= moves[k] < 9
    ensures |moves| <= 13 ==> Play(InitBoard(1), moves).Ok?
    ensures |moves| == 13 ==>
      && Play(InitBoard(1), moves).value.player1 == []
      && Play(InitBoard(1), moves).value.player2 == []
      && Play(InitBoard(1), moves).value.currentPlayer == 2
    ensures |moves| == 14 ==> Play(InitBoard(1), moves) == Err(EmptyHistory(1))
  {
    var g := InitBoard(1);
    assert ShapesOf(g) == ShapeTrace(0);
    PlayFollowsShapes(g, moves);
    RunShapesFollowsTrace(0, |moves|);
    if |moves| == 13 {
      var end := Play(g, moves).value;
      assert Shape(end.player1) == [] && Shape(end.player2) == [];
    }
  }

  /**
   * Whatever cells are chosen, `disappear` works for the first nine moves
   * from `init_board(1)` and raises IndexError on player 1's history from
   * the tenth move on, while `do_move` still succeeds.
   */
  lemma EveryGameDisappearRaises(moves: seq<int>)
    requires |moves| <= 13 && forall k :: 0 <= k < |moves| ==> 0 <= moves[k] < 9
    ensures Play(InitBoard(1), moves).Ok?
    ensures |moves| <= 9 ==> Disappear(Play(InitBoard(1), moves).value).Ok?
    ensures |moves| >= 10 ==> Disappear(Play(InitBoard(1), moves).value) == Err(ShortHistory(1))
  {
    PlayFromStartFollowsTrace(InitBoard(1), moves);
    var end := Play(InitBoard(1), moves).value;
    ShapeTraceLengths(|moves|, ShapesOf(end));
  }

  /** Up to 13 in-range moves from `init_board(1)` succeed and reach the trace's shapes. */
  lemma PlayFromStartFollowsTrace(g: Game, moves: seq<int>)
    requires g == InitBoard(1)
    requires |moves| <= 13 && forall k :: 0 <= k < |moves| ==> 0 <= moves[k] < 9
    ensures Play(g, moves).Ok? && ShapesOf(Play(g, moves).value) == ShapeTrace(|moves|)
  {
    assert ShapesOf(g) == ShapeTrace(0);
    PlayFollowsShapes(g, moves);
    RunShapesFollowsTrace(0, |moves|);
  }

  /** The history lengths along the trace: both at least two up to step 9, player 1's below two after. */
  lemma ShapeTraceLengths(k: nat, x: Shapes)
    requires k <= 13 && x == ShapeTrace(k)
    ensures k <= 9 ==> |x.s1| >= 2 && |x.s2| >= 2
    ensures k >= 10 ==> |x.s1| < 2
  {
  }
}

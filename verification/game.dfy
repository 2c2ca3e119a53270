/**
 * The `Game` class of the rules engine: the board, the two players' piece
 * histories, whose turn it is and the winner, with the operations the search
 * uses (`do_move`, `game_end`, `availables`) and the display helpers
 * `disappear` and `state`.
 *
 * A history is the list the class keeps per player. It starts as four
 * `False` placeholders; every move appends the mover's cell and drops the
 * list's head once the list has reached four entries. After that, on every
 * move, each player whose head is a cell loses that piece from the board
 * and that head from the list.
 */
module Game {
  import opened Results
  import opened Board

  /** One history entry: the initial `False` placeholder or a placed cell. */
  datatype Entry = Placeholder | Placed(pos: Pos)

  /** The exceptions `do_move` and `disappear` can raise. */
  datatype GameError =
    | UnknownMove(id: int)       // KeyError: the id is not a key of the move-id table
    | EmptyHistory(player: int)  // IndexError: the player's history has no head to inspect
    | ShortHistory(player: int)  // IndexError: the player's history has no second entry

  datatype Game = Game(
    board: seq<seq<int>>,
    player1: seq<Entry>,
    player2: seq<Entry>,
    currentPlayer: int,
    winner: Option<int>)

  /** The module-level character board every game starts from. */
  const InitialChars: seq<seq<char>> := [[' ', ' ', ' '], [' ', ' ', ' '], [' ', ' ', ' ']]

  /** Four `False` placeholders. */
  const FreshHistory: seq<Entry> := [Placeholder, Placeholder, Placeholder, Placeholder]

  predicate HistoryInRange(h: seq<Entry>) {
    forall k :: 0 <= k < |h| && h[k].Placed? ==> InRange(h[k].pos)
  }

  /** What the methods index without checking: a 3x3 board and in-range history cells. */
  predicate WellFormed(g: Game) {
    Is3x3(g.board) && HistoryInRange(g.player1) && HistoryInRange(g.player2)
  }

  /** The values a game started by `init_board` keeps. */
  predicate Valid(g: Game) {
    WellFormed(g) && IsCodeBoard(g.board) && g.currentPlayer in {1, 2}
    && (g.winner.Some? ==> g.winner.value in {1, 2})
  }

  /** No cell of the board is empty. */
  predicate IsFull(b: seq<seq<int>>)
    requires Is3x3(b)
  {
    forall i, j :: 0 <= i < 3 && 0 <= j < 3 ==> b[i][j] != 0
  }

  /**
   * `init_board`: an empty board, two fresh histories, no winner, and
   * player 1 to move exactly when `startPlayer` is 1 (player 2 otherwise).
   */
  function InitBoard(startPlayer: int): (g: Game)
    ensures Valid(g)
    ensures forall i, j :: 0 <= i < 3 && 0 <= j < 3 ==> g.board[i][j] == 0
    ensures |g.player1| == 4 && |g.player2| == 4
    ensures forall k :: 0 <= k < 4 ==> g.player1[k] == Placeholder && g.player2[k] == Placeholder
    ensures g.currentPlayer == 1 <==> startPlayer == 1
    ensures g.winner == None
  {
    Game(Str2List(InitialChars), FreshHistory, FreshHistory,
         if startPlayer == 1 then 1 else 2, None)
  }

  /** `availables`: the legal move ids of the board. */
  function Availables(g: Game): (r: seq<int>)
    requires WellFormed(g)
    ensures forall id :: id in r <==> 0 <= id < 9 && Cell(g.board, PosOf(id)) == 0
    ensures forall k, l :: 0 <= k < l < |r| ==> r[k] < r[l]
  {
    LegalPositionIds(g.board)
  }

  /**
   * Append `e`; once the list has reached four entries, drop its head.
   * A history of at most four entries stays within four.
   */
  function Push(h: seq<Entry>, e: Entry): (r: seq<Entry>)
    ensures |r| > 0 && r[|r| - 1] == e
    ensures |r| == if |h| + 1 >= 4 then |h| else |h| + 1
    ensures forall k :: 0 <= k < |r| - 1 ==> r[k] in h
  {
    var appended := h + [e];
    if |appended| >= 4 then appended[1..] else appended
  }

  /**
   * The entries `Push` keeps before `e` are the newest ones of `h`, in their
   * old order: only the oldest entry is ever dropped.
   */
  lemma PushKeepsOrder(h: seq<Entry>, e: Entry)
    ensures Push(h, e)[..|Push(h, e)| - 1] == h[|h| + 1 - |Push(h, e)|..]
  {
  }

  /**
   * The expiry step for one player: when the history's head is a cell, that
   * cell is cleared and the head removed; a placeholder head is left alone.
   */
  function Expire(b: seq<seq<int>>, h: seq<Entry>): (r: (seq<seq<int>>, seq<Entry>))
    requires Is3x3(b) && HistoryInRange(h) && |h| > 0
    ensures Is3x3(r.0) && HistoryInRange(r.1)
    ensures h[0].Placed? ==> r.1 == h[1..] && Cell(r.0, h[0].pos) == 0
    ensures h[0].Placed? ==>
      forall i, j :: 0 <= i < 3 && 0 <= j < 3 && Pos(i, j) != h[0].pos ==> r.0[i][j] == b[i][j]
    ensures h[0].Placeholder? ==> r == (b, h)
    ensures forall i, j :: 0 <= i < 3 && 0 <= j < 3 ==> r.0[i][j] == b[i][j] || r.0[i][j] == 0
  {
    if h[0].Placed? then (SetCell(b, h[0].pos, 0), h[1..]) else (b, h)
  }

  /**
   * `do_move`, step by step as the method runs: look the id up (KeyError),
   * write the mover's mark, push the cell onto the mover's history, expire
   * player 1's head then player 2's head (IndexError on an empty history),
   * record the mover as winner if the resulting board has a line of theirs,
   * and pass the turn to `3 - currentPlayer`.
   */
  function DoMove(g: Game, moveId: int): (r: Result<Game, GameError>)
    requires WellFormed(g)
    // The error cases, exactly.
    ensures moveId !in MoveIdToPos ==> r == Err(UnknownMove(moveId))
    ensures 0 <= moveId < 9 ==>
      (r.Err? <==> (g.currentPlayer != 1 && |g.player1| == 0) || (g.currentPlayer == 1 && |g.player2| == 0))
    ensures 0 <= moveId < 9 && g.currentPlayer != 1 && |g.player1| == 0 ==> r == Err(EmptyHistory(1))
    ensures 0 <= moveId < 9 && g.currentPlayer == 1 && |g.player2| == 0 ==> r == Err(EmptyHistory(2))
    ensures r.Ok? ==> WellFormed(r.value)
  {
    if moveId !in MoveIdToPos then Err(UnknownMove(moveId))
    else
      var p := MoveIdToPos[moveId];
      var cp := g.currentPlayer;
      var placed := SetCell(g.board, p, cp);
      var h1 := if cp == 1 then Push(g.player1, Placed(p)) else g.player1;
      var h2 := if cp == 1 then g.player2 else Push(g.player2, Placed(p));
      if |h1| == 0 then Err(EmptyHistory(1))
      else
        var (b1, h1') := Expire(placed, h1);
        if |h2| == 0 then Err(EmptyHistory(2))
        else
          var (b2, h2') := Expire(b1, h2);
          var winner := if IsWin(b2, cp) then Some(cp) else g.winner;
          Ok(Game(b2, h1', h2', 3 - cp, winner))
  }

  /** A move keeps the values a started game holds: a 0/1/2 board, a player 1 or 2 to move. */
  lemma DoMoveKeepsValid(g: Game, moveId: int)
    requires Valid(g) && DoMove(g, moveId).Ok?
    ensures Valid(DoMove(g, moveId).value)
  {
    DoMoveWritesOnlyMoverMark(g, moveId);
    DoMoveTurnAndWinner(g, moveId);
  }

  /**
   * The only non-zero value a move writes is the mover's mark at the chosen
   * cell, the one whose id is 3 * row + column: every other cell keeps its
   * value or becomes 0.
   */
  lemma DoMoveWritesOnlyMoverMark(g: Game, moveId: int)
    requires WellFormed(g) && DoMove(g, moveId).Ok?
    ensures var b' := DoMove(g, moveId).value.board;
      forall i, j :: 0 <= i < 3 && 0 <= j < 3 ==>
        || b'[i][j] == g.board[i][j]
        || b'[i][j] == 0
        || (3 * i + j == moveId && b'[i][j] == g.currentPlayer)
  {
    MoveIdTable();
    var p := MoveIdToPos[moveId];
    var cp := g.currentPlayer;
    var placed := SetCell(g.board, p, cp);
    var h1 := if cp == 1 then Push(g.player1, Placed(p)) else g.player1;
    var h2 := if cp == 1 then g.player2 else Push(g.player2, Placed(p));
    var e1 := Expire(placed, h1);
    var e2 := Expire(e1.0, h2);
    assert DoMove(g, moveId).value.board == e2.0;
    MarkThenExpireWritesOnlyMark(g.board, p, cp, h1, h2);
  }

  /** Writing `v` at `p` and then expiring two heads writes no other non-zero value. */
  lemma MarkThenExpireWritesOnlyMark(b: seq<seq<int>>, p: Pos, v: int, h1: seq<Entry>, h2: seq<Entry>)
    requires Is3x3(b) && InRange(p) && HistoryInRange(h1) && HistoryInRange(h2) && |h1| > 0 && |h2| > 0
    ensures var b2 := Expire(Expire(SetCell(b, p, v), h1).0, h2).0;
      forall i, j :: 0 <= i < 3 && 0 <= j < 3 ==>
        b2[i][j] == b[i][j] || b2[i][j] == 0 || (Pos(i, j) == p && b2[i][j] == v)
  {
    var placed := SetCell(b, p, v);
    var b1 := Expire(placed, h1).0;
    var b2 := Expire(b1, h2).0;
    forall i, j | 0 <= i < 3 && 0 <= j < 3
      ensures b2[i][j] == b[i][j] || b2[i][j] == 0 || (Pos(i, j) == p && b2[i][j] == v)
    {
      assert placed[i][j] == b[i][j] || (Pos(i, j) == p && placed[i][j] == v);
      assert b1[i][j] == placed[i][j] || b1[i][j] == 0;
    }
  }

  /**
   * A move passes the turn to `3 - currentPlayer`, records the mover as
   * winner when the resulting board has one of their lines, never records
   * anyone else, and never clears a recorded winner.
   */
  lemma DoMoveTurnAndWinner(g: Game, moveId: int)
    requires WellFormed(g) && DoMove(g, moveId).Ok?
    ensures var g' := DoMove(g, moveId).value;
      && g'.currentPlayer == 3 - g.currentPlayer
      && (HasLine(g'.board, g.currentPlayer) ==> g'.winner == Some(g.currentPlayer))
      && (g'.winner != g.winner ==> g'.winner == Some(g.currentPlayer) && HasLine(g'.board, g.currentPlayer))
      && (g.winner.Some? ==> g'.winner.Some?)
  {
  }

  /** A move keeps each history that has at most four entries within four. */
  lemma DoMoveKeepsHistoryBound(g: Game, moveId: int)
    requires WellFormed(g) && DoMove(g, moveId).Ok?
    ensures |g.player1| <= 4 ==> |DoMove(g, moveId).value.player1| <= 4
    ensures |g.player2| <= 4 ==> |DoMove(g, moveId).value.player2| <= 4
  {
  }

  /** The mover's cell pushed onto the mover's history; the other history as it was. */
  function Pushed(h: seq<Entry>, p: Pos, isMover: bool): seq<Entry> {
    if isMover then Push(h, Placed(p)) else h
  }

  /** A history after the expiry step: a cell at the head is dropped. */
  function DropHead(h: seq<Entry>): seq<Entry>
    requires |h| > 0
  {
    if h[0].Placed? then h[1..] else h
  }

  /** The histories a successful move leaves: both pushed and expired, and the turn passed. */
  lemma DoMoveHistories(g: Game, moveId: int)
    requires WellFormed(g) && 0 <= moveId < 9 && DoMove(g, moveId).Ok?
    ensures var h1 := Pushed(g.player1, MoveIdToPos[moveId], g.currentPlayer == 1);
      var h2 := Pushed(g.player2, MoveIdToPos[moveId], g.currentPlayer != 1);
      && |h1| > 0 && |h2| > 0
      && DoMove(g, moveId).value.player1 == DropHead(h1)
      && DoMove(g, moveId).value.player2 == DropHead(h2)
      && DoMove(g, moveId).value.currentPlayer == 3 - g.currentPlayer
  {
    MoveIdTable();
    var p := MoveIdToPos[moveId];
    var cp := g.currentPlayer;
    var placed := SetCell(g.board, p, cp);
    var h1 := if cp == 1 then Push(g.player1, Placed(p)) else g.player1;
    var h2 := if cp == 1 then g.player2 else Push(g.player2, Placed(p));
    var e1 := Expire(placed, h1);
    var e2 := Expire(e1.0, h2);
    assert e1.1 == DropHead(h1) && e2.1 == DropHead(h2);
    var g' := DoMove(g, moveId).value;
    assert g'.player1 == e1.1 && g'.player2 == e2.1 && g'.currentPlayer == 3 - cp;
  }

  /**
   * The board a successful move leaves, cell by cell: the cells at the heads
   * of the two histories after the push are cleared; otherwise the chosen
   * cell holds the mover's mark and every other cell is as it was.
   */
  lemma DoMoveBoard(g: Game, moveId: int)
    requires WellFormed(g) && DoMove(g, moveId).Ok?
    ensures moveId in MoveIdToPos
    ensures var p := MoveIdToPos[moveId];
      var h1 := Pushed(g.player1, p, g.currentPlayer == 1);
      var h2 := Pushed(g.player2, p, g.currentPlayer != 1);
      var b' := DoMove(g, moveId).value.board;
      && |h1| > 0 && |h2| > 0
      && forall i, j :: 0 <= i < 3 && 0 <= j < 3 ==>
        b'[i][j] == if h1[0] == Placed(Pos(i, j)) || h2[0] == Placed(Pos(i, j)) then 0
                    else if Pos(i, j) == p then g.currentPlayer
                    else g.board[i][j]
  {
    MoveIdTable();
    var p := MoveIdToPos[moveId];
    var cp := g.currentPlayer;
    var placed := SetCell(g.board, p, cp);
    var h1 := Pushed(g.player1, p, cp == 1);
    var h2 := Pushed(g.player2, p, cp != 1);
    var e1 := Expire(placed, h1);
    var e2 := Expire(e1.0, h2);
    assert DoMove(g, moveId).value.board == e2.0;
    MarkThenExpireBoard(g.board, p, cp, h1, h2);
  }

  /** Writing `v` at `p` and then expiring two heads, cell by cell. */
  lemma MarkThenExpireBoard(b: seq<seq<int>>, p: Pos, v: int, h1: seq<Entry>, h2: seq<Entry>)
    requires Is3x3(b) && InRange(p) && HistoryInRange(h1) && HistoryInRange(h2) && |h1| > 0 && |h2| > 0
    ensures var b2 := Expire(Expire(SetCell(b, p, v), h1).0, h2).0;
      forall i, j :: 0 <= i < 3 && 0 <= j < 3 ==>
        b2[i][j] == if h1[0] == Placed(Pos(i, j)) || h2[0] == Placed(Pos(i, j)) then 0
                    else if Pos(i, j) == p then v
                    else b[i][j]
  {
    var placed := SetCell(b, p, v);
    var b1 := Expire(placed, h1).0;
    var b2 := Expire(b1, h2).0;
    forall i, j | 0 <= i < 3 && 0 <= j < 3
      ensures b2[i][j] == if h1[0] == Placed(Pos(i, j)) || h2[0] == Placed(Pos(i, j)) then 0
                          else if Pos(i, j) == p then v
                          else b[i][j]
    {
      assert placed[i][j] == if Pos(i, j) == p then v else b[i][j];
      assert b1[i][j] == if h1[0] == Placed(Pos(i, j)) then 0 else placed[i][j];
    }
  }

  /** `Game.is_win`: (True, winner) once a winner is recorded, (False, None) before. */
  function WinStatus(g: Game): (r: (bool, Option<int>))
    ensures r.0 <==> g.winner.Some?
    ensures r.1 == g.winner
  {
    if g.winner.Some? then (true, g.winner) else (false, None)
  }

  /** No row of the board contains an empty cell (0). */
  predicate NoEmptyRow(b: seq<seq<int>>) {
    forall k :: 0 <= k < |b| ==> 0 !in b[k]
  }

  /**
   * `game_end`: (True, winner) when a winner is recorded; otherwise
   * (True, None) exactly when no cell is empty; otherwise (False, None).
   */
  function GameEnd(g: Game): (r: (bool, Option<int>))
    requires Is3x3(g.board)
    ensures g.winner.Some? ==> r == (true, g.winner)
    ensures g.winner.None? ==> r.1 == None && (r.0 <==> IsFull(g.board))
  {
    var (done, winner) := WinStatus(g);
    if done then (true, winner)
    else
      assert NoEmptyRow(g.board) <==> IsFull(g.board) by {
        if IsFull(g.board) {
          forall k | 0 <= k < 3 ensures 0 !in g.board[k] {
            assert forall j :: 0 <= j < 3 ==> g.board[k][j] != 0;
          }
        }
      }
      if NoEmptyRow(g.board) then (true, None) else (false, None)
  }

  /** Second history entry of a player is the cell `p`. */
  predicate SecondIs(h: seq<Entry>, p: Pos) {
    |h| >= 2 && h[1] == Placed(p)
  }

  /**
   * `disappear`: the second entry of player 1's history, then of player
   * 2's, each only when it is a cell. These are the pieces that expire on
   * the next moves. Reading a second entry that is not there raises, player
   * 1's history being read first.
   */
  function Disappear(g: Game): (r: Result<seq<Pos>, GameError>)
    ensures r.Err? <==> |g.player1| < 2 || |g.player2| < 2
    ensures |g.player1| < 2 ==> r == Err(ShortHistory(1))
    ensures |g.player1| >= 2 && |g.player2| < 2 ==> r == Err(ShortHistory(2))
    ensures r.Ok? ==> |r.value| <= 2
    ensures r.Ok? ==> forall p :: p in r.value <==> SecondIs(g.player1, p) || SecondIs(g.player2, p)
    ensures r.Ok? ==>
      |r.value| == (if g.player1[1].Placed? then 1 else 0) + (if g.player2[1].Placed? then 1 else 0)
    ensures r.Ok? && g.player1[1].Placed? ==> r.value[0] == g.player1[1].pos
    ensures r.Ok? && g.player2[1].Placed? ==> r.value[|r.value| - 1] == g.player2[1].pos
  {
    if |g.player1| < 2 then Err(ShortHistory(1))
    else if |g.player2| < 2 then Err(ShortHistory(2))
    else
      Ok((if g.player1[1].Placed? then [g.player1[1].pos] else [])
         + (if g.player2[1].Placed? then [g.player2[1].pos] else []))
  }

  /** Clear the listed cells one after another, as the `for` loop of `state` does. */
  function ClearCells(b: seq<seq<int>>, ps: seq<Pos>): (r: seq<seq<int>>)
    requires Is3x3(b) && forall k :: 0 <= k < |ps| ==> InRange(ps[k])
    ensures Is3x3(r)
    ensures forall i, j :: 0 <= i < 3 && 0 <= j < 3 ==>
      r[i][j] == if Pos(i, j) in ps then 0 else b[i][j]
    decreases |ps|
  {
    if |ps| == 0 then b
    else
      var rest := ClearCells(SetCell(b, ps[0], 0), ps[1..]);
      assert forall p :: p in ps <==> p == ps[0] || p in ps[1..];
      rest
  }

  /**
   * `state`: the board with exactly the cells of the players' second
   * history entries cleared; every other cell is unchanged. It raises
   * whatever `disappear` raises.
   */
  function State(g: Game): (r: Result<seq<seq<int>>, GameError>)
    requires WellFormed(g)
    ensures r.Err? <==> |g.player1| < 2 || |g.player2| < 2
    ensures r.Err? ==> r.error == ShortHistory(if |g.player1| < 2 then 1 else 2)
    ensures r.Ok? ==> Is3x3(r.value)
    ensures r.Ok? ==> forall i, j :: 0 <= i < 3 && 0 <= j < 3 ==>
      r.value[i][j] == if SecondIs(g.player1, Pos(i, j)) || SecondIs(g.player2, Pos(i, j)) then 0 else g.board[i][j]
  {
    match Disappear(g)
    case Err(e) => Err(e)
    case Ok(ps) => Ok(ClearCells(g.board, ps))
  }

  /** A sequence of `do_move` calls, stopping at the first exception. */
  function Play(g: Game, moves: seq<int>): (r: Result<Game, GameError>)
    requires WellFormed(g)
    ensures r.Ok? ==> WellFormed(r.value)
    decreases |moves|
  {
    if |moves| == 0 then Ok(g)
    else
      match DoMove(g, moves[0])
      case Err(e) => Err(e)
      case Ok(next) => Play(next, moves[1..])
  }

  /** Playing one more move after a run is `do_move` on the run's outcome. */
  lemma {:induction false} PlayAppend(g: Game, moves: seq<int>, a: int)
    requires WellFormed(g)
    ensures Play(g, moves).Err? ==> Play(g, moves + [a]) == Play(g, moves)
    ensures Play(g, moves).Ok? ==> Play(g, moves + [a]) == DoMove(Play(g, moves).value, a)
    decreases |moves|
  {
    if |moves| == 0 {
      assert [a][1..] == [];
      assert moves + [a] == [a];
    } else {
      assert (moves + [a])[0] == moves[0];
      assert (moves + [a])[1..] == moves[1..] + [a];
      var step := DoMove(g, moves[0]);
      if step.Ok? {
        PlayAppend(step.value, moves[1..], a);
      }
    }
  }

  /**
   * From a fresh game, however many moves are made, neither history ever
   * holds more than four entries.
   */
  lemma {:induction false} HistoriesStayBounded(g: Game, moves: seq<int>)
    requires WellFormed(g) && |g.player1| <= 4 && |g.player2| <= 4
    ensures Play(g, moves).Ok? ==> |Play(g, moves).value.player1| <= 4 && |Play(g, moves).value.player2| <= 4
    decreases |moves|
  {
    if |moves| > 0 {
      var step := DoMove(g, moves[0]);
      if step.Ok? {
        DoMoveKeepsHistoryBound(g, moves[0]);
        HistoriesStayBounded(step.value, moves[1..]);
      }
    }
  }

  /** A game started by `init_board` keeps both histories within four entries. */
  lemma HistoriesBoundedFromStart(startPlayer: int, moves: seq<int>)
    ensures Play(InitBoard(startPlayer), moves).Ok? ==>
      |Play(InitBoard(startPlayer), moves).value.player1| <= 4
      && |Play(InitBoard(startPlayer), moves).value.player2| <= 4
  {
    HistoriesStayBounded(InitBoard(startPlayer), moves);
  }
}

/**
 * The free functions of the rules engine: conversion between the character
 * board and the integer board, win detection, the move-id maps and the list
 * of legal move ids.
 *
 * Cells hold 0 (empty), 1 (player one, shown 'X') or 2 (player two, 'O').
 * Rows are indexed first (y), columns second (x).
 */
module Board {

  /** A cell address (row, column). */
  datatype Pos = Pos(row: int, col: int)

  predicate InRange(p: Pos) {
    0 <= p.row < 3 && 0 <= p.col < 3
  }

  /** A board with exactly three rows of three cells. */
  predicate Is3x3<T>(b: seq<seq<T>>) {
    |b| == 3 && forall i :: 0 <= i < 3 ==> |b[i]| == 3
  }

  /**
   * A board the conversion loops can walk without indexing outside the 3x3
   * result: rows 0..2 hold at most three cells, and any further rows are
   * empty, so their inner loops never run.
   */
  predicate FitsIn3x3<T>(b: seq<seq<T>>) {
    forall i :: 0 <= i < |b| ==> |b[i]| <= (if i < 3 then 3 else 0)
  }

  predicate IsCharBoard(b: seq<seq<char>>) {
    Is3x3(b) && forall i, j :: 0 <= i < 3 && 0 <= j < 3 ==> b[i][j] in {' ', 'X', 'O'}
  }

  predicate IsCodeBoard(b: seq<seq<int>>) {
    Is3x3(b) && forall i, j :: 0 <= i < 3 && 0 <= j < 3 ==> b[i][j] in {0, 1, 2}
  }

  /** The cell `p` of a 3x3 board. */
  function Cell<T>(b: seq<seq<T>>, p: Pos): T
    requires Is3x3(b) && InRange(p)
  {
    b[p.row][p.col]
  }

  /** The board with cell `p` replaced by `v`; every other cell is kept. */
  function SetCell<T>(b: seq<seq<T>>, p: Pos, v: T): (r: seq<seq<T>>)
    requires Is3x3(b) && InRange(p)
    ensures Is3x3(r)
    ensures Cell(r, p) == v
    ensures forall i, j :: 0 <= i < 3 && 0 <= j < 3 && Pos(i, j) != p ==> r[i][j] == b[i][j]
  {
    b[p.row := b[p.row][p.col := v]]
  }

  // ---------------------------------------------------------------------
  // str2list / list2str

  /** ' ' is 0, 'X' is 1, and every other character falls through to 2. */
  function CharToCode(c: char): int {
    if c == ' ' then 0 else if c == 'X' then 1 else 2
  }

  /** 0 is ' ', 1 is 'X', and every other integer falls through to 'O'. */
  function CodeToChar(v: int): char {
    if v == 0 then ' ' else if v == 1 then 'X' else 'O'
  }

  /**
   * `str2list`: start from an all-empty 3x3 integer board and convert every
   * cell the input has; cells the input lacks stay 0.
   */
  function Str2List(b: seq<seq<char>>): (r: seq<seq<int>>)
    requires FitsIn3x3(b)
    ensures IsCodeBoard(r)
    ensures forall i, j :: 0 <= i < |b| && 0 <= j < |b[i]| ==>
      (r[i][j] == 0 <==> b[i][j] == ' ') && (r[i][j] == 1 <==> b[i][j] == 'X')
    ensures forall i, j :: 0 <= i < 3 && 0 <= j < 3 && !(i < |b| && j < |b[i]|) ==> r[i][j] == 0
  {
    seq(3, i requires 0 <= i < 3 =>
      seq(3, j requires 0 <= j < 3 =>
        if i < |b| && j < |b[i]| then CharToCode(b[i][j]) else 0))
  }

  /**
   * `list2str`: start from an all-blank 3x3 character board and convert
   * every cell the input has; cells the input lacks stay ' '.
   */
  function List2Str(b: seq<seq<int>>): (r: seq<seq<char>>)
    requires FitsIn3x3(b)
    ensures IsCharBoard(r)
    ensures forall i, j :: 0 <= i < |b| && 0 <= j < |b[i]| ==>
      (r[i][j] == ' ' <==> b[i][j] == 0) && (r[i][j] == 'X' <==> b[i][j] == 1)
    ensures forall i, j :: 0 <= i < 3 && 0 <= j < 3 && !(i < |b| && j < |b[i]|) ==> r[i][j] == ' '
  {
    seq(3, i requires 0 <= i < 3 =>
      seq(3, j requires 0 <= j < 3 =>
        if i < |b| && j < |b[i]| then CodeToChar(b[i][j]) else ' '))
  }

  /** Converting a character board to integers and back gives the same board. */
  lemma CharBoardRoundTrip(b: seq<seq<char>>)
    requires IsCharBoard(b)
    ensures List2Str(Str2List(b)) == b
  {
    var r := List2Str(Str2List(b));
    forall i | 0 <= i < 3
      ensures r[i] == b[i]
    {
      forall j | 0 <= j < 3
        ensures r[i][j] == b[i][j]
      {
        assert b[i][j] in {' ', 'X', 'O'};
      }
    }
  }

  /** Converting an integer board to characters and back gives the same board. */
  lemma CodeBoardRoundTrip(b: seq<seq<int>>)
    requires IsCodeBoard(b)
    ensures Str2List(List2Str(b)) == b
  {
    var r := Str2List(List2Str(b));
    forall i | 0 <= i < 3
      ensures r[i] == b[i]
    {
      forall j | 0 <= j < 3
        ensures r[i][j] == b[i][j]
      {
        assert b[i][j] in {0, 1, 2};
      }
    }
  }

  // ---------------------------------------------------------------------
  // is_win

  /**
   * The eight winning lines, numbered 0..7: rows 0..2, columns 3..5, the
   * main diagonal 6 and the anti-diagonal 7. `Line(l, k)` is the k-th cell
   * of line `l`.
   */
  function Line(l: int, k: int): (p: Pos)
    requires 0 <= l < 8 && 0 <= k < 3
    ensures InRange(p)
  {
    if l < 3 then Pos(l, k)
    else if l < 6 then Pos(k, l - 3)
    else if l == 6 then Pos(k, k)
    else Pos(k, 2 - k)
  }

  /** Line `l` is filled with `player`. */
  predicate LineOwned(b: seq<seq<int>>, player: int, l: int)
    requires Is3x3(b) && 0 <= l < 8
  {
    Cell(b, Line(l, 0)) == player && Cell(b, Line(l, 1)) == player && Cell(b, Line(l, 2)) == player
  }

  /** Reference definition of a win: one of the eight lines is filled with `player`. */
  predicate HasLine(b: seq<seq<int>>, player: int)
    requires Is3x3(b)
  {
    exists l :: 0 <= l < 8 && LineOwned(b, player, l)
  }

  /** Some row `i` with `from <= i < 3` is filled with `player`. */
  function RowWinFrom(b: seq<seq<int>>, player: int, from: nat): (r: bool)
    requires Is3x3(b) && from <= 3
    ensures r <==> exists l :: from <= l < 3 && LineOwned(b, player, l)
    decreases 3 - from
  {
    if from == 3 then false
    else if b[from][0] == player && b[from][1] == player && b[from][2] == player then
      assert LineOwned(b, player, from);
      true
    else
      assert !LineOwned(b, player, from);
      RowWinFrom(b, player, from + 1)
  }

  /** Some column `j` with `from <= j < 3` is filled with `player`. */
  function ColWinFrom(b: seq<seq<int>>, player: int, from: nat): (r: bool)
    requires Is3x3(b) && from <= 3
    ensures r <==> exists l :: 3 + from <= l < 6 && LineOwned(b, player, l)
    decreases 3 - from
  {
    if from == 3 then false
    else if b[0][from] == player && b[1][from] == player && b[2][from] == player then
      assert LineOwned(b, player, 3 + from);
      true
    else
      assert !LineOwned(b, player, 3 + from);
      ColWinFrom(b, player, from + 1)
  }

  /**
   * `is_win`: the two diagonals first, then the rows, then the columns.
   * The result holds exactly when one of the eight lines is all `player`.
   */
  function IsWin(b: seq<seq<int>>, player: int): (r: bool)
    requires Is3x3(b)
    ensures r <==> HasLine(b, player)
  {
    if b[0][0] == player && b[1][1] == player && b[2][2] == player then
      assert LineOwned(b, player, 6);
      true
    else if b[0][2] == player && b[1][1] == player && b[2][0] == player then
      assert LineOwned(b, player, 7);
      true
    else
      assert !LineOwned(b, player, 6) && !LineOwned(b, player, 7);
      RowWinFrom(b, player, 0) || ColWinFrom(b, player, 0)
  }

  // ---------------------------------------------------------------------
  // move_id2move_actions / move_actions2move_id

  /** `move_id2move_actions`, entry by entry. */
  const MoveIdToPos: map<int, Pos> := map[
    0 := Pos(0, 0), 1 := Pos(0, 1), 2 := Pos(0, 2),
    3 := Pos(1, 0), 4 := Pos(1, 1), 5 := Pos(1, 2),
    6 := Pos(2, 0), 7 := Pos(2, 1), 8 := Pos(2, 2)
  ]

  /** `move_actions2move_id`, entry by entry. */
  const PosToMoveId: map<Pos, int> := map[
    Pos(0, 0) := 0, Pos(0, 1) := 1, Pos(0, 2) := 2,
    Pos(1, 0) := 3, Pos(1, 1) := 4, Pos(1, 2) := 5,
    Pos(2, 0) := 6, Pos(2, 1) := 7, Pos(2, 2) := 8
  ]

  /** The id table covers exactly ids 0..8 and numbers cells row by row. */
  lemma MoveIdTable()
    ensures forall id :: id in MoveIdToPos <==> 0 <= id < 9
    ensures forall id :: id in MoveIdToPos ==> MoveIdToPos[id] == Pos(id / 3, id % 3)
  {
  }

  /** The position table covers exactly the in-range cells, with id = 3 * row + col. */
  lemma PosTable()
    ensures forall p :: p in PosToMoveId <==> InRange(p)
    ensures forall p :: p in PosToMoveId ==> PosToMoveId[p] == 3 * p.row + p.col
  {
    forall p | InRange(p)
      ensures p in PosToMoveId
    {
      assert p.row == 0 || p.row == 1 || p.row == 2;
      assert p.col == 0 || p.col == 1 || p.col == 2;
    }
  }

  /**
   * The two literal tables are mutual inverses over ids 0..8 and the nine
   * in-range cells.
   */
  lemma MoveMapsAreInverse()
    ensures forall id :: id in MoveIdToPos ==>
      MoveIdToPos[id] in PosToMoveId && PosToMoveId[MoveIdToPos[id]] == id
    ensures forall p :: p in PosToMoveId ==>
      PosToMoveId[p] in MoveIdToPos && MoveIdToPos[PosToMoveId[p]] == p
  {
    MoveIdTable();
    PosTable();
  }

  /** The cell a move id in 0..8 addresses. */
  function PosOf(id: int): (p: Pos)
    requires 0 <= id < 9
    ensures p in PosToMoveId && PosToMoveId[p] == id && InRange(p)
  {
    MoveIdToPos[id]
  }

  // ---------------------------------------------------------------------
  // get_legal_position_id

  /** The ids `from`..8 whose cell is empty, in the order the loop visits them. */
  function LegalFrom(b: seq<seq<int>>, from: nat): (r: seq<int>)
    requires Is3x3(b) && from <= 9
    ensures forall k :: 0 <= k < |r| ==> from <= r[k] < 9
    ensures forall k, l :: 0 <= k < l < |r| ==> r[k] < r[l]
    ensures forall id :: id in r <==> from <= id < 9 && Cell(b, PosOf(id)) == 0
    decreases 9 - from
  {
    if from == 9 then []
    else
      var rest := LegalFrom(b, from + 1);
      if Cell(b, PosOf(from)) == 0 then [from] + rest else rest
  }

  /**
   * `get_legal_position_id`: the ids of exactly the empty cells, each in
   * 0..8, in strictly increasing order.
   */
  function LegalPositionIds(b: seq<seq<int>>): (r: seq<int>)
    requires Is3x3(b)
    ensures forall k :: 0 <= k < |r| ==> 0 <= r[k] < 9
    ensures forall k, l :: 0 <= k < l < |r| ==> r[k] < r[l]
    ensures forall id :: id in r <==> 0 <= id < 9 && Cell(b, PosOf(id)) == 0
  {
    LegalFrom(b, 0)
  }
}

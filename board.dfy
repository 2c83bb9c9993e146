/**
 * `Board` from ttt.py: the 27 cells of the 3x3x3 board, the list of allowed
 * moves, and the methods that read and change them. The nested board is kept
 * as one array in nested order, so cell (i, x, y) is `board[9 * i + 3 * x + y]`.
 * Every method is proved equal to the rule it implements in module `Rules`.
 */
module GameBoard {
  import opened Wrappers
  import opened PyList
  import opened Rules

  class Board {
    /** `self.board`, cell (i, x, y) at index 9i + 3x + y. */
    const board: array<Cell>
    /** `self.allowed_moves`. */
    var allowedMoves: seq<int>
    /** The class attribute `winning_combos`. */
    const winningCombos: seq<Line>

    ghost function Model(): State
      reads this, board
    {
      State(board[..], allowedMoves)
    }

    /** The invariant every move and undo of a played game keeps. */
    ghost predicate Valid()
      reads this, board
    {
      Consistent(Model())
    }

    /** `__init__`: all 27 cells empty and allowed, and the table of 49 combinations. */
    constructor()
      ensures Valid()
      ensures Model() == State(InitialCells(), InitialAllowed())
      ensures winningCombos == Combos
      ensures fresh(board)
    {
      var b := CreateBoard();
      board := b;
      allowedMoves := InitialAllowed();
      winningCombos := Combos;
      new;
      assert board[..] == InitialCells();
      assert Model() == State(InitialCells(), InitialAllowed());
      InitialConsistent();
    }

    /** `create_board`: a fresh board whose every cell holds its own index. */
    static method CreateBoard() returns (b: array<Cell>)
      ensures fresh(b) && b.Length == 27
      ensures forall k | 0 <= k < 27 :: b[k] == Free(k)
    {
      b := new Cell[27];
      var cnt := 0;
      for i := 0 to 3
        invariant cnt == 9 * i
        invariant forall k | 0 <= k < cnt :: b[k] == Free(k)
      {
        for x := 0 to 3
          invariant cnt == 9 * i + 3 * x
          invariant forall k | 0 <= k < cnt :: b[k] == Free(k)
        {
          for y := 0 to 3
            invariant cnt == 9 * i + 3 * x + y
            invariant forall k | 0 <= k < cnt :: b[k] == Free(k)
          {
            b[cnt] := Free(cnt);
            cnt := cnt + 1;
          }
        }
      }
    }

    /**
     * `find`: the coordinates (board, row, column) of cell `key`, counting
     * cells in nested order; None when no cell has that index.
     */
    static method Find(key: int) returns (r: Option<(int, int, int)>)
      ensures r.Some? <==> 0 <= key < 27
      ensures r.Some? ==> 0 <= r.value.0 < 3 && 0 <= r.value.1 < 3 && 0 <= r.value.2 < 3
      ensures r.Some? ==> 9 * r.value.0 + 3 * r.value.1 + r.value.2 == key
    {
      var cnt := 0;
      for i := 0 to 3
        invariant cnt == 9 * i && !(0 <= key < cnt)
      {
        for x := 0 to 3
          invariant cnt == 9 * i + 3 * x && !(0 <= key < cnt)
        {
          for y := 0 to 3
            invariant cnt == 9 * i + 3 * x + y && !(0 <= key < cnt)
          {
            if cnt == key {
              return Some((i, x, y));
            }
            cnt := cnt + 1;
          }
        }
      }
      return None;
    }

    /** `get_moves(player)`: the indices of `player`'s cells, ascending. */
    method GetMoves(player: Player) returns (moves: seq<int>)
      requires board.Length == 27
      ensures moves == Moves(board[..], player)
    {
      moves := [];
      var cnt := 0;
      for i := 0 to 3
        invariant cnt == 9 * i && moves == Positions(board[..], cnt, Some(player))
      {
        for x := 0 to 3
          invariant cnt == 9 * i + 3 * x && moves == Positions(board[..], cnt, Some(player))
        {
          for y := 0 to 3
            invariant cnt == 9 * i + 3 * x + y && moves == Positions(board[..], cnt, Some(player))
          {
            if board[9 * i + 3 * x + y] == Mark(player) {
              moves := moves + [cnt];
            }
            cnt := cnt + 1;
          }
        }
      }
    }

    /** `available_combos(player)`: the allowed moves followed by `player`'s moves. */
    method AvailableCombos(player: Player) returns (r: seq<int>)
      requires board.Length == 27
      ensures r == allowedMoves + Moves(board[..], player)
    {
      var moves := GetMoves(player);
      r := allowedMoves + moves;
    }

    /** `winner`: the first player, X then O, holding a whole combination. */
    method Winner() returns (w: Option<Player>)
      requires board.Length == 27
      ensures w == Rules.Winner(winningCombos, board[..])
    {
      for q := 0 to |Players|
        invariant forall q' | 0 <= q' < q :: !HasLine(winningCombos, Moves(board[..], Players[q']))
      {
        var player := Players[q];
        var positions := GetMoves(player);
        for c := 0 to |winningCombos|
          invariant forall d | 0 <= d < c :: !Owns(positions, winningCombos[d])
        {
          var combo := winningCombos[c];
          var won := true;
          for j := 0 to 3
            invariant won <==> forall j' | 0 <= j' < j :: combo[j'] in positions
          {
            if combo[j] !in positions {
              won := false;
            }
          }
          if won {
            assert Owns(positions, winningCombos[c]);
            assert HasLine(winningCombos, Moves(board[..], Players[q]));
            assert Players[0] == X && Players[1] == O;
            return Some(player);
          }
        }
      }
      assert Players[0] == X && Players[1] == O;
      return None;
    }

    /** `complete`: a combination either player could still fill ends the scan with `winner is not None`. */
    method Complete() returns (done: bool)
      requires board.Length == 27
      ensures done == Rules.Complete(winningCombos, Model())
    {
      for q := 0 to |Players|
        invariant forall q' | 0 <= q' < q :: !AnyAvailable(winningCombos, Model(), Players[q'])
      {
        var player := Players[q];
        for c := 0 to |winningCombos|
          invariant forall d | 0 <= d < c :: !ComboAvailable(Model(), player, winningCombos[d])
        {
          var combo := winningCombos[c];
          var comboAvail := true;
          for j := 0 to 3
            invariant comboAvail <==> forall j' | 0 <= j' < j :: combo[j'] in allowedMoves + Moves(board[..], player)
          {
            var avail := AvailableCombos(player);
            if combo[j] !in avail {
              comboAvail := false;
            }
          }
          if comboAvail {
            var w := Winner();
            return w.Some?;
          }
        }
      }
      assert Players[0] == X && Players[1] == O;
      return true;
    }

    /** `winning_combo`: the first combination the winner holds; None without a winner. */
    method WinningCombo() returns (r: Option<Line>)
      requires board.Length == 27
      ensures r == WinningLine(winningCombos, board[..])
    {
      var w := Winner();
      if w.Some? {
        var positions := GetMoves(w.value);
        for c := 0 to |winningCombos|
          invariant FirstOwned(winningCombos, positions, c) == FirstOwned(winningCombos, positions, 0)
        {
          var combo := winningCombos[c];
          var winner := Some(combo);
          for j := 0 to 3
            invariant winner == None || winner == Some(combo)
            invariant winner.Some? <==> forall j' | 0 <= j' < j :: combo[j'] in positions
          {
            if combo[j] !in positions {
              winner := None;
            }
          }
          if winner.Some? {
            assert Owns(positions, winningCombos[c]);
            return winner;
          }
        }
      }
      return None;
    }

    /** `find_value(key)`: the content of cell `key`. */
    method FindValue(key: int) returns (v: Cell)
      requires board.Length == 27 && 0 <= key < 27
      ensures v == board[key]
    {
      var r := Find(key);
      var i, x, y := r.value.0, r.value.1, r.value.2;
      v := board[9 * i + 3 * x + y];
    }

    /** `check_available(player, enemy)`: the combinations with no cell held by `enemy` alone. */
    method CheckAvailable(player: Player, enemy: Player) returns (wins: int)
      requires board.Length == 27
      ensures wins == CountAvailable(winningCombos, board[..], player, enemy, |winningCombos|)
    {
      wins := 0;
      for c := 0 to |winningCombos|
        invariant wins == CountAvailable(winningCombos, board[..], player, enemy, c)
      {
        var combo := winningCombos[c];
        var all := true;
        for j := 0 to 3
          invariant all <==> forall j' | 0 <= j' < j :: board[combo[j']] == Mark(player) || board[combo[j']] != Mark(enemy)
        {
          var v := FindValue(combo[j]);
          if !(v == Mark(player) || v != Mark(enemy)) {
            all := false;
          }
        }
        if all {
          wins := wins + 1;
        }
      }
    }

    /**
     * `undo_move(position)`: `position` goes back on the allowed list, which is
     * sorted again, and its cell gets its index back.
     */
    method UndoMove(position: int)
      requires board.Length == 27 && 0 <= position < 27
      modifies this, board
      ensures Model() == Undone(old(Model()), position)
      ensures old(Valid()) && old(board[position]).Mark? ==> Valid()
    {
      ghost var s := Model();
      allowedMoves := allowedMoves + [position];
      allowedMoves := SortList(allowedMoves);
      var r := Find(position);
      var i, x, y := r.value.0, r.value.1, r.value.2;
      board[9 * i + 3 * x + y] := Free(position);
      assert board[..] == s.cells[position := Free(position)];
      AfterUndo(s, position);
    }

    /**
     * `move(position, player)`: `list.remove` raises ValueError unless
     * `position` is allowed, and then nothing changes (`ok` is false);
     * otherwise `position` leaves the allowed list and its cell takes the mark.
     */
    method Move(position: int, player: Player) returns (ok: bool)
      requires Valid()
      modifies this, board
      ensures ok <==> position in old(allowedMoves)
      ensures !ok ==> Model() == old(Model())
      ensures ok ==> 0 <= position < 27 && Model() == Moved(old(Model()), position, player)
      ensures Valid()
    {
      if position !in allowedMoves {
        return false;
      }
      ghost var s := Model();
      AllowedIsFree(s, position);
      allowedMoves := RemoveFirst(allowedMoves, position);
      allowedMoves := SortList(allowedMoves);
      var r := Find(position);
      var i, x, y := r.value.0, r.value.1, r.value.2;
      board[9 * i + 3 * x + y] := Mark(player);
      assert board[..] == s.cells[position := Mark(player)];
      AfterMove(s, position, player);
      ok := true;
    }

    /** The state `undo_move` leaves: `Undone` of the state before, and valid again if that was valid with `p` occupied. */
    lemma AfterUndo(s: State, p: int)
      requires |s.cells| == 27 && 0 <= p < 27
      requires allowedMoves == SortList(s.allowed + [p])
      requires board[..] == s.cells[p := Free(p)]
      ensures Model() == Undone(s, p)
      ensures Consistent(s) && s.cells[p].Mark? ==> Valid()
    {
      if Consistent(s) && s.cells[p].Mark? {
        UndoKeepsConsistent(s, p);
      }
    }

    /** The state `move` leaves: `Moved` of the state before, and valid. */
    lemma AfterMove(s: State, p: int, pl: Player)
      requires Consistent(s) && p in s.allowed && 0 <= p < 27
      requires allowedMoves == SortList(RemoveFirst(s.allowed, p))
      requires board[..] == s.cells[p := Mark(pl)]
      ensures Model() == Moved(s, p, pl) && Valid()
    {
      MoveKeepsConsistent(s, p, pl);
    }
  }
}

/**
 * The rules of 3D (3x3x3) tic-tac-toe as `Board` in ttt.py implements them,
 * stated as functions on values: the 27 cells, the list of allowed moves, the
 * table of 49 winning combinations, and the queries `winner`, `winning_combo`,
 * `complete` and `check_available`. The class `GameBoard.Board` runs the same
 * rules in place and is proved equal to these functions.
 *
 * The queries take the table of combinations as a parameter `combos`, as the
 * source reads it from the class attribute `winning_combos`; every board is
 * created with `combos == Combos`.
 */
module Rules {
  import opened Wrappers
  import opened PyList

  /** `PLAYER_1` is 'X' and `PLAYER_2` is 'O'. */
  datatype Player = X | O

  /** The `players` tuple, in the order every scan visits them. */
  const Players: seq<Player> := [X, O]

  /**
   * A cell of the board. An empty cell holds a number (the source writes the
   * cell's own index there, which `Consistent` demands); an occupied cell holds
   * a player's mark.
   */
  datatype Cell = Free(num: int) | Mark(player: Player)

  function Occupant(c: Cell): Option<Player> {
    if c.Free? then None else Some(c.player)
  }

  /** `AIPlayer.enemy`: the other player. */
  function Enemy(p: Player): (e: Player)
    ensures e != p
  {
    if p == X then O else X
  }

  /** A cell index; cell (i, x, y) of the nested board is index 9i + 3x + y. */
  type Pos = k: int | 0 <= k < 27

  /** A winning combination: three cell indices. */
  type Line = s: seq<Pos> | |s| == 3 witness [0, 0, 0]

  function L(a: Pos, b: Pos, c: Pos): Line {
    [a, b, c]
  }

  /** `Board.winning_combos`, in the source's order. */
  const Combos: seq<Line> := [
    L(0, 1, 2), L(3, 4, 5), L(6, 7, 8), L(9, 10, 11), L(12, 13, 14),
    L(15, 16, 17), L(18, 19, 20), L(21, 22, 23), L(24, 25, 26),

    L(0, 3, 6), L(1, 4, 7), L(2, 5, 8), L(9, 12, 15), L(10, 13, 16),
    L(11, 14, 17), L(18, 21, 24), L(19, 22, 25), L(20, 23, 26),

    L(0, 4, 8), L(2, 4, 6), L(9, 13, 17), L(11, 13, 15), L(18, 22, 26),
    L(20, 22, 24),

    L(0, 9, 18), L(1, 10, 19), L(2, 11, 20), L(3, 12, 21), L(4, 13, 22),
    L(5, 14, 23), L(6, 15, 24), L(7, 16, 25), L(8, 17, 26),

    L(0, 12, 24), L(1, 13, 25), L(2, 14, 26), L(6, 12, 18), L(7, 13, 19),
    L(8, 14, 20), L(0, 10, 20), L(3, 13, 23), L(6, 16, 26), L(2, 10, 18),
    L(5, 13, 21), L(8, 16, 24), L(0, 13, 26), L(2, 13, 24), L(6, 13, 20),
    L(8, 13, 18)
  ]

  /** The whole game state: the 27 cells, flattened, and `allowed_moves`. */
  datatype State = State(cells: seq<Cell>, allowed: seq<int>)

  /** The cells of the initial board: cell k holds k. */
  function InitialCells(): (c: seq<Cell>)
    ensures |c| == 27 && forall k | 0 <= k < 27 :: c[k] == Free(k)
  {
    seq(27, k => Free(k))
  }

  /** The initial `allowed_moves`, `list(range(27))`. */
  function InitialAllowed(): (m: seq<int>)
    ensures |m| == 27 && forall k | 0 <= k < 27 :: m[k] == k
  {
    seq(27, k => k)
  }

  /** The indices below `n` whose cell is occupied by `who` (None: empty), ascending. */
  function Positions(cells: seq<Cell>, n: nat, who: Option<Player>): (r: seq<int>)
    requires n <= |cells|
    ensures |r| <= n
  {
    if n == 0 then []
    else Positions(cells, n - 1, who) + (if Occupant(cells[n - 1]) == who then [n - 1] else [])
  }

  /** `Positions` holds exactly the indices below `n` whose cell is occupied by `who`. */
  lemma {:induction false} PositionsMembers(cells: seq<Cell>, n: nat, who: Option<Player>)
    requires n <= |cells|
    ensures forall k :: k in Positions(cells, n, who) <==> 0 <= k < n && Occupant(cells[k]) == who
  {
    if n > 0 {
      PositionsMembers(cells, n - 1, who);
    }
  }

  /** `Positions` lists its indices in strictly ascending order. */
  lemma {:induction false} PositionsAscending(cells: seq<Cell>, n: nat, who: Option<Player>)
    requires n <= |cells|
    ensures Increasing(Positions(cells, n, who))
  {
    if n > 0 {
      PositionsAscending(cells, n - 1, who);
      PositionsMembers(cells, n - 1, who);
      var prev := Positions(cells, n - 1, who);
      var r := Positions(cells, n, who);
      assert r == prev + (if Occupant(cells[n - 1]) == who then [n - 1] else []);
      forall i, j | 0 <= i < j < |r| ensures r[i] < r[j] {
        if j >= |prev| {
          assert prev[i] in prev;
        }
      }
    }
  }

  /** `get_moves(player)`: the cells `p` occupies, in index order. */
  function Moves(cells: seq<Cell>, p: Player): (r: seq<int>)
    ensures Increasing(r)
  {
    PositionsAscending(cells, |cells|, Some(p));
    Positions(cells, |cells|, Some(p))
  }

  /** `get_moves(p)` lists exactly the cells holding `p`'s mark. */
  lemma MovesMembers(cells: seq<Cell>, p: Player)
    ensures forall k :: k in Moves(cells, p) <==> 0 <= k < |cells| && cells[k] == Mark(p)
  {
    PositionsMembers(cells, |cells|, Some(p));
  }

  /** The empty cells, in index order: what `allowed_moves` should always be. */
  function FreeIndices(cells: seq<Cell>): seq<int> {
    Positions(cells, |cells|, None)
  }

  /** 27 cells, and every allowed move names one of them: what `move` needs to be defined. */
  predicate Playable(s: State) {
    |s.cells| == 27 && forall k | 0 <= k < |s.allowed| :: 0 <= s.allowed[k] < 27
  }

  /**
   * The invariant the game keeps: 27 cells, every empty cell labelled with its
   * own index, and `allowed_moves` exactly the empty cells in ascending order.
   */
  ghost predicate Consistent(s: State) {
    Playable(s) &&
    (forall k | 0 <= k < 27 :: s.cells[k].Free? ==> s.cells[k].num == k) &&
    s.allowed == FreeIndices(s.cells)
  }

  /**
   * `move(p, pl)` once `list.remove(p)` has succeeded: `p` leaves the allowed
   * list, which is sorted again, and cell `p` takes the mark.
   */
  function Moved(s: State, p: int, pl: Player): (r: State)
    requires 0 <= p < |s.cells| && p in s.allowed
    ensures |r.cells| == |s.cells| && r.cells[p] == Mark(pl)
    ensures |r.allowed| == |s.allowed| - 1
  {
    State(s.cells[p := Mark(pl)], SortList(RemoveFirst(s.allowed, p)))
  }

  /**
   * `undo_move(p)`: `p` is appended to the allowed list, which is sorted again,
   * and cell `p` gets its index back.
   */
  function Undone(s: State, p: int): (r: State)
    requires 0 <= p < |s.cells|
    ensures |r.cells| == |s.cells| && r.cells[p] == Free(p)
    ensures |r.allowed| == |s.allowed| + 1
  {
    State(s.cells[p := Free(p)], SortList(s.allowed + [p]))
  }

  /** After `move`, the allowed list is sorted and has lost one `p`; only cell `p` changed, to the mark. */
  lemma MovedFacts(s: State, p: int, pl: Player)
    requires 0 <= p < |s.cells| && p in s.allowed
    ensures IsSorted(Moved(s, p, pl).allowed)
    ensures multiset(Moved(s, p, pl).allowed) == multiset(s.allowed) - multiset{p}
    ensures |Moved(s, p, pl).cells| == |s.cells| && Moved(s, p, pl).cells[p] == Mark(pl)
    ensures forall k | 0 <= k < |s.cells| && k != p :: Moved(s, p, pl).cells[k] == s.cells[k]
  {
    RemoveFirstFacts(s.allowed, p);
    SortListFacts(RemoveFirst(s.allowed, p));
  }

  /** After `undo_move`, the allowed list is sorted and has gained one `p`; only cell `p` changed, to its index. */
  lemma UndoneFacts(s: State, p: int)
    requires 0 <= p < |s.cells|
    ensures IsSorted(Undone(s, p).allowed)
    ensures multiset(Undone(s, p).allowed) == multiset(s.allowed) + multiset{p}
    ensures |Undone(s, p).cells| == |s.cells| && Undone(s, p).cells[p] == Free(p)
    ensures forall k | 0 <= k < |s.cells| && k != p :: Undone(s, p).cells[k] == s.cells[k]
  {
    SortListFacts(s.allowed + [p]);
  }

  /**
   * On a sorted allowed list, the `sort()` that `move` runs after
   * `list.remove` changes nothing: the list is just the old one without `p`.
   */
  lemma MovedSortIsIdle(s: State, p: int, pl: Player)
    requires 0 <= p < |s.cells| && p in s.allowed && IsSorted(s.allowed)
    ensures Moved(s, p, pl).allowed == RemoveFirst(s.allowed, p)
  {
    RemoveFirstSorted(s.allowed, p);
    SortListOfSorted(RemoveFirst(s.allowed, p));
  }

  /** Every cell of `line` is in `positions`. */
  predicate Owns(positions: seq<int>, line: Line) {
    forall j | 0 <= j < 3 :: line[j] in positions
  }

  /** Some combination of `combos` lies inside `positions`. */
  predicate HasLine(combos: seq<Line>, positions: seq<int>) {
    exists c | 0 <= c < |combos| :: Owns(positions, combos[c])
  }

  /** `winner`: X if X's moves hold a whole combination, else O under the same test, else None. */
  function Winner(combos: seq<Line>, cells: seq<Cell>): (r: Option<Player>)
    ensures r.Some? ==> exists c | 0 <= c < |combos| :: forall j | 0 <= j < 3 ::
              combos[c][j] < |cells| && cells[combos[c][j]] == Mark(r.value)
  {
    MovesMembers(cells, X);
    MovesMembers(cells, O);
    if HasLine(combos, Moves(cells, X)) then Some(X)
    else if HasLine(combos, Moves(cells, O)) then Some(O)
    else None
  }

  /** The index of the first combination, from `c` on, lying inside `positions`. */
  function FirstOwned(combos: seq<Line>, positions: seq<int>, c: nat): (r: Option<nat>)
    requires c <= |combos|
    ensures r.None? ==> forall d | c <= d < |combos| :: !Owns(positions, combos[d])
    ensures r.Some? ==> c <= r.value < |combos| && Owns(positions, combos[r.value])
    ensures r.Some? ==> forall d | c <= d < r.value :: !Owns(positions, combos[d])
    decreases |combos| - c
  {
    if c == |combos| then None
    else if Owns(positions, combos[c]) then Some(c)
    else FirstOwned(combos, positions, c + 1)
  }

  /** `winning_combo`: the first combination the winner holds, or None without a winner. */
  function WinningLine(combos: seq<Line>, cells: seq<Cell>): (r: Option<Line>)
    ensures r.Some? ==> Winner(combos, cells).Some? && r.value in combos
    ensures r.Some? ==> forall j | 0 <= j < 3 ::
              r.value[j] < |cells| && cells[r.value[j]] == Mark(Winner(combos, cells).value)
  {
    match Winner(combos, cells)
    case None => None
    case Some(p) =>
      MovesMembers(cells, p);
      match FirstOwned(combos, Moves(cells, p), 0)
      case None => None
      case Some(d) => Some(combos[d])
  }

  /** Every cell of `line` is still allowed or already `p`'s: `p` could still complete it. */
  predicate ComboAvailable(s: State, p: Player, line: Line) {
    forall j | 0 <= j < 3 :: line[j] in s.allowed + Moves(s.cells, p)
  }

  predicate AnyAvailable(combos: seq<Line>, s: State, p: Player) {
    exists c | 0 <= c < |combos| :: ComboAvailable(s, p, combos[c])
  }

  /**
   * `complete`: the scan returns `winner is not None` at the first combination
   * either player could still complete, and True when there is none.
   */
  predicate Complete(combos: seq<Line>, s: State)
    ensures Winner(combos, s.cells).Some? ==> Complete(combos, s)
  {
    if AnyAvailable(combos, s, X) || AnyAvailable(combos, s, O) then Winner(combos, s.cells).Some?
    else true
  }

  /** The test `check_available` applies to each cell of a combination. */
  predicate StillOpen(cells: seq<Cell>, p: Player, e: Player, line: Line)
    requires |cells| == 27
  {
    forall j | 0 <= j < 3 :: cells[line[j]] == Mark(p) || cells[line[j]] != Mark(e)
  }

  /** `check_available(p, e)` over the first `n` combinations. */
  function CountAvailable(combos: seq<Line>, cells: seq<Cell>, p: Player, e: Player, n: nat): (r: nat)
    requires |cells| == 27 && n <= |combos|
    ensures r <= n
  {
    if n == 0 then 0
    else
      CountAvailable(combos, cells, p, e, n - 1) +
      (if StillOpen(cells, p, e, combos[n - 1]) then 1 else 0)
  }

  /** `simple_heuristic` for the player `ai`. */
  function Heuristic(combos: seq<Line>, cells: seq<Cell>, ai: Player): (h: int)
    requires |cells| == 27
    ensures -|combos| <= h <= |combos|
  {
    CountAvailable(combos, cells, ai, Enemy(ai), |combos|) -
    CountAvailable(combos, cells, Enemy(ai), ai, |combos|)
  }

  // ---------------------------------------------------------------------------
  // The allowed list and the cells: initial state, move, undo.
  // ---------------------------------------------------------------------------

  /** Each index occurs at most once in `Positions`, exactly when its cell matches. */
  lemma PositionsCount(cells: seq<Cell>, n: nat, who: Option<Player>, k: int)
    requires n <= |cells|
    ensures multiset(Positions(cells, n, who))[k] ==
            if 0 <= k < n && Occupant(cells[k]) == who then 1 else 0
  {
    PositionsMembers(cells, n, who);
    PositionsAscending(cells, n, who);
    IncreasingCount(Positions(cells, n, who), k);
  }

  lemma {:induction false} AllFreePositions(n: nat)
    requires n <= 27
    ensures Positions(InitialCells(), n, None) == seq(n, k => k)
  {
    if n > 0 {
      AllFreePositions(n - 1);
    }
  }

  /** `__init__` starts from a consistent state: all 27 cells empty and allowed. */
  lemma InitialConsistent()
    ensures Consistent(State(InitialCells(), InitialAllowed()))
  {
    var c := InitialCells();
    var m := InitialAllowed();
    assert forall k | 0 <= k < 27 :: c[k].Free? ==> c[k].num == k;
    assert FreeIndices(c) == m by {
      AllFreePositions(|c|);
    }
  }

  /** Each index occurs in the free-cell list once if its cell is empty, otherwise never. */
  lemma FreeCount(cells: seq<Cell>, k: int)
    ensures multiset(FreeIndices(cells))[k] == if 0 <= k < |cells| && cells[k].Free? then 1 else 0
  {
    PositionsCount(cells, |cells|, None, k);
  }

  /** The ascending list whose elements, counted, are those of the free cells is the free-cell list. */
  lemma FreeIndicesFromCount(cells: seq<Cell>, t: seq<int>)
    requires IsSorted(t)
    requires forall k :: multiset(t)[k] == if 0 <= k < |cells| && cells[k].Free? then 1 else 0
    ensures t == FreeIndices(cells)
  {
    var f := FreeIndices(cells);
    forall k ensures multiset(t)[k] == multiset(f)[k] {
      FreeCount(cells, k);
    }
    assert multiset(t) == multiset(f);
    PositionsAscending(cells, |cells|, None);
    assert IsSorted(f);
    SortedUnique(t, f);
  }

  /** After `move`, each index occurs in the allowed list once if its cell is empty, otherwise never. */
  lemma MovedCounts(s: State, p: int, pl: Player)
    requires Consistent(s) && p in s.allowed && 0 <= p < 27
    ensures forall k :: multiset(Moved(s, p, pl).allowed)[k] == if 0 <= k < |Moved(s, p, pl).cells| && Moved(s, p, pl).cells[k].Free? then 1 else 0
  {
    forall k ensures multiset(Moved(s, p, pl).allowed)[k] == if 0 <= k < |Moved(s, p, pl).cells| && Moved(s, p, pl).cells[k].Free? then 1 else 0 {
      MovedCount(s, p, pl, k);
    }
  }

  lemma MovedCount(s: State, p: int, pl: Player, k: int)
    requires Consistent(s) && p in s.allowed && 0 <= p < 27
    ensures multiset(Moved(s, p, pl).allowed)[k] == if 0 <= k < |Moved(s, p, pl).cells| && Moved(s, p, pl).cells[k].Free? then 1 else 0
  {
    MovedFacts(s, p, pl);
    FreeCount(s.cells, k);
  }

  /** After `undo_move`, each index occurs in the allowed list once if its cell is empty, otherwise never. */
  lemma UndoneCounts(s: State, p: int)
    requires Consistent(s) && 0 <= p < 27 && s.cells[p].Mark?
    ensures forall k :: multiset(Undone(s, p).allowed)[k] == if 0 <= k < |Undone(s, p).cells| && Undone(s, p).cells[k].Free? then 1 else 0
  {
    forall k ensures multiset(Undone(s, p).allowed)[k] == if 0 <= k < |Undone(s, p).cells| && Undone(s, p).cells[k].Free? then 1 else 0 {
      UndoneCount(s, p, k);
    }
  }

  lemma UndoneCount(s: State, p: int, k: int)
    requires Consistent(s) && 0 <= p < 27 && s.cells[p].Mark?
    ensures multiset(Undone(s, p).allowed)[k] == if 0 <= k < |Undone(s, p).cells| && Undone(s, p).cells[k].Free? then 1 else 0
  {
    UndoneFacts(s, p);
    FreeCount(s.cells, k);
  }

  /** On a consistent board an allowed move names an empty cell. */
  lemma AllowedIsFree(s: State, p: int)
    requires Consistent(s) && p in s.allowed
    ensures 0 <= p < 27 && s.cells[p] == Free(p)
  {
    PositionsMembers(s.cells, 27, None);
  }

  /** `move` on an allowed cell keeps the invariant. */
  lemma MoveKeepsConsistent(s: State, p: int, pl: Player)
    requires Consistent(s) && p in s.allowed
    ensures 0 <= p < 27
    ensures Consistent(Moved(s, p, pl))
  {
    PositionsMembers(s.cells, 27, None);
    MovedFacts(s, p, pl);
    MovedAllowed(s, p, pl);
    MovedPlayable(s, p, pl);
  }

  /** `move` on an allowed cell keeps every allowed move on the board. */
  lemma MovedPlayable(s: State, p: int, pl: Player)
    requires Playable(s) && p in s.allowed
    ensures 0 <= p < |s.cells|
    ensures Playable(Moved(s, p, pl))
  {
    var r := Moved(s, p, pl);
    MovedFacts(s, p, pl);
    forall k | 0 <= k < |r.allowed| ensures 0 <= r.allowed[k] < 27 {
      assert r.allowed[k] in multiset(r.allowed);
    }
  }

  lemma MovedAllowed(s: State, p: int, pl: Player)
    requires Consistent(s) && p in s.allowed && 0 <= p < 27
    ensures Moved(s, p, pl).allowed == FreeIndices(Moved(s, p, pl).cells)
  {
    var r := Moved(s, p, pl);
    MovedFacts(s, p, pl);
    MovedCounts(s, p, pl);
    FreeIndicesFromCount(r.cells, r.allowed);
  }

  /** `undo_move` on an occupied cell keeps the invariant. */
  lemma UndoKeepsConsistent(s: State, p: int)
    requires Consistent(s) && 0 <= p < 27 && s.cells[p].Mark?
    ensures Consistent(Undone(s, p))
  {
    UndoneFacts(s, p);
    UndoneAllowed(s, p);
    UndonePlayable(s, p);
  }

  lemma UndonePlayable(s: State, p: int)
    requires Playable(s) && 0 <= p < 27
    ensures Playable(Undone(s, p))
  {
    var r := Undone(s, p);
    UndoneFacts(s, p);
    forall k | 0 <= k < |r.allowed| ensures 0 <= r.allowed[k] < 27 {
      assert r.allowed[k] in multiset(r.allowed);
    }
  }

  lemma UndoneAllowed(s: State, p: int)
    requires Consistent(s) && 0 <= p < 27 && s.cells[p].Mark?
    ensures Undone(s, p).allowed == FreeIndices(Undone(s, p).cells)
  {
    var r := Undone(s, p);
    UndoneFacts(s, p);
    UndoneCounts(s, p);
    FreeIndicesFromCount(r.cells, r.allowed);
  }

  /**
   * `undo_move(p)` after `move(p, pl)` restores the cells and the allowed list,
   * whenever the list was sorted, held `p`, and cell `p` held its index.
   */
  lemma UndoMoveRoundTrip(s: State, p: int, pl: Player)
    requires 0 <= p < |s.cells| && p in s.allowed
    requires IsSorted(s.allowed) && s.cells[p] == Free(p)
    ensures Undone(Moved(s, p, pl), p) == s
  {
    UndoMoveRestoresAllowed(s, p, pl);
    assert s.cells[p := Mark(pl)][p := Free(p)] == s.cells;
  }

  lemma UndoMoveRestoresAllowed(s: State, p: int, pl: Player)
    requires 0 <= p < |s.cells| && p in s.allowed && IsSorted(s.allowed)
    ensures Undone(Moved(s, p, pl), p).allowed == s.allowed
  {
    var m := Moved(s, p, pl);
    var r := Undone(m, p);
    MovedFacts(s, p, pl);
    UndoneFacts(m, p);
    assert multiset(m.allowed) == multiset(s.allowed) - multiset{p};
    assert multiset(r.allowed) == multiset(m.allowed) + multiset{p};
    assert p in multiset(s.allowed);
    assert multiset(r.allowed) == multiset(s.allowed);
    SortedUnique(r.allowed, s.allowed);
  }

  /** On a consistent board, `undo_move(p)` after `move(p, pl)` of an allowed `p` restores the state. */
  lemma MoveThenUndo(s: State, p: int, pl: Player)
    requires Consistent(s) && p in s.allowed
    ensures 0 <= p < |s.cells|
    ensures Undone(Moved(s, p, pl), p) == s
  {
    AllowedIsFree(s, p);
    PositionsAscending(s.cells, 27, None);
    UndoMoveRoundTrip(s, p, pl);
  }

  // ---------------------------------------------------------------------------
  // The queries, restated on the cells.
  // ---------------------------------------------------------------------------

  /** All three cells of `line` hold `p`'s mark. */
  predicate Filled(cells: seq<Cell>, line: Line, p: Player)
    requires |cells| == 27
  {
    forall j | 0 <= j < 3 :: cells[line[j]] == Mark(p)
  }

  /** Some combination is wholly `p`'s. */
  predicate Wins(combos: seq<Line>, cells: seq<Cell>, p: Player)
    requires |cells| == 27
  {
    exists c | 0 <= c < |combos| :: Filled(cells, combos[c], p)
  }

  lemma OwnsIffFilled(cells: seq<Cell>, line: Line, p: Player)
    requires |cells| == 27
    ensures Owns(Moves(cells, p), line) <==> Filled(cells, line, p)
  {
    PositionsMembers(cells, 27, Some(p));
  }

  /** `winner` reads the marks on the board, X before O. */
  lemma WinnerIff(combos: seq<Line>, cells: seq<Cell>)
    requires |cells| == 27
    ensures Winner(combos, cells) == Some(X) <==> Wins(combos, cells, X)
    ensures Winner(combos, cells) == Some(O) <==> !Wins(combos, cells, X) && Wins(combos, cells, O)
    ensures Winner(combos, cells) == None <==> !Wins(combos, cells, X) && !Wins(combos, cells, O)
  {
    forall c, p | 0 <= c < |combos| ensures Owns(Moves(cells, p), combos[c]) <==> Filled(cells, combos[c], p) {
      OwnsIffFilled(cells, combos[c], p);
    }
  }

  /** With a winner, `winning_combo` is the first combination the winner fills. */
  lemma WinningLineIsFirstFilled(combos: seq<Line>, cells: seq<Cell>, p: Player)
    requires |cells| == 27 && Winner(combos, cells) == Some(p)
    ensures WinningLine(combos, cells).Some?
    ensures exists d | 0 <= d < |combos| :: WinningLine(combos, cells) == Some(combos[d]) &&
              Filled(cells, combos[d], p) && forall e | 0 <= e < d :: !Filled(cells, combos[e], p)
  {
    var r := FirstOwned(combos, Moves(cells, p), 0);
    assert HasLine(combos, Moves(cells, p));
    var d := r.value;
    OwnsIffFilled(cells, combos[d], p);
    forall e | 0 <= e < d ensures !Filled(cells, combos[e], p) {
      OwnsIffFilled(cells, combos[e], p);
    }
  }

  /** Without a winner, `winning_combo` is None. */
  lemma NoWinnerNoLine(combos: seq<Line>, cells: seq<Cell>)
    requires Winner(combos, cells).None?
    ensures WinningLine(combos, cells).None?
  {
  }

  /**
   * `complete` holds exactly when there is a winner, or neither player has a
   * combination left whose cells are all allowed or already theirs.
   */
  lemma CompleteIff(combos: seq<Line>, s: State)
    ensures Complete(combos, s) <==>
              Winner(combos, s.cells).Some? ||
              (!AnyAvailable(combos, s, X) && !AnyAvailable(combos, s, O))
  {
    match Winner(combos, s.cells)
    case None =>
    case Some(p) =>
      var c :| 0 <= c < |combos| && Owns(Moves(s.cells, p), combos[c]);
      assert ComboAvailable(s, p, combos[c]);
  }

  /** On a consistent board, `p` can still complete `line` iff the enemy has no mark on it. */
  lemma ComboAvailableIff(s: State, p: Player, line: Line)
    requires Consistent(s)
    ensures ComboAvailable(s, p, line) <==> forall j | 0 <= j < 3 :: s.cells[line[j]] != Mark(Enemy(p))
  {
    PositionsMembers(s.cells, 27, None);
    PositionsMembers(s.cells, 27, Some(p));
  }

  /** Both players have a mark on `line`. */
  predicate Contested(cells: seq<Cell>, line: Line)
    requires |cells| == 27
  {
    (exists j | 0 <= j < 3 :: cells[line[j]] == Mark(X)) &&
    (exists j | 0 <= j < 3 :: cells[line[j]] == Mark(O))
  }

  /**
   * The stalemate rule on the marks: a consistent game is complete iff there
   * is a winner or every combination holds both an X and an O.
   */
  lemma CompleteIffContested(combos: seq<Line>, s: State)
    requires Consistent(s)
    ensures Complete(combos, s) <==>
              Winner(combos, s.cells).Some? || forall c | 0 <= c < |combos| :: Contested(s.cells, combos[c])
  {
    CompleteIff(combos, s);
    forall c | 0 <= c < |combos|
      ensures Contested(s.cells, combos[c]) <==>
                !ComboAvailable(s, X, combos[c]) && !ComboAvailable(s, O, combos[c])
    {
      ComboAvailableIff(s, X, combos[c]);
      ComboAvailableIff(s, O, combos[c]);
    }
  }

  /** The number of the first `n` combinations `p` can still complete. */
  function Winnable(combos: seq<Line>, s: State, p: Player, n: nat): nat
    requires n <= |combos|
  {
    if n == 0 then 0
    else Winnable(combos, s, p, n - 1) + (if ComboAvailable(s, p, combos[n - 1]) then 1 else 0)
  }

  /**
   * On a consistent board `check_available(p, enemy)` counts exactly the
   * combinations `p` can still complete, the ones `complete` looks for.
   */
  lemma {:induction false} CountAvailableIsWinnable(combos: seq<Line>, s: State, p: Player, n: nat)
    requires Consistent(s) && n <= |combos|
    ensures CountAvailable(combos, s.cells, p, Enemy(p), n) == Winnable(combos, s, p, n)
  {
    if n > 0 {
      CountAvailableIsWinnable(combos, s, p, n - 1);
      ComboAvailableIff(s, p, combos[n - 1]);
    }
  }

  /** The table has 49 combinations. */
  lemma CombosCount()
    ensures |Combos| == 49
  {
  }

}

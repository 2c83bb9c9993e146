/**
 * `AIPlayer` from ttt.py: a player that searches the shared `Board` in place,
 * playing a move, looking ahead and undoing the move again. Each method is
 * proved to compute the function of module `Search` that states it, and to
 * leave the board as it found it.
 */
module AIPlayers {
  import opened Wrappers
  import opened Rules
  import opened Search
  import opened GameBoard

  class AIPlayer {
    /** `self.board`, shared with the other player. */
    const board: Board
    /** `self.piece`. */
    const piece: Player
    /** `self.difficulty`, the ply. */
    const difficulty: int
    /** `self.depth_count`. */
    var depthCount: int

    /** `__init__(board, piece, ply=3)`. */
    constructor(board: Board, piece: Player, ply: int := 3)
      ensures this.board == board && this.piece == piece
      ensures difficulty == ply && depthCount == 0
    {
      this.board := board;
      this.piece := piece;
      difficulty := ply;
      depthCount := 0;
    }

    /** The parameters the search of this player runs with. */
    function Params(): Config {
      Config(board.winningCombos, piece, difficulty)
    }

    /**
     * `simple_heuristic`: the combinations still open to this player minus
     * those still open to the enemy.
     */
    method SimpleHeuristic() returns (h: int)
      requires board.board.Length == 27
      ensures h == Heuristic(board.winningCombos, board.board[..], piece)
      ensures -|board.winningCombos| <= h <= |board.winningCombos|
    {
      var mine := board.CheckAvailable(piece, Enemy(piece));
      var theirs := board.CheckAvailable(Enemy(piece), piece);
      h := mine - theirs;
    }

    /**
     * `think_ahead(player, a, b)`: minimax with alpha-beta pruning, run on the
     * board itself. Every move it plays is undone before it returns, and its
     * value and the final `depth_count` are those of `Minimax`.
     */
    method ThinkAhead(player: Player, a: int, b: int) returns (score: int)
      requires board.Valid()
      modifies this, board, board.board
      ensures board.Valid() && board.Model() == old(board.Model())
      ensures Outcome(score, depthCount) == Minimax(Params(), old(board.Model()), player, old(depthCount), a, b)
      decreases Budget(difficulty, depthCount), 0
    {
      if depthCount >= difficulty {
        score := SimpleHeuristic();
      } else {
        depthCount := depthCount + 1;
        if player == piece {
          score := Maximise(a, b);
        } else {
          score := Minimise(a, b);
        }
      }
    }

    /**
     * The loop of `think_ahead` when `player` is the AI's own piece: a move
     * that completes the game returns 1000; otherwise alpha rises to the
     * enemy's best reply above it, and the loop stops once alpha reaches beta.
     */
    method Maximise(a: int, b: int) returns (alpha: int)
      requires board.Valid()
      modifies this, board, board.board
      ensures board.Valid() && board.Model() == old(board.Model())
      ensures Outcome(alpha, depthCount) == MaxScan(Params(), old(board.Model()), old(depthCount), a, b, 0)
      decreases Budget(difficulty, depthCount), 2
    {
      ghost var s := board.Model();
      ghost var g := Params();
      ghost var dc0 := depthCount;
      alpha := a;
      var i := 0;
      while i < |board.allowedMoves|
        invariant board.Valid() && board.Model() == s && i <= |s.allowed|
        invariant depthCount >= dc0
        invariant MaxScan(g, s, depthCount, alpha, b, i) == MaxScan(g, s, dc0, a, b, 0)
        decreases |s.allowed| - i
      {
        var move := board.allowedMoves[i];
        ghost var dc := depthCount;
        var done, h := Explore(move, piece, alpha, b);
        if done {
          MaxScanFinish(g, s, dc, alpha, b, i);
          return 1000;
        }
        MaxScanStep(g, s, dc, alpha, b, i, Outcome(h, depthCount));
        if h > alpha {
          alpha := h;
        }
        if alpha >= b {
          return;
        }
        i := i + 1;
      }
    }

    /**
     * The loop of `think_ahead` when `player` is the enemy: a move that
     * completes the game returns -1000; otherwise beta falls to the AI's best
     * reply below it, and the loop stops once alpha reaches beta.
     */
    method Minimise(a: int, b: int) returns (beta: int)
      requires board.Valid()
      modifies this, board, board.board
      ensures board.Valid() && board.Model() == old(board.Model())
      ensures Outcome(beta, depthCount) == MinScan(Params(), old(board.Model()), old(depthCount), a, b, 0)
      decreases Budget(difficulty, depthCount), 2
    {
      ghost var s := board.Model();
      ghost var g := Params();
      ghost var dc0 := depthCount;
      beta := b;
      var i := 0;
      while i < |board.allowedMoves|
        invariant board.Valid() && board.Model() == s && i <= |s.allowed|
        invariant depthCount >= dc0
        invariant MinScan(g, s, depthCount, a, beta, i) == MinScan(g, s, dc0, a, b, 0)
        decreases |s.allowed| - i
      {
        var move := board.allowedMoves[i];
        ghost var dc := depthCount;
        var done, h := Explore(move, Enemy(piece), a, beta);
        if done {
          MinScanFinish(g, s, dc, a, beta, i);
          return -1000;
        }
        MinScanStep(g, s, dc, a, beta, i, Outcome(h, depthCount));
        if h < beta {
          beta := h;
        }
        if a >= beta {
          return;
        }
        i := i + 1;
      }
    }

    /**
     * One pass of either loop of `think_ahead`: `mover` plays `move`; when
     * that completes the game the move is undone at once, and otherwise
     * `think_ahead` runs for the other player before the move is undone.
     */
    method Explore(move: int, mover: Player, a: int, b: int) returns (done: bool, h: int)
      requires board.Valid() && move in board.allowedMoves
      modifies this, board, board.board
      ensures board.Valid() && board.Model() == old(board.Model())
      ensures 0 <= move < 27 && Playable(Moved(old(board.Model()), move, mover))
      ensures done == Complete(board.winningCombos, Moved(old(board.Model()), move, mover))
      ensures done ==> depthCount == old(depthCount)
      ensures !done ==>
        Outcome(h, depthCount) == Minimax(Params(), Moved(old(board.Model()), move, mover), Enemy(mover), old(depthCount), a, b)
      decreases Budget(difficulty, depthCount), 1
    {
      ghost var s := board.Model();
      ghost var dc := depthCount;
      MovedPlayable(s, move, mover);
      var _ := board.Move(move, mover);
      assert depthCount == dc;
      done := board.Complete();
      if done {
        board.UndoMove(move);
        assert depthCount == dc;
        MoveThenUndo(s, move, mover);
        return done, 0;
      }
      h := ThinkAhead(Enemy(mover), a, b);
      ghost var r := Outcome(h, depthCount);
      board.UndoMove(move);
      assert depthCount == r.depthCount;
      MoveThenUndo(s, move, mover);
    }

    /**
     * `do_turn`: every allowed move is tried in turn. A move that completes
     * the game stays on the board and ends the loop. Otherwise the move is
     * scored by `think_ahead(enemy, -1000, 1000)`, `depth_count` is reset, and
     * the move becomes the best on `h >= best_score`; then, if the enemy would
     * win by playing it, it becomes the best with score 1001. After the loop
     * the best move is played; `ok` is false when there is none, where
     * `move(None, piece)` raises ValueError and the board is left alone.
     */
    method DoTurn() returns (ok: bool)
      requires board.Valid()
      modifies this, board, board.board
      ensures board.Valid()
      ensures depthCount == Search.DoTurn(Params(), old(board.Model()), old(depthCount)).depthCount
      ensures ok <==> Played(Search.DoTurn(Params(), old(board.Model()), old(depthCount))).Some?
      ensures !ok ==> board.Model() == old(board.Model())
      ensures ok ==>
        var m := Played(Search.DoTurn(Params(), old(board.Model()), old(depthCount))).value;
        m in old(board.allowedMoves) && 0 <= m < 27 && board.Model() == Moved(old(board.Model()), m, piece)
      ensures old(board.allowedMoves) != [] && |board.winningCombos| <= 1000 ==> ok
    {
      if board.allowedMoves != [] && |board.winningCombos| <= 1000 {
        DoTurnPlays(Params(), board.Model(), depthCount);
      }
      ghost var ts := Trials(Params(), board.Model(), depthCount);
      var win, best := TurnLoop(ts);
      if win {
        return true;
      }
      if best.move.Some? {
        ok := board.Move(best.move.value, piece);
      } else {
        ok := false;
      }
    }

    /**
     * The loop of `do_turn`: it stops at the first allowed move that
     * completes the game, leaving that move on the board (`win`), and
     * otherwise ends with the board as it was and the best pick found.
     */
    method TurnLoop(ghost ts: seq<Trial>) returns (win: bool, best: Pick)
      requires board.Valid() && ts == Trials(Params(), board.Model(), depthCount)
      modifies this, board, board.board
      ensures board.Valid()
      ensures win == Pass(ts, old(depthCount), 0, NoPick).Won?
      ensures depthCount == Pass(ts, old(depthCount), 0, NoPick).depthCount
      ensures win ==>
        var m := Pass(ts, old(depthCount), 0, NoPick).winning;
        m in old(board.allowedMoves) && 0 <= m < 27 && board.Model() == Moved(old(board.Model()), m, piece)
      ensures !win ==> board.Model() == old(board.Model())
      ensures !win ==> Pass(ts, old(depthCount), 0, NoPick).best == best
      ensures best.move.Some? ==> best.move.value in old(board.allowedMoves)
    {
      ghost var s := board.Model();
      ghost var g := Params();
      ghost var dc0 := depthCount;
      ghost var turn := Pass(ts, dc0, 0, NoPick);
      best := NoPick;
      var i := 0;
      while i < |board.allowedMoves|
        invariant board.Valid() && board.Model() == s && i <= |s.allowed|
        invariant depthCount == if i == 0 then dc0 else 0
        invariant best.move.Some? ==> best.move.value in s.allowed
        invariant Pass(ts, depthCount, i, best) == turn
        decreases |s.allowed| - i
      {
        ghost var dc := depthCount;
        TrialAt(g, s, dc0, i);
        PassStep(ts, dc, i, best);
        var done;
        done, best := Consider(i, best, ts[i]);
        if done {
          MovedPlayable(s, s.allowed[i], piece);
          return true, best;
        }
        i := i + 1;
      }
      assert Pass(ts, depthCount, i, best) == Chose(best, depthCount);
      win := false;
    }

    /**
     * One pass of the loop of `do_turn`, over the `i`-th allowed move, with
     * `best` holding `best_score` and `best_move`. A move that completes the
     * game stays on the board; otherwise `best` is updated as `Weigh` says.
     */
    method Consider(i: nat, best: Pick, ghost t: Trial) returns (done: bool, next: Pick)
      requires board.Valid() && i < |board.allowedMoves|
      requires t == Try(Params(), board.Model(), depthCount, i)
      modifies this, board, board.board
      ensures board.Valid()
      ensures done == t.finishes
      ensures done ==> board.Model() == Moved(old(board.Model()), t.move, piece)
      ensures done ==> depthCount == old(depthCount) && next == best
      ensures !done ==> board.Model() == old(board.Model()) && depthCount == 0
      ensures !done ==> next == Weigh(t, best)
    {
      var move := board.allowedMoves[i];
      next := best;
      var h;
      done, h := Score(move);
      if done {
        return;
      }
      if h >= next.score {
        next := Pick(h, Some(move));
      }
      var threat := EnemyWins(move);
      if threat && 1001 >= next.score {
        next := Pick(1001, Some(move));
      }
    }

    /**
     * The first half of a pass of `do_turn`: the AI plays `move`. A move that
     * completes the game stays on the board; otherwise it is scored by
     * `think_ahead(enemy, -1000, 1000)`, `depth_count` is reset to 0 and the
     * move is undone.
     */
    method Score(move: int) returns (done: bool, h: int)
      requires board.Valid() && move in board.allowedMoves
      modifies this, board, board.board
      ensures board.Valid()
      ensures 0 <= move < 27 && Playable(Moved(old(board.Model()), move, piece))
      ensures done == Complete(board.winningCombos, Moved(old(board.Model()), move, piece))
      ensures done ==> board.Model() == Moved(old(board.Model()), move, piece) && depthCount == old(depthCount)
      ensures !done ==> board.Model() == old(board.Model()) && depthCount == 0
      ensures !done ==>
        h == Minimax(Params(), Moved(old(board.Model()), move, piece), Enemy(piece), old(depthCount), -1000, 1000).score
    {
      ghost var s := board.Model();
      ghost var dc := depthCount;
      MovedPlayable(s, move, piece);
      var _ := board.Move(move, piece);
      assert depthCount == dc;
      done := board.Complete();
      if done {
        return done, 0;
      }
      h := ThinkAhead(Enemy(piece), -1000, 1000);
      depthCount := 0;
      board.UndoMove(move);
      MoveThenUndo(s, move, piece);
    }

    /**
     * The block check of `do_turn`: whether the enemy, playing `move`, would
     * complete the game as its winner. The move is undone again.
     */
    method EnemyWins(move: int) returns (threat: bool)
      requires board.Valid() && move in board.allowedMoves
      modifies board, board.board
      ensures board.Valid() && board.Model() == old(board.Model())
      ensures 0 <= move < 27 && Playable(Moved(old(board.Model()), move, Enemy(piece)))
      ensures threat == (var u := Moved(old(board.Model()), move, Enemy(piece));
        Complete(board.winningCombos, u) && Winner(board.winningCombos, u.cells) == Some(Enemy(piece)))
    {
      ghost var s := board.Model();
      MovedPlayable(s, move, Enemy(piece));
      var _ := board.Move(move, Enemy(piece));
      threat := board.Complete();
      if threat {
        var w := board.Winner();
        threat := w == Some(Enemy(piece));
      }
      board.UndoMove(move);
      MoveThenUndo(s, move, Enemy(piece));
    }
  }
}

/**
 * The search of `AIPlayer` in ttt.py, stated as functions on game states:
 * `think_ahead`, minimax with alpha-beta pruning over the shared board, and
 * the loop of `do_turn` over the candidate moves. The value of the field
 * `depth_count` is threaded through the search as the source keeps it: it
 * grows by one at every call that expands a node and nothing in the search
 * lowers it, so it counts the nodes expanded so far rather than the depth.
 * The class `AIPlayers.AIPlayer` runs the same search in place on a `Board`
 * and is proved equal to these functions.
 */
module Search {
  import opened Wrappers
  import opened Rules

  /** The fixed parameters of one AI player: the combination table, its piece and its ply. */
  datatype Config = Config(combos: seq<Line>, ai: Player, ply: int)

  /** What a call of `think_ahead` returns, and the value of `depth_count` afterwards. */
  datatype Outcome = Outcome(score: int, depthCount: int)

  /** The expansions left before `depth_count` reaches the ply. */
  function Budget(ply: int, dc: int): nat {
    if dc >= ply then 0 else ply - dc
  }

  /** Alpha and beta within -1000..1000, and at most 1000 combinations, the heuristic's range. */
  predicate Bounded(g: Config, a: int, b: int) {
    -1000 <= a <= 1000 && -1000 <= b <= 1000 && |g.combos| <= 1000
  }

  function Max(a: int, b: int): int {
    if a >= b then a else b
  }

  /**
   * `think_ahead(player, a, b)` on state `s` with `depth_count == dc`: the
   * heuristic once the count has reached the ply; otherwise the count goes up
   * by one and the AI's own piece maximises while the enemy minimises.
   */
  function Minimax(g: Config, s: State, player: Player, dc: int, a: int, b: int): (r: Outcome)
    requires Playable(s)
    ensures dc <= r.depthCount <= Max(dc, g.ply)
    ensures Bounded(g, a, b) ==> -1000 <= r.score <= 1000
    decreases Budget(g.ply, dc), 0
  {
    if dc >= g.ply then Outcome(Heuristic(g.combos, s.cells, g.ai), dc)
    else if player == g.ai then MaxScan(g, s, dc + 1, a, b, 0)
    else MinScan(g, s, dc + 1, a, b, 0)
  }

  /**
   * The loop of a maximising `think_ahead` from the `i`-th allowed move on,
   * with alpha `a`: a move that completes the game returns 1000; otherwise
   * alpha rises to a child's value above it, and the loop stops once alpha
   * reaches beta. Every move/undo pair restores `s`, so the moves are read
   * from the allowed list of `s`.
   */
  function MaxScan(g: Config, s: State, dc: int, a: int, b: int, i: nat): (r: Outcome)
    requires Playable(s) && i <= |s.allowed|
    ensures dc <= r.depthCount <= Max(dc, g.ply)
    ensures Bounded(g, a, b) ==> a <= r.score <= 1000
    decreases Budget(g.ply, dc), 1, |s.allowed| - i
  {
    if i == |s.allowed| then Outcome(a, dc)
    else
      var m := s.allowed[i];
      MovedPlayable(s, m, g.ai);
      var t := Moved(s, m, g.ai);
      if Complete(g.combos, t) then Outcome(1000, dc)
      else
        var h := Minimax(g, t, Enemy(g.ai), dc, a, b);
        var a' := if h.score > a then h.score else a;
        if a' >= b then Outcome(a', h.depthCount)
        else MaxScan(g, s, h.depthCount, a', b, i + 1)
  }

  /**
   * The loop of a minimising `think_ahead`, for the enemy: a move that
   * completes the game returns -1000; otherwise beta falls to a child's value
   * below it, and the loop stops once alpha reaches beta.
   */
  function MinScan(g: Config, s: State, dc: int, a: int, b: int, i: nat): (r: Outcome)
    requires Playable(s) && i <= |s.allowed|
    ensures dc <= r.depthCount <= Max(dc, g.ply)
    ensures Bounded(g, a, b) ==> -1000 <= r.score <= b
    decreases Budget(g.ply, dc), 1, |s.allowed| - i
  {
    if i == |s.allowed| then Outcome(b, dc)
    else
      var m := s.allowed[i];
      MovedPlayable(s, m, Enemy(g.ai));
      var t := Moved(s, m, Enemy(g.ai));
      if Complete(g.combos, t) then Outcome(-1000, dc)
      else
        var h := Minimax(g, t, g.ai, dc, a, b);
        var b' := if h.score < b then h.score else b;
        if a >= b' then Outcome(b', h.depthCount)
        else MinScan(g, s, h.depthCount, a, b', i + 1)
  }

  /** One step of `MaxScan` at a move that completes the game. */
  lemma MaxScanFinish(g: Config, s: State, dc: int, a: int, b: int, i: nat)
    requires Playable(s) && i < |s.allowed|
    requires 0 <= s.allowed[i] < |s.cells| && Complete(g.combos, Moved(s, s.allowed[i], g.ai))
    ensures MaxScan(g, s, dc, a, b, i) == Outcome(1000, dc)
  {
  }

  /** One step of `MaxScan` at a move that leaves the game open, whose reply is `h`. */
  lemma MaxScanStep(g: Config, s: State, dc: int, a: int, b: int, i: nat, h: Outcome)
    requires Playable(s) && i < |s.allowed| && 0 <= s.allowed[i] < |s.cells|
    requires Playable(Moved(s, s.allowed[i], g.ai)) && !Complete(g.combos, Moved(s, s.allowed[i], g.ai))
    requires h == Minimax(g, Moved(s, s.allowed[i], g.ai), Enemy(g.ai), dc, a, b)
    ensures MaxScan(g, s, dc, a, b, i) ==
      var a' := if h.score > a then h.score else a;
      if a' >= b then Outcome(a', h.depthCount) else MaxScan(g, s, h.depthCount, a', b, i + 1)
  {
  }

  /** One step of `MinScan` at a move that completes the game. */
  lemma MinScanFinish(g: Config, s: State, dc: int, a: int, b: int, i: nat)
    requires Playable(s) && i < |s.allowed|
    requires 0 <= s.allowed[i] < |s.cells| && Complete(g.combos, Moved(s, s.allowed[i], Enemy(g.ai)))
    ensures MinScan(g, s, dc, a, b, i) == Outcome(-1000, dc)
  {
  }

  /** One step of `MinScan` at a move that leaves the game open, whose reply is `h`. */
  lemma MinScanStep(g: Config, s: State, dc: int, a: int, b: int, i: nat, h: Outcome)
    requires Playable(s) && i < |s.allowed| && 0 <= s.allowed[i] < |s.cells|
    requires Playable(Moved(s, s.allowed[i], Enemy(g.ai))) && !Complete(g.combos, Moved(s, s.allowed[i], Enemy(g.ai)))
    requires h == Minimax(g, Moved(s, s.allowed[i], Enemy(g.ai)), g.ai, dc, a, b)
    ensures MinScan(g, s, dc, a, b, i) ==
      var b' := if h.score < b then h.score else b;
      if a >= b' then Outcome(b', h.depthCount) else MinScan(g, s, h.depthCount, a, b', i + 1)
  {
  }

  // ---------------------------------------------------------------------------
  // do_turn
  // ---------------------------------------------------------------------------

  /** `best_score` and `best_move` of `do_turn`. */
  datatype Pick = Pick(score: int, move: Option<int>)

  /** The values `best_score` and `best_move` start from. */
  const NoPick := Pick(-1000, None)

  /**
   * What one pass of the loop of `do_turn` learns about a candidate move:
   * whether playing it completes the game for the AI, the value of
   * `think_ahead(enemy, -1000, 1000)` after it, and whether the enemy would
   * win by playing it instead.
   */
  datatype Trial = Trial(move: int, finishes: bool, reply: int, threat: bool)

  /**
   * Where the loop of `do_turn` ends: at a move that completes the game for
   * the AI (the loop breaks with that move on the board), or after every move
   * with the best score and move found; with the value of `depth_count`.
   */
  datatype Turn =
    | Won(winning: int, depthCount: int)
    | Chose(best: Pick, depthCount: int)

  /** The move `do_turn` leaves on the board, if it plays one. */
  function Played(t: Turn): Option<int> {
    match t
    case Won(m, _) => Some(m)
    case Chose(p, _) => p.move
  }

  /** Playing the `k`-th allowed move for the AI completes the game, with a win or a tie. */
  predicate Finishes(g: Config, s: State, k: nat)
    requires Playable(s) && k < |s.allowed|
    ensures Winner(g.combos, Moved(s, s.allowed[k], g.ai).cells).Some? ==> Finishes(g, s, k)
  {
    MovedPlayable(s, s.allowed[k], g.ai);
    Complete(g.combos, Moved(s, s.allowed[k], g.ai))
  }

  /** Playing the `k`-th allowed move for the enemy would complete the game with the enemy as winner. */
  predicate Threat(g: Config, s: State, k: nat)
    requires Playable(s) && k < |s.allowed|
    ensures Threat(g, s, k) <==>
      var u := Moved(s, s.allowed[k], Enemy(g.ai));
      Wins(g.combos, u.cells, Enemy(g.ai)) && (Enemy(g.ai) == O ==> !Wins(g.combos, u.cells, X))
  {
    MovedPlayable(s, s.allowed[k], Enemy(g.ai));
    WinnerIff(g.combos, Moved(s, s.allowed[k], Enemy(g.ai)).cells);
    var u := Moved(s, s.allowed[k], Enemy(g.ai));
    Complete(g.combos, u) && Winner(g.combos, u.cells) == Some(Enemy(g.ai))
  }

  /** `think_ahead(enemy, -1000, 1000)` once the AI has played the `k`-th allowed move. */
  function Reply(g: Config, s: State, dc: int, k: nat): (r: Outcome)
    requires Playable(s) && k < |s.allowed|
    ensures |g.combos| <= 1000 ==> -1000 <= r.score <= 1000
  {
    MovedPlayable(s, s.allowed[k], g.ai);
    assert |g.combos| <= 1000 ==> Bounded(g, -1000, 1000);
    Minimax(g, Moved(s, s.allowed[k], g.ai), Enemy(g.ai), dc, -1000, 1000)
  }

  /**
   * The replies `do_turn` computes for the allowed moves of `s`, in order:
   * the first pass starts from `depth_count == dc`, and every later one from 0.
   */
  function RootReplies(g: Config, s: State, dc: int): (r: seq<int>)
    requires Playable(s)
    ensures |r| == |s.allowed|
  {
    seq(|s.allowed|, k requires 0 <= k < |s.allowed| => Reply(g, s, if k == 0 then dc else 0, k).score)
  }

  /** The pass over the `k`-th allowed move, with `depth_count == dc` when it starts. */
  function Try(g: Config, s: State, dc: int, k: nat): Trial
    requires Playable(s) && k < |s.allowed|
  {
    Trial(s.allowed[k], Finishes(g, s, k), Reply(g, s, dc, k).score, Threat(g, s, k))
  }

  /**
   * The passes over all allowed moves of `s`. `do_turn` sets `depth_count`
   * to 0 after each call of `think_ahead`, so only the first pass starts
   * from `dc`.
   */
  function Trials(g: Config, s: State, dc: int): (r: seq<Trial>)
    requires Playable(s)
    ensures |r| == |s.allowed|
  {
    seq(|s.allowed|, k requires 0 <= k < |s.allowed| => Try(g, s, if k == 0 then dc else 0, k))
  }

  /**
   * How a pass that does not complete the game updates the best pick: the
   * move becomes the best on `h >= best_score`, and then, if the enemy could
   * win there, on `1001 >= best_score` with score 1001.
   */
  function Weigh(t: Trial, best: Pick): (r: Pick)
    ensures r.score >= best.score && (r == best || r.move == Some(t.move))
    ensures t.reply >= best.score ==> r.score >= t.reply
    ensures t.threat ==> r.score >= 1001
  {
    var p := if t.reply >= best.score then Pick(t.reply, Some(t.move)) else best;
    if t.threat && 1001 >= p.score then Pick(1001, Some(t.move)) else p
  }

  /**
   * The loop of `do_turn` from pass `i` on, with `depth_count` equal to `dc`:
   * it breaks at the first move that completes the game and otherwise weighs
   * every move.
   */
  function Pass(ts: seq<Trial>, dc: int, i: nat, best: Pick): (r: Turn)
    requires i <= |ts|
    ensures r.Chose? ==> r.best.score >= best.score
    ensures r.depthCount == dc || r.depthCount == 0
    decreases |ts| - i
  {
    if i == |ts| then Chose(best, dc)
    else if ts[i].finishes then Won(ts[i].move, dc)
    else Pass(ts, 0, i + 1, Weigh(ts[i], best))
  }

  /** `do_turn` on state `s` with `depth_count == dc`. */
  function DoTurn(g: Config, s: State, dc: int): (r: Turn)
    requires Playable(s)
    ensures r.Chose? ==> r.best.score >= -1000
    ensures r.depthCount == dc || r.depthCount == 0
  {
    Pass(Trials(g, s, dc), dc, 0, NoPick)
  }

  /** Every reply lies within -1000..1000, the range `think_ahead` keeps to. */
  predicate RepliesBounded(ts: seq<Trial>) {
    forall k | 0 <= k < |ts| :: -1000 <= ts[k].reply <= 1000
  }

  /** One pass of the loop of `do_turn`. */
  lemma PassStep(ts: seq<Trial>, dc: int, i: nat, best: Pick)
    requires i < |ts|
    ensures Pass(ts, dc, i, best) ==
      if ts[i].finishes then Won(ts[i].move, dc) else Pass(ts, 0, i + 1, Weigh(ts[i], best))
  {
  }

  /** The move the loop settles on is the best so far or one of the moves tried. */
  lemma {:induction false} PassChoiceTried(ts: seq<Trial>, dc: int, i: nat, best: Pick)
    requires i <= |ts|
    ensures Played(Pass(ts, dc, i, best)) == best.move ||
            exists k | i <= k < |ts| :: Played(Pass(ts, dc, i, best)) == Some(ts[k].move)
    decreases |ts| - i
  {
    if i < |ts| && !ts[i].finishes {
      var w := Weigh(ts[i], best);
      PassChoiceTried(ts, 0, i + 1, w);
    }
  }

  /**
   * The loop settles on a move once it has one, or when a move is left to try
   * and the best score is still at its floor of -1000.
   */
  lemma {:induction false} PassChooses(ts: seq<Trial>, dc: int, i: nat, best: Pick)
    requires i <= |ts| && RepliesBounded(ts)
    requires best.move.Some? || (i < |ts| && best.score <= -1000)
    ensures Played(Pass(ts, dc, i, best)).Some?
    decreases |ts| - i
  {
    if i < |ts| && !ts[i].finishes {
      var w := Weigh(ts[i], best);
      assert w.move.Some?;
      PassChooses(ts, 0, i + 1, w);
    }
  }

  /** The loop takes the first move that completes the game for the AI, tie or win. */
  lemma {:induction false} PassTakesFirstFinish(ts: seq<Trial>, dc: int, i: nat, best: Pick, j: nat)
    requires i <= j < |ts|
    requires ts[j].finishes && forall k | i <= k < j :: !ts[k].finishes
    ensures Pass(ts, dc, i, best) == Won(ts[j].move, if j == i then dc else 0)
    decreases j - i
  {
    if i < j {
      PassTakesFirstFinish(ts, 0, i + 1, Weigh(ts[i], best), j);
    }
  }

  /** Without a move that completes the game for the AI, the loop runs to the end. */
  lemma {:induction false} PassWithoutFinish(ts: seq<Trial>, dc: int, i: nat, best: Pick)
    requires i <= |ts|
    requires forall k | i <= k < |ts| :: !ts[k].finishes
    ensures Pass(ts, dc, i, best).Chose?
    ensures Pass(ts, dc, i, best).depthCount == if i == |ts| then dc else 0
    decreases |ts| - i
  {
    if i < |ts| {
      PassWithoutFinish(ts, 0, i + 1, Weigh(ts[i], best));
    }
  }

  /**
   * Without a move that completes the game or lets the enemy win, the loop
   * keeps the best score it starts with or the highest reply, whichever is
   * larger. When every reply falls below the starting score the pick stays
   * as it was; otherwise the move picked is the one that scored it, and as
   * `>=` lets a later move take over a tie, the last one with that reply.
   */
  lemma {:induction false} PassPicksBest(ts: seq<Trial>, dc: int, i: nat, best: Pick)
    requires i <= |ts|
    requires forall k | i <= k < |ts| :: !ts[k].finishes && !ts[k].threat
    ensures Pass(ts, dc, i, best).Chose?
    ensures Pass(ts, dc, i, best).best.score >= best.score
    ensures forall k | i <= k < |ts| :: Pass(ts, dc, i, best).best.score >= ts[k].reply
    ensures (forall k | i <= k < |ts| :: ts[k].reply < best.score) ==> Pass(ts, dc, i, best).best == best
    ensures (exists k | i <= k < |ts| :: ts[k].reply >= best.score) ==>
              exists k | i <= k < |ts| :: Pass(ts, dc, i, best).best == Pick(ts[k].reply, Some(ts[k].move)) &&
                forall k' | k < k' < |ts| :: ts[k'].reply < ts[k].reply
    decreases |ts| - i
  {
    if i < |ts| {
      var w := Weigh(ts[i], best);
      PassPicksBest(ts, 0, i + 1, w);
      var r := Pass(ts, dc, i, best);
      if exists k | i <= k < |ts| :: ts[k].reply >= best.score {
        if !exists k | i + 1 <= k < |ts| :: ts[k].reply >= w.score {
          assert r.best == w;
          assert w == Pick(ts[i].reply, Some(ts[i].move));
          assert forall k' | i < k' < |ts| :: ts[k'].reply < ts[i].reply;
        }
      }
    }
  }

  /**
   * Without a move that completes the game for the AI, the move played is the
   * last one with which the enemy could win: it scores 1001, above any value
   * `think_ahead` returns.
   */
  lemma {:induction false} PassTakesLastThreat(ts: seq<Trial>, dc: int, i: nat, best: Pick, j: nat)
    requires i <= j < |ts| && RepliesBounded(ts) && best.score <= 1001
    requires forall k | i <= k < |ts| :: !ts[k].finishes
    requires ts[j].threat && forall k | j < k < |ts| :: !ts[k].threat
    ensures Pass(ts, dc, i, best) == Chose(Pick(1001, Some(ts[j].move)), 0)
    decreases j - i
  {
    var w := Weigh(ts[i], best);
    if i < j {
      PassTakesLastThreat(ts, 0, i + 1, w, j);
    } else {
      PassKeepsBlock(ts, i + 1, w);
    }
  }

  /** Once a block scores 1001, no later move without a threat or a finish displaces it. */
  lemma {:induction false} PassKeepsBlock(ts: seq<Trial>, i: nat, best: Pick)
    requires i <= |ts| && RepliesBounded(ts) && best.score == 1001
    requires forall k | i <= k < |ts| :: !ts[k].finishes && !ts[k].threat
    ensures Pass(ts, 0, i, best) == Chose(best, 0)
    decreases |ts| - i
  {
    if i < |ts| {
      PassKeepsBlock(ts, i + 1, best);
    }
  }

  /** The `k`-th pass of `do_turn` plays the `k`-th allowed move and learns what `Finishes`, `Reply` and `Threat` say of it. */
  lemma TrialAt(g: Config, s: State, dc: int, k: nat)
    requires Playable(s) && k < |s.allowed|
    ensures Trials(g, s, dc)[k].move == s.allowed[k]
    ensures Trials(g, s, dc)[k].finishes == Finishes(g, s, k)
    ensures Trials(g, s, dc)[k].threat == Threat(g, s, k)
    ensures Trials(g, s, dc)[k].reply == Reply(g, s, if k == 0 then dc else 0, k).score
    ensures |g.combos| <= 1000 ==> -1000 <= Trials(g, s, dc)[k].reply <= 1000
    ensures Trials(g, s, dc)[k] == Try(g, s, if k == 0 then dc else 0, k)
  {
    var t := Try(g, s, if k == 0 then dc else 0, k);
    assert Trials(g, s, dc)[k] == t;
  }

  /** Every pass of `do_turn` plays its own allowed move, and its reply is in range. */
  lemma TrialsFacts(g: Config, s: State, dc: int)
    requires Playable(s) && |g.combos| <= 1000
    ensures RepliesBounded(Trials(g, s, dc))
    ensures forall k | 0 <= k < |s.allowed| :: Trials(g, s, dc)[k].move == s.allowed[k]
  {
    forall k | 0 <= k < |s.allowed|
      ensures Trials(g, s, dc)[k].move == s.allowed[k]
      ensures -1000 <= Trials(g, s, dc)[k].reply <= 1000
    {
      TrialAt(g, s, dc, k);
    }
  }

  /** Whenever a move is allowed, `do_turn` plays one of the allowed moves. */
  lemma DoTurnPlays(g: Config, s: State, dc: int)
    requires Playable(s) && |g.combos| <= 1000 && s.allowed != []
    ensures Played(DoTurn(g, s, dc)).Some?
    ensures Played(DoTurn(g, s, dc)).value in s.allowed
  {
    var ts := Trials(g, s, dc);
    TrialsFacts(g, s, dc);
    PassChooses(ts, dc, 0, NoPick);
    PassChoiceTried(ts, dc, 0, NoPick);
  }

  /** `do_turn` plays the first allowed move that completes the game for the AI. */
  lemma DoTurnTakesFirstFinish(g: Config, s: State, dc: int, j: nat)
    requires Playable(s) && j < |s.allowed|
    requires Finishes(g, s, j) && forall k | 0 <= k < j :: !Finishes(g, s, k)
    ensures DoTurn(g, s, dc) == Won(s.allowed[j], if j == 0 then dc else 0)
  {
    var ts := Trials(g, s, dc);
    forall k | 0 <= k < j
      ensures !ts[k].finishes
    {
      TrialAt(g, s, dc, k);
    }
    TrialAt(g, s, dc, j);
    PassTakesFirstFinish(ts, dc, 0, NoPick, j);
  }

  /**
   * When no allowed move completes the game for the AI, `do_turn` plays the
   * last allowed move with which the enemy could win.
   */
  lemma DoTurnBlocksLastThreat(g: Config, s: State, dc: int, j: nat)
    requires Playable(s) && |g.combos| <= 1000 && j < |s.allowed|
    requires forall k | 0 <= k < |s.allowed| :: !Finishes(g, s, k)
    requires Threat(g, s, j) && forall k | j < k < |s.allowed| :: !Threat(g, s, k)
    ensures DoTurn(g, s, dc) == Chose(Pick(1001, Some(s.allowed[j])), 0)
  {
    var ts := Trials(g, s, dc);
    TrialsFacts(g, s, dc);
    forall k | 0 <= k < |ts|
      ensures !ts[k].finishes
      ensures j < k ==> !ts[k].threat
    {
      TrialAt(g, s, dc, k);
    }
    TrialAt(g, s, dc, j);
    PassTakesLastThreat(ts, dc, 0, NoPick, j);
  }

  /**
   * Without finishes or threats, a loop starting from `NoPick` plays the last
   * move with the highest reply; `ms` and `rs` list the moves and replies of `ts`.
   */
  lemma PassPicksLastBest(ts: seq<Trial>, dc: int, ms: seq<int>, rs: seq<int>)
    requires ts != [] && |ms| == |ts| && |rs| == |ts|
    requires forall k | 0 <= k < |ts| :: !ts[k].finishes && !ts[k].threat && ts[k].reply >= -1000
    requires forall k | 0 <= k < |ts| :: ts[k].move == ms[k] && ts[k].reply == rs[k]
    ensures Pass(ts, dc, 0, NoPick).Chose?
    ensures exists k | 0 <= k < |rs| :: Pass(ts, dc, 0, NoPick).best == Pick(rs[k], Some(ms[k])) &&
              (forall j | 0 <= j < |rs| :: rs[j] <= rs[k]) && (forall j | k < j < |rs| :: rs[j] < rs[k])
  {
    PassPicksBest(ts, dc, 0, NoPick);
    assert ts[0].reply >= NoPick.score;
    var k :| 0 <= k < |ts| && Pass(ts, dc, 0, NoPick).best == Pick(ts[k].reply, Some(ts[k].move)) &&
      forall k' | k < k' < |ts| :: ts[k'].reply < ts[k].reply;
    assert Pass(ts, dc, 0, NoPick).best == Pick(rs[k], Some(ms[k]));
  }

  /** Without finishes or threats, every pass of `do_turn` records its move and its reply. */
  lemma QuietTrials(g: Config, s: State, dc: int)
    requires Playable(s) && |g.combos| <= 1000
    requires forall k | 0 <= k < |s.allowed| :: !Finishes(g, s, k) && !Threat(g, s, k)
    ensures forall k | 0 <= k < |s.allowed| ::
              !Trials(g, s, dc)[k].finishes && !Trials(g, s, dc)[k].threat && Trials(g, s, dc)[k].reply >= -1000 &&
              Trials(g, s, dc)[k].move == s.allowed[k] && Trials(g, s, dc)[k].reply == RootReplies(g, s, dc)[k]
  {
    forall k | 0 <= k < |s.allowed|
      ensures !Trials(g, s, dc)[k].finishes && !Trials(g, s, dc)[k].threat && Trials(g, s, dc)[k].reply >= -1000
      ensures Trials(g, s, dc)[k].move == s.allowed[k] && Trials(g, s, dc)[k].reply == RootReplies(g, s, dc)[k]
    {
      TrialAt(g, s, dc, k);
    }
  }

  /**
   * When no allowed move completes the game for the AI or lets the enemy
   * win, `do_turn` plays the last allowed move with the highest reply.
   */
  lemma DoTurnPicksBest(g: Config, s: State, dc: int)
    requires Playable(s) && |g.combos| <= 1000 && s.allowed != []
    requires forall k | 0 <= k < |s.allowed| :: !Finishes(g, s, k) && !Threat(g, s, k)
    ensures DoTurn(g, s, dc).Chose?
    ensures var rs := RootReplies(g, s, dc);
      exists k | 0 <= k < |rs| :: DoTurn(g, s, dc).best == Pick(rs[k], Some(s.allowed[k])) &&
        (forall j | 0 <= j < |rs| :: rs[j] <= rs[k]) && (forall j | k < j < |rs| :: rs[j] < rs[k])
  {
    QuietTrials(g, s, dc);
    PassPicksLastBest(Trials(g, s, dc), dc, s.allowed, RootReplies(g, s, dc));
  }

}

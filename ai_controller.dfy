/**
 * AI/AIController.cs: the opponent that plays a side's turn. Each action takes the first tier of
 * the profile's priority order that has a candidate move, scores that tier's candidates with a
 * one-step lookahead played out on the grid itself and undone afterwards, and executes the best
 * one, until the turn, the energy or the action budget runs out.
 */
module AI {
  import opened Wrappers
  import opened Geometry
  import opened Pieces
  import opened Board
  import opened MoveGenerator
  import opened Turns
  import opened MoveResolver
  import opened Personality
  import opened BoardScan
  import opened AIModel

  /**
   * Why RunTurn's loop ended: its condition failed (the turn passed, the energy or the action
   * budget ran out), or there was no action worth taking. A refused move, the source's third way
   * out, never happens (see PlayActions).
   */
  datatype Stop = Exhausted | NoChoice

  class AIController {
    /** The board, the turn manager and the profile the component is wired to. */
    const runtime: BoardRuntime
    const turns: TurnManager
    const profile: Option<Profile>
    /** Lookahead settings. */
    const useLookahead: bool
    const lookaheadDecay: real
    const maxFollowupMovesScored: int
    /** _lastMovedThisTurn. */
    var lastMoved: Piece?

    /** The component as configured in the inspector. */
    constructor (runtime: BoardRuntime, turns: TurnManager, profile: Option<Profile>,
                 useLookahead: bool, lookaheadDecay: real, maxFollowupMovesScored: int)
      ensures this.runtime == runtime && this.turns == turns && this.profile == profile
      ensures this.useLookahead == useLookahead && this.lookaheadDecay == lookaheadDecay
      ensures this.maxFollowupMovesScored == maxFollowupMovesScored && lastMoved == null
    {
      this.runtime := runtime;
      this.turns := turns;
      this.profile := profile;
      this.useLookahead := useLookahead;
      this.lookaheadDecay := lookaheadDecay;
      this.maxFollowupMovesScored := maxFollowupMovesScored;
      this.lastMoved := null;
    }

    /**
     * EnumeratePieces (mine) and EnumerateEnemies (not mine): walk the grid row by row and collect
     * the pieces of the chosen side.
     */
    method Enumerate(team: Team, mine: bool) returns (r: seq<Piece>)
      requires runtime.Valid()
      ensures r == Scan(runtime, team, mine)
    {
      var b := runtime;
      r := [];
      if b.pieces == null {
        return;
      }
      var y := 0;
      while y < b.rows
        invariant 0 <= y <= b.rows
        invariant r == GridScan(b, y, team, mine)
      {
        var x := 0;
        while x < b.cols
          invariant 0 <= x <= b.cols
          invariant r == GridScan(b, y, team, mine) + RowScan(b, y, x, team, mine)
        {
          var p := b.pieces[x, y];
          if p != null && (p.team == team) == mine {
            r := r + [p];
          }
          x := x + 1;
        }
        y := y + 1;
      }
    }

    /**
     * AIController.FindNearestEnemy: the GridPos of the first enemy, in grid order, at the least
     * Manhattan distance from `from`. The grid walk visits exactly the pieces EnumerateEnemies
     * lists, in the same order, so the loop runs over that list.
     */
    method FindNearestEnemy(from: Coord, myTeam: Team) returns (best: Option<Coord>)
      requires runtime.Valid()
      ensures best == Nearest(from, Scan(runtime, myTeam, false))
    {
      var enemies := Enumerate(myTeam, false);
      best := None;
      var bestDist := 0;
      var i := 0;
      while i < |enemies|
        invariant 0 <= i <= |enemies|
        invariant best == Nearest(from, enemies[..i])
        invariant best.Some? ==> bestDist == Manhattan(from, best.value)
      {
        var p := enemies[i];
        NearestSnoc(from, enemies, i);
        var d := Manhattan(from, p.gridPos);
        if best.None? || d < bestDist {
          bestDist := d;
          best := Some(p.gridPos);
        }
        i := i + 1;
      }
      assert enemies[..i] == enemies;
    }

    /** AIController.CountThreatsAgainst: how many enemies of `victimTeam` have a move onto `cell`. */
    method CountThreatsAgainst(cell: Coord, victimTeam: Team) returns (count: nat)
      requires runtime.Valid() && AllReady(runtime)
      ensures count == Threats(runtime, cell, victimTeam)
    {
      var enemies := Enumerate(victimTeam, false);
      ScanReady(runtime, victimTeam, false);
      count := CountThreatening(enemies, cell);
    }

    /** The loop of CountThreatsAgainst over the listed enemies: count those with a move onto `cell`. */
    method CountThreatening(enemies: seq<Piece>, cell: Coord) returns (count: nat)
      requires runtime.Valid() && forall k :: 0 <= k < |enemies| ==> Ready(runtime, enemies[k])
      ensures count == CountTrue(Hits(runtime, cell, enemies))
    {
      ghost var hits := Hits(runtime, cell, enemies);
      count := 0;
      var i := 0;
      while i < |enemies|
        invariant 0 <= i <= |enemies|
        invariant count == CountTrue(hits[..i])
      {
        HitsUnchanged(runtime, cell, enemies);
        HitsAt(runtime, cell, enemies, i);
        var hit := EnemyThreatens(enemies[i], cell);
        if hit {
          count := count + 1;
        }
        CountTrueSnoc(hits, i);
        i := i + 1;
      }
      HitsUnchanged(runtime, cell, enemies);
      assert hits[..i] == hits;
    }

    /** The body of CountThreatsAgainst's loop: does one of the enemy's generated moves land on `cell`? */
    method EnemyThreatens(enemy: Piece, cell: Coord) returns (hit: bool)
      requires runtime.Valid() && Ready(runtime, enemy)
      ensures hit == old(Threatens(runtime, enemy, cell))
    {
      var moves := GetMoves(enemy, runtime);
      hit := HasMoveOnto(moves, cell);
    }

    /** The inner loop of CountThreatsAgainst: does some option land on `cell`? */
    static method HasMoveOnto(moves: seq<MoveOption>, cell: Coord) returns (hit: bool)
      ensures hit <==> exists k :: 0 <= k < |moves| && moves[k].dest == cell
    {
      var j := 0;
      while j < |moves|
        invariant 0 <= j <= |moves|
        invariant forall k :: 0 <= k < j ==> moves[k].dest != cell
      {
        if moves[j].dest == cell {
          return true;
        }
        j := j + 1;
      }
      return false;
    }

    /** AIController.ShouldRetreat: weak (health fraction at or below the threshold) or threatened enough. */
    method ShouldRetreat(p: Piece) returns (r: bool)
      requires runtime.Valid() && AllReady(runtime) && profile.Some?
      ensures r == AIModel.ShouldRetreat(runtime, profile.value, p)
    {
      var hpPct := (p.hp as real) / RMax(1.0, p.maxHP as real);
      var threats := CountThreatsAgainst(p.gridPos, p.team);
      r := hpPct <= profile.value.lowHPPercent || threats >= profile.value.threatRetreatThreshold;
      assert hpPct <= profile.value.lowHPPercent <==> LowHealth(p.hp, p.maxHP, profile.value.lowHPPercent);
    }

    /**
     * AIController.ComputeApproachCell: walk from `from` toward `target` one unit step at a time
     * and return the last cell before the target, giving up on an off-board or occupied cell.
     */
    method ComputeApproachCell(from: Coord, target: Coord) returns (r: Option<Coord>)
      requires runtime.Valid()
      ensures r == ApproachCell(runtime, from, target)
    {
      var dx := target.x - from.x;
      var dy := target.y - from.y;
      var orth := dx == 0 || dy == 0;
      var diag := Abs(dx) == Abs(dy);
      if !orth && !diag {
        return None;
      }
      var sx := Clamp(dx, -1, 1);
      var sy := Clamp(dy, -1, 1);
      assert StepToward(from, target) == Coord(sx, sy);
      r := WalkToward(from, target, sx, sy);
    }

    /** The walk of ComputeApproachCell along the unit step (sx, sy) toward a target on a line through `from`. */
    method WalkToward(from: Coord, target: Coord, sx: int, sy: int) returns (r: Option<Coord>)
      requires runtime.Valid() && OnLine(from, target) && StepToward(from, target) == Coord(sx, sy)
      ensures r == ApproachCell(runtime, from, target)
    {
      ghost var d := Coord(sx, sy);
      ghost var n := Chebyshev(from, target);
      var cur := Coord(from.x + sx, from.y + sy);
      var lastFree: Option<Coord> := None;
      ghost var k: nat := 1;
      assert cur == Along(from, d, 1);
      while cur != target
        invariant 1 <= k && cur == Along(from, d, k)
        invariant n >= 1 ==> k <= n
        invariant n == 0 ==> cur == target && k == 1
        invariant PathClear(runtime, from, d, k)
        invariant lastFree == if k == 1 then None else Some(Along(from, d, k - 1))
        decreases n - k
      {
        WalkReachesTarget(from, target, k);
        if !runtime.InBounds(cur) || runtime.GetPiece(cur) != null {
          assert !PathClear(runtime, from, d, n);
          return None;
        }
        lastFree := Some(cur);
        cur := Coord(cur.x + sx, cur.y + sy);
        k := k + 1;
      }
      WalkReachesTarget(from, target, k);
      assert n == 0 || k == n;
      r := lastFree;
    }

    /** The Approach branch of CollectCandidatesForPriority's test. */
    method ApproachTest(p: Piece, opt: MoveOption) returns (q: bool)
      requires runtime.Valid() && AllReady(runtime)
      ensures q == Approaches(runtime, p, opt)
    {
      q := false;
      if runtime.GetPiece(opt.dest) == null {
        var nearest := FindNearestEnemy(p.gridPos, p.team);
        if nearest.Some? {
          q := Manhattan(opt.dest, nearest.value) < Manhattan(p.gridPos, nearest.value);
        }
      }
    }

    /** The Retreat branch of CollectCandidatesForPriority's test. */
    method RetreatTest(p: Piece, opt: MoveOption) returns (q: bool)
      requires runtime.Valid() && AllReady(runtime) && profile.Some?
      ensures q == Retreats(runtime, profile.value, p, opt)
    {
      ghost var spec := Retreats(runtime, profile.value, p, opt);
      q := false;
      if runtime.GetPiece(opt.dest) == null {
        var retreat := ShouldRetreat(p);
        ShouldRetreatUnchanged(runtime, profile.value, p);
        if retreat {
          var nearest := FindNearestEnemy(p.gridPos, p.team);
          NearestEnemyUnchanged(runtime, p.gridPos, p.team);
          var threatNow := CountThreatsAgainst(p.gridPos, p.team);
          ThreatsUnchanged(runtime, p.gridPos, p.team);
          var threatThen := CountThreatsAgainst(opt.dest, p.team);
          ThreatsUnchanged(runtime, opt.dest, p.team);
          var safer := threatThen < threatNow;
          var farther := nearest.Some? && Manhattan(opt.dest, nearest.value) > Manhattan(p.gridPos, nearest.value);
          q := safer || farther;
        }
      }
      assert q == spec;
      RetreatsUnchanged(runtime, profile.value, p, opt);
    }

    /** The test of CollectCandidatesForPriority's inner loop: does option `opt` of `p` enter tier `prio`? */
    method Qualify(prio: Priority, p: Piece, opt: MoveOption) returns (q: bool)
      requires runtime.Valid() && AllReady(runtime) && profile.Some?
      ensures q == Qualifies(runtime, turns.energy, profile.value, prio, p, opt)
    {
      if !runtime.InBounds(opt.dest) || turns.energy < opt.cost {
        return false;
      }
      var target := runtime.GetPiece(opt.dest);
      match prio
      case LethalCapture =>
        q := IsEnemy(target, p) && target.hp - p.attack <= 0;
      case Capture =>
        q := IsEnemy(target, p);
      case Approach =>
        q := ApproachTest(p, opt);
      case Retreat =>
        q := RetreatTest(p, opt);
    }

    /**
     * AIController.CollectCandidatesForPriority: for each of the AI's pieces in grid order, each of
     * its generated options in order, keep the option if it passes the tier's test.
     */
    method CollectCandidatesForPriority(prio: Priority) returns (list: seq<Candidate>)
      requires runtime.Valid() && AllReady(runtime) && profile.Some?
      ensures AllReady(runtime) && list == Candidates(runtime, turns.energy, profile.value, prio)
    {
      ScanReady(runtime, profile.value.team, true);
      var own := Enumerate(profile.value.team, true);
      CandidatesUnchanged(runtime, turns.energy, profile.value, prio);
      list := CollectPieces(prio, own);
      CandidatesUnchanged(runtime, turns.energy, profile.value, prio);
    }

    /** The outer loop of CollectCandidatesForPriority over the pieces `own`. */
    method CollectPieces(prio: Priority, own: seq<Piece>) returns (list: seq<Candidate>)
      requires runtime.Valid() && AllReady(runtime) && profile.Some?
      requires forall k :: 0 <= k < |own| ==> Ready(runtime, own[k])
      ensures list == old(CandidatesOf(runtime, turns.energy, profile.value, prio, own))
    {
      list := [];
      for i := 0 to |own|
        invariant list == old(CandidatesOf(runtime, turns.energy, profile.value, prio, own[..i]))
      {
        MovesUnchanged(runtime, own[i]);
        PassingUnchanged(runtime, turns.energy, profile.value, prio, own[i], Moves(runtime, own[i]));
        list := CollectPiece(prio, own[i], list);
        assert own[..i + 1][..i] == own[..i];
      }
      assert own[..|own|] == own;
    }

    /** The body of CollectCandidatesForPriority's outer loop: generate the options of `p` and keep those that pass. */
    method CollectPiece(prio: Priority, p: Piece, list: seq<Candidate>) returns (list': seq<Candidate>)
      requires runtime.Valid() && AllReady(runtime) && profile.Some? && Ready(runtime, p)
      ensures list' == list + old(Passing(runtime, turns.energy, profile.value, prio, p, Moves(runtime, p)))
    {
      var moves := GetMoves(p, runtime);
      MovesUnchanged(runtime, p);
      PassingUnchanged(runtime, turns.energy, profile.value, prio, p, moves);
      list' := CollectOptions(prio, p, moves, list);
    }

    /** The inner loop of CollectCandidatesForPriority: append the options of `p` that pass the tier. */
    method CollectOptions(prio: Priority, p: Piece, moves: seq<MoveOption>, list: seq<Candidate>)
      returns (list': seq<Candidate>)
      requires runtime.Valid() && AllReady(runtime) && profile.Some?
      ensures list' == list + old(Passing(runtime, turns.energy, profile.value, prio, p, moves))
    {
      list' := list;
      for j := 0 to |moves|
        invariant list' == list + old(Passing(runtime, turns.energy, profile.value, prio, p, moves[..j]))
      {
        AllReadyUnchanged(runtime);
        var q := Qualify(prio, p, moves[j]);
        QualifiesUnchanged(runtime, turns.energy, profile.value, prio, p, moves[j]);
        if q {
          list' := list' + [Candidate(p, moves[j])];
        }
        assert moves[..j + 1][..j] == moves[..j];
      }
      assert moves[..|moves|] == moves;
    }

    /** AIController.ScoreMove, without the noise term. The tier argument is not used by the source either. */
    method ScoreMove(prio: Priority, attacker: Piece, opt: MoveOption) returns (score: real)
      requires runtime.Valid() && AllReady(runtime) && profile.Some?
      ensures score == AIModel.ScoreMove(runtime, profile.value, lastMoved, attacker, opt)
    {
      var w := profile.value;
      var gain := GainOf(attacker, opt);
      GainUnchanged(runtime, w, attacker, opt);
      var threats := CountThreatsAgainst(opt.dest, attacker.team);
      ThreatsUnchanged(runtime, opt.dest, attacker.team);
      var repeat := lastMoved != null && attacker == lastMoved;
      score := Penalized(w, gain, threats, opt.cost, repeat);
      ScoreMoveUnchanged(runtime, w, lastMoved, attacker, opt);
    }

    /** The reward part of AIController.ScoreMove: capture and damage, or approach and stride. */
    method GainOf(attacker: Piece, opt: MoveOption) returns (score: real)
      requires runtime.Valid() && AllReady(runtime) && profile.Some?
      ensures score == old(Gain(runtime, profile.value, attacker, opt))
    {
      var w := profile.value;
      var target := runtime.GetPiece(opt.dest);
      if target != null && target.team != attacker.team {
        var hpAfter := Max(0, target.hp - attacker.attack);
        score := AttackReward(w, hpAfter <= 0, attacker.attack, PieceValue(target));
      } else {
        var nearest := FindNearestEnemy(attacker.gridPos, attacker.team);
        NearestEnemyUnchanged(runtime, attacker.gridPos, attacker.team);
        score := MoveReward(w, nearest, attacker.gridPos, opt);
      }
    }
 
    /**
     * The follow-up loop of ScoreMoveLookahead: the best score (never below zero) among the
     * follow-ups that are on the board and affordable, stopping once the cap has been reached.
     * Each follow-up is scored by AIModel.ScoreMove, the value the ScoreMove method is proved to
     * return.
     */
    method BestFollowup(attacker: Piece, followups: seq<MoveOption>, remaining: int) returns (best: real)
      requires runtime.Valid() && AllReady(runtime) && profile.Some?
      ensures best == BestScore(runtime, profile.value, lastMoved, attacker,
                                Scored(runtime, followups, remaining, maxFollowupMovesScored))
    {
      best := 0.0;
      var counted := 0;
      var i := 0;
      while i < |followups|
        invariant 0 <= i <= |followups|
        invariant counted == |Eligible(runtime, followups[..i], remaining)| < Max(1, maxFollowupMovesScored)
        invariant best == BestScore(runtime, profile.value, lastMoved, attacker, Eligible(runtime, followups[..i], remaining))
      {
        var f := followups[i];
        ghost var e := Eligible(runtime, followups[..i], remaining);
        assert Eligible(runtime, followups[..i + 1], remaining)
               == if runtime.InBounds(f.dest) && f.cost <= remaining then e + [f] else e by {
          EligibleSnoc(runtime, followups, remaining, i);
        }
        i := i + 1;
        if runtime.InBounds(f.dest) && f.cost <= remaining {
          var s2 := AIModel.ScoreMove(runtime, profile.value, lastMoved, attacker, f);
          assert BestScore(runtime, profile.value, lastMoved, attacker, e + [f]) == if s2 > best then s2 else best by {
            BestScoreSnoc(runtime, profile.value, lastMoved, attacker, e, f);
          }
          if s2 > best {
            best := s2;
          }
          counted := counted + 1;
          if counted >= maxFollowupMovesScored {
            break;
          }
        }
      }
      ScoredPrefix(runtime, followups, remaining, maxFollowupMovesScored, i);
    }

    /**
     * AIController.ScoreMoveLookahead: the direct score, plus, when lookahead is on and energy would
     * remain, the decayed best score of the attacker's follow-ups from where the simulation placed
     * it. `future` are the scores of the follow-ups scored, taken on the simulated grid
     * (BestFollowup states which they are). The simulation is undone: the grid and the attacker
     * end as they began.
     */
    method ScoreMoveLookahead(prio: Priority, attacker: Piece, opt: MoveOption) returns (s: real, ghost future: seq<real>)
      requires runtime.Valid() && AllReady(runtime) && runtime.Consistent() && profile.Some?
      requires runtime.OnBoard(attacker) && runtime.InBounds(opt.dest)
      modifies runtime.pieces, attacker`gridPos
      ensures unchanged(runtime.pieces) && unchanged(attacker)
      ensures s == LookaheadScore(old(AIModel.ScoreMove(runtime, profile.value, lastMoved, attacker, opt)),
                                  useLookahead, turns.energy - opt.cost, lookaheadDecay, future)
      ensures |future| <= Max(1, maxFollowupMovesScored)
      ensures !useLookahead || turns.energy - opt.cost <= 0 ==> future == []
    {
      var direct := ScoreMove(prio, attacker, opt);
      ScoreMoveUnchanged(runtime, profile.value, lastMoved, attacker, opt);
      future := [];
      if !useLookahead {
        return direct, future;
      }
      var remaining := turns.energy - opt.cost;
      if remaining <= 0 {
        return direct, future;
      }
      var futureBest;
      futureBest, future := SimulateFollowups(attacker, opt, remaining);
      s := direct + lookaheadDecay * futureBest;
    }

    /**
     * The decision half of AIController.BeginSimulation: where the attacker is placed (the
     * destination, or the approach cell before an enemy that would survive the hit when there is
     * one) and the snapshot that records what to undo. On a consistent grid the attacker's start
     * cell holds it, a placement away from the destination is empty, and a piece captured at the
     * destination stands there by its GridPos.
     */
    method SimulationPlan(attacker: Piece, opt: MoveOption) returns (snap: SimSnapshot)
      requires runtime.Valid() && runtime.Consistent() && runtime.OnBoard(attacker) && runtime.InBounds(opt.dest)
      ensures snap == SimSnapshot(attacker, attacker.gridPos, Placement(runtime, attacker, opt.dest),
                                  runtime.GetPiece(opt.dest))
      ensures runtime.InBounds(snap.placedAt) && runtime.GetPiece(snap.from) == attacker
      ensures snap.placedAt != opt.dest ==> runtime.GetPiece(snap.placedAt) == null
      ensures snap.capturedAtDest != null ==> snap.capturedAtDest.gridPos == opt.dest
      ensures snap.capturedAtDest == attacker ==> snap.placedAt == opt.dest
    {
      var from := attacker.gridPos;
      var to := opt.dest;
      var target := runtime.GetPiece(to);
      var placeAt := to;
      if target != null && target.team != attacker.team {
        var hpAfter := Max(0, target.hp - attacker.attack);
        if hpAfter > 0 {
          var maybeApproach := ComputeApproachCell(from, to);
          if maybeApproach.Some? {
            placeAt := maybeApproach.value;
          }
        }
      }
      PlacementSpec(runtime, attacker, to);
      snap := SimSnapshot(attacker, from, placeAt, runtime.pieces[to.x, to.y]);
    }

    /**
     * The follow-up half of ScoreMoveLookahead, on the grid as it stands (the simulated one): the
     * running best of `scores`, the scores of the attacker's follow-ups that BestFollowup scores.
     */
    method ScoreFollowups(attacker: Piece, remaining: int) returns (futureBest: real, ghost scores: seq<real>)
      requires runtime.Valid() && AllReady(runtime) && runtime.OnBoard(attacker) && profile.Some?
      ensures futureBest == BestOf(scores) && |scores| <= Max(1, maxFollowupMovesScored)
      ensures scores == FollowupScores(runtime, profile.value, lastMoved, attacker, remaining, maxFollowupMovesScored)
    {
      assert Ready(runtime, runtime.pieces[attacker.gridPos.x, attacker.gridPos.y]);
      var followups := GetMoves(attacker, runtime);
      futureBest := BestFollowup(attacker, followups, remaining);
      scores := FollowupScores(runtime, profile.value, lastMoved, attacker, remaining, maxFollowupMovesScored);
      assert |scores| <= Max(1, maxFollowupMovesScored) by {
        ScoresSpec(runtime, profile.value, lastMoved, attacker, Scored(runtime, followups, remaining, maxFollowupMovesScored));
      }
    }

    /**
     * The simulated part of ScoreMoveLookahead, with AIController.BeginSimulation and
     * AIController.EndSimulation written out in place. Begin: move the attacker on the grid array
     * alone (no events, no transforms) to the placement SimulationPlan chose. Then score the
     * attacker's follow-ups with `remaining` energy on that grid. End: take the attacker off its
     * placement cell if it is still there, put the captured piece back on the cell its GridPos
     * names, and put the attacker back on its start cell. The result is the running best of the
     * follow-up scores `scores`, and the grid array and the attacker end exactly as they began.
     */
    method SimulateFollowups(attacker: Piece, opt: MoveOption, remaining: int) returns (futureBest: real, ghost scores: seq<real>)
      requires runtime.Valid() && AllReady(runtime) && runtime.Consistent() && profile.Some?
      requires runtime.OnBoard(attacker) && runtime.InBounds(opt.dest)
      modifies runtime.pieces, attacker`gridPos
      ensures runtime.pieces != null && unchanged(runtime.pieces) && unchanged(attacker)
      ensures futureBest == BestOf(scores) && |scores| <= Max(1, maxFollowupMovesScored)
    {
      assert Ready(runtime, runtime.pieces[attacker.gridPos.x, attacker.gridPos.y]);
      // BeginSimulation
      var snap := SimulationPlan(attacker, opt);
      var from, placeAt := snap.from, snap.placedAt;
      runtime.pieces[from.x, from.y] := null;
      if placeAt == opt.dest {
        runtime.pieces[opt.dest.x, opt.dest.y] := null;
      }
      runtime.pieces[placeAt.x, placeAt.y] := attacker;
      attacker.gridPos := placeAt;
      forall x, y | 0 <= x < runtime.cols && 0 <= y < runtime.rows
        ensures runtime.pieces[x, y] == SimCell(old(runtime.pieces[x, y]), Coord(x, y), snap)
      {
      }
      SimulationReady(runtime, snap);
      futureBest, scores := ScoreFollowups(attacker, remaining);
      // EndSimulation
      label simulated:
      if runtime.pieces[placeAt.x, placeAt.y] == attacker {
        runtime.pieces[placeAt.x, placeAt.y] := null;
      }
      if snap.capturedAtDest != null {
        var at := snap.capturedAtDest.gridPos;
        runtime.pieces[at.x, at.y] := snap.capturedAtDest;
      }
      runtime.pieces[from.x, from.y] := attacker;
      attacker.gridPos := from;
      // Only the start, placement and destination cells were written, and each is back as it was.
      assert runtime.pieces[from.x, from.y] == old(runtime.pieces[from.x, from.y]);
      assert runtime.pieces[opt.dest.x, opt.dest.y] == old(runtime.pieces[opt.dest.x, opt.dest.y]);
      assert runtime.pieces[placeAt.x, placeAt.y] == old(runtime.pieces[placeAt.x, placeAt.y]);
    }

    /**
     * `scores` are the lookahead scores of the candidates `cs` on the board as it stands, in order,
     * from their direct scores (ScoreMoves) and the follow-up scores `futures` behind them.
     */
    ghost predicate TierScores(cs: seq<Candidate>, scores: seq<real>, futures: seq<seq<real>>)
      requires runtime.Valid() && AllReady(runtime) && profile.Some?
      requires forall i :: 0 <= i < |cs| ==> cs[i].piece in runtime.Occupants()
      reads this, runtime.pieces, runtime.Occupants(), turns
    {
      Lookaheads(cs, AIModel.ScoreMoves(runtime, profile.value, lastMoved, cs), useLookahead, turns.energy,
                 lookaheadDecay, Max(1, maxFollowupMovesScored), scores, futures)
    }

    /**
     * What PickBestByPriority returns: `tier` is the first tier of the profile's order with a
     * candidate (or the number of tiers), there is a pick exactly when there is such a tier,
     * `scores` are that tier's lookahead scores in candidate order, and the pick is the first
     * candidate with the highest score.
     */
    ghost predicate BestPicked(best: Option<Pick>, tier: nat, scores: seq<real>, futures: seq<seq<real>>)
      requires runtime.Valid() && AllReady(runtime) && profile.Some?
      reads this, runtime.pieces, runtime.Occupants(), turns
    {
      tier == FirstTierFrom(runtime, turns.energy, profile.value, 0)
      && (best.None? <==> tier == |profile.value.priorities|)
      && (best.Some? ==>
            var cs := Candidates(runtime, turns.energy, profile.value, profile.value.priorities[tier]);
            (CandidatesOnBoard(runtime, turns.energy, profile.value, profile.value.priorities[tier]);
             TierScores(cs, scores, futures))
            && 0 <= FirstMax(scores) && best.value == Pick(cs[FirstMax(scores)], scores[FirstMax(scores)]))
    }

    /**
     * The body of ScoreTier's loop: the lookahead score `s` of one candidate, built from its
     * direct score `d`, on a board left exactly as it was found.
     */
    method ScoreCandidate(prio: Priority, c: Candidate, ghost d: real) returns (s: real, ghost future: seq<real>)
      requires runtime.Valid() && AllReady(runtime) && runtime.Consistent() && profile.Some?
      requires c.piece in runtime.Occupants() && runtime.InBounds(c.option.dest)
      requires d == AIModel.ScoreMove(runtime, profile.value, lastMoved, c.piece, c.option)
      modifies runtime.pieces, c.piece`gridPos
      ensures unchanged(runtime.pieces) && unchanged(c.piece)
      ensures s == LookaheadScore(d, useLookahead, turns.energy - c.option.cost, lookaheadDecay, future)
      ensures |future| <= Max(1, maxFollowupMovesScored)
    {
      runtime.OccupantOnBoard(c.piece);
      s, future := ScoreMoveLookahead(prio, c.piece, c.option);
    }

    /**
     * The inner loop of PickBestByPriority over one tier's candidates: score each with lookahead
     * and keep the first strictly best. The scores are the candidates' lookahead scores, in order;
     * the board is left exactly as it was found.
     */
    method ScoreTier(prio: Priority, list: seq<Candidate>)
      returns (idx: int, bestScore: real, ghost scores: seq<real>, ghost futures: seq<seq<real>>)
      requires runtime.Valid() && AllReady(runtime) && runtime.Consistent() && profile.Some?
      requires forall i :: 0 <= i < |list| ==> list[i].piece in runtime.Occupants() && runtime.InBounds(list[i].option.dest)
      modifies runtime.pieces, runtime.Occupants()`gridPos
      ensures (runtime.pieces != null ==> unchanged(runtime.pieces)) && forall o :: o in old(runtime.Occupants()) ==> unchanged(o)
      ensures runtime.Occupants() == old(runtime.Occupants()) && AllReady(runtime) && runtime.Consistent()
      ensures old(TierScores(list, scores, futures))
      ensures idx == FirstMax(scores) && (0 <= idx ==> bestScore == scores[idx])
    {
      ghost var energy, cap := turns.energy, Max(1, maxFollowupMovesScored);
      ghost var directs := AIModel.ScoreMoves(runtime, profile.value, lastMoved, list);
      idx, bestScore, scores, futures := -1, 0.0, [], [];
      for i := 0 to |list|
        invariant (runtime.pieces != null ==> unchanged(runtime.pieces)) && forall o :: o in old(runtime.Occupants()) ==> o.gridPos == old(o.gridPos)
        invariant |scores| == i && |futures| == i
        invariant ScoredUpTo(list, directs, useLookahead, energy, lookaheadDecay, cap, scores, futures, i)
        invariant idx == FirstMax(scores) && (0 <= idx ==> bestScore == scores[idx])
      {
        GridRestored(runtime);
        var c := list[i];
        assert directs[i] == AIModel.ScoreMove(runtime, profile.value, lastMoved, c.piece, c.option) by {
          ScoreMovesAt(runtime, profile.value, lastMoved, list, i);
        }
        var s;
        ghost var future;
        s, future := ScoreCandidate(prio, c, directs[i]);
        ScoredUpToSnoc(list, directs, useLookahead, energy, lookaheadDecay, cap, scores, futures, i, s, future);
        FirstMaxSnoc(scores, s);
        scores, futures := scores + [s], futures + [future];
        assert idx == -1 || scores[idx] == bestScore;
        if idx == -1 || s > bestScore {
          idx, bestScore := i, s;
        }
      }
      GridRestored(runtime);
    }

    /**
     * The tier loop of AIController.PickBestByPriority: collect the profile's tiers in order and
     * stop at the first one with a candidate; `tier` is the profile's length when every tier is empty.
     */
    method FirstNonEmptyTier() returns (tier: nat, list: seq<Candidate>)
      requires runtime.Valid() && AllReady(runtime) && profile.Some?
      ensures AllReady(runtime) && tier == FirstTierFrom(runtime, turns.energy, profile.value, 0)
      ensures tier < |profile.value.priorities| ==>
        list == Candidates(runtime, turns.energy, profile.value, profile.value.priorities[tier]) && |list| > 0
      ensures forall i :: 0 <= i < |list| ==>
        list[i].piece in runtime.Occupants() && list[i].piece.team == profile.value.team && list[i].piece.data.Some?
        && runtime.InBounds(list[i].option.dest) && list[i].option.cost <= turns.energy
        && Executable(runtime, list[i])
    {
      ghost var first := FirstTierFrom(runtime, turns.energy, profile.value, 0);
      tier, list := 0, [];
      while tier < |profile.value.priorities|
        invariant tier <= first && list == []
        modifies {}
      {
        list := CollectCandidatesForPriority(profile.value.priorities[tier]);
        FirstTierFromUnchanged(runtime, turns.energy, profile.value);
        if |list| > 0 {
          assert tier == first by {
            FirstTierFromSpec(runtime, turns.energy, profile.value, 0);
          }
          forall i | 0 <= i < |list|
            ensures list[i].piece in runtime.Occupants() && list[i].piece.team == profile.value.team
            ensures list[i].piece.data.Some? && runtime.InBounds(list[i].option.dest) && list[i].option.cost <= turns.energy
            ensures Executable(runtime, list[i])
          {
            CandidatesSound(runtime, turns.energy, profile.value, profile.value.priorities[tier], list[i]);
            CandidatesExecutable(runtime, turns.energy, profile.value, profile.value.priorities[tier], list[i]);
          }
          return;
        }
        assert tier < first by {
          FirstTierFromSpec(runtime, turns.energy, profile.value, 0);
        }
        tier := tier + 1;
      }
      FirstTierFromUnchanged(runtime, turns.energy, profile.value);
    }

    /**
     * AIController.PickBestByPriority: go through the profile's tiers in order; the first tier with
     * a candidate is scored and its first best candidate returned, and later tiers are never
     * collected. An empty tier scores nothing and leaves the best unset, so the search goes on.
     * The board is left exactly as it was found.
     */
    method PickBestByPriority() returns (best: Option<Pick>, ghost tier: nat, ghost scores: seq<real>,
                                         ghost futures: seq<seq<real>>)
      requires runtime.Valid() && AllReady(runtime) && runtime.Consistent() && profile.Some?
      modifies runtime.pieces, runtime.Occupants()`gridPos
      ensures (runtime.pieces != null ==> unchanged(runtime.pieces)) && forall o :: o in old(runtime.Occupants()) ==> unchanged(o)
      ensures runtime.Occupants() == old(runtime.Occupants()) && AllReady(runtime) && runtime.Consistent()
      ensures old(allocated(best)) && old(BestPicked(best, tier, scores, futures))
      ensures best.Some? ==>
        var c := best.value.candidate;
        c.piece in runtime.Occupants() && c.piece.team == profile.value.team && c.piece.data.Some?
        && runtime.InBounds(c.option.dest) && c.option.cost <= turns.energy && Executable(runtime, c)
    {
      best, scores, futures := None, [], [];
      var k, list := FirstNonEmptyTier();
      tier := k;
      assert tier == old(FirstTierFrom(runtime, turns.energy, profile.value, 0)) by {
        FirstTierFromUnchanged(runtime, turns.energy, profile.value);
      }
      if k == |profile.value.priorities| {
        return;
      }
      var prio := profile.value.priorities[k];
      assert list == old(Candidates(runtime, turns.energy, profile.value, prio)) by {
        CandidatesUnchanged(runtime, turns.energy, profile.value, prio);
      }
      assert runtime.Occupants() == old(runtime.Occupants());
      ScoreMovesUnchanged(runtime, profile.value, lastMoved, list);
      var idx, score;
      ghost var sc, fu;
      idx, score, sc, fu := ScoreTier(prio, list);
      assert old(TierScores(list, sc, fu));
      best, scores, futures := Some(Pick(list[idx], score)), sc, fu;
    }

    /**
     * The "execute for real" step of RunTurn: TryExecuteMove with the picked candidate, spending
     * energy from `turns`. It succeeds exactly when the cost can be paid and the destination does
     * not hold an ally. Whatever the outcome, no energy is gained, the side to move stays, no
     * piece joins the grid and the board keeps its invariants.
     */
    method ExecutePick(c: Candidate) returns (ok: bool)
      requires runtime.Valid() && AllReady(runtime) && runtime.Consistent()
      requires c.piece in runtime.Occupants() && c.piece.data.Some? && runtime.InBounds(c.option.dest)
      modifies turns, runtime.pieces, c.piece`gridPos, (if runtime.pieces != null then {runtime.GetPiece(c.option.dest)} else {})`hp
      ensures turns.currentTeam == old(turns.currentTeam) && turns.energy <= old(turns.energy)
      ensures ok <==> Max(0, c.option.cost) <= old(turns.energy)
                      && (old(runtime.GetPiece(c.option.dest)) == null || old(runtime.GetPiece(c.option.dest)).team != c.piece.team)
      ensures ok ==> turns.energy == old(turns.energy) - Max(0, c.option.cost)
      ensures AllReady(runtime) && runtime.Consistent() && runtime.Occupants() <= old(runtime.Occupants())
    {
      var piece, dest := c.piece, c.option.dest;
      runtime.OccupantOnBoard(piece);
      assert Ready(runtime, runtime.pieces[piece.gridPos.x, piece.gridPos.y]);
      assert runtime.GetPiece(dest) != null ==> runtime.GetPiece(dest) in runtime.Occupants();
      label before:
      var outcome, trace;
      ok, outcome, trace := TryExecuteMove(piece, dest, c.option.cost, runtime, true, turns);
      ReadyAfterMove@before(runtime, piece, dest);
    }

    /**
     * The head of RunTurn's loop: the best candidate of PickBestByPriority, unless there is none
     * or it scores below the profile's minScoreToAct. The pick it looked at is returned with the
     * facts BestPicked states about it. A candidate returned belongs to the profile's team, stands
     * on the grid, has data, and its destination is on the board; when there is no pick, no tier
     * has a candidate on the board as it is left.
     */
    method ChooseAction() returns (choice: Option<Candidate>, best: Option<Pick>, ghost tier: nat,
                                   ghost scores: seq<real>, ghost futures: seq<seq<real>>)
      requires runtime.Valid() && AllReady(runtime) && runtime.Consistent() && profile.Some?
      modifies runtime.pieces, runtime.Occupants()`gridPos
      ensures runtime.Occupants() == old(runtime.Occupants()) && AllReady(runtime) && runtime.Consistent()
      ensures old(allocated(best)) && old(BestPicked(best, tier, scores, futures))
      ensures choice.None? <==> best.None? || best.value.score < profile.value.minScoreToAct
      ensures choice.Some? ==> choice.value == best.value.candidate
      ensures best.None? ==>
        forall j :: 0 <= j < |profile.value.priorities| ==>
          |Candidates(runtime, turns.energy, profile.value, profile.value.priorities[j])| == 0
      ensures choice.Some? ==>
        var c := choice.value;
        c.piece in runtime.Occupants() && c.piece.team == profile.value.team && c.piece.data.Some?
        && runtime.InBounds(c.option.dest) && c.option.cost <= turns.energy && Executable(runtime, c)
    {
      FirstTierFromSpec(runtime, turns.energy, profile.value, 0);
      best, tier, scores, futures := PickBestByPriority();
      if best.None? {
        assert runtime.pieces == null || unchanged(runtime.pieces);
        forall j | 0 <= j < |profile.value.priorities|
          ensures |Candidates(runtime, turns.energy, profile.value, profile.value.priorities[j])| == 0
        {
          CandidatesUnchanged(runtime, turns.energy, profile.value, profile.value.priorities[j]);
        }
        return None, best, tier, scores, futures;
      }
      if best.value.score < profile.value.minScoreToAct {
        return None, best, tier, scores, futures;
      }
      choice := Some(best.value.candidate);
    }

    /**
     * The loop of AIController.RunTurn without its waits: while it is the profile's turn, energy
     * remains and fewer than maxActionsPerTurn actions were taken, choose an action; stop when
     * there is none; otherwise act, remembering the mover. The source also stops when the move
     * is refused, but no chosen move can be: it is affordable, costs at least one and never
     * lands on an ally (AIModel.CandidatesExecutable), so every action taken succeeds.
     * `actions` counts the moves made, `stop` says why the loop ended and `lastBest` is the
     * pick the last choice looked at. The side to move never changes here.
     */
    method PlayActions() returns (actions: nat, ghost stop: Stop, lastBest: Option<Pick>)
      requires runtime.Valid() && AllReady(runtime) && runtime.Consistent() && profile.Some?
      modifies this`lastMoved, turns, runtime.pieces, runtime.Occupants()`gridPos, runtime.Occupants()`hp
      ensures AllReady(runtime) && runtime.Consistent() && runtime.Occupants() <= old(runtime.Occupants())
      ensures actions <= Max(0, profile.value.maxActionsPerTurn)
      ensures (old(turns.currentTeam) != profile.value.team || old(turns.energy) <= 0
               || profile.value.maxActionsPerTurn <= 0) ==> actions == 0 && stop == Exhausted
      ensures turns.currentTeam == profile.value.team && turns.energy > 0 && actions < profile.value.maxActionsPerTurn ==>
        stop == NoChoice
      ensures stop == NoChoice ==>
        (lastBest.None? && forall j :: 0 <= j < |profile.value.priorities| ==>
                             |Candidates(runtime, turns.energy, profile.value, profile.value.priorities[j])| == 0)
        || (lastBest.Some? && lastBest.value.score < profile.value.minScoreToAct)
      ensures actions > 0 ==> lastMoved in old(runtime.Occupants())
      ensures turns.currentTeam == old(turns.currentTeam) && turns.energy <= old(turns.energy)
      ensures actions == 0 ==> turns.energy == old(turns.energy) && lastMoved == old(lastMoved)
      ensures lastMoved == old(lastMoved) || lastMoved in old(runtime.Occupants())
    {
      var team := profile.value.team;
      actions, stop, lastBest := 0, Exhausted, None;
      while turns.currentTeam == team && turns.energy > 0 && actions < profile.value.maxActionsPerTurn
        invariant AllReady(runtime) && runtime.Consistent() && runtime.Occupants() <= old(runtime.Occupants())
        invariant actions <= Max(0, profile.value.maxActionsPerTurn)
        invariant actions == 0 || (old(turns.currentTeam) == team && old(turns.energy) > 0 && profile.value.maxActionsPerTurn > 0)
        invariant turns.currentTeam == old(turns.currentTeam) && turns.energy <= old(turns.energy)
        invariant actions == 0 ==> turns.energy == old(turns.energy) && lastMoved == old(lastMoved)
        invariant lastMoved == old(lastMoved) || lastMoved in old(runtime.Occupants())
        invariant actions > 0 ==> lastMoved in old(runtime.Occupants())
        decreases profile.value.maxActionsPerTurn - actions
      {
        var choice;
        ghost var tier, scores, futures;
        choice, lastBest, tier, scores, futures := ChooseAction();
        if choice.None? {
          stop := NoChoice;
          return;
        }
        var c := choice.value;
        var ok := ExecutePick(c);
        actions := actions + 1;
        if ok {
          lastMoved := c.piece;
        }
        // the source's `if (!ok) break;` never fires
        assert ok;
      }
    }

    /**
     * AIController.RunTurn: forget the last mover, play the actions, and end the turn if it is
     * still the profile's. A turn that was the profile's passes to the other team with full
     * energy; otherwise nothing is played and the turn state is left alone.
     */
    method RunTurn() returns (actions: nat)
      requires runtime.Valid() && AllReady(runtime) && runtime.Consistent() && profile.Some?
      modifies this`lastMoved, turns, runtime.pieces, runtime.Occupants()`gridPos, runtime.Occupants()`hp
      ensures actions <= Max(0, profile.value.maxActionsPerTurn)
      ensures (old(turns.currentTeam) != profile.value.team || old(turns.energy) <= 0
               || profile.value.maxActionsPerTurn <= 0) ==> actions == 0
      ensures old(turns.currentTeam) == profile.value.team ==>
        turns.currentTeam == NextTeam(profile.value.team) && turns.energy == turns.maxEnergyPerTurn
      ensures old(turns.currentTeam) != profile.value.team ==>
        turns.currentTeam == old(turns.currentTeam) && turns.energy == old(turns.energy) && lastMoved == null
      ensures lastMoved == null || lastMoved in old(runtime.Occupants())
      ensures AllReady(runtime) && runtime.Consistent()
    {
      lastMoved := null;
      ghost var stop;
      var lastBest;
      actions, stop, lastBest := PlayActions();
      if turns.currentTeam == profile.value.team {
        turns.EndTurn();
      }
    }

    /**
     * AIController.HandleTurnStarted: without a profile nothing happens; a turn of the other team
     * is ignored; a turn of the profile's team is played by RunTurn.
     */
    method HandleTurnStarted(team: Team) returns (actions: nat)
      requires runtime.Valid() && AllReady(runtime) && runtime.Consistent()
      modifies this`lastMoved, turns, runtime.pieces, runtime.Occupants()`gridPos, runtime.Occupants()`hp
      ensures (profile.None? || team != profile.value.team) ==>
        actions == 0 && turns.currentTeam == old(turns.currentTeam) && turns.energy == old(turns.energy)
        && lastMoved == old(lastMoved)
      ensures profile.Some? && team == profile.value.team && old(turns.currentTeam) == team ==>
        turns.currentTeam == NextTeam(team) && turns.energy == turns.maxEnergyPerTurn
        && actions <= Max(0, profile.value.maxActionsPerTurn)
      ensures AllReady(runtime) && runtime.Consistent()
    {
      actions := 0;
      if profile.None? {
        return;
      }
      if team != profile.value.team {
        return;
      }
      actions := RunTurn();
    }
  }
}

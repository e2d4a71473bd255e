/**
 * The decisions of AI/AIController.cs as functions of the board: which moves enter each priority
 * tier, how a move is scored (without the random noise), which follow-ups the one-step lookahead
 * scores, which candidate wins a tier, which tier is used, and where a simulated move puts the
 * attacker.
 */
module AIModel {
  import opened Wrappers
  import opened Geometry
  import opened Pieces
  import opened Board
  import opened MoveGenerator
  import opened Personality
  import opened BoardScan

  /** AIController.Candidate without its score: a piece and one of its move options. */
  datatype Candidate = Candidate(piece: Piece, option: MoveOption)

  /** AIController.IsEnemy. */
  predicate IsEnemy(target: Piece?, self: Piece) {
    target != null && target.team != self.team
  }

  /** The larger of two reals (Mathf.Max on floats). */
  function RMax(a: real, b: real): real {
    if a < b then b else a
  }

  /** Health `hp` out of `maxHP` (taken as at least 1) is at or below the fraction `pct`. */
  predicate LowHealth(hp: int, maxHP: int, pct: real) {
    (hp as real) / RMax(1.0, maxHP as real) <= pct
  }

  /** AIController.ShouldRetreat: health at or below the threshold fraction, or enough threats. */
  predicate ShouldRetreat(b: BoardRuntime, profile: Profile, p: Piece)
    requires b.Valid() && AllReady(b)
    reads b.pieces, b.Occupants(), p
  {
    LowHealth(p.hp, p.maxHP, profile.lowHPPercent)
    || Threats(b, p.gridPos, p.team) >= profile.threatRetreatThreshold
  }

  /** Approach tier: an empty destination strictly closer (Manhattan) to the nearest enemy. */
  predicate Approaches(b: BoardRuntime, p: Piece, opt: MoveOption)
    requires b.Valid() && AllReady(b)
    reads b.pieces, b.Occupants(), p
  {
    var nearest := (ScanOnBoard(b, p.team, false); Nearest(p.gridPos, Scan(b, p.team, false)));
    b.GetPiece(opt.dest) == null && nearest.Some?
    && Manhattan(opt.dest, nearest.value) < Manhattan(p.gridPos, nearest.value)
  }

  /**
   * Retreat tier: an empty destination, a piece that should retreat, and a move that either lowers
   * the number of enemies threatening it or takes it farther from the nearest enemy.
   */
  predicate Retreats(b: BoardRuntime, profile: Profile, p: Piece, opt: MoveOption)
    requires b.Valid() && AllReady(b)
    reads b.pieces, b.Occupants(), p
  {
    var nearest := (ScanOnBoard(b, p.team, false); Nearest(p.gridPos, Scan(b, p.team, false)));
    b.GetPiece(opt.dest) == null && ShouldRetreat(b, profile, p)
    && (Threats(b, opt.dest, p.team) < Threats(b, p.gridPos, p.team)
        || (nearest.Some? && Manhattan(opt.dest, nearest.value) > Manhattan(p.gridPos, nearest.value)))
  }

  /** The body of CollectCandidatesForPriority's inner loop: does option `opt` of `p` enter tier `prio`? */
  predicate Qualifies(b: BoardRuntime, energy: int, profile: Profile, prio: Priority, p: Piece, opt: MoveOption)
    requires b.Valid() && AllReady(b)
    reads b.pieces, b.Occupants(), p
  {
    var target := b.GetPiece(opt.dest);
    b.InBounds(opt.dest) && opt.cost <= energy
    && match prio
       case LethalCapture => IsEnemy(target, p) && target.hp - p.attack <= 0
       case Capture => IsEnemy(target, p)
       case Approach => Approaches(b, p, opt)
       case Retreat => Retreats(b, profile, p, opt)
  }

  /**
   * Frame facts: the tier tests give the same answers after a step that left the grid array, the
   * pieces on it and the moving piece as they were. Every parameter is marked `new`; the
   * `old(allocated(..))` requirements give back the usual meaning of a two-state lemma.
   */
  twostate lemma ShouldRetreatUnchanged(new b: BoardRuntime, new profile: Profile, new p: Piece)
    requires old(allocated(b)) && old(allocated(p)) && b.Valid() && old(AllReady(b))
    requires b.pieces == null || unchanged(b.pieces)
    requires (forall o :: o in b.Occupants() ==> unchanged(o)) && unchanged(p)
    ensures AllReady(b)
    ensures ShouldRetreat(b, profile, p) == old(ShouldRetreat(b, profile, p))
  {
    assert b.Occupants() == old(b.Occupants());
    assert Scan(b, p.team, false) == old(Scan(b, p.team, false));
  }

  twostate lemma ApproachesUnchanged(new b: BoardRuntime, new p: Piece, new opt: MoveOption)
    requires old(allocated(b)) && old(allocated(p)) && b.Valid() && old(AllReady(b))
    requires b.pieces == null || unchanged(b.pieces)
    requires (forall o :: o in b.Occupants() ==> unchanged(o)) && unchanged(p)
    ensures AllReady(b)
    ensures Approaches(b, p, opt) == old(Approaches(b, p, opt))
  {
    assert b.Occupants() == old(b.Occupants());
    assert Scan(b, p.team, false) == old(Scan(b, p.team, false));
    ScanMembers(b, p.team, false);
  }

  twostate lemma RetreatsUnchanged(new b: BoardRuntime, new profile: Profile, new p: Piece, new opt: MoveOption)
    requires old(allocated(b)) && old(allocated(p)) && b.Valid() && old(AllReady(b))
    requires b.pieces == null || unchanged(b.pieces)
    requires (forall o :: o in b.Occupants() ==> unchanged(o)) && unchanged(p)
    ensures AllReady(b)
    ensures Retreats(b, profile, p, opt) == old(Retreats(b, profile, p, opt))
  {
    assert b.Occupants() == old(b.Occupants());
    assert Scan(b, p.team, false) == old(Scan(b, p.team, false));
    ScanMembers(b, p.team, false);
  }

  twostate lemma QualifiesUnchanged(new b: BoardRuntime, new energy: int, new profile: Profile, new prio: Priority,
                                    new p: Piece, new opt: MoveOption)
    requires old(allocated(b)) && old(allocated(p)) && b.Valid() && old(AllReady(b))
    requires b.pieces == null || unchanged(b.pieces)
    requires (forall o :: o in b.Occupants() ==> unchanged(o)) && unchanged(p)
    ensures AllReady(b)
    ensures Qualifies(b, energy, profile, prio, p, opt) == old(Qualifies(b, energy, profile, prio, p, opt))
  {
    assert b.Occupants() == old(b.Occupants());
    assert Scan(b, p.team, false) == old(Scan(b, p.team, false));
    ScanMembers(b, p.team, false);
  }

  /**
   * The inner loop of CollectCandidatesForPriority over one piece: the options of `opts`, in order,
   * that pass tier `prio`.
   */
  function Passing(b: BoardRuntime, energy: int, profile: Profile, prio: Priority, p: Piece, opts: seq<MoveOption>): seq<Candidate>
    requires b.Valid() && AllReady(b)
    reads b.pieces, b.Occupants(), p
  {
    if |opts| == 0 then []
    else
      var n := |opts| - 1;
      Passing(b, energy, profile, prio, p, opts[..n])
      + if Qualifies(b, energy, profile, prio, p, opts[n]) then [Candidate(p, opts[n])] else []
  }

  /** A candidate is kept for a piece exactly when it is one of its options and passes the tier. */
  lemma {:induction false} PassingSpec(b: BoardRuntime, energy: int, profile: Profile, prio: Priority, p: Piece, opts: seq<MoveOption>)
    requires b.Valid() && AllReady(b)
    ensures forall c {:trigger c in Passing(b, energy, profile, prio, p, opts)} ::
      c in Passing(b, energy, profile, prio, p, opts) <==>
      c.piece == p && c.option in opts && Qualifies(b, energy, profile, prio, p, c.option)
  {
    if |opts| > 0 {
      var n := |opts| - 1;
      PassingSpec(b, energy, profile, prio, p, opts[..n]);
      assert opts == opts[..n] + [opts[n]];
    }
  }

  /** The candidates of the pieces of `ps`, piece after piece. */
  function CandidatesOf(b: BoardRuntime, energy: int, profile: Profile, prio: Priority, ps: seq<Piece>): seq<Candidate>
    requires b.Valid() && AllReady(b) && forall i :: 0 <= i < |ps| ==> Ready(b, ps[i])
    reads b.pieces, b.Occupants(), ps
  {
    if |ps| == 0 then []
    else
      var n := |ps| - 1;
      CandidatesOf(b, energy, profile, prio, ps[..n]) + Passing(b, energy, profile, prio, ps[n], Moves(b, ps[n]))
  }

  /** A candidate of the pieces is one of their options that passes the tier, and every such option is one. */
  lemma {:induction false} CandidatesOfSpec(b: BoardRuntime, energy: int, profile: Profile, prio: Priority, ps: seq<Piece>)
    requires b.Valid() && AllReady(b) && forall i :: 0 <= i < |ps| ==> Ready(b, ps[i])
    ensures forall c {:trigger c in CandidatesOf(b, energy, profile, prio, ps)} ::
      c in CandidatesOf(b, energy, profile, prio, ps) <==>
      c.piece in ps && c.option in Moves(b, c.piece) && Qualifies(b, energy, profile, prio, c.piece, c.option)
  {
    if |ps| > 0 {
      var n := |ps| - 1;
      CandidatesOfSpec(b, energy, profile, prio, ps[..n]);
      PassingSpec(b, energy, profile, prio, ps[n], Moves(b, ps[n]));
      assert ps == ps[..n] + [ps[n]];
    }
  }

  /** AIController.CollectCandidatesForPriority: the options of the AI's pieces (scan order) that pass the tier. */
  function Candidates(b: BoardRuntime, energy: int, profile: Profile, prio: Priority): seq<Candidate>
    requires b.Valid() && AllReady(b)
    reads b.pieces, b.Occupants()
  {
    ScanReady(b, profile.team, true);
    CandidatesOf(b, energy, profile, prio, Scan(b, profile.team, true))
  }

  twostate lemma PassingUnchanged(new b: BoardRuntime, new energy: int, new profile: Profile, new prio: Priority,
                                  new p: Piece, new opts: seq<MoveOption>)
    requires old(allocated(b)) && old(allocated(p)) && b.Valid() && old(AllReady(b))
    requires b.pieces == null || unchanged(b.pieces)
    requires (forall o :: o in b.Occupants() ==> unchanged(o)) && unchanged(p)
    ensures AllReady(b)
    ensures Passing(b, energy, profile, prio, p, opts) == old(Passing(b, energy, profile, prio, p, opts))
  {
    assert b.Occupants() == old(b.Occupants());
  }

  twostate lemma CandidatesUnchanged(new b: BoardRuntime, new energy: int, new profile: Profile, new prio: Priority)
    requires old(allocated(b)) && b.Valid() && old(AllReady(b))
    requires (b.pieces == null || unchanged(b.pieces)) && forall o :: o in b.Occupants() ==> unchanged(o)
    ensures AllReady(b)
    ensures Candidates(b, energy, profile, prio) == old(Candidates(b, energy, profile, prio))
  {
    assert b.Occupants() == old(b.Occupants());
    assert Scan(b, profile.team, true) == old(Scan(b, profile.team, true));
  }

  twostate lemma FirstTierFromUnchanged(new b: BoardRuntime, new energy: int, new profile: Profile)
    requires old(allocated(b)) && b.Valid() && old(AllReady(b))
    requires (b.pieces == null || unchanged(b.pieces)) && forall o :: o in b.Occupants() ==> unchanged(o)
    ensures AllReady(b)
    ensures FirstTierFrom(b, energy, profile, 0) == old(FirstTierFrom(b, energy, profile, 0))
  {
    assert b.Occupants() == old(b.Occupants());
  }

  /** Every candidate of a tier moves a piece that stands on the grid. */
  lemma CandidatesOnBoard(b: BoardRuntime, energy: int, profile: Profile, prio: Priority)
    requires b.Valid() && AllReady(b)
    ensures var cs := Candidates(b, energy, profile, prio); forall i :: 0 <= i < |cs| ==> cs[i].piece in b.Occupants()
  {
    var cs := Candidates(b, energy, profile, prio);
    forall i | 0 <= i < |cs|
      ensures cs[i].piece in b.Occupants()
    {
      CandidatesSound(b, energy, profile, prio, cs[i]);
    }
  }

  /**
   * Every candidate of a tier is an option generated for one of the AI's own pieces that passes the
   * tier's test; in particular it is on the board and affordable with the energy left.
   */
  lemma CandidatesSound(b: BoardRuntime, energy: int, profile: Profile, prio: Priority, c: Candidate)
    requires b.Valid() && AllReady(b) && c in Candidates(b, energy, profile, prio)
    ensures c.piece in Scan(b, profile.team, true) && c.piece in b.Occupants() && c.piece.team == profile.team
    ensures Ready(b, c.piece) && c.option in Moves(b, c.piece) && c.piece.data.Some?
    ensures Qualifies(b, energy, profile, prio, c.piece, c.option)
    ensures b.InBounds(c.option.dest) && c.option.cost <= energy
  {
    var own := Scan(b, profile.team, true);
    ScanReady(b, profile.team, true);
    ScanMembers(b, profile.team, true);
    CandidatesOfSpec(b, energy, profile, prio, own);
    assert c in CandidatesOf(b, energy, profile, prio, own);
    var i :| 0 <= i < |own| && own[i] == c.piece;
    assert Picked(own[i], profile.team, true);
  }
  /**
   * A candidate MoveResolver.TryExecuteMove carries out once its cost is paid: it costs at least
   * one, and its destination is empty or holds an enemy, never an ally.
   */
  predicate Executable(b: BoardRuntime, c: Candidate)
    requires b.Valid()
    reads b.pieces
  {
    1 <= c.option.cost && (b.GetPiece(c.option.dest) == null || b.GetPiece(c.option.dest).team != c.piece.team)
  }

  /** Every candidate is executable: the move generator never offers a cell an ally stands on. */
  lemma CandidatesExecutable(b: BoardRuntime, energy: int, profile: Profile, prio: Priority, c: Candidate)
    requires b.Valid() && AllReady(b) && c in Candidates(b, energy, profile, prio)
    ensures Executable(b, c)
  {
    CandidatesSound(b, energy, profile, prio, c);
    var m := Moves(b, c.piece);
    MovesSpec(b, c.piece);
    var k :| 0 <= k < |m| && m[k] == c.option;
    assert Dests(m)[k] == c.option.dest;
  }


  /** Every option generated for one of the AI's own pieces that passes the tier's test is a candidate. */
  lemma CandidatesComplete(b: BoardRuntime, energy: int, profile: Profile, prio: Priority)
    requires b.Valid() && AllReady(b)
    ensures var own := Scan(b, profile.team, true);
      forall p, opt ::
        (p in own && (ScanReady(b, profile.team, true); opt in Moves(b, p))
         && Qualifies(b, energy, profile, prio, p, opt))
        ==> Candidate(p, opt) in Candidates(b, energy, profile, prio)
  {
    ScanReady(b, profile.team, true);
    CandidatesOfSpec(b, energy, profile, prio, Scan(b, profile.team, true));
  }

  /** The tiers nest: every lethal-capture candidate is also a capture candidate. */
  lemma LethalIsCapture(b: BoardRuntime, energy: int, profile: Profile)
    requires b.Valid() && AllReady(b)
    ensures forall c :: c in Candidates(b, energy, profile, LethalCapture) ==> c in Candidates(b, energy, profile, Capture)
  {
    CandidatesComplete(b, energy, profile, Capture);
    forall c | c in Candidates(b, energy, profile, LethalCapture)
      ensures c in Candidates(b, energy, profile, Capture)
    {
      CandidatesSound(b, energy, profile, LethalCapture, c);
    }
  }

  /**
   * The tier tests as the candidates meet them: a capture targets an enemy, and a lethal one an
   * enemy whose health does not exceed the mover's attack; an approach moves to an empty cell
   * strictly nearer (in Manhattan distance) to the mover's nearest enemy; a retreat moves a piece
   * that should retreat to an empty cell that is less threatened or farther from that enemy.
   */
  lemma TierTests(b: BoardRuntime, energy: int, profile: Profile, prio: Priority, c: Candidate)
    requires b.Valid() && AllReady(b)
    requires c in Candidates(b, energy, profile, prio)
    ensures var target := b.GetPiece(c.option.dest);
      var nearest := Nearest(c.piece.gridPos, Scan(b, c.piece.team, false));
      b.InBounds(c.option.dest) && c.option.cost <= energy && c.piece.team == profile.team
      && (prio == LethalCapture ==> IsEnemy(target, c.piece) && target.hp <= c.piece.attack)
      && (prio == Capture ==> IsEnemy(target, c.piece))
      && (prio == Approach ==>
            target == null && nearest.Some?
            && Manhattan(c.option.dest, nearest.value) < Manhattan(c.piece.gridPos, nearest.value))
      && (prio == Retreat ==>
            target == null && ShouldRetreat(b, profile, c.piece)
            && (Threats(b, c.option.dest, c.piece.team) < Threats(b, c.piece.gridPos, c.piece.team)
                || (nearest.Some? && Manhattan(c.option.dest, nearest.value) > Manhattan(c.piece.gridPos, nearest.value))))
  {
    CandidatesSound(b, energy, profile, prio, c);
  }

  /** AIController.GetPieceValue: twice the attack plus the maximum health. */
  function PieceValue(p: Piece): real
    reads p
  {
    (p.attack as real) * 2.0 + (p.maxHP as real)
  }

  /**
   * The first part of AIController.ScoreMove: for an attack, the kill reward or the damage dealt,
   * plus (all or half of) the target's value; otherwise the gain in Manhattan distance to the
   * nearest enemy and the stride per energy spent.
   */
  function Gain(b: BoardRuntime, profile: Profile, attacker: Piece, opt: MoveOption): real
    requires b.Valid() && AllReady(b)
    reads b.pieces, b.Occupants(), attacker
  {
    var target := b.GetPiece(opt.dest);
    if target != null && target.team != attacker.team then
      AttackReward(profile, Max(0, target.hp - attacker.attack) <= 0, attacker.attack, PieceValue(target))
    else
      var nearest := (ScanOnBoard(b, attacker.team, false); Nearest(attacker.gridPos, Scan(b, attacker.team, false)));
      MoveReward(profile, nearest, attacker.gridPos, opt)
  }

  /** The reward for attacking a target of the given value: a kill, or the damage dealt and half the value. */
  function AttackReward(profile: Profile, lethal: bool, attack: int, value: real): real {
    if lethal then profile.wLethalCapture + value * profile.wTargetValue
    else (attack as real) * profile.wCaptureDamage + value * profile.wTargetValue * 0.5
  }

  /** The reward for a move onto a cell without an enemy: closing in on the nearest enemy, and stride per energy. */
  function MoveReward(profile: Profile, nearest: Option<Coord>, from: Coord, opt: MoveOption): real {
    var approach :=
      if nearest.Some? then ((Manhattan(from, nearest.value) - Manhattan(opt.dest, nearest.value)) as real) * profile.wCloseDistance
      else 0.0;
    approach + (Chebyshev(from, opt.dest) as real) / RMax(1.0, opt.cost as real) * profile.wStride
  }

  /**
   * AIController.ScoreMove without the noise term: the gain, less the threats at the destination,
   * the energy cost, and a penalty for moving the piece that moved last.
   */
  function ScoreMove(b: BoardRuntime, profile: Profile, last: Piece?, attacker: Piece, opt: MoveOption): real
    requires b.Valid() && AllReady(b)
    reads b.pieces, b.Occupants(), attacker
  {
    Penalized(profile, Gain(b, profile, attacker, opt), Threats(b, opt.dest, attacker.team), opt.cost,
              last != null && attacker == last)
  }

  /** The end of ScoreMove: a gain less the threat, energy and repeat penalties. */
  function Penalized(profile: Profile, gain: real, threats: int, cost: int, repeat: bool): real {
    gain
    - (threats as real) * profile.wThreatPenalty
    - (cost as real) * profile.wEnergyCost
    - if repeat then profile.wRepeat else 0.0
  }

  /** Moving the piece that moved last costs exactly the repeat weight, and nothing else changes. */
  lemma RepeatPenalty(b: BoardRuntime, profile: Profile, attacker: Piece, other: Piece?, opt: MoveOption)
    requires b.Valid() && AllReady(b)
    requires other != attacker
    ensures ScoreMove(b, profile, attacker, attacker, opt) == ScoreMove(b, profile, other, attacker, opt) - profile.wRepeat
  {
  }

  /** The follow-ups the lookahead may score: on the board and affordable with what is left, in order. */
  function Eligible(b: BoardRuntime, fs: seq<MoveOption>, remaining: int): seq<MoveOption> {
    if |fs| == 0 then []
    else
      var f := fs[|fs| - 1];
      Eligible(b, fs[..|fs| - 1], remaining) + if b.InBounds(f.dest) && f.cost <= remaining then [f] else []
  }

  /** A follow-up is eligible exactly when it is one of the list's, on the board and affordable. */
  lemma {:induction false} EligibleSpec(b: BoardRuntime, fs: seq<MoveOption>, remaining: int)
    ensures |Eligible(b, fs, remaining)| <= |fs|
    ensures forall f :: f in Eligible(b, fs, remaining) <==> f in fs && b.InBounds(f.dest) && f.cost <= remaining
  {
    if |fs| > 0 {
      var n := |fs| - 1;
      EligibleSpec(b, fs[..n], remaining);
      assert fs == fs[..n] + [fs[n]];
    }
  }

  /** The eligible follow-ups of a prefix are a prefix of the eligible follow-ups. */
  lemma {:induction false} EligiblePrefix(b: BoardRuntime, fs: seq<MoveOption>, remaining: int, j: int)
    requires 0 <= j <= |fs|
    ensures |Eligible(b, fs[..j], remaining)| <= |Eligible(b, fs, remaining)|
    ensures Eligible(b, fs[..j], remaining) == Eligible(b, fs, remaining)[..|Eligible(b, fs[..j], remaining)|]
  {
    if j == |fs| {
      assert fs[..j] == fs;
    } else {
      var f0 := fs[..|fs| - 1];
      EligiblePrefix(b, f0, remaining, j);
      assert f0[..j] == fs[..j];
    }
  }

  /**
   * The follow-ups ScoreMoveLookahead scores: the eligible ones up to the cap. The counter is
   * checked after a follow-up is scored, so at least one is scored even when the cap is below 1.
   */
  function Scored(b: BoardRuntime, fs: seq<MoveOption>, remaining: int, cap: int): seq<MoveOption> {
    var e := Eligible(b, fs, remaining);
    e[..Min(|e|, Max(1, cap))]
  }

  /** Extending the follow-up list by one extends the eligible ones by it exactly when it is eligible. */
  lemma EligibleSnoc(b: BoardRuntime, fs: seq<MoveOption>, remaining: int, i: int)
    requires 0 <= i < |fs|
    ensures var e := Eligible(b, fs[..i], remaining);
      Eligible(b, fs[..i + 1], remaining)
      == if b.InBounds(fs[i].dest) && fs[i].cost <= remaining then e + [fs[i]] else e
  {
    assert fs[..i + 1][..i] == fs[..i];
  }

  /**
   * Once the eligible follow-ups of a prefix reach the cap (or one, for a cap below one), they are
   * exactly the ones scored; a list that never reaches it is scored whole.
   */
  lemma ScoredPrefix(b: BoardRuntime, fs: seq<MoveOption>, remaining: int, cap: int, j: int)
    requires 0 <= j <= |fs|
    ensures |Eligible(b, fs[..j], remaining)| == Max(1, cap) ==> Scored(b, fs, remaining, cap) == Eligible(b, fs[..j], remaining)
    ensures j == |fs| && |Eligible(b, fs[..j], remaining)| < Max(1, cap) ==> Scored(b, fs, remaining, cap) == Eligible(b, fs[..j], remaining)
  {
    EligiblePrefix(b, fs, remaining, j);
    if j == |fs| {
      assert fs[..j] == fs;
    }
  }

  /** The running best of the lookahead loop, over the scores in order: it starts at zero and keeps any larger score. */
  function BestOf(s: seq<real>): (r: real)
    ensures r >= 0.0
  {
    if |s| == 0 then 0.0
    else
      var prev := BestOf(s[..|s| - 1]);
      if s[|s| - 1] > prev then s[|s| - 1] else prev
  }

  /** The running best bounds every score and is zero or one of them. */
  lemma {:induction false} BestOfSpec(s: seq<real>)
    ensures forall k :: 0 <= k < |s| ==> s[k] <= BestOf(s)
    ensures BestOf(s) == 0.0 || exists k :: 0 <= k < |s| && BestOf(s) == s[k]
  {
    if |s| > 0 {
      var s0 := s[..|s| - 1];
      BestOfSpec(s0);
      forall k | 0 <= k < |s0|
        ensures s[k] == s0[k]
      {
      }
    }
  }

  /**
   * ScoreMoveLookahead's result from the direct score: when lookahead is on and energy would remain,
   * the direct score plus the decayed running best of the follow-up scores; otherwise the direct score.
   */
  function LookaheadScore(direct: real, on: bool, remaining: int, decay: real, future: seq<real>): real {
    if on && remaining > 0 then direct + decay * BestOf(future) else direct
  }

  /**
   * Candidate by candidate, the first `n` of `scores` are the lookahead scores built from the
   * direct scores `directs` and the follow-up scores `futures`, each future at most `cap` long,
   * with `energy` the energy before the candidate's cost is spent. Stated one candidate at a
   * time, in the order they are scored; ScoredUpToSpec states it position by position.
   */
  ghost predicate ScoredUpTo(cs: seq<Candidate>, directs: seq<real>, on: bool, energy: int, decay: real, cap: int,
                             scores: seq<real>, futures: seq<seq<real>>, n: nat)
  {
    n <= |cs| && n <= |directs| && n <= |scores| && n <= |futures|
    && (n == 0 ||
        (ScoredUpTo(cs, directs, on, energy, decay, cap, scores, futures, n - 1)
         && scores[n - 1] == LookaheadScore(directs[n - 1], on, energy - cs[n - 1].option.cost, decay, futures[n - 1])
         && |futures[n - 1]| <= cap))
  }

  /** ScoredUpTo holds exactly when each of the first `n` positions holds its candidate's lookahead score. */
  lemma {:induction false} ScoredUpToSpec(cs: seq<Candidate>, directs: seq<real>, on: bool, energy: int, decay: real,
                                          cap: int, scores: seq<real>, futures: seq<seq<real>>, n: nat)
    ensures ScoredUpTo(cs, directs, on, energy, decay, cap, scores, futures, n) <==>
      n <= |cs| && n <= |directs| && n <= |scores| && n <= |futures|
      && forall k :: 0 <= k < n ==>
           scores[k] == LookaheadScore(directs[k], on, energy - cs[k].option.cost, decay, futures[k])
           && |futures[k]| <= cap
  {
    if n > 0 {
      ScoredUpToSpec(cs, directs, on, energy, decay, cap, scores, futures, n - 1);
    }
  }

  /** The lookahead scores of a whole list of candidates: one per candidate, in order. */
  ghost predicate Lookaheads(cs: seq<Candidate>, directs: seq<real>, on: bool, energy: int, decay: real, cap: int,
                             scores: seq<real>, futures: seq<seq<real>>)
  {
    |directs| == |cs| && |scores| == |cs| && |futures| == |cs|
    && ScoredUpTo(cs, directs, on, energy, decay, cap, scores, futures, |cs|)
  }

  /** Lookaheads holds exactly when every position holds its candidate's lookahead score. */
  lemma LookaheadsSpec(cs: seq<Candidate>, directs: seq<real>, on: bool, energy: int, decay: real,
                       cap: int, scores: seq<real>, futures: seq<seq<real>>)
    ensures Lookaheads(cs, directs, on, energy, decay, cap, scores, futures) <==>
      |directs| == |cs| && |scores| == |cs| && |futures| == |cs|
      && forall k :: 0 <= k < |cs| ==>
           scores[k] == LookaheadScore(directs[k], on, energy - cs[k].option.cost, decay, futures[k])
           && |futures[k]| <= cap
  {
    ScoredUpToSpec(cs, directs, on, energy, decay, cap, scores, futures, |cs|);
  }

  /** Scoring the next candidate `cs[i]` extends the lookahead scores by its own. */
  lemma ScoredUpToSnoc(cs: seq<Candidate>, directs: seq<real>, on: bool, energy: int, decay: real, cap: int,
                       scores: seq<real>, futures: seq<seq<real>>, i: nat, s: real, f: seq<real>)
    requires i < |cs| && i < |directs| && |scores| == i && |futures| == i
    requires ScoredUpTo(cs, directs, on, energy, decay, cap, scores, futures, i)
    requires s == LookaheadScore(directs[i], on, energy - cs[i].option.cost, decay, f) && |f| <= cap
    ensures ScoredUpTo(cs, directs, on, energy, decay, cap, scores + [s], futures + [f], i + 1)
  {
    ScoredUpToSpec(cs, directs, on, energy, decay, cap, scores, futures, i);
    ScoredUpToSpec(cs, directs, on, energy, decay, cap, scores + [s], futures + [f], i + 1);
  }

  /**
   * With a non-negative decay the lookahead never lowers a move's score, and it raises it by at
   * most the decayed best follow-up score, which is at least every follow-up's score.
   */
  lemma LookaheadBounds(direct: real, on: bool, remaining: int, decay: real, future: seq<real>)
    requires decay >= 0.0
    ensures direct <= LookaheadScore(direct, on, remaining, decay, future)
    ensures on && remaining > 0 ==>
      forall k :: 0 <= k < |future| ==> direct + decay * future[k] <= LookaheadScore(direct, on, remaining, decay, future)
  {
    BestOfSpec(future);
    if on && remaining > 0 {
      forall k | 0 <= k < |future|
        ensures decay * future[k] <= decay * BestOf(future)
      {
        MulMonotone(decay, future[k], BestOf(future));
      }
    }
  }

  lemma MulMonotone(c: real, a: real, b: real)
    requires c >= 0.0 && a <= b
    ensures c * a <= c * b
  {
    assert c * b - c * a == c * (b - a);
  }

  /** The scores of the follow-ups `fs`, in order. */
  function Scores(b: BoardRuntime, profile: Profile, last: Piece?, attacker: Piece, fs: seq<MoveOption>): seq<real>
    requires b.Valid() && AllReady(b)
    reads b.pieces, b.Occupants(), attacker
  {
    if |fs| == 0 then []
    else Scores(b, profile, last, attacker, fs[..|fs| - 1]) + [ScoreMove(b, profile, last, attacker, fs[|fs| - 1])]
  }

  /** Each follow-up's score stands at its position. */
  lemma {:induction false} ScoresSpec(b: BoardRuntime, profile: Profile, last: Piece?, attacker: Piece, fs: seq<MoveOption>)
    requires b.Valid() && AllReady(b)
    ensures var r := Scores(b, profile, last, attacker, fs);
      |r| == |fs| && forall k :: 0 <= k < |fs| ==> r[k] == ScoreMove(b, profile, last, attacker, fs[k])
  {
    if |fs| > 0 {
      ScoresSpec(b, profile, last, attacker, fs[..|fs| - 1]);
    }
  }

  /** The best follow-up score of ScoreMoveLookahead: the running best of the follow-ups' scores. */
  function BestScore(b: BoardRuntime, profile: Profile, last: Piece?, attacker: Piece, fs: seq<MoveOption>): real
    requires b.Valid() && AllReady(b)
    reads b.pieces, b.Occupants(), attacker
  {
    BestOf(Scores(b, profile, last, attacker, fs))
  }

  /** One more follow-up raises the best score to its own score exactly when that is larger. */
  lemma BestScoreSnoc(b: BoardRuntime, profile: Profile, last: Piece?, attacker: Piece, fs: seq<MoveOption>, f: MoveOption)
    requires b.Valid() && AllReady(b)
    ensures var prev := BestScore(b, profile, last, attacker, fs);
      var s := ScoreMove(b, profile, last, attacker, f);
      BestScore(b, profile, last, attacker, fs + [f]) == if s > prev then s else prev
  {
    assert (fs + [f])[..|fs|] == fs;
    var sc := Scores(b, profile, last, attacker, fs);
    assert (sc + [ScoreMove(b, profile, last, attacker, f)])[..|sc|] == sc;
  }

  /** The best follow-up score bounds every follow-up's score and is zero or one of them. */
  lemma BestScoreSpec(b: BoardRuntime, profile: Profile, last: Piece?, attacker: Piece, fs: seq<MoveOption>)
    requires b.Valid() && AllReady(b)
    ensures var r := BestScore(b, profile, last, attacker, fs);
      r >= 0.0
      && (forall k :: 0 <= k < |fs| ==> ScoreMove(b, profile, last, attacker, fs[k]) <= r)
      && (r == 0.0 || exists k :: 0 <= k < |fs| && r == ScoreMove(b, profile, last, attacker, fs[k]))
  {
    ScoresSpec(b, profile, last, attacker, fs);
    BestOfSpec(Scores(b, profile, last, attacker, fs));
  }

  /**
   * The scores the lookahead's follow-up loop takes for `attacker` where it stands: ScoreMove of
   * each of its generated moves that the loop counts (Scored), in order.
   */
  ghost function FollowupScores(b: BoardRuntime, profile: Profile, last: Piece?, attacker: Piece, remaining: int, cap: int): seq<real>
    requires b.Valid() && AllReady(b) && b.OnBoard(attacker)
    reads b.pieces, b.Occupants(), attacker
  {
    assert Ready(b, b.pieces[attacker.gridPos.x, attacker.gridPos.y]);
    Scores(b, profile, last, attacker, Scored(b, Moves(b, attacker), remaining, cap))
  }

  /** AIController.Candidate with its score, as PickBestByPriority returns it. */
  datatype Pick = Pick(candidate: Candidate, score: real)

  /** The index the `s > best.score` scan keeps: the first maximum, or -1 for no scores. */
  function FirstMax(s: seq<real>): (i: int)
    ensures -1 <= i < |s| && (i == -1 <==> |s| == 0)
  {
    if |s| == 0 then -1
    else
      var prev := FirstMax(s[..|s| - 1]);
      if prev == -1 || s[|s| - 1] > s[prev] then |s| - 1 else prev
  }

  /** One more score becomes the kept index exactly when it beats the kept score, or nothing was kept. */
  lemma FirstMaxSnoc(s: seq<real>, x: real)
    ensures var prev := FirstMax(s);
      FirstMax(s + [x]) == if prev == -1 || x > s[prev] then |s| else prev
  {
    assert (s + [x])[..|s|] == s;
  }

  /** The kept score is the maximum, and every earlier score is strictly smaller. */
  lemma {:induction false} FirstMaxSpec(s: seq<real>)
    ensures var i := FirstMax(s);
      0 <= i ==> (forall j :: 0 <= j < |s| ==> s[j] <= s[i]) && (forall j :: 0 <= j < i ==> s[j] < s[i])
  {
    if |s| > 0 {
      var s0 := s[..|s| - 1];
      FirstMaxSpec(s0);
      forall j | 0 <= j < |s0|
        ensures s[j] == s0[j]
      {
      }
    }
  }

  /** The first tier at or after position k of the profile's order that has a candidate, or |priorities|. */
  function FirstTierFrom(b: BoardRuntime, energy: int, profile: Profile, k: nat): (t: nat)
    requires b.Valid() && AllReady(b) && k <= |profile.priorities|
    reads b.pieces, b.Occupants()
    ensures k <= t <= |profile.priorities|
    decreases |profile.priorities| - k
  {
    if k == |profile.priorities| then k
    else if |Candidates(b, energy, profile, profile.priorities[k])| > 0 then k
    else FirstTierFrom(b, energy, profile, k + 1)
  }

  /** The tiers skipped have no candidate, and the tier found (if any) has one. */
  lemma {:induction false} FirstTierFromSpec(b: BoardRuntime, energy: int, profile: Profile, k: nat)
    requires b.Valid() && AllReady(b) && k <= |profile.priorities|
    ensures forall j :: k <= j < FirstTierFrom(b, energy, profile, k) ==>
      |Candidates(b, energy, profile, profile.priorities[j])| == 0
    ensures FirstTierFrom(b, energy, profile, k) < |profile.priorities| ==>
      |Candidates(b, energy, profile, profile.priorities[FirstTierFrom(b, energy, profile, k)])| > 0
    decreases |profile.priorities| - k
  {
    if k < |profile.priorities| && |Candidates(b, energy, profile, profile.priorities[k])| == 0 {
      FirstTierFromSpec(b, energy, profile, k + 1);
      assert FirstTierFrom(b, energy, profile, k) == FirstTierFrom(b, energy, profile, k + 1);
    }
  }

  /**
   * Where BeginSimulation puts the attacker: the destination, except that an attack the target
   * survives places it on the approach cell toward the target, when there is one.
   */
  function Placement(b: BoardRuntime, attacker: Piece, dest: Coord): Coord
    requires b.Valid()
    reads b.pieces, b.Occupants(), attacker
  {
    var target := b.GetPiece(dest);
    var approach := ApproachCell(b, attacker.gridPos, dest);
    if target != null && target.team != attacker.team && Max(0, target.hp - attacker.attack) > 0 && approach.Some?
    then approach.value
    else dest
  }

  /**
   * The simulated placement is the destination, or else an empty board cell adjacent to the
   * destination, used only when an enemy there would survive the attack.
   */
  lemma PlacementSpec(b: BoardRuntime, attacker: Piece, dest: Coord)
    requires b.Valid()
    ensures var at := Placement(b, attacker, dest);
      at == dest
      || (b.InBounds(at) && b.GetPiece(at) == null && Chebyshev(at, dest) == 1
          && IsEnemy(b.GetPiece(dest), attacker) && b.GetPiece(dest).hp - attacker.attack > 0)
  {
    ApproachCellSpec(b, attacker.gridPos, dest);
  }

  /** The direct scores (ScoreMove) of the candidates `cs`, in order. */
  ghost function ScoreMoves(b: BoardRuntime, profile: Profile, last: Piece?, cs: seq<Candidate>): (r: seq<real>)
    requires b.Valid() && AllReady(b)
    requires forall i :: 0 <= i < |cs| ==> cs[i].piece in b.Occupants()
    reads b.pieces, b.Occupants()
    ensures |r| == |cs|
  {
    seq(|cs|, i requires 0 <= i < |cs| && b.Valid() && AllReady(b) && cs[i].piece in b.Occupants()
                reads b.pieces, b.Occupants() =>
                ScoreMove(b, profile, last, cs[i].piece, cs[i].option))
  }

  lemma ScoreMovesSpec(b: BoardRuntime, profile: Profile, last: Piece?, cs: seq<Candidate>, k: nat)
    requires b.Valid() && AllReady(b)
    requires forall i :: 0 <= i < |cs| ==> cs[i].piece in b.Occupants()
    requires k < |cs|
    ensures ScoreMoves(b, profile, last, cs)[k] == ScoreMove(b, profile, last, cs[k].piece, cs[k].option)
  {
  }

  /** On a board put back as it was, the k-th direct score taken before is the k-th candidate's score now. */
  twostate lemma ScoreMovesAt(new b: BoardRuntime, new profile: Profile, new last: Piece?, new cs: seq<Candidate>, k: nat)
    requires old(allocated(b)) && old(allocated(last)) && old(allocated(cs)) && b.Valid() && old(AllReady(b))
    requires old(forall i :: 0 <= i < |cs| ==> cs[i].piece in b.Occupants()) && k < |cs|
    requires (b.pieces == null || unchanged(b.pieces)) && forall o :: o in old(b.Occupants()) ==> unchanged(o)
    ensures AllReady(b) && cs[k].piece in b.Occupants()
    ensures old(ScoreMoves(b, profile, last, cs))[k] == ScoreMove(b, profile, last, cs[k].piece, cs[k].option)
  {
    assert b.Occupants() == old(b.Occupants());
    assert ScoreMoves(b, profile, last, cs) == old(ScoreMoves(b, profile, last, cs));
    ScoreMovesSpec(b, profile, last, cs, k);
  }

  twostate lemma ScoreMovesUnchanged(new b: BoardRuntime, new profile: Profile, new last: Piece?, new cs: seq<Candidate>)
    requires old(allocated(b)) && old(allocated(last)) && old(allocated(cs)) && b.Valid() && old(AllReady(b))
    requires old(forall i :: 0 <= i < |cs| ==> cs[i].piece in b.Occupants())
    requires (b.pieces == null || unchanged(b.pieces)) && forall o :: o in old(b.Occupants()) ==> unchanged(o)
    ensures AllReady(b) && (forall i :: 0 <= i < |cs| ==> cs[i].piece in b.Occupants())
    ensures ScoreMoves(b, profile, last, cs) == old(ScoreMoves(b, profile, last, cs))
  {
    assert b.Occupants() == old(b.Occupants());
  }

  twostate lemma ScoreMoveUnchanged(new b: BoardRuntime, new profile: Profile, new last: Piece?, new attacker: Piece,
                                    new opt: MoveOption)
    requires old(allocated(b)) && old(allocated(last)) && old(allocated(attacker)) && b.Valid() && old(AllReady(b))
    requires b.pieces == null || unchanged(b.pieces)
    requires (forall o :: o in b.Occupants() ==> unchanged(o)) && unchanged(attacker)
    ensures AllReady(b)
    ensures ScoreMove(b, profile, last, attacker, opt) == old(ScoreMove(b, profile, last, attacker, opt))
  {
    assert b.Occupants() == old(b.Occupants());
    assert Scan(b, attacker.team, false) == old(Scan(b, attacker.team, false));
    assert Gain(b, profile, attacker, opt) == old(Gain(b, profile, attacker, opt));
    assert Threats(b, opt.dest, attacker.team) == old(Threats(b, opt.dest, attacker.team));
  }

  twostate lemma GainUnchanged(new b: BoardRuntime, new profile: Profile, new attacker: Piece, new opt: MoveOption)
    requires old(allocated(b)) && old(allocated(attacker)) && b.Valid() && old(AllReady(b))
    requires b.pieces == null || unchanged(b.pieces)
    requires (forall o :: o in b.Occupants() ==> unchanged(o)) && unchanged(attacker)
    ensures AllReady(b)
    ensures Gain(b, profile, attacker, opt) == old(Gain(b, profile, attacker, opt))
  {
    assert b.Occupants() == old(b.Occupants());
    assert Scan(b, attacker.team, false) == old(Scan(b, attacker.team, false));
  }

  /** AIController.SimSnapshot: what BeginSimulation changed, so that EndSimulation can undo it. */
  datatype SimSnapshot = SimSnapshot(piece: Piece, from: Coord, placedAt: Coord, capturedAtDest: Piece?)

  /**
   * BeginSimulation's effect on the grid cell `c` that held `v`: the placement cell receives the
   * attacker and its start cell is emptied. Emptying the destination when the attacker is placed
   * there is overwritten by the placement itself.
   */
  function SimCell(v: Piece?, c: Coord, s: SimSnapshot): Piece? {
    if c == s.placedAt then s.piece
    else if c == s.from then null
    else v
  }

  /**
   * The simulated grid keeps every piece on it ready: it holds only pieces of the old grid, and the
   * attacker, whose move changed its GridPos alone, stays on the board.
   */
  twostate lemma SimulationReady(new b: BoardRuntime, new s: SimSnapshot)
    requires old(allocated(b)) && old(allocated(b.pieces)) && old(allocated(s)) && b.Valid() && b.pieces != null
    requires old(AllReady(b)) && old(Ready(b, s.piece)) && b.InBounds(s.piece.gridPos)
    requires s.piece.runtimeMods == old(s.piece.runtimeMods)
    requires forall o :: o in old(b.Occupants()) && o != s.piece ==> unchanged(o)
    requires forall x, y :: 0 <= x < b.cols && 0 <= y < b.rows ==> b.pieces[x, y] == SimCell(old(b.pieces[x, y]), Coord(x, y), s)
    ensures AllReady(b)
  {
    forall x, y | 0 <= x < b.cols && 0 <= y < b.rows && b.pieces[x, y] != null
      ensures Ready(b, b.pieces[x, y])
    {
      if b.pieces[x, y] != s.piece {
        assert old(b.pieces[x, y]) in old(b.Occupants());
      }
    }
  }
}

/**
 * MoveGenerator.cs: the candidate moves of a piece. The destinations of all move rules are
 * concatenated, rewritten by each modifier's PostMovesFilter (base modifiers, then runtime ones) and
 * by the origin cell's tile rules, deduplicated, and turned into options: off-board and
 * ally-occupied cells are dropped, so are cells a tile rule refuses; each option carries a cost
 * (Chebyshev distance, or 2 for a knight-like piece, adjusted by modifiers and at least 1) and
 * whether it captures.
 */
module MoveGenerator {
  import opened Wrappers
  import opened Geometry
  import opened Collections
  import opened Modifiers
  import opened Tiles
  import opened Pieces
  import opened Board
  import opened MoveRules
  import opened ModifierMoves

  /** MoveGenerator.MoveOption. */
  datatype MoveOption = MoveOption(dest: Coord, cost: int, isCapture: bool)

  /** The destinations of a list of options, in order. */
  function Dests(opts: seq<MoveOption>): (r: seq<Coord>)
    ensures |r| == |opts| && forall k :: 0 <= k < |opts| ==> r[k] == opts[k].dest
  {
    if |opts| == 0 then [] else Dests(opts[..|opts| - 1]) + [opts[|opts| - 1].dest]
  }

  /**
   * What composing a data-bearing piece's destinations needs in order not to throw: its GridPos
   * indexes the tile grid, and no modifier slot is empty (each one is called).
   */
  predicate CanCompose(b: BoardRuntime, piece: Piece)
    reads piece
  {
    piece.data.Some? ==>
      b.InBounds(piece.gridPos)
      && NoNullSlots(piece.data.value.baseModifiers) && NoNullSlots(piece.runtimeMods)
  }

  /** What GetMoves needs besides: a move-rule list to test for knights. */
  predicate Ready(b: BoardRuntime, piece: Piece)
    reads piece
  {
    CanCompose(b, piece) && (piece.data.Some? ==> piece.data.value.moveRules.Some?)
  }

  /** The piece's move rules; an unassigned list contributes none. */
  function RulesOf(piece: Piece): seq<MoveRule>
    requires piece.data.Some?
  {
    piece.data.value.moveRules.GetOr([])
  }

  /** Step 1: the concatenated destinations of every rule, in rule order. */
  function RuleUnion(b: BoardRuntime, piece: Piece, rules: seq<MoveRule>): seq<Coord>
    requires b.Valid()
    reads b.pieces, piece
  {
    if |rules| == 0 then []
    else RuleUnion(b, piece, rules[..|rules| - 1]) + RuleMoves(b, piece, rules[|rules| - 1])
  }

  /** Step 2: the moves after every modifier, in order, has filtered them. */
  function ModifierChain(b: BoardRuntime, piece: Piece, mods: seq<Modifier>, moves: seq<Coord>): seq<Coord>
    requires b.Valid()
    reads b.pieces, piece
  {
    if |mods| == 0 then moves
    else PostMovesFilter(mods[|mods| - 1], b, piece, ModifierChain(b, piece, mods[..|mods| - 1], moves))
  }

  /** Steps 1 to 3: rule union, modifier filters, origin tile rules. */
  function ComposedDestinations(b: BoardRuntime, piece: Piece): seq<Coord>
    requires b.Valid() && piece.data.Some?
    reads b.pieces, piece
  {
    OriginFold(b.TileRulesAt(piece.gridPos),
      ModifierChain(b, piece, piece.AllModifiers(), RuleUnion(b, piece, RulesOf(piece))))
  }

  /** MoveGenerator.IsKnightLike: some rule of the piece is KnightJumps. */
  predicate IsKnightLike(piece: Piece)
    requires piece.data.Some? && piece.data.value.moveRules.Some?
  {
    KnightJumps in piece.data.value.moveRules.value
  }

  /** Whether a destination survives step 4: on the board, not held by an ally, admitted by its tile rules. */
  predicate Admissible(b: BoardRuntime, piece: Piece, dest: Coord)
    requires b.Valid()
    reads b.pieces
  {
    b.InBounds(dest)
    && (b.GetPiece(dest) == null || b.GetPiece(dest).team != piece.team)
    && AllAllow(b.TileRulesAt(dest), dest)
  }

  /** The cost before modifiers: 2 for a knight-like piece, the Chebyshev distance otherwise. */
  function BaseCost(piece: Piece, dest: Coord): int
    requires piece.data.Some? && piece.data.value.moveRules.Some?
    reads piece
  {
    if IsKnightLike(piece) then 2 else Chebyshev(piece.gridPos, dest)
  }

  /** The option step 4 builds for `dest`, if it is admissible. */
  function OptionFor(b: BoardRuntime, piece: Piece, dest: Coord): Option<MoveOption>
    requires b.Valid() && piece.data.Some? && piece.data.value.moveRules.Some?
    reads b.pieces, piece
  {
    if !Admissible(b, piece, dest) then None
    else
      var occ := b.GetPiece(dest);
      Some(MoveOption(dest,
        Max(1, CostFold(piece.AllModifiers(), piece.gridPos, dest, BaseCost(piece, dest))),
        occ != null && occ.team != piece.team))
  }

  /** The admissible destinations among `dests`, in their order. */
  function AdmissibleDests(b: BoardRuntime, piece: Piece, dests: seq<Coord>): seq<Coord>
    requires b.Valid()
    reads b.pieces
  {
    if |dests| == 0 then []
    else
      var d := dests[|dests| - 1];
      AdmissibleDests(b, piece, dests[..|dests| - 1]) + if Admissible(b, piece, d) then [d] else []
  }

  /** Step 4 over a list of destinations, in order. */
  function BuildOptions(b: BoardRuntime, piece: Piece, dests: seq<Coord>): seq<MoveOption>
    requires b.Valid() && piece.data.Some? && piece.data.value.moveRules.Some?
    reads b.pieces, piece
  {
    if |dests| == 0 then []
    else
      var acc := BuildOptions(b, piece, dests[..|dests| - 1]);
      var o := OptionFor(b, piece, dests[|dests| - 1]);
      if o.Some? then acc + [o.value] else acc
  }

  /** MoveGenerator.GetMoves for a piece: none without data, otherwise steps 1 to 4. */
  function Moves(b: BoardRuntime, piece: Piece): seq<MoveOption>
    requires b.Valid() && Ready(b, piece)
    reads b.pieces, piece
  {
    if piece.data.None? then [] else BuildOptions(b, piece, Distinct(ComposedDestinations(b, piece)))
  }

  /** Step 1 as a loop: concatenate the destinations of every rule. */
  method UnionRules(b: BoardRuntime, piece: Piece, rules: seq<MoveRule>) returns (moves: seq<Coord>)
    requires b.Valid()
    ensures moves == RuleUnion(b, piece, rules)
  {
    moves := [];
    for i := 0 to |rules|
      invariant moves == RuleUnion(b, piece, rules[..i])
    {
      assert rules[..i + 1][..i] == rules[..i];
      var cells := GetRuleMoves(b, piece, rules[i]);
      moves := moves + cells;
    }
    assert rules[..|rules|] == rules;
  }

  /** Step 2 as a loop: let each modifier filter the moves in turn. */
  method FilterByModifiers(b: BoardRuntime, piece: Piece, mods: seq<Modifier>, union: seq<Coord>) returns (moves: seq<Coord>)
    requires b.Valid()
    ensures moves == ModifierChain(b, piece, mods, union)
  {
    moves := union;
    for i := 0 to |mods|
      invariant moves == ModifierChain(b, piece, mods[..i], union)
    {
      assert mods[..i + 1][..i] == mods[..i];
      moves := ApplyPostMovesFilter(mods[i], b, piece, moves);
    }
    assert mods[..|mods|] == mods;
  }

  /** Step 3 as a loop: let each tile rule of the origin cell rewrite the moves in turn. */
  method ApplyOriginRules(rules: seq<TileRule>, filtered: seq<Coord>) returns (moves: seq<Coord>)
    ensures moves == OriginFold(rules, filtered)
  {
    moves := filtered;
    for i := 0 to |rules|
      invariant moves == OriginFold(rules[..i], filtered)
    {
      assert rules[..i + 1][..i] == rules[..i];
      moves := AffectMovesOnOrigin(rules[i], moves);
    }
    assert rules[..|rules|] == rules;
  }

  /** Steps 1 to 3 of MoveGenerator.GetMoves (and of RuleEngine.GetLegalMoves). */
  method ComposeDestinations(b: BoardRuntime, piece: Piece) returns (moves: seq<Coord>)
    requires b.Valid() && piece.data.Some? && CanCompose(b, piece)
    ensures moves == ComposedDestinations(b, piece)
  {
    var union := UnionRules(b, piece, RulesOf(piece));
    var filtered := FilterByModifiers(b, piece, piece.AllModifiers(), union);
    moves := ApplyOriginRules(b.TileRulesAt(piece.gridPos), filtered);
  }

  /** The `ok &= AllowEnter(...)` loop over a destination's tile rules. */
  method CheckEnter(rules: seq<TileRule>, dest: Coord) returns (ok: bool)
    ensures ok == AllAllow(rules, dest)
  {
    ok := true;
    for j := 0 to |rules|
      invariant ok == AllAllow(rules[..j], dest)
    {
      assert rules[..j + 1][..j] == rules[..j];
      ok := ok && AllowEnter(rules[j], dest);
    }
    assert rules[..|rules|] == rules;
  }

  /** The modifier loop that adjusts one destination's cost. */
  method AdjustCost(mods: seq<Modifier>, from: Coord, dest: Coord, baseCost: int) returns (cost: int)
    ensures cost == CostFold(mods, from, dest, baseCost)
  {
    cost := baseCost;
    for j := 0 to |mods|
      invariant cost == CostFold(mods[..j], from, dest, baseCost)
    {
      assert mods[..j + 1][..j] == mods[..j];
      cost := ModifyMoveCost(mods[j], from, dest, cost);
    }
    assert mods[..|mods|] == mods;
  }

  /** The body of step 4 for one destination. */
  method BuildOption(b: BoardRuntime, piece: Piece, dest: Coord) returns (o: Option<MoveOption>)
    requires b.Valid() && piece.data.Some? && piece.data.value.moveRules.Some?
    ensures o == OptionFor(b, piece, dest)
  {
    if !b.InBounds(dest) {
      return None;
    }
    var occ := b.GetPiece(dest);
    if occ != null && occ.team == piece.team {
      return None;
    }
    var baseCost := Chebyshev(piece.gridPos, dest);
    if KnightJumps in piece.data.value.moveRules.value {
      baseCost := 2;
    }
    var ok := CheckEnter(b.TileRulesAt(dest), dest);
    if !ok {
      return None;
    }
    var cost := AdjustCost(piece.AllModifiers(), piece.gridPos, dest, baseCost);
    o := Some(MoveOption(dest, Max(1, cost), occ != null && occ.team != piece.team));
  }

  /** Step 4 as a loop over the deduplicated destinations. */
  method BuildAll(b: BoardRuntime, piece: Piece, dests: seq<Coord>) returns (result: seq<MoveOption>)
    requires b.Valid() && piece.data.Some? && piece.data.value.moveRules.Some?
    ensures result == BuildOptions(b, piece, dests)
  {
    result := [];
    for i := 0 to |dests|
      invariant result == BuildOptions(b, piece, dests[..i])
    {
      assert dests[..i + 1][..i] == dests[..i];
      var o := BuildOption(b, piece, dests[i]);
      if o.Some? {
        result := result + [o.value];
      }
    }
    assert dests[..|dests|] == dests;
  }

  /** MoveGenerator.GetMoves. */
  method GetMoves(piece: Piece?, b: BoardRuntime) returns (result: seq<MoveOption>)
    requires b.Valid()
    requires piece != null ==> Ready(b, piece)
    ensures piece == null ==> result == []
    ensures piece != null ==> result == Moves(b, piece)
  {
    if piece == null || piece.data.None? {
      return [];
    }
    var moves := ComposeDestinations(b, piece);
    result := BuildAll(b, piece, Distinct(moves));
  }

  /**
   * Step 4 keeps, in order, exactly the admissible destinations, each with the option built for
   * it, and repeats none if the input repeats none.
   */
  lemma BuildOptionsSpec(b: BoardRuntime, piece: Piece, dests: seq<Coord>)
    requires b.Valid() && piece.data.Some? && piece.data.value.moveRules.Some?
    ensures var r := BuildOptions(b, piece, dests);
      (forall k :: 0 <= k < |r| ==> OptionFor(b, piece, r[k].dest) == Some(r[k]))
      && (forall c :: c in Dests(r) <==> c in dests && Admissible(b, piece, c))
      && (NoDup(dests) ==> NoDup(Dests(r)))
      && Dests(r) == AdmissibleDests(b, piece, dests)
  {
    BuildOptionsOrder(b, piece, dests);
    BuildOptionsSound(b, piece, dests);
    BuildOptionsDests(b, piece, dests);
    if NoDup(dests) {
      BuildOptionsNoDup(b, piece, dests);
    }
  }

  /** Step 4 keeps the admissible destinations in the order it meets them. */
  lemma {:induction false} BuildOptionsOrder(b: BoardRuntime, piece: Piece, dests: seq<Coord>)
    requires b.Valid() && piece.data.Some? && piece.data.value.moveRules.Some?
    ensures Dests(BuildOptions(b, piece, dests)) == AdmissibleDests(b, piece, dests)
  {
    if |dests| > 0 {
      var n := |dests| - 1;
      var acc := BuildOptions(b, piece, dests[..n]);
      BuildOptionsOrder(b, piece, dests[..n]);
      var o := OptionFor(b, piece, dests[n]);
      if o.Some? {
        assert (acc + [o.value])[..|acc|] == acc;
        assert Dests(acc + [o.value]) == Dests(acc) + [dests[n]];
      }
    }
  }

  /** Every option of `opts` is the one OptionFor makes for its destination. */
  ghost predicate AllBuilt(b: BoardRuntime, piece: Piece, opts: seq<MoveOption>)
    requires b.Valid() && piece.data.Some? && piece.data.value.moveRules.Some?
    reads b.pieces, piece
  {
    forall k :: 0 <= k < |opts| ==> OptionFor(b, piece, opts[k].dest) == Some(opts[k])
  }

  /** Every option built is the one OptionFor makes for its destination. */
  lemma {:induction false} BuildOptionsSound(b: BoardRuntime, piece: Piece, dests: seq<Coord>)
    requires b.Valid() && piece.data.Some? && piece.data.value.moveRules.Some?
    ensures AllBuilt(b, piece, BuildOptions(b, piece, dests))
  {
    if |dests| > 0 {
      var n := |dests| - 1;
      var acc := BuildOptions(b, piece, dests[..n]);
      BuildOptionsSound(b, piece, dests[..n]);
      var o := OptionFor(b, piece, dests[n]);
      if o.Some? {
        var r := acc + [o.value];
        assert BuildOptions(b, piece, dests) == r;
        forall k | 0 <= k < |r|
          ensures OptionFor(b, piece, r[k].dest) == Some(r[k])
        {
          if k < |acc| {
            assert r[k] == acc[k];
          } else {
            assert r[k] == o.value && o.value.dest == dests[n];
          }
        }
      }
    }
  }

  /** The destinations kept are exactly the admissible ones among the input. */
  lemma {:induction false} BuildOptionsDests(b: BoardRuntime, piece: Piece, dests: seq<Coord>)
    requires b.Valid() && piece.data.Some? && piece.data.value.moveRules.Some?
    ensures forall c :: c in Dests(BuildOptions(b, piece, dests)) <==> c in dests && Admissible(b, piece, c)
  {
    if |dests| > 0 {
      var n := |dests| - 1;
      var acc := BuildOptions(b, piece, dests[..n]);
      BuildOptionsDests(b, piece, dests[..n]);
      var o := OptionFor(b, piece, dests[n]);
      if o.Some? {
        assert (acc + [o.value])[..|acc|] == acc;
        assert Dests(acc + [o.value]) == Dests(acc) + [dests[n]];
      }
      assert dests == dests[..n] + [dests[n]];
    }
  }

  /** Without repetitions in the input there are none among the destinations kept. */
  lemma {:induction false} BuildOptionsNoDup(b: BoardRuntime, piece: Piece, dests: seq<Coord>)
    requires b.Valid() && piece.data.Some? && piece.data.value.moveRules.Some?
    requires NoDup(dests)
    ensures NoDup(Dests(BuildOptions(b, piece, dests)))
  {
    if |dests| > 0 {
      var n := |dests| - 1;
      var acc := BuildOptions(b, piece, dests[..n]);
      assert NoDup(dests[..n]) && dests[n] !in dests[..n];
      BuildOptionsNoDup(b, piece, dests[..n]);
      BuildOptionsDests(b, piece, dests[..n]);
      var o := OptionFor(b, piece, dests[n]);
      if o.Some? {
        assert (acc + [o.value])[..|acc|] == acc;
        assert Dests(acc + [o.value]) == Dests(acc) + [dests[n]];
      }
    }
  }

  /**
   * MoveGenerator.GetMoves: the options name each destination once; a cell gets an option exactly
   * when steps 1 to 3 produce it and it is on the board, not held by an ally, and admitted by its
   * tile rules; an option captures exactly when its cell is occupied (necessarily by an enemy);
   * its cost is the base cost (2 for a knight-like piece, else the Chebyshev distance) folded through
   * base then runtime modifiers, and at least 1.
   */
  lemma MovesSpec(b: BoardRuntime, piece: Piece)
    requires b.Valid() && Ready(b, piece) && piece.data.Some?
    ensures var m := Moves(b, piece);
      NoDup(Dests(m))
      && (forall c :: c in Dests(m) <==>
            c in ComposedDestinations(b, piece) && b.InBounds(c)
            && (b.GetPiece(c) == null || b.GetPiece(c).team != piece.team)
            && AllAllow(b.TileRulesAt(c), c))
      && (forall k :: 0 <= k < |m| ==>
            var o := m[k];
            (o.isCapture <==> b.GetPiece(o.dest) != null)
            && 1 <= o.cost
            && o.cost == Max(1, CostFold(piece.AllModifiers(), piece.gridPos, o.dest,
                                  if IsKnightLike(piece) then 2 else Chebyshev(piece.gridPos, o.dest))))
  {
    DistinctSpec(ComposedDestinations(b, piece));
    BuildOptionsSpec(b, piece, Distinct(ComposedDestinations(b, piece)));
  }

  /**
   * With the repository's modifiers, which leave costs alone, a knight-like piece pays 2 for every
   * move and any other piece pays the Chebyshev distance (at least 1).
   */
  lemma MovesCostInCatalogue(b: BoardRuntime, piece: Piece)
    requires b.Valid() && Ready(b, piece) && piece.data.Some?
    ensures var m := Moves(b, piece);
      forall k :: 0 <= k < |m| ==>
        m[k].cost == if IsKnightLike(piece) then 2 else Max(1, Chebyshev(piece.gridPos, m[k].dest))
  {
    MovesSpec(b, piece);
    var m := Moves(b, piece);
    forall k | 0 <= k < |m|
      ensures m[k].cost == if IsKnightLike(piece) then 2 else Max(1, Chebyshev(piece.gridPos, m[k].dest))
    {
      var base := if IsKnightLike(piece) then 2 else Chebyshev(piece.gridPos, m[k].dest);
      FoldsAreIdentities(piece.AllModifiers(), piece.gridPos, m[k].dest, base, 0, 0);
    }
  }

  /** Without modifiers, and with only base tile rules, steps 1 to 3 produce exactly the rule union. */
  lemma ComposedWithoutModifiers(b: BoardRuntime, piece: Piece)
    requires b.Valid() && piece.data.Some? && piece.AllModifiers() == []
    ensures ComposedDestinations(b, piece) == RuleUnion(b, piece, RulesOf(piece))
  {
    BaseRulesAreNeutral(b.TileRulesAt(piece.gridPos), RuleUnion(b, piece, RulesOf(piece)), piece.gridPos);
  }

  /**
   * A rook without modifiers whose ray crosses `n` empty cells and reaches an enemy gets a capture
   * option onto the enemy's cell costing n + 1.
   */
  lemma RookReachesEnemy(b: BoardRuntime, piece: Piece, d: Coord, n: nat)
    requires b.Valid() && piece.data.Some? && b.InBounds(piece.gridPos)
    requires piece.data.value.moveRules == Some([RookRays])
    requires piece.data.value.baseModifiers == [] && piece.runtimeMods == []
    requires d in ROOK_DIRS
    requires forall i :: 1 <= i <= n ==> b.InBounds(Along(piece.gridPos, d, i)) && b.GetPiece(Along(piece.gridPos, d, i)) == null
    requires var occ := b.GetPiece(Along(piece.gridPos, d, n + 1));
      occ != null && occ.data.Some? && occ.team != piece.team
    ensures MoveOption(Along(piece.gridPos, d, n + 1), n + 1, true) in Moves(b, piece)
  {
    var target := Along(piece.gridPos, d, n + 1);
    RookTargetComposed(b, piece, d, n);
    BaseRulesAreNeutral(b.TileRulesAt(target), [], target);
    TargetOption(b, piece, target);
    AlongOffset(piece.gridPos, d, n + 1);
    assert Chebyshev(piece.gridPos, target) == n + 1;
    assert piece.AllModifiers() == [];
    assert !IsKnightLike(piece);
  }

  /** The enemy's cell survives steps 1 to 3 for a rook without modifiers. */
  lemma RookTargetComposed(b: BoardRuntime, piece: Piece, d: Coord, n: nat)
    requires b.Valid() && piece.data.Some?
    requires piece.data.value.moveRules == Some([RookRays])
    requires piece.data.value.baseModifiers == [] && piece.runtimeMods == []
    requires d in ROOK_DIRS
    requires forall i :: 1 <= i <= n ==> b.InBounds(Along(piece.gridPos, d, i)) && b.GetPiece(Along(piece.gridPos, d, i)) == null
    requires var occ := b.GetPiece(Along(piece.gridPos, d, n + 1));
      occ != null && occ.data.Some? && occ != piece
    ensures Along(piece.gridPos, d, n + 1) in ComposedDestinations(b, piece)
  {
    MoveRuleProperties.RookYieldsOccupiedStop(b, piece, d, n);
    assert [RookRays][..0] == [];
    assert RuleUnion(b, piece, [RookRays]) == RuleMoves(b, piece, RookRays);
    ComposedWithoutModifiers(b, piece);
  }

  /** An admissible cell produced by steps 1 to 3 gets the option built for it. */
  lemma TargetOption(b: BoardRuntime, piece: Piece, target: Coord)
    requires b.Valid() && Ready(b, piece) && piece.data.Some?
    requires target in ComposedDestinations(b, piece) && Admissible(b, piece, target)
    ensures OptionFor(b, piece, target).Some? && OptionFor(b, piece, target).value in Moves(b, piece)
  {
    ghost var cd := ComposedDestinations(b, piece);
    ghost var dests := Distinct(cd);
    DistinctSpec(cd);
    var i :| 0 <= i < |cd| && cd[i] == target;
    assert target in dests;
    BuildOptionsDests(b, piece, dests);
    ghost var m := BuildOptions(b, piece, dests);
    assert m == Moves(b, piece);
    assert target in Dests(m);
    var k :| 0 <= k < |m| && Dests(m)[k] == target;
    BuildOptionsSound(b, piece, dests);
    assert OptionFor(b, piece, m[k].dest) == Some(m[k]);
  }
}

/**
 * Piece definitions and live pieces (PieceData/PieceData.cs, PieceData/Piece.cs): the data asset
 * with base stats, move rules and base modifiers, and the board piece whose stats are recomputed
 * from that data and its modifiers.
 */
module Pieces {
  import opened Wrappers
  import opened Geometry
  import opened Modifiers
  import opened Collections

  /** The move-rule assets of the repository (the IndividualMoveRules classes). */
  datatype MoveRule =
    | RookRays
    | BishopRays
    | QueenRays
    | KnightJumps
    | KingSteps
    | PawnForward(dir: int, captureDiagonals: bool)

  /**
   * A PieceData asset. `moveRules` is `None` for an unassigned (null) list; a null
   * `baseModifiers` list is the empty sequence, and `None` slots are unassigned entries.
   */
  datatype PieceData = PieceData(
    team: Team,
    maxHP: int,
    attack: int,
    moveRules: Option<seq<MoveRule>>,
    baseModifiers: seq<Option<Modifier>>)

  /** The inspector defaults of a fresh PieceData asset. */
  function DefaultPieceData(): (d: PieceData)
    ensures d.maxHP == 1 && d.attack == 1 && d.moveRules.None? && d.baseModifiers == []
  {
    PieceData(White, 1, 1, None, [])
  }

  /** The modifier loop of Piece.RecalculateStats: every modifier, in order, adjusts attack and maximum health. */
  method ApplyModifiers(mods: seq<Modifier>, baseAtk: int, baseMax: int) returns (atk: int, mx: int)
    ensures atk == AttackFold(mods, baseAtk) && mx == MaxHPFold(mods, baseMax)
  {
    atk, mx := baseAtk, baseMax;
    var i := 0;
    while i < |mods|
      invariant 0 <= i <= |mods|
      invariant atk == AttackFold(mods[..i], baseAtk)
      invariant mx == MaxHPFold(mods[..i], baseMax)
    {
      assert mods[..i + 1][..i] == mods[..i];
      atk := ModifyAttack(mods[i], atk);
      mx := ModifyMaxHP(mods[i], mx);
      i := i + 1;
    }
    assert mods[..i] == mods;
  }

  /** A piece on (or off) the board. `data` and `team` are fixed by Init; the rest changes in play. */
  class Piece {
    const data: Option<PieceData>
    const team: Team
    var gridPos: Coord
    var hp: int
    var maxHP: int
    var attack: int
    var runtimeMods: seq<Option<Modifier>>

    /** A piece component before Init: no data, every field at its default. */
    constructor Blank()
      ensures data.None? && team == White && gridPos == Coord(0, 0)
      ensures hp == 0 && maxHP == 0 && attack == 0 && runtimeMods == []
    {
      data := None;
      team := White;
      gridPos := Coord(0, 0);
      hp, maxHP, attack := 0, 0, 0;
      runtimeMods := [];
    }

    /** Piece.Init: bind the data, take the override team if given, and compute stats at full health. */
    constructor Init(d: PieceData, teamOverride: Option<Team>)
      ensures data == Some(d) && team == teamOverride.GetOr(d.team)
      ensures gridPos == Coord(0, 0) && runtimeMods == []
      ensures attack == Max(0, d.attack) && maxHP == Max(1, d.maxHP) && hp == maxHP
      ensures Valid()
    {
      data := Some(d);
      team := teamOverride.GetOr(d.team);
      gridPos := Coord(0, 0);
      hp, maxHP, attack := 0, 0, 0;
      runtimeMods := [];
      new;
      RecalculateStats(true);
      FoldsAreIdentities(AllModifiers(), gridPos, gridPos, 0, d.attack, d.maxHP);
    }

    /** The attack a piece starts from: the data's, or 1 without data. */
    function BaseAttack(): int {
      if data.Some? then data.value.attack else 1
    }

    /** The maximum health a piece starts from: the data's, or 1 without data. */
    function BaseMaxHP(): int {
      if data.Some? then data.value.maxHP else 1
    }

    /** The data's base modifier slots, none without data. */
    function BaseModifierSlots(): seq<Option<Modifier>> {
      if data.Some? then data.value.baseModifiers else []
    }

    /** Piece.AllModifiers: the base modifiers then the runtime ones, skipping empty slots. */
    function AllModifiers(): (r: seq<Modifier>)
      reads this
      ensures |r| <= |BaseModifierSlots()| + |runtimeMods|
    {
      Present(BaseModifierSlots()) + Present(runtimeMods)
    }

    /**
     * AllModifiers is one pass over the base slots followed by the runtime slots: the assigned
     * base modifiers come first, then the assigned runtime ones, and nothing else.
     */
    lemma AllModifiersSpec()
      ensures AllModifiers() == Present(BaseModifierSlots() + runtimeMods)
      ensures AllModifiers()[..|Present(BaseModifierSlots())|] == Present(BaseModifierSlots())
      ensures AllModifiers()[|Present(BaseModifierSlots())|..] == Present(runtimeMods)
      ensures forall k :: 0 <= k < |AllModifiers()| ==>
        Some(AllModifiers()[k]) in BaseModifierSlots() || Some(AllModifiers()[k]) in runtimeMods
      ensures forall i :: 0 <= i < |runtimeMods| && runtimeMods[i].Some? ==> runtimeMods[i].value in AllModifiers()
    {
      var base, rt := Present(BaseModifierSlots()), Present(runtimeMods);
      PresentConcat(BaseModifierSlots(), runtimeMods);
      PresentSpec(BaseModifierSlots());
      PresentSpec(runtimeMods);
      var r := AllModifiers();
      forall k | 0 <= k < |r|
        ensures Some(r[k]) in BaseModifierSlots() || Some(r[k]) in runtimeMods
      {
        if k < |base| {
          assert r[k] == base[k];
        } else {
          assert r[k] == rt[k - |base|];
        }
      }
      forall i | 0 <= i < |runtimeMods| && runtimeMods[i].Some?
        ensures runtimeMods[i].value in r
      {
        var j :| 0 <= j < |rt| && rt[j] == runtimeMods[i].value;
        assert r[|base| + j] == rt[j];
      }
    }

    /** Attack and maximum health are the base values folded through all modifiers and clamped. */
    ghost predicate StatsCurrent()
      reads this
    {
      attack == Max(0, AttackFold(AllModifiers(), BaseAttack()))
      && maxHP == Max(1, MaxHPFold(AllModifiers(), BaseMaxHP()))
    }

    /** Stats are current and health lies between 0 and the maximum. */
    ghost predicate Valid()
      reads this
    {
      StatsCurrent() && 0 <= hp <= maxHP
    }

    /** Piece.IsDead. */
    predicate IsDead()
      reads this
    {
      hp <= 0
    }

    /** Piece.RecalculateStats: fold base stats through every modifier, clamp, and set or clamp health. */
    method RecalculateStats(initializing: bool)
      modifies this
      ensures StatsCurrent() && Valid()
      ensures hp == if initializing then maxHP else Clamp(old(hp), 0, maxHP)
      ensures gridPos == old(gridPos) && runtimeMods == old(runtimeMods)
    {
      var atk, mx := ApplyModifiers(AllModifiers(), BaseAttack(), BaseMaxHP());
      attack := Max(0, atk);
      maxHP := Max(1, mx);
      if initializing {
        hp := maxHP;
      } else {
        hp := Clamp(hp, 0, maxHP);
      }
    }

    /**
     * Piece.AddModifier: append a non-null modifier to the runtime list and recompute stats if asked.
     * With the repository's modifiers, a valid piece stays valid even without recomputation.
     */
    method AddModifier(mod: Option<Modifier>, recalc: bool)
      modifies this
      ensures mod.None? ==> runtimeMods == old(runtimeMods)
      ensures mod.Some? ==> runtimeMods == old(runtimeMods) + [mod]
      ensures mod.Some? && recalc ==> StatsCurrent() && hp == Clamp(old(hp), 0, maxHP)
      ensures !(mod.Some? && recalc) ==> hp == old(hp) && maxHP == old(maxHP) && attack == old(attack)
      ensures gridPos == old(gridPos)
      ensures old(Valid()) ==> Valid()
    {
      if mod.None? {
        return;
      }
      ghost var before := AllModifiers();
      runtimeMods := runtimeMods + [mod];
      FoldsAreIdentities(before, gridPos, gridPos, 0, BaseAttack(), BaseMaxHP());
      FoldsAreIdentities(AllModifiers(), gridPos, gridPos, 0, BaseAttack(), BaseMaxHP());
      if recalc {
        RecalculateStats(false);
      }
    }

    /**
     * Piece.RemoveModifier: remove the first occurrence of a non-null modifier; stats are
     * recomputed only when something was removed and recomputation was asked for.
     */
    method RemoveModifier(mod: Option<Modifier>, recalc: bool) returns (removed: bool)
      modifies this
      ensures removed <==> mod.Some? && mod in old(runtimeMods)
      ensures mod.Some? ==> runtimeMods == RemoveFirst(old(runtimeMods), mod)
      ensures mod.None? ==> runtimeMods == old(runtimeMods)
      ensures removed && recalc ==> StatsCurrent() && hp == Clamp(old(hp), 0, maxHP)
      ensures !(removed && recalc) ==> hp == old(hp) && maxHP == old(maxHP) && attack == old(attack)
      ensures gridPos == old(gridPos)
      ensures old(Valid()) ==> Valid()
    {
      removed := mod.Some? && mod in runtimeMods;
      if !removed {
        return;
      }
      ghost var before := AllModifiers();
      runtimeMods := RemoveFirst(runtimeMods, mod);
      FoldsAreIdentities(before, gridPos, gridPos, 0, BaseAttack(), BaseMaxHP());
      FoldsAreIdentities(AllModifiers(), gridPos, gridPos, 0, BaseAttack(), BaseMaxHP());
      if recalc {
        RecalculateStats(false);
      }
    }

    /** Piece.ReceiveDamage: a negative amount counts as zero; health never drops below zero. */
    method ReceiveDamage(dmg: int)
      modifies this`hp
      ensures hp == Max(0, old(hp) - Max(0, dmg))
      ensures hp <= old(hp) || hp == 0
      ensures old(Valid()) ==> Valid()
    {
      var amount := Max(0, dmg);
      hp := Max(0, hp - amount);
    }

    /** Piece.Heal: a negative amount counts as zero; health never rises above the maximum. */
    method Heal(amt: int)
      modifies this`hp
      ensures hp == Min(maxHP, old(hp) + Max(0, amt))
      ensures old(Valid()) ==> Valid() && hp >= old(hp)
    {
      var amount := Max(0, amt);
      hp := Min(maxHP, hp + amount);
    }
  }
}

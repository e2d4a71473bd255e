/**
 * Modifier assets (Modifier/Modifier.cs, Modifier/Modifiers.cs): the value hooks that adjust move
 * cost, attack and maximum health, and the stat folds Piece and MoveGenerator run over a piece's
 * modifier list. The board-dependent hook, PostMovesFilter, lives in ModifierMoves.
 */
module Modifiers {
  import opened Wrappers
  import opened Geometry

  /**
   * The modifier catalogue of the repository. `id` stands for the asset's object identity
   * (List.Remove compares references). `Passive` is a Modifier that overrides none of the
   * hooks modelled here (the base class's defaults); `StepPlusOne` is Modifiers.cs.
   */
  datatype Modifier = Passive(id: nat) | StepPlusOne(id: nat)

  /** Modifier.ModifyMoveCost: no modifier of the catalogue changes the cost. */
  function ModifyMoveCost(m: Modifier, from: Coord, to: Coord, baseCost: int): int {
    baseCost
  }

  /** Modifier.ModifyAttack: no modifier of the catalogue changes attack. */
  function ModifyAttack(m: Modifier, atk: int): int {
    atk
  }

  /** Modifier.ModifyMaxHP: no modifier of the catalogue changes maximum health. */
  function ModifyMaxHP(m: Modifier, baseMaxHP: int): int {
    baseMaxHP
  }

  /** The cost after every modifier of `mods`, in list order, has adjusted `cost`. */
  function CostFold(mods: seq<Modifier>, from: Coord, to: Coord, cost: int): int {
    if |mods| == 0 then cost
    else ModifyMoveCost(mods[|mods| - 1], from, to, CostFold(mods[..|mods| - 1], from, to, cost))
  }

  /** The attack after every modifier of `mods`, in list order, has adjusted `atk`. */
  function AttackFold(mods: seq<Modifier>, atk: int): int {
    if |mods| == 0 then atk
    else ModifyAttack(mods[|mods| - 1], AttackFold(mods[..|mods| - 1], atk))
  }

  /** The maximum health after every modifier of `mods`, in list order, has adjusted `hp`. */
  function MaxHPFold(mods: seq<Modifier>, hp: int): int {
    if |mods| == 0 then hp
    else ModifyMaxHP(mods[|mods| - 1], MaxHPFold(mods[..|mods| - 1], hp))
  }

  /** With this catalogue, no list of modifiers changes cost, attack or maximum health. */
  lemma {:induction false} FoldsAreIdentities(mods: seq<Modifier>, from: Coord, to: Coord, cost: int, atk: int, hp: int)
    ensures CostFold(mods, from, to, cost) == cost
    ensures AttackFold(mods, atk) == atk
    ensures MaxHPFold(mods, hp) == hp
  {
    if |mods| > 0 {
      FoldsAreIdentities(mods[..|mods| - 1], from, to, cost, atk, hp);
    }
  }

  /** A list slot that holds a modifier; a `None` slot is an unassigned (null) list entry. */
  predicate NoNullSlots(s: seq<Option<Modifier>>) {
    forall i :: 0 <= i < |s| ==> s[i].Some?
  }

  /** The modifiers of the slots that hold one, in order (Piece.AllModifiers' `if (m)` test). */
  function Present(s: seq<Option<Modifier>>): (r: seq<Modifier>)
    ensures |r| <= |s|
  {
    if |s| == 0 then []
    else
      var rest := Present(s[..|s| - 1]);
      if s[|s| - 1].Some? then rest + [s[|s| - 1].value] else rest
  }

  /**
   * Present keeps every assigned modifier and only those; on a list without unassigned slots it
   * is the list's modifiers, slot by slot.
   */
  lemma {:induction false} PresentSpec(s: seq<Option<Modifier>>)
    ensures forall i :: 0 <= i < |s| && s[i].Some? ==> s[i].value in Present(s)
    ensures forall k :: 0 <= k < |Present(s)| ==> Some(Present(s)[k]) in s
    ensures NoNullSlots(s) ==> |Present(s)| == |s| && forall i :: 0 <= i < |s| ==> Present(s)[i] == s[i].value
  {
    if |s| > 0 {
      var n := |s| - 1;
      var s0 := s[..n];
      var r0 := Present(s0);
      PresentSpec(s0);
      var r := Present(s);
      assert r == if s[n].Some? then r0 + [s[n].value] else r0;
      forall i | 0 <= i < |s| && s[i].Some?
        ensures s[i].value in r
      {
        if i < n {
          assert s0[i] == s[i];
          assert s[i].value in r0;
        }
      }
      forall k | 0 <= k < |r|
        ensures Some(r[k]) in s
      {
        if k < |r0| {
          assert r[k] == r0[k];
          assert Some(r0[k]) in s0;
          var i :| 0 <= i < n && s0[i] == Some(r0[k]);
          assert s[i] == Some(r[k]);
        } else {
          assert s[n] == Some(r[k]);
        }
      }
      if NoNullSlots(s) {
        assert NoNullSlots(s0) by {
          forall i | 0 <= i < n
            ensures s0[i].Some?
          {
            assert s0[i] == s[i];
          }
        }
        forall i | 0 <= i < |s|
          ensures r[i] == s[i].value
        {
          if i < n {
            assert s0[i] == s[i];
          }
        }
      }
    }
  }

  /** Filtering two lists one after the other filters their concatenation. */
  lemma {:induction false} PresentConcat(s: seq<Option<Modifier>>, t: seq<Option<Modifier>>)
    ensures Present(s + t) == Present(s) + Present(t)
  {
    if |t| > 0 {
      var n := |t| - 1;
      PresentConcat(s, t[..n]);
      assert (s + t)[..|s + t| - 1] == s + t[..n];
    } else {
      assert s + t == s;
    }
  }
}

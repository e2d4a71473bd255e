/**
 * Team/TurnManager.cs: whose turn it is and how much energy the side to move has left. A new turn
 * refills energy to the maximum; moves spend it; ending a turn hands it to the other team.
 */
module Turns {
  import opened Geometry

  /** The team that moves after `t`. */
  function NextTeam(t: Team): (r: Team)
    ensures r != t
  {
    if t == White then Black else White
  }

  /** The result of TurnManager.TrySpend on `energy`: whether it succeeds and the energy left. */
  function Spend(energy: int, cost: int): (r: (bool, int))
    ensures r.0 <==> Max(0, cost) <= energy
    ensures r.0 ==> r.1 == energy - Max(0, cost) && r.1 <= energy && (energy >= 0 ==> r.1 >= 0)
    ensures !r.0 ==> r.1 == energy
  {
    var c := if cost < 0 then 0 else cost;
    if energy < c then (false, energy) else (true, energy - c)
  }

  /** Ending the turn twice gives it back to the team that had it. */
  lemma NextTeamAlternates(t: Team)
    ensures NextTeam(NextTeam(t)) == t
  {
  }

  /** From a full pool of 6, three moves of cost 2 all succeed and leave nothing, and a further positive cost fails. */
  lemma ThreeMovesOfTwoDrainSix(cost: int)
    requires cost > 0
    ensures Spend(6, 2) == (true, 4) && Spend(4, 2) == (true, 2) && Spend(2, 2) == (true, 0)
    ensures Spend(0, cost) == (false, 0)
  {
  }

  /** Spending never raises energy, and a negative cost is free. */
  lemma SpendNeverGains(energy: int, cost: int)
    ensures Spend(energy, cost).1 <= energy
    ensures cost <= 0 ==> Spend(energy, cost) == (energy >= 0, energy)
  {
  }

  class TurnManager {
    const maxEnergyPerTurn: int
    const startingTeam: Team
    var currentTeam: Team
    var energy: int

    /** Energy never exceeds the per-turn maximum nor drops below zero. */
    ghost predicate Valid()
      reads this
    {
      0 <= energy <= maxEnergyPerTurn
    }

    /** Awake then Start: the starting team begins a turn with full energy. */
    constructor Start(maxEnergy: int, starting: Team)
      ensures maxEnergyPerTurn == maxEnergy && startingTeam == starting
      ensures currentTeam == starting && energy == maxEnergy
      ensures maxEnergy >= 0 ==> Valid()
    {
      maxEnergyPerTurn := maxEnergy;
      startingTeam := starting;
      currentTeam := starting;
      energy := maxEnergy;
    }

    /** TurnManager.BeginNewTurn. */
    method BeginNewTurn(team: Team)
      modifies this
      ensures currentTeam == team && energy == maxEnergyPerTurn
      ensures maxEnergyPerTurn >= 0 ==> Valid()
    {
      currentTeam := team;
      energy := maxEnergyPerTurn;
    }

    /** TurnManager.TrySpend: a negative cost counts as zero; spend only what is there. */
    method TrySpend(cost: int) returns (ok: bool)
      modifies this
      ensures (ok, energy) == Spend(old(energy), cost)
      ensures currentTeam == old(currentTeam)
      ensures old(Valid()) ==> Valid()
    {
      var c := cost;
      if c < 0 {
        c := 0;
      }
      if energy < c {
        return false;
      }
      energy := energy - c;
      ok := true;
    }

    /** TurnManager.EndTurn: the other team begins a new turn. */
    method EndTurn()
      modifies this
      ensures currentTeam == NextTeam(old(currentTeam)) && energy == maxEnergyPerTurn
      ensures maxEnergyPerTurn >= 0 ==> Valid()
    {
      var next := if currentTeam == White then Black else White;
      BeginNewTurn(next);
    }
  }
}

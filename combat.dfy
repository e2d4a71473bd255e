/**
 * CombatResolver.cs: an attack deals the attacker's data attack (never negative) to the defender,
 * who dies when its health reaches zero. There is no counterattack.
 */
module Combat {
  import opened Geometry
  import opened Modifiers
  import opened Pieces

  /** CombatResolver.CombatOutcome. */
  datatype CombatOutcome = CombatOutcome(targetDied: bool, damageDealt: int)

  /** CombatResolver.ResolveAttack. */
  method ResolveAttack(attacker: Piece, defender: Piece) returns (outcome: CombatOutcome)
    requires attacker.data.Some?
    modifies defender`hp
    ensures outcome.damageDealt == Max(0, attacker.data.value.attack)
    ensures defender.hp == Max(0, old(defender.hp) - outcome.damageDealt)
    ensures outcome.targetDied <==> defender.hp <= 0
    ensures old(defender.Valid()) ==> defender.Valid()
  {
    var dmg := Max(0, attacker.data.value.attack);
    defender.ReceiveDamage(dmg);
    var died := defender.hp <= 0;
    outcome := CombatOutcome(died, dmg);
  }

  /**
   * Combat reads the data's attack while the AI predicts with the piece's computed Attack. For a
   * piece whose stats are current, the two agree, because no modifier of the repository changes attack.
   */
  lemma PredictedDamageIsDealtDamage(p: Piece)
    requires p.data.Some? && p.StatsCurrent()
    ensures p.attack == Max(0, p.data.value.attack)
  {
    FoldsAreIdentities(p.AllModifiers(), p.gridPos, p.gridPos, 0, p.BaseAttack(), p.BaseMaxHP());
  }
}

/**
 * AI/PersonalityProfile.cs: the data an AI opponent is tuned with. Telegraph colours, the action
 * delay and the noise amplitude only affect presentation or randomness and are not carried.
 */
module Personality {
  import opened Geometry

  /** PersonalityPriority: the tiers of the decision funnel. */
  datatype Priority = LethalCapture | Capture | Approach | Retreat

  /** PersonalityProfile: turn flow, heuristic weights, retreat settings and tier order. */
  datatype Profile = Profile(
    team: Team,
    maxActionsPerTurn: int,
    minScoreToAct: real,
    wLethalCapture: real,
    wCaptureDamage: real,
    wTargetValue: real,
    wCloseDistance: real,
    wStride: real,
    wEnergyCost: real,
    wRepeat: real,
    wThreatPenalty: real,
    lowHPPercent: real,
    threatRetreatThreshold: int,
    priorities: seq<Priority>)

  /** A freshly created profile asset: Black, six actions, kills first and retreat last. */
  function DefaultProfile(): (p: Profile)
    ensures p.team == Black && p.maxActionsPerTurn == 6 && p.minScoreToAct == 0.0
    ensures p.priorities == [LethalCapture, Capture, Approach, Retreat]
    ensures p.lowHPPercent == 0.33 && p.threatRetreatThreshold == 2
    ensures p.wLethalCapture == 120.0 && p.wCaptureDamage == 6.0 && p.wTargetValue == 1.5 && p.wCloseDistance == 0.8
    ensures p.wStride == 2.0 && p.wEnergyCost == 0.7 && p.wRepeat == 1.0 && p.wThreatPenalty == 1.0
  {
    Profile(Black, 6, 0.0, 120.0, 6.0, 1.5, 0.8, 2.0, 0.7, 1.0, 1.0, 0.33, 2,
            [LethalCapture, Capture, Approach, Retreat])
  }
}

# Chess-roguelike board core in Dafny

This project models the part of the Unity chess-roguelike that decides and applies moves on the
board grid, and proves what that code promises.

- **Move-set assembly.** `MoveGenerator.GetMoves` is the full pipeline. It takes the union of the
  piece's move rules, folds it through the base and then the runtime modifiers, then through the
  origin tile's rules, and keeps each distinct destination that is on the board, not held by an
  ally and admitted by its tile's rules. Each kept destination gets a cost and a capture flag.
  `RuleEngine.GetLegalMoves` is the older variant: it has no occupancy filter and no costs.
- **Per-piece generators.** These are the sliding rays of the rook, bishop and queen, the knight's
  jumps, the king's steps and the pawn's forward step with its diagonals. The older copies in
  `PieceData/MoveRules.cs` behave the same as the `IndividualMoveRules` classes, so each rule is
  modelled once. The default `Modifier` and `TileRule` hooks are modelled, and so is the
  `StepPlusOne` modifier.
- **Board and unit state.** `BoardRuntime` is a class over an `array2` of piece references. Its
  invariant is that every piece on the grid stands at its `GridPos`. `Piece` recomputes its stats
  from its data and modifiers and keeps `0 <= hp <= MaxHP`. `TurnManager` holds the per-team energy
  budget.
- **Execution.** `CombatResolver.ResolveAttack` and `MoveResolver.TryExecuteMove` make a small
  state machine. A move ends rejected, moved, attacked with a kill, or attacked without one.
- **The AI controller** (`AIController`):
  - the tier tests (lethal capture, capture, approach, retreat) and the choice of the first tier
    that has a candidate;
  - move scoring without the random noise, and the one-step lookahead;
  - the grid-only simulation and its undo;
  - the approach cell;
  - the turn loop.

Each imperative part of the source is a Dafny `method` or class, proved against a specification
function. Properties that relate several calls, or hold for all inputs, are lemmas.

Layout, one module per file:

| file | module | models |
|---|---|---|
| geometry.dfy | Geometry | Vector2Int, Team, `Mathf` helpers, Manhattan and Chebyshev distance |
| wrappers.dfy | Wrappers | Option |
| collections.dfy | Collections | `Distinct`, `HashSet.Add`, `List.Remove` |
| modifiers.dfy | Modifiers | the Modifier catalogue and its value hooks |
| tiles.dfy | Tiles | the TileRule catalogue and its hooks |
| pieces.dfy | Pieces | PieceData, Piece |
| board.dfy | Board | BoardRuntime |
| move_rules.dfy | MoveRules | MoveRule and the IndividualMoveRules generators |
| move_rule_props.dfy | MoveRuleProperties | what each generator yields |
| modifier_moves.dfy | ModifierMoves | `PostMovesFilter`, including StepPlusOne |
| move_generator.dfy | MoveGenerator | `MoveGenerator.GetMoves` |
| rule_engine.dfy | RuleEngine | `RuleEngine.GetLegalMoves`, `FireLeaveEnter` |
| combat.dfy | Combat | CombatResolver |
| turns.dfy | Turns | TurnManager |
| move_resolver.dfy | MoveResolver | MoveResolver |
| ai_profile.dfy | Personality | PersonalityProfile |
| ai_scan.dfy | BoardScan | the controller's board queries |
| ai_model.dfy | AIModel | the controller's decisions as functions |
| ai_controller.dfy | AI | the AIController class |

Four behaviours of the source that are easy to misread, modelled as written:

- When the defender survives an attack, the attacker stays where it is. It does not glide to the
  approach cell (MoveResolver.cs:47-51).
- Energy is spent before the destination is examined. A move onto an ally is therefore refused
  after its cost has been paid (MoveResolver.cs:13-21 and 64-65).
- Combat deals `data.attack`, the attack in the piece's data asset (CombatResolver.cs:20). The AI
  predicts damage with the recomputed `Attack` instead. No modifier in the repository changes
  attack, so the two agree on every valid piece; `Combat.PredictedDamageIsDealtDamage` proves this.
- RunTurn stops when a move is refused (AIController.cs:65), but that never happens. Every move
  the AI picks is affordable, costs at least one and does not land on an ally
  (`AIModel.CandidatesExecutable`), so TryExecuteMove carries it out. `AI.AIController.PlayActions`
  asserts this where the source tests it.

## Model

| member | source | states |
|---|---|---|
| Geometry.Clamp | Assets/Scripts/AI/AIController.cs:340-341 | The result lies in [lo, hi] and equals v when v is already in range. |
| Geometry.Sign | Assets/Scripts/AI/AIController.cs:340-341 | The unit step toward n is in -1..1, zero exactly for n = 0, and has n's sign. |
| Geometry.Manhattan | Assets/Scripts/AI/AIController.cs:403 | Zero exactly for equal cells; between the Chebyshev distance and twice that. |
| Geometry.Chebyshev | Assets/Scripts/AI/AIController.cs:404 | Bounds both coordinate differences and equals one of them; zero exactly for equal cells. |
| Collections.Distinct | Assets/Scripts/MoveGenerator.cs:41 | Never longer than its input. |
| Collections.DistinctSpec | Assets/Scripts/MoveGenerator.cs:41 | No repeats, every input element kept, and nothing added. |
| Collections.DistinctKeepsFirstOrder | Assets/Scripts/MoveGenerator.cs:41 | The output follows the order of the first occurrences in the input. |
| Collections.SetAdd | Assets/Scripts/Modifier/Modifiers.cs:18 | `HashSet.Add` leaves x in the set, keeps the old elements first and in insertion order, and adds at most one element. |
| Collections.SetAddSpec | Assets/Scripts/Modifier/Modifiers.cs:18 | A set without repeats stays without repeats, and nothing but x is added. |
| Collections.RemoveFirst | Assets/Scripts/PieceData/Piece.cs:107 | `List.Remove` removes exactly one occurrence of x when present and nothing otherwise. |
| Modifiers.FoldsAreIdentities | Assets/Scripts/Modifier/Modifier.cs:10-14 | The default cost, attack and max-HP hooks, folded over any modifier list, return their input. |
| Modifiers.Present | Assets/Scripts/PieceData/Piece.cs:47-50 | The `if (m)` filter is never longer than the slot list. |
| Modifiers.PresentSpec | Assets/Scripts/PieceData/Piece.cs:47-50 | Every assigned slot's modifier is kept and nothing else is; with no empty slot, every slot is kept in place. |
| Modifiers.PresentConcat | Assets/Scripts/PieceData/Piece.cs:45-51 | Filtering one list of slots after another equals filtering the two lists joined, so the filter keeps order on every input. |
| Tiles.BaseRulesAreNeutral | Assets/Scripts/PieceData/TileRule.cs:7-10 | The base origin hook passes moves through unchanged, and the base AllowEnter admits every destination. |
| Tiles.LeaveEvents | Assets/Scripts/PieceData/TileRule.cs:14 | One OnLeave call per rule of the cell, in rule order. |
| Tiles.EnterEvents | Assets/Scripts/PieceData/TileRule.cs:13 | One OnEnter call per rule of the cell, in rule order. |
| Pieces.DefaultPieceData | Assets/Scripts/PieceData/PieceData.cs:14-19 | A fresh data asset has maxHP 1, attack 1, no rule list and no base modifiers. |
| Pieces.ApplyModifiers | Assets/Scripts/PieceData/Piece.cs:61-67 | The loop yields the attack and max-HP folds over all modifiers, in order. |
| Pieces.Piece.Blank | Assets/Scripts/PieceData/Piece.cs:7-21 | A component before Init has no data, zero stats and no runtime modifiers. |
| Pieces.Piece.Init | Assets/Scripts/PieceData/Piece.cs:29-42 | Binds the data, takes the override team if given, sets Attack = max(0, attack) and MaxHP = max(1, maxHP), and starts at full health. |
| Pieces.Piece.AllModifiers | Assets/Scripts/PieceData/Piece.cs:45-51 | Never longer than the base and runtime slot lists together. |
| Pieces.Piece.AllModifiersSpec | Assets/Scripts/PieceData/Piece.cs:45-51 | One pass over the base slots then the runtime slots: the assigned base modifiers come first, in order, then the assigned runtime ones, in order, and nothing else. |
| Pieces.Piece.RecalculateStats | Assets/Scripts/PieceData/Piece.cs:54-92 | Attack and MaxHP become the clamped folds. hp becomes MaxHP when initializing, and is clamped into [0, MaxHP] otherwise. |
| Pieces.Piece.AddModifier | Assets/Scripts/PieceData/Piece.cs:95-102 | Null is a no-op. Otherwise the modifier is appended last, and stats are recomputed only when asked; validity is kept. |
| Pieces.Piece.RemoveModifier | Assets/Scripts/PieceData/Piece.cs:104-112 | Reports whether `List.Remove` removed it: exactly when the modifier was present. It removes one occurrence, and recomputes only then when asked. |
| Pieces.Piece.ReceiveDamage | Assets/Scripts/PieceData/Piece.cs:115-123 | hp becomes max(0, hp - max(0, dmg)); it never rises, and validity is kept. |
| Pieces.Piece.Heal | Assets/Scripts/PieceData/Piece.cs:125-131 | hp becomes min(MaxHP, hp + max(0, amt)); it never falls on a valid piece. |
| Board.BoardRuntime.Awake | Assets/Scripts/PieceData/BoardRuntime.cs:12-32 | With a builder the grid is a fresh cols x rows array; every cell then reads as empty. |
| Board.BoardRuntime.GetPiece | Assets/Scripts/PieceData/BoardRuntime.cs:39-43 | Non-null only in bounds; in bounds it is the grid cell. |
| Board.BoardRuntime.PlacePiece | Assets/Scripts/PieceData/BoardRuntime.cs:45-55 | Out of bounds or null: nothing changes. Otherwise the cell gets p, overwriting any occupant, and p.GridPos = c. A consistent grid stays consistent when p was not already on it. |
| Board.BoardRuntime.MovePiece | Assets/Scripts/PieceData/BoardRuntime.cs:57-71 | Out of bounds or null: nothing changes. Otherwise the old cell is cleared only if it holds p, `to` gets p, no other cell changes, and consistency is kept. |
| MoveRules.DirectionTables | Assets/Scripts/ChessRules/IndividualMoveRules/Queen/QueenRays.cs:7-10 | Every entry of the rook, bishop and eight-direction tables is a unit step. |
| MoveRules.SlidingRays | Assets/Scripts/ChessRules/IndividualMoveRules/Rook/RookRays.cs:11-21 | The while loop over each direction yields exactly the rays of the rule. |
| MoveRules.OffsetMoves | Assets/Scripts/ChessRules/IndividualMoveRules/Knight/KnightJumps.cs:14-20 | The offset loop yields exactly the admitted targets, in offset order. |
| MoveRules.GetRuleMoves | Assets/Scripts/ChessRules/MoveRule.cs:6 | Dispatch on the rule asset yields that rule's moves. |
| MoveRuleProperties.RayCells | Assets/Scripts/ChessRules/IndividualMoveRules/Rook/RookRays.cs:13-20 | A ray's cells are consecutive steps outward, all in bounds, all empty except possibly the last. |
| MoveRuleProperties.RayEnd | Assets/Scripts/PieceData/MoveRules.cs:13-20 | A ray ends on an occupant the rule captures, or before an off-board cell or an occupant it does not capture. |
| MoveRuleProperties.RaysWithin | Assets/Scripts/ChessRules/IndividualMoveRules/Queen/QueenRays.cs:14-31 | Every cell of a sliding rule is in bounds and at least one step along one of its directions. |
| MoveRuleProperties.RookMovesGeometry | Assets/Scripts/ChessRules/IndividualMoveRules/Rook/RookRays.cs:8-20 | Every rook destination is in bounds, in the mover's row or column, and not its own cell. |
| MoveRuleProperties.BishopMovesGeometry | Assets/Scripts/ChessRules/IndividualMoveRules/Bishop/BishopRays.cs:7-31 | Every bishop destination is in bounds with equal nonzero coordinate differences. |
| MoveRuleProperties.QueenMovesGeometry | Assets/Scripts/ChessRules/IndividualMoveRules/Queen/QueenRays.cs:7-32 | Every queen destination is in bounds, not the mover's cell, and on its row, column or a diagonal. |
| MoveRuleProperties.RayMeetsBlocker | Assets/Scripts/ChessRules/IndividualMoveRules/Bishop/BishopRays.cs:16-30 | After n empty cells and an occupant, the ray is exactly those cells, plus the occupant's cell if and only if the rule captures it. |
| MoveRuleProperties.RookYieldsOccupiedStop | Assets/Scripts/ChessRules/IndividualMoveRules/Rook/RookRays.cs:16-19 | A rook yields the first occupied cell whenever its occupant has data and is not the rook, allies included. |
| MoveRuleProperties.HopsMembership | Assets/Scripts/PieceData/MoveRules.cs:34-40 | At most one target per offset. A cell is yielded exactly when it is the mover's cell plus an offset, in bounds, and passes the occupant test. |
| MoveRuleProperties.HopsDistinct | Assets/Scripts/ChessRules/IndividualMoveRules/King/KingSteps.cs:14-22 | Distinct offsets give distinct targets. |
| MoveRuleProperties.KnightTable | Assets/Scripts/ChessRules/IndividualMoveRules/Knight/KnightJumps.cs:8-11 | The table holds exactly the eight L-shaped offsets, each once. |
| MoveRuleProperties.EightTable | Assets/Scripts/ChessRules/IndividualMoveRules/King/KingSteps.cs:7-10 | The table holds exactly the eight adjacent offsets, each once. |
| MoveRuleProperties.KnightMovesSpec | Assets/Scripts/ChessRules/IndividualMoveRules/Knight/KnightJumps.cs:12-21 | A knight jumps to an L-shaped in-bounds cell exactly when the cell does not hold the knight, allies included; at most 8 targets, none repeated. |
| MoveRuleProperties.KingMovesSpec | Assets/Scripts/ChessRules/IndividualMoveRules/King/KingSteps.cs:12-23 | A king steps to an adjacent in-bounds cell exactly when it is empty or holds an enemy; at most 8, none repeated. |
| MoveRuleProperties.KnightFromCentre | Assets/Scripts/ChessRules/IndividualMoveRules/Knight/KnightJumps.cs:14-20 | A knight at (3, 3) on an 8 x 8 consistent board has all eight jumps. |
| MoveRuleProperties.PawnMovesSpec | Assets/Scripts/ChessRules/IndividualMoveRules/Pawn/PawnForward.cs:11-26 | The forward cell is yielded exactly when it is in bounds and empty. A diagonal is yielded exactly when diagonals are on and the cell holds another piece, of either team. At most 3 cells, at most 1 without diagonals, none repeated. |
| ModifierMoves.StepPlusOneMoves | Assets/Scripts/Modifier/Modifiers.cs:11-21 | The HashSet loop computes the StepPlusOne filter. |
| ModifierMoves.ApplyPostMovesFilter | Assets/Scripts/Modifier/Modifier.cs:7-8 | Dispatch gives the base pass-through, or StepPlusOne's filter. |
| ModifierMoves.AddNeighboursSpec | Assets/Scripts/Modifier/Modifiers.cs:14-19 | Adding neighbours keeps every cell, repeats none, and adds exactly the admitted neighbours. |
| ModifierMoves.StepPlusOneSpec | Assets/Scripts/Modifier/Modifiers.cs:11-21 | The output keeps every input cell, repeats none, and adds exactly the in-bounds adjacent cells not holding the mover. |
| ModifierMoves.NeighbourGuardOnlyChecksBounds | Assets/Scripts/Modifier/Modifiers.cs:17 | On a consistent board the occupancy part of the guard always holds, so only bounds matter. |
| MoveGenerator.UnionRules | Assets/Scripts/MoveGenerator.cs:18-23 | The loop concatenates every rule's moves in rule order. |
| MoveGenerator.FilterByModifiers | Assets/Scripts/MoveGenerator.cs:26-31 | Each modifier, base then runtime, filters the previous output. |
| MoveGenerator.ApplyOriginRules | Assets/Scripts/MoveGenerator.cs:33-37 | Each origin tile rule rewrites the previous output in turn. |
| MoveGenerator.ComposeDestinations | Assets/Scripts/MoveGenerator.cs:18-37 | Steps 1 to 3 give the composed destinations. |
| MoveGenerator.CheckEnter | Assets/Scripts/MoveGenerator.cs:52-59 | The `ok &=` loop is true exactly when every destination rule admits the move. |
| MoveGenerator.AdjustCost | Assets/Scripts/MoveGenerator.cs:62-64 | The cost is folded through the modifiers in order. |
| MoveGenerator.BuildOption | Assets/Scripts/MoveGenerator.cs:43-71 | One destination's option, or none when it is dropped. |
| MoveGenerator.BuildAll | Assets/Scripts/MoveGenerator.cs:40-74 | The option loop builds the options of the admissible destinations, in order. |
| MoveGenerator.GetMoves | Assets/Scripts/MoveGenerator.cs:14-75 | No piece gives none; otherwise the result is the pipeline's options, whose properties MovesSpec states. |
| MoveGenerator.BuildOptionsSpec | Assets/Scripts/MoveGenerator.cs:40-74 | Keeps exactly the admissible destinations, in order, each with its built option, and repeats none if the input repeats none. |
| MoveGenerator.BuildOptionsOrder | Assets/Scripts/MoveGenerator.cs:40-74 | The options' destinations are the admissible inputs in input order (AdmissibleDests), so the AI meets equal-scoring moves in the order the destinations were composed. |
| MoveGenerator.MovesSpec | Assets/Scripts/MoveGenerator.cs:14-78 | No destination twice. A cell gets an option exactly when composed, in bounds, not an ally's and admitted. Capture exactly when occupied. cost = max(1, modifier fold of the base cost), where the base cost is 2 for knight-like pieces and the Chebyshev distance otherwise. |
| MoveGenerator.MovesCostInCatalogue | Assets/Scripts/MoveGenerator.cs:48-69 | With the repository's modifiers a knight-like piece pays 2 and every other piece pays max(1, Chebyshev distance). |
| MoveGenerator.ComposedWithoutModifiers | Assets/Scripts/MoveGenerator.cs:18-37 | Without modifiers and with base tile rules, steps 1 to 3 give exactly the rule union. |
| MoveGenerator.RookReachesEnemy | Assets/Scripts/MoveGenerator.cs:14-75 | A rook whose ray crosses n empty cells to an enemy gets a capture option onto it costing n + 1. |
| MoveGenerator.RookTargetComposed | Assets/Scripts/MoveGenerator.cs:18-23 | The blocking cell of a rook ray survives steps 1 to 3. |
| MoveGenerator.TargetOption | Assets/Scripts/MoveGenerator.cs:40-72 | An admissible composed cell gets its option in the result. |
| RuleEngine.FilterEnterable | Assets/Scripts/PieceData/RuleEngine.cs:32-44 | The destination loop keeps the in-bounds admitted cells, in order. |
| RuleEngine.GetLegalMoves | Assets/Scripts/PieceData/RuleEngine.cs:7-48 | No piece gives none; otherwise the result is the filtered, deduplicated composition. |
| RuleEngine.EnterableSpec | Assets/Scripts/PieceData/RuleEngine.cs:33-44 | A cell is kept exactly when it is an input cell, in bounds and admitted by every rule of its tile. |
| RuleEngine.LegalMovesSpec | Assets/Scripts/PieceData/RuleEngine.cs:7-48 | No duplicates. A cell is legal exactly when composed, in bounds and admitted; ally-held cells are not filtered. |
| RuleEngine.OptionsAreLegalNonAllyCells | Assets/Scripts/MoveGenerator.cs:43-58 | GetMoves' destinations are exactly GetLegalMoves' cells that are empty or hold an enemy. |
| RuleEngine.FireCell | Assets/Scripts/PieceData/RuleEngine.cs:56-59 | One hook call per rule of the cell, in order. |
| RuleEngine.FireLeaveEnter | Assets/Scripts/PieceData/RuleEngine.cs:51-60 | Every origin OnLeave comes before any destination OnEnter, and the piece does not move. |
| Combat.ResolveAttack | Assets/Scripts/CombatResolver.cs:16-36 | damage = max(0, data.attack); the defender's hp drops by it, floored at 0; died exactly when hp <= 0. |
| Combat.PredictedDamageIsDealtDamage | Assets/Scripts/CombatResolver.cs:20 | For a piece with current stats, Attack equals max(0, data.attack). |
| Turns.NextTeam | Assets/Scripts/Team/TurnManager.cs:51 | The next team differs from the current one. |
| Turns.Spend | Assets/Scripts/Team/TurnManager.cs:39-46 | Succeeds exactly when max(0, cost) <= energy, then subtracts it exactly; on failure energy is unchanged. |
| Turns.NextTeamAlternates | Assets/Scripts/Team/TurnManager.cs:48-55 | Ending the turn twice gives it back. |
| Turns.ThreeMovesOfTwoDrainSix | Assets/Scripts/Team/TurnManager.cs:39-46 | From 6, three spends of 2 succeed and leave 0; then any spend fails. |
| Turns.SpendNeverGains | Assets/Scripts/Team/TurnManager.cs:41-45 | Spending never raises energy, and a negative cost is free. |
| Turns.TurnManager.Start | Assets/Scripts/Team/TurnManager.cs:21-27 | The starting team begins with full energy. |
| Turns.TurnManager.BeginNewTurn | Assets/Scripts/Team/TurnManager.cs:29-37 | currentTeam = team and energy = maxEnergyPerTurn. |
| Turns.TurnManager.TrySpend | Assets/Scripts/Team/TurnManager.cs:39-46 | The outcome and the new energy are Spend's; the side to move and the energy bounds are kept. |
| Turns.TurnManager.EndTurn | Assets/Scripts/Team/TurnManager.cs:48-55 | The other team's turn begins with full energy. |
| MoveResolver.Hooks | Assets/Scripts/MoveResolver.cs:68-78 | Each tile event becomes one hook step, in order. |
| MoveResolver.TryExecuteMove | Assets/Scripts/MoveResolver.cs:6-66 | Guards refuse with energy, grid and position unchanged; otherwise energy is spent first. Empty cell: moved. Enemy: hit for max(0, data.attack), advancing only over a dead one. Ally: refused with energy spent. A refusal never hurts the destination's occupant. Leave hooks come before enter hooks, both before the grid update, and consistency is kept. |
| MoveResolver.ResolveMove | Assets/Scripts/MoveResolver.cs:20-65 | The three outcomes past the guards, as above; the ally refusal leaves the occupant's hp alone. |
| MoveResolver.Relocate | Assets/Scripts/MoveResolver.cs:39-42 | Fires the leave and enter hooks, then moves the piece on the grid. |
| MoveResolver.RemoveFromGrid | Assets/Scripts/MoveResolver.cs:36 | Empties the destination cell and nothing else. |
| Personality.DefaultProfile | Assets/Scripts/AI/PersonalityProfile.cs:15-42 | A fresh profile: Black, 6 actions, gate 0, tiers in the default order, retreat at 0.33 or 2 threats, and the weights 120 (lethal capture), 6 (capture damage), 1.5 (target value), 0.8 (closing distance), 2 (stride), 0.7 (energy cost), 1 (repeat) and 1 (threat penalty). |
| BoardScan.ScanMembers | Assets/Scripts/AI/AIController.cs:375-399 | The scan lists exactly the grid pieces of the chosen side. |
| BoardScan.NearestIndex | Assets/Scripts/AI/AIController.cs:455-473 | The index is -1 exactly for an empty list. |
| BoardScan.NearestIndexSpec | Assets/Scripts/AI/AIController.cs:464-471 | The chosen piece is at the least distance, and every earlier piece is strictly farther. |
| BoardScan.NearestSpec | Assets/Scripts/AI/AIController.cs:455-473 | There is a nearest enemy exactly when there is an enemy; it is at the least distance, and ties go to the first in scan order. |
| BoardScan.Hits | Assets/Scripts/AI/AIController.cs:411-419 | One threat flag per enemy. |
| BoardScan.WalkReachesTarget | Assets/Scripts/AI/AIController.cs:343-352 | On a line, unit steps reach the target after exactly the Chebyshev distance, and not sooner. |
| BoardScan.ApproachCellSpec | Assets/Scripts/AI/AIController.cs:332-354 | None exactly when the target is off every line, within one step, or cut off by an off-board or occupied cell. Otherwise the cell is in bounds, empty, and one step before the target. |
| AIModel.PassingSpec | Assets/Scripts/AI/AIController.cs:105-152 | A candidate is kept for a piece exactly when it is one of its options and passes the tier. |
| AIModel.CandidatesOfSpec | Assets/Scripts/AI/AIController.cs:102-153 | The candidates of a list of pieces are exactly their passing options. |
| AIModel.CandidatesSound | Assets/Scripts/AI/AIController.cs:102-151 | A candidate is a generated option of the AI's own on-grid piece that passes the tier, in bounds and affordable. |
| AIModel.CandidatesExecutable | Assets/Scripts/AI/AIController.cs:62-65 | Every candidate costs at least one and its destination is empty or holds an enemy, so TryExecuteMove cannot refuse it once its cost is paid. |
| AIModel.CandidatesComplete | Assets/Scripts/AI/AIController.cs:98-155 | Every passing option of an own piece is a candidate. |
| AIModel.LethalIsCapture | Assets/Scripts/AI/AIController.cs:114-122 | Lethal-capture candidates are capture candidates. |
| AIModel.TierTests | Assets/Scripts/AI/AIController.cs:112-150 | The tier tests as candidates meet them: capture an enemy (lethal when hp <= Attack); approach an empty cell strictly nearer the nearest enemy; retreat to an empty cell less threatened or farther away. |
| AIModel.Penalized | Assets/Scripts/AI/AIController.cs:236-245 | The score is the gain minus the threat, energy and repeat penalties. |
| AIModel.RepeatPenalty | Assets/Scripts/AI/AIController.cs:243-245 | Moving the last mover costs exactly wRepeat more. |
| AIModel.EligibleSpec | Assets/Scripts/AI/AIController.cs:177-181 | A follow-up is eligible exactly when it is listed, in bounds and affordable. |
| AIModel.ScoredPrefix | Assets/Scripts/AI/AIController.cs:185-186 | Once the cap (at least 1) is reached the scored follow-ups are exactly those seen so far; a list that never reaches it is scored whole. |
| AIModel.BestOf | Assets/Scripts/AI/AIController.cs:174-183 | The running best is never below 0. |
| AIModel.BestOfSpec | Assets/Scripts/AI/AIController.cs:174-183 | The running best bounds every score and is 0 or one of them. |
| AIModel.BestScoreSpec | Assets/Scripts/AI/AIController.cs:174-187 | The best follow-up score bounds every scored follow-up and is 0 or one of their scores. |
| AIModel.FirstMax | Assets/Scripts/AI/AIController.cs:87-91 | The kept index is -1 exactly when there are no scores. |
| AIModel.ScoredUpToSpec | Assets/Scripts/AI/AIController.cs:87-90 | Scoring candidates one after another gives, position by position, each candidate's lookahead score from its direct score and its follow-up scores. |
| AIModel.LookaheadsSpec | Assets/Scripts/AI/AIController.cs:87-90 | A whole tier's scores are one per candidate, in order, each that candidate's lookahead score. |
| AIModel.LookaheadBounds | Assets/Scripts/AI/AIController.cs:163-191 | With a non-negative decay the lookahead never lowers the direct score, and adds at least the decayed score of every follow-up scored. |
| AIModel.ScoreMovesSpec | Assets/Scripts/AI/AIController.cs:89 | The k-th direct score of a tier is ScoreMove of its k-th candidate. |
| AIModel.FirstMaxSpec | Assets/Scripts/AI/AIController.cs:87-91 | The kept score is a maximum, and every earlier score is strictly smaller. |
| AIModel.FirstTierFrom | Assets/Scripts/AI/AIController.cs:84-93 | The tier found is at or after the starting one, and at most the number of tiers. |
| AIModel.FirstTierFromSpec | Assets/Scripts/AI/AIController.cs:84-93 | Every tier skipped has no candidate, and the tier chosen, if any, has one. |
| AIModel.PlacementSpec | Assets/Scripts/AI/AIController.cs:274-286 | The placement is the destination, or an empty in-bounds cell next to it, used only when an enemy there survives. |
| AI.AIController.constructor | Assets/Scripts/AI/AIController.cs:7-18 | The component as wired, with no last mover. |
| AI.AIController.Enumerate | Assets/Scripts/AI/AIController.cs:375-399 | The grid walk lists the side's pieces in scan order. |
| AI.AIController.FindNearestEnemy | Assets/Scripts/AI/AIController.cs:455-473 | The result is the nearest enemy over the scan; see NearestSpec. |
| AI.AIController.CountThreatsAgainst | Assets/Scripts/AI/AIController.cs:408-420 | The count is the number of enemies with a generated move onto the cell. |
| AI.AIController.CountThreatening | Assets/Scripts/AI/AIController.cs:411-419 | The loop counts the true threat flags. |
| AI.AIController.EnemyThreatens | Assets/Scripts/AI/AIController.cs:413-417 | Whether one enemy has a move onto the cell. |
| AI.AIController.HasMoveOnto | Assets/Scripts/AI/AIController.cs:414-417 | True exactly when some option lands on the cell. |
| AI.AIController.ShouldRetreat | Assets/Scripts/AI/AIController.cs:475-480 | Low health fraction, or threats at least the threshold. |
| AI.AIController.ComputeApproachCell | Assets/Scripts/AI/AIController.cs:332-354 | The result is the approach cell; see ApproachCellSpec. |
| AI.AIController.WalkToward | Assets/Scripts/AI/AIController.cs:343-353 | The walk loop returns the approach cell. |
| AI.AIController.ApproachTest | Assets/Scripts/AI/AIController.cs:124-136 | The Approach test. |
| AI.AIController.RetreatTest | Assets/Scripts/AI/AIController.cs:138-150 | The Retreat test. |
| AI.AIController.Qualify | Assets/Scripts/AI/AIController.cs:107-151 | An option enters the tier exactly when it is in bounds, affordable and passes the tier's test. |
| AI.AIController.CollectCandidatesForPriority | Assets/Scripts/AI/AIController.cs:98-155 | Returns the tier's candidates on the board as it stands; see CandidatesSound and CandidatesComplete. |
| AI.AIController.CollectPieces | Assets/Scripts/AI/AIController.cs:102-153 | The outer loop collects the candidates piece by piece. |
| AI.AIController.CollectPiece | Assets/Scripts/AI/AIController.cs:104-152 | Appends one piece's passing options. |
| AI.AIController.CollectOptions | Assets/Scripts/AI/AIController.cs:105-152 | The inner loop appends the passing options in order. |
| AI.AIController.ScoreMove | Assets/Scripts/AI/AIController.cs:194-252 | The score is the noise-free ScoreMove of the current board. |
| AI.AIController.GainOf | Assets/Scripts/AI/AIController.cs:200-234 | The capture or approach reward. |
| AI.AIController.BestFollowup | Assets/Scripts/AI/AIController.cs:174-187 | The follow-up loop returns the running best of ScoreMove over the follow-ups that are in bounds and affordable, up to the cap (at least 1); see BestScoreSpec. |
| AI.AIController.ScoreMoveLookahead | Assets/Scripts/AI/AIController.cs:159-192 | The direct score, with no follow-up scored, when lookahead is off or no energy would remain; otherwise the direct score plus decay times the running best of the follow-up scores `future`, at most max(1, maxFollowupMovesScored) of them. The grid and the attacker end exactly as they began. |
| AI.AIController.SimulationPlan | Assets/Scripts/AI/AIController.cs:264-292 | The snapshot: the attacker, its start cell, the placement Placement chooses, and the destination's occupant. The placement is in bounds, and empty when it is not the destination. |
| AI.AIController.ScoreFollowups | Assets/Scripts/AI/AIController.cs:174-187 | On the grid as it stands, the running best of `scores`, which are FollowupScores: ScoreMove of each of the attacker's generated moves that is in bounds and affordable, in order, up to the cap. |
| AI.AIController.SimulateFollowups | Assets/Scripts/AI/AIController.cs:169-189 | Begin the simulation, score the follow-ups, end it: the result is the running best of ghost follow-up scores `scores`, at most max(1, maxFollowupMovesScored) of them, and the grid and the attacker end exactly as they began. |
| AI.AIController.ScoreCandidate | Assets/Scripts/AI/AIController.cs:89 | A candidate's lookahead score from its direct score on the board as found and ghost follow-up scores `future`, at most max(1, maxFollowupMovesScored) of them; the board is left as found. |
| AI.AIController.ScoreTier | Assets/Scripts/AI/AIController.cs:87-91 | The scores are the tier's lookahead scores, one per candidate, in order, from the direct scores on the board as found and ghost follow-up scores `futures`, at most max(1, maxFollowupMovesScored) per candidate; the index kept is the first maximum of them. The board is left as found. |
| AI.AIController.FirstNonEmptyTier | Assets/Scripts/AI/AIController.cs:84-93 | The tier loop stops at the first tier with a candidate and returns its candidates, or at the end when no tier has one. |
| AI.AIController.PickBestByPriority | Assets/Scripts/AI/AIController.cs:79-96 | The tier chosen is the first with a candidate, and none means no tier has one. Its candidates are scored by lookahead, and the pick is the first candidate of highest score, with that score. The pick is an own, on-grid, affordable, in-bounds move, and the board is left as found. |
| AI.AIController.ExecutePick | Assets/Scripts/AI/AIController.cs:62 | Executes the pick: it succeeds exactly when max(0, cost) is affordable and the destination holds no ally. Energy never rises, success costs exactly max(0, cost), and the turn and board invariants are kept. |
| AI.AIController.ChooseAction | Assets/Scripts/AI/AIController.cs:53-56 | No action exactly when there is no pick or the pick scores below minScoreToAct; otherwise the pick's candidate. No pick means no tier has a candidate. |
| AI.AIController.PlayActions | Assets/Scripts/AI/AIController.cs:51-69 | At most maxActionsPerTurn actions, none when not our turn or energy <= 0. A loop that stops while its guard still holds stopped because no tier had a candidate or the pick scored below minScoreToAct. Every move made succeeds, so the refusal stop of line 65 never fires, and after any action the last mover is a piece that was on the grid. Energy never rises, the side to move is kept, and the last mover is a grid piece. |
| AI.AIController.RunTurn | Assets/Scripts/AI/AIController.cs:46-73 | Plays the loop, then ends the turn exactly when it is still ours: the other team then has full energy. Otherwise the turn state is untouched. |
| AI.AIController.HandleTurnStarted | Assets/Scripts/AI/AIController.cs:37-44 | No profile, or another team: nothing happens. Otherwise the turn is played and handed over. |

## Left out

- Rendering, input, sprites and transforms are not modelled: `transform.position`, `GridToWorld`, `SetVisible`, the Telegraph highlights, and `SafeSet`/`SafeClear`/`ComputePathStraightOrDiag`.
- Timing is not modelled: the Telegraph coroutine, `WaitForSeconds`, `actionDelay`, and `StartCoroutine`/`StopCoroutine`. RunTurn is a plain loop that HandleTurnStarted runs to completion.
- `GameSignals` events and `Debug.Log` are not modelled: they are notifications with no effect on the state modelled here.
- The events that TurnManager fires (`OnTurnStarted`, `OnEnergyChanged`, `OnTurnEnded`) and the subscriptions in `OnEnable`/`OnDisable` are not modelled. EndTurn does not call back into the controller.
- Singleton wiring (`Instance`, `Awake` duplicates, `FindFirstObjectByType`) is not modelled. TurnManager.Instance is the `tm` parameter of TryExecuteMove; the controller's `turns` is that same manager.
- The controller's `runtime` and `turns` are assumed non-null.
- `Object.Destroy` is modelled as removing the piece from the grid.
- BoardBuilder2D is not modelled. Only its existence, `cols`, `rows` and each cell's tile rules are used.
- The random noise in ScoreMove is not modelled (`Random.Range`).
- Floating point is modelled as exact reals: there is no rounding and no infinity. PickBestByPriority's `float.NegativeInfinity` start stands for "no pick yet".
- The int.MaxValue sentinel of FindNearestEnemy is modelled as "no enemy yet".
- 32-bit integer overflow of hp, energy, costs and distances is not modelled.
- LavaRule (PieceData/TileRules.cs) is not part of this model: it dispatches through reflective `SendMessage`. The tile catalogue holds only the base TileRule, and the modifier catalogue holds the base Modifier and StepPlusOne.
- The lifecycle hooks `OnEnterTile`, `OnLeaveTile`, `OnDamageTaken`, `OnKill`, `OnAttach` and `OnDetach` are not modelled, because every modifier in the catalogue leaves them empty. Tile OnEnter and OnLeave calls are recorded in a trace, since the base TileRule's bodies are empty.
- PieceData/Modifier.cs and ChessRules/RuleEngine.cs are not part of this model: they are stale duplicates that do not compile against the rest.
- PieceFactory, both DemoSpawners, and the data-only assets beyond the fields used are not modelled.
- AI.AIController.ScoreMoveLookahead: the follow-up scores `future` are stated through ScoreFollowups and BestFollowup on the simulated grid, which exists only inside the call. The contract ties the result to them, not to a function of the board before the call.
- AI.AIController.PickBestByPriority: the scores are each candidate's lookahead score from its direct score on the board as found and its follow-up scores; the follow-up scores are stated as in ScoreMoveLookahead.
- AI.AIController.SimulateFollowups: the follow-up scores `scores` are ghost. The contract bounds their number and makes the result their running best, but does not tie them to the board before the call. On the simulated grid, ScoreFollowups ties them to FollowupScores.
- AI.AIController.ScoreCandidate: the follow-up scores `future` are ghost and are stated only as in SimulateFollowups, so the lookahead part of the score is not tied to the board before the call.
- AI.AIController.ScoreTier: the follow-up scores `futures` are ghost and are stated only as in SimulateFollowups, so the lookahead part of each score is not tied to the board before the call.
- AI.AIController.PlayActions: states why the loop stopped, that no move is refused, and the invariants kept, not which moves were played.
- AIController.BeginSimulation and EndSimulation are written out inside SimulateFollowups rather than as methods of their own. BeginSimulation's refusal when there is no grid is not modelled: the lookahead only simulates a piece standing on the grid, so the grid exists.
- MoveGenerator.CanCompose: requires that no modifier slot is empty, because the source calls every slot (MoveGenerator.cs:30-31) and throws on an empty one. It also requires the mover's cell to be on the board, because the source indexes the tile grid with it (MoveGenerator.cs:34).
- Board.BoardRuntime.MovePiece: requires the mover's cell to be on the board when `to` is, because the source indexes the grid with it (BoardRuntime.cs:61).
- MoveResolver.Safe: requires an on-board destination, because FireTileEvents indexes the tile grid with it. It also requires the mover's cell on the board when it may leave it, and data on an attacker that meets an enemy, because CombatResolver.cs:20 reads `attacker.data.attack`. Each excluded case throws in the source.
- AI.AIController.RunTurn: states the hand-over of the turn, the action bound and the board invariants, not the moves played.
- AI.AIController.ExecutePick: states whether the move succeeds, the energy and the board invariants, not where the pieces end up. That is stated by MoveResolver.TryExecuteMove.
- AI.AIController.HandleTurnStarted: if the turn has already passed to the other side when it starts, it plays nothing and ends nothing. The contract does not restate that case.
- AIModel.FirstMax: `float.NegativeInfinity` as the starting best is modelled as the index -1, so a tier of scores equal to -infinity cannot arise.
- The `prio` argument of ScoreMove is unused in the source and is not carried.

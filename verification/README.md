# Risk engine: verification project

A Dafny model of a Risk game engine with its tree-search helpers, and of the tools beside it,
with proofs of what the parts promise each other. `dafny verify dfyconfig.toml` checks it all.

The rules are a state machine. `RiskRules` holds the state, the legality oracle and the
transition function; `RiskInvariant` the invariant of every reachable state; `RiskRuns` what
follows for whole games; `RiskEffects` what each action does to the board; `RiskGame` the object
that updates arrays in place. On top of the rules stand `RiskProposer` and `ActionSets` (which moves
are considered), `ProposerEffects` (what the draws make of a position), `RiskView` (verdict and
knock-outs), `RiskMatch` (a person against policies) and `RolloutShortcut`. `SearchTree` and
`TreeSearch` are the tree search, for any game, `SearchChoice` says which child it prefers, `SearchEnds` says which games can be searched, and
`RiskSearch` that Risk can. `Connectivity`, `OwnershipScan` and `UniformBelow`
are algorithms of the rules' own file.

`BattleOutcome`, `BattleWindow` and `BattleProgram` show that a forward probability program in a
rolling three-row buffer computes a backward recursion, and `DiceOdds` that its table of odds counts
the rolls of the rules' own dice; `BattleNumbers` holds its values for small
battles, from which `BattleSides` proves that exchanging the sides always shows. `LowerEnvelope`
and `DistanceTransform` show that the linear-time distance transform is a brute-force minimum.
`Binomial`, `Placements`, `StarsAndBars` and `IndexSampler` are three views of one set of
placements that agree.
`LinearSolve` is Gauss-Jordan elimination and the perspective transform solved with it,
`Tournament` the workers on a shared counter, `AsciiBoard` the two passes over the drawn board,
and `PyLiteral`, `NpyHeader`, `NpyFile` and `NpyBytes` the `.npy` header. `Options`, `Arithmetic`,
`Sequences` and `Decimals` are shared.

How the model reads the program:

- A random generator is an arbitrary input: a stream of draws, a pick in a range, or a function
  of the state. Nothing is said about its quality, except the exact count for `UniformBelow`.
- Floating-point numbers are `real`.
- Widths are explicit where they matter: armies saturate at 16 bits, the turn count wraps at 32
  and is read back as a signed int, the subtraction that counts rounds wraps at 32 where it leaves
  an int (the language leaves that open), the task counter wraps at 64.
- The board is any neighbour relation over the 42 territories with any continents whose bonuses
  total at most 1000. Bit masks of territories are sets, walked in ascending order.
- The standard library is modelled by what it specifies: a stable sort, a sorted sample, the
  next permutation (the algorithm itself is modelled), first-match searches, `stoul`.
- Bytes of text are the characters of their value.

Where code and words differ, the model follows the code:

- The generator of the battle table writes rows by defenders, and the emitted lookup indexes by
  attackers first. Inside the table the lookup therefore answers for the two sides exchanged, and
  agrees with the direct function exactly for equal sides (`LookupAgreesExactly`);
  `LookupDiffersFromCompute` is a concrete battle for which that matters.
- The subtraction that counts rounds can leave an int without a cap, and with one exactly where the
  cap is above 2^31-1 minus the placement rounds (`SubtractionIsSafe`). Where it wraps, every
  positive cap still ends every game (`CapEndsEveryRun`).
- The duplicate sampler's assert reads a spent budget as a support that was over-reported. With an
  exact support it can fail whenever something, and not everything, has been handed out
  (`AssertCanFail`).
- The node picker goes on to the root where every child of a node is an immediate win for somebody
  else, and may then go round for ever; `LosingMoveHangs` is such a search. Every search from a
  position ends exactly if no move that makes another player win can be reached
  (`SearchEndsExactly`). No move of Risk makes anybody win, so no search of it hangs
  (`RiskSearch.SearchGoesOn`).
- The distance transform cannot exceed its own infinity: seeds farther than that look as if there
  were none (`ImageDistance`; `FarSeedIsCutOff` is such an image).
- The two passes over the board agree exactly on the templates that fit (`PassesAgree`): escapes and
  code points must be complete before each colour and each counter, and a text given in pieces must
  read as the whole does. A lone escape character counts as a cell, but joins a bracket that follows
  it (`LoneEscapeDisagrees`).
- An attack on a game that is already over is still queued, and then nothing resolves it
  (`RiskMatch.Match.Attack`).

## Model

| member | source | states |
|---|---|---|
| `RiskInvariant.InitialInv` | game_mcts/games/risk/risk_game.h:287-330 | the starting position satisfies the invariant, for two to six players and any board whose neighbour lists stay on the board |
| `RiskInvariant.StepKeepsInv` | game_mcts/games/risk/risk_game.h:571-802 | every action the oracle accepts leads from a state with the invariant to one with it; a roll it accepts is always ready to be resolved |
| `RiskInvariant.PlaceKeepsInv` | game_mcts/games/risk/risk_game.h:368-385 | a placement keeps the invariant, through the claiming phase, the own-land phase and the switch to play |
| `RiskInvariant.PlacingHasReserves` | game_mcts/games/risk/risk_game.h:571-598 | while placing, the seat to move always has an army left, so the unsigned reserves cannot wrap |
| `RiskInvariant.PlaceKeepsSeats` | game_mcts/games/risk/risk_game.h:368-385 | after a placement exactly the seats that have placed own land |
| `RiskInvariant.PlacementEndsEmpty` | game_mcts/games/risk/risk_game.h:374-385 | placement ends on the last seat with every reserve spent, all land owned, and seat 0 holding its first turn's reinforcements |
| `RiskInvariant.NextSeatIsNextLanded` | game_mcts/games/risk/risk_game.h:351-366 | the mover passes to the next seat round the table that owns land: every seat skipped owns none, also across the wrap |
| `RiskInvariant.NextPlayerKeepsInv` | game_mcts/games/risk/risk_game.h:351-366 | passing the move keeps the invariant, the new mover owns land |
| `RiskInvariant.TurnReinforcementsBound` | game_mcts/games/risk/risk_game.h:334-349 | a turn's reinforcements are at least 3 and fit 16 bits |
| `RiskInvariant.ReinforceKeepsInv` | game_mcts/games/risk/risk_game.h:387-400 | a legal reinforcement keeps the invariant and spends the whole reserve |
| `RiskInvariant.AttackSurvivesReinforce` | game_mcts/games/risk/risk_game.h:597-668 | an attack judged on the board before the reinforcement riding on the same action is still legal after it |
| `RiskInvariant.RollOutcome` | game_mcts/games/risk/risk_game.h:435-477 | one roll: exactly min of the two dice counts of armies fall; a conquering roll costs the attacker none, so the bounds of the clamp are ordered, the move is what was asked within them, and both territories keep an army |
| `RiskInvariant.RollKeepsInv` | game_mcts/games/risk/risk_game.h:435-477 | resolving a legal roll keeps the invariant and hands the move back to the attacker |
| `RiskInvariant.FortifyKeepsInv` | game_mcts/games/risk/risk_game.h:402-417 | a legal fortify, also from a territory to itself, keeps the invariant |
| `RiskRuns.GameKeepsInv` | game_mcts/games/risk/risk_game.h:492-524 | every state of every legal game satisfies the invariant |
| `RiskRuns.ReachableIsSafe` | game_mcts/games/risk/risk_game.h:571-802 | after any legal game: owned land has an army, -1 is to move exactly when a defence is queued, a queued battle joins two owners with armies behind its dice, and any accepted roll can be resolved |
| `RiskRuns.RollRemovesComparisons` | game_mcts/games/risk/risk_game.h:448-458 | a roll takes exactly min(attack dice, defence dice) armies off the whole board, conquest or not |
| `RiskRuns.ReinforceConserves` | game_mcts/games/risk/risk_game.h:387-400 | armies on the board plus reserves never grow; without saturation every reserve army arrives |
| `RiskRuns.StepLowers` | game_mcts/games/risk/risk_game.h:351-477 | below the cap each legal action lowers placements left, or lexicographically (rounds left, seats left in the round, armies plus reserves, reserves, battle stage) |
| `RiskRuns.CapEndsEveryRun` | problem/risk_view.h:116-146 | for every int cap: every endless sequence of legal actions reaches the verdict if and only if the cap is positive, with the rounds counted by a subtraction that wraps at 32 bits; without a cap a game of passes never ends |
| `RiskRuns.SubtractionIsSafe` | problem/risk_view.h:116-124 | until the verdict the subtraction of the placement rounds stays within an int, in every legal game, if and only if 0 < max_rounds <= 2^31-1 minus the placement rounds; otherwise a game of passes reaches the overflow |
| `RiskRuns.EachSurvivorMovesOnce` | game_mcts/games/risk/risk_game.h:351-385 | in any legal game, between two counted turns, in placement, in the first round of play and after, every seat that keeps land starts exactly one turn |
| `RiskRuns.OnlyRollsWin` | game_mcts/games/risk/risk_game.h:492-540 | no action but a roll of the dice makes any seat own the whole map, placements included |
| `RiskRuns.RoundsStayInRange` | problem/risk_view.h:116-124 | up to its end a capped game never shows a negative round nor one past the cap |
| `RiskGame.RiskState.ApplyActionInPlace` | game_mcts/games/risk/risk_game.h:492-519 | the in-place transition, on arrays, equals the transition function and keeps the invariant; none of the program's asserts can fail |
| `RiskGame.RiskState.Move` | game_mcts/games/risk/risk_game.h:492-519 | reserves first and then the attack that rides along, as the transition function has it |
| `RiskGame.RiskState.constructor` | game_mcts/games/risk/risk_game.h:287-330 | a new game is the specified starting position |
| `RiskGame.RiskState.InitialPlace` | game_mcts/games/risk/risk_game.h:368-385 | the in-place placement is the specified one, the switch to play included |
| `RiskGame.RiskState.Attack` | game_mcts/games/risk/risk_game.h:419-433 | queues the attack for the defender; none of its seven asserts can fail |
| `RiskGame.RiskState.NextPlayer` | game_mcts/games/risk/risk_game.h:351-366 | the do-while loop ends and equals the specified next seat, turn count and reinforcements |
| `RiskGame.RiskState.SkipEliminated` | game_mcts/games/risk/risk_game.h:355-359 | the search for a seat with land ends, on the first one round the table |
| `RiskGame.RiskState.SeatOwnsLand` | game_mcts/games/risk/risk_game.h:357-359 | whether any territory is the seat's |
| `RiskGame.RiskState.AddTurnStartReinforcements` | game_mcts/games/risk/risk_game.h:334-349 | a third of the territories, at least 3, plus the bonus of every wholly owned continent |
| `RiskGame.RiskState.OwnershipMasks` | game_mcts/games/risk/risk_game.h:106-111 | the plain scan: the seat's territories, and those with an army to spare |
| `RiskGame.RiskState.ReinforceWithReserves` | game_mcts/games/risk/risk_game.h:387-400 | territory by territory with both asserts; the whole reserve arrives and is spent |
| `RiskGame.RiskState.ResolveAttackRolls` | game_mcts/games/risk/risk_game.h:435-477 | sorting, comparing until a zero die, taking losses and conquering in place equals the specified roll, of which RiskEffects.RollEffect says which armies fall |
| `RiskGame.RiskState.TakeLosses` | game_mcts/games/risk/risk_game.h:449-458 | pair by pair over sorted dice: the attacker's wins fall on the target, the others, ties among them, on the source; RiskEffects.RollEffect says so without it |
| `RiskGame.RiskState.Conquer` | game_mcts/games/risk/risk_game.h:460-473 | armies move in between the dice and all but one, and the land changes hands |
| `RiskGame.RiskState.FortifyToMoveUnits` | game_mcts/games/risk/risk_game.h:402-417 | moves the armies, or nothing for at most one, and passes the move, as the transition of which RiskEffects.FortifyEffect speaks |
| `RiskGame.RiskState.CheckReinforce` | game_mcts/games/risk/risk_game.h:623-652 | the summing scan accepts exactly the legal reinforcements |
| `RiskGame.WinnerOf` | game_mcts/games/risk/risk_game.h:527-540 | a winner is a seat that owns all of the land; ongoing means that no seat does |
| `RiskGame.RiskState.CurrentState` | game_mcts/games/risk/risk_game.h:527-540 | reports a winner only for a seat that owns the whole map, and an ongoing game only when no seat does |
| `RiskGame.SortDescendingSorts` | game_mcts/games/risk/risk_game.h:444-447 | sorted dice are in descending order and are the same dice |
| `RiskGame.UsedDiceComeFirst` | game_mcts/games/risk/risk_game.h:444-453 | after sorting, the used dice come first, so the loop may stop at the first zero |
| `RiskEffects.RollEffect` | game_mcts/games/risk/risk_game.h:435-477 | both sides' dice in any falling order: the defender loses one army for each compared pair in which the attacker's die is higher, the attacker one for each other pair; conquered exactly when that takes the last army, and then at least the dice and at most all but one move in; all other land stays |
| `RiskEffects.TiesCostTheAttacker` | game_mcts/games/risk/risk_game.h:448-458 | equal dice in every compared pair cost the attacker an army each and the defender none |
| `RiskEffects.RollPassesBack` | game_mcts/games/risk/risk_game.h:475-477 | after a roll nothing is queued and the attacker moves |
| `RiskEffects.FortifyEffect` | game_mcts/games/risk/risk_game.h:402-417 | a legal fortify of two armies or more to another territory leaves that many fewer in one and more, up to 65535, in the other; of at most one, or to itself, it moves nothing; owners and all other land stay |
| `RiskEffects.FortifyConserves` | game_mcts/games/risk/risk_game.h:402-417 | unless the target fills up, a fortify loses no army |
| `RiskEffects.FortifyStartsTurn` | game_mcts/games/risk/risk_game.h:334-417 | after a fortify a seat with land has its share as its reserve; the others keep theirs |
| `RiskEffects.ReinforcementsCount` | game_mcts/games/risk/risk_game.h:334-349 | a turn starts with a third of the territories owned, rounded down, at least three, plus the bonuses of the continents that are wholly owned |
| `RiskEffects.PlacementEffect` | game_mcts/games/risk/risk_game.h:368-385 | a placement puts one army of the mover's reserve on the territory, which is then its own, and passes round the table; all other land stays |
| `RiskEffects.ReinforcementEffect` | game_mcts/games/risk/risk_game.h:387-400 | each territory gets the armies placed on it, up to 65535, and the mover's reserve is empty |
| `RiskEffects.AttackEffect` | game_mcts/games/risk/risk_game.h:419-433 | the attack waits for the target's owner; land and reserves change only by the reinforcement that comes with it |
| `RiskEffects.DefenceEffect` | game_mcts/games/risk/risk_game.h:492-519 | the defence is noted, and only the dice are to come |
| `RiskEffects.StartEffect` | game_mcts/games/risk/risk_game.h:287-330 | no land owned, seat 0 to place, and 50 - 5n armies for each of n seats |
| `OwnershipScan.PackedFields` | game_mcts/games/risk/risk_game.h:66-83 | owner and armies are read back from the packed word whatever its padding byte holds |
| `OwnershipScan.ScanFindsOwned` | game_mcts/games/risk/risk_game.h:62-112 | on the packed words of a map, whatever their padding, the scanned masks are the territories the seat owns and those with an army to spare |
| `OwnershipScan.ScanByFour` | game_mcts/games/risk/risk_game.h:77-112 | the four-lane scan with its scalar tail gives the masks of the plain scan, for any number of territories and any signed player |
| `Connectivity.GetConnectedComponent` | game_mcts/games/risk/risk_game.h:804-828 | returns exactly the territories joined to the seed through neighbours of one owner; the 42-slot stack never overflows and the search ends |
| `Connectivity.PushNeighbors` | game_mcts/games/risk/risk_game.h:815-823 | pushes the neighbours of one owner not yet found, within the buffer; all are connected to the seed |
| `Connectivity.PushKeepsBooks` | game_mcts/games/risk/risk_game.h:809-826 | a push never reaches past the buffer, because every stacked or expanded territory was found once |
| `Connectivity.ClosedHoldsConnected` | game_mcts/games/risk/risk_game.h:813-826 | a set closed under same-owner neighbours holds everything connected to its members |
| `UniformBelow.Sample` | game_mcts/games/risk/risk_game.h:42-53 | the value is the whole part of draw times n over 2^32, for the first draw whose low product word is at least 2^32 mod n, and is below n: the fast path takes no draw the threshold rejects |
| `UniformBelow.Redraw` | game_mcts/games/risk/risk_game.h:45-51 | the slow path stops at the first draw that is accepted, rejecting only those below the threshold |
| `UniformBelow.ThresholdIsRemainder` | game_mcts/games/risk/risk_game.h:46 | the negated-and-reduced threshold is 2^32 mod n for every n in [1, 2^32) |
| `UniformBelow.EachValueEquallyOften` | game_mcts/games/risk/risk_game.h:42-53 | each value below n is given by exactly floor(2^32 / n) of the accepted draws |
| `RiskView.ResultOf` | problem/risk_view.h:138-185 | over exactly on the whole map, at a positive cap, or when asked; then of any two seats the one knocked out later, or never, places ahead, and of two survivors the one with more territories or, with as many, more armies; a place is the number of seats ahead |
| `RiskView.PlacesInOrder` | problem/risk_view.h:167-172 | down the sorted order each seat's place is the number of seats before it that stand better |
| `RiskView.SurvivorsCompare` | problem/risk_view.h:138-172 | of two survivors one places ahead if and only if it owns more territories, or as many and more armies; they share a place exactly when both numbers are equal |
| `RiskView.RankedPlacesTell` | problem/risk_view.h:155-172 | counting the better ranks gives places that tell of every two seats who is ahead |
| `RiskView.BetterIsAhead` | problem/risk_view.h:134-158 | a rank is better exactly for the seat that was knocked out later or never, or, of two survivors, has more land, or as much and more armies |
| `RiskView.PlacesByRank` | problem/risk_view.h:160-172 | sorting and sharing places gives each seat the count of strictly smaller ranks, ties share the better place |
| `RiskView.SortIsInOrder` | problem/risk_view.h:160-162 | after sorting no seat stands better than one before it |
| `RiskView.Tally` | problem/risk_view.h:147-154 | counts every seat's territories and armies |
| `RiskView.StepRenderer.Render` | problem/risk_view.h:194-206 | appends exactly the seats that owned land before the step and own none after it |
| `RiskView.NoSeatReturns` | problem/risk_view.h:194-206 | a landless seat never owns land again once its first placement is behind it |
| `RiskView.RenderKeepsRecord` | problem/risk_view.h:194-206 | each step keeps the record: every knocked-out seat once, the newly landless at the end |
| `RiskView.EliminatedIsRecord` | problem/risk_view.h:194-206 | over any legal game the record holds each knocked-out seat exactly once |
| `RiskView.RecordGrowsAtTheEnd` | problem/risk_view.h:194-206 | an earlier record is a prefix of a later one, so it is in order of loss |
| `RiskView.PlacesFollowKnockOuts` | problem/risk_view.h:134-158 | survivors place above everyone knocked out, and later knock-outs above earlier ones |
| `RiskMatch.PlaysJoin` | web/risk_match.cc:80-95 | steps reported by consecutive calls join into one legal game |
| `RiskMatch.DiceAreTheLegalOnes` | game_mcts/games/risk/risk_game.h:551-564 | the rolls that can be drawn at a chance node are exactly those the oracle accepts |
| `RiskMatch.SampleChance` | game_mcts/games/risk/risk_game.h:551-564 | one face from 1 to 6 per die in use, drawn in order, 0 for the others |
| `RiskMatch.MostDiceIsMost` | web/risk_match.cc:97-132 | the automatic defence is legal, and no legal one has more dice |
| `RiskMatch.AssaultIsMost` | web/risk_match.cc:224-236 | where any attack on the target is legal the person's is, and none has more dice |
| `RiskMatch.Match.Apply` | web/risk_match.cc:80-95 | accepts exactly the legal actions, records them for the player to move, and leaves the match as it was otherwise |
| `RiskMatch.Match.Settle` | web/risk_match.cc:97-116 | ends, at most one defence and one roll later, at a node a seat decides or with the game over; every step it plays is accepted, a defence nobody is asked for is one with the most dice |
| `RiskMatch.Match.BotAction` | web/risk_match.cc:118-132 | the fast defence, or the policy's own answer where that is legal, or else a sampled action; always legal |
| `RiskMatch.PoliciesAreShared` | web/risk_match.cc:118-132 | in seat order, every seat but the person's has a policy to itself, and every policy a seat |
| `RiskMatch.Match.PlaceReserves` | web/risk_match.cc:134-143 | places all reserves, nothing if there are none to place, and is refused exactly when the rules refuse |
| `RiskMatch.BattleIsFought` | web/risk_match.cc:224-243 | attack, defence and roll change only the two territories, take at least one army off them and leave the attacker to move |
| `RiskMatch.BattleDoesNotEndIt` | web/risk_match.cc:224-246 | a battle without a conquest never ends the game |
| `RiskMatch.AssaultStaysLegal` | web/risk_match.cc:224-246 | after it the same attack is legal again while the source has an army to spare |
| `RiskMatch.Match.Fight` | web/risk_match.cc:224-246 | the do-while loop: one battle, and in a blitz as many as it takes |
| `RiskMatch.Match.constructor` | web/risk_match.cc:69-78 | a new match stands at the start of a game, nothing played |
| `RiskMatch.Match.Battle` | web/risk_match.cc:224-243 | one pass of the blitz loop is one whole battle of three accepted steps, or just the queued attack when the game was already over |
| `RiskMatch.Match.KeepRolling` | web/risk_match.cc:224-246 | the further passes end, because armies fall, with the target conquered or the source at one army |
| `RiskMatch.Match.Attack` | web/risk_match.cc:212-248 | refuses without effect; otherwise ends, and in a blitz with the target conquered or the source at one army; everything it reports is a legal game from the state before |
| `RiskMatch.Match.QuickSetup` | web/risk_match.cc:197-210 | deals every remaining placement legally and ends in play, reporting the last step only |
| `RiskMatch.Match.Place` | web/risk_match.cc:186-195 | plays exactly the one placement, if it is the person's and legal |
| `RiskMatch.Match.Fortify` | web/risk_match.cc:250-266 | places the reserves and ends the turn, refused exactly when the rules refuse |
| `RiskMatch.Match.Act` | web/risk_match.cc:268-276 | plays the outside seat's action if legal and settles the game |
| `RiskMatch.Match.BotStep` | web/risk_match.cc:278-291 | plays the one decision BotAction stands for whenever a policy is to move, and settles the game |
| `DiceOdds.OddsAreShares` | game_mcts/games/risk/strategies/predict_battle_outcome.cpp:17-31 | for all sizes: each chance in the table is the share of all the rolls of the rules' dice, with the most dice on both sides, that cost the defender two armies, one, or none |
| `DiceOdds.WonIsLost` | game_mcts/games/risk/risk_game.h:444-458 | the comparisons counted are what the roll costs the defender by the rules |
| `DiceOdds.Defences` | game_mcts/games/risk/risk_game.h:444-458 | of the defender's rolls against the attacker's two highest dice, as many as a formula says cost it so many armies |
| `BattleOutcome.OddsAddUp` | game_mcts/games/risk/strategies/predict_battle_outcome.cpp:17-31 | wherever both sides fight the odds are nonnegative and sum to one, and exactly one of the two forms is used |
| `BattleOutcome.MassIsOne` | game_mcts/games/risk/strategies/predict_battle_outcome.cpp:35-90 | the chances of all endings sum to one |
| `BattleOutcome.SurvivorBounds` | game_mcts/games/risk/strategies/predict_battle_outcome.cpp:51-90 | expected survivors never exceed the start on either side and total at least one |
| `BattleOutcome.RoundedSurvivors` | game_mcts/games/risk/strategies/predict_battle_outcome.cpp:89-90 | after rounding neither side has gained and at least one side keeps an army |
| `BattleOutcome.RoundedToNearest` | game_mcts/games/risk/strategies/predict_battle_outcome.cpp:89-90 | the result is the nearest whole number to what is expected, halves up |
| `BattleWindow.SpreadConserves` | game_mcts/games/risk/strategies/predict_battle_outcome.cpp:69-82 | one cell's transitions keep pending mass weighted by any fair value constant |
| `BattleWindow.ShiftConserves` | game_mcts/games/risk/strategies/predict_battle_outcome.cpp:84-86 | clearing a consumed row's slot and moving to the next row loses no pending mass |
| `BattleWindow.AbsorbInBalance` | game_mcts/games/risk/strategies/predict_battle_outcome.cpp:58-67 | absorbing a finished battle moves its worth into the accumulators exactly, and into the absorbed mass |
| `BattleWindow.SpreadInBalance` | game_mcts/games/risk/strategies/predict_battle_outcome.cpp:69-82 | attackers, defenders and probability mass all stay in balance over one cell |
| `BattleProgram.ComputeExpectedRemnants` | game_mcts/games/risk/strategies/predict_battle_outcome.cpp:35-91 | the forward program in its rolling three-row buffer returns the rounded backward recursion, for all a and d; no slot is reused while live |
| `BattleProgram.ConsumeOne` | game_mcts/games/risk/strategies/predict_battle_outcome.cpp:55-83 | whichever branch a cell takes, the three books stay in balance |
| `BattleProgram.ConsumeRow` | game_mcts/games/risk/strategies/predict_battle_outcome.cpp:54-86 | a whole row is consumed and its slot cleared for the row three further down |
| `BattleProgram.SpreadInPlace` | game_mcts/games/risk/strategies/predict_battle_outcome.cpp:69-82 | the writes to the buffer are one round of the battle in the window the rows form |
| `BattleProgram.GenerateTables` | game_mcts/games/risk/strategies/predict_battle_outcome_gen.cpp:30-49 | entry [i][j] is the result for j+1 attackers and i+1 defenders, and fits eight bits |
| `BattleProgram.LookupExpectedRemnants` | game_mcts/games/risk/strategies/predict_battle_outcome_gen.cpp:59-68 | inside the table the emitted lookup answers with the two sides exchanged, outside it directly |
| `BattleSides.GapAboveProfile` | game_mcts/games/risk/strategies/predict_battle_outcome.cpp:35-91 | one army moved from the defence to the attack is worth, from eighteen or thirteen armies on, no fewer survivors than a profile of half the attack's lead |
| `BattleSides.LargerSideAttacks` | game_mcts/games/risk/strategies/predict_battle_outcome.cpp:35-91 | the larger side keeps at least one army more when it attacks than when it defends, on average, for all sizes |
| `BattleSides.SidesMatter` | game_mcts/games/risk/strategies/predict_battle_outcome.cpp:89-90 | the rounded result for a attackers and d defenders never has the attackers of the one for d and a, unless a = d |
| `BattleSides.LookupAgreesExactly` | game_mcts/games/risk/strategies/predict_battle_outcome_gen.cpp:30-68 | for all sizes: the emitted lookup agrees with the direct function if and only if the battle is outside the table or the sides are equal |
| `BattleProgram.LookupDiffersFromCompute` | game_mcts/games/risk/strategies/predict_battle_outcome_gen.cpp:30-68 | two armies on one: the direct function has the attacker win with 1 left, the emitted lookup has 2 defenders left |
| `RolloutShortcut.RemainingBounds` | game_mcts/games/risk/strategies/risk_rollout_shortcuts.h:29-34 | for the direct function and for the table in either orientation someone survives and the survivors fit |
| `RolloutShortcut.ShortcutKeepsInv` | game_mcts/games/risk/strategies/risk_rollout_shortcuts.h:34-50 | with any survivors at all the shortcut's state satisfies the rules' invariant |
| `RolloutShortcut.ShortcutEffect` | game_mcts/games/risk/strategies/risk_rollout_shortcuts.h:34-50 | the target becomes the attacker's exactly when more attackers than defenders survive; then they stand on it and one army more on the source; otherwise the source has 1 and the target the surviving defenders; all other land stays |
| `RolloutShortcut.ResolveBattleWithExpectationInPlace` | game_mcts/games/risk/strategies/risk_rollout_shortcuts.h:21-51 | resolves exactly fully queued battles: the target changes hands exactly when more attackers survive, who then hold it; otherwise the source is left with 1; queues cleared, attacker to move, the documented overcount included |
| `RolloutShortcut.SettleInPlace` | game_mcts/games/risk/strategies/risk_rollout_shortcuts.h:34-50 | owner and armies of both territories as the survivors say, all other land and the reserves as they were |
| `LowerEnvelope.PopKeepsUnder` | game_mcts/tools/ascii_rendering/edt.py:22-32 | popping never drops a curve the new one does not cover |
| `LowerEnvelope.ScanIsEnvelope` | game_mcts/tools/ascii_rendering/edt.py:19-53 | after every scan step the stack is the lower envelope of the curves so far |
| `LowerEnvelope.SearchRightFinds` | game_mcts/tools/ascii_rendering/edt.py:61 | the binary search gives the number of boundaries at or before the query |
| `LowerEnvelope.MaskedSorted` | game_mcts/tools/ascii_rendering/edt.py:55-56 | stale boundaries are masked: what is searched is sorted |
| `LowerEnvelope.LowestIsLowest` | game_mcts/tools/ascii_rendering/edt.py:59-64 | the curve found for a query is nowhere above any other there |
| `DistanceTransform.ParabolasCrossOnce` | game_mcts/tools/ascii_rendering/edt.py:15-17 | the intersection formula is where two parabolas cross, and the boundaries lie strictly within infinity |
| `DistanceTransform.Edt1dIsMin` | game_mcts/tools/ascii_rendering/edt.py:10-66 | for every f in [0, INF] with n*n < INF the result is the brute-force minimum of (q-p)^2 + f[p] |
| `DistanceTransform.TransformIsMin` | game_mcts/tools/ascii_rendering/edt.py:74-78 | rows, then columns give the brute-force minimum over all cells |
| `DistanceTransform.FarSeedIsCutOff` | game_mcts/tools/ascii_rendering/edt.py:10-80 | on an image of 800001 cells a side with one seed in a corner, the far corner is told infinity although its distance is finite |
| `DistanceTransform.ImageDistance` | game_mcts/tools/ascii_rendering/edt.py:69-80 | on an image the squared result is the squared distance to the nearest seed, cut off at INF, and INF without seeds |
| `Binomial.ChooseStep` | game_mcts/core/util/state_space.cpp:25-29 | each partial product is divisible by its divisor |
| `Binomial.ExactBinomial` | game_mcts/core/util/state_space.cpp:16-32 | the binomial coefficient, every division exact |
| `Placements.UnrankOfRank` | game_mcts/core/util/state_space.cpp:47-63 | every word of elements and bars is unranked from its rank |
| `Placements.RankOfUnrank` | game_mcts/core/util/state_space.cpp:47-63 | the word unranked from a rank has that rank |
| `Placements.RankFollowsBars` | game_mcts/core/util/state_space.h:89-92 | ranks grow with the lexicographic order of the bar positions |
| `Placements.UnrankIsBijection` | game_mcts/core/util/state_space.cpp:43-75 | each rank below the size gives a placement of n into k, whose rank it is |
| `Placements.EveryPlacementIsRanked` | game_mcts/core/util/state_space.cpp:43-75 | each placement has a rank below the size and is unranked from it |
| `Placements.GapsFromStart` | game_mcts/core/util/state_space.cpp:65-73 | bin counts taken from gaps between bars are the elements between them |
| `Placements.Size` | game_mcts/core/util/state_space.cpp:35-37 | the number of placements |
| `Placements.FindBar` | game_mcts/core/util/state_space.cpp:52-62 | the inner scan stops at the next bar of the unranked word, with the rank left over for the rest |
| `Placements.FindBars` | game_mcts/core/util/state_space.cpp:47-63 | the bars found one after another are those of the unranked word |
| `Placements.BinsFromBars` | game_mcts/core/util/state_space.cpp:65-74 | each bin is the gap between two bars, the last one reaches to the end |
| `Placements.Unrank` | game_mcts/core/util/state_space.cpp:43-75 | the program returns the placement of the given rank |
| `Placements.SampleStarsAndBars` | game_mcts/core/util/state_space.h:149-190 | every sample of bar positions gives a placement, and distinct samples give distinct ones |
| `StarsAndBars.NextPermutation` | game_mcts/core/util/starts_and_bars.cpp:37 | the step to the next word lowers the rank by exactly one, and reports the end exactly at rank zero |
| `StarsAndBars.LastAscent` | game_mcts/core/util/starts_and_bars.cpp:37 | finds the last place where the word rises, or that it never does |
| `StarsAndBars.LastGreater` | game_mcts/core/util/starts_and_bars.cpp:37 | finds the last letter greater than the one at the ascent |
| `StarsAndBars.SwapAndReverse` | game_mcts/core/util/starts_and_bars.cpp:37 | swapping the two and reversing what follows lowers the rank by one |
| `StarsAndBars.Iterator.constructor` | game_mcts/core/util/starts_and_bars.cpp:14-24 | starts at the word with the highest rank; no bins means the end at once |
| `StarsAndBars.Iterator.UpdateUrns` | game_mcts/core/util/starts_and_bars.cpp:54-64 | counts the elements between the bars |
| `StarsAndBars.Iterator.Increment` | game_mcts/core/util/starts_and_bars.cpp:34-43 | moves to the placement ranked one lower, and to the end after rank zero |
| `StarsAndBars.Enumerate` | game_mcts/core/util/starts_and_bars.cpp:14-64 | the iterator visits as many placements as there are; its r-th is the one unranked from size-1-r |
| `IndexSampler.SwapKeepsPermutation` | game_mcts/core/util/state_space.h:114-117 | a swap of the dense shuffle keeps it a permutation |
| `IndexSampler.IndexActionSampler.Next` | game_mcts/core/util/state_space.h:108-119 | a draw from the sparse map is the draw of a dense Fisher-Yates shuffle; none is left exactly after space_size draws |
| `IndexSampler.IndexActionSampler.constructor` | game_mcts/core/util/state_space.h:98-101 | nothing drawn, nothing swapped |
| `IndexSampler.RankedActionSet.constructor` | game_mcts/core/util/state_space.h:136-138 | a sampler over as many ranks as there are placements |
| `IndexSampler.IndexActionSampler.DrawnAndRemainingPartition` | game_mcts/core/util/state_space.h:98-119 | a value is among the drawn ones exactly when it is not among the remaining at(i) |
| `IndexSampler.RankedActionSet.Next` | game_mcts/core/util/state_space.h:131-147 | hands out the placement of the next drawn rank |
| `IndexSampler.EveryPlacementOnce` | game_mcts/core/util/state_space.h:122-147 | every placement is handed out, none twice, nothing else |
| `IndexSampler.DrawAll` | game_mcts/core/util/state_space.h:131-147 | whatever the generator picks, drawing until nothing is left hands out every placement once and nothing else |
| `RiskProposer.Sample` | game_mcts/games/risk/strategies/risk_proposer.h:114-349 | at every decision node, for both switches and all draws, the action is legal, and is the one the draws pick |
| `RiskProposer.SampledIsLegal` | game_mcts/games/risk/strategies/risk_proposer.h:114-349 | whatever is drawn at a decision node, what comes of it is legal |
| `RiskProposer.SamplePlace` | game_mcts/games/risk/strategies/risk_proposer.h:115-135 | picks the claimable territory whose own draw is the highest, the first of equal ones |
| `RiskProposer.HighestDrawWins` | game_mcts/games/risk/strategies/risk_proposer.h:123-134 | where anything may be claimed, the scan ends on a claimable territory, no other's draw is higher and those before it are lower |
| `RiskProposer.SampleTurn` | game_mcts/games/risk/strategies/risk_proposer.h:199-348 | an attack of the list or the ending fortify, by one draw over both, and always legal |
| `RiskProposer.SampleReinforced` | game_mcts/games/risk/strategies/risk_proposer.h:156-284 | each army on the receiver its own draw picks and the riding attack the next draw picks; all reserves, and always legal |
| `RiskProposer.SampleFortify` | game_mcts/games/risk/strategies/risk_proposer.h:287-348 | the scan over owned territories finds the greedy fortify |
| `RiskProposer.CollectOptions` | game_mcts/games/risk/strategies/risk_proposer.h:205-241 | collects the attacks there are, by source and target |
| `RiskProposer.CollectReceivers` | game_mcts/games/risk/strategies/risk_proposer.h:162-189 | the loops list the receivers: the owned territories in ascending order, or those on the border if asked for and there are any |
| `RiskProposer.ReceiversReceive` | game_mcts/games/risk/strategies/risk_proposer.h:162-189 | there is a receiver, and the receivers are exactly the territories that may receive |
| `RiskProposer.SumEnemies` | game_mcts/games/risk/strategies/risk_proposer.h:328-335 | the armies on a territory's enemy neighbours |
| `RiskProposer.Scatter` | game_mcts/games/risk/strategies/risk_proposer.h:157-197 | army by army, each lands on the receiver its own draw picks; the sum is the reserves |
| `RiskProposer.ScatteredLands` | game_mcts/games/risk/strategies/risk_proposer.h:190-196 | whatever is drawn, every army lands, and only on receivers |
| `RiskProposer.ReinforcedAttack` | game_mcts/games/risk/strategies/risk_proposer.h:226-280 | with reserves pending the attack the draw picks from the list rides along, of the favourable ones if asked for and there are any; none exactly when there is none to make |
| `RiskProposer.PlaceScanFindsWanted` | game_mcts/games/risk/strategies/risk_proposer.h:115-135 | the highest-draw scan picks a claimable territory |
| `RiskProposer.BestSourceIsSafest` | game_mcts/games/risk/strategies/risk_proposer.h:289-342 | the fortify source is the mover's own and no owned territory is safer |
| `RiskProposer.BestTargetIsMostThreatened` | game_mcts/games/risk/strategies/risk_proposer.h:305-343 | the fortify target is the mover's own and no owned territory is under more threat |
| `RiskProposer.GreedyFortifyIsLegal` | game_mcts/games/risk/strategies/risk_proposer.h:285-348 | the greedy fortify is legal, also with a single territory |
| `RiskProposer.OptionsAreOptions` | game_mcts/games/risk/strategies/risk_proposer.h:205-241 | the candidate list holds exactly the attacks there are, once each |
| `RiskProposer.SupportIsDistinct` | game_mcts/games/risk/strategies/risk_proposer.h:58-111 | no action is counted twice |
| `RiskProposer.SupportIsExact` | game_mcts/games/risk/strategies/risk_proposer.h:58-111 | an action is counted if and only if some draws produce it |
| `RiskProposer.SupportSize` | game_mcts/games/risk/strategies/risk_proposer.h:58-111 | the size is known exactly when no reserves are pending, and is then the number of distinct actions sample can return |
| `RiskProposer.CountOptions` | game_mcts/games/risk/strategies/risk_proposer.h:93-109 | counts the attacks without listing them |
| `ProposerEffects.SampledTells` | game_mcts/games/risk/strategies/risk_proposer.h:114-349 | at every decision node, for both switches and all draws: the claim is the territory with the highest draw, the defence has the most dice, each reserve army lands where its own draw points, the attack is the one whose number is drawn, and otherwise the turn ends by the greedy fortify |
| `ProposerEffects.AttackAlongIsAttack` | game_mcts/games/risk/strategies/risk_proposer.h:205-280 | attack k of the list has k attacks before it by source and target; it has min(3, armies - 1) dice and moves all armies in |
| `ProposerEffects.GreedyTells` | game_mcts/games/risk/strategies/risk_proposer.h:285-348 | all armies but one go from the mover's territory with the fewest enemy armies next to it (then the most armies, then the first) to the one with the most (then the fewest armies, then the first) |
| `ProposerEffects.ScatterTells` | game_mcts/games/risk/strategies/risk_proposer.h:157-197 | each territory gets as many reserve armies as draws, by their remainder, name its number among the receivers; others get none |
| `ProposerEffects.RidingAttackTells` | game_mcts/games/risk/strategies/risk_proposer.h:226-280 | with a reinforcement there is an attack whenever one can be made, one of the favourable ones if asked for and there are any, by its number |
| `ProposerEffects.PlaceScanTells` | game_mcts/games/risk/strategies/risk_proposer.h:115-135 | one 32-bit number is drawn for each claimable territory, in ascending order; the highest, and first, wins |
| `ActionSets.DedupSampler.Next` | game_mcts/core/mcts/game_traits.h:253-280 | hands out legal actions without repeats, the first new one of the draws; the exact stop happens exactly when every action was handed out; it gives up exactly when there is more to hand out, as far as is known, and every draw of the budget is a repeat |
| `ActionSets.DrawNew` | game_mcts/core/mcts/game_traits.h:270-275 | the first draw that is new, or none within the budget |
| `ActionSets.DedupSampler.constructor` | game_mcts/core/mcts/game_traits.h:286-294 | starts with nothing seen and the proposer's own support |
| `ActionSets.AssertCanFail` | game_mcts/core/mcts/game_traits.h:270-279 | with an exact support, some draws make the assert about an over-reported one fail if and only if something has been handed out and something has not |
| `ActionSets.FirstDrawIsNew` | game_mcts/core/mcts/game_traits.h:253-275 | a fresh generator at a decision node always gives an action |
| `ActionSets.LegalActionSet.Next` | game_mcts/core/mcts/game_traits.h:115-124 | swap-removal takes out the picked action and keeps the rest as a multiset |
| `ActionSets.SwapRemoval` | game_mcts/core/mcts/game_traits.h:98-101 | replacing the pick by the last element and dropping the last removes just the pick |
| `SearchTree.BestChildIsBest` | game_mcts/core/mcts/mcts.inl:367-382 | the child picked scores highest, the first of equal ones; there is none exactly when every child is an immediate win for somebody else; what scores mean is SearchChoice.DownIsPreferred |
| `SearchTree.WinStopsTheScan` | game_mcts/core/mcts/mcts.inl:375-380 | an immediate win is beaten by nothing, so leaving the scan there changes nothing |
| `SearchTree.CountedIsReady` | game_mcts/core/mcts/mcts.inl:110-121 | every child that is scored has been visited: no division by zero, and the mover is a seat |
| `SearchTree.ChildrenThere` | game_mcts/core/mcts/mcts.inl:350-366 | where a node is not expanded it has children: the assert never fails |
| `SearchTree.PickGoesDown` | game_mcts/core/mcts/mcts.inl:337-384 | a pick stops at an end of play, adds a child, goes on to a child with a larger index, or is stuck and goes on to the root |
| `SearchTree.PickKeepsTree` | game_mcts/core/mcts/mcts.inl:337-476 | every pick keeps the tree: one parent each, states as the actions give them, all counts in order but those of a new leaf |
| `SearchChoice.DownIsPreferred` | game_mcts/core/mcts/mcts.inl:337-384 | going down leads to the first child the mover has won, or else, of those not lost, to the first with the greatest mean value plus bonus, a drawn one counting 0; to the root exactly if all are lost |
| `SearchChoice.PreferredIsGoodForTheMover` | game_mcts/core/mcts/mcts.inl:89-125 | of children play goes on in, as often visited, the one gone to has the largest total for the mover; as good on average, the largest bonus; and the first of equal ones |
| `SearchChoice.DrawsAreWorthNothing` | game_mcts/core/mcts/mcts.inl:108-109 | beside a drawn child one that play goes on in is preferred only if its mean and bonus are at least 0, and passed over only if at most 0 |
| `SearchChoice.PreferredIsOne` | game_mcts/core/mcts/mcts.inl:367-382 | there is at most one child to prefer |
| `SearchChoice.PickTells` | game_mcts/core/mcts/mcts.inl:337-476 | a pick stops exactly where play has ended; adds a child exactly if the roll is new, or the node may widen and an action is left; and else follows the roll or goes down to the preferred child; nothing else in the tree changes |
| `SearchTree.BackedIsCounted` | game_mcts/core/mcts/mcts.inl:267-274 | after back-propagation each node's visits are its own first one plus its children's, and no total exceeds its visits either way |
| `TreeSearch.EndsWithout` | game_mcts/core/mcts/mcts.inl:240-252 | if the walk from the root comes to no dead end, the selection ends, within as many picks as there are nodes; also with chance nodes |
| `TreeSearch.EndsExactly` | game_mcts/core/mcts/mcts.inl:240-252 | without chance nodes: one selection ends if and only if its walk comes to no node that nothing can be added to and all of whose children are lost |
| `SearchEnds.SearchEndsExactly` | game_mcts/core/mcts/mcts.inl:240-280 | chance nodes included: every search from a position ends, however it is tuned and whatever is drawn, if and only if no position reachable from it has a move that makes another player win |
| `SearchEnds.GiftHangs` | game_mcts/core/mcts/mcts.inl:333-384 | from any position that reaches such a move some search hangs: one child for each node, and draws that lead there |
| `SearchEnds.NoGiftNextEnds` | game_mcts/core/mcts/mcts.inl:240-280 | without one, no iteration comes to a dead end and every next selection ends |
| `TreeSearch.NoGiftsNoDeadEnd` | game_mcts/core/mcts/mcts.inl:366-383 | where no player's own move makes another one win there is never a dead end |
| `RiskSearch.IsWellBehaved` | game_mcts/games/risk/strategies/risk_proposer.h:58-349 | Risk with its proposer, sampler and dice is a game the search may assume: legal actions and dice, a fresh sampler that gives one, movers that are seats |
| `RiskSearch.HasNoGifts` | game_mcts/games/risk/risk_game.h:492-540 | no move of Risk makes any player win |
| `RiskSearch.SearchGoesOn` | game_mcts/core/mcts/policies.h:44-61 | no search of Risk, from any state with the invariant, comes to a dead end, after any number of iterations |
| `RiskSearch.SearchAnswers` | game_mcts/core/mcts/policies.h:44-61 | where a player decides, the policy may be asked after any positive number of iterations, and answers with a legal action that got at least an even share of them |
| `TreeSearch.FirstIteration` | game_mcts/core/mcts/mcts.inl:258-280 | a game of one move, which loses: what its first iteration leaves |
| `TreeSearch.LosingMoveHangs` | game_mcts/core/mcts/mcts.inl:240-252 | the second selection of that game never ends, whatever is tuned and drawn |
| `TreeSearch.EvenShare` | game_mcts/core/mcts/mcts.inl:289-311 | the most visited child has at least an even share of the visits |
| `TreeSearch.Runner.constructor` | game_mcts/core/mcts/mcts.inl:206-213 | the root alone, nothing counted |
| `TreeSearch.Runner.Favourite` | game_mcts/core/mcts/mcts.inl:367-383 | the scan ends on the child the mover prefers, by wins, means and bonuses, or on the root if all are lost |
| `TreeSearch.Runner.PickNode` | game_mcts/core/mcts/mcts.inl:337-476 | the in-place pick, expansion gated by widening and chance nodes included, equals the specified one |
| `TreeSearch.Runner.Select` | game_mcts/core/mcts/mcts.inl:240-252 | ends, with the specified picks, on a path from the root of which each node is a child of the one before |
| `TreeSearch.Runner.Backpropagate` | game_mcts/core/mcts/mcts.inl:267-274 | one visit and the value more for exactly the nodes of the path |
| `TreeSearch.Runner.OneIteration` | game_mcts/core/mcts/mcts.inl:258-280 | selection, playout and back-propagation in place give the specified tree, with all counts in order and one more visit at the root |
| `TreeSearch.IterationTells` | game_mcts/core/mcts/mcts.inl:219-280 | an iteration counts, in the nodes of its path and in no others, one visit, and 1 for the seat that won the playout, -1 for the others, 0 for all without a winner |
| `TreeSearch.Runner.BestAction` | game_mcts/core/mcts/mcts.inl:285-312 | the assert holds after any iteration; the action is legal, the first most visited, and has at least an even share of the iterations |
| `TreeSearch.Decide` | game_mcts/core/mcts/policies.h:44-61 | if none of so many iterations comes to a dead end: the tree is the specified one, and the answer its robust child |
| `LinearSolve.EliminationKeepsNull` | game_mcts/tools/ascii_rendering/export_board_svg.py:72-75 | taking a multiple of the pivot row off another row keeps the solution set |
| `LinearSolve.SwapKeepsNull` | game_mcts/tools/ascii_rendering/export_board_svg.py:71 | swapping rows keeps the solution set |
| `LinearSolve.LargestBelow` | game_mcts/tools/ascii_rendering/export_board_svg.py:70 | a row at or below the diagonal with the largest entry in the column |
| `LinearSolve.BringUpPivot` | game_mcts/tools/ascii_rendering/export_board_svg.py:70-71 | the largest entry at or below the diagonal is brought up; a zero there means the column has no pivot left |
| `LinearSolve.ClearColumn` | game_mcts/tools/ascii_rendering/export_board_svg.py:72-75 | columns already processed stay diagonal and the next one becomes so |
| `LinearSolve.NoPivotMeansDependence` | game_mcts/tools/ascii_rendering/export_board_svg.py:70-74 | where no pivot is left a nonzero combination of the columns vanishes |
| `LinearSolve.Solve` | game_mcts/tools/ascii_rendering/export_board_svg.py:65-76 | fails exactly for singular matrices; otherwise x is the one and only solution of a x = b |
| `LinearSolve.SolvesIsMeets` | game_mcts/tools/ascii_rendering/export_board_svg.py:79-88 | the eight equations say exactly that numerators are target times denominator at all four points |
| `LinearSolve.PerspectiveTransform` | game_mcts/tools/ascii_rendering/export_board_svg.py:79-94 | each source goes to its target wherever the denominator is not zero, and no other transform with last coefficient 1 takes all four there |
| `Tournament.BuildRoundRobin` | game_mcts/core/mcts/tournament.h:155-168 | lists the games of every pair in the order of the schedule |
| `Tournament.AddGames` | game_mcts/core/mcts/tournament.h:161-164 | a pair's games, the lower index first in the even ones |
| `Tournament.RoundRobinIsFair` | game_mcts/core/mcts/tournament.h:155-168 | every unordered pair meets games_per_pair times, the lower index first in the larger half; nobody else meets |
| `Tournament.SequentialTells` | game_mcts/core/mcts/tournament.h:199-214 | every record names its task's two policies in seat order and scores 1 exactly if the first seat won the game, 1/2 exactly if it was drawn, 0 otherwise; the game is seeded with the base seed xor the task's number |
| `Tournament.StepKeepsInv` | game_mcts/core/mcts/tournament.h:190-215 | each atomic step of any worker keeps: numbers handed out once each in order, records final unless unclaimed or still being played |
| `Tournament.EveryInterleavingAgrees` | game_mcts/core/mcts/tournament.h:182-229 | under every interleaving each number goes to exactly one worker, a run is complete exactly after 2 tasks + workers steps, and the records are then those of a sequential run |
| `Tournament.RunTournament` | game_mcts/core/mcts/tournament.h:182-229 | on any schedule the workers finish and return the sequential records: every task's policies and its game's score |
| `AsciiBoard.WholeJoin` | game_mcts/games/risk/ascii/ascii_board.cpp:42-56 | a text of whole escapes and code points keeps its cells and its cursor when more text follows, unless a bracket follows an escape character that ends it |
| `AsciiBoard.CellsInReadingOrder` | game_mcts/games/risk/ascii/ascii_board.cpp:92-121 | no place on the screen is shown twice |
| `AsciiBoard.LoneEscapeDisagrees` | game_mcts/games/risk/ascii/ascii_board.cpp:42-133 | a lone escape character followed by "[m": three cells for the template, none on the board |
| `AsciiBoard.RenderAsciiBoard` | game_mcts/games/risk/ascii/ascii_board.cpp:124-133 | the rendered text is the segments' texts in order, counters cut or padded to their width |
| `AsciiBoard.CounterPositions` | game_mcts/games/risk/ascii/ascii_board.cpp:60-87 | each territory's position is where the template's cursor stands before its last counter; ids without one keep -1 |
| `AsciiBoard.PositionsOfLast` | game_mcts/games/risk/ascii/ascii_board.cpp:60-87 | of a territory's counters the last one gives its position |
| `AsciiBoard.SkipEscape` | game_mcts/games/risk/ascii/ascii_board.cpp:46-56 | past an escape that starts there, cut at the end of the text, or nowhere |
| `AsciiBoard.WalkText` | game_mcts/games/risk/ascii/ascii_board.cpp:65-79 | the byte loop leaves the cursor where the text's tokens take it |
| `AsciiBoard.AppendCounter` | game_mcts/games/risk/ascii/ascii_board.cpp:29-39 | the number filled up with zeros or cut to its last digits, as wide as the template says |
| `AsciiBoard.AppendColor` | game_mcts/games/risk/ascii/ascii_board.cpp:16-27 | the background escape of a colour below 8, or the bright one |
| `AsciiBoard.ColorIsCode` | game_mcts/games/risk/ascii/ascii_board.cpp:16-27 | the escape has the code 40 to 47 for the dark colours and 100 to 107 for the bright ones |
| `AsciiBoard.CounterDigits` | game_mcts/games/risk/ascii/ascii_board.cpp:29-39 | each cell of a counter shows the digit of its power of ten, the ones last |
| `AsciiBoard.PassesAgree` | game_mcts/games/risk/ascii/ascii_board.cpp:60-133 | for every template, all colours below 16 and all counts: the two cursors stand at the same place before every segment and at the end if and only if each text continues the one before it and whole tokens come before every colour and every counter |
| `AsciiBoard.FollowedByColor` | game_mcts/games/risk/ascii/ascii_board.cpp:16-27 | a colour after a text leaves the cursor alone if and only if the text has whole escapes and code points |
| `AsciiBoard.FollowedByCounter` | game_mcts/games/risk/ascii/ascii_board.cpp:29-39 | a counter after a text takes up its width if and only if the text has whole escapes and code points |
| `AsciiBoard.TextsApartFit` | game_mcts/games/risk/ascii/ascii_board.cpp:60-133 | where no text comes right after another, all it takes is whole tokens before what is drawn |
| `AsciiBoard.ClosedTextsFit` | game_mcts/games/risk/ascii/ascii_board.cpp:60-133 | texts with whole tokens and no lone escape at their end fit anywhere |
| `AsciiBoard.CountersStandWhereComputed` | game_mcts/games/risk/ascii/ascii_board.cpp:60-133 | on every template that fits, every digit of every counter is shown in exactly the cell computed for it |
| `AsciiBoard.CountersStandAtPositions` | game_mcts/games/risk/ascii/ascii_board.cpp:60-133 | the row, column and width reported for a territory are those in which its last counter is shown |
| `AsciiBoard.OverlayCells` | game_mcts/games/risk/ascii/ascii_board.cpp:89-122 | the byte loop replaces, token by token, the cells that have an overlay |
| `AsciiBoard.OverlayToken` | game_mcts/games/risk/ascii/ascii_board.cpp:95-120 | one pass of the loop draws one token, marked or as it was, and moves the cursor past it |
| `AsciiBoard.OverlayChangesOnlyMarked` | game_mcts/games/risk/ascii/ascii_board.cpp:89-122 | what is shown afterwards is what was shown before with the named cells replaced, in the same layout |
| `AsciiBoard.OneMarkShows` | game_mcts/games/risk/ascii/ascii_board.cpp:89-122 | a cell that is shown and marked shows its mark |
| `AsciiBoard.NoOverlayNoChange` | game_mcts/games/risk/ascii/ascii_board.cpp:89-122 | without overlays every text, whole or not, comes back byte for byte |
| `Decimals.DecimalRoundTrip` | game_mcts/common/numpy/npy.hpp:313-333 | a printed number has its value back |
| `Decimals.DigitsInOrder` | game_mcts/common/numpy/npy.hpp:313-333 | digits come highest first, without leading zeros |
| `PyLiteral.TrimBlanks` | game_mcts/common/numpy/npy.hpp:196-205 | trimming takes off exactly the blanks around a text |
| `PyLiteral.ParseDict` | game_mcts/common/numpy/npy.hpp:220-268 | the values cut out between the keys, sorted by where each key is first mentioned; missing keys and missing braces are errors |
| `PyLiteral.FindPlaces` | game_mcts/common/numpy/npy.hpp:235-244 | where each key is first mentioned, or the first key that is missing |
| `PyLiteral.SortIsAscending` | game_mcts/common/numpy/npy.hpp:246-247 | the entries are cut in the order of their places |
| `PyLiteral.ParseTupleItems` | game_mcts/common/numpy/npy.hpp:293-311 | the items between commas, nothing after a last comma |
| `PyLiteral.NumberRoundTrip` | game_mcts/common/numpy/npy.hpp:391-397 | a printed number below 2^64 is read back, with or without a space before it |
| `PyLiteral.TupleRoundTrip` | game_mcts/common/numpy/npy.hpp:293-333 | a written shape of any length, also "()" and "(n,)", is read back |
| `NpyHeader.ParseHeader` | game_mcts/common/numpy/npy.hpp:344-400 | the header a text stands for, or the first thing wrong with it |
| `NpyHeader.ParseNumbers` | game_mcts/common/numpy/npy.hpp:393-397 | the dimensions in order, or what is wrong with the first bad one |
| `NpyHeader.FindsKey` | game_mcts/common/numpy/npy.hpp:236-244 | a key is first found where it was written if nothing before looks like it |
| `NpyHeader.TypeRoundTrip` | game_mcts/common/numpy/npy.hpp:78-190 | a type string with a known byte order and kind is read back |
| `NpyHeader.DictRoundTrip` | game_mcts/common/numpy/npy.hpp:402-409 | the written dictionary gives back its three values |
| `NpyHeader.HeaderRoundTrip` | game_mcts/common/numpy/npy.hpp:344-409 | printing then parsing gives back type, order flag and shape exactly when byte order and kind are among the library's |
| `NpyFile.WriteHeader` | game_mcts/common/numpy/npy.hpp:411-450 | the whole preamble: magic, version, length and padded text |
| `NpyFile.ReadHeader` | game_mcts/common/numpy/npy.hpp:452-484 | text or error and what is left of the stream, short streams read as zeros |
| `NpyFile.PreambleIsAligned` | game_mcts/common/numpy/npy.hpp:415-424 | the preamble is always a multiple of 16 bytes long |
| `NpyFile.LengthFits` | game_mcts/common/numpy/npy.hpp:428-447 | the length is never cut in version 1.0, and in 2.0 only from 4 GiB on |
| `NpyBytes.PreambleBytes` | game_mcts/common/numpy/npy.hpp:411-450 | byte by byte for every dictionary: 0x93 NUMPY, version, the low two or four bytes of the length of what follows, low byte first, the dictionary, blanks, a line break |
| `NpyBytes.LengthIsRead` | game_mcts/common/numpy/npy.hpp:452-484 | any two or four bytes of length, low byte first, are read as the number they are, and that much text is taken |
| `NpyBytes.DictWords` | game_mcts/common/numpy/npy.hpp:402-409 | the dictionary word by word: type, True exactly for column order and False for row order, shape |
| `NpyBytes.TupleWords` | game_mcts/common/numpy/npy.hpp:313-333 | a shape is bracketed, with a comma and a blank between numbers and a comma after a single one |
| `NpyFile.TextIsReadBack` | game_mcts/common/numpy/npy.hpp:411-484 | what is read is what was written, with the stream at the data, exactly when the text is shorter than 4 GiB |
| `NpyFile.WriteThenRead` | game_mcts/common/numpy/npy.hpp:344-484 | writing and reading through streams gives the same header and leaves the data |

## Left out

- `TreeSearch.EndsExactly`: one selection, without chance nodes; with them a walk that is back at the root may be led elsewhere by its next chance draw. `SearchEnds.SearchEndsExactly` is about all searches, and has them.
- `SearchEnds.SearchEndsExactly`: asks that any action a generator comes up with could have come first, as in drawing without replacement; for generators with a fixed order only `TreeSearch.NoGiftsNoDeadEnd` and `SearchEnds.GiftHangs` are proved.
- `TreeSearch.Runner.Select`: asks for a walk with no dead end; a path that comes back to the root before a chance draw leads it elsewhere counts nodes twice, so that visits no longer add up.
- `TreeSearch.Decide`: asks for a root a player decides at and for at least one iteration, without which there is no best action.
- `SearchTree.ScoreOf`: the exploration bonus and the widening limit are functions of the visits, as roots, powers and logarithms are not modelled; visit counts are unbounded.
- A chance node's map of children is kept as a list in the order of insertion; the playout is a function of state and draw; observers and plots are left out.
- Floating-point rounding, 32-bit floats, and the square root that ends the distance transform.
- The texts of refusals, captions, JSON, marks, step captions and turn tallies; `State()` and its phases.
- The order of independent refusals in the oracle: it is a predicate, as its reasons are not modelled.
- Hash functions, equality operators and copying of states.
- The 42-country table, its names, and the checks that it is symmetric.
- Arithmetic on 128-bit registers: lanes are words and masks are sets of bit numbers.
- `RiskMatch.Match.Apply`: holds the state as a value; `RiskGame.RiskState.ApplyActionInPlace` is the proof that the in-place object does the same.
- `RiskMatch.Match.Attack`: asks for a source on the board, because the program reads its armies before it checks.
- `RiskProposer.Sample`: takes each bounded draw as a remainder; that any remainder can be drawn, and how, is `UniformBelow`.
- `Placements.Unrank`: asks for k >= 1 and a rank below the size, as its callers do; the 32-bit sum n + k - 1 is unbounded here.
- `UniformBelow.Sample`: reads a finite list of draws; a list that is all rejected is reported as exhausted.
- `Tournament.RunTournament`: playing one game is a function of its task and seed; observers and printing are not modelled.
- `Tournament.StepKeepsInv`: asks for tasks plus workers below 2^64, so that the counter does not wrap.
- `AsciiBoard.PassesAgree`: colours are below 16, the ANSI digits the header names.
- `NpyHeader.ParseHeader`: an empty text or value, on which the program looks at a first character that is not there, is an error.
- `NpyFile.ReadHeader`: the warning about a misaligned header, which the program has not written either.
- Reading and writing the array data after the header, and sizes computed from shapes.
- Elo ratings, standings and the playing of a single tournament game.
- The other two games, curve fitting, plotting, servers, protocol conversions and the browser page.

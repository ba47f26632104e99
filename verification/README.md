# The poker room, its ledger and its agents: a Dafny model

This project models the chip-handling core of the poker ghosts and proves what that code keeps over
every run: a no-limit Texas Hold'em engine, the Cyphers ledger behind it, the table session that moves
chips between the two, and five smaller kernels beside them.

- **A hand** (`PokerTypes`, `Evaluator`, `Pot`, `Engine`, `EngineSteps`): cards, evaluation,
  side pots, dealing, betting, streets and showdown. Each imperative piece of the source is a method
  with its loops and updates, proved equal to a specification function.
- **What hands keep** (`Betting`, `Settlement`, `Payout`, `Hands`, `Conservation`, `ShortBlind`,
  `Termination`, `IdleRaises`, `Match`, `TableRunner`, `LongHands`, `LongestHands`): the betting
  invariant, the payout formula, conservation of chips and cards, how long hands can be, chains of hands,
  and the gate that only lets legal actions through.
- **The deck** (`Deck`): Fisher–Yates as a bijection between choices and orders.
- **The ledger** (`Ledger`, `Audit`, `PersistQueue`): balances, escrowed bounties, the event log, and
  the queue of writes as a state machine over its awaits.
- **The session** (`TableState`, `Session`, `Circulation`): handoffs, hands, cash-outs and cooldowns,
  interleaved in any order.
- **Kernels**: `AnimalAssignment` (optimal assignment with pins and forbids), `SpawnTasks` (which call
  moves a ghost, and which task can stop it), `Legality` (from a menu of plays to a legal action),
  `Equity` (Monte Carlo equity in exact arithmetic), `ActionLine` (printing and parsing an action).

`Seqs` holds sums, counts and multiset facts the others share.

The central result is the invariant `Betting.Inv`. The code never states it, and `gameEngine.ts` and
`pot.ts` only fit together because of it: every player still able to act put the same amount into the
finished streets, nobody put in more, and all-in means an empty stack. From it follow exactly funded
side pots, the payout formula and termination.

Where the code does not do what its documentation or a reader would expect, the model follows the code,
shows a concrete case, and proves exactly when the expectation holds:

- `currentBet` starts at what the big blind could post (gameEngine.ts:91). Betting is sound if and only
  if that covers the small blind's post and somebody is left to act (`Hands.StartsSoundly`,
  `Hands.UnsoundStarts`). Chips and cards are conserved from every deal all the same
  (`Conservation.HandConservesChips`).
- A call of a bet already exceeded takes chips out of the pot (`Conservation.PotDrops`,
  `ShortBlind.ShortBlindRefund`). It can come up in a hand if and only if the small blind posted more
  than the big blind and has chips left (`ShortBlind.GivingBackIsReachable`).
- A round closes by the actors of the whole hand, not of the street (gameEngine.ts:281-285):
  `Betting.StreetClosesExactly`. After the flop one check closes a street on which nothing is bet
  (`Betting.OneCheckCloses`), and every street opens with such a check on offer
  (`Betting.EveryStreetMayCloseAtOnce`).
- A transfer to oneself adds its amount (ledger.ts:207-210): `Audit.SelfTransferMints`. The log replays
  exactly if and only if none went through (`Audit.ReplayIsExactExactly`).
- A handoff for a ghost seated under another session is accepted, debited and not refunded
  (executor.ts:291-420): `Circulation.SecondSessionLosesBuyIn`, `Circulation.HandoffConserves`.
- A raise to no more than the seat has already bet is legal for a seat above the table's bet and changes
  nothing (gameEngine.ts:204-209), so a hand need never end: `IdleRaises.EndlessHand`. Exactly when that
  can happen is `IdleRaises.CanIdle`: the small blind posted more than the big blind, and the bet plus the
  minimum raise, perhaps after an all-in, stays within that post (`IdleRaises.HandsEndExactly`).
- A hand the runner gives up never pays its pot out (table-runner.ts:194-207). There is nobody to act if
  and only if the blinds left nobody with chips (`TableRunner.StillSound`,
  `Circulation.BlindsCanTakeEverything`). The guard of 200 turns cuts legal play off
  (`LongHands.GuardCutsOff`) only where an idle raise is possible or `Termination.TurnLimit` is above 200:
  everybody once, one turn for each later street, and for each raise a round of the others, where raises
  are counted in big blinds up to the smallest stack and in chips from there to the largest but one
  (`TableRunner.GuardSpares`, `TableRunner.RunOneHand`). Between equal stacks, with or without one larger,
  that is exact (`LongestHands.GuardCutsExactly`). Every other hand pays out (`Circulation.HandLossIs`).
- After a repeated raise the substitution in `deduplicate` is unreachable, because its length test is
  always true (candidate-generator.ts:207): `Legality.PushInstead`, `Legality.RepeatedRaiseEndsInFolds`,
  and `Legality.CandidatesDifferExactly` says when three different plays come out.
- A connect that throws leaves its handle behind (random-agent executor.ts:158, outside the `try` at
  259): `SpawnTasks.StaleHandle`, `SpawnTasks.HandleIsThereExactly`.
- A task spawned again loses its metadata to the end of its earlier call, and with it the way to cancel
  the new loop (random-agent executor.ts:382-384): `SpawnTasks.LostLoop`,
  `SpawnTasks.CancellableExactly`.
- A call that connects after it was replaced takes the ghost's client over, and away when it leaves, so
  that the loop which goes on has none (random-agent executor.ts:157-160): `SpawnTasks.LostClient`,
  `SpawnTasks.ClientIsThereExactly`.
- Of fewer than five cards only a pair of the highest rank is seen (evaluator.ts:183):
  `Evaluator.LowerPairIsUnseen`, `Evaluator.ShortHandMeans`.

Randomness, clocks, replies of agents and models, fresh ids and scheduling are parameters or steps that
may come in any order. Amounts are integers. Equity and fitness are exact reals.

## Model

| member | source | states |
|---|---|---|
| Pot.SliceLevel | ghosts/rdc-poker/src/pot.ts:30-43 | one level's pass collects exactly the chips between the two levels and lists exactly the players who put in more than the lower one |
| Pot.SliceTop | ghosts/rdc-poker/src/pot.ts:51-63 | the last pass collects exactly the chips above the highest all-in level, and lists who may win them |
| Pot.CalculateSidePots | ghosts/rdc-poker/src/pot.ts:11-70 | the nested loops produce the pots that the lemmas below speak of, for any players |
| Pot.PotsNeedAnAllIn | ghosts/rdc-poker/src/pot.ts:12-23 | there are side pots if and only if some unfolded player with chips in is all-in, and then they hold the whole unfolded money |
| Pot.PotsHoldTheLiveMoney | ghosts/rdc-poker/src/pot.ts:11-70 | for any contributions, matched or not, the pots, where there are any, sum to what the unfolded players put in |
| Pot.SidePotsAreFullyFunded | ghosts/rdc-poker/src/pot.ts:29-45 | between matched players each pot is its slice times its eligible players, all of whom paid the whole slice: the partial branch never fires |
| Pot.SidePotsAreContested | ghosts/rdc-poker/src/pot.ts:45-67 | for any contributions, every pot holds chips and some unfolded player is eligible for it |
| Pot.ReachIsCapped | ghosts/rdc-poker/src/pot.ts:11-70 | the pots an unfolded player may win hold exactly what the unfolded players put in, each capped at that player's contribution |
| Evaluator.EvaluateFiveCards | ghosts/rdc-poker/src/evaluator.ts:68-171 | the imperative evaluator, its group table and cascade, computes the evaluation that HighestCategory characterises |
| Evaluator.CountRanks | ghosts/rdc-poker/src/evaluator.ts:100-106 | the group table holds each rank with its multiplicity, sorted by count and then rank |
| Evaluator.RunCascade | ghosts/rdc-poker/src/evaluator.ts:112-162 | the if-else cascade over that table agrees with the declarative cascade over the multiplicities |
| Evaluator.CascadeIsHighest | ghosts/rdc-poker/src/evaluator.ts:112-162 | the cascade picks the highest category asked for and lists as many high cards as that category compares |
| Evaluator.WithCountMeans | ghosts/rdc-poker/src/evaluator.ts:100-106 | the ranks of a given multiplicity are exactly those so often held, in strictly descending order |
| Evaluator.HighestCategory | ghosts/rdc-poker/src/evaluator.ts:68-171 | the ranking is the highest category whose order-free definition the five cards meet, the wheel included |
| Evaluator.HighCardsMean | ghosts/rdc-poker/src/evaluator.ts:112-162 | for five cards of one deck: the top of a straight, 5 for the wheel; all ranks of a flush, sorted; otherwise each rank once, by how often it is held and then by height |
| Evaluator.FiveIsOrderFree | ghosts/rdc-poker/src/evaluator.ts:68-171 | ranking and high cards depend only on the multiset of the five cards |
| Evaluator.FiveCardsKept | ghosts/rdc-poker/src/evaluator.ts:162-171 | the evaluation keeps the five cards, highest rank first |
| Evaluator.CombinationsAreComplete | ghosts/rdc-poker/src/evaluator.ts:12-24 | every choice of k of the cards is among the combinations, up to order |
| Evaluator.CombinationsAreSubsets | ghosts/rdc-poker/src/evaluator.ts:12-24 | every combination is k of the cards, none used twice |
| Evaluator.EvaluateHand | ghosts/rdc-poker/src/evaluator.ts:173-220 | for any number of cards: from five on the loop over the combinations returns the first best five, below that the short hand of the next row |
| Evaluator.ShortHandMeans | ghosts/rdc-poker/src/evaluator.ts:179-199 | two to four cards: every rank in descending order, and a pair exactly when the highest rank is held twice |
| Evaluator.LowerPairIsUnseen | ghosts/rdc-poker/src/evaluator.ts:183-199 | a concrete ace with two kings, called ace high |
| Evaluator.BestHandIsAttained | ghosts/rdc-poker/src/evaluator.ts:173-220 | the result is the evaluation of some five of the cards |
| Evaluator.NoFiveBeatIt | ghosts/rdc-poker/src/evaluator.ts:173-220 | no five of the cards compare higher than the result |
| Evaluator.FirstBestIsKept | ghosts/rdc-poker/src/evaluator.ts:209-217 | of equally good fives the one listed first is kept |
| Evaluator.MoreCardsNeverHurt | ghosts/rdc-poker/src/evaluator.ts:173-220 | evaluating a superset of cards never compares lower |
| Evaluator.BestHandIsOrderFree | ghosts/rdc-poker/src/evaluator.ts:173-220 | ranking and high cards depend only on the multiset of all the cards |
| Evaluator.CompareHands | ghosts/rdc-poker/src/evaluator.ts:222-232 | the comparison loop computes the order of the next three rows |
| Evaluator.HigherHandWins | ghosts/rdc-poker/src/evaluator.ts:222-232 | an evaluation wins if and only if its category is higher, or it is the same and the first high card that differs is higher |
| Evaluator.RankOrder | ghosts/rdc-poker/src/constants.ts:41-52 | the categories in the order of poker |
| Evaluator.CompareFlips | ghosts/rdc-poker/src/evaluator.ts:222-232 | comparing the other way round negates the result, so any two evaluations are comparable |
| Evaluator.CompareChains | ghosts/rdc-poker/src/evaluator.ts:222-232 | the order is transitive on evaluations, and a tie end to end is a tie at each step |
| Evaluator.TiesAreEqual | ghosts/rdc-poker/src/evaluator.ts:222-232 | two evaluations tie if and only if ranking and high cards are the same |
| Engine.CreateNewHand | ghosts/rdc-poker/src/gameEngine.ts:23-98 | the dealing loop and the blinds leave the table described by Hands.NewSeats, whatever the dealer's seat |
| Engine.DealHoleCards | ghosts/rdc-poker/src/gameEngine.ts:50-56 | the loop that serves seats starting left of the dealer gives every seat its own two cards off the top |
| Engine.DealOrderInverts | ghosts/rdc-poker/src/gameEngine.ts:50-53 | the seat served k-th is the k-th after the dealer, modulo the table |
| Engine.FindNextActivePlayer | ghosts/rdc-poker/src/gameEngine.ts:100-110 | the loop returns the nearest following seat that can act, or -1 when there is none |
| Engine.DealRemainingBoard | ghosts/rdc-poker/src/gameEngine.ts:353-365 | the loop leaves a five-card board made of the old board and the next cards of the deck |
| EngineSteps.TakeAction | ghosts/rdc-poker/src/gameEngine.ts:182-238 | the switch updates the actor's seat and the table's betting, field by field, to the state the betting lemmas reason about |
| EngineSteps.PlayAction | ghosts/rdc-poker/src/gameEngine.ts:166-252 | applyAction as a whole: one action, then the hand goes on, changes street, or ends |
| EngineSteps.NextPhase | ghosts/rdc-poker/src/gameEngine.ts:288-351 | advancePhase: bets cleared, pots drawn up, board dealt, next actor or showdown |
| EngineSteps.ResolveShowdown | ghosts/rdc-poker/src/gameEngine.ts:394-495 | side pots, leftover pot, single pot and grouping of the winners, paid seat by seat |
| EngineSteps.ResolveHand | ghosts/rdc-poker/src/gameEngine.ts:371-392 | the last player left takes the whole pot, unseen |
| EngineSteps.PayWinners | ghosts/rdc-poker/src/gameEngine.ts:423-435 | each winner of a pot is paid the same share, rounded down, and listed |
| EngineSteps.PaySidePots | ghosts/rdc-poker/src/gameEngine.ts:413-438 | every side pot is paid to its best eligible hands |
| EngineSteps.GroupWinners | ghosts/rdc-poker/src/gameEngine.ts:480-490 | the payments are grouped into one entry per player |
| Hands.NewSeats | ghosts/rdc-poker/src/gameEngine.ts:31-76 | who posted what, who holds which cards and who is first to act in a new hand |
| Hands.WhoPosted | ghosts/rdc-poker/src/gameEngine.ts:47-76 | seat by seat: the two cards, the blind posted by the first and the second seat after the dealer as far as the stack goes, nothing by the others, and who is all-in |
| Hands.StartsSoundly | ghosts/rdc-poker/src/gameEngine.ts:58-91 | a new hand satisfies the betting invariant if and only if the big blind's post covers the small blind's and somebody still has chips to act with |
| Hands.UnsoundStarts | ghosts/rdc-poker/src/gameEngine.ts:76-91 | concrete tables for both ways that fails: a big blind posted short, and a first actor of -1 |
| Betting.SomeActionIsLegal | ghosts/rdc-poker/src/gameEngine.ts:121-164 | while the invariant holds the player to act can always fold or go all-in |
| Betting.MenuMeans | ghosts/rdc-poker/src/gameEngine.ts:143-164 | told by what the actions do: a check is offered if a call would cost nothing, a call if it costs something and leaves chips, a raise if going all-in would lift the bet by the minimum, an all-in always |
| Betting.RaiseLimits | ghosts/rdc-poker/src/gameEngine.ts:149-161 | the least raise lifts the bet by exactly the minimum, the most takes the whole stack |
| Betting.NothingOffered | ghosts/rdc-poker/src/gameEngine.ts:125-141 | a stranger, a folded and an all-in player are offered nothing |
| Betting.ActionEffects | ghosts/rdc-poker/src/gameEngine.ts:182-238 | what each legal action pays out of the stack into bet and pot, the bet it leaves, and who is folded or all-in after it |
| Betting.ActKeepsTable | ghosts/rdc-poker/src/gameEngine.ts:166-238 | a legal action keeps: bets at most the table bet, all-in exactly at stack 0, equal contributions from finished streets, pot equal to the contributions |
| Betting.ActorMeetsBet | ghosts/rdc-poker/src/gameEngine.ts:182-238 | whoever does not fold has met the table's bet afterwards or is all-in; nobody else changes |
| Betting.MinimumRaise | ghosts/rdc-poker/src/gameEngine.ts:204-237 | the bet to meet never falls, a raise is at least the minimum and becomes the next minimum, and only an all-in can lower the minimum |
| Betting.BigBlindGetsItsOption | ghosts/rdc-poker/src/gameEngine.ts:269-286 | a big blind who can act and has not keeps the street open whatever the bet, so the special case for it never decides |
| Betting.StreetClosesExactly | ghosts/rdc-poker/src/gameEngine.ts:254-286 | on any street, betting closes if and only if everyone able to act has met the bet and has acted in the hand |
| Betting.OneCheckCloses | ghosts/rdc-poker/src/gameEngine.ts:281-286 | after the flop, while nothing is bet, any one check closes the street, however many could still act |
| Betting.EveryStreetMayCloseAtOnce | ghosts/rdc-poker/src/gameEngine.ts:310-346 | every street that opens offers its first actor such a check |
| Betting.CloseKeepsTable | ghosts/rdc-poker/src/gameEngine.ts:288-303 | closing a street leaves every player able to act with the maximum contribution, and side pots drawn up exactly when someone is all-in |
| Betting.CloseToShowdown | ghosts/rdc-poker/src/gameEngine.ts:305-351 | with at most one player able to act, or on the river, the hand goes to showdown on a full board between matched players |
| Betting.CloseToStreet | ghosts/rdc-poker/src/gameEngine.ts:310-346 | otherwise the next street opens with the invariant and an actor |
| Betting.FirstAfterDealer | ghosts/rdc-poker/src/gameEngine.ts:341-347 | the next street is opened by the first player after the dealer who can act |
| Betting.ActionOutcome | ghosts/rdc-poker/src/gameEngine.ts:166-252 | every legal action keeps the invariant, or leaves one player, or ends at a showdown between matched players |
| Betting.NobodyNext | ghosts/rdc-poker/src/gameEngine.ts:100-110 | the search for the next actor fails only if nobody at the table can act |
| Hands.RunOutcome | ghosts/rdc-poker/src/gameEngine.ts:166-351 | over every run of legal actions the invariant holds until the hand ends by a fold or at a showdown |
| Settlement.WinnersAreUnbeaten | ghosts/rdc-poker/src/gameEngine.ts:415-422 | a pot's winners are exactly its contenders that no contender beats, and there is one |
| Settlement.BestWinsAlone | ghosts/rdc-poker/src/gameEngine.ts:415-422 | a hand that beats all others wins each pot it contends for alone |
| Settlement.SidePaymentsBounded | ghosts/rdc-poker/src/gameEngine.ts:413-438 | the side pots pay a player no more than the pots that player is eligible for |
| Settlement.SidePaymentsToBest | ghosts/rdc-poker/src/gameEngine.ts:413-438 | the strictly best hand is paid every pot it is eligible for in full |
| Settlement.SidePaymentsToUnbeaten | ghosts/rdc-poker/src/gameEngine.ts:413-438 | an unbeaten hand is paid an equal share, rounded down, of every pot it is eligible for |
| Settlement.SidePaymentsTotal | ghosts/rdc-poker/src/gameEngine.ts:413-438 | what the side pots pay out is their total less the remainders |
| Settlement.DedupeLists | ghosts/rdc-poker/src/gameEngine.ts:480-490 | the reported winners name each paid player once and nobody else |
| Settlement.DedupeAmounts | ghosts/rdc-poker/src/gameEngine.ts:480-490 | each reported amount is everything that player was paid, and the amounts sum to all that was paid |
| Settlement.CreditTotal | ghosts/rdc-poker/src/gameEngine.ts:425-435 | crediting payments raises the stacks by exactly their sum |
| Payout.LeftoverIsFoldedMoney | ghosts/rdc-poker/src/gameEngine.ts:439-441 | the remaining pot beside side pots is exactly the folded players' money, never negative |
| Payout.EveryPotIsWon | ghosts/rdc-poker/src/gameEngine.ts:413-438 | every side pot finds a winner among the hands shown |
| Payout.BestHandTakes | ghosts/rdc-poker/src/gameEngine.ts:394-478 | the strictly best hand receives the sum over unfolded players of min(their contribution, its own) plus all folded money, with side pots or without |
| Payout.BeatenHandTakesAtMost | ghosts/rdc-poker/src/gameEngine.ts:394-478 | a hand somebody beats receives between nothing and the sum over unfolded players of min(their contribution, its own) |
| Payout.UnbeatenTakesItsShares | ghosts/rdc-poker/src/gameEngine.ts:394-478 | an unbeaten hand receives its equal share of every pot it is eligible for and of the money outside the side pots, each rounded down, with side pots or without |
| Payout.FoldPaysTheLast | ghosts/rdc-poker/src/gameEngine.ts:371-392 | a hand won by a fold gives the whole pot to the one unfolded player, changes no other seat and reports that one winner |
| Payout.FoldedTakesNothing | ghosts/rdc-poker/src/gameEngine.ts:394-478 | a folded player receives nothing |
| Payout.PaidInAll | ghosts/rdc-poker/src/gameEngine.ts:394-478 | a showdown pays out the pot less, for each pot, its amount modulo its number of winners |
| Payout.ShowdownConserves | ghosts/rdc-poker/src/gameEngine.ts:394-495 | stacks and pot before a showdown equal stacks after it plus those remainders |
| Payout.WinnersAreReported | ghosts/rdc-poker/src/gameEngine.ts:480-495 | the winners list has one entry per player, carries exactly what each was paid, and sums to what was paid |
| Payout.EachPotsDust | ghosts/rdc-poker/src/gameEngine.ts:423-435 | each pot, and the money outside the side pots, rounds away less than one chip per winner of it; in all less than the hands shown for each |
| Hands.WinnerOfAHand | ghosts/rdc-poker/src/gameEngine.ts:23-478 | read off the final state of any sound hand that reached a showdown: the payout formula for the strictly best hand |
| Hands.LoserOfAHand | ghosts/rdc-poker/src/gameEngine.ts:23-478 | and the bound for every unfolded hand that somebody beats |
| Conservation.ActShifts | ghosts/rdc-poker/src/gameEngine.ts:166-238 | from any deal, also one with a short big blind, a legal action only moves chips between one stack and the middle |
| Conservation.PotDrops | ghosts/rdc-poker/src/gameEngine.ts:190-203 | a legal action lowers the pot if and only if it calls a bet the seat has already exceeded |
| ShortBlind.GivingBackIsReachable | ghosts/rdc-poker/src/gameEngine.ts:58-91 | some run of a deal has such a call if and only if the small blind's post exceeds the big blind's and the small blind has chips left |
| ShortBlind.ShortBlindRefund | ghosts/rdc-poker/src/gameEngine.ts:137-155 | a concrete one: a legal call of minus 5 that takes the pot from 15 to 10 |
| Conservation.RunHasMover | ghosts/rdc-poker/src/gameEngine.ts:166-351 | from every deal and over every run an unfinished hand has a player to act who can, unless nobody could to begin with and nothing has happened |
| Conservation.HandConservesChips | ghosts/rdc-poker/src/gameEngine.ts:23-495 | from every deal and over every run, stacks plus pot stay what the players brought; a fold loses nothing and a showdown exactly its remainders |
| Conservation.StacksStayWhole | ghosts/rdc-poker/src/gameEngine.ts:23-495 | from every deal and over every run, the seats keep their ids and no stack is negative |
| Conservation.CardsComeOffTheTop | ghosts/rdc-poker/src/gameEngine.ts:47-56 | from every deal and over every run, hole cards and board are consecutive, disjoint pieces of the deck |
| Match.StartNextHand | ghosts/rdc-poker/src/gameEngine.ts:497-514 | the next hand is dealt to the players with chips, the button moved on, or the table waits |
| Match.ButtonMovesOn | ghosts/rdc-poker/src/gameEngine.ts:498-511 | the survivors in their order, the same blinds, and a button counted one place on modulo the players left |
| Match.ButtonGoesRound | ghosts/rdc-poker/src/gameEngine.ts:504-505 | with nobody out the button goes to the next seat |
| Match.NextHandKeepsChips | ghosts/rdc-poker/src/gameEngine.ts:497-514 | starting the next hand changes nobody's chips and drops only players with none |
| Match.ChainConserves | ghosts/rdc-poker/src/gameEngine.ts:371-514 | over any chain of finished hands the players left hold what the first ones brought less the showdowns' remainders |
| Termination.ActionLowersTurns | ghosts/rdc-poker/src/gameEngine.ts:166-351 | from any deal, every legal action that is no idle raise and does not end the hand lowers the turns still possible: those left on the street, a round for each raise the stacks leave room for, one for each later street |
| Termination.PassingShortens | ghosts/rdc-poker/src/gameEngine.ts:100-110 | without a raise, passing the turn on leaves fewer seats before the last one that still has to act |
| Termination.HandsAreFinite | ghosts/rdc-poker/src/gameEngine.ts:23-351 | from every deal, a run of legal actions without an idle raise is no longer than TurnLimit, which is read off the stacks and the blinds |
| IdleRaises.HandsEndExactly | ghosts/rdc-poker/src/gameEngine.ts:58-217 | the runs of a deal have a bound, and then TurnLimit is one, if and only if the small blind can never be offered a minimum raise within its own post: not at once, and not after the all-in of somebody before it |
| IdleRaises.EndlessHand | ghosts/rdc-poker/src/gameEngine.ts:204-209 | a concrete deal at blinds 10 and 20 with legal runs of any length: a small blind of 10 that raises to 9 and changes nothing |
| TableRunner.RunOneHand | ghosts/rdc-poker-session/src/table-runner.ts:144-310 | the actions are those the replies ask for, turn by turn, until the hand stops or a reply is missing or refused, which is the error returned; the hand is unfinished only with 200 turns spent, or untouched because the blinds left nobody to act, which always leaves it unfinished; and it is complete whenever TurnLimit is at most 200, somebody is left to act and no idle raise is possible |
| TableRunner.FollowedIsLegal | ghosts/rdc-poker-session/src/table-runner.ts:229-300 | the actions the runner asked of its agents, turn by turn, are a legal run |
| TableRunner.GateIsSound | ghosts/rdc-poker-session/src/table-runner.ts:362-419 | whatever the reply, an action parseAction lets through is legal |
| TableRunner.GateReads | ghosts/rdc-poker-session/src/table-runner.ts:362-419 | which of the three errors a reply draws, and otherwise the action it names, a raise at the nearest amount allowed and every other action at the amount offered |
| TableRunner.GateIsComplete | ghosts/rdc-poker-session/src/table-runner.ts:362-419 | an action is legal if and only if parseAction lets its own printout through unchanged |
| TableRunner.StillSound | ghosts/rdc-poker-session/src/table-runner.ts:196-207 | from any deal: every run finds an actor, with an action, until the hand is over, if and only if the blinds leave somebody with chips |
| TableRunner.GuardSpares | ghosts/rdc-poker-session/src/table-runner.ts:179-195 | from any deal where no idle raise is possible, a hand that is not over has used fewer turns than TurnLimit |
| LongHands.GuardCutsOff | ghosts/rdc-poker-session/src/table-runner.ts:179-195 | a concrete legal run of 200 actions that is still before the flop, where the guard gives up a pot of 802 |
| LongestHands.Lasts | ghosts/rdc-poker/src/gameEngine.ts:166-351 | between even stacks, from any point below all-in, some legal run uses up every turn still possible, so the limit is attained |
| LongestHands.GuardCutsExactly | ghosts/rdc-poker-session/src/table-runner.ts:179-195 | with one deck, the small blind at most the big one and all stacks but one larger one equal, so in every hand of two: some legal run is cut off if and only if TurnLimit is above 200 or an idle raise is possible |
| Deck.CreateDeck | ghosts/rdc-poker/src/deck.ts:8-16 | suit by suit and rank by rank, 52 cards |
| Deck.DeckIsComplete | ghosts/rdc-poker/src/deck.ts:8-16 | the new deck holds every card exactly once |
| Deck.ShuffleDeck | ghosts/rdc-poker/src/deck.ts:18-25 | the in-place loop computes the arrangement its random choices determine |
| Deck.ShuffleIsPermutation | ghosts/rdc-poker/src/deck.ts:18-25 | a shuffle only rearranges |
| Deck.ShuffleIsInjective | ghosts/rdc-poker/src/deck.ts:18-25 | different choices give different orders of a deck without duplicates |
| Deck.ShuffleIsSurjective | ghosts/rdc-poker/src/deck.ts:18-25 | every order of the deck is reached by some choices |
| Deck.EveryOrderExactlyOnce | ghosts/rdc-poker/src/deck.ts:18-25 | choices and orders correspond one to one |
| Ledger.CyphersLedger.constructor | ghosts/rdc-ledger/src/ledger.ts:80-88 | a new ledger is empty |
| Ledger.CyphersLedger.GetBalance | ghosts/rdc-ledger/src/ledger.ts:126-131 | reading an unseen balance records the starting balance and changes nothing else |
| Ledger.CyphersLedger.Award | ghosts/rdc-ledger/src/ledger.ts:134-152 | a positive award raises one balance and logs it; anything else is refused and changes nothing |
| Ledger.CyphersLedger.Debit | ghosts/rdc-ledger/src/ledger.ts:155-181 | a covered positive debit lowers one balance and logs it; otherwise only the balance read is recorded |
| Ledger.CyphersLedger.Transfer | ghosts/rdc-ledger/src/ledger.ts:187-221 | the whole new book, including the transfer to oneself, where the second write wins, and one write queued per success |
| Ledger.CyphersLedger.PlaceBounty | ghosts/rdc-ledger/src/ledger.ts:232-267 | debit, bounty and log entry, or the debit's own refusal; two writes queued |
| Ledger.CyphersLedger.ClaimBounty | ghosts/rdc-ledger/src/ledger.ts:274-301 | an open bounty is paid once to someone other than its target and returned as claimed by them, with every refusal |
| Ledger.CyphersLedger.RevokeBounty | ghosts/rdc-ledger/src/ledger.ts:304-320 | an open bounty is refunded to its placer and returned as revoked, with every refusal |
| Audit.OpKeepsAudit | ghosts/rdc-ledger/src/ledger.ts:126-320 | every operation, failed or not, keeps the log in step with bounties and balances |
| Ledger.OpSucceedsExactly | ghosts/rdc-ledger/src/ledger.ts:126-320 | each operation goes through if and only if its amount is positive and covered, or the bounty is open and claimed by anybody but its target |
| Ledger.RefusalsMean | ghosts/rdc-ledger/src/ledger.ts:126-320 | what each of the five refusals says of the operation and the book |
| Ledger.OpBalances | ghosts/rdc-ledger/src/ledger.ts:126-320 | what an operation that goes through does to every balance, a refused one to none; and one write is queued per event logged |
| Audit.LogAccountsForEverything | ghosts/rdc-ledger/src/ledger.ts:126-320 | after any operations the log alone reproduces every bounty and its status, and every balance less what self-transfers added |
| Audit.ReplayIsExactUnlessSelfTransfer | ghosts/rdc-ledger/src/ledger.ts:207-221 | replay gives back every balance if and only if the log holds no transfer to oneself |
| Audit.ReplayIsExactExactly | ghosts/rdc-ledger/src/ledger.ts:187-221 | and that is so if and only if no operation was a transfer of a positive amount to its own sender who had it, as can be seen before each operation |
| Audit.SelfTransferMints | ghosts/rdc-ledger/src/ledger.ts:187-221 | a concrete self-transfer of 300 that leaves 1300 from 1000 |
| Audit.NeverOverdrawn | ghosts/rdc-ledger/src/ledger.ts:155-221 | no operations take a balance below zero, or below a negative starting balance |
| Audit.NobodyClaimsHisOwnBounty | ghosts/rdc-ledger/src/ledger.ts:274-301 | after any operations a bounty is claimed exactly when it names a claimer, who is not its target |
| Audit.EscrowPaidAtMostOnce | ghosts/rdc-ledger/src/ledger.ts:274-320 | after any operations each bounty's escrow has been paid out once if it is no longer open and otherwise never |
| Audit.OpConserves | ghosts/rdc-ledger/src/ledger.ts:126-320 | balances and escrow together change by exactly what awards and debits intend and a self-transfer adds |
| PersistQueue.DiskIsAnOperationBoundary | ghosts/rdc-ledger/src/ledger.ts:412-432 | over every interleaving of operations with the steps and failures of queued writes, the file is missing or a whole ledger as it stood between two operations |
| PersistQueue.DiskNeverGoesBack | ghosts/rdc-ledger/src/ledger.ts:417-432 | the file never falls back to an older ledger |
| PersistQueue.StepKeepsInv | ghosts/rdc-ledger/src/ledger.ts:417-432 | each step of a write, mkdir, snapshot, writeFile, rename or failure, and each operation keeps: memory is all operations so far, the snapshot and the file are prefixes of them, and with nothing left to write the latest snapshot reads as memory |
| PersistQueue.DrainedDiskIsMemory | ghosts/rdc-ledger/src/ledger.ts:417-432 | with the queue drained and the last write through, the file reads as memory does, an absent balance counting as the starting balance |
| PersistQueue.DiskConserves | ghosts/rdc-ledger/src/ledger.ts:232-267 | the file always holds the starting money plus what its operations issued, escrow included: never a debit without its bounty |
| TableState.ActiveTable.constructor | ghosts/rdc-poker-session/src/table-state.ts:104 | a new table is empty |
| TableState.ActiveTable.TakeSeat | ghosts/rdc-poker-session/src/table-state.ts:117-122 | seated, full or already here, and the seats that follow |
| TableState.ActiveTable.Release | ghosts/rdc-poker-session/src/table-state.ts:124-129 | the ghost's seat is removed and returned, the others keep their order |
| TableState.ActiveTable.SetCooldown | ghosts/rdc-poker-session/src/table-state.ts:147-153 | a wait until now plus the duration, or none |
| TableState.ActiveTable.CooldownRemainingMs | ghosts/rdc-poker-session/src/table-state.ts:159-168 | the time left, never negative, forgetting what has run out |
| TableState.SeatingKeepsFit | ghosts/rdc-poker-session/src/table-state.ts:117-122 | seating keeps one seat per ghost and the capacity |
| TableState.TableFillsUp | ghosts/rdc-poker-session/src/table-state.ts:117-122 | an empty table seats whoever comes until its capacity is reached, and then nobody |
| TableState.CooldownRunsOut | ghosts/rdc-poker-session/src/table-state.ts:147-168 | a cooldown leaves exactly what is left of its duration, then nothing, and reading one changes no wait |
| TableState.ReleaseFacts | ghosts/rdc-poker-session/src/table-state.ts:124-129 | releasing frees exactly one ghost's seat |
| TableState.ReleaseKeepsOrder | ghosts/rdc-poker-session/src/table-state.ts:124-129 | the seats behind the one released move up in their order |
| Session.HandleHandoff | ghosts/rdc-poker-session/src/executor.ts:256-428 | the handler, step by step on the shared table and ledger, reaches the room and answer that HandoffCases analyses |
| Session.ReleasePlayer | ghosts/rdc-poker-session/src/session-loop.ts:519-544 | cash-out, cooldown and release on the shared objects |
| Session.SplitSeated | ghosts/rdc-poker-session/src/session-loop.ts:167-178 | every seat is either played, with chips, or evicted, without |
| Circulation.DealPicks | ghosts/rdc-poker-session/src/session-loop.ts:160-180 | a hand is dealt exactly when enough seats have chips, to all those; the others are to be released either way |
| Session.Settle | ghosts/rdc-poker-session/src/session-loop.ts:322-333 | the loop writes each final stack onto its seat and lists the busted ones |
| Circulation.HandoffCases | ghosts/rdc-poker-session/src/executor.ts:291-420 | exactly when a handoff is seated, refunded, taken for a ghost already seated under another session, or refused; what each does; and that it is accepted exactly in the first and third case or on a retry of the same session |
| Circulation.HandoffConserves | ghosts/rdc-poker-session/src/executor.ts:338-420 | ledger plus table are unchanged by a handoff if and only if it is not a second session of a seated ghost that passes the gates; then the buy-in is lost |
| Circulation.SecondSessionLosesBuyIn | ghosts/rdc-poker-session/src/executor.ts:291-300 | a concrete second session: accepted, no new seat, 100 gone |
| Circulation.ReleaseConserves | ghosts/rdc-poker-session/src/session-loop.ts:525-544 | a cash-out moves a seat's chips to the ledger, whole |
| Circulation.SettleTotal | ghosts/rdc-poker-session/src/session-loop.ts:322-344 | settlement replaces the chips a hand started with by those it ended with, and touches no other seat |
| Circulation.BustedFacts | ghosts/rdc-poker-session/src/session-loop.ts:322-333 | exactly the players whose hand ended without chips are to be released |
| Circulation.BustedAllGo | ghosts/rdc-poker-session/src/session-loop.ts:346-560 | releasing them one by one frees the seats of all of them and no other |
| Circulation.HandLossIs | ghosts/rdc-poker-session/src/session-loop.ts:286-344 | wherever the runner stops, the stacks hold what was brought less nothing after a fold, the remainders after a showdown, or the pot of a hand given up: one with nobody left to act, or one whose TurnLimit is above 200 or that allows an idle raise |
| Circulation.BlindsCanTakeEverything | ghosts/rdc-poker-session/src/table-runner.ts:194-207 | a concrete hand: the blinds put both players all-in, nobody is to act, and settlement leaves both with nothing |
| Circulation.StepConserves | ghosts/rdc-poker-session/src/session-loop.ts:160-560 | each handoff, deal, throw, settlement, release, departure or ledger operation changes the total by exactly what it issues and loses: a second session's buy-in, or what the hand of the row above costs |
| Circulation.SessionConserves | ghosts/rdc-poker-session/src/session-loop.ts:160-590 | over every interleaving, balances, escrow and stacks change by exactly what was issued and the losses of the steps, each of them a buy-in, remainders or a pot given up; seats stay within capacity and one to a ghost |
| Circulation.SessionKeepsEverything | ghosts/rdc-poker-session/src/session-loop.ts:149-590 | the same from the opening of the table on: what was on the ledger is on it, in escrow or on the table, but for those losses and issues |
| Circulation.StepKeepsSound | ghosts/rdc-poker-session/src/session-loop.ts:160-560 | every step keeps the seats within capacity, one to a ghost, never in debt |
| Circulation.CooldownBars | ghosts/rdc-poker-session/src/table-state.ts:159-168 | until a cooldown has run out no interleaving seats its ghost |
| Circulation.ReleasedStaysOut | ghosts/rdc-poker-session/src/session-loop.ts:535-544 | a ghost that busted stays out for two minutes, one that left for half a minute |
| AnimalAssignment.PickPermutations | ghosts/rdc-poker-session/src/animal-assignment.ts:137-148 | the recursive generator's yields, in order |
| AnimalAssignment.PicksAreChoices | ghosts/rdc-poker-session/src/animal-assignment.ts:133-148 | it yields exactly the ordered choices of n different items, for any n |
| AnimalAssignment.PicksOnceEach | ghosts/rdc-poker-session/src/animal-assignment.ts:133-148 | and none of them twice |
| AnimalAssignment.AssignUnique | ghosts/rdc-poker-session/src/animal-assignment.ts:74-93 | distinct types of maximal total fitness, the first such in the order of enumeration |
| AnimalAssignment.NoBetterSwap | ghosts/rdc-poker-session/src/animal-assignment.ts:74-93 | in an optimum no two players would gain by swapping |
| AnimalAssignment.NoBetterUnused | ghosts/rdc-poker-session/src/animal-assignment.ts:74-93 | in an optimum no player would gain by an unused type |
| AnimalAssignment.PinsAreHonoured | ghosts/rdc-poker-session/src/animal-assignment.ts:50-68 | all pins are honoured if and only if they ask for different types, as long as no unpinned player's adjusted ratings are 100 apart |
| AnimalAssignment.OutweighedPin | ghosts/rdc-poker-session/src/animal-assignment.ts:59-61 | a concrete pin that loses its type to a rating of 200 |
| AnimalAssignment.DeniedOnlyWhenForced | ghosts/rdc-poker-session/src/animal-assignment.ts:50-68 | where whoever is denied a type prefers every other one by more than the rest do, a denied type is assigned if and only if there are five players with different pins, none of them to it, and every unpinned one denied it |
| AnimalAssignment.SliderRatingsAreMild | ghosts/rdc-poker-session/src/animal-assignment.ts:23-68 | fitness above 0 and at most 1 satisfies the conditions of all the rows on pins and forbids, whatever the constraints |
| AnimalAssignment.AssignWithReuse | ghosts/rdc-poker-session/src/animal-assignment.ts:95-131 | each player in order of preference gets the pick of the next row, and with five or more players every type is on the table |
| AnimalAssignment.PickMeans | ghosts/rdc-poker-session/src/animal-assignment.ts:107-127 | a pick is rated at least as high as every type not taken before, strictly higher than those listed earlier, and the first five differ; from the sixth player on the same against all types |
| AnimalAssignment.SortedIsOrdered | ghosts/rdc-poker-session/src/animal-assignment.ts:100-104 | the players are served with the highest top rating first |
| AnimalAssignment.SortIsStable | ghosts/rdc-poker-session/src/animal-assignment.ts:100-104 | players of equal preference are served in the order given |
| AnimalAssignment.AssignAnimals | ghosts/rdc-poker-session/src/animal-assignment.ts:44-72 | up to five players: an optimum of the adjusted fitness; more: the greedy picks on the adjusted fitness, of which the next two rows speak; from five on: every type used |
| AnimalAssignment.GreedyPins | ghosts/rdc-poker-session/src/animal-assignment.ts:50-72 | more than five players, no other rating reaching 100: every pin is honoured if and only if no two of the first five served are pinned to one type |
| AnimalAssignment.GreedyDenials | ghosts/rdc-poker-session/src/animal-assignment.ts:64-72 | a player rating every other type above the one denied to it is given the denied one if and only if it is the fifth served and nobody before it took the type |
| SpawnTasks.RandomWanderer.RegisterSpawnTask | ghosts/random-agent/src/executor.ts:102-109 | the task recorded for the ghost before loses its metadata, unless it is the same |
| SpawnTasks.RandomWanderer.CancelMovementForGhost | ghosts/random-agent/src/executor.ts:130-136 | clears the flag behind the ghost's handle and removes nothing |
| SpawnTasks.RandomWanderer.BeginSpawn | ghosts/random-agent/src/executor.ts:143-152 | everything a spawn does before its first await, for any task and ghost, spawned before or not |
| SpawnTasks.RandomWanderer.LeaveLoop | ghosts/random-agent/src/executor.ts:324-333 | the finally block removes the handle and client only if they are still its own |
| SpawnTasks.RandomWanderer.FinishExecute | ghosts/random-agent/src/executor.ts:376-399 | the final event is published only while the task's metadata names the call's ghost |
| SpawnTasks.RandomWanderer.CancelTask | ghosts/random-agent/src/executor.ts:488-507 | stops the loop of the ghost in the metadata, removes the metadata and always publishes |
| SpawnTasks.StepKeepsSound | ghosts/random-agent/src/executor.ts:102-507 | each step of any interleaving keeps: only a ghost's latest call goes on, handles are exactly those of latest calls not yet left, metadata names the ghost's latest task, one closing event per spawn |
| SpawnTasks.OneLoopPerGhost | ghosts/random-agent/src/executor.ts:130-152 | over every run at most one live loop per ghost has not been told to stop |
| SpawnTasks.HandleIsThereExactly | ghosts/random-agent/src/executor.ts:143-158 | over every run a ghost has a handle if and only if its latest call has not left its loop, or never entered it because connecting threw; and the handle is that call's |
| SpawnTasks.StaleHandle | ghosts/random-agent/src/executor.ts:152-158 | a concrete run after which the call has returned and the handle is still there |
| SpawnTasks.ClientIsThereExactly | ghosts/random-agent/src/executor.ts:157-160 | over every run a ghost has a client if and only if the call that connected last is in its loop, and the client is that call's |
| SpawnTasks.LostClient | ghosts/random-agent/src/executor.ts:157-160 | a concrete going loop without its client: the call it replaced connected late and took the client with it |
| SpawnTasks.FinishPublishes | ghosts/random-agent/src/executor.ts:376-399 | nothing once the metadata is gone, else failed if connecting or the loop threw and completed if not |
| SpawnTasks.CancelAnswers | ghosts/random-agent/src/executor.ts:488-507 | a cancel always publishes its answer and removes the metadata of that task and no other |
| SpawnTasks.CancelTouchesOnlyItsOwn | ghosts/random-agent/src/executor.ts:488-507 | a cancel changes no other task's call, and stops the ghost if the task still has metadata |
| SpawnTasks.RespawnTakesOver | ghosts/random-agent/src/executor.ts:102-152 | after a respawn every earlier loop of the ghost has been told to stop, and cancelling any other task leaves the new loop going |
| SpawnTasks.ClosedAtMostOncePerSpawn | ghosts/random-agent/src/executor.ts:380-399 | a task's terminal events and the cancels that found it are together at most as many as its spawns |
| SpawnTasks.CancellableExactly | ghosts/random-agent/src/executor.ts:368-395 | a going loop is stopped by cancelling its task if and only if no step since its spawn has overtaken it: an earlier call of its task and ghost finishing, its task spawned for another ghost, or another task spawned for such a ghost |
| SpawnTasks.SpawnedOnceIsCancellable | ghosts/random-agent/src/executor.ts:368-395 | a loop whose task was spawned once can always be stopped, whatever the other tasks do |
| SpawnTasks.LostLoop | ghosts/random-agent/src/executor.ts:376-386 | a concrete loop that goes on and that no cancel of its task reaches: the task was spawned twice, and the first call's end took the metadata |
| Legality.Deduplicate | ghosts/rdc-poker-session/src/candidate-generator.ts:185-227 | the loop over the triple with its set of seen plays, jitter, substitution and padding |
| Legality.PushInstead | ghosts/rdc-poker-session/src/candidate-generator.ts:196-221 | the branch for a repeated play; after a repeated raise the substitution is never reached |
| Legality.GenerateCandidates | ghosts/rdc-poker-session/src/candidate-generator.ts:76-112 | the plays shown are the finalized ones in the shuffled order, and the reported place is that of the first |
| Legality.CandidatesAreLegal | ghosts/rdc-poker-session/src/candidate-generator.ts:436-444 | for any raw plays and any menu of a player able to act: three candidates, all legal and in range, repeated only by padding |
| Legality.LegalizedMeans | ghosts/rdc-poker-session/src/candidate-generator.ts:143-180 | a legal play keeps its action; an illegal raise becomes a call or else a check, an all-in a raise or else a call, a call a check, a check a call, and a fold only with none of these on offer; amounts are the menu's, a raise's the nearest to the one asked for |
| Legality.CandidatesDifferExactly | ghosts/rdc-poker-session/src/candidate-generator.ts:185-227 | for an actor with chips the three candidates differ if and only if more than fold and all-in is on offer, and the plays are not raises and folds with one size to raise to |
| Legality.RepeatedRaiseEndsInFolds | ghosts/rdc-poker-session/src/candidate-generator.ts:196-226 | a concrete repeated raise: the candidates end in two folds although a call and an all-in are legal and unused |
| Legality.UnfinishedHasActor | ghosts/rdc-poker/src/gameEngine.ts:121-164 | every unfinished hand that started soundly has an actor, whose menu is that of an actor with chips |
| Legality.ValidationIsSound | ghosts/rdc-poker-session/src/poker-brain.ts:382-418 | validateAction comes out in the menu for any input, and is the identity on a play if and only if the play is in the menu |
| Legality.ValidationMeans | ghosts/rdc-poker-session/src/poker-brain.ts:382-418 | a raise that is possible comes to the nearest amount, another possible action keeps its name, and anything else becomes a check, or else a call, or else a fold |
| Legality.LockedToCandidates | ghosts/rdc-poker-session/src/poker-brain.ts:220-305 | any reply picks one of the three, a letter the one it names |
| Legality.ReplyWithoutLetter | ghosts/rdc-poker-session/src/poker-brain.ts:220-305 | without a letter the first candidate with the named action is played, and failing that the first |
| Legality.FreeReplyMeans | ghosts/rdc-poker-session/src/poker-brain.ts:220-305 | without candidates the named action is validated, a missing one as a fold and a missing amount as none; with no reply a check, or else a call, or else a fold |
| Legality.GatePassesMenu | ghosts/rdc-poker-session/src/table-runner.ts:362-419 | the table's gate passes every play in the menu unchanged |
| Legality.EveryDecisionIsLegal | ghosts/rdc-poker-session/src/poker-brain.ts:116-210 | for any player able to act, any plays, shuffle and reply, with candidates or without: the decision reaches the engine unchanged and is legal |
| Equity.DrawSample | ghosts/rdc-poker-session/src/equity-oracle.ts:126-133 | the partial shuffle of the working array, in place |
| Equity.WorkIsRearranged | ghosts/rdc-poker-session/src/equity-oracle.ts:122-133 | the reused array stays a permutation of the unseen cards |
| Equity.EveryDealIsDrawn | ghosts/rdc-poker-session/src/equity-oracle.ts:126-133 | any cards of the deck, in any order, are dealt by some choices |
| Equity.DealsAreDrawnOnce | ghosts/rdc-poker-session/src/equity-oracle.ts:126-133 | and by one sequence of choices only |
| Equity.SamplesDealUnseenCards | ghosts/rdc-poker-session/src/equity-oracle.ts:122-148 | in every sample all cards are distinct and none is in hand or on the board |
| Equity.SampleCardsDiffer | ghosts/rdc-poker-session/src/equity-oracle.ts:122-148 | in every sample the hand, the board and the opponents' cards are all different, and the board extends the one given |
| Equity.RemainingSize | ghosts/rdc-poker-session/src/equity-oracle.ts:94-98 | the working array holds all the cards not seen |
| Equity.RequestsAnswered | ghosts/rdc-poker-session/src/equity-oracle.ts:69-117 | a request is answered if and only if it has two cards, a board of 0, 3, 4 or 5, no card twice, 0 to 22 opponents and a sample; else the error names what is wrong |
| Equity.JudgeSample | ghosts/rdc-poker-session/src/equity-oracle.ts:135-175 | dealing, evaluating and scoring one sample |
| Equity.JudgeBounds | ghosts/rdc-poker-session/src/equity-oracle.ts:161-175 | one sample scores between its win plus its tie over all seats and its win plus half its tie |
| Equity.ScoresSumToOne | ghosts/rdc-poker-session/src/equity-oracle.ts:161-175 | however many hands are judged, each against all the others, their scores sum to exactly one |
| Equity.DealtScoresSumToOne | ghosts/rdc-poker-session/src/equity-oracle.ts:122-175 | in every sample dealt, what it credits to me and what the other seats would be credited on the same cards sum to exactly one |
| Equity.RunSamples | ghosts/rdc-poker-session/src/equity-oracle.ts:118-176 | the loop over one array reshuffled from sample to sample adds up the samples' scores |
| Equity.EstimateEquity | ghosts/rdc-poker-session/src/equity-oracle.ts:69-183 | each refusal, certainty without opponents, and otherwise the averages of the samples' scores, wins and ties, with winRate + tieRate/(opponents+1) <= equity <= winRate + tieRate/2 |
| ActionLine.ParseStepAction | ghosts/rdc-poker-session/src/memory-writer.ts:407-426 | the loop over the verbs in their order |
| ActionLine.FirstFound | ghosts/rdc-poker-session/src/memory-writer.ts:412-416 | where a verb is found in a printed line, for any name |
| ActionLine.IntRoundTrip | ghosts/rdc-poker-session/src/memory-writer.ts:418 | printing and parsing an integer gives it back |
| ActionLine.TrimMeans | ghosts/rdc-poker-session/src/memory-writer.ts:416-417 | trimming takes away blanks only, at both ends, and all of them |
| ActionLine.LinesPrinted | ghosts/rdc-poker-session/src/memory-writer.ts:120-127 | a call and a raise are printed with their amount, the other actions without |
| ActionLine.LineMeans | ghosts/rdc-poker-session/src/memory-writer.ts:407-426 | what is read of any line: nothing if and only if no verb occurs in it, else the first listed verb that occurs, at its first place, and no amount unless a number begins behind it |
| ActionLine.PrintedForm | ghosts/rdc-poker-session/src/memory-writer.ts:120-127 | a minus exactly before negative numbers, and no leading zero |
| ActionLine.LineRoundTrip | ghosts/rdc-poker-session/src/memory-writer.ts:120-127 | printing then parsing recovers actor, verb and amount if and only if the name is trimmed and has no blank followed by the verb or one looked for before it |
| ActionLine.MisreadName | ghosts/rdc-poker-session/src/memory-writer.ts:412-415 | a concrete name that is misread |

## Left out

- HTTP, A2A, MCP, Neo4j, overlays, prompts, personas and the language model itself; a reply is an arbitrary value.
- Heuristics over floats: math schools, tier pruning, animal bias, bluff sampling, tilt, sliders.
- Display and bookkeeping fields that nothing else reads: names, descriptions, labels, timestamps, hand numbers, `lastAggressor`, dealer and small-blind flags, `totalBetThisRound` and the fallback to it in pot.ts:8.
- The phase value "showdown", which `resolveShowdown` overwrites before it returns.
- Ranks as strings and suits as words: a rank is the number the evaluator compares, from 2 to 14.
- `getHandStrengthPercent`.
- Tables of more than 23 seats: one deck cannot deal them a whole hand, so `Hands.Deal` asks for enough cards.
- Blinds of zero or less: `Hands.Deal` asks for positive blinds, and for players with chips, as the session does.
- Probability: the shuffle is a bijection from choice sequences to orders, and no distribution is attached to them.
- TableRunner.RunOneHand: redaction and events are not modelled, and a reply is read only for ghost, action and amount.
- LongestHands.GuardCutsExactly: for three or more players with several different stacks the limit is an upper bound; that some run attains it is proved only for stacks that are equal but for one.
- Skill profiles, `load` and listing in the ledger; a persisted snapshot is the ledger's contents, not JSON text.
- Non-finite and fractional amounts, which the ledger rejects or never meets.
- PersistQueue.DiskIsAnOperationBoundary: a crash of the machine inside a rename is not modelled; a failed write is.
- Bounties and seats as insertion-ordered sequences instead of Map objects; seats as values, so that a seat object shared between the table and a running hand is looked up by its ghost instead. Between a deal and its settlement no step removes a seat that is in the hand, so both give the same seats.
- Session.Settle: hand counts, recent outcomes and tilt of a seat are not modelled.
- Circulation.SessionConserves: handoffs that arrive without a configured table are refused before anything happens and are not steps.
- AnimalAssignment.PinsAreHonoured: which pins survive another player's ratings of 100 and more is not characterised, here and in `AnimalAssignment.GreedyPins`; the session rates every type 1.
- AnimalAssignment.AssignWithReuse: for more than five players no optimality is claimed, since the source is greedy there.
- The tiers' own choice of three raw plays: the legality results hold for every choice.
- Extracting JSON from a model's text, lower-casing and trimming its fields, confidence and table talk.
- Pushes, world events and the steps inside a movement loop; npc-agent and funder-agent, which await between reading and writing their maps.
- Equity.EstimateEquity: floating-point rounding, and seeded generators beyond the choices they make.
- ActionLine.IntRoundTrip: `parseInt` loses precision above 2^53, integers here do not.

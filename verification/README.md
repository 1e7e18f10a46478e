# Hold'em hand engine: model and proofs

A Dafny model of a Texas Hold'em server's hand engine, with proofs about what a hand can and cannot do: betting,
turn order, side pots, showdowns, hand ranking and the deck.

The model has two layers.

- **Values.** `Tables` and `Hands` give, as functions on immutable values, what each operation makes of a table, a
  deck and a running hand, with the same branches, constants and error cases as the source. The theorems are about
  these: `Betting`, `Rounds`, `Offers`, `Moves`, `Raises` (one betting round: turns, chips moved, what is accepted and
  what is offered), `Seating`, `PotLayers`, `PotShares`, `OddChips` (side pots and their payout, to the odd chip),
  `Payouts`, `Showdowns`, `Winnings`, `Settlements` (the end of a hand), `Play`, `Runs`, `Games`, `Throws` (whole hands,
  sequences of calls, and what follows an exception), `HandRanking`, `HandOrder`, `HandShown`, `Combinations`,
  `HandEvaluator` (hand strength), `Decks` (cards), and `Counterexamples` (concrete play that breaks what the interface
  suggests).
- **Objects.** `Players.Player`, `PotManagers.PotManager`, `GameStates.GameState`, `Decks.Deck` and
  `GameEngines.GameEngine` update their fields in place, `ActionValidators` reads and drives a game state, and
  `HandChecks` runs the checks on five cards, loop by loop as the source does. Each method's contract equates the whole
  new state, as a value, with the corresponding function of the old one, so every theorem about the functions is a
  theorem about the methods.

Chips are naturals, player ids are compared only for equality, and whatever index a shuffle draws is allowed. A call
that throws ends with an `Outcome` or an `Option` that names the error; `Failed` marks an exception raised after part
of the work was done.

The main results, each for every input, table size up to ten and run:

- *Chips are conserved.* From the constructor on, over every sequence of calls -- players seated, hands started, actions
  accepted, refused or throwing -- stacks and pots hold exactly what the players brought while a hand runs, and the
  stacks alone hold it afterwards (`Games.TablesConserve`, `Games.GamesConserve`).
- *Accepted actions run out.* Each accepted action uses up streets, chips in stacks or players still to act, in that
  order of importance, before a throw and after one (`Games.BudgetDecreases`, `Games.HandsTerminate`), and while a live
  hand awaits a player there is an acceptable action (`Runs.PlayCanGoOn`).
- *When a call throws.* In a live hand an accepted action throws exactly when it forces a showdown at which a folded
  player has put in more than everyone left, with stakes that differ (`Play.ActionStep`). This needs a fold with nothing
  to call, which the validator accepts and the offer list never contains (`Offers.AcceptedIffOffered`). If only offered
  and forced actions are taken it never happens: nothing is refused, nothing throws, and every hand that ends is paid to
  the last chip (`Games.FairTablesNeverFail`, `Games.FairGamesNeverFail`).
- *What a throw leaves.* Not every hand ends, and a running engine does reach the invalid-phase exception: a showdown
  that throws leaves the engine running in the showdown phase. From then on an accepted action throws again exactly when
  it completes the round (`Play.StuckStep`, `Throws.InvalidPhaseIff`); checking goes on throwing for ever
  (`Throws.JammedForEver`); and with nobody able to act no call changes anything, short of starting another hand on top
  of the running one (`Throws.DeadHandsStayDead`).
  Both ends are reached from concrete stacks (`Counterexamples.CheckedDownThrowsTwice`,
  `Counterexamples.FreeFoldStrandsChips`).
- *What an action does.* An action is accepted exactly when it is the player's turn and the betting rules allow it
  (`Moves.AcceptedIffLegal`); it moves exactly the chips it names from that player to the main pot
  (`Moves.ActionMoves`, `Moves.ChipsGoToMainPot`), and running out of time moves none (`Moves.ForcedCallMovesNothing`).
  The turn goes to the first able player clockwise, on a new street from the seat after the button
  (`Moves.ActionPassesTurn`, `Rounds.NextStreetOpens`, `Runs.FirstToAct`).
- *Who may raise.* In the first round a player facing a lifted bet is offered a raise exactly when the latest lift is
  the largest (`Raises.RaiseOpenInFirstRound`); in any round a bet or full raise reopens the betting with exact bounds
  and a short all-in closes it (`Raises.FullRaiseReopens`, `Raises.ShortAllInCloses`).
- *Who wins.* Pots are layered so that each is contested by exactly the unfolded players who paid for it
  (`PotLayers.LayerMeaning`); each gives one share to every player holding the best five cards among them and none to
  anyone else (`Winnings.BestCardsWin`); nobody gets more than was put in up to their own stake
  (`Winnings.NobodyTakesMoreThanMatched`); chips that do not divide go one each to the first winners by seat
  (`OddChips.RiverPortion`); and the action that ends the hand leaves everyone exactly those chips, told by the cards
  alone (`Settlements.ShowdownPaysByCards`, `Settlements.FoldsSettle`).
- *Hand strength.* The cascade of checks names exactly the highest category five cards make, and comparing the numeric
  values is comparing category and then deciding ranks (`HandOrder.ClassificationIsExact`,
  `HandOrder.ValueIsOrderEmbedding`); the best of all five-card choices is found (`HandEvaluator.BestHandIsMaximum`).

Where the code and its own comments or interface differ, the model follows the code:

- `validateFold` accepts a fold that is never offered; see above.
- `startHand` may leave nobody able to act: exactly when two play and both blinds take whole stacks. The engine then
  stays running and refuses every action (`Runs.StartedHandCanBePlayed`, `Counterexamples.HeadsUpStalls`).
- `completeBettingRound` guards against a phase that should not occur; a showdown that has thrown leaves that phase.
- The validator accepts a raise whenever the stack and the minimum allow it, but the offer list asks for more. It
  compares `lastRaiseAmount`, which `processBet` overwrites with zero when a call is made by a player who paid in an
  earlier round: on later streets a call takes the raise off the list of everyone still behind
  (`Raises.LaterCallCloses`, `Raises.LastRaiseIsLastLift`).
- `startNewHand` does not reset `lastRaiseAmount`; the end of the hand before did (`Runs.RaiseCarriedOver`,
  `Payouts.HandEndResetsRaises`).
- Blinds posted on three or more seats are followed by one more turn passed, and the first search starts from whoever
  was to act when the previous hand ended (`Runs.FirstToAct`).
- `processBet` compares a whole-hand total with a one-round bet before it updates the minimum raise; the minimum is
  still right (`Offers.MinimumRaiseAfterAction`).
- `processBet` adds the uncapped amount to the pots; validation keeps every amount within the stack
  (`Tables.AcceptedWager`).

## Model

| member | source | states |
|---|---|---|
| Games.HandsTerminate | src/application/engine/GameEngine.ts:125-156 | From any running state, one left by a throw included, a run of accepted actions is no longer than the number that encodes streets left, chips in stacks and players yet to act |
| Games.BudgetDecreases | src/application/engine/GameEngine.ts:125-156 | Every accepted action that leaves the hand running lowers that number, after a throw as before one |
| Games.TablesConserve | src/application/engine/GameEngine.ts:37-156 | From the constructor on, after any sequence of calls, the table holds exactly the chips its players brought |
| Games.GamesConserve | src/application/engine/GameEngine.ts:50-156 | Over any sequence of calls, throwing ones included, from any state kept: stacks plus pots hold the chips during a hand, the stacks alone hold them after |
| Games.FairTablesNeverFail | src/application/engine/GameEngine.ts:37-179 | From the constructor on, if only offered or timed-out actions are taken, no hand or action is refused and no call throws |
| Games.FairGamesNeverFail | src/application/engine/GameEngine.ts:125-179 | The same from any state in which no folded player has put in the most, and that property and every chip are kept |
| Games.FairStep | src/domain/poker/betting/ActionValidator.ts:50-134 | One offered or forced action is never refused, never throws, and keeps the largest contribution in the hand |
| Games.StepConserves | src/application/engine/GameEngine.ts:50-156 | Any one call, accepted, refused or throwing, keeps every chip, and seating a player adds exactly the chips brought |
| Play.ActionStep | src/application/engine/GameEngine.ts:125-156 | An accepted action leaves a live hand awaiting a player or an ended, fully paid hand; it throws exactly when it forces a showdown with chips out of reach, and then keeps every chip, contribution and card and leaves the engine stuck in the showdown phase |
| Play.RoundCloses | src/application/engine/GameEngine.ts:277-311 | Closing a round deals on while nobody can act; it throws exactly in the showdown phase or when it reaches a showdown with chips out of reach, with the invalid-phase error exactly in the first case, and no throw loses a chip |
| Play.StuckStep | src/application/engine/GameEngine.ts:277-311 | After a showdown has thrown, an accepted action throws again if and only if it completes the round; otherwise play goes on in the same phase or the last player left is paid in full |
| Play.NobodyActsNothingHappens | src/application/engine/GameEngine.ts:125-131 | With nobody able to act every action is refused and nothing changes |
| Throws.InvalidPhaseIff | src/application/engine/GameEngine.ts:299-303 | The invalid-phase exception is thrown if and only if a showdown has thrown before and the action is valid and completes the round |
| Throws.JammedThrowsAgain | src/application/engine/GameEngine.ts:277-303 | Once everyone able has acted after a throw, a check is valid, throws, and leaves the same situation with the same stacks |
| Throws.JammedForEver | src/application/engine/GameEngine.ts:277-303 | However often the players go on checking, every check throws and no chip moves |
| Throws.DeadHandsStayDead | src/application/engine/GameEngine.ts:125-156 | A running hand in which nobody can act is left unchanged by every later sequence of actions and seatings |
| Throws.StrandedCheckDown | src/application/engine/GameEngine.ts:277-375 | Checked down, a live hand with chips out of reach has every check accepted until one throws for a pot, with players still to act |
| Throws.StuckCheckDown | src/application/engine/GameEngine.ts:277-303 | Checked round once more, the stuck hand has every check accepted until one throws the invalid-phase error |
| Play.InHandAfterAction | src/domain/poker/betting/ActionValidator.ts:353-360 | A fold takes exactly one player out of the hand, any other action none |
| Runs.StartedHandIsLive | src/application/engine/GameEngine.ts:83-120 | A started hand satisfies every invariant of play, holds all chips, and lets exactly the seats with chips left after their blind act |
| Runs.StartedHandCanBePlayed | src/application/engine/GameEngine.ts:99-112 | Someone is to act after the blinds if and only if three or more are dealt in or one of two players keeps chips |
| Runs.BlindsFollowButton | src/domain/poker/game/GameState.ts:114-148 | The button moves one seat on; heads-up it has the small blind, otherwise the next two seats have the blinds |
| Runs.BlindsArePaid | src/domain/poker/betting/ActionValidator.ts:315-339 | A blind seat has paid its blind or its whole smaller stack, and nobody else has paid anything |
| Runs.FirstToAct | src/application/engine/GameEngine.ts:99-112 | Heads-up a hand opens with the first able player found after the blinds; with three or more, with the next able player after that one |
| Runs.RaiseCarriedOver | src/domain/poker/game/GameState.ts:217-240 | A new hand starts with the minimum raise at the big blind and the last raise as it was |
| Runs.OpeningRaises | src/domain/poker/betting/ActionValidator.ts:100-107 | At the start of a hand a player below the highest blind is offered a raise if and only if that last raise is a big blind or more |
| Runs.PlayCanGoOn | src/domain/poker/betting/ActionValidator.ts:50-134 | While a live hand awaits a player, some offered action is accepted |
| Counterexamples.CheckedDownThrowsTwice | src/application/engine/GameEngine.ts:280-303 | From concrete stacks, whatever the shuffle: a free fold, a call and checks lead to a throw for a pot, and further checks to the invalid-phase throw |
| Counterexamples.FreeFoldStrandsChips | src/domain/poker/betting/ActionValidator.ts:177-180 | From concrete stacks, whatever the shuffle, an accepted fold that is not offered makes the showdown throw, and nothing called afterwards changes the engine |
| Counterexamples.HeadsUpStalls | src/application/engine/GameEngine.ts:83-120 | Two players the blinds put all-in: the hand starts and nothing called afterwards changes the engine |
| Counterexamples.NoStakeStillEligible | src/domain/poker/game/PotManager.ts:126-142 | A single unlayered pot names a player who put nothing in |
| Betting.ActedMeansHighest | src/domain/poker/game/GameState.ts:366-388 | A player who can act and has acted has matched the highest bet in the hand |
| Betting.CompleteRoundIsSettled | src/domain/poker/game/GameState.ts:423-442 | When the round counts as complete, every unfolded player has matched the highest bet, all-in bets included, or is all-in |
| Betting.CompleteIffAllActed | src/domain/poker/game/GameState.ts:423-442 | On sound tables the round is complete if and only if everyone who can act has acted |
| Betting.BetKeepsSeats | src/domain/poker/game/GameState.ts:366-388 | A fair wager keeps the invariant: unique ids, all-in exactly at zero chips, earlier rounds matched, actors matched |
| Betting.FirstAbleIsFirst | src/domain/poker/game/GameState.ts:343-353 | The seat search finds the first able seat clockwise and fails only when there is none |
| Betting.TurnPasses | src/domain/poker/game/GameState.ts:296-354 | Passing the turn keeps everyone yet to act ahead, clockwise, of everyone who has acted |
| Betting.NextIsAwaited | src/domain/poker/game/GameState.ts:296-354 | After an action the round is complete or the turn is with an able player who has not acted since the last raise |
| Betting.SearchFindsFirst | src/domain/poker/game/GameState.ts:343-353 | Wherever the search starts, the turn goes to the able player the fewest places clockwise from there |
| Betting.TurnIsFound | src/domain/poker/game/GameState.ts:304-353 | Passing the turn finds the first able player from the seat after the last one to act, the street opener, the seat after the big blind or the heads-up small blind, as the case may be, and nobody when nobody is able |
| Betting.TurnOnNewStreet | src/domain/poker/game/GameState.ts:332-340 | With nobody to act before it, a street after the first goes to the first able player left of the button, or from the button heads-up |
| Betting.TurnBeforeFlop | src/domain/poker/game/GameState.ts:312-330 | With nobody to act before it, the first street goes to the first able player after the big blind, or from the small blind heads-up once blinds are in |
| Betting.TurnFromIsUnique | src/domain/poker/game/GameState.ts:343-353 | Only one player has the turn from a given seat |
| Moves.AcceptedIffLegal | src/domain/poker/betting/ActionValidator.ts:15-45 | An action is accepted if and only if the player has the turn, can act, and the betting rules allow it |
| Moves.RefusedBecause | src/domain/poker/betting/ActionValidator.ts:139-310 | Which error each refused action gets |
| Moves.ActionMoves | src/domain/poker/betting/ActionValidator.ts:344-413 | A call matches the highest bet, a bet adds its amount, a raise raises to its amount, an all-in moves the stack; nobody else's chips change, and others must act again exactly when the highest bet is lifted |
| Moves.ChipsGoToMainPot | src/domain/poker/game/PotManager.ts:47-58 | Exactly the chips that left the stack enter the main pot and the player's contribution |
| Moves.ActionPassesTurn | src/domain/poker/game/GameState.ts:304-353 | After an action the turn goes to the first able player clockwise of the one who acted |
| Moves.ForcedActionMovesNothing | src/domain/poker/betting/ActionValidator.ts:418-440 | The forced action moves no chips; the player is folded after it if and only if an unfolded player has bet more |
| Moves.ForcedCallMovesNothing | src/application/engine/GameEngine.ts:161-179 | A timeout in a live hand is accepted, or throws at a showdown it forces; if the hand goes on no stack and no contribution has changed, and only a player facing a bet has folded |
| Rounds.AcceptedActionKeepsPlay | src/domain/poker/betting/ActionValidator.ts:344-413 | An accepted action keeps the table sound and its chips, and completes the round or awaits a player |
| Rounds.NextStreetOpens | src/domain/poker/game/GameState.ts:256-291 | Whoever was to act before, a new street belongs to the first able player from its opener |
| Rounds.PaymentKeepsLedger | src/domain/poker/game/PotManager.ts:47-58 | Chips leaving a stack enter pots and contributions alike: pots, contributions and seat totals stay equal |
| Rounds.BetKeepsSound | src/domain/poker/game/GameState.ts:366-396 | A fair wager keeps the whole table sound and the chips in play |
| Rounds.SidePotsKeepSound | src/domain/poker/game/GameState.ts:415-418 | Layering the pots keeps the ledger equal to the seats' contributions |
| Rounds.AdvanceKeepsSound | src/domain/poker/game/GameState.ts:256-291 | From a settled round the next street starts sound, with both raise amounts at the big blind and the turn with the first able player from its opener, if there is one |
| Offers.OfferedIsAccepted | src/domain/poker/betting/ActionValidator.ts:50-134 | Every offered action with any amount in its range is accepted |
| Offers.SomethingIsOffered | src/domain/poker/betting/ActionValidator.ts:50-134 | A player on turn has an offer other than going all-in |
| Offers.ForcedIsAccepted | src/domain/poker/betting/ActionValidator.ts:418-440 | The action forced on a timeout is accepted |
| Offers.OfferShape | src/domain/poker/betting/ActionValidator.ts:50-134 | What an offer of each kind says: when it is made and with which bounds |
| Offers.OffersInclude | src/domain/poker/betting/ActionValidator.ts:50-134 | Every fold, check, call, bet or all-in that applies is offered |
| Raises.RaiseOfferedIff | src/domain/poker/betting/ActionValidator.ts:100-113 | A raise is offered if and only if the stack reaches above the highest bet and either the player is behind and the last raise was a full one, or the player has not acted and everyone is at the big blind |
| Raises.RaiseOfferIs | src/domain/poker/betting/ActionValidator.ts:108-120 | No two offers are of one kind, and a raise offer runs from the smaller of the minimum and the stack to the stack |
| Raises.LastRaiseIsLastLift | src/domain/poker/game/GameState.ts:390-395 | The last raise is the lift of the action that lifted; another action leaves it, except a payment beyond the highest bet in the whole hand, which sets it to zero or less |
| Raises.RaiseOfferedAfterAction | src/domain/poker/betting/ActionValidator.ts:100-107 | After any accepted action, exactly when a player behind is offered a raise |
| Raises.FullRaiseReopens | src/domain/poker/betting/ActionValidator.ts:100-120 | After a bet, or a raise by the minimum or more, every player behind with chips to go above it is offered a raise with exact bounds |
| Raises.ShortAllInCloses | src/domain/poker/betting/ActionValidator.ts:100-107 | After an all-in that lifts by less than the minimum raise nobody behind is offered one |
| Raises.BigBlindOption | src/domain/poker/betting/ActionValidator.ts:105-107 | A player with the big blind in, nobody having more, is offered a raise with exact bounds if and only if not having acted |
| Raises.LaterCallCloses | src/domain/poker/game/GameState.ts:390-395 | On a later street a call takes the raise off the list of a player behind, while the validator accepts one |
| Raises.LastRaiseOverFirstRound | src/domain/poker/game/GameState.ts:390-395 | Through the first round the last raise is the latest lift |
| Raises.RaiseOpenInFirstRound | src/domain/poker/betting/ActionValidator.ts:100-107 | In the first round a player behind is offered a raise if and only if the latest lift is no smaller than the minimum raise at the start and than any other lift |
| Offers.AcceptedIffOffered | src/domain/poker/betting/ActionValidator.ts:15-45 | Raises and all-ins aside, an accepted action is missing from the offers if and only if it is a fold with nothing to call |
| Offers.AcceptedRaiseOfferedIff | src/domain/poker/betting/ActionValidator.ts:261-288 | An accepted raise is on offer if and only if raising is open to the player and the stack reaches above the highest bet |
| Offers.AcceptedAllInOfferedIff | src/domain/poker/betting/ActionValidator.ts:293-303 | An accepted all-in is on offer if and only if it names no amount or the whole stack |
| Offers.ReopeningCosts | src/domain/poker/game/GameState.ts:382-388 | Once everyone able has acted, only an action that costs chips opens the round again |
| Offers.TopAfterAction | src/domain/poker/betting/ActionValidator.ts:344-413 | An accepted action leaves the largest contribution with an unfolded player unless it is a fold nobody left has matched |
| Offers.OfferedKeepsTop | src/domain/poker/betting/ActionValidator.ts:64-69 | Offered and forced actions always leave the largest contribution with an unfolded player |
| Offers.MinimumRaiseAfterAction | src/domain/poker/game/GameState.ts:390-395 | The minimum raise becomes the larger of itself and the rise in the highest bet |
| Offers.MinimumRaiseOverRound | src/domain/poker/game/GameState.ts:282-284 | Over any accepted actions of a round the minimum raise is the maximum of its starting value and all rises so far |
| Offers.RaiseClearsEarlierLifts | src/domain/poker/betting/ActionValidator.ts:276-285 | An accepted raise short of the whole stack lifts the highest bet by at least every earlier rise |
| Offers.ActionMakesProgress | src/domain/poker/betting/ActionValidator.ts:344-413 | Within a round an accepted action moves chips out of stacks or leaves fewer players to act |
| Tables.AcceptedWager | src/domain/poker/game/GameState.ts:373-374 | The chips an accepted action moves are affordable, and match the highest bet unless they are the whole stack |
| PotLayers.SidePotsConserve | src/domain/poker/game/PotManager.ts:63-121 | The layered pots add up to what all players put in, folded ones included |
| PotLayers.LayerMeaning | src/domain/poker/game/PotManager.ts:90-121 | Pot by pot: one level's price from each seat that reached it, winnable by exactly the unfolded seats that did, the first one the main pot |
| PotLayers.UnlayeredPot | src/domain/poker/game/PotManager.ts:123-142 | With fewer than two players left or equal stakes, one main pot holds everything for exactly the unfolded players |
| PotLayers.LayersNest | src/domain/poker/game/PotManager.ts:94-97 | Whoever may win a later pot may win every earlier one |
| PotLayers.PaidUpDistinct | src/domain/poker/game/PotManager.ts:94-97 | No player is listed twice as eligible for a pot |
| PotLayers.SidePotsIdempotent | src/domain/poker/game/PotManager.ts:63-142 | Creating side pots twice is creating them once |
| PotLayers.MatchedShare | src/domain/poker/game/PotManager.ts:90-121 | The pots an unfolded player may win hold the sum over all players of the smaller contribution, if and only if the player has a stake or stakes differ |
| PotLayers.EveryPotHasAClaimant | src/domain/poker/game/PotManager.ts:63-121 | No money is out of everyone's reach if and only if stakes do not differ or an unfolded player holds the largest |
| PotShares.SimulateThrowsIff | src/domain/poker/game/PotManager.ts:337-369 | Distribution throws if and only if some pot with money has no recipient |
| PotShares.SimulatePaysEachPot | src/domain/poker/game/PotManager.ts:305-335 | Each pot is paid out to the chip |
| PotShares.SimulatePaysAll | src/domain/poker/game/PotManager.ts:302-372 | The amounts handed out add up to the pots |
| PotShares.SimulatePaysRecipients | src/domain/poker/game/PotManager.ts:317-330 | A share only goes to a recipient of its pot and is the even portion or one chip more |
| PotShares.SharesMatchRecipients | src/domain/poker/game/PotManager.ts:305-335 | A player gets as many shares of a pot as the times listed among its recipients, and none if not listed |
| PotShares.EveryRecipientIsPaid | src/domain/poker/game/PotManager.ts:322-330 | Every recipient holds a share no smaller than the even portion |
| PotShares.RecipientsDistinct | src/domain/poker/game/PotManager.ts:311-314 | With distinct contenders and a pot naming nobody twice, no recipient is listed twice |
| PotShares.BestIff | src/domain/poker/game/PotManager.ts:288-314 | A pot's winners are exactly the eligible players no eligible player beats |
| PotShares.WonAtMostEligible | src/domain/poker/game/PotManager.ts:305-335 | Nobody is paid more than the pots naming them hold |
| PotShares.WonAtMostMatched | src/domain/poker/game/PotManager.ts:281-373 | After side pots are created nobody is paid more than everyone put in up to their own contribution |
| PotShares.RoutinesAgree | src/domain/poker/game/PotManager.ts:147-175 | Given each pot's best players in the same order, the first-to-last and the last-to-first routine hand out the same shares |
| PotShares.PositionKeepsAmounts | src/domain/poker/game/PotManager.ts:180-215 | Sorting by position hands out the same amounts from the same pots in the same sequence |
| PotShares.PositionMovesOddChipsOnly | src/domain/poker/game/PotManager.ts:180-215 | For every player and pot the two routines' amounts differ by at most one chip per time the player is listed |
| PotShares.DistinctWinnersDifferByOne | src/domain/poker/game/PotManager.ts:180-215 | With nobody listed twice for the pot they differ by one chip at most |
| PotShares.PositionPermutesOddChips | src/domain/poker/game/PotManager.ts:196-211 | Sorting one pot's winners keeps who they are and gives the later position no less |
| OddChips.RiverPortion | src/domain/poker/game/PotManager.ts:312-328 | At the river a player gets an even part of each pot they hold the best cards for, and one chip more if fewer such players sit before them than chips are left over; nothing of any other pot |
| OddChips.RiverOddChips | src/domain/poker/game/PotManager.ts:312-328 | At the river a pot's shares are listed by seat, exactly the remainder's number of them is a chip above the even part, and of two the earlier seat's is not the smaller |
| OddChips.WonByCards | src/domain/poker/game/PotManager.ts:281-373 | All a player wins at the river is the sum of those parts |
| OddChips.LastPotFirst | src/domain/poker/game/PotManager.ts:305 | Shares of a later pot are listed before those of an earlier one |
| OddChips.ListingOddChips | src/domain/poker/game/PotManager.ts:147-175 | In the first-to-last routine, of two winners of a pot the one listed first gets no less, and exactly the remainder's number of shares is a chip larger |
| OddChips.PositionOddChips | src/domain/poker/game/PotManager.ts:180-215 | In the routine by position, of two winners of a pot the later position gets no less, nor the one listed first at equal positions |
| OddChips.WinnersOfIff | src/domain/poker/game/PotManager.ts:153-156 | A winner is considered for a pot if and only if naming it |
| Payouts.CompleteHandKeepsStacks | src/application/engine/GameEngine.ts:531-558 | Ending a hand keeps every stack and removes exactly the players without chips |
| Payouts.EvenSplitPaysAll | src/application/engine/GameEngine.ts:497-515 | The even split among remaining players hands out the whole pot |
| Payouts.EvenSplitAt | src/application/engine/GameEngine.ts:497-515 | In the even split each unfolded player gets a part by place among the unfolded, the first ones a chip more, and folded players nothing |
| Payouts.HandEndResetsRaises | src/application/engine/GameEngine.ts:531-541 | Ending a hand moves the phase on by one and puts both raise amounts back to the big blind |
| Payouts.SeatsPaidSum | src/application/engine/GameEngine.ts:457-480 | Paying the winners' totals adds exactly the shares to the stacks |
| Showdowns.ShowdownPays | src/application/engine/GameEngine.ts:397-492 | A showdown throws if and only if a pot with money names nobody; otherwise the ended table holds every chip |
| Showdowns.LastPlayerTakesAll | src/application/engine/GameEngine.ts:401-427 | With one player left the hand ends with every chip in a stack |
| Showdowns.RiverPays | src/application/engine/GameEngine.ts:364-375 | Closing the river throws if and only if two or more are left and a folded player's chips are out of reach; otherwise everything is paid |
| Winnings.LastPlayerIsPaid | src/application/engine/GameEngine.ts:401-427 | The last player gains exactly the pots and nobody else's chips change |
| Winnings.ShowdownIsPaid | src/application/engine/GameEngine.ts:443-491 | Each unfolded player gains exactly their shares, a folded one nothing, and nobody else's chips change |
| Winnings.SharesGoToBestHands | src/application/engine/GameEngine.ts:429-448 | A pot gives one share to a player it names whom no other player it names is evaluated above, and none to anyone else |
| Winnings.BestCardsWin | src/application/engine/GameEngine.ts:364-392 | At the river a player gets exactly one share of a pot if named by it and holding, in seven cards, five at least as good as anyone else it names, and none otherwise |
| Winnings.NobodyTakesMoreThanMatched | src/domain/poker/game/PotManager.ts:90-121 | At the river no player with a stake is paid more than everyone put in up to that stake |
| Settlements.ShowdownSettles | src/application/engine/GameEngine.ts:125-156 | An action that forces a showdown with no chips out of reach leaves every player the chips behind plus the shares of the final river |
| Settlements.ShowdownPaysByCards | src/application/engine/GameEngine.ts:125-156 | After an action that forces such a showdown everyone holds the chips behind plus, from each pot of the final river they hold the best cards for, an even part and perhaps an odd chip |
| Settlements.FoldsSettle | src/application/engine/GameEngine.ts:143-155 | An action that leaves one player ends the hand; that player gains exactly the pots and nobody else's chips change |
| Settlements.RunsOut | src/application/engine/GameEngine.ts:277-311 | Closing the round is paying the river reached by dealing every remaining street, with the same players, chips, folds and cards |
| Seating.WhoIsSeated | src/domain/poker/game/GameState.ts:51-64 | Who is refused a seat, and for which reason |
| Seating.PlayerSits | src/domain/poker/game/GameState.ts:66-67 | A player who is taken sits last, and the blinds are placed by the button |
| Seating.PlayerLeaves | src/domain/poker/game/GameState.ts:73-81 | Everyone behind a player who leaves moves up one seat, and the blinds are placed by the button |
| Hands.StreetsAreDealt | src/application/engine/GameEngine.ts:316-359 | With at most ten players the next street can always be dealt, lands where it should, and the phase moves on by one |
| Hands.CloseStreetAdvances | src/application/engine/GameEngine.ts:280-310 | A hand that goes on after a pass of the loop is one street later with its cards laid out |
| Hands.SevenCards | src/application/engine/GameEngine.ts:380-392 | At the river and the showdown every player has seven cards to choose from |
| Hands.NoCardTwice | src/application/engine/GameEngine.ts:245-251 | Hole and board cards of a hand are pairwise distinct |
| Hands.ActKeepsCards | src/domain/poker/betting/ActionValidator.ts:344-413 | Actions move no cards |
| Runs.StartedCards | src/application/engine/GameEngine.ts:90-97 | Starting a hand lays out two cards per player from a whole deck |
| HandOrder.ClassificationIsExact | src/domain/poker/cards/HandEvaluator.ts:73-94 | The evaluated category is the answer if and only if the five cards make it and no higher one |
| HandOrder.ValueEncodesKey | src/domain/poker/cards/HandEvaluator.ts:105-306 | The value encodes ranks that decide within the category, a fixed number of them per category |
| HandOrder.DecidingRanksAreUnique | src/domain/poker/cards/HandEvaluator.ts:236-294 | The ranks that decide are determined by the cards |
| HandOrder.ValueIsOrderEmbedding | src/domain/poker/cards/HandEvaluator.ts:553-566 | Comparing values is comparing category, then deciding ranks lexicographically; values tie exactly when both agree |
| HandOrder.ValueBounds | src/domain/poker/cards/HandEvaluator.ts:553-566 | The card part stays below the category weight and the value below two to the 53rd |
| HandOrder.ValueIgnoresOrder | src/domain/poker/cards/HandEvaluator.ts:73-94 | Category and value depend only on which five cards there are |
| HandOrder.WheelIsFiveHigh | src/domain/poker/cards/HandEvaluator.ts:426-435 | Ace to five is a straight, or straight flush, decided by the five |
| HandShown.EvaluationShows | src/domain/poker/cards/HandEvaluator.ts:99-310 | The five cards shown are the hand's own, runs in their order and anything else by rank, and the kickers are the cards whose rank no other has, or those below the highest |
| HandRanking.SortByRankSorts | src/domain/poker/cards/HandEvaluator.ts:78-79 | Sorting yields the same cards in descending rank |
| Combinations.Backtracker.Combine | src/domain/poker/cards/HandEvaluator.ts:345-356 | The backtracking appends exactly the combinations from `start` on and restores its buffer |
| Combinations.EverySubsequenceOnce | src/domain/poker/cards/HandEvaluator.ts:342-360 | The combinations are exactly the k-element subsequences, each position set once |
| Combinations.LexicographicOrder | src/domain/poker/cards/HandEvaluator.ts:342-360 | Combinations are made in lexicographic order of their positions |
| Combinations.ChooseCount | src/domain/poker/cards/HandEvaluator.ts:342-360 | There are n! / (k! (n - k)!) combinations |
| Combinations.GenerateCombinations | src/domain/poker/cards/HandEvaluator.ts:342-360 | The routine returns all k-element combinations in order |
| HandEvaluator.EvaluateHand | src/domain/poker/cards/HandEvaluator.ts:35-60 | The loop refuses fewer than five cards and otherwise returns the first best five |
| HandEvaluator.BestHandIsMaximum | src/domain/poker/cards/HandEvaluator.ts:48-59 | No five of the cards are worth more than the best hand, and some five are worth that |
| HandEvaluator.BestIsFirst | src/domain/poker/cards/HandEvaluator.ts:48-59 | Of equally good hands the first is kept |
| HandEvaluator.MoreCardsNeverWorse | src/domain/poker/cards/HandEvaluator.ts:35-60 | Adding cards never lowers the best value |
| HandEvaluator.BestHandIgnoresOrder | src/domain/poker/cards/HandEvaluator.ts:35-60 | The best value does not depend on the order of the cards |
| HandChecks.CalculateHandValue | src/domain/poker/cards/HandEvaluator.ts:553-566 | The loop adds category weight and base-100 digits |
| HandChecks.GetRankCounts | src/domain/poker/cards/HandEvaluator.ts:571-579 | Exactly the ranks held, each with its multiplicity |
| HandChecks.IsStraightHand | src/domain/poker/cards/HandEvaluator.ts:396-421 | The loop with its early exit answers whether five sorted ranks are consecutive or the wheel |
| HandChecks.AnyOrderFinds | src/domain/poker/cards/HandEvaluator.ts:440-450 | In whatever order the counts are searched, three or four of a kind, or a pair without a second pair, is the rank the first counted card has |
| HandChecks.FindCounted | src/domain/poker/cards/HandEvaluator.ts:440-450 | The search over the count map finds a card whose rank has the count, and fails only when there is none |
| HandChecks.PairsFound | src/domain/poker/cards/HandEvaluator.ts:491-507 | Whatever order the pairs come in, there are two exactly when the cards hold two pairs, and sorted they are the higher and the lower |
| HandChecks.EvaluateSortedHand | src/domain/poker/cards/HandEvaluator.ts:78-93 | The cascade of checks, run with these loops, gives the specified evaluation |
| Decks.Deck.Reset | src/domain/poker/cards/Deck.ts:16-28 | The nested loops build the 52 cards in order |
| Decks.Deck.Shuffle | src/domain/poker/cards/Deck.ts:33-38 | For every choice of indices the cards are permuted |
| Decks.Deck.Validate | src/domain/poker/cards/Deck.ts:188-202 | True exactly when dealt and undealt cards together are the full deck |
| Decks.DifferentIffFullDeck | src/domain/poker/cards/Deck.ts:188-202 | Fifty-two cards, all different, are the full deck, and only they |
| Decks.Deck.DealHoleCards | src/domain/poker/cards/Deck.ts:74-94 | Two rounds of single cards, or refused with nothing changed |
| Decks.Deck.DealCards | src/domain/poker/cards/Deck.ts:56-69 | The top cards in dealing order, or refused with nothing changed |
| Decks.Deck.DealStreet | src/domain/poker/cards/Deck.ts:99-130 | One card burned, then the street |
| Decks.DealKeepsWhole | src/domain/poker/cards/Deck.ts:43-69 | Dealing keeps dealt and undealt cards a partition of the full deck |
| Decks.WholeHasNoDuplicates | src/domain/poker/cards/Deck.ts:188-202 | A whole deck has 52 cards, dealt or not, pairwise distinct |
| Cards.FullDeckHasNoDuplicates | src/domain/poker/cards/Deck.ts:20-27 | A fresh deck repeats no card |
| Players.Player.Bet | src/domain/poker/game/Player.ts:62-77 | The new state: amount capped at the stack, all-in when it empties |
| Players.Player.PostBlind | src/domain/poker/game/Player.ts:90-102 | The same without counting as an action |
| PotManagers.PotManager.AddBet | src/domain/poker/game/PotManager.ts:47-58 | The new pots and contributions |
| PotManagers.PotManager.CreateSidePots | src/domain/poker/game/PotManager.ts:63-142 | The loop over levels leaves exactly the layered pots, or one pot when no layers are called for |
| PotManagers.PotManager.DistributePots | src/domain/poker/game/PotManager.ts:147-175 | The shares, pot by pot from the first |
| PotManagers.PotManager.DistributePotsWithPosition | src/domain/poker/game/PotManager.ts:180-215 | The shares with odd chips to later positions first |
| PotManagers.PotManager.SimulateDistribution | src/domain/poker/game/PotManager.ts:281-373 | The grouping and the loop from the last pot pay the shares that `OddChips` and `PotShares` describe, or name the pot that threw |
| PotManagers.PotManager.GetTotalPotAmount | src/domain/poker/game/PotManager.ts:220-222 | The sum of the pots |
| GameStates.GameState.SetNextPlayerToAct | src/domain/poker/game/GameState.ts:296-354 | Only the turn changes: to the first able player from where the search starts, or to nobody when nobody is able |
| GameStates.GameState.IsBettingRoundComplete | src/domain/poker/game/GameState.ts:423-442 | The loop answers whether all able players have acted on equal bets |
| GameStates.GameState.GetCurrentBet | src/domain/poker/game/GameState.ts:462-465 | The highest bet of unfolded players |
| GameStates.GameState.ProcessBet | src/domain/poker/game/GameState.ts:366-396 | The whole new state of a bet, or refused with nothing changed |
| GameStates.GameState.ProcessBlind | src/domain/poker/game/GameState.ts:401-410 | The whole new state of a blind, or refused with nothing changed |
| GameStates.GameState.AdvancePhase | src/domain/poker/game/GameState.ts:256-291 | The whole new state, with the turn at the first able player from the street's opener; the exception leaves the players reset |
| GameStates.GameState.StartNewHand | src/domain/poker/game/GameState.ts:217-240 | The whole new state, button and blinds moved |
| GameStates.GameState.AddPlayer | src/domain/poker/game/GameState.ts:51-68 | Which players are refused and why, and otherwise the whole new state: the seat at the end and the blind positions assigned anew |
| GameStates.GameState.RemovePlayer | src/domain/poker/game/GameState.ts:73-81 | The seat leaves and positions are assigned anew |
| ActionValidators.ValidateAction | src/domain/poker/betting/ActionValidator.ts:15-45 | The first error in the order the checks are made, or none |
| ActionValidators.GetPossibleActions | src/domain/poker/betting/ActionValidator.ts:50-134 | The list built up is the specified offers in order; a raise is in it exactly when open, with exact bounds; on turn it is not empty and every offer is accepted with any amount it covers |
| ActionValidators.GetForceAction | src/domain/poker/betting/ActionValidator.ts:418-440 | On turn a fold when an unfolded player has bet more and otherwise a check, and accepted |
| ActionValidators.ProcessBlindPosting | src/domain/poker/betting/ActionValidator.ts:315-339 | Both blinds posted and the turn passed |
| ActionValidators.ProcessAction | src/domain/poker/betting/ActionValidator.ts:344-413 | The whole new state of a validated action, exactly the chips it names moved, a sound table kept sound and its chips kept |
| GameEngines.GameEngine.constructor | src/application/engine/GameEngine.ts:37-45 | An empty table with a fresh deck |
| GameEngines.GameEngine.StartHand | src/application/engine/GameEngine.ts:83-120 | For some rearrangement of the full deck, the whole new engine state, every chip kept |
| GameEngines.GameEngine.ProcessAction | src/application/engine/GameEngine.ts:125-156 | Outcome and whole new engine state, whether accepted, refused or thrown, and every chip kept |
| GameEngines.GameEngine.ForcePlayerAction | src/application/engine/GameEngine.ts:161-179 | The same for the action forced on a timeout; in a live hand that goes on no stack has changed, and the player has folded if and only if facing a bet |
| GameEngines.GameEngine.CompleteBettingRound | src/application/engine/GameEngine.ts:277-311 | The loop ends, and does what closing the round specifies |
| GameEngines.GameEngine.CloseStreet | src/application/engine/GameEngine.ts:280-303 | One pass: side pots, then the next street or the showdown |
| GameEngines.GameEngine.EvaluateHands | src/application/engine/GameEngine.ts:380-392 | The best hand of every unfolded player is recorded, nothing else |
| GameEngines.GameEngine.DetermineWinners | src/application/engine/GameEngine.ts:397-492 | Outcome and whole new state for the single winner, the even split and the showdown |
| GameEngines.GameEngine.PayWinners | src/application/engine/GameEngine.ts:457-480 | Totals per winner, and their chips |
| GameEngines.GameEngine.DistributeToRemainingPlayers | src/application/engine/GameEngine.ts:497-515 | The even split over unfolded players in seat order |
| GameEngines.GameEngine.CompleteHand | src/application/engine/GameEngine.ts:531-558 | The hand is over and players without chips have left |
| GameEngines.GameEngine.AddPlayer | src/application/engine/GameEngine.ts:50-64 | Refused while a hand runs; otherwise the whole new state of seating a fresh player, and the chips kept grow by what was brought |

## Left out

- Event callbacks, logging, networking, timers, bots, databases and replays: events are treated as doing nothing, so no
  callback removes a player or restarts a hand.
- Inactive seats (`isActive`): every seated player is dealt in.
- Position labels other than the two blinds, and the order in which hands are shown at a showdown.
- Fields no decision reads: hand number, completion flag, last aggressor, recorded actions, shown cards, winnings
  statistics, time bank, connection flags, and the copy of the pots kept beside the pot manager.
- Fractional, negative or not-a-number amounts of chips; an action's amount may be any integer.
- `simulateDistributionWithPosition`, the pot queries used for display, card text and JSON, copies of states.
- `dealFlop`, `dealTurn` and `dealRiver` are one operation with the number of cards as a parameter, in the deck and in
  the engine.
- How likely each shuffle is: any drawn index is allowed, and only that the cards are permuted is stated.
- Removing a player, or starting another hand, while a hand runs: the methods of the game state and the engine allow
  both, but the sequences of calls in `Games` start hands between hands and remove players at the end of one.
- PotShares.WonAtMostMatched: asks for a stake when all stakes are equal, because otherwise the single pot names a
  player without one (PotLayers.MatchedShare gives the exact condition).

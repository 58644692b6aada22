# xPoker: verified models

xPoker runs poker hands on an authoritative server, proves that each deck was dealt fairly, records
tables as event logs and pays sessions out of an on-chain escrow. This project models the
deterministic core of that system in Dafny and proves what it is for: pots that always settle, chips that
are never created or lost, cards that were committed before anyone could know them, logs that replay, and
an escrow that pays exactly what was agreed.

Verify everything with `dafny verify dfyconfig.toml`.

## Layout

- Betting: `Betting` (the rules as functions on immutable hands), `BettingMachine` (the same rules as an object
  updated in place, proved equal), `BettingOrder`, `BettingOpening`, `BettingInvariant`, `BettingRuns`,
  `BettingProgress`, `PotLimit`, `BettingMoves` (the effect of each step), `RaiseSizes`.
- Settlement: `Pots`, `SidePots`, `Payouts`, `Showdown`, `ShowdownTheorems`, `Stranding`, `FinishedHands`.
- Evaluation: `Combinations`, `Evaluations`, `Evaluator`, `BestHand`, `HandCategories`,
  `PublishedCards` (the same on the cards as published).
- Fair deal: `Shuffle`, `DeckMerkle`, `DealMaps`, `Fairness`, `Dealing`, `HandLog`, `HandPhases`.
- Tables: `EventLog` (hash chain, store, racing calls), `Tables` (state, replay, decisions), `TableReplay` (replay in
  place), `TableSeats`, `TableInvariant`, `TableFinish`, `TableRuns`, `TableHands`, `HandPayouts`, `NextHands`,
  `SeatChanges`, `Absences`, `TurnClock`, `StuckTables`, `GuessedVersions`, `Deadlines`, `Snapshots`, `BoardDealing` and
  `HandDriver` (the dealer's loop), `ChangedLineups`.
- On chain: `SettlementTree`, `Escrow`, `EscrowPayouts`, `EscrowAuthority`, `EscrowMachine`, `Base58`.
- Shared: `Wrappers`, `Seqs`, `Numbers`, `Seats`, `Ledgers`, `Games`.

Imperative code is a class or a method with loops, each proved against a function on values; the theorems are
lemmas about those functions. Every `throw` is an `Err` or a `None`.

## How the parts meet

The betting invariant says who owns the top contribution; the side-pot theorem turns that into pots with an eligible
player at every level; with the deal map and the Merkle binding the evaluators see distinct cards; so a
finished hand settles, and a table keeps every chip. The event log says when a request was decided on the state it
extends; the table's and the hand's theorems are about every log written that way, and so hold in every interleaving.
`TableHands` closes the circle: the hand on a table is a run of the betting rules from the configuration in its log.

## Findings

Three properties one would expect are false of the code, each proved with its input and its exact condition:

- A finished hand can be left with a pot nobody is eligible for; `buildPots` then throws, and the table never
  leaves the hand (`TableHands.StuckForever`). The exact condition is `StrandsPot` in `BettingOpening`, decided
  by the starting stacks, ante and blinds: no straddle, a big blind who cannot cover the ante, no stack equal to the
  ante, at least two stacks above it, and a small blind who is not held in above the ante
  (`Stranding.SettlesIffNotStranded`, `StuckTables.TableSticksIffStranded`). `Stranding.EXAMPLE` is such an
  opening and `StuckTables.SomeTableSticks` such a table. Ante zero, or every stack at least the ante, excludes it.
- A hand is prepared on its own log while the table still takes players, and before starting it the dealer re-checks only
  that the table is waiting (`server/safe-beta-dealer.js:246-248`). If somebody sits down in between, the table starts
  the hand under other rules than its deck was committed for, and no audit of that deck ever settles it
  (`ChangedLineups.ArrivalSticksTheTable`). A finished hand that strands no pot is settled by its dealer's audit if and
  only if the two sets of rules agree (`ChangedLineups.SettlesIffSameRules`); then the driver never gets stuck
  (`HandDriver.Advance`).
- `expectedVersion` is compared with the store only, never with the state that was loaded. A call that guesses a version
  ahead can be validated on an older state and linked to an older head; the stored log then never verifies again
  (`GuessedVersions.GuessedVersionsBreakTheLog`, and at every new table `GuessedVersions.TableLogsCanBreak`). An
  event is sound exactly if the expected version had been loaded (`EventLog.CommitIsSerialIff`).

Less surprising, and modelled as the code has them:

- A betting round that ends on the river with everybody all-in goes to AWAITING_RUNOUT and needs an empty runout
  (`server/poker/betting.js:86-91`).
- At the deadline itself both an action and a timeout are in time; the betting version lets only one through.
- No bytes encode to the text `1`, which decodes to one zero byte; every other byte string survives.
- A settlement of more than 2^32 payouts, longer than an array can be, would contain a claim deeper than both
  verifiers accept.
- A refund of an unmatched contribution may go to a player who has folded.


## Model

| member | source | states |
|---|---|---|
| `BettingOrder.NextSeatIsClosest` | server/poker/betting.js:15-23 | play passes clockwise: the chosen seat satisfies the predicate, nobody satisfying it sits closer, and there is no choice exactly when nobody satisfies it |
| `BettingOpening.CheckedConfig` | server/poker/betting.js:128-139 | the opening checks pass exactly on 2 to 9 distinct players at distinct seats 0 to 8 with positive stacks, an active button, ordered blinds and a non-negative ante |
| `BettingOpening.OpeningPosts` | server/poker/betting.js:169-197 | an accepted opening posts antes, both blinds and any straddle, each capped by the stack, at pairwise different players going clockwise from the button, which posts the small blind itself heads-up |
| `BettingOpening.OpeningHolds` | server/poker/betting.js:118-204 | an accepted opening satisfies the betting invariant, safe against stranding exactly as `StrandsPot` says |
| `Stranding.OpeningSucceeds` | server/poker/betting.js:199-203 | an accepted configuration always opens: judging an all-in opening cannot fail |
| `BettingInvariant.FinishVerdict` | server/poker/betting.js:77-116 | a street is always judged: the search for a next pending actor never comes back empty-handed |
| `BettingInvariant.ActionKeeps` | server/poker/betting.js:238-314 | every accepted action keeps the invariant: an unfolded player holds the top contribution, or preflop nobody matched the nominal big blind and only the small blind folds chips above the ante |
| `BettingRuns.DealKeeps` | server/poker/betting.js:325-349 | a dealt street keeps the invariant and leaves somebody to act |
| `BettingRuns.RunoutKeeps` | server/poker/betting.js:351-364 | running out the board keeps the invariant |
| `BettingRuns.ReachableInvariant` | server/poker/betting.js:118-364 | every state reachable by any actions, timeouts and deals satisfies the invariant |
| `BettingRuns.PlaySameHand` | server/poker/betting.js:25-45 | over any run no player's stack plus contribution changes, nor seats, blinds or button, and each step is one version |
| `BettingProgress.StepUsesUp` | server/poker/betting.js:269-364 | every accepted step strictly lowers the lexicographic measure of streets left, stacks, unfolded players and players still to act |
| `BettingProgress.HandsAreFinite` | server/poker/betting.js:269-364 | no hand runs for ever: with T chips it has fewer than 900 (T + 1) steps |
| `BettingProgress.TimeoutIsLegal` | server/poker/betting.js:206-210 | while betting, the action seat is a pending player's, whose timeout is accepted; everyone else's is refused |
| `BettingProgress.DealingIsLegal` | server/poker/betting.js:325-356 | an awaited street or runout can always be dealt from five distinct cards extending the board |
| `BettingProgress.TimeoutsFinishTheHand` | server/poker/betting.js:316-364 | from every reachable state timeouts and dealing alone finish the hand |
| `BettingProgress.RaiseRightsStayClosed` | server/poker/betting.js:258-266 | a player who has acted may not bet or raise again until somebody else makes a full raise or a street is dealt; short all-ins do not reopen |
| `PotLimit.NoSqueeze` | server/poker/betting.js:58-68 | wherever an increase is offered, least and greatest targets are compatible unless only an all-in remains |
| `PotLimit.PotLimitIsPotAfterCall` | server/poker/betting.js:61-67 | pot limit lets the actor raise by exactly the pot as it stands after the call, capped by the stack |
| `PotLimit.AcceptedTargets` | server/poker/betting.js:247-253 | a target is accepted exactly if it exceeds the bet, respects the maximum, and is at least the minimum or all-in; so the maximum is always accepted |
| `BettingMoves.ActionEffect` | server/poker/betting.js:238-314 | an accepted action moves exactly the chips its name says from the actor's stack into the bet, sets the bet to match accordingly, and leaves everybody else's chips, the board and the street alone |
| `BettingMoves.AcceptedIffAllowed` | server/poker/betting.js:206-314 | a move is accepted if and only if the table's situation allows it, stated on stacks, bets and who has acted |
| `BettingMoves.ActionIsJudged` | server/poker/betting.js:70-116 | after every action the hand is over when one player is left, runs out when nobody can bet on, waits for the next street or shows down when the round is closed, and otherwise passes to the closest pending player clockwise of the actor |
| `BettingMoves.TimeoutEffect` | server/poker/betting.js:316-323 | running out of time folds a player who faces a bet and checks one who does not; no chip moves |
| `BettingMoves.StreetEffect` | server/poker/betting.js:325-349 | a dealt street extends the board, clears the bets, makes the big blind the raise to beat, and gives the turn to the closest player clockwise of the button who can act |
| `BettingMoves.RunoutEffect` | server/poker/betting.js:351-364 | a runout completes the board and leads to showdown, changing nothing else |
| `BettingMoves.OpeningTurn` | server/poker/betting.js:199-203 | the small blind's seat is first to act heads-up, otherwise the closest player clockwise of the last forced bet who can act |
| `RaiseSizes.RaisesAreRecorded` | server/poker/betting.js:247-267 | over every run the recorded raise is the size of the street's last full increase, computed from the history of bets alone, and the players recorded as having acted are those who did so since |
| `RaiseSizes.IncreasesFromHistory` | server/poker/betting.js:206-267 | over every run a bet or raise is accepted exactly if the actor has not acted since the last full raise of the history, the target beats the bet within the game's limit, and it raises by at least that size or is all-in |
| `RaiseSizes.RaiseAfterRaise` | server/poker/betting.js:256-261 | after a full raise from a bet to a target the least raise is to the target plus the same difference again |
| `BettingMachine.BettingState.constructor` | server/poker/betting.js:158-167 | a new object stands for the hand it is given |
| `BettingMachine.BettingState.PostAntes` | server/poker/betting.js:169-171 | the ante loop charges every player in place exactly the ante or the stack |
| `BettingMachine.BettingState.PostForcedBets` | server/poker/betting.js:173-183 | both blinds are posted in place at the seats the opening names |
| `BettingMachine.BettingState.PostStraddle` | server/poker/betting.js:184-197 | an accepted straddle is posted in place and becomes the bet to match, its excess over the big blind the raise to beat |
| `BettingMachine.BettingState.Create` | server/poker/betting.js:118-204 | the imperative opening ends in exactly the hand of the functional rules, error for error |
| `BettingMachine.BettingState.ApplyIncrease` | server/poker/betting.js:247-267 | a bet or raise changes the object as the rules say, the size of a full raise included, or is refused without changing it |
| `BettingMachine.BettingState.FinishOrAdvance` | server/poker/betting.js:77-116 | the verdict on a street is written to the object as the rules say |
| `BettingMachine.BettingState.ApplyAction` | server/poker/betting.js:269-314 | acting in place refines the rules of an action on values |
| `BettingMachine.BettingState.ApplyTimeout` | server/poker/betting.js:316-323 | a timeout in place is the check or fold of the rules |
| `BettingMachine.BettingState.DealStreet` | server/poker/betting.js:325-349 | dealing a street in place refines the rules on values |
| `BettingMachine.BettingState.DealRemainingBoard` | server/poker/betting.js:351-364 | running out the board in place refines the rules on values |
| `Pots.BuildPotsByLayers` | server/poker/pots.js:17-49 | the layering loop yields the pots and refunds the theorems below speak about |
| `SidePots.SidePotTheorem` | server/poker/pots.js:23-44 | the pots a player is in plus the player's refund total the sum over all players of the smaller of the two contributions |
| `SidePots.RefundIsExcess` | server/poker/pots.js:26-31 | each player is refunded exactly the excess over the largest other contribution, folded or not |
| `SidePots.AtMostOneRefund` | server/poker/pots.js:26-31 | at most one player is refunded |
| `SidePots.PotsAreNested` | server/poker/pots.js:33-41 | participants of each pot include those of every later pot, so eligible players shrink with the level |
| `SidePots.BuildPotsSucceedsIff` | server/poker/pots.js:17-49 | building pots succeeds exactly on valid stakes whose contested levels each have an unfolded participant; then every chip is in a pot or refunded and the conservation check cannot fail |
| `Stranding.SettlesIffNotStranded` | server/poker/pots.js:25-42 | for an accepted opening every finished hand's pots can be built if and only if the opening does not satisfy `StrandsPot`, a condition on the starting stacks, ante and blinds alone |
| `Stranding.StrandedRun` | server/poker/pots.js:32 | every opening that strands its pot has a run whose pots cannot be built |
| `Stranding.ExampleRun` | server/poker/pots.js:32 | there is such an opening, of three players, and a finished run from it whose pots cannot be built |
| `Pots.ApplyRakeByPot` | server/poker/pots.js:51-68 | the raking loop refines the rake the theorems speak about |
| `Payouts.RakeIsExact` | server/poker/pots.js:51-68 | total rake is the percentage of the called pots rounded down, at most the cap, nothing without a flop, for all valid terms |
| `Payouts.RakeIsMainPotFirst` | server/poker/pots.js:56-64 | a later pot pays rake only once every earlier pot is used up |
| `Pots.SettlePotsLoop` | server/poker/pots.js:81-136 | the nested loops over pots and boards refine the settlement on values |
| `Pots.SplitBoard` | server/poker/pots.js:112-124 | a board's amount is divided among the winners with odd chips in order |
| `Payouts.WinnersAreBest` | server/poker/pots.js:97-111 | the winners of a pot are exactly the eligible players no eligible player beats |
| `Payouts.BoardSharesAreFair` | server/poker/pots.js:112-124 | winners' shares differ by at most one chip and the extra chips go to the first winners in order |
| `Payouts.OddChipsInOrder` | server/poker/pots.js:112-124 | each winner gets the quotient, and one chip more exactly if fewer winners than odd chips come before in the order |
| `Payouts.SettlementIsExact` | server/poker/pots.js:81-136 | settling pays each player exactly the board shares of the pots won, and the whole net amount |
| `ShowdownTheorems.OrderIsClockwise` | server/poker/showdown.js:8-13 | odd chips go clockwise from the left of the button |
| `Showdown.AddRefunds` | server/poker/showdown.js:36-38 | the refund loop adds every refund to the awards once |
| `ShowdownTheorems.UncontestedSettles` | server/poker/showdown.js:80-99 | a hand everybody but one folded settles and pays exactly |
| `ShowdownTheorems.ShowdownSettles` | server/poker/showdown.js:50-78 | a showdown of properly dealt players on one or two boards never throws, ranks every live player by the player's own cards on each board, and pays exactly |
| `ShowdownTheorems.PayoutsNotNegative` | server/poker/showdown.js:29-48 | no player of a settled hand is paid a negative amount |
| `FinishedHands.FinishedHandSettles` | server/poker/showdown.js:50-99 | a finished reachable hand from an opening that strands no pot settles without error |
| `FinishedHands.HandConservesChips` | server/poker/showdown.js:29-48 | whatever was played, stacks after settlement plus rake equal the chips the players sat down with |
| `FinishedHands.FinishedHandPays` | server/poker/showdown.js:29-99 | a finished hand whose pots can be built pays exactly the board shares of its raked pots and the refunds, and its rake is the table's percentage of the called pots up to the cap, if a flop was dealt |
| `Combinations.AllCombinations` | server/poker/evaluator.js:21-34 | the recursive search lists the selections the next row describes |
| `Combinations.CombinationsAreComplete` | server/poker/evaluator.js:21-34 | every k-subsequence of any list is enumerated, at increasing positions, exactly once |
| `Evaluator.StraightHigh` | server/poker/evaluator.js:36-43 | the search from the ace down finds the highest straight, the wheel last |
| `Evaluator.EvaluateHand` | server/poker/evaluator.js:54-84 | counting, straight search and classification in the source's order yield the evaluation |
| `HandCategories.CategoryIsRight` | server/poker/evaluator.js:54-84 | every five distinct cards get the category the rules of poker give them, stated on rank and suit counts |
| `HandCategories.TiebreakIsRight` | server/poker/evaluator.js:63-83 | ties are broken by straight height, else by ranks, more frequent first, then higher first |
| `PublishedCards.RanksArePublished` | fairness/protocol.js:117-128 | the evaluator ranks one card below another exactly if its published rank comes earlier in 23456789TJQKA, and gives them one suit exactly if the published suits agree |
| `PublishedCards.CategoryIsPublished` | server/poker/evaluator.js:54-84 | the category of five valid cards is the kind of hand their published ranks and suits show |
| `PublishedCards.BetterKindWins` | server/poker/evaluator.js:86-94 | of two hands the better published kind wins |
| `PublishedCards.StraightsByRow` | server/poker/evaluator.js:36-43 | straights of one kind are decided by where their row of published ranks lies on A23456789TJQKA, so ace to five is the lowest |
| `PublishedCards.RoyalFlushIsUnbeaten` | server/poker/evaluator.js:54-84 | no five cards beat T, J, Q, K and A of one published suit |
| `PublishedCards.KickersDecide` | server/poker/evaluator.js:63-94 | hands of one kind other than straights are decided by the first difference between their published ranks, listed by frequency and then by rank |
| `Evaluator.BestOf` | server/poker/evaluator.js:96-100 | the reducing pass keeps a candidate no other beats, the first of equals |
| `Evaluations.CompareEvaluations` | server/poker/evaluator.js:86-94 | the comparison loop computes the order on evaluations |
| `Evaluations.CompareIsTotalPreorder` | server/poker/evaluator.js:86-94 | comparison is antisymmetric in sign and transitive on all evaluations |
| `BestHand.HoldemIsBest` | server/poker/evaluator.js:102-108 | the result is the evaluation of five of the seven cards and no five of them, in any order, beat it |
| `BestHand.OmahaIsBest` | server/poker/evaluator.js:110-124 | no two hole cards with three board cards, in any order, beat the result, which evaluates such a hand |
| `BestHand.HoldemIgnoresOrder` | server/poker/evaluator.js:102-108 | the same cards in another order make an equally strong hand |
| `BestHand.OmahaIgnoresOrder` | server/poker/evaluator.js:110-124 | reordering the hole cards or the board makes an equally strong hand |
| `Shuffle.HmacStream.Bytes` | fairness/protocol.js:210-223 | the buffer hands out the next bytes of the endless block stream, whatever it held before |
| `Shuffle.HmacStream.Below` | fairness/protocol.js:225-233 | the rejection loop returns the first acceptable 32-bit sample reduced, and consumes exactly the samples up to it |
| `Shuffle.SamplingIsUniform` | fairness/protocol.js:225-233 | each residue has the same number of accepted samples, and fewer samples than the range are rejected |
| `Shuffle.CreateDeck` | fairness/protocol.js:107-115 | the nested loops list the 52 card ids |
| `Shuffle.ShuffleInPlace` | fairness/protocol.js:236-248 | the in-place swaps compute the Fisher-Yates order of the draws the stream yields |
| `Shuffle.ShuffleDeck` | fairness/protocol.js:236-248 | every seed whose stream is productive deals a permutation of the 52 cards |
| `Shuffle.ShuffleIsBijection` | fairness/protocol.js:243-246 | for a deck of any size, draws and permutations correspond one to one |
| `Shuffle.ShuffleIsDrawing` | fairness/protocol.js:243-246 | for every deck and all draws the swaps in place yield what drawing card by card from the shrinking rest does |
| `Shuffle.SampleDigits` | fairness/protocol.js:225-233 | a sample is four successive bytes of the stream, the most significant first |
| `Shuffle.HighestDrawsFirst` | fairness/protocol.js:236-248 | the first accepted sample, reduced by the size of the deck, decides the highest place, and the samples after it decide the rest in turn |
| `Shuffle.EveryOrderIsDealt` | fairness/protocol.js:210-248 | every order of the 52 cards is dealt from some stream |
| `DeckMerkle.BuildMerkleLayers` | fairness/protocol.js:271-285 | the layer loop builds the layers with odd nodes duplicated, and refuses an empty tree |
| `DeckMerkle.MerkleProof` | fairness/protocol.js:287-302 | the walk up the layers collects the sibling path of the leaf |
| `DeckMerkle.ProofFoldsToRoot` | fairness/protocol.js:287-302 | for any nonempty leaf list and index the proof folds from the leaf to the root |
| `DeckMerkle.RevealCard` | fairness/protocol.js:320-329 | revealing a position of a committed deck yields its card, nonce and proof, and refuses positions outside the deck |
| `DeckMerkle.VerifyCardReveal` | fairness/protocol.js:331-355 | the verifier answers true exactly for canonical metadata, well-formed fields and a fold equal to the root, and false for anything malformed |
| `DeckMerkle.HonestRevealIsAccepted` | fairness/protocol.js:320-329 | every position of a committed deck can be revealed and the reveal is accepted |
| `DeckMerkle.AcceptedRevealIsCommitted` | fairness/protocol.js:331-355 | an accepted reveal names the card and nonce committed at its position, whatever the shape of its proof |
| `DeckMerkle.RootDeterminesDeck` | fairness/protocol.js:304-318 | one root commits to one order and one list of nonces, even among decks of different sizes |
| `DealMaps.PlanRunout` | fairness/protocol.js:364-391 | the position counter lays out exactly the closed-form boards, error for error |
| `DealMaps.PlanDeal` | fairness/protocol.js:393-414 | dealing one card at a time around the table gives the closed-form plan, error for error |
| `DealMaps.PlanUsesEachPositionOnce` | fairness/protocol.js:357-414 | a plan exists exactly for 2 to 9 seats, a button among them and 1 or 2 boards; hole cards in dealing order and then burns and board cards are positions 0, 1, 2, ... without gap, at most 52 of them, all 52 only for nine-handed PLO4 on two boards |
| `DealMaps.CardsGoRound` | fairness/protocol.js:357-414 | the button gets its first card last, or first when heads-up, each seat the card after its neighbour's, and every further card one lap later |
| `Fairness.DerivationIgnoresOrder` | fairness/protocol.js:171-199 | the hand seed does not depend on the order in which player seeds are listed |
| `Fairness.DerivationBinds` | fairness/protocol.js:171-199 | two derivations of one hand seed had the same rules, server seed, beacon source, round and randomness, and the same player seeds |
| `Fairness.RootBindsSeed` | fairness/protocol.js:304-318 | for dealers that deal different seeds apart, equal deck roots come from equal hand seeds |
| `Fairness.AuditAcceptsHonestHands` | fairness/protocol.js:435-477 | every committed hand passes its own audit, which rebuilds the dealt deck |
| `Fairness.AuditDeterminesTheDeal` | fairness/protocol.js:479-523 | two accepted openings of one record use the same seeds and rebuild the same deck, the one behind the record's root |
| `Fairness.AuditPassesIff` | fairness/protocol.js:479-523 | an audit passes if and only if server and player seeds are exactly the committed ones, the rules are those hashed, and the deck these inputs determine has the root on record |
| `Fairness.ShuffledDeckIsDeck` | fairness/protocol.js:236-248 | what the shuffle deals is a deck in the sense the protocol needs |
| `HandLog.ReduceHand` | server/hand-coordinator.js:90-141 | field-by-field replay of a hand log equals the functional replay |
| `HandLog.HandEventStore.Append` | server/hand-coordinator.js:46-59 | the store's append refines the atomic append and touches no other hand |
| `HandLog.LogsAreConsistent` | server/hand-coordinator.js:185-402 | on every log the coordinator can write: commitments only by players, a reservation only once all committed, a deck only for the reserved round, reveals only after it |
| `HandLog.RevealsAreAPrefix` | server/hand-coordinator.js:302-333 | public reveals are always a prefix of the committed public sequence |
| `HandLog.RevealedCardsAreCommitted` | server/hand-coordinator.js:302-333 | every card revealed is the one the deck behind the root holds at that position |
| `HandLog.RevealsAreHonest` | server/hand-coordinator.js:302-318 | every reveal on a log is, proof and nonce included, the one the committed deck gives for its position, so a reveal repeated under its key is never refused |
| `HandLog.CompletedOnce` | server/hand-coordinator.js:361-381 | a log holds a completion exactly if the hand is complete, and for the deck root on the log |
| `HandLog.ReservationFreezes` | server/hand-coordinator.js:206-239 | once a beacon round is reserved neither rules nor commitments nor the reservation change |
| `HandLog.BeaconDecidesTheDeck` | server/hand-coordinator.js:241-300 | after the reservation the beacon's randomness alone decides the deck root, whatever seeds are presented |
| `HandLog.RootBindsInputs` | server/hand-coordinator.js:241-300 | for dealers that deal apart, two logs of a hand have the same deck root if and only if they agree on rules, commitments of server and players, and the beacon's draw |
| `HandLog.OnlyTheBeaconDecides` | server/hand-coordinator.js:206-300 | after one reservation the deck root changes exactly with the beacon's randomness, so nobody knows it before the round is out |
| `HandPhases.LogsGoThroughPhases` | server/hand-coordinator.js:185-402 | every written log is an opening, one commitment by each of the n players, one reservation, one deck, reveals and one completion, in this order, cut short at most by an abort; nothing follows the end |
| `HandPhases.ReservedIffAhead` | server/hand-coordinator.js:227-239 | a beacon is reserved exactly once everybody has committed and nothing later is on the log, for a positive round that comes out later than now |
| `HandPhases.CommittedIffOpened` | server/hand-coordinator.js:241-300 | a deck is committed exactly right after a reservation, from a signed and reverified beacon of the reserved round, with seeds that open every commitment once |
| `HandPhases.EndedIff` | server/hand-coordinator.js:361-402 | a hand is completed exactly after its deck and before its end, by an audit of that deck's root that passes, and aborted exactly before its end, for a listed reason with refunds scheduled |
| `HandLog.InterleavedRevealsAreAPrefix` | server/hand-coordinator.js:156-183 | the same in every interleaving of calls on observed versions |
| `EventLog.VerifyChain` | server/table-coordinator.js:190-215 | the chain loop accepts exactly contiguous, linked, hashed events with non-decreasing times |
| `EventLog.ChainSplits` | server/table-coordinator.js:190-215 | a log verifies exactly when a prefix verifies and the rest verifies from the prefix's head |
| `EventLog.HeadDeterminesLog` | server/table-coordinator.js:172-188 | two verified logs with the same head hash are equal |
| `EventLog.CommitIsSerialIff` | server/table-coordinator.js:551-589 | a committed event was validated against exactly the log it extends if and only if its expected version is at most the version loaded |
| `EventLog.CommitKeepsChainIff` | server/table-coordinator.js:560-589 | the chain survives a commit exactly when the head was read at the expected version |
| `EventLog.InterleavingsAreSerial` | server/table-coordinator.js:530-589 | in every interleaving of calls on observed versions the stored log verifies, every event was decided on exactly its prefix for the request recorded under its key and no later than its own time, and keys and events correspond one to one |
| `EventLog.KeysAreOnce` | server/table-coordinator.js:551-558 | a call under a known key never adds an event: it gets the first answer or is refused |
| `GuessedVersions.GuessedVersionsBreakTheLog` | server/table-coordinator.js:560-574 | wherever two requests are acceptable, one of them expecting a version ahead, an interleaving stores both with the same predecessor; the log never verifies again and every later call that loads it is refused |
| `GuessedVersions.TableLogsCanBreak` | server/table-coordinator.js:560-574 | at every new table two arrivals can do so under the coordinator's own decisions |
| `Dealing.VerifiedPublicCards` | server/table-coordinator.js:163-170 | the loop over reveals accepts exactly those at the expected positions with valid proofs |
| `Dealing.VerifiedCardsAreCommitted` | server/table-coordinator.js:163-170 | accepted public cards are those the committed deck holds at the positions asked for |
| `Dealing.HonestCardsAreVerified` | server/table-coordinator.js:163-170 | the dealer's own reveals of the expected positions are accepted |
| `Dealing.DealtHandsAreLegal` | server/table-coordinator.js:859-885 | dealing along the plan from a permutation gives every player hole and board cards the evaluators accept |
| `Dealing.PlayersShareNoCard` | server/table-coordinator.js:869-873 | no card is dealt to two players |
| `TableReplay.TableState.Apply` | server/table-coordinator.js:307-394 | each case of the reducer, in place, refines the step on values, missing seats included |
| `TableReplay.ReduceTable` | server/table-coordinator.js:288-399 | the replay loop refines replay on values |
| `TableReplay.WrittenEventsAreTimed` | server/table-coordinator.js:146-155 | events the coordinator writes carry a time bank for every player |
| `TableRuns.LogsReplay` | server/table-coordinator.js:288-399 | every log the coordinator can write replays without a missing seat or hand, and seats plus rake plus chips taken away equal the buy-ins |
| `TableRuns.HandChipsMatchSeats` | server/table-coordinator.js:342-370 | during a hand each participant's seat carries the player's stack plus contribution |
| `TableRuns.InterleavedTablesConserve` | server/table-coordinator.js:551-926 | the same for the stored log after any interleaving of calls on observed versions |
| `TableRuns.BettingVersionsAreOnce` | server/table-coordinator.js:727-777 | no betting version of a hand is advanced by two events, so never by both an action and a timeout |
| `TableInvariant.ClockFinds` | server/table-coordinator.js:137-144 | the clock always finds its actor, and there is a turn exactly while the hand is betting |
| `TableInvariant.StartSeatsEligible` | server/table-coordinator.js:427-455 | a started hand seats exactly the eligible players, in seat order, with the chips and time banks at their seats |
| `NextHands.ButtonMoves` | server/table-coordinator.js:132-135 | the button goes to the closest eligible seat clockwise of the old one, never staying, or to the lowest eligible seat if the old one is not eligible; its index is the number of eligible seats below |
| `NextHands.ButtonGoesRound` | server/table-coordinator.js:427-434 | over n consecutive hands of a written log with the same n eligible seats every seat has the button exactly once |
| `NextHands.StartTerms` | server/table-coordinator.js:691-721 | a hand is started with the next number, on the setup's button, with the game that is due and the table's own blinds and ante |
| `NextHands.GamesAlternate` | server/table-coordinator.js:436-438 | a table of both games plays hold'em first and changes the game after every so many hands |
| `SeatChanges.SeatIsTaken` | server/table-coordinator.js:609-639 | a seat is taken exactly between hands, where nobody sits, by somebody not seated, for a buy-in within the limits; the newcomer has the full time bank and everybody else sits as before |
| `SeatChanges.SitsOut` | server/table-coordinator.js:642-659 | whoever is seated and not out may sit out, at once or after the hand being played; no other seat changes |
| `SeatChanges.ComesBackIn` | server/table-coordinator.js:661-671 | whoever is out, or about to be, and has chips may come back; no other seat changes |
| `SeatChanges.Leaves` | server/table-coordinator.js:673-689 | whoever is seated may leave: a bystander is gone at once, a player of the hand marked to go |
| `Absences.SittingOutKeepsOut` | server/table-coordinator.js:427-455 | on every written log no hand started after a player sat out is dealt to that player before the player returns or takes a seat again |
| `TurnClock.MoveIsTaken` | server/table-coordinator.js:727-751 | a move is taken exactly from the player on turn, for the betting version on the table, no later than the deadline, if the betting rules accept it |
| `TurnClock.MoveCosts` | server/table-coordinator.js:155-161 | a move costs its player exactly the time it was late, which the bank covers, and nobody else anything |
| `TurnClock.TimeoutCosts` | server/table-coordinator.js:753-777 | a timeout comes at the deadline or later and empties its player's bank, nobody else's |
| `TurnClock.SeatsTakeBanks` | server/table-coordinator.js:356-370 | after every step of a hand each player's seat holds the player's bank, and nothing else of any seat has changed |
| `TurnClock.LogsAreClocked` | server/table-coordinator.js:137-161 | on every written log each time bank lies between nothing and the table's allowance, and the open turn ends its player's bank after the action clock |
| `HandPayouts.FinishPaysByTheRules` | server/table-coordinator.js:859-905 | finishing a hand pays each pot to the eligible players with the best of their own committed cards on the dealt board, takes the table's own percentage and cap, and grows every stack by exactly its payout |
| `HandPayouts.SeatsAfterHand` | server/table-coordinator.js:372-385 | after a hand the table waits, leaving players are gone, the others of the hand sit with the stack paid out, out if it is empty or they asked for it, and bystanders sit as before |
| `TableInvariant.StartOk` | server/table-coordinator.js:691-721 | starting a hand leaves the table sound and the chips where they were |
| `TableHands.StartNeverThrows` | server/table-coordinator.js:427-455 | whenever the next hand has players it can be started |
| `TableHands.HandIsPlayed` | server/table-coordinator.js:342-370 | the hand a written log has in progress is the outcome of a run of the betting rules from the configuration the log opened it with |
| `TableFinish.BoardCheckNeverFails` | server/table-coordinator.js:859-868 | the comparison of a finished hand's board with the audited deck never fails |
| `TableFinish.ConservationNeverFires` | server/table-coordinator.js:899-905 | the assertion on stacks and rake never fires on a settled hand |
| `TableFinish.FinishesIffPotsBuild` | server/table-coordinator.js:842-905 | once its audit passes, a finished hand is settled if and only if its pots can be built |
| `TableHands.LogFinishes` | server/table-coordinator.js:842-905 | on every written log: past the audit a finished hand is settled if its pots can be built, and always if the configuration the log opened it with strands no pot |
| `TableHands.StuckForever` | server/table-coordinator.js:842-905 | a finished hand whose pots cannot be built stays the table's hand in every continuation of the log |
| `StuckTables.TableSticksIffStranded` | server/table-coordinator.js:842-905 | a started hand can get its table stuck because its pots cannot be built, if and only if its configuration satisfies `StrandsPot` |
| `StuckTables.SomeTableSticks` | server/table-coordinator.js:842-905 | there is such a table, whoever deals |
| `Deadlines.DeadlineIffBetting` | server/table-coordinator.js:254-271 | a table has a deadline if and only if its hand is betting, and then for the present hand, version, player and time |
| `Deadlines.InterleavedDeadlines` | server/table-coordinator.js:254-271 | the same for the stored log after any interleaving of calls on observed versions |
| `Deadlines.ExpiredDeadlineTimesOut` | server/table-coordinator.js:753-777 | the timeout of an indexed deadline is accepted exactly from the deadline on |
| `Deadlines.TableEventStore.Append` | server/table-coordinator.js:238-252 | the append refines the atomic append, touches no other table, and keeps the deadline index in agreement with all logs |
| `Deadlines.TableEventStore.ClaimExpiredDeadlines` | server/table-coordinator.js:273-285 | the claim loop leases the earliest free expired deadlines up to the limit and changes nothing else |
| `Deadlines.LeasesAreExclusive` | server/table-coordinator.js:219-285 | over every run of appends and claims before a lease runs out, none of them ending the turn: no claim gets the leased turn, and its entry keeps owner and expiry |
| `Snapshots.StateRoundTrip` | server/table-coordinator.js:401-425 | deserialising a serialised state gives it back, amounts in decimal text included |
| `Snapshots.BettingRoundTrip` | server/table-coordinator.js:69-103 | decoding an encoded betting state gives it back |
| `Snapshots.SnapshotEqualsReplay` | server/postgres-table-store.js:94-132 | for every verified log and every cut, the snapshot taken there passes the state hash, anchor and version checks, and loading it with the rest yields what replaying the whole log yields |
| `Snapshots.SnapshotRejectsForks` | server/postgres-table-store.js:105-122 | a stored row with a snapshot's state hash and time loads if and only if it is that snapshot unchanged and the events after it continue the prefix it was taken from |
| `HandDriver.RevealAll` | server/safe-beta-dealer.js:272-283 | revealing a slice of the public sequence, part or all of which may be on the hand log already, is never refused, shows each position once and yields the dealer's own reveals |
| `HandDriver.Advance` | server/safe-beta-dealer.js:260-337 | on any written table log and hand log of a hand whose opening strands no pot, wherever an earlier run stopped, the driver comes to rest within its bound, with a player to act or the hand settled; no request on the way is refused and both logs stay written |
| `ChangedLineups.SettlesIffSameRules` | server/table-coordinator.js:842-857 | past the dealer's own audit a finished hand that strands no pot is settled if and only if its deck was committed for the rules the table started it with |
| `ChangedLineups.MismatchedForever` | server/table-coordinator.js:842-857 | with a deck committed for other rules the hand stays the table's hand in every continuation of the log |
| `ChangedLineups.RootNamesRules` | fairness/protocol.js:435-467 | if different hand seeds deal differently, the deck root of a committed hand belongs to one set of rules only |
| `ChangedLineups.ArrivalSticksTheTable` | server/safe-beta-dealer.js:183-257 | at every waiting table: if a player sits down after the next hand was prepared, the start on its deck is accepted and the table never leaves that hand |
| `Escrow.SessionsAreSafe` | settlement/programs/xpoker_escrow/src/lib.rs:74-412 | over every run: total deposited is the sum of the deposit records, total released the sum of claims and refunds, the vault covers the difference, and claims and refunds exclude each other |
| `EscrowAuthority.OpensEmpty` | settlement/programs/xpoker_escrow/src/lib.rs:23-72 | a session opens exactly for an authority that is somebody and a refund deadline at most 1,512,000 slots ahead, and then safe and empty |
| `EscrowAuthority.OnlyTheAuthority` | settlement/programs/xpoker_escrow/src/lib.rs:540-562 | terms, locking, settling, closing and early refunds change only under the authority's signature, and the authority only to the key it proposed |
| `EscrowAuthority.StatusMovesOn` | settlement/programs/xpoker_escrow/src/lib.rs:137-412 | the status only moves forward: open, locked, settling, closed, with refunds as the way out |
| `EscrowAuthority.OwnMoneyOnly` | settlement/programs/xpoker_escrow/src/lib.rs:74-328 | a deposit, claim or refund takes the player's own signature, and only what the record says leaves the vault, apart from the surplus swept on closing |
| `EscrowAuthority.AcceptedIffPermitted` | settlement/programs/xpoker_escrow/src/lib.rs:74-412 | on sound books an instruction is accepted if and only if its signer, status, slot and amounts permit it; no overflow or balance check refuses more |
| `EscrowAuthority.NothingWithoutTheAuthority` | settlement/programs/xpoker_escrow/src/lib.rs:137-287 | over every run without the signatures of the authority and of the key it proposed, a session is never locked, settled or closed, no claim is paid, and refunds start only from the deadline on |
| `EscrowAuthority.AuthorityPassesOn` | settlement/programs/xpoker_escrow/src/lib.rs:330-366 | the authority changes in no run that neither it nor the key it proposed signs |
| `EscrowPayouts.ClaimableIffListed` | settlement/programs/xpoker_escrow/src/lib.rs:200-258 | with the root of a tree of payouts that spend the deposits, exactly the listed payouts of players who have not claimed can be claimed |
| `EscrowPayouts.ConservationNeverRejects` | settlement/programs/xpoker_escrow/src/lib.rs:222-231 | the conservation, overflow and balance checks never reject a claim with a valid proof |
| `EscrowPayouts.ClaimsInAnyOrder` | settlement/programs/xpoker_escrow/src/lib.rs:200-258 | listed claims succeed in whatever order they arrive |
| `EscrowPayouts.AllClaimedThenClosed` | settlement/programs/xpoker_escrow/src/lib.rs:368-412 | after the last listed claim, in any order, the session can be closed |
| `EscrowPayouts.ClosableIffAllClaimed` | settlement/programs/xpoker_escrow/src/lib.rs:368-378 | a settling session can be closed exactly when every listed payout has been claimed |
| `EscrowPayouts.CommitBacks` | settlement/programs/xpoker_escrow/src/lib.rs:156-198 | committing the root of a tree of payouts that spend the deposits makes exactly those payouts claimable |
| `EscrowPayouts.CommittedSessionsSettle` | settlement/programs/xpoker_escrow/src/lib.rs:156-412 | after such a commitment, whatever is submitted: everyone listed is paid once or every deposit is returned, and at any time exactly the unclaimed listed payouts can be claimed |
| `EscrowPayouts.BackedStays` | settlement/programs/xpoker_escrow/src/lib.rs:74-412 | one instruction keeps a settling session so backed, unless it closes it or, before any claim, turns it to refunds |
| `EscrowPayouts.RefundSucceedsIff` | settlement/programs/xpoker_escrow/src/lib.rs:289-328 | while refunding exactly the depositors not yet refunded are paid, each the full deposit |
| `EscrowPayouts.RefundsInAnyOrder` | settlement/programs/xpoker_escrow/src/lib.rs:289-328 | refunds succeed in whatever order depositors ask |
| `EscrowPayouts.ClosableIffAllRefunded` | settlement/programs/xpoker_escrow/src/lib.rs:368-378 | a refunding session can be closed exactly when every deposit has been returned |
| `EscrowPayouts.AllRefundedThenClosed` | settlement/programs/xpoker_escrow/src/lib.rs:289-412 | after the last refund, in any order, the session can be closed |
| `EscrowPayouts.NobodyIsLockedIn` | settlement/programs/xpoker_escrow/src/lib.rs:260-328 | past the deadline, before a settlement is committed, anyone can open refunds, after which every depositor gets the deposit back and the session closes |
| `EscrowMachine.EscrowAccounts.constructor` | settlement/programs/xpoker_escrow/src/lib.rs:23-72 | an initialised session is the one of the model and is safe; the accounts end exactly as the state machine says, and safe |
| `EscrowMachine.EscrowAccounts.Deposit` | settlement/programs/xpoker_escrow/src/lib.rs:74-135 | what the vault gained is credited to record and total, or the call is refused unchanged; the accounts end exactly as the state machine says, and safe |
| `EscrowMachine.EscrowAccounts.LockSession` | settlement/programs/xpoker_escrow/src/lib.rs:137-154 | locking checks authority, status, deadline and deposits; the accounts end exactly as the state machine says, and safe |
| `EscrowMachine.EscrowAccounts.CommitSettlement` | settlement/programs/xpoker_escrow/src/lib.rs:156-198 | a settlement is committed once, by the authority, for the whole deposit, with a claim window in bounds; the accounts end exactly as the state machine says, and safe |
| `EscrowMachine.EscrowAccounts.ClaimPayout` | settlement/programs/xpoker_escrow/src/lib.rs:200-258 | a claim is paid exactly once per player within the released total; the accounts end exactly as the state machine says, and safe |
| `EscrowMachine.EscrowAccounts.BeginRefund` | settlement/programs/xpoker_escrow/src/lib.rs:260-287 | refund mode starts as the status and the slot allow; the accounts end exactly as the state machine says, and safe |
| `EscrowMachine.EscrowAccounts.ClaimRefund` | settlement/programs/xpoker_escrow/src/lib.rs:289-328 | a deposit is returned once; the accounts end exactly as the state machine says, and safe |
| `EscrowMachine.EscrowAccounts.CloseSession` | settlement/programs/xpoker_escrow/src/lib.rs:368-412 | closing sweeps the surplus of an emptied session; the accounts end exactly as the state machine says, and safe |
| `SettlementTree.Build` | server/settlement/merkle.js:58-117 | the level loop with its sibling lists builds the tree and claims of the model, error for error |
| `SettlementTree.CollectProofs` | server/settlement/merkle.js:86-107 | pushing siblings onto the proofs of all leaves below a node yields each leaf's proof |
| `SettlementTree.NodesCommute` | server/settlement/merkle.js:37-42 | a parent does not depend on which child is given first, for any total order on digests |
| `SettlementTree.ProofFoldsToRoot` | server/settlement/merkle.js:86-107 | every leaf's proof folds to the root, promoted odd nodes included |
| `SettlementTree.DepthIsLog` | server/settlement/merkle.js:87-107 | the height is the base-2 logarithm of the number of payouts rounded up |
| `SettlementTree.ProofIsShort` | server/settlement/merkle.js:94-97 | no proof is longer than the height |
| `SettlementTree.EveryClaimVerifiesIff` | server/settlement/merkle.js:58-128 | every generated claim is accepted if and only if there are at most 2^32 payouts |
| `SettlementTree.ClaimsVerify` | server/settlement/merkle.js:119-128 | within that bound both verifiers accept every generated claim |
| `SettlementTree.AcceptedClaimsAreListed` | server/settlement/merkle.js:119-128 | an accepted claim is one of the payouts, for that session |
| `SettlementTree.VerifySettlementClaim` | server/settlement/merkle.js:119-128 | the server's verifier refuses long or malformed proofs and otherwise folds |
| `SettlementTree.VerifySortedMerkleProof` | settlement/programs/xpoker_escrow/src/lib.rs:449-463 | the escrow's fold computes the same digest |
| `SettlementTree.VerifiersAgree` | settlement/programs/xpoker_escrow/src/lib.rs:439-463 | what the server's loop and the escrow's loop are each proved to accept is the same on every well-formed claim |
| `Base58.DecodeBase58` | server/wallet-auth.js:17-34 | the decoding loops compute the change of base with leading zeros restored |
| `Base58.EncodeBase58` | server/wallet-auth.js:36-50 | the encoding loops compute the inverse change of base |
| `Base58.DecodeEncode` | server/wallet-auth.js:17-50 | decoding an encoding gives the bytes back if and only if there are any; no bytes at all come back as one zero byte |
| `Base58.EncodeDecode` | server/wallet-auth.js:17-50 | encoding what a valid text decodes to gives the text back |
| `Base58.PublicKeyBytes` | server/settlement/merkle.js:14-20 | the canonical-form comparison never rejects a text that decodes to 32 bytes |
| `Base58.SymbolsAscend` | server/wallet-auth.js:10-11 | the symbols ascend, and are the digits and letters but 0, O, I and l |

## Left out

- Cryptography: SHA-256, HMAC and HKDF (RFC 5869) are injective constructors, one per domain, and digests have no bytes; what follows from collisions is not modelled. Digests compare by an arbitrary total order. Beacon and transcript signatures are flags.
- Shuffle.HmacStream.Below: terminates because the stream is assumed to yield an acceptable sample eventually (`Productive`); nothing bounds how many samples are rejected.
- Fairness.AuditDeterminesTheDeal: stated for the hashes of one hand; the hand id, which enters every hash, is the hand whose dealer is used. The public record's protocol version and deck-duplicate check are not fields.
- EventLog.InterleavingsAreSerial: assumes that callers expect versions already loaded and that the clock does not run backwards; which error a refused call gets is not modelled, only that it is refused.
- EventLog.VerifyChain: one log at a time, so the event version and table id fields, equal in every event, are not compared; the transcript chain of server/transcript.js is the same loop with signatures and is not modelled apart.
- HandDriver.Advance: assumes nobody else appends between its steps, a hand opened so that it cannot strand its pot on a deck committed for the table's rules, a hand log that shows at least the table's board, and reveals and completions made under the driver's own keys; the Redis lock, the preparation of a hand and the beacon wait are not modelled.
- StuckTables.TableSticksIffStranded: is about pots that cannot be built only; a hand on a deck of other rules, which is never settled either, is `ChangedLineups`.
- ChangedLineups.ArrivalSticksTheTable: assumes that a deck root belongs to one set of rules, which `ChangedLineups.RootNamesRules` derives from dealers that deal apart; other changes of the lineup, by a player sitting out or leaving, are not spelled out.
- Snapshots.SnapshotEqualsReplay: takes the newest snapshot as given; the state hash is an injective constructor over version and state, and the choice of row and the interval between snapshots are not modelled.
- HandLog.LogsAreConsistent: what the dealer's secret store answers is part of the request; concurrent deck commitments with different keys, and deletion of secrets, are not modelled.
- Tables.DecideOn: room, mint and allowlist fields, wallet syntax, transcript event hashes and the published result record are left out; amounts are integers and times are milliseconds, not text.
- Deadlines.TableEventStore.ClaimExpiredDeadlines: returns table ids instead of copies of the entries; the PostgreSQL row locks that make claims atomic are assumed.
- TableRuns.LogsReplay: pausing, resuming and closing a table are replayed but written by no modelled request, as in the source.
- Escrow.SessionsAreSafe: one lifetime of a session; account addresses, rent, bumps, event emission and the reuse of a closed session id are left out, and a transfer fails only for lack of balance.
- SettlementTree.Build: keys are numbers standing for 32 canonical bytes; the text form is `Base58`.
- BettingOpening.OpeningHolds: player ids are numbers and every amount is an integer; the table coordinator never passes a straddle, the betting rules are proved with one all the same.
- Betting.ApplyAction: the source clones the state and updates the clone; the object of `BettingMachine` is updated in place and not cloned.
- The timeout worker's polling loop, tableView, holeCardsFor and hole-card encryption: easy or I/O.
- HTTP, WebSocket, Redis, monitoring, configuration, migrations, release gates, custody and compliance services, and the user interface.

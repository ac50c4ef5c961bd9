# A Dafny model of RoomAI's Texas hold'em engine

This project models one hand of no-limit Texas hold'em as the RoomAI
environment `roomai/texas/TexasHoldemEnv.py` plays it, and proves
properties of that model. It covers:

- starting a hand: the configuration check, the blinds and the deal
  (`init`);
- the catalogue of legal actions (`available_actions`, `is_action_valid`);
- the betting state machine (`forward`, the five action handlers,
  `__next_player__`, `__is_nextround__`, `__is_compute_scores__`);
- the seven-card evaluator (`__cards2pattern_cards__`) and the comparator
  (`__compute_rank_pattern_cards__`, `__compare_patterns_cards__`);
- settling the pot (`compute_scores`): the fold-win and the layered
  side-pot split among tie groups.

The hand state is an immutable record (`GameState.PublicState`) with one
sequence entry per seat. `Engine.Forward` is a pure transition that returns
an error value where the engine raises `ValueError`.

The modules follow the source's pieces:

| file | module | what it holds |
|---|---|---|
| `seqs.dfy` | `Seqs` | sums, counts, slices and other sequence helpers |
| `cards.dfy` | `Cards` | cards as (point 2..14, suit 0..3) |
| `outcomes.dfy` | `Outcomes` | `Option`, `Result` and the engine's errors |
| `state.dfy` | `GameState` | actions, the public state, the game and its invariant `Inv` |
| `setup.dfy` | `Setup` | the configuration check, blind posting, the deal, `Init` |
| `actions.dfy` | `Actions` | `available_actions` and `is_action_valid` |
| `betting.dfy` | `Betting` | the handlers, reopening after a raise, the next seat, the end-of-round tests |
| `evaluator.dfy` | `HandEvaluator` | the evaluator, built from its grouping lists and scans |
| `evaluator_facts.dfy` | `EvaluatorFacts` | contents, order and sizes of the grouping lists |
| `evaluator_props.dfy` | `EvaluatorProps` | which branch answers and how many cards each branch selects |
| `evaluator_content.dfy` | `EvaluatorContent` | which cards the straight-flush, four-of-a-kind, flush and high-card branches select |
| `evaluator_kickers.dfy` | `EvaluatorKickers` | the kicker walk, and which cards the full-house, three-of-a-kind, two-pair and one-pair branches select |
| `ranking.dfy` | `Ranking` | the base-1000 rank and the comparator |
| `settlement.dfy` | `Settlement` | the stable sort, the side-pot layers, tie groups and the awards |
| `side_pot.dfy` | `SidePot` | a worked showdown whose layers pay out more than was bet |
| `engine.dfy` | `Engine` | `forward`: settle, open the next round or pass the turn |

Modelling choices that follow the code rather than its evident intent:

- **No plain straight.** The different-suit straight test compares a point
  with itself plus one (`TexasHoldemEnv.py:567`), so it never holds.
  `HandEvaluator.DiffSuitScan` keeps that test and proves it always
  answers `None`, so no plain straight is ever reported.
- **No ace-low straight.** Nothing in the evaluator treats the ace as low.
- **One pair over-collects.** The one-pair branch never advances its kicker
  counter, so it appends every other point. It selects seven cards, and
  the comparator reads only the first five.
- **Side pots can overpay.** Each layer is capped at the bet of the seat
  that opens it, not at that bet less the pot line. The showdown can pay
  out more than was bet, so whole-pot conservation is not stated.
  `SidePot.SidePotOverpays` shows a three-seat showdown that pays 1000
  from bets of 900.
- **Floor division.** Python 2's `/` on integers floors. The half big
  blind and the layer shares are all divisions by a positive number, where
  Dafny's `/` and `%` agree with Python's.

Where the code's evident intent was modelled instead:

- **The `num2point` lists.** The source sorts only one of them, the one
  indexed by the count left over from the grouping loop (lines 500-501).
  The model takes every `num2point[k]` list in ascending order.
- **Card groups.** The evaluator takes the seven cards as a set. It builds
  each group by walking suits 0..3 or points 2..14 in order. For seven
  different cards this gives the same lists as the source's sort in card
  order.

## Model

| member | source | states |
|---|---|---|
| Setup.ConfigError | roomai/texas/TexasHoldemEnv.py:23-30 | The configuration is accepted exactly when there is one stack per seat and seven cards per seat fit in a 52-card deck. |
| Setup.Init | roomai/texas/TexasHoldemEnv.py:74-137 | A stack count that differs from the seat count fails with ChipsLengthMismatch. Otherwise more than 52/7 seats fail with TooManyPlayers. The hand starts exactly when both checks pass. The started game holds the opening public state of `Setup.StartState`, the hole cards of `Setup.Hands`, and as kept board cards the five cards after everyone's hole cards. |
| Setup.PostBlind | roomai/texas/TexasHoldemEnv.py:104-122 | A seat posting a blind moves min(stack, blind) from stack to bet. It goes all-in exactly when its stack is at most the blind. No other seat changes. |
| Setup.BlindsPosted | roomai/texas/TexasHoldemEnv.py:78-122 | With two or more seats, the small and big blinds are two different seats. The big blind bets min(stack, big blind) and the small blind min(stack, floor of half the big blind). Every other seat bets nothing, and every seat's stack plus bet equals its starting stack. A seat is all-in exactly when it could not cover its blind. |
| Setup.SeatsAfterDealer | roomai/texas/TexasHoldemEnv.py:78-98 | The small blind, the big blind and the first seat to act are the seats (dealer+1), (dealer+2) and (dealer+3) modulo the number of seats. |
| Setup.StartState | roomai/texas/TexasHoldemEnv.py:81-125 | The hand opens in the first stage with an empty board. The seat after the big blind acts first. The bet to match is the smaller of the big blind seat's stack and the big blind, read before the small blind is posted; with two or more seats it equals the big blind seat's bet. The raise increment is the big blind. Every seat must act, nobody has folded, and there are no scores. Stacks, bets, all-in flags and the all-in count are those left by posting the blinds (`Setup.Blinds`). |
| Setup.DealSound | roomai/texas/TexasHoldemEnv.py:127-136 | From a deck of at least 2n+5 different valid cards, every seat's two hole cards and the five kept board cards are seven different valid cards. |
| Setup.HandsApart | roomai/texas/TexasHoldemEnv.py:127-136 | From a deck of different cards, no two seats share a hole card, and no hole card is among the kept board cards. |
| Setup.Blinds | roomai/texas/TexasHoldemEnv.py:103-121 | The big blind is posted before the small blind, to seats two and one after the dealer. What each seat then holds is stated by `Setup.BlindsPosted`. |
| Setup.BigBlindPosted | roomai/texas/TexasHoldemEnv.py:104-112 | Posting the big blind on empty bets leaves the big blind seat with a bet of min(stack, big blind), the value the bet to match is taken from. |
| Setup.OneSeatStart | roomai/texas/TexasHoldemEnv.py:104-122 | With one seat of 100 chips and a big blind of 10, seat 0 posts both blinds and bets 15 with 85 left, while the bet to match stays 10. |
| Setup.InitPostsBlinds | roomai/texas/TexasHoldemEnv.py:74-125 | With two or more seats a valid configuration starts a hand in which the big blind seat has bet min(stack, big blind), which is the bet to match. The small blind seat has bet min(stack, floor of half the big blind) and every other seat nothing. Each seat's stack plus bet is its starting stack. |
| Setup.InitEstablishesInv | roomai/texas/TexasHoldemEnv.py:74-138 | A valid configuration with at least two seats succeeds when every stack holds chips, the big blind seat's stack exceeds the big blind, the small blind seat's stack exceeds half of it, and the deck has distinct valid cards. Seats that post no blind may hold fewer chips than the big blind. The starting game then satisfies the hand invariant: per-seat arrays in shape, counters equal to the flags they count, consistent seat flags, seven distinct cards per seat, and the seat to act is flagged. |
| Actions.AvailableActionsSpec | roomai/texas/TexasHoldemEnv.py:665-719 | A folded, all-in or chipless seat is offered nothing. Otherwise it is offered Fold and AllIn(whole stack) always. It is offered Check iff its bet is the largest, and Call(x) iff x is the call amount, nonzero and less than its stack. Raise(x) is offered iff x lies strictly between the call amount and the stack and exceeds the call by a multiple of the raise increment. |
| Actions.RaiseActionsSpec | roomai/texas/TexasHoldemEnv.py:703-712 | A raise of x is generated iff x = call amount + k * increment for some k >= 1 and x is less than the stack. So no raise is offered unless the stack exceeds the call amount plus one increment. |
| Actions.AvailableActions | roomai/texas/TexasHoldemEnv.py:665-719 | The set of actions offered to the seat to act. Which actions it contains is stated, case by case and in both directions, by `Actions.AvailableActionsSpec` and `Actions.RaiseActionsSpec`. |
| Actions.IsActionValid | roomai/texas/TexasHoldemEnv.py:722-732 | An action is legal exactly when it is among the actions offered and the hand is not over. What a legal action implies is stated by `Betting.ValidActor` and `Betting.RaiseStep`. |
| Betting.NextPlayer | roomai/texas/TexasHoldemEnv.py:437-445 | The next seat is -1 exactly when no seat must act. Otherwise it is a seat that must act, and no seat strictly between the current turn and it, clockwise, must act. |
| Betting.Reopen | roomai/texas/TexasHoldemEnv.py:404-409 | Re-flagging after a raise changes only the flags and the counter, and keeps the counter in step with the flags. |
| Betting.ReopenFlags | roomai/texas/TexasHoldemEnv.py:404-409 | After the walk round the table, a seat must act iff it already had to, or it is not the raiser and has neither folded nor gone all-in. |
| Betting.ApplyAction | roomai/texas/TexasHoldemEnv.py:170-181 | A handler changes neither the seat count, the dealer, the turn, the stage, the board nor the big blind, and keeps the state well formed. |
| Betting.ActFold | roomai/texas/TexasHoldemEnv.py:373-379 | `__action_fold__`. Its effect is stated by `Betting.ActorMoves`, `Betting.QuietStep` and `Betting.StepClearsActor`: the seat is marked folded, no chips move, and only its own flag to act is cleared. |
| Betting.ActCheck | roomai/texas/TexasHoldemEnv.py:381-384 | `__action_check__`. Its effect is stated by `Betting.ActorMoves`, `Betting.QuietStep` and `Betting.StepClearsActor`: no chips move and only the actor's flag to act is cleared. |
| Betting.ActCall | roomai/texas/TexasHoldemEnv.py:386-391 | `__action_call__`. Its effect is stated by `Betting.ActorMoves`, `Betting.QuietStep` and `Betting.StepConservesStacks`: the price moves from stack to bet, and nothing else but the actor's flag changes. |
| Betting.ActRaise | roomai/texas/TexasHoldemEnv.py:393-409 | `__action_raise__`. Its effect is stated by `Betting.ActorMoves` and `Betting.RaiseReopens`: the price moves from stack to bet, the raise becomes the largest bet and the new increment, and every other seat that may still bet must act again. |
| Betting.ActAllIn | roomai/texas/TexasHoldemEnv.py:412-432 | `__action_allin__`. Its effect is stated by `Betting.ActorMoves`, `Betting.AllInReopens` and `Betting.QuietStep`: the whole stack moves into the bet, and the others must act again exactly when the bet rises above the largest. |
| Betting.ActorMoves | roomai/texas/TexasHoldemEnv.py:373-432 | Fold and check move no chips. A call or raise moves its price from the actor's stack to its bet. All-in moves the whole stack and marks the seat all-in. Only a fold marks the seat folded. |
| Betting.StepConservesStacks | roomai/texas/TexasHoldemEnv.py:373-432 | For a legal action, every seat's stack plus bet is unchanged and no other seat's stack, bet or flags change. The actor's stack stays non-negative, and the largest bet and the raise increment never shrink. |
| Betting.ValidActor | roomai/texas/TexasHoldemEnv.py:679-682 | A legal action's actor has neither folded nor gone all-in and holds chips. |
| Betting.RaiseStep | roomai/texas/TexasHoldemEnv.py:703-712 | A legal raise exceeds the call by at least one raise increment and leaves the raiser chips. |
| Betting.RaiseReopens | roomai/texas/TexasHoldemEnv.py:393-409 | After a raise, every other seat must act iff it had to or may still bet, and the raiser need not. The largest bet becomes the raiser's bet, and the raise increment becomes the rise over the old largest bet. |
| Betting.AllInReopens | roomai/texas/TexasHoldemEnv.py:412-432 | An all-in that raises the largest bet re-flags the others exactly as a raise does and sets the largest bet to the all-in bet. It leaves the raise increment unchanged. |
| Betting.QuietStep | roomai/texas/TexasHoldemEnv.py:373-391 | Fold, check, call and an all-in that does not raise leave every other seat's flag, the largest bet and the raise increment unchanged. |
| Betting.StepClearsActor | roomai/texas/TexasHoldemEnv.py:373-422 | Whatever legal action the seat takes, it no longer needs to act in this round. |
| Betting.StepKeepsCounters | roomai/texas/TexasHoldemEnv.py:373-432 | Every handler keeps the fold, all-in and needs-to-act counters equal to the number of flags set. |
| Betting.StepKeepsSeats | roomai/texas/TexasHoldemEnv.py:373-432 | Every handler keeps the seat flags consistent. No seat is both folded and all-in, a seat that must act may still bet, and a seat that may still bet has chips. Bets stay between 0 and the largest bet, and stacks stay non-negative. |
| Betting.IsNextRound | roomai/texas/TexasHoldemEnv.py:467-473 | The round is over when nobody needs to act. What follows is stated by `Engine.ForwardNextRound` and `Engine.NextRoundKeepsInv`. |
| Betting.IsComputeScores | roomai/texas/TexasHoldemEnv.py:447-465 | The hand ends when all but one seat have folded, or at most one seat can still bet and nobody needs to act, or the river's betting is over. That `forward` ends the hand exactly then is stated by `Engine.ForwardEnds`. |
| Engine.Forward | roomai/texas/TexasHoldemEnv.py:155-185 | An action is rejected, with InvalidAction, exactly when it is not legal for the seat to act. An accepted action keeps the cards and records the actor and the action as the previous ones. |
| Engine.Settle | roomai/texas/TexasHoldemEnv.py:186-192 | Settling ends the hand with one score per seat. Each stack grows by the seat's award, and each score is the award less the seat's bet. Nothing else but the board changes. |
| Engine.NextRound | roomai/texas/TexasHoldemEnv.py:196-213 | The next round raises the stage by one and appends the next board cards. Exactly the seats that have neither folded nor gone all-in must act, and the counter matches. The turn goes to the first of those clockwise from the dealer, or -1 when there is none. |
| Engine.BoardGrows | roomai/texas/TexasHoldemEnv.py:197-202 | The cards added at each stage take the board from the kept cards shown in that stage to those shown in the next (0, 3, 4, 5). |
| Engine.ActedKeeps | roomai/texas/TexasHoldemEnv.py:165-185 | After a legal action, the counters and the seat consistency still hold, and the board is still the kept cards shown at that stage. |
| Engine.SettleKeepsInv | roomai/texas/TexasHoldemEnv.py:186-193 | Settling yields a terminal state that satisfies the hand invariant, with the whole board shown and one score per seat. |
| Engine.NextRoundKeepsInv | roomai/texas/TexasHoldemEnv.py:194-215 | When nobody needs to act and the hand is not over, the round is not yet the last. The next round satisfies the hand invariant, and in particular the seat it gives the turn to must act. |
| Engine.ForwardPreservesInv | roomai/texas/TexasHoldemEnv.py:155-221 | A legal action is accepted, and the next state satisfies the hand invariant. |
| Engine.ForwardStacks | roomai/texas/TexasHoldemEnv.py:365-367 | Before the end, each seat's stack plus bet is what it was. At the end, each seat's stack less its score is its stack plus bet before the step. |
| Engine.ForwardEnds | roomai/texas/TexasHoldemEnv.py:186-192 | The hand ends exactly when the end test (`__is_compute_scores__`) holds after the action. The whole board is then shown. |
| Engine.ForwardFoldWin | roomai/texas/TexasHoldemEnv.py:301-307 | When the second-to-last seat folds, the hand ends. The one seat left scores the whole pot less its own bet, every folded seat loses its bet, and the scores sum to zero. |
| Engine.ForwardNextRound | roomai/texas/TexasHoldemEnv.py:194-215 | When a round closes without ending the hand, the stage rises by one and the board shows the next cards. Exactly the seats that may still bet must act, and there are at least two of them. The turn goes to the first of them clockwise from the dealer, and stacks and bets are untouched. |
| Engine.ForwardPassesTurn | roomai/texas/TexasHoldemEnv.py:217-221 | Otherwise the stage and board stay. The turn passes to another seat that must act, the first one clockwise from the actor. |
| Settlement.SortBy | roomai/texas/TexasHoldemEnv.py:322 | Sorting returns a permutation of its input in ascending key order. |
| Settlement.SortByStable | roomai/texas/TexasHoldemEnv.py:335 | The sort is stable: the entries with any one key keep their relative order. |
| Settlement.Contenders | roomai/texas/TexasHoldemEnv.py:311-316 | The showdown's contenders are the unfolded seats, in seat order, each with its own rank and bet. |
| Settlement.ContendersComplete | roomai/texas/TexasHoldemEnv.py:313-316 | Every unfolded seat is a contender. |
| Settlement.Collect | roomai/texas/TexasHoldemEnv.py:340-341 | A layer's collection is never negative, and nothing is collected once every bet is at or below the pot line. |
| Settlement.AddShareSum | roomai/texas/TexasHoldemEnv.py:342-343 | Adding a share to each remaining member of a group adds one share per member to the total. |
| Settlement.SplitLayerSum | roomai/texas/TexasHoldemEnv.py:341-344 | Giving each remaining group member one share and the dealer the remainder adds exactly those shares and the remainder to the scores' total. |
| Settlement.OneLayerPays | roomai/texas/TexasHoldemEnv.py:336-346 | A layer pays out exactly what it collects. The pot line becomes the larger of itself and the layer's cap, so it never decreases. Only the remaining group members and the dealer gain. |
| Settlement.OneLayerShare | roomai/texas/TexasHoldemEnv.py:337-344 | Each remaining group member gains the collection divided by their number (floor). The dealer also gains the remainder. |
| Settlement.OneLayerGrows | roomai/texas/TexasHoldemEnv.py:336-346 | With non-negative bets no seat's award decreases in a layer. |
| Settlement.ShowdownFacts | roomai/texas/TexasHoldemEnv.py:327-363 | The showdown pays only contenders and the dealer, and never lowers an award or the pot line. |
| Settlement.ShowdownIdle | roomai/texas/TexasHoldemEnv.py:327-363 | Once the pot line reaches every bet, the rest of the showdown pays nothing. |
| Settlement.OneLayer | roomai/texas/TexasHoldemEnv.py:336-346 | One pass of the layer loop for group member k. What it pays is stated by `Settlement.OneLayerPays`, `Settlement.OneLayerShare` and `Settlement.OneLayerGrows`. |
| Settlement.PayGroup | roomai/texas/TexasHoldemEnv.py:335-346 | A group of equal hands, sorted by bet, is paid layer by layer. Its recipients and its effect on the pot line are stated by `Settlement.ShowdownFacts`. |
| Settlement.Showdown | roomai/texas/TexasHoldemEnv.py:325-363 | The walk from the best hand down, grouping equal ranks and paying each group. What it pays and to whom is stated by `Settlement.ShowdownFacts`, `Settlement.ShowdownIdle` and `Settlement.SoleWinnerTakesPot`. |
| Settlement.FoldWin | roomai/texas/TexasHoldemEnv.py:300-306 | The award when all seats but one have folded. Its contents are stated by `Settlement.FoldWinAwards`. |
| Settlement.Awards | roomai/texas/TexasHoldemEnv.py:300-363 | The awards of `compute_scores`. Which branch applies is stated by `Settlement.FoldWinAwards` and `Settlement.AwardsAtShowdown`, and who can receive chips by `Settlement.AwardsRecipients`. |
| Settlement.FirstUnfolded | roomai/texas/TexasHoldemEnv.py:304-307 | The first unfolded seat, or -1 when every seat has folded. |
| Settlement.FoldWinAwards | roomai/texas/TexasHoldemEnv.py:301-307 | When every seat but one has folded, that seat receives the sum of all bets and every other seat nothing. The net scores sum to zero. |
| Settlement.AwardsAtShowdown | roomai/texas/TexasHoldemEnv.py:309-363 | Otherwise the awards are the showdown over the contenders sorted by rank. |
| Settlement.NetScores | roomai/texas/TexasHoldemEnv.py:365-367 | Net scores are awards less bets, so they sum to the awards' total less the bets' total. |
| Settlement.AwardsRecipients | roomai/texas/TexasHoldemEnv.py:301-363 | Only unfolded seats and the dealer receive chips, and no award is negative when no bet is. |
| Settlement.CollectEverything | roomai/texas/TexasHoldemEnv.py:339-341 | A first layer capped at or above every bet collects the whole pot. |
| Settlement.SoleWinnerTakesPot | roomai/texas/TexasHoldemEnv.py:309-363 | A single best hand that also bet the most takes the whole pot, and the net scores sum to zero. |
| SidePot.SidePotOverpays | roomai/texas/TexasHoldemEnv.py:333-363 | Bets of 100, 300 and 500 with the two smaller bettors tied on the best hand are awarded 150, 650 and 200. That is 1000 from a pot of 900. |
| HandEvaluator.StraightScan | roomai/texas/TexasHoldemEnv.py:511-520 | A found index starts five cards of consecutive points. |
| HandEvaluator.DiffSuitScan | roomai/texas/TexasHoldemEnv.py:565-578 | The different-suit straight scan never finds a straight. |
| HandEvaluator.EvaluateSet | roomai/texas/TexasHoldemEnv.py:476-641 | The evaluator never answers a plain straight. |
| HandEvaluator.Evaluate | roomai/texas/TexasHoldemEnv.py:476-641 | The pattern of a hand and the board is never a plain straight. The cards selected for each pattern are stated over the set of the seven cards, by the `EvaluatorContent` and `EvaluatorKickers` lemmas. |
| EvaluatorFacts.SuitCardsFacts | roomai/texas/TexasHoldemEnv.py:487-494 | A suit's list holds exactly that suit's cards, in strictly ascending point order. |
| EvaluatorFacts.PointsUpToFacts | roomai/texas/TexasHoldemEnv.py:503-506 | `sorted_point` holds each point present exactly once, ascending. |
| EvaluatorFacts.PointsWithCountFacts | roomai/texas/TexasHoldemEnv.py:496-501 | `num2point[k]` holds exactly the points held k times, ascending. |
| EvaluatorFacts.RankCardsDescLength | roomai/texas/TexasHoldemEnv.py:634-640 | Walking the points from the highest down lists every card. |
| EvaluatorProps.KickersFound | roomai/texas/TexasHoldemEnv.py:586-593 | With c cards set aside, the kicker walk finds min(k, 7-c) cards when the other points are singles, and at least one when any card is left. |
| EvaluatorProps.ThreeCountsBound | roomai/texas/TexasHoldemEnv.py:536-546 | Seven cards hold at most two points three times. |
| EvaluatorProps.QuadsLength | roomai/texas/TexasHoldemEnv.py:522-534 | Four of a kind selects five cards. |
| EvaluatorProps.HighCardLength | roomai/texas/TexasHoldemEnv.py:630-641 | High card selects five cards. |
| EvaluatorKickers.KickerWalk | roomai/texas/TexasHoldemEnv.py:586-593 | The kicker walk over points in ascending order takes, from the highest point down, one card of each point outside the set-aside ones, the lowest suit of it, in strictly descending point order. It stops at k cards, and any point it leaves out ranks below all of them. |
| EvaluatorKickers.LowerGuards | roomai/texas/TexasHoldemEnv.py:536-628 | Full house needs no straight flush, no point held four times, and either two points held three times or one such point and a pair. Three of a kind, two pair and one pair need no straight flush, no flush and no point held four times. They need, respectively, one point held three times and no pair, no point held three times and two or more pairs, and no point held three times and exactly one pair. |
| EvaluatorKickers.FullHouseCards | roomai/texas/TexasHoldemEnv.py:536-554 | A full house is the three cards of the highest point held three times, then the two lowest-suit cards of the highest other point held at least twice. That point is the other trips, if there is one, and otherwise the highest pair. |
| EvaluatorKickers.TripsCards | roomai/texas/TexasHoldemEnv.py:580-594 | Three of a kind is the three cards of the only point held more than once, then the lowest-suit cards of the two highest other points, in descending point order. |
| EvaluatorKickers.TwoPairCards | roomai/texas/TexasHoldemEnv.py:596-615 | Two pair is the two cards of the highest pair, then the two of the next highest pair, then the lowest-suit card of the highest point outside both. |
| EvaluatorKickers.PairCards | roomai/texas/TexasHoldemEnv.py:617-628 | One pair is the pair's two cards, then every other card, highest point first. The kicker counter never advances, so all seven cards are selected. |
| EvaluatorProps.EvaluateSelectsFive | roomai/texas/TexasHoldemEnv.py:476-641 | For seven different cards the evaluator selects exactly five cards, except one pair which selects seven. So the comparator's five reads stay in range. |
| EvaluatorContent.ScanFinds | roomai/texas/TexasHoldemEnv.py:511-520 | The scan finds a run of five whenever the suit's list holds one, and the run it finds is the highest. |
| EvaluatorContent.SameSuitStraightSound | roomai/texas/TexasHoldemEnv.py:508-520 | The same-suit search returns five cards of one suit with consecutive points, all among the cards. |
| EvaluatorContent.SameSuitStraightComplete | roomai/texas/TexasHoldemEnv.py:508-520 | The same-suit search finds a run whenever the cards hold five same-suit cards of consecutive points. |
| EvaluatorContent.PatternGuards | roomai/texas/TexasHoldemEnv.py:508-641 | The evaluator answers straight flush exactly when the same-suit search succeeds, and then with the run it found. Four of a kind needs no straight flush and a point held four times. Flush needs neither of those and a suit with five cards, and answers with that suit's selection. High card needs no straight flush, no flush, no point held four or two times, and a three-of-a-kind list with neither one nor two entries. |
| EvaluatorContent.StraightFlushFirst | roomai/texas/TexasHoldemEnv.py:508-520 | A same-suit run of five is reported before any other pattern, and exactly when the cards hold one. The cards reported are such a run. |
| EvaluatorContent.FirstKicker | roomai/texas/TexasHoldemEnv.py:526-529 | The first kicker is a card of the highest listed point outside the set-aside points. |
| EvaluatorContent.RankCardsDescFacts | roomai/texas/TexasHoldemEnv.py:634-640 | Walking the points from the highest down lists exactly the cards of those points, in non-increasing point order. |
| EvaluatorContent.QuadsWithKicker | roomai/texas/TexasHoldemEnv.py:522-534 | Four of a kind is the point's four cards in suit order, then a card of the highest other point held. |
| EvaluatorContent.FlushIsTopFive | roomai/texas/TexasHoldemEnv.py:556-562 | A flush is five cards of one suit in ascending point order, and no card of that suit left out ranks above the lowest of them. |
| EvaluatorContent.HighCardTopFive | roomai/texas/TexasHoldemEnv.py:630-641 | High card is five of the cards in non-increasing point order, and no card left out ranks above the lowest card taken. |
| Ranking.Rank | roomai/texas/TexasHoldemEnv.py:652-658 | `__compute_rank_pattern_cards__`, the base-1000 number of the strength and five points. How two ranks compare is stated by `Ranking.HornerOrder` and `Ranking.CompareIsLexicographic`. |
| Ranking.Compare | roomai/texas/TexasHoldemEnv.py:660-662 | `__compare_patterns_cards__`, the difference of two ranks. Its sign is stated by `Ranking.CompareIsLexicographic`. |
| Ranking.HornerOrder | roomai/texas/TexasHoldemEnv.py:654-657 | Base-1000 encodings with equally many digits compare like their leading values and then their digits, lexicographically. They are equal only when all agree. |
| Ranking.CompareIsLexicographic | roomai/texas/TexasHoldemEnv.py:661-662 | For valid cards, the comparator is negative iff the first hand's (strength, five points) key is lexicographically smaller. It is zero iff the keys are equal. |

## Left out

- `compete`, the many-hand tournament loop with float averaging, is not modelled.
- Default parameters (three seats, stacks of 1000, a big blind of 10) are not modelled: `Setup.Config` always names every parameter.
- Randomness: the random dealer and the shuffled deck are the `dealer` and `allCards` parameters of `Setup.Config`.
- Logging, the history and the infos returned by `init` and `forward` are plumbing and are not modelled.
- The final division of the scores by the big blind (a float) is left out. Scores are integer net chip counts.
- The string-keyed action lookup is replaced by the `Action` datatype. Its closed set of cases makes the unknown-option exception of `forward` impossible.
- The per-seat `available_actions` dictionaries are not stored. While the hand runs, the seat to act's dictionary is `Actions.AvailableActions` of the public state, and it is cleared at the end. So legality is `Actions.IsActionValid`, membership in that set for a hand that is not over.
- The loop at lines 318-320 of `compute_scores` has no effect and is not modelled.
- `roomai/texas/NoLimitTexasHoldemPokerEnv.py` is not part of this model: it is an unfinished draft that does not parse.
- The table of pattern strengths (`AllCardsPattern`) and the card order (`PokerCard.compare`) are not part of this model. Strengths are the numbers 1 to 9 in the order of the patterns, and cards are ordered by point and then suit.
- Setup.Init and Setup.StartState: require at least one seat, a dealer seat in range and a big blind of at least one chip. The source checks none of these. With no seats its seat arithmetic divides by zero, and with a zero big blind the raise loop of `available_actions` does.
- Setup.InitEstablishesInv: requires at least two seats, chips in every stack, and blind seats whose stacks exceed their blinds. A blind seat that cannot cover its blind goes all-in but stays flagged and may be the seat to act. A seat with an empty stack is never all-in yet has no chips to act with. In that state `available_actions` returns `None` and the next legality check fails, so the source has no behaviour to follow there.
- Engine.Forward: requires the hand invariant, which every state reached from such a start keeps (`Engine.ForwardPreservesInv`). It does not model steps from the blind all-in state above.
- Engine.ForwardStacks: states no whole-pot conservation at showdown, because the side-pot layers can pay out more than was bet (`SidePot.SidePotOverpays`).
- EvaluatorContent.PatternGuards: for high card it states that no point is held exactly twice and that the three-of-a-kind list does not have one or two entries, rather than that it is empty. `EvaluatorProps.ThreeCountsBound` closes the gap for seven cards, and `EvaluatorContent.HighCardTopFive` uses it.
- HandEvaluator.EvaluateSet: takes every `num2point[k]` list in ascending order. The source sorts only the list for the count of the last point group visited (lines 500-501), so the others keep the order in which the points come out of the `pointrank2cards` dictionary. That iteration order is not part of this model. Where it is not ascending, the full-house and two-pair branches may pick other points than `EvaluatorKickers.FullHouseCards` and `EvaluatorKickers.TwoPairCards` state.

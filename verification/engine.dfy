/** One step of a hand (`forward`): the action is checked and applied by the
    acting seat's handler; then the hand is settled, the next betting round
    opens, or the turn passes to the next seat that must act. */
module Engine {
  import opened Seqs
  import opened Cards
  import opened Outcomes
  import opened GameState
  import opened Actions
  import opened Betting
  import opened Settlement
  import opened HandEvaluator
  import opened Ranking
  import opened EvaluatorProps

  // ---------------------------------------------------------------------
  // Settling the hand

  /** The rank of the best five of a seat's two hole cards and the board. */
  function SeatRank(hand: seq<Card>, board: seq<Card>): int
    requires ValidSeven(hand + board)
  {
    SevenCardSet(hand + board);
    EvaluateSelectsFive(SetOf(hand + board));
    Rank(Evaluate(hand, board))
  }

  function SeatRanks(hands: seq<seq<Card>>, board: seq<Card>): (r: seq<int>)
    requires forall i :: 0 <= i < |hands| ==> ValidSeven(hands[i] + board)
    ensures |r| == |hands|
  {
    seq(|hands|, i requires 0 <= i < |hands| => SeatRank(hands[i], board))
  }

  /** The awards `compute_scores` hands out: the whole pot to the last seat
      standing when all others folded, otherwise the side-pot layers of the
      showdown, ranked by each seat's best five cards. */
  function SettleAwards(pu: PublicState, keep: seq<Card>, hands: seq<seq<Card>>): (r: seq<int>)
    requires WellFormed(pu) && |hands| == pu.numPlayers
    requires forall i :: 0 <= i < |hands| ==> ValidSeven(hands[i] + keep)
    ensures |r| == pu.numPlayers
  {
    Awards(pu.bets, pu.isFold, pu.numQuit, pu.dealer, SeatRanks(hands, keep))
  }

  /** The showdown branch of `forward` with `compute_scores`: the whole
      board is shown, the hand ends, each seat's award is added to its
      stack, and its score is the award less its bet. */
  function Settle(pu: PublicState, keep: seq<Card>, hands: seq<seq<Card>>): (r: PublicState)
    requires WellFormed(pu) && |hands| == pu.numPlayers
    requires forall i :: 0 <= i < |hands| ==> ValidSeven(hands[i] + keep)
    ensures r.isTerminal && r.scores.Some? && |r.scores.value| == pu.numPlayers
    ensures |r.chips| == pu.numPlayers
    ensures forall i :: 0 <= i < pu.numPlayers ==>
              && r.chips[i] == pu.chips[i] + SettleAwards(pu, keep, hands)[i]
              && r.chips[i] - r.scores.value[i] == pu.chips[i] + pu.bets[i]
    ensures r == pu.(publicCards := r.publicCards, isTerminal := true, chips := r.chips, scores := r.scores)
  {
    var n := pu.numPlayers;
    var awards := SettleAwards(pu, keep, hands);
    pu.(publicCards := Slice(keep, 0, 5),
        isTerminal := true,
        chips := seq(n, i requires 0 <= i < n => pu.chips[i] + awards[i]),
        scores := Some(NetScores(awards, pu.bets)))
  }

  // ---------------------------------------------------------------------
  // Opening the next betting round

  /** The board cards dealt when a betting round ends: the flop's three
      after the first round, then one card after each of the next two. */
  function AddedCards(stage: int, keep: seq<Card>): seq<Card>
    requires |keep| == 5
  {
    if stage == FirstStage then keep[0..3]
    else if stage == 2 then [keep[3]]
    else if stage == 3 then [keep[4]]
    else []
  }

  /** The shown board grows from the cards of one stage to the next. */
  lemma BoardGrows(stage: int, keep: seq<Card>)
    requires |keep| == 5 && FirstStage <= stage < FourthStage
    ensures keep[..Shown(stage)] + AddedCards(stage, keep) == keep[..Shown(stage + 1)]
    ensures |AddedCards(stage, keep)| == Shown(stage + 1) - Shown(stage)
  {
    if stage == 2 {
      assert keep[..4] == keep[..3] + [keep[3]];
    } else if stage == 3 {
      assert keep[..5] == keep[..4] + [keep[4]];
    }
  }

  /** The seats that have neither folded nor gone all-in. */
  function ActiveFlags(pu: PublicState): (r: seq<bool>)
    requires WellFormed(pu)
    ensures |r| == pu.numPlayers && forall i :: 0 <= i < pu.numPlayers ==> (r[i] <==> Active(pu, i))
  {
    Neither(pu.isFold, pu.isAllin)
  }

  /** The next-round branch of `forward`: the stage's board cards are
      shown, the stage advances, every seat that has neither folded nor gone
      all-in must act again, and the first of them after the dealer acts. */
  function NextRound(pu: PublicState, keep: seq<Card>): (r: PublicState)
    requires WellFormed(pu) && |keep| == 5 && pu.stage < FourthStage
    ensures r.stage == pu.stage + 1 && r.publicCards == pu.publicCards + AddedCards(pu.stage, keep)
    ensures |r.needed| == pu.numPlayers && forall i :: 0 <= i < pu.numPlayers ==> (r.needed[i] <==> Active(pu, i))
    ensures r.numNeeded == CountTrue(r.needed)
    ensures r.turn == -1 <==> forall i :: 0 <= i < pu.numPlayers ==> !Active(pu, i)
    ensures r.turn != -1 ==>
              && 0 <= r.turn < pu.numPlayers && Active(pu, r.turn)
              && forall s :: 0 <= s < pu.numPlayers && Ahead(pu.dealer, s, pu.numPlayers) < Ahead(pu.dealer, r.turn, pu.numPlayers) ==> !Active(pu, s)
    ensures r == pu.(publicCards := r.publicCards, stage := r.stage, needed := r.needed, numNeeded := r.numNeeded, turn := r.turn)
  {
    var flags := ActiveFlags(pu);
    var begun := pu.(
      publicCards := pu.publicCards + AddedCards(pu.stage, keep),
      stage := pu.stage + 1,
      needed := flags,
      numNeeded := CountTrue(flags),
      turn := pu.dealer);
    CountTrueZero(flags);
    begun.(turn := NextPlayer(begun))
  }

  // ---------------------------------------------------------------------
  // forward

  /** The state right after the acting seat's handler, recorded as the
      previous action, before the hand is settled or the play moves on. */
  function AfterAction(pu: PublicState, a: Action): (r: PublicState)
    requires WellFormed(pu) && IsActionValid(a, pu)
    ensures WellFormed(r) && r.turn == pu.turn && r.stage == pu.stage && r.publicCards == pu.publicCards
  {
    ApplyAction(pu, a).(previousId := Some(pu.turn), previousAction := Some(a), isTerminal := false, scores := None)
  }

  /** `forward`: an action the acting seat is not offered is rejected;
      otherwise it is applied, and then the hand is settled if it is over,
      the next round opens if this one is, and otherwise the turn passes to
      the next seat that must act. */
  function Forward(g: Game, a: Action): (r: Result<Game>)
    requires Inv(g)
    ensures r.Err? <==> !IsActionValid(a, g.pu)
    ensures r.Err? ==> r.error == InvalidAction
    ensures r.Ok? ==> r.value.keep == g.keep && r.value.hands == g.hands
    ensures r.Ok? ==> r.value.pu.previousId == Some(g.pu.turn) && r.value.pu.previousAction == Some(a)
  {
    var pu := g.pu;
    if !IsActionValid(a, pu) then Err(InvalidAction)
    else
      var acted := AfterAction(pu, a);
      if IsComputeScores(acted) then
        Ok(g.(pu := Settle(acted, g.keep, g.hands)))
      else if IsNextRound(acted) then
        Ok(g.(pu := NextRound(acted, g.keep)))
      else
        StepKeepsCounters(pu, a);
        Ok(g.(pu := acted.(turn := NextPlayer(acted))))
  }

  // ---------------------------------------------------------------------
  // What forward keeps

  /** The acting seat's handler keeps the counters, the seat flags and the
      shown board as the invariant wants them. */
  lemma ActedKeeps(g: Game, a: Action)
    requires Inv(g) && IsActionValid(a, g.pu)
    ensures var acted := AfterAction(g.pu, a);
            && acted.numPlayers == g.pu.numPlayers && acted.stage == g.pu.stage
            && Counters(acted) && SeatsConsistent(acted)
            && acted.publicCards == g.keep[..Shown(acted.stage)]
  {
    StepKeepsCounters(g.pu, a);
    StepKeepsSeats(g.pu, a);
  }

  /** Settling a consistent state ends the hand in a state the invariant
      holds of: every award is non-negative, so no stack goes below zero. */
  lemma SettleKeepsInv(g: Game, pu: PublicState)
    requires WellFormed(pu) && Counters(pu) && SeatsConsistent(pu)
    requires CardsDealt(g) && pu.numPlayers == g.pu.numPlayers
    ensures Inv(g.(pu := Settle(pu, g.keep, g.hands)))
  {
    var r := Settle(pu, g.keep, g.hands);
    AwardsRecipients(pu.bets, pu.isFold, pu.numQuit, pu.dealer, SeatRanks(g.hands, g.keep));
    assert NonNegative(pu.bets);
    assert Slice(g.keep, 0, 5) == g.keep;
  }

  /** When a round's betting is over but the hand is not, at least two seats
      may still bet, so the next round has a seat to act first. */
  lemma NextRoundKeepsInv(g: Game, pu: PublicState)
    requires WellFormed(pu) && Counters(pu) && SeatsConsistent(pu)
    requires CardsDealt(g) && pu.numPlayers == g.pu.numPlayers
    requires pu.publicCards == g.keep[..Shown(pu.stage)]
    requires IsNextRound(pu) && !IsComputeScores(pu) && !pu.isTerminal && pu.scores == None
    ensures pu.stage < FourthStage && Inv(g.(pu := NextRound(pu, g.keep)))
  {
    var r := NextRound(pu, g.keep);
    assert r.turn != -1 by {
      var flags := ActiveFlags(pu);
      CountNeither(pu.isFold, pu.isAllin);
      CountTrueZero(flags);
      var i :| 0 <= i < pu.numPlayers && flags[i];
      assert Active(pu, i);
    }
    assert WellFormed(r);
    assert Counters(r);
    assert SeatsConsistent(r) by {
      forall i | 0 <= i < r.numPlayers
        ensures r.needed[i] ==> Active(r, i)
      {
        assert Active(r, i) == Active(pu, i);
      }
    }
    assert r.publicCards == g.keep[..Shown(r.stage)] by {
      BoardGrows(pu.stage, g.keep);
    }
    assert r.needed[r.turn];
  }

  /** Passing the turn within a round keeps the invariant: somebody still
      has to act, and the turn goes to such a seat. */
  lemma PassKeepsInv(g: Game, pu: PublicState)
    requires WellFormed(pu) && Counters(pu) && SeatsConsistent(pu)
    requires CardsDealt(g) && pu.numPlayers == g.pu.numPlayers
    requires pu.publicCards == g.keep[..Shown(pu.stage)]
    requires !IsNextRound(pu) && !pu.isTerminal && pu.scores == None
    ensures Inv(g.(pu := pu.(turn := NextPlayer(pu))))
  {
  }

  /** Every legal action leads from a state the invariant holds of to
      another one. */
  lemma ForwardPreservesInv(g: Game, a: Action)
    requires Inv(g) && IsActionValid(a, g.pu)
    ensures Forward(g, a).Ok? && Inv(Forward(g, a).value)
  {
    var acted := AfterAction(g.pu, a);
    ActedKeeps(g, a);
    if IsComputeScores(acted) {
      SettleKeepsInv(g, acted);
    } else if IsNextRound(acted) {
      NextRoundKeepsInv(g, acted);
    } else {
      PassKeepsInv(g, acted);
    }
  }

  // ---------------------------------------------------------------------
  // What forward does

  /** Chips only move between a seat's stack and its bet while the hand
      runs; when it ends, each seat's stack less its score is what the seat
      held in stack and bet before the action. */
  lemma ForwardStacks(g: Game, a: Action)
    requires Inv(g) && IsActionValid(a, g.pu)
    ensures var r := Forward(g, a).value.pu;
            && |r.chips| == g.pu.numPlayers && |r.bets| == g.pu.numPlayers
            && (!r.isTerminal ==> forall i :: 0 <= i < g.pu.numPlayers ==> r.chips[i] + r.bets[i] == g.pu.chips[i] + g.pu.bets[i])
            && (r.isTerminal ==>
                  && r.scores.Some? && |r.scores.value| == g.pu.numPlayers
                  && forall i :: 0 <= i < g.pu.numPlayers ==> r.chips[i] - r.scores.value[i] == g.pu.chips[i] + g.pu.bets[i])
  {
    StepConservesStacks(g.pu, a);
    if IsComputeScores(AfterAction(g.pu, a)) {
      ForwardSettledStacks(g, a);
    } else {
      ForwardRunningStacks(g, a);
    }
  }

  /** When the hand ends, each seat's stack less its score is what it held
      in stack and bet once the action was applied. */
  lemma ForwardSettledStacks(g: Game, a: Action)
    requires Inv(g) && IsActionValid(a, g.pu) && IsComputeScores(AfterAction(g.pu, a))
    ensures var r := Forward(g, a).value.pu;
            var acted := AfterAction(g.pu, a);
            && r.isTerminal && r.scores.Some? && |r.scores.value| == g.pu.numPlayers && |r.chips| == g.pu.numPlayers
            && |r.bets| == g.pu.numPlayers
            && forall i :: 0 <= i < g.pu.numPlayers ==> r.chips[i] - r.scores.value[i] == acted.chips[i] + acted.bets[i]
  {
  }

  /** While the hand runs, the stacks and bets are those the action left. */
  lemma ForwardRunningStacks(g: Game, a: Action)
    requires Inv(g) && IsActionValid(a, g.pu) && !IsComputeScores(AfterAction(g.pu, a))
    ensures var r := Forward(g, a).value.pu;
            !r.isTerminal && r.chips == AfterAction(g.pu, a).chips && r.bets == AfterAction(g.pu, a).bets
  {
    if IsNextRound(AfterAction(g.pu, a)) {
      var r := NextRound(AfterAction(g.pu, a), g.keep);
      assert r.chips == AfterAction(g.pu, a).chips && r.bets == AfterAction(g.pu, a).bets && !r.isTerminal;
    }
  }

  /** The hand ends exactly when `__is_compute_scores__` holds after the
      action, and then the whole board is shown. */
  lemma ForwardEnds(g: Game, a: Action)
    requires Inv(g) && IsActionValid(a, g.pu)
    ensures var r := Forward(g, a).value.pu;
            && (r.isTerminal <==> IsComputeScores(AfterAction(g.pu, a)))
            && (r.isTerminal ==> r.publicCards == g.keep && |r.publicCards| == 5)
  {
    var acted := AfterAction(g.pu, a);
    if IsComputeScores(acted) {
      assert Slice(g.keep, 0, 5) == g.keep;
    } else if IsNextRound(acted) {
      ActedKeeps(g, a);
      NextRoundKeepsInv(g, acted);
    }
  }

  /** When the second-to-last seat still in the hand folds, the hand ends:
      the one seat left wins every bet, every other seat loses its own bet,
      and the scores sum to zero. */
  lemma ForwardFoldWin(g: Game)
    requires Inv(g) && IsActionValid(Fold, g.pu) && g.pu.numQuit + 2 == g.pu.numPlayers
    ensures var r := Forward(g, Fold).value.pu;
            && r.isTerminal && r.scores.Some? && |r.scores.value| == r.numPlayers
            && CountTrue(r.isFold) == r.numPlayers - 1
            && (forall s :: 0 <= s < r.numPlayers ==>
                  r.scores.value[s] == (if r.isFold[s] then 0 else Sum(r.bets)) - r.bets[s])
            && Sum(r.scores.value) == 0
  {
    var acted := AfterAction(g.pu, Fold);
    ActedKeeps(g, Fold);
    assert IsComputeScores(acted);
    var r := Settle(acted, g.keep, g.hands);
    var awards := SettleAwards(acted, g.keep, g.hands);
    assert awards == FoldWin(acted.bets, acted.isFold);
    FoldWinAwards(acted.bets, acted.isFold);
    assert r.scores.value == NetScores(awards, acted.bets);
  }

  /** When a round's betting is over but the hand is not, the next stage's
      board cards are shown, the seats that have neither folded nor gone
      all-in (at least two of them) must act again, and the first of them
      after the dealer acts first; no stack or bet changes. */
  lemma ForwardNextRound(g: Game, a: Action)
    requires Inv(g) && IsActionValid(a, g.pu)
    requires IsNextRound(AfterAction(g.pu, a)) && !IsComputeScores(AfterAction(g.pu, a))
    ensures var r := Forward(g, a).value.pu;
            var n := g.pu.numPlayers;
            && r.stage == g.pu.stage + 1 && r.publicCards == g.keep[..Shown(r.stage)]
            && WellFormed(r)
            && (forall i :: 0 <= i < n ==> (r.needed[i] <==> Active(r, i)))
            && r.numNeeded >= 2
            && Active(r, r.turn)
            && (forall s :: 0 <= s < n && Ahead(r.dealer, s, n) < Ahead(r.dealer, r.turn, n) ==> !Active(r, s))
            && r.chips == AfterAction(g.pu, a).chips && r.bets == AfterAction(g.pu, a).bets
  {
    var acted := AfterAction(g.pu, a);
    ActedKeeps(g, a);
    NextRoundKeepsInv(g, acted);
    var r := NextRound(acted, g.keep);
    assert r.needed == ActiveFlags(acted);
    CountNeither(acted.isFold, acted.isAllin);
  }

  /** Otherwise the turn passes on within the round: to a seat that must
      still act, other than the one that just acted, and no seat between
      them in seating order must act. */
  lemma ForwardPassesTurn(g: Game, a: Action)
    requires Inv(g) && IsActionValid(a, g.pu)
    requires !IsNextRound(AfterAction(g.pu, a)) && !IsComputeScores(AfterAction(g.pu, a))
    ensures var r := Forward(g, a).value.pu;
            var n := g.pu.numPlayers;
            && r.stage == g.pu.stage && r.publicCards == g.pu.publicCards && !r.isTerminal
            && 0 <= r.turn < n && r.turn != g.pu.turn && r.needed[r.turn]
            && (forall s :: 0 <= s < n && Ahead(g.pu.turn, s, n) < Ahead(g.pu.turn, r.turn, n) ==> !r.needed[s])
  {
    StepClearsActor(g.pu, a);
    ActedKeeps(g, a);
  }
}

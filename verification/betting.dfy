/** The action handlers and the turn bookkeeping of the engine
    (`__action_fold__` ... `__action_allin__`, `__next_player__`,
    `__is_compute_scores__`, `__is_nextround__`). */
module Betting {
  import opened Seqs
  import opened GameState
  import opened Actions

  // ---------------------------------------------------------------------
  // Walking round the table

  /** How many steps forward from seat `t` seat `s` lies, counting `t`
      itself as a full lap `n`. */
  function Ahead(t: int, s: int, n: int): int
  {
    if s > t then s - t else s - t + n
  }

  /** The seat `j` steps forward from `t`, for `0 <= j <= n`: `(t + j) % n`. */
  function SeatAhead(t: nat, j: nat, n: nat): (p: nat)
    requires t < n && 1 <= j <= n
    ensures p < n && Ahead(t, p, n) == j
    ensures forall s :: 0 <= s < n && Ahead(t, s, n) == j ==> s == p
  {
    if t + j < n then t + j else t + j - n
  }

  lemma SeatAheadIsMod(t: nat, j: nat, n: nat)
    requires t < n && 1 <= j <= n
    ensures SeatAhead(t, j, n) == (t + j) % n
  {
    ModSmall(t + j, n);
  }

  /** Only the flags and the counter of seats that must act differ. */
  predicate OnlyNeededChanged(pu: PublicState, r: PublicState)
  {
    r == pu.(needed := r.needed, numNeeded := r.numNeeded)
  }

  /** The seat-flag part of the re-opening walk of a raise, and of an all-in
      that raises: from the seat `j` steps after the raiser `t` round to the
      seat before it, every seat that has neither folded nor gone all-in and
      is not yet flagged is flagged; `added` counts the flags set. */
  function Walk(needed: seq<bool>, isFold: seq<bool>, isAllin: seq<bool>, t: nat, j: nat): (r: (seq<bool>, int))
    requires |isFold| == |needed| && |isAllin| == |needed| && t < |needed| && 1 <= j <= |needed|
    decreases |needed| - j
    ensures |r.0| == |needed| && r.1 == CountTrue(r.0) - CountTrue(needed)
  {
    var n := |needed|;
    if j == n then (needed, 0)
    else
      var p := SeatAhead(t, j, n);
      if !isAllin[p] && !isFold[p] && !needed[p] then
        CountTrueUpdate(needed, p, true);
        var w := Walk(needed[p := true], isFold, isAllin, t, j + 1);
        (w.0, w.1 + 1)
      else
        Walk(needed, isFold, isAllin, t, j + 1)
  }

  /** The walk flags exactly the seats, from `j` steps after the raiser up
      to the seat before it, that have neither folded nor gone all-in;
      every other flag is left as it was. */
  lemma {:induction false} WalkFlags(needed: seq<bool>, isFold: seq<bool>, isAllin: seq<bool>, t: nat, j: nat, s: nat)
    requires |isFold| == |needed| && |isAllin| == |needed| && t < |needed| && 1 <= j <= |needed| && s < |needed|
    decreases |needed| - j
    ensures Walk(needed, isFold, isAllin, t, j).0[s] <==>
              needed[s] || (j <= Ahead(t, s, |needed|) < |needed| && !isFold[s] && !isAllin[s])
  {
    var n := |needed|;
    if j < n {
      var p := SeatAhead(t, j, n);
      if !isAllin[p] && !isFold[p] && !needed[p] {
        WalkFlags(needed[p := true], isFold, isAllin, t, j + 1, s);
      } else {
        WalkFlags(needed, isFold, isAllin, t, j + 1, s);
      }
    }
  }

  /** The re-opening walk started from the seat after the one to act. */
  function Reopen(pu: PublicState): (r: PublicState)
    requires WellFormed(pu)
    ensures WellFormed(r) && OnlyNeededChanged(pu, r)
    ensures r.numNeeded - CountTrue(r.needed) == pu.numNeeded - CountTrue(pu.needed)
  {
    var w := Walk(pu.needed, pu.isFold, pu.isAllin, pu.turn, 1);
    pu.(needed := w.0, numNeeded := pu.numNeeded + w.1)
  }

  /** After the walk every seat that has neither folded nor gone all-in,
      the one to act aside, must act; no other flag changes. */
  lemma ReopenFlags(pu: PublicState, s: nat)
    requires WellFormed(pu) && s < pu.numPlayers
    ensures Reopen(pu).needed[s] <==> pu.needed[s] || (s != pu.turn && Active(pu, s))
  {
    WalkFlags(pu.needed, pu.isFold, pu.isAllin, pu.turn, 1, s);
  }

  /** The first seat after seat `t`, at least `j` steps on, whose flag is
      set; -1 when there is none. */
  function NextFrom(needed: seq<bool>, t: nat, j: nat): (r: int)
    requires t < |needed| && 1 <= j <= |needed| + 1
    decreases |needed| + 1 - j
    ensures r == -1 <==> forall s :: 0 <= s < |needed| && j <= Ahead(t, s, |needed|) ==> !needed[s]
    ensures r != -1 ==> 0 <= r < |needed| && needed[r] && j <= Ahead(t, r, |needed|)
    ensures r != -1 ==> forall s :: 0 <= s < |needed| && j <= Ahead(t, s, |needed|) < Ahead(t, r, |needed|) ==> !needed[s]
  {
    var n := |needed|;
    if j > n then -1
    else
      var p := SeatAhead(t, j, n);
      if needed[p] then p else NextFrom(needed, t, j + 1)
  }

  /** `__next_player__`: -1 when nobody must act; otherwise the first seat
      after the current one, going round the table, that must act (the
      current seat itself counts last). */
  function NextPlayer(pu: PublicState): (r: int)
    requires WellFormed(pu) && pu.numNeeded == CountTrue(pu.needed)
    ensures r == -1 <==> pu.numNeeded == 0
    ensures r != -1 ==> 0 <= r < pu.numPlayers && pu.needed[r]
    ensures r != -1 ==> forall s :: 0 <= s < pu.numPlayers && Ahead(pu.turn, s, pu.numPlayers) < Ahead(pu.turn, r, pu.numPlayers) ==> !pu.needed[s]
  {
    CountTrueZero(pu.needed);
    if pu.numNeeded == 0 then -1
    else NextFrom(pu.needed, pu.turn, 1)
  }

  // ---------------------------------------------------------------------
  // The action handlers

  /** The acting seat is done for this round: its flag is cleared and the counter lowered. */
  function Acted(pu: PublicState): (r: PublicState)
    requires WellFormed(pu)
  {
    pu.(needed := pu.needed[pu.turn := false], numNeeded := pu.numNeeded - 1)
  }

  function ActFold(pu: PublicState): (r: PublicState)
    requires WellFormed(pu)
  {
    Acted(pu.(isFold := pu.isFold[pu.turn := true], numQuit := pu.numQuit + 1))
  }

  function ActCheck(pu: PublicState): (r: PublicState)
    requires WellFormed(pu)
  {
    Acted(pu)
  }

  function ActCall(pu: PublicState, price: int): (r: PublicState)
    requires WellFormed(pu)
  {
    var t := pu.turn;
    Acted(pu.(chips := pu.chips[t := pu.chips[t] - price], bets := pu.bets[t := pu.bets[t] + price]))
  }

  function ActRaise(pu: PublicState, price: int): (r: PublicState)
    requires WellFormed(pu)
    requires price + pu.bets[pu.turn] - pu.maxBet > 0
  {
    var t := pu.turn;
    var moved := pu.(
      raiseAccount := price + pu.bets[t] - pu.maxBet,
      chips := pu.chips[t := pu.chips[t] - price],
      bets := pu.bets[t := pu.bets[t] + price],
      maxBet := pu.bets[t] + price);
    Reopen(Acted(moved))
  }

  function ActAllIn(pu: PublicState, price: int): (r: PublicState)
    requires WellFormed(pu)
  {
    var t := pu.turn;
    var moved := Acted(pu.(
      isAllin := pu.isAllin[t := true],
      numAllin := pu.numAllin + 1,
      bets := pu.bets[t := pu.bets[t] + price],
      chips := pu.chips[t := 0]));
    if moved.bets[t] > pu.maxBet then Reopen(moved.(maxBet := moved.bets[t])) else moved
  }

  /** The handler `forward` dispatches a legal action to. */
  function ApplyAction(pu: PublicState, a: Action): (r: PublicState)
    requires WellFormed(pu) && IsActionValid(a, pu)
    ensures WellFormed(r)
    ensures r.numPlayers == pu.numPlayers && r.dealer == pu.dealer && r.turn == pu.turn && r.stage == pu.stage
    ensures r.publicCards == pu.publicCards && r.isTerminal == pu.isTerminal && r.bigBlind == pu.bigBlind
  {
    match a
    case Fold => ActFold(pu)
    case Check => ActCheck(pu)
    case Call(x) => ActCall(pu, x)
    case Raise(x) =>
      AvailableActionsSpec(pu, a);
      ActRaise(pu, x)
    case AllIn(x) => ActAllIn(pu, x)
  }

  /** The seat to act may act: it has neither folded nor gone all-in and
      still holds chips. */
  lemma ValidActor(pu: PublicState, a: Action)
    requires WellFormed(pu) && SeatsConsistent(pu) && IsActionValid(a, pu)
    ensures Active(pu, pu.turn) && pu.chips[pu.turn] > 0
  {
    AvailableActionsSpec(pu, a);
  }

  /** A legal action moves chips only between the acting seat's stack and
      its bet: every seat's stack plus bet is unchanged, no other seat's
      stack, bet or flags change, the acting seat keeps a non-negative
      stack, and the largest bet and the raise increment never shrink. */
  lemma StepConservesStacks(pu: PublicState, a: Action)
    requires WellFormed(pu) && SeatsConsistent(pu) && IsActionValid(a, pu)
    ensures var r := ApplyAction(pu, a);
            && (forall i :: 0 <= i < pu.numPlayers ==> r.chips[i] + r.bets[i] == pu.chips[i] + pu.bets[i])
            && (forall i :: 0 <= i < pu.numPlayers && i != pu.turn ==>
                  r.chips[i] == pu.chips[i] && r.bets[i] == pu.bets[i]
                  && r.isFold[i] == pu.isFold[i] && r.isAllin[i] == pu.isAllin[i])
            && 0 <= r.chips[pu.turn]
            && pu.maxBet <= r.maxBet && pu.raiseAccount <= r.raiseAccount
  {
    AvailableActionsSpec(pu, a);
    if a.Raise? {
      RaiseStep(pu, a.price);
    }
  }

  /** What each legal action does to the acting seat: fold and check move
      no chips, a call or a raise moves its price from the stack to the bet,
      going all-in moves the whole stack; only a fold marks the seat folded. */
  lemma ActorMoves(pu: PublicState, a: Action)
    requires WellFormed(pu) && IsActionValid(a, pu)
    ensures var r := ApplyAction(pu, a);
            var t := pu.turn;
            && (a.Fold? || a.Check? ==> r.chips[t] == pu.chips[t] && r.bets[t] == pu.bets[t])
            && (a.Call? || a.Raise? ==> r.chips[t] == pu.chips[t] - a.price && r.bets[t] == pu.bets[t] + a.price)
            && (a.AllIn? ==> r.chips[t] == 0 && r.bets[t] == pu.bets[t] + pu.chips[t] && r.isAllin[t])
            && (r.isFold[t] <==> pu.isFold[t] || a.Fold?)
  {
    AvailableActionsSpec(pu, a);
  }

  /** A legal raise of `x` past a call of `toCall` exceeds it by at least
      one raise increment. */
  lemma RaiseStep(pu: PublicState, x: int)
    requires WellFormed(pu) && IsActionValid(Raise(x), pu)
    ensures x + pu.bets[pu.turn] - pu.maxBet >= pu.raiseAccount
    ensures x < pu.chips[pu.turn]
  {
    AvailableActionsSpec(pu, Raise(x));
    var toCall := pu.maxBet - pu.bets[pu.turn];
    var d := x - toCall;
    var ra := pu.raiseAccount;
    DivExact(d, ra);
    var q := d / ra;
    assert 0 * ra < q * ra;
    MulCancel(0, q, ra);
    assert ra * q - ra == ra * (q - 1);
  }

  /** A raise makes every other seat that has neither folded nor gone
      all-in act again, its bet becomes the largest, and the raise increment
      becomes the amount by which it raised. */
  lemma RaiseReopens(pu: PublicState, x: int)
    requires WellFormed(pu) && IsActionValid(Raise(x), pu)
    ensures var r := ApplyAction(pu, Raise(x));
            && (forall s :: 0 <= s < pu.numPlayers && s != pu.turn ==> (r.needed[s] <==> pu.needed[s] || Active(pu, s)))
            && !r.needed[pu.turn]
            && r.maxBet == r.bets[pu.turn]
            && r.raiseAccount == r.maxBet - pu.maxBet
  {
    var t := pu.turn;
    AvailableActionsSpec(pu, Raise(x));
    var moved := pu.(
          raiseAccount := x + pu.bets[t] - pu.maxBet,
          chips := pu.chips[t := pu.chips[t] - x],
          bets := pu.bets[t := pu.bets[t] + x],
          maxBet := pu.bets[t] + x);
    assert ApplyAction(pu, Raise(x)) == Reopen(Acted(moved));
    ActedReopens(moved);
  }

  /** An all-in that raises the largest bet makes every other seat that has
      neither folded nor gone all-in act again and its bet becomes the
      largest; the raise increment is left as it was. */
  lemma AllInReopens(pu: PublicState, x: int)
    requires WellFormed(pu) && IsActionValid(AllIn(x), pu)
    requires pu.bets[pu.turn] + x > pu.maxBet
    ensures var r := ApplyAction(pu, AllIn(x));
            && (forall s :: 0 <= s < pu.numPlayers && s != pu.turn ==> (r.needed[s] <==> pu.needed[s] || Active(pu, s)))
            && !r.needed[pu.turn]
            && r.maxBet == r.bets[pu.turn]
            && r.raiseAccount == pu.raiseAccount
  {
    var t := pu.turn;
    var moved := pu.(
          isAllin := pu.isAllin[t := true],
          numAllin := pu.numAllin + 1,
          bets := pu.bets[t := pu.bets[t] + x],
          chips := pu.chips[t := 0],
          maxBet := pu.bets[t] + x);
    assert ApplyAction(pu, AllIn(x)) == Reopen(Acted(moved));
    ActedReopens(moved);
  }

  /** Once the acting seat is done, the walk makes every other seat that
      has neither folded nor gone all-in act again and leaves the acting
      seat done. */
  lemma ActedReopens(m: PublicState)
    requires WellFormed(m)
    ensures var r := Reopen(Acted(m));
            && (forall s :: 0 <= s < m.numPlayers && s != m.turn ==> (r.needed[s] <==> m.needed[s] || Active(m, s)))
            && !r.needed[m.turn]
  {
    forall s | 0 <= s < m.numPlayers
      ensures Reopen(Acted(m)).needed[s] <==> Acted(m).needed[s] || (s != m.turn && Active(Acted(m), s))
    {
      ReopenFlags(Acted(m), s);
    }
  }

  /** Fold, check, call, and an all-in that does not raise the largest bet
      leave every other seat's duty to act and the largest bet as they were. */
  lemma QuietStep(pu: PublicState, a: Action)
    requires WellFormed(pu) && IsActionValid(a, pu)
    requires !a.Raise? && !(a.AllIn? && pu.bets[pu.turn] + a.price > pu.maxBet)
    ensures var r := ApplyAction(pu, a);
            && (forall s :: 0 <= s < pu.numPlayers && s != pu.turn ==> r.needed[s] == pu.needed[s])
            && !r.needed[pu.turn]
            && r.maxBet == pu.maxBet && r.raiseAccount == pu.raiseAccount
  {
  }

  /** Whatever the acting seat does, it is done for the round. */
  lemma StepClearsActor(pu: PublicState, a: Action)
    requires WellFormed(pu) && IsActionValid(a, pu)
    ensures !ApplyAction(pu, a).needed[pu.turn]
  {
    if a.Raise? {
      RaiseReopens(pu, a.price);
    } else if a.AllIn? && pu.bets[pu.turn] + a.price > pu.maxBet {
      AllInReopens(pu, a.price);
    } else {
      QuietStep(pu, a);
    }
  }

  /** A legal action by a seat that had to act keeps the three counters in
      step with their flags. */
  lemma StepKeepsCounters(pu: PublicState, a: Action)
    requires WellFormed(pu) && Counters(pu) && pu.needed[pu.turn] && IsActionValid(a, pu)
    ensures Counters(ApplyAction(pu, a))
  {
    var t := pu.turn;
    AvailableActionsSpec(pu, a);
    CountTrueUpdate(pu.needed, t, false);
    match a
    case Fold =>
      CountTrueUpdate(pu.isFold, t, true);
    case Check =>
    case Call(x) =>
    case Raise(x) =>
    case AllIn(x) =>
      CountTrueUpdate(pu.isAllin, t, true);
  }

  /** A legal action keeps the seats consistent: nobody both folded and
      all-in, only seats that may act must act, a seat that may act holds
      chips, and no bet exceeds the largest. */
  lemma StepKeepsSeats(pu: PublicState, a: Action)
    requires WellFormed(pu) && SeatsConsistent(pu) && IsActionValid(a, pu)
    ensures SeatsConsistent(ApplyAction(pu, a))
  {
    var t := pu.turn;
    var r := ApplyAction(pu, a);
    ValidActor(pu, a);
    StepConservesStacks(pu, a);
    AvailableActionsSpec(pu, a);
    if a.Raise? {
      RaiseReopens(pu, a.price);
    } else if a.AllIn? && pu.bets[t] + a.price > pu.maxBet {
      AllInReopens(pu, a.price);
    } else {
      QuietStep(pu, a);
    }
    forall i | 0 <= i < pu.numPlayers
      ensures && !(r.isFold[i] && r.isAllin[i])
              && (r.needed[i] ==> Active(r, i))
              && (Active(r, i) ==> r.chips[i] > 0)
              && 0 <= r.bets[i] <= r.maxBet
              && 0 <= r.chips[i]
    {
    }
  }

  // ---------------------------------------------------------------------
  // End of round, end of hand

  /** `__is_nextround__`: nobody needs to act any more in this round. */
  predicate IsNextRound(pu: PublicState)
  {
    pu.numNeeded == 0
  }

  /** `__is_compute_scores__`: every seat but one has folded; or at most one
      seat can still bet and nobody needs to act; or the river's betting is over. */
  predicate IsComputeScores(pu: PublicState)
  {
    || pu.numPlayers == pu.numQuit + 1
    || (pu.numPlayers <= pu.numQuit + pu.numAllin + 1 && pu.numNeeded == 0)
    || (pu.stage == FourthStage && IsNextRound(pu))
  }
}

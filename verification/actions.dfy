/** The legal actions of the seat to act (`available_actions`, `is_action_valid`). */
module Actions {
  import opened Seqs
  import opened GameState

  /** The raises on offer: the call amount plus a whole, positive number of
      raise increments, as long as the seat keeps chips behind (a raise of
      the whole stack is the all-in instead). Raises are offered only when
      the stack exceeds the call amount plus one increment. */
  function RaiseActions(toCall: int, stack: int, increment: int): set<Action>
    requires increment > 0
  {
    if stack > toCall + increment then
      // `int(x / increment)` of a positive x rounds down
      var num := (stack - toCall) / increment;
      set i | 1 <= i <= num && toCall + increment * i != stack :: Raise(toCall + increment * i)
    else {}
  }

  /** `available_actions`: nothing for a seat that has folded, is all-in or
      has no chips; otherwise fold and all-in, check when the seat has
      matched the largest bet, call when it has not and can afford more than
      the call, and the raises. */
  function AvailableActions(pu: PublicState): set<Action>
    requires WellFormed(pu)
  {
    var t := pu.turn;
    if pu.isAllin[t] || pu.isFold[t] || pu.chips[t] == 0 then {}
    else
      var toCall := pu.maxBet - pu.bets[t];
      var stack := pu.chips[t];
      {Fold, AllIn(stack)}
      + (if pu.bets[t] == pu.maxBet then {Check} else {})
      + (if pu.bets[t] != pu.maxBet && stack > toCall then {Call(toCall)} else {})
      + RaiseActions(toCall, stack, pu.raiseAccount)
  }

  /** `is_action_valid`: the action is among those stored for the seat to
      act, which are its available actions while the hand is running and
      none once it has ended. */
  predicate IsActionValid(a: Action, pu: PublicState)
    requires WellFormed(pu)
  {
    !pu.isTerminal && a in AvailableActions(pu)
  }

  /** What a seat that can act is offered, stated without the enumeration:
      fold and all-in always; check exactly when its bet matches the
      largest; a call of exactly the difference when it does not and the
      stack covers more than that; and a raise to any amount strictly
      between the call amount and the stack that exceeds the call by a
      multiple of the raise increment. */
  lemma AvailableActionsSpec(pu: PublicState, a: Action)
    requires WellFormed(pu)
    ensures var t := pu.turn;
            var toCall := pu.maxBet - pu.bets[t];
            var stack := pu.chips[t];
            var offered := a in AvailableActions(pu);
            if pu.isAllin[t] || pu.isFold[t] || stack == 0 then !offered
            else match a
              case Fold => offered
              case Check => offered <==> pu.bets[t] == pu.maxBet
              case Call(x) => offered <==> x == toCall && toCall != 0 && stack > toCall
              case Raise(x) => offered <==> toCall < x < stack && (x - toCall) % pu.raiseAccount == 0
              case AllIn(x) => offered <==> x == stack
  {
    var t := pu.turn;
    if !(pu.isAllin[t] || pu.isFold[t] || pu.chips[t] == 0) {
      var toCall := pu.maxBet - pu.bets[t];
      if a.Raise? {
        RaiseActionsSpec(toCall, pu.chips[t], pu.raiseAccount, a.price);
      }
    }
  }

  /** The raise offers, characterised without the loop. */
  lemma RaiseActionsSpec(toCall: int, stack: int, increment: int, x: int)
    requires increment > 0
    ensures Raise(x) in RaiseActions(toCall, stack, increment) <==>
              toCall < x < stack && (x - toCall) % increment == 0
  {
    if Raise(x) in RaiseActions(toCall, stack, increment) {
      var num := (stack - toCall) / increment;
      var i :| 1 <= i <= num && toCall + increment * i != stack && x == toCall + increment * i;
      RaiseStepForward(toCall, stack, increment, i);
    }
    if toCall < x < stack && (x - toCall) % increment == 0 {
      RaiseStepBack(toCall, stack, increment, x);
      var i := (x - toCall) / increment;
      assert 1 <= i <= (stack - toCall) / increment && toCall + increment * i != stack;
    }
  }

  /** The `i`-th raise on offer lies strictly between the call amount and
      the stack, a whole number of increments above the call. */
  lemma RaiseStepForward(toCall: int, stack: int, d: int, i: int)
    requires d > 0 && 1 <= i <= (stack - toCall) / d && toCall + d * i != stack
    ensures toCall < toCall + d * i < stack && (toCall + d * i - toCall) % d == 0
  {
    MultipleMod(i, d);
    DivBound(stack - toCall, d, i);
    MulAtLeast(i, d);
  }

  /** A raise strictly between the call amount and the stack, a whole
      number of increments above the call, is the `i`-th one on offer. */
  lemma RaiseStepBack(toCall: int, stack: int, d: int, x: int)
    requires d > 0 && toCall < x < stack && (x - toCall) % d == 0
    ensures var i := (x - toCall) / d;
            && 1 <= i <= (stack - toCall) / d && x == toCall + d * i
            && stack > toCall + d
  {
    var i := (x - toCall) / d;
    DivExact(x - toCall, d);
    if i < 1 {
      MulAtMost(i, d);
    }
    MulAtLeast(i, d);
    DivMonotone(x - toCall, stack - toCall, d);
  }

  lemma MulAtLeast(i: int, d: int)
    requires d > 0 && i >= 1
    ensures d * i >= d
  {
    assert d * i == d * (i - 1) + d;
  }

  lemma MulAtMost(i: int, d: int)
    requires d > 0 && i < 1
    ensures d * i <= 0
  {
    assert d * i == -(d * (-i));
  }

  lemma MultipleMod(i: int, d: int)
    requires d > 0
    ensures (d * i) % d == 0
  {
    assert d * i == i * d + 0;
    DivModUnique(d * i, d, i, 0);
  }

  /** Python's `int(a / d)` with `0 < d` and `1 <= i <= a / d` bounds `d * i` by `a`. */
  lemma DivBound(a: int, d: int, i: int)
    requires d > 0 && i <= a / d
    ensures d * i <= a
  {
    var q := a / d;
    assert a == q * d + a % d;
    assert d * i <= d * q;
  }

  lemma DivExact(a: int, d: int)
    requires d > 0 && a % d == 0
    ensures a == d * (a / d)
  {
    assert a == (a / d) * d + a % d;
  }

  lemma DivMonotone(a: int, b: int, d: int)
    requires d > 0 && a <= b
    ensures a / d <= b / d
  {
    var qa := a / d;
    var qb := b / d;
    assert a == qa * d + a % d;
    assert b == qb * d + b % d;
    assert qa * d < (qb + 1) * d;
    MulCancel(qa, qb + 1, d);
  }

  lemma DivModUnique(a: int, d: int, q: int, r: int)
    requires d > 0 && a == q * d + r && 0 <= r < d
    ensures a / d == q && a % d == r
  {
    var q' := a / d;
    var r' := a % d;
    assert a == q' * d + r';
    assert q' * d < (q + 1) * d;
    assert q * d < (q' + 1) * d;
    MulCancel(q', q + 1, d);
    MulCancel(q, q' + 1, d);
  }

  lemma MulCancel(x: int, y: int, d: int)
    requires d > 0 && x * d < y * d
    ensures x < y
  {
    assert (y - x) * d > 0;
  }
}

/** The state of one hand: the public state every seat sees, the five board
    cards kept back by the dealer, and each seat's two hole cards. */
module GameState {
  import opened Seqs
  import opened Cards
  import opened Outcomes

  /** A betting action. The price of Call, Raise and AllIn is the number of
      chips the acting seat moves from its stack to its bet. */
  datatype Action =
    | Fold
    | Check
    | Call(price: int)
    | Raise(price: int)
    | AllIn(price: int)

  /** The betting rounds: pre-flop, flop, turn and river. */
  const FirstStage: int := 1
  const FourthStage: int := 4

  datatype PublicState = PublicState(
    numPlayers: nat,
    dealer: nat,
    bigBlind: int,
    raiseAccount: int,          // the size of the last raise: the smallest raise increment
    isFold: seq<bool>,
    numQuit: int,
    isAllin: seq<bool>,
    numAllin: int,
    needed: seq<bool>,          // `is_needed_to_action`: the seat must still act this round
    numNeeded: int,
    bets: seq<int>,             // chips each seat has put in over the whole hand
    chips: seq<int>,            // chips each seat still holds
    maxBet: int,                // the largest bet so far
    stage: int,
    turn: int,
    publicCards: seq<Card>,
    previousId: Option<int>,
    previousAction: Option<Action>,
    isTerminal: bool,
    scores: Option<seq<int>>)

  /** The public state with the dealer's five kept board cards and the seats' hole cards. */
  datatype Game = Game(pu: PublicState, keep: seq<Card>, hands: seq<seq<Card>>)

  /** The seat has neither folded nor gone all-in, so it may still act. */
  predicate Active(pu: PublicState, i: int)
    requires 0 <= i < |pu.isFold| && |pu.isAllin| == |pu.isFold|
  {
    !pu.isFold[i] && !pu.isAllin[i]
  }

  /** Every per-seat array has one entry per seat and the scalars are in range. */
  predicate WellFormed(pu: PublicState)
  {
    && pu.numPlayers >= 1
    && |pu.isFold| == pu.numPlayers
    && |pu.isAllin| == pu.numPlayers
    && |pu.needed| == pu.numPlayers
    && |pu.bets| == pu.numPlayers
    && |pu.chips| == pu.numPlayers
    && pu.dealer < pu.numPlayers
    && 0 <= pu.turn < pu.numPlayers
    && pu.raiseAccount > 0
    && FirstStage <= pu.stage <= FourthStage
  }

  /** The three counters agree with the flag arrays they count. */
  predicate Counters(pu: PublicState)
  {
    && pu.numQuit == CountTrue(pu.isFold)
    && pu.numAllin == CountTrue(pu.isAllin)
    && pu.numNeeded == CountTrue(pu.needed)
  }

  /** The number of board cards shown in each stage: none, then 3, 4 and 5. */
  function Shown(stage: int): (r: nat)
    ensures r <= 5
  {
    if stage <= FirstStage then 0 else if stage == 2 then 3 else if stage == 3 then 4 else 5
  }

  /** The seat flags and the bets are consistent with the rules of betting. */
  ghost predicate SeatsConsistent(pu: PublicState)
    requires WellFormed(pu)
  {
    forall i :: 0 <= i < pu.numPlayers ==>
      && !(pu.isFold[i] && pu.isAllin[i])
      && (pu.needed[i] ==> Active(pu, i))
      && (Active(pu, i) ==> pu.chips[i] > 0)
      && 0 <= pu.bets[i] <= pu.maxBet
      && 0 <= pu.chips[i]
  }

  /** The cards: five kept board cards and two hole cards per seat, every
      seat's seven cards different valid cards. */
  ghost predicate CardsDealt(g: Game)
  {
    Dealt(g.keep, g.hands, g.pu.numPlayers)
  }

  ghost predicate Dealt(keep: seq<Card>, hands: seq<seq<Card>>, n: nat)
  {
    && |keep| == 5
    && |hands| == n
    && forall i :: 0 <= i < |hands| ==> ValidSeven(hands[i] + keep)
  }

  /** What holds of every state reached from a well-configured start. */
  ghost predicate Inv(g: Game)
  {
    var pu := g.pu;
    && WellFormed(pu)
    && Counters(pu)
    && SeatsConsistent(pu)
    && CardsDealt(g)
    && (pu.isTerminal <==> pu.scores.Some?)
    && (pu.scores.Some? ==> |pu.scores.value| == pu.numPlayers)
    && (pu.isTerminal ==> pu.publicCards == g.keep)
    && (!pu.isTerminal ==> pu.publicCards == g.keep[..Shown(pu.stage)] && pu.needed[pu.turn])
  }
}

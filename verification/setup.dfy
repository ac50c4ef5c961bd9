/** Starting a hand: the configuration check, the blinds and the deal. */
module Setup {
  import opened Seqs
  import opened Cards
  import opened Outcomes
  import opened GameState

  /** The parameters of `init`. The dealer seat and the deck order, which the
      engine draws at random when they are not supplied, are given here. */
  datatype Config = Config(numPlayers: nat, dealer: nat, chips: seq<int>, bigBlind: int, allCards: seq<Card>)

  /** The two configuration errors, checked in this order. */
  function ConfigError(cfg: Config): (r: Option<Error>)
    ensures r == None <==> |cfg.chips| == cfg.numPlayers && cfg.numPlayers * 7 <= 52
  {
    if |cfg.chips| != cfg.numPlayers then Some(ChipsLengthMismatch)
    else if cfg.numPlayers * 7 > 52 then Some(TooManyPlayers)
    else None
  }

  /** The stacks, bets and all-in flags while the blinds are posted. */
  datatype Posting = Posting(chips: seq<int>, bets: seq<int>, isAllin: seq<bool>, numAllin: int)

  predicate PostingShape(p: Posting, n: nat)
  {
    |p.chips| == n && |p.bets| == n && |p.isAllin| == n
  }

  /** One blind: a stack larger than the blind pays it; any other stack is
      put in whole, overwriting the seat's bet, and the seat is all-in. */
  function PostBlind(p: Posting, seat: nat, blind: int): (r: Posting)
    requires seat < |p.chips| && PostingShape(p, |p.chips|)
    ensures PostingShape(r, |p.chips|)
    ensures forall i :: 0 <= i < |p.chips| && i != seat ==>
              r.chips[i] == p.chips[i] && r.bets[i] == p.bets[i] && r.isAllin[i] == p.isAllin[i]
    ensures p.bets[seat] == 0 ==> r.bets[seat] == Min(p.chips[seat], blind)
    ensures p.bets[seat] == 0 ==> r.chips[seat] + r.bets[seat] == p.chips[seat]
    ensures r.isAllin[seat] <==> p.isAllin[seat] || p.chips[seat] <= blind
    ensures r.numAllin == p.numAllin + (if p.chips[seat] <= blind then 1 else 0)
  {
    if p.chips[seat] > blind then
      Posting(p.chips[seat := p.chips[seat] - blind], p.bets[seat := p.bets[seat] + blind], p.isAllin, p.numAllin)
    else
      Posting(p.chips[seat := 0], p.bets[seat := p.chips[seat]], p.isAllin[seat := true], p.numAllin + 1)
  }

  /** The seat after seat `i`, round a table of `n` seats: `(i + 1) % n`. */
  function NextSeat(i: nat, n: nat): (r: nat)
    requires i < n
    ensures r < n
  {
    if i + 1 < n then i + 1 else 0
  }

  /** The seat after the dealer. */
  function SmallBlindSeat(cfg: Config): (r: nat)
    requires cfg.dealer < cfg.numPlayers
    ensures r < cfg.numPlayers
  {
    NextSeat(cfg.dealer, cfg.numPlayers)
  }

  /** The seat two after the dealer. */
  function BigBlindSeat(cfg: Config): (r: nat)
    requires cfg.dealer < cfg.numPlayers
    ensures r < cfg.numPlayers
  {
    NextSeat(SmallBlindSeat(cfg), cfg.numPlayers)
  }

  /** The blind seats and the first seat to act are one, two and three
      seats after the dealer, counted modulo the number of seats. */
  lemma SeatsAfterDealer(cfg: Config)
    requires cfg.dealer < cfg.numPlayers
    ensures SmallBlindSeat(cfg) == (cfg.dealer + 1) % cfg.numPlayers
    ensures BigBlindSeat(cfg) == (cfg.dealer + 2) % cfg.numPlayers
    ensures NextSeat(BigBlindSeat(cfg), cfg.numPlayers) == (cfg.dealer + 3) % cfg.numPlayers
  {
    var d, n := cfg.dealer, cfg.numPlayers;
    if n == 1 {
      ModOne(d + 1);
      ModOne(d + 2);
      ModOne(d + 3);
    } else {
      ModSmall(d + 1, n);
      ModSmall(d + 2, n);
      ModSmall(d + 3, n);
    }
  }

  /** The big blind alone, posted on empty bets: the big blind seat bets the
      smaller of its stack and the blind. The bet to match is read here,
      before the small blind is posted. */
  function BigBlindPosted(cfg: Config): (r: Posting)
    requires cfg.dealer < cfg.numPlayers && |cfg.chips| == cfg.numPlayers
    ensures PostingShape(r, cfg.numPlayers)
    ensures r.bets[BigBlindSeat(cfg)] == Min(cfg.chips[BigBlindSeat(cfg)], cfg.bigBlind)
  {
    var n := cfg.numPlayers;
    var start := Posting(cfg.chips, seq(n, _ => 0), seq(n, _ => false), 0);
    PostBlind(start, BigBlindSeat(cfg), cfg.bigBlind)
  }

  /** The big blind is posted first, then half of it (rounded down) as the small blind. */
  function Blinds(cfg: Config): (r: Posting)
    requires cfg.dealer < cfg.numPlayers && |cfg.chips| == cfg.numPlayers
    ensures PostingShape(r, cfg.numPlayers)
  {
    PostBlind(BigBlindPosted(cfg), SmallBlindSeat(cfg), cfg.bigBlind / 2)
  }

  /** The public state after the blinds: nobody has folded, every seat must
      act in the first round, starting with the seat after the big blind, and
      the bet to match is what the big blind seat put in for the big blind.
      With one seat both blinds fall on seat 0, whose bet then exceeds it. */
  function StartState(cfg: Config): (pu: PublicState)
    requires cfg.numPlayers >= 1 && cfg.dealer < cfg.numPlayers && cfg.bigBlind >= 1
    requires |cfg.chips| == cfg.numPlayers
    ensures pu.numPlayers == cfg.numPlayers && pu.dealer == cfg.dealer && WellFormed(pu)
    ensures pu.stage == FirstStage && pu.turn == NextSeat(BigBlindSeat(cfg), cfg.numPlayers)
    ensures pu.maxBet == Min(cfg.chips[BigBlindSeat(cfg)], cfg.bigBlind) && pu.raiseAccount == cfg.bigBlind
    ensures cfg.numPlayers >= 2 ==> pu.maxBet == pu.bets[BigBlindSeat(cfg)]
    ensures pu.numNeeded == cfg.numPlayers && forall i :: 0 <= i < cfg.numPlayers ==> pu.needed[i]
    ensures pu.numQuit == 0 && forall i :: 0 <= i < cfg.numPlayers ==> !pu.isFold[i]
    ensures !pu.isTerminal && pu.scores == None && pu.publicCards == []
    ensures var posted := Blinds(cfg);
            && pu.chips == posted.chips && pu.bets == posted.bets
            && pu.isAllin == posted.isAllin && pu.numAllin == posted.numAllin
  {
    var n := cfg.numPlayers;
    var posted := Blinds(cfg);
    var big := BigBlindSeat(cfg);
    PublicState(
      numPlayers := n,
      dealer := cfg.dealer,
      bigBlind := cfg.bigBlind,
      raiseAccount := cfg.bigBlind,
      isFold := seq(n, _ => false),
      numQuit := 0,
      isAllin := posted.isAllin,
      numAllin := posted.numAllin,
      needed := seq(n, _ => true),
      numNeeded := n,
      bets := posted.bets,
      chips := posted.chips,
      maxBet := BigBlindPosted(cfg).bets[big],
      stage := FirstStage,
      turn := NextSeat(big, n),
      publicCards := [],
      previousId := None,
      previousAction := None,
      isTerminal := false,
      scores := None)
  }

  /** With a single seat both blinds are posted by seat 0: a stack of 100
      and a big blind of 10 leave a bet of 15, while the bet to match stays
      at the 10 read after the big blind. */
  lemma OneSeatStart()
    ensures var pu := StartState(Config(1, 0, [100], 10, []));
            pu.bets == [15] && pu.chips == [85] && pu.maxBet == 10
  {
    var pu := StartState(Config(1, 0, [100], 10, []));
    assert pu.bets[0] == 15;
  }

  /** The hole cards: seat `i` gets the deck's cards `2i` and `2i+1`. */
  function Hands(deck: seq<Card>, n: nat): (r: seq<seq<Card>>)
    ensures |r| == n
    ensures forall i :: 0 <= i < n ==> r[i] == Slice(deck, 2 * i, 2 * i + 2)
  {
    seq(n, i requires 0 <= i < n => Slice(deck, 2 * i, 2 * i + 2))
  }

  /** `init`: checks the configuration, posts the blinds, deals two hole
      cards per seat from the front of the deck and keeps the next five as
      the board. */
  function Init(cfg: Config): (r: Result<Game>)
    requires cfg.numPlayers >= 1 && cfg.dealer < cfg.numPlayers && cfg.bigBlind >= 1
    ensures |cfg.chips| != cfg.numPlayers ==> r == Err(ChipsLengthMismatch)
    ensures |cfg.chips| == cfg.numPlayers && cfg.numPlayers * 7 > 52 ==> r == Err(TooManyPlayers)
    ensures r.Ok? <==> |cfg.chips| == cfg.numPlayers && cfg.numPlayers * 7 <= 52
    ensures r.Ok? ==> r.value.keep == Slice(cfg.allCards, 2 * cfg.numPlayers, 2 * cfg.numPlayers + 5)
    ensures r.Ok? ==> r.value.pu == StartState(cfg) && r.value.hands == Hands(cfg.allCards, cfg.numPlayers)
  {
    match ConfigError(cfg)
    case Some(e) => Err(e)
    case None =>
      Ok(Game(StartState(cfg), Slice(cfg.allCards, 2 * cfg.numPlayers, 2 * cfg.numPlayers + 5), Hands(cfg.allCards, cfg.numPlayers)))
  }

  /** With two or more seats the blinds land on different seats: each blind
      seat moves the smaller of its stack and its blind into its bet, goes
      all-in exactly when its stack does not exceed the blind, and every
      seat's stack plus bet is its starting stack. */
  lemma BlindsPosted(cfg: Config)
    requires cfg.numPlayers >= 2 && cfg.dealer < cfg.numPlayers && |cfg.chips| == cfg.numPlayers
    ensures var r := Blinds(cfg);
            var big := BigBlindSeat(cfg);
            var small := SmallBlindSeat(cfg);
            && big != small
            && r.bets[big] == Min(cfg.chips[big], cfg.bigBlind)
            && r.bets[small] == Min(cfg.chips[small], cfg.bigBlind / 2)
            && (forall i :: 0 <= i < cfg.numPlayers && i != big && i != small ==> r.bets[i] == 0)
            && (forall i :: 0 <= i < cfg.numPlayers ==> r.chips[i] + r.bets[i] == cfg.chips[i])
            && (forall i :: 0 <= i < cfg.numPlayers ==>
                  (r.isAllin[i] <==>
                     ((i == big && cfg.chips[i] <= cfg.bigBlind) || (i == small && cfg.chips[i] <= cfg.bigBlind / 2))))
  {
  }

  /** A hand that starts carries the posted blinds: the big blind seat has
      bet the smaller of its stack and the big blind, which is the bet to
      match, the small blind seat the smaller of its stack and half the big
      blind, every other seat nothing, and each seat's stack plus bet is
      its starting stack. */
  lemma InitPostsBlinds(cfg: Config)
    requires cfg.numPlayers >= 2 && cfg.dealer < cfg.numPlayers && cfg.bigBlind >= 1
    requires |cfg.chips| == cfg.numPlayers && cfg.numPlayers * 7 <= 52
    ensures Init(cfg).Ok?
    ensures var pu := Init(cfg).value.pu;
            var big := BigBlindSeat(cfg);
            var small := SmallBlindSeat(cfg);
            && pu.bets[big] == Min(cfg.chips[big], cfg.bigBlind) == pu.maxBet
            && pu.bets[small] == Min(cfg.chips[small], cfg.bigBlind / 2)
            && (forall i :: 0 <= i < cfg.numPlayers && i != big && i != small ==> pu.bets[i] == 0)
            && (forall i :: 0 <= i < cfg.numPlayers ==> pu.chips[i] + pu.bets[i] == cfg.chips[i])
  {
    BlindsPosted(cfg);
  }

  /** Seat `i`'s hole cards and the kept board are seven different cards of
      the deck. */
  lemma DealtSeven(deck: seq<Card>, n: nat, i: nat)
    requires i < n && |deck| >= 2 * n + 5 && ValidCards(deck) && Distinct(deck)
    ensures ValidSeven(Slice(deck, 2 * i, 2 * i + 2) + Slice(deck, 2 * n, 2 * n + 5))
  {
    var s := Slice(deck, 2 * i, 2 * i + 2) + Slice(deck, 2 * n, 2 * n + 5);
    assert |s| == 7;
    assert forall j :: 0 <= j < 7 ==> s[j] == deck[if j < 2 then 2 * i + j else 2 * n + j - 2];
  }

  /** A configuration the engine accepts, with at least two seats, blind
      seats whose stacks exceed their blinds, chips in every stack and a deck
      of different valid cards long enough for the deal, starts a hand in
      which the invariant holds. */
  lemma InitEstablishesInv(cfg: Config)
    requires cfg.numPlayers >= 2 && cfg.dealer < cfg.numPlayers && cfg.bigBlind >= 1
    requires |cfg.chips| == cfg.numPlayers && cfg.numPlayers * 7 <= 52
    requires forall i :: 0 <= i < cfg.numPlayers ==> cfg.chips[i] > 0
    requires cfg.chips[BigBlindSeat(cfg)] > cfg.bigBlind && cfg.chips[SmallBlindSeat(cfg)] > cfg.bigBlind / 2
    requires |cfg.allCards| >= 2 * cfg.numPlayers + 5 && ValidCards(cfg.allCards) && Distinct(cfg.allCards)
    ensures Init(cfg).Ok? && Inv(Init(cfg).value)
  {
    StartStateSound(cfg);
    FreshHandInv(Init(cfg).value, cfg.allCards, cfg.numPlayers);
  }

  /** A hand in its first round, with nothing shown and every seat still to
      act, satisfies the invariant once its counters and seats do and its
      cards are dealt from a deck of different valid cards. */
  lemma FreshHandInv(g: Game, deck: seq<Card>, n: nat)
    requires FirstRound(g.pu) && g.pu.numPlayers == n
    requires |deck| >= 2 * n + 5 && ValidCards(deck) && Distinct(deck)
    requires g.keep == Slice(deck, 2 * n, 2 * n + 5) && g.hands == Hands(deck, n)
    ensures Inv(g)
  {
    DealSound(deck, n);
  }

  /** A state in its first round with nothing shown, every seat still to
      act, the counters matching the flags and the seats consistent. */
  ghost predicate FirstRound(pu: PublicState)
  {
    && WellFormed(pu) && Counters(pu) && SeatsConsistent(pu)
    && !pu.isTerminal && pu.scores == None && pu.publicCards == [] && pu.stage == FirstStage
    && forall i :: 0 <= i < pu.numPlayers ==> pu.needed[i]
  }

  /** After blinds that neither blind seat has to go all-in for, with chips
      in every stack, the counters match the flags and the seats are
      consistent. */
  lemma StartStateSound(cfg: Config)
    requires cfg.numPlayers >= 2 && cfg.dealer < cfg.numPlayers && cfg.bigBlind >= 1
    requires |cfg.chips| == cfg.numPlayers
    requires forall i :: 0 <= i < cfg.numPlayers ==> cfg.chips[i] > 0
    requires cfg.chips[BigBlindSeat(cfg)] > cfg.bigBlind && cfg.chips[SmallBlindSeat(cfg)] > cfg.bigBlind / 2
    ensures Counters(StartState(cfg)) && SeatsConsistent(StartState(cfg))
    ensures FirstRound(StartState(cfg))
  {
    var n := cfg.numPlayers;
    var pu := StartState(cfg);
    var posted := Blinds(cfg);
    BlindsPosted(cfg);
    assert pu.isAllin == posted.isAllin && pu.bets == posted.bets && pu.chips == posted.chips;
    assert forall i :: 0 <= i < n ==> !pu.isAllin[i];
    CountTrueAll(pu.isFold, false);
    CountTrueAll(pu.isAllin, false);
    CountTrueAll(pu.needed, true);
  }

  /** Every card dealt comes from one place in the deck: seat `i`'s hole
      cards are at positions `2i` and `2i+1`, the kept board at `2n` to
      `2n+4`. */
  lemma DealtPosition(deck: seq<Card>, n: nat, i: nat, c: Card)
    requires |deck| >= 2 * n + 5 && i < n
    ensures c in Hands(deck, n)[i] ==> exists m :: 2 * i <= m < 2 * i + 2 && deck[m] == c
    ensures c in Slice(deck, 2 * n, 2 * n + 5) ==> exists m :: 2 * n <= m < 2 * n + 5 && deck[m] == c
  {
    var hole := Hands(deck, n)[i];
    var keep := Slice(deck, 2 * n, 2 * n + 5);
    if c in hole {
      var a :| 0 <= a < |hole| && hole[a] == c;
      assert deck[2 * i + a] == c;
    }
    if c in keep {
      var b :| 0 <= b < |keep| && keep[b] == c;
      assert deck[2 * n + b] == c;
    }
  }

  /** From a deck of different cards, no two seats share a hole card and
      no hole card is among the kept board cards. */
  lemma HandsApart(deck: seq<Card>, n: nat)
    requires |deck| >= 2 * n + 5 && Distinct(deck)
    ensures var hands := Hands(deck, n);
            forall i, j, c :: 0 <= i < n && 0 <= j < n && i != j && c in hands[i] ==> c !in hands[j]
    ensures forall i, c :: 0 <= i < n && c in Hands(deck, n)[i] ==> c !in Slice(deck, 2 * n, 2 * n + 5)
  {
    var hands := Hands(deck, n);
    var keep := Slice(deck, 2 * n, 2 * n + 5);
    forall i, j, c | 0 <= i < n && 0 <= j < n && i != j && c in hands[i]
      ensures c !in hands[j]
    {
      DealtPosition(deck, n, i, c);
      DealtPosition(deck, n, j, c);
    }
    forall i, c | 0 <= i < n && c in hands[i]
      ensures c !in keep
    {
      DealtPosition(deck, n, i, c);
    }
  }

  /** Every seat's hole cards and the kept board are seven different valid cards. */
  lemma DealSound(deck: seq<Card>, n: nat)
    requires |deck| >= 2 * n + 5 && ValidCards(deck) && Distinct(deck)
    ensures Dealt(Slice(deck, 2 * n, 2 * n + 5), Hands(deck, n), n)
  {
    forall i | 0 <= i < n
      ensures ValidSeven(Hands(deck, n)[i] + Slice(deck, 2 * n, 2 * n + 5))
    {
      DealtSeven(deck, n, i);
    }
  }
}

/** The game state of Nope 21 as a value, and the transitions the component
    applies to it: dealing (`startGame`), playing a card (`playCard`) and the
    automated opponent's move (the `useEffect` watcher), all in src/App.jsx. */
module Rules {
  import opened Wrappers
  import opened Cards
  import opened Effects

  /** `winner`: null while the game runs, then who won or who lost. */
  datatype Outcome = InProgress | Won(player: nat) | Lost(player: nat)

  /** The component state the rules read and write. */
  datatype GameState = GameState(
    players: seq<seq<Card>>,   // one hand per seat
    drawPile: seq<Card>,
    history: seq<Record>,      // `effectHistory`
    total: int,
    current: nat,              // `currentPlayer`
    outcome: Outcome)          // `winner`

  /** The size a hand is dealt to and refilled to. */
  const HandSize: nat := 5

  /** The total a player must reach exactly, and may never pass. */
  const Target: int := 21

  function Min(a: nat, b: nat): nat
  {
    if a <= b then a else b
  }

  // ---------------------------------------------------------------- dealing

  /** The cards the i-th `deck.splice(0, 5)` takes: the next five, or what is
      left if the deck runs out. */
  function DealtHand(deck: seq<Card>, i: nat): seq<Card>
  {
    deck[Min(HandSize * i, |deck|)..Min(HandSize * i + HandSize, |deck|)]
  }

  function DealtHands(deck: seq<Card>, n: nat): seq<seq<Card>>
  {
    seq(n, i requires 0 <= i < n => DealtHand(deck, i))
  }

  /** The state `startGame` sets: `n` hands dealt from the front of the deck,
      the rest as draw pile, total 0, empty history, seat 0 to play, no winner. */
  function Dealt(deck: seq<Card>, n: nat): GameState
  {
    GameState(DealtHands(deck, n), deck[Min(HandSize * n, |deck|)..], [], 0, 0, InProgress)
  }

  /** The hands laid end to end. */
  function Flatten(hands: seq<seq<Card>>): seq<Card>
  {
    if |hands| == 0 then [] else Flatten(hands[..|hands| - 1]) + hands[|hands| - 1]
  }

  lemma {:induction false} DealtPrefix(deck: seq<Card>, n: nat)
    ensures Flatten(DealtHands(deck, n)) == deck[..Min(HandSize * n, |deck|)]
  {
    if n > 0 {
      assert DealtHands(deck, n)[..n - 1] == DealtHands(deck, n - 1);
      DealtPrefix(deck, n - 1);
      var a, b := Min(HandSize * (n - 1), |deck|), Min(HandSize * n, |deck|);
      assert deck[..b] == deck[..a] + deck[a..b];
    }
  }

  /** Dealing hands out the deck from the front: the hands followed by the
      draw pile are the deck itself; no hand holds more than five cards, and
      when the deck is large enough each seat gets exactly the next five. */
  lemma DealingSplitsDeck(deck: seq<Card>, n: nat)
    ensures Flatten(Dealt(deck, n).players) + Dealt(deck, n).drawPile == deck
    ensures |Dealt(deck, n).players| == n
    ensures forall i :: 0 <= i < n ==> |Dealt(deck, n).players[i]| <= HandSize
    ensures HandSize * n <= |deck| ==>
      forall i :: 0 <= i < n ==> Dealt(deck, n).players[i] == deck[HandSize * i..HandSize * i + HandSize]
  {
    var t := Dealt(deck, n);
    DealtPrefix(deck, n);
    assert deck == deck[..Min(HandSize * n, |deck|)] + deck[Min(HandSize * n, |deck|)..];
    forall i | 0 <= i < n
      ensures |t.players[i]| <= HandSize
      ensures HandSize * n <= |deck| ==> t.players[i] == deck[HandSize * i..HandSize * i + HandSize]
    {
      assert t.players[i] == DealtHand(deck, i);
    }
  }

  // ------------------------------------------------------------- invariant

  /** What holds of every state reached from a deal: a seat to play, hands of
      at most five cards, and a running total that is the sum of the history
      and never above 21. The total may be negative. */
  predicate WellFormed(s: GameState)
  {
    && |s.players| >= 1
    && s.current < |s.players|
    && (forall k :: 0 <= k < |s.players| ==> |s.players[k]| <= HandSize)
    && s.total == Sum(s.history)
    && s.total <= Target
  }

  lemma DealtWellFormed(deck: seq<Card>, n: nat)
    requires n >= 1
    ensures WellFormed(Dealt(deck, n))
  {
    DealingSplitsDeck(deck, n);
  }

  // ---------------------------------------------------------- playing a card

  /** `hand.filter((_, j) => j !== i)`. */
  function RemoveAt(hand: seq<Card>, i: nat): seq<Card>
    requires i < |hand|
  {
    hand[..i] + hand[i + 1..]
  }

  /** The refill: a hand under five cards takes `drawPile.pop()`, the card at
      the end of the pile, when there is one. Returns the new hand and pile. */
  function Refill(hand: seq<Card>, pile: seq<Card>): (seq<Card>, seq<Card>)
  {
    if |hand| < HandSize && |pile| > 0 then (hand + [pile[|pile| - 1]], pile[..|pile| - 1])
    else (hand, pile)
  }

  /** The history update: "Nope" pops the last record; a numeric card pushes
      `{card, value: parseInt(card)}`, any other card `{card, value: effect}`. */
  function NextHistory(history: seq<Record>, card: Card, effect: int): seq<Record>
    requires card == Nope ==> |history| > 0
  {
    if card == Nope then history[..|history| - 1]
    else if IsNumeric(card) then history + [Record(card, ParseInt(card))]
    else history + [Record(card, effect)]
  }

  /** The guards of `playCard`: no winner yet, the player whose turn it is, a
      card of their hand, and `canPlay(card)`. */
  predicate Accepts(s: GameState, p: nat, i: nat)
    requires s.current < |s.players|
  {
    && s.outcome == InProgress
    && p == s.current
    && i < |s.players[p]|
    && CanPlay(s.players[p][i], s.history, s.total)
  }

  /** Which history and total the "next seat cannot play" test reads. */
  datatype LossCheck =
    | PrePlay    // the values from before the play, as the source does
    | PostPlay   // the values the play has just produced

  /** The state once the card is played, before the outcome is decided: the
      card left the hand, the hand was refilled, the history and the total
      were updated. */
  function Moved(s: GameState, p: nat, i: nat): GameState
    requires s.current < |s.players|
    requires Accepts(s, p, i)
  {
    var card := s.players[p][i];
    var effect := Effect(card, s.history).value;
    var refilled := Refill(RemoveAt(s.players[p], i), s.drawPile);
    s.(players := s.players[p := refilled.0], drawPile := refilled.1,
       history := NextHistory(s.history, card, effect), total := s.total + effect)
  }

  /** The end of `playCard`: 21 wins; above 21 the mover loses; otherwise the
      next seat loses if it holds no card `canPlay` accepts, judged against
      the history and total `check` names, and else it is that seat's turn.
      `s` is the state before the play, `t` the state after it. */
  function Settle(s: GameState, t: GameState, p: nat, check: LossCheck): GameState
    requires s.current < |s.players| == |t.players|
  {
    if t.total == Target then t.(outcome := Won(p))
    else if t.total > Target then t.(outcome := Lost(p))
    else
      var next := (s.current + 1) % |s.players|;
      var seen := if check == PrePlay then (s.history, s.total) else (t.history, t.total);
      if !HandCanPlay(t.players[next], seen.0, seen.1) then t.(outcome := Lost(next))
      else t.(current := next)
  }

  /** `playCard(p, i)`, with the next seat's test reading the state `check`
      names. A rejected play changes nothing. */
  function Transition(s: GameState, p: nat, i: nat, check: LossCheck): GameState
    requires s.current < |s.players|
  {
    if !Accepts(s, p, i) then s else Settle(s, Moved(s, p, i), p, check)
  }

  /** `playCard` as the source writes it: `playerCanPlay(newPlayers[next])`
      calls `canPlay`, which reads the `effectHistory` and `total` of the
      render the handler was created in, i.e. the values from before the play. */
  function PlayAsWritten(s: GameState, p: nat, i: nat): GameState
    requires s.current < |s.players|
  {
    Transition(s, p, i, PrePlay)
  }

  /** `playCard` with the next seat tested against the history and total the
      play has just produced: the transition the rest of the model uses. */
  function Play(s: GameState, p: nat, i: nat): GameState
    requires s.current < |s.players|
  {
    Transition(s, p, i, PostPlay)
  }

  /** The four guards: a play after the game ended, out of turn, with an index
      outside the hand, with a card that does not resolve, or with one that
      would pass 21 leaves the state as it was. */
  lemma PlayRejected(s: GameState, p: nat, i: nat, check: LossCheck)
    requires s.current < |s.players|
    ensures s.outcome != InProgress ==> Transition(s, p, i, check) == s
    ensures p != s.current ==> Transition(s, p, i, check) == s
    ensures i >= |s.players[s.current]| ==> Transition(s, p, i, check) == s
    ensures i < |s.players[s.current]| && Effect(s.players[s.current][i], s.history).None? ==> Transition(s, p, i, check) == s
    ensures (&& i < |s.players[s.current]| && Effect(s.players[s.current][i], s.history).Some?
             && s.total + Effect(s.players[s.current][i], s.history).value > Target) ==> Transition(s, p, i, check) == s
  {
  }

  /** Playing a card keeps the total the sum of the history: "Nope" removes
      the very record whose value it subtracts, any other card records the
      delta it adds. The hand loses a card before it may gain one. */
  lemma MovedWellFormed(s: GameState, p: nat, i: nat)
    requires WellFormed(s)
    requires Accepts(s, p, i)
    ensures WellFormed(Moved(s, p, i))
  {
    var card := s.players[p][i];
    var effect := Effect(card, s.history).value;
    var t := Moved(s, p, i);
    if card == Nope {
      assert t.history == s.history[..|s.history| - 1];
      assert Sum(s.history) == Sum(t.history) + Last(s.history).value;
    } else {
      assert t.history == s.history + [Record(card, effect)];
      assert t.history[..|t.history| - 1] == s.history;
    }
    assert |RemoveAt(s.players[p], i)| < HandSize;
  }

  /** Deciding the outcome touches only the winner and the seat to play, and
      the seat it picks is the next one, which exists. */
  lemma SettleWellFormed(s: GameState, t: GameState, p: nat, check: LossCheck)
    requires s.current < |s.players| == |t.players|
    requires WellFormed(t)
    ensures var u := Settle(s, t, p, check);
      && u.players == t.players && u.drawPile == t.drawPile
      && u.history == t.history && u.total == t.total
      && (u.current == t.current || u.current == (s.current + 1) % |s.players|)
    ensures WellFormed(Settle(s, t, p, check))
  {
  }

  /** Every play, as written or corrected, keeps the invariant: the total is
      the sum of the history and at most 21, hands hold at most five cards,
      and the seat to play exists. */
  lemma TransitionWellFormed(s: GameState, p: nat, i: nat, check: LossCheck)
    requires WellFormed(s)
    ensures WellFormed(Transition(s, p, i, check))
  {
    if Accepts(s, p, i) {
      MovedWellFormed(s, p, i);
      SettleWellFormed(s, Moved(s, p, i), p, check);
    }
  }

  /** An accepted play takes exactly the chosen card out of the hand, keeping
      the others in order, and adds at most one card: the last of the draw
      pile, when the hand is short and the pile is not empty. No card is
      created or lost, and no other hand changes. */
  lemma PlayMovesCards(s: GameState, p: nat, i: nat, check: LossCheck)
    requires s.current < |s.players|
    requires Accepts(s, p, i)
    ensures var t, hand, pile := Transition(s, p, i, check), s.players[p], s.drawPile;
      && |t.players| == |s.players|
      && (forall k :: 0 <= k < |s.players| && k != p ==> t.players[k] == s.players[k])
      && multiset(t.players[p]) + multiset(t.drawPile) + multiset{hand[i]} == multiset(hand) + multiset(pile)
      && t.players[p][..|hand| - 1] == hand[..i] + hand[i + 1..]
      && (if |hand| - 1 < HandSize && |pile| > 0
          then t.players[p] == hand[..i] + hand[i + 1..] + [pile[|pile| - 1]] && t.drawPile == pile[..|pile| - 1]
          else t.players[p] == hand[..i] + hand[i + 1..] && t.drawPile == pile)
  {
    var t, hand, pile := Transition(s, p, i, check), s.players[p], s.drawPile;
    assert hand == hand[..i] + [hand[i]] + hand[i + 1..];
    if |hand| - 1 < HandSize && |pile| > 0 {
      assert pile == pile[..|pile| - 1] + [pile[|pile| - 1]];
    }
  }

  /** An accepted "Nope" pops exactly one record and pushes none; any other
      card pushes one record carrying the card and the delta it applied. The
      total moves by that delta and stays at most 21. */
  lemma PlayUpdatesHistory(s: GameState, p: nat, i: nat, check: LossCheck)
    requires s.current < |s.players|
    requires Accepts(s, p, i)
    ensures var t, card := Transition(s, p, i, check), s.players[p][i];
      && t.total == s.total + Effect(card, s.history).value <= Target
      && (card == Nope ==> |s.history| > 0 && t.history == s.history[..|s.history| - 1])
      && (card != Nope ==> t.history == s.history + [Record(card, Effect(card, s.history).value)])
  {
  }

  /** The outcome of an accepted play, with the next seat judged on the state
      the play produced: reaching 21 wins at once and the next seat is not
      examined; otherwise the next seat, `(current + 1) % n`, loses exactly
      when none of its cards can be played now (the turn does not move), and
      otherwise it is that seat's turn, with a card it can play. */
  lemma PlayOutcome(s: GameState, p: nat, i: nat)
    requires s.current < |s.players|
    requires Accepts(s, p, i)
    ensures var t, next := Play(s, p, i), (s.current + 1) % |s.players|;
      && (t.total == Target ==> t.outcome == Won(p) && t.current == s.current)
      && (t.total != Target ==>
            && (t.outcome == Lost(next) <==> !HandCanPlay(t.players[next], t.history, t.total))
            && (t.outcome == Lost(next) ==> t.current == s.current)
            && (t.outcome != Lost(next) ==> t.outcome == InProgress && t.current == next))
      && (t.outcome == InProgress ==> HandCanPlay(t.players[t.current], t.history, t.total))
  {
    PlayUpdatesHistory(s, p, i, PostPlay);
  }

  /** The same for `playCard` as written: the next seat's test reads the
      history and total from before the play, while the turn and the winner
      follow the same pattern. */
  lemma PlayAsWrittenOutcome(s: GameState, p: nat, i: nat)
    requires s.current < |s.players|
    requires Accepts(s, p, i)
    ensures var t, next := PlayAsWritten(s, p, i), (s.current + 1) % |s.players|;
      && (t.total == Target ==> t.outcome == Won(p) && t.current == s.current)
      && (t.total != Target ==>
            && (t.outcome == Lost(next) <==> !HandCanPlay(t.players[next], s.history, s.total))
            && (t.outcome == Lost(next) ==> t.current == s.current)
            && (t.outcome != Lost(next) ==> t.outcome == InProgress && t.current == next))
  {
    PlayUpdatesHistory(s, p, i, PrePlay);
  }

  /** The source's test reads the state from before the play. Holding
      "x2 x2 x2 x2 Nope" with nothing played yet, seat 1 is declared the loser
      as soon as seat 0 plays "3", although "x2" would then double that 3. */
  lemma AsWrittenFalseLoss()
    ensures var s := GameState([[Three, One, One, One, One], [Double, Double, Double, Double, Nope]],
                               [Two], [], 0, 0, InProgress);
      && PlayAsWritten(s, 0, 0).outcome == Lost(1)
      && CanPlay(Double, PlayAsWritten(s, 0, 0).history, PlayAsWritten(s, 0, 0).total)
      && Play(s, 0, 0).outcome == InProgress && Play(s, 0, 0).current == 1
  {
    var s := GameState([[Three, One, One, One, One], [Double, Double, Double, Double, Nope]],
                       [Two], [], 0, 0, InProgress);
    assert !CanPlay(s.players[1][4], [], 0);
    assert CanPlay(Double, [Record(Three, 3)], 3);
  }

  /** The other way round: at 15, seat 0 plays "4" for 19; seat 1 holds
      "5 5 4 4 3", which the stale test finds playable at 15, so the turn
      passes to a seat none of whose cards can be played. */
  lemma AsWrittenStrandsNextSeat()
    ensures var s := GameState([[Four, One, One, One, One], [Five, Five, Four, Four, Three]], [Two],
                               [Record(Five, 5), Record(Double, 10)], 15, 0, InProgress);
      && WellFormed(s)
      && PlayAsWritten(s, 0, 0).outcome == InProgress && PlayAsWritten(s, 0, 0).current == 1
      && !HandCanPlay(PlayAsWritten(s, 0, 0).players[1], PlayAsWritten(s, 0, 0).history, PlayAsWritten(s, 0, 0).total)
      && Play(s, 0, 0).outcome == Lost(1)
  {
    var five, doubled := Record(Five, 5), Record(Double, 10);
    var s := GameState([[Four, One, One, One, One], [Five, Five, Four, Four, Three]], [Two],
                       [five, doubled], 15, 0, InProgress);
    assert Sum([five]) == 5 by { assert [five][..0] == []; }
    assert Sum([five, doubled]) == 15 by { assert [five, doubled][..1] == [five]; }
    var t := Moved(s, 0, 0);
    assert t.total == 19 && t.players[1] == s.players[1];
    assert CanPlay(s.players[1][0], s.history, 15);
    assert forall k :: 0 <= k < 5 ==> !CanPlay(t.players[1][k], t.history, 19);
  }

  // ------------------------------------------------------- automated player

  /** The opponent's move: when it is seat 1's turn and the game runs, play
      the first card that can be played, or lose if there is none. The play
      goes through `playCard`, whose next-seat test reads the state `check`
      names. */
  function OpponentStep(s: GameState, check: LossCheck): GameState
    requires s.current < |s.players|
  {
    if s.outcome != InProgress || s.current != 1 then s
    else match ChooseMove(s.players[1], s.history, s.total)
      case None => s.(outcome := Lost(1))
      case Some(i) => Transition(s, 1, i, check)
  }

  /** The opponent's move is always accepted by `playCard` when it chooses a
      card, and it loses exactly when it holds no card it can play, whichever
      next-seat test `playCard` performs. */
  lemma OpponentMoves(s: GameState, check: LossCheck)
    requires s.current < |s.players|
    requires s.outcome == InProgress && s.current == 1
    ensures var c := ChooseMove(s.players[1], s.history, s.total);
      && (c.None? ==> OpponentStep(s, check) == s.(outcome := Lost(1)))
      && (c.Some? ==> Accepts(s, 1, c.value) && OpponentStep(s, check) == Transition(s, 1, c.value, check))
    ensures OpponentStep(s, check).outcome == Lost(1) <==> !HandCanPlay(s.players[1], s.history, s.total)
  {
    var c := ChooseMove(s.players[1], s.history, s.total);
    if c.Some? {
      var t := Moved(s, 1, c.value);
      assert t.total <= Target;
      assert (s.current + 1) % |s.players| != 1;
    }
  }

  /** Off its turn, or once the game is over, the opponent does nothing. */
  lemma OpponentWaits(s: GameState, check: LossCheck)
    requires s.current < |s.players|
    requires s.outcome != InProgress || s.current != 1
    ensures OpponentStep(s, check) == s
  {
  }

  // ------------------------------------------------------------ whole games

  /** What can happen to the state: a seat clicks a card, or the automated
      player takes its turn. */
  datatype Action = Click(player: nat, card: nat) | Opponent

  /** One action; both run `playCard` with the next-seat test `check`. */
  function Step(s: GameState, a: Action, check: LossCheck): GameState
    requires s.current < |s.players|
  {
    match a
    case Click(p, i) => Transition(s, p, i, check)
    case Opponent => OpponentStep(s, check)
  }

  lemma StepWellFormed(s: GameState, a: Action, check: LossCheck)
    requires WellFormed(s)
    ensures WellFormed(Step(s, a, check))
  {
    match a
    case Click(p, i) => TransitionWellFormed(s, p, i, check);
    case Opponent =>
      if s.outcome == InProgress && s.current == 1 {
        var c := ChooseMove(s.players[1], s.history, s.total);
        if c.Some? { TransitionWellFormed(s, 1, c.value, check); }
      }
  }

  /** The state after a sequence of actions, as written (`PrePlay`) or
      corrected (`PostPlay`). Whatever the actions, the invariant survives:
      the total stays the sum of the history and at most 21, and no hand
      grows past five cards. */
  function Run(s: GameState, actions: seq<Action>, check: LossCheck): (t: GameState)
    requires WellFormed(s)
    ensures WellFormed(t)
    decreases |actions|
  {
    if |actions| == 0 then s
    else
      StepWellFormed(s, actions[0], check);
      Run(Step(s, actions[0], check), actions[1..], check)
  }

  /** Once a game is decided, no action changes the state. */
  lemma {:induction false} DecidedIsFinal(s: GameState, actions: seq<Action>, check: LossCheck)
    requires WellFormed(s) && s.outcome != InProgress
    ensures Run(s, actions, check) == s
  {
    if |actions| > 0 {
      assert Step(s, actions[0], check) == s;
      DecidedIsFinal(s, actions[1..], check);
    }
  }
}

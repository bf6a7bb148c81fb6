/** The game as the component holds it: state fields that `startGame`,
    `playCard` and the opponent watcher overwrite in place. */
module Engine {
  import opened Wrappers
  import opened Cards
  import opened Effects
  import opened Rules

  class Game {
    var players: seq<seq<Card>>
    var drawPile: seq<Card>
    var effectHistory: seq<Record>
    var total: int
    var currentPlayer: nat
    var winner: Outcome

    /** The fields, as the value the rules speak about. */
    function Snapshot(): GameState
      reads this
    {
      GameState(players, drawPile, effectHistory, total, currentPlayer, winner)
    }

    /** The rules' invariant on the fields. It is not a class invariant: the
        constructor leaves no seats, as the component starts with no hands,
        and it first holds once `StartGame` has dealt at least one seat. */
    ghost predicate Valid()
      reads this
    {
      WellFormed(Snapshot())
    }

    /** The initial `useState` values: no hands, a fresh shuffled deck as the
        draw pile, total 0, empty history, seat 0, no winner. */
    constructor (order: seq<nat>)
      requires IsPermutation(order, DeckSize)
      ensures Snapshot() == GameState([], ShuffledDeck(order), [], 0, 0, InProgress)
    {
      players, drawPile, effectHistory := [], ShuffledDeck(order), [];
      total, currentPlayer, winner := 0, 0, InProgress;
    }

    /** `startGame`: shuffle a fresh deck, take `numPlayers` hands of five off
        its front with `splice(0, 5)`, and make the rest the draw pile. */
    method StartGame(numPlayers: nat, order: seq<nat>)
      requires IsPermutation(order, DeckSize)
      modifies this
      ensures Snapshot() == Dealt(ShuffledDeck(order), numPlayers)
      ensures numPlayers >= 1 ==> Valid()
    {
      ghost var original := ShuffledDeck(order);
      var deck := ShuffledDeck(order);
      var hands: seq<seq<Card>> := [];
      var k := 0;
      while k < numPlayers
        invariant 0 <= k <= numPlayers
        invariant hands == DealtHands(original, k)
        invariant deck == original[Min(HandSize * k, |original|)..]
      {
        var take := Min(HandSize, |deck|);
        assert deck[..take] == DealtHand(original, k);
        assert DealtHands(original, k + 1) == DealtHands(original, k) + [DealtHand(original, k)];
        hands := hands + [deck[..take]];
        deck := deck[take..];
        k := k + 1;
      }
      players, drawPile, effectHistory := hands, deck, [];
      total, currentPlayer, winner := 0, 0, InProgress;
      if numPlayers >= 1 {
        DealtWellFormed(original, numPlayers);
      }
    }

    /** `playCard(playerIndex, cardIndex)`: check the guards, take the card out
        of the hand, refill from the end of the draw pile, update the history
        and the total, then declare the winner or pass the turn. */
    method PlayCard(playerIndex: nat, cardIndex: nat)
      requires currentPlayer < |players|
      modifies this
      ensures Snapshot() == Play(old(Snapshot()), playerIndex, cardIndex)
      ensures old(Valid()) ==> Valid()
    {
      ghost var before := Snapshot();
      if winner != InProgress || playerIndex != currentPlayer {
        return;
      }
      if cardIndex >= |players[playerIndex]| {
        return;
      }
      var card := players[playerIndex][cardIndex];
      if !CanPlay(card, effectHistory, total) {
        return;
      }
      MoveCard(playerIndex, cardIndex);
      DecideOutcome(before, playerIndex);
      if WellFormed(before) {
        TransitionWellFormed(before, playerIndex, cardIndex, PostPlay);
      }
    }

    /** The middle of `playCard`: the hand without the card, then refilled
        with `drawPile.pop()` when under five; the history popped for "Nope"
        and pushed otherwise; the total moved by the effect. */
    method MoveCard(playerIndex: nat, cardIndex: nat)
      requires currentPlayer < |players|
      requires Accepts(Snapshot(), playerIndex, cardIndex)
      modifies this
      ensures Snapshot() == Moved(old(Snapshot()), playerIndex, cardIndex)
    {
      var card := players[playerIndex][cardIndex];
      var effect := Effect(card, effectHistory).value;
      var newTotal := total + effect;

      var hand := RemoveAt(players[playerIndex], cardIndex);
      var newDrawPile := drawPile;
      if |hand| < HandSize && |newDrawPile| > 0 {
        hand := hand + [newDrawPile[|newDrawPile| - 1]];
        newDrawPile := newDrawPile[..|newDrawPile| - 1];
      }
      var newPlayers := players[playerIndex := hand];

      var newHistory := effectHistory;
      if card == Nope {
        newHistory := newHistory[..|newHistory| - 1];
      } else if IsNumeric(card) {
        newHistory := newHistory + [Record(card, ParseInt(card))];
      } else {
        newHistory := newHistory + [Record(card, effect)];
      }

      players, drawPile, effectHistory, total := newPlayers, newDrawPile, newHistory, newTotal;
    }

    /** The end of `playCard` ("fin / next"), after the card has been played
        from state `before`: 21 wins, otherwise the next seat loses when it
        cannot play under the new history and total, or takes the turn. */
    method DecideOutcome(ghost before: GameState, playerIndex: nat)
      requires before.current < |before.players| == |players|
      requires currentPlayer == before.current && total <= Target
      modifies this
      ensures Snapshot() == Settle(before, old(Snapshot()), playerIndex, PostPlay)
    {
      var next := (currentPlayer + 1) % |players|;
      if total == Target {
        winner := Won(playerIndex);
      } else if total > Target {
        // the source declares the mover the loser here; the guard of
        // `playCard` keeps the total at most 21, so this is never reached
        assert false;
      } else if !HandCanPlay(players[next], effectHistory, total) {
        winner := Lost(next);
      } else {
        currentPlayer := next;
      }
    }

    /** The opponent watcher's decision for seat 1: once the game runs and it
        is seat 1's turn, play the first card `canPlay` accepts, or declare
        seat 1 the loser when there is none. */
    method OpponentTurn()
      requires currentPlayer < |players|
      modifies this
      ensures Snapshot() == OpponentStep(old(Snapshot()), PostPlay)
      ensures old(Valid()) ==> Valid()
    {
      if winner != InProgress || currentPlayer != 1 {
        return;
      }
      var choice := ChooseMove(players[1], effectHistory, total);
      match choice {
        case None =>
          winner := Lost(1);
          assert Snapshot() == OpponentStep(old(Snapshot()), PostPlay);
        case Some(idx) =>
          PlayCard(1, idx);
      }
    }
  }
}

/** Worked plays of Nope 21: the opening move, reaching 21 with "x2",
    undoing with "Nope", and the two ways the next seat's hand is judged. */
module Scenarios {
  import opened Wrappers
  import opened Cards
  import opened Effects
  import opened Rules

  /** Two seats, nothing played yet, seat 0 holding "1 2 3 4 5": playing the
      "5" makes the total 5, records it, refills the hand from the end of the
      pile and passes the turn to seat 1. */
  lemma OpeningPlay()
    ensures var s := GameState([[One, Two, Three, Four, Five], [One, One, One, One, One]],
                               [Three, Two], [], 0, 0, InProgress);
      var t := Play(s, 0, 4);
      && t.total == 5 && t.history == [Record(Five, 5)]
      && t.players == [[One, Two, Three, Four, Two], [One, One, One, One, One]]
      && t.drawPile == [Three]
      && t.current == 1 && t.outcome == InProgress
  {
    var s := GameState([[One, Two, Three, Four, Five], [One, One, One, One, One]],
                       [Three, Two], [], 0, 0, InProgress);
    var t := Moved(s, 0, 4);
    assert t.players[0] == [One, Two, Three, Four, Two];
    assert CanPlay(t.players[1][0], t.history, t.total);
  }

  /** At 19 with a "1" on top of the history, "x2" adds 2 and wins at once,
      whatever the next seat holds. */
  lemma DoubleReachesTarget(s: GameState, i: nat)
    requires s.current < |s.players| && s.outcome == InProgress
    requires s.total == 19 && |s.history| > 0 && Last(s.history) == Record(One, 1)
    requires i < |s.players[s.current]| && s.players[s.current][i] == Double
    ensures Play(s, s.current, i).total == Target
    ensures Play(s, s.current, i).outcome == Won(s.current)
    ensures Play(s, s.current, i).history == s.history + [Record(Double, 2)]
  {
    assert Effect(Double, s.history) == Some(2);
  }

  /** At 10 with a "3" on top of the history, "Nope" takes the total back to
      7 and removes that record. */
  lemma NopeUndoesLast(s: GameState, i: nat)
    requires s.current < |s.players| && s.outcome == InProgress
    requires s.total == 10 && |s.history| > 0 && Last(s.history) == Record(Three, 3)
    requires i < |s.players[s.current]| && s.players[s.current][i] == Nope
    ensures Play(s, s.current, i).total == 7
    ensures Play(s, s.current, i).history == s.history[..|s.history| - 1]
  {
    assert Effect(Nope, s.history) == Some(-3);
  }

  /** A next seat holding only "-1" never loses for want of a move: "-1"
      resolves on any history and can only lower the total. */
  lemma MinusOneKeepsNextSeat(s: GameState, p: nat, i: nat)
    requires s.current < |s.players|
    requires Accepts(s, p, i)
    requires Play(s, p, i).total != Target
    requires Play(s, p, i).players[(s.current + 1) % |s.players|] == [MinusOne]
    ensures Play(s, p, i).outcome == InProgress
    ensures Play(s, p, i).current == (s.current + 1) % |s.players|
  {
    var t, next := Play(s, p, i), (s.current + 1) % |s.players|;
    PlayOutcome(s, p, i);
    PlayUpdatesHistory(s, p, i, PostPlay);
    assert CanPlay(t.players[next][0], t.history, t.total);
  }

  /** With the next seat judged on the state the play produced: a next seat
      holding only "x2" loses at once when the play leaves the history empty
      (a "Nope" undoing the only record). */
  lemma DoubleStrandsNextSeat(s: GameState, p: nat, i: nat)
    requires s.current < |s.players|
    requires Accepts(s, p, i)
    requires Play(s, p, i).total != Target && Play(s, p, i).history == []
    requires Play(s, p, i).players[(s.current + 1) % |s.players|] == [Double]
    ensures Play(s, p, i).outcome == Lost((s.current + 1) % |s.players|)
  {
    PlayOutcome(s, p, i);
  }

  /** The same situation under the source's stale test: "1" is the only
      record, seat 0 plays "Nope" and seat 1 holds only "x2". The test still
      sees the "1" that "x2" could double, so the turn passes to seat 1,
      which cannot play; the corrected play declares seat 1 lost. */
  lemma AsWrittenDoubleSeatPasses()
    ensures var s := GameState([[Nope, One, One, One, One], [Double]], [], [Record(One, 1)], 1, 0, InProgress);
      && WellFormed(s)
      && PlayAsWritten(s, 0, 0).outcome == InProgress && PlayAsWritten(s, 0, 0).current == 1
      && !HandCanPlay(PlayAsWritten(s, 0, 0).players[1], PlayAsWritten(s, 0, 0).history, PlayAsWritten(s, 0, 0).total)
      && Play(s, 0, 0).outcome == Lost(1)
  {
    var s := GameState([[Nope, One, One, One, One], [Double]], [], [Record(One, 1)], 1, 0, InProgress);
    assert Sum([Record(One, 1)]) == 1 by { assert [Record(One, 1)][..0] == []; }
    var t := Moved(s, 0, 0);
    assert t.history == [] && t.players[1] == [Double];
    assert CanPlay(s.players[1][0], s.history, s.total);
    assert !CanPlay(t.players[1][0], t.history, t.total);
  }

  /** Dealing does not look at seat 0's hand: a deck that starts with
      "x2 x2 x2 x2 Nope" gives seat 0 a hand of which nothing resolves on the
      empty history, and the game is running with seat 0 to play. */
  lemma DealCanStall()
    ensures var s := Dealt([Double, Double, Double, Double, Nope, One, One, One, One, One, Two], 2);
      && WellFormed(s) && s.outcome == InProgress && s.current == 0
      && !HandCanPlay(s.players[0], s.history, s.total)
  {
    var deck := [Double, Double, Double, Double, Nope, One, One, One, One, One, Two];
    DealtWellFormed(deck, 2);
    var s := Dealt(deck, 2);
    assert s.players[0] == deck[0..5] == [Double, Double, Double, Double, Nope];
  }
}

/** How a card resolves against the effect history, and which cards may be
    played (`calculateEffect`, `canPlay`, `playerCanPlay` and the opponent's
    `findIndex(canPlay)` in src/App.jsx). */
module Effects {
  import opened Wrappers
  import opened Cards

  /** One entry of the effect history: the card played and the delta it
      applied. (The source also stores a `type` tag, "number" or "special",
      that nothing reads; it is `IsNumeric(card)`.) */
  datatype Record = Record(card: Card, value: int)

  /** The most recent record. */
  function Last(history: seq<Record>): Record
    requires |history| > 0
  {
    history[|history| - 1]
  }

  /** The running total a history accounts for: the sum of its values. */
  function Sum(history: seq<Record>): int
  {
    if |history| == 0 then 0 else Sum(history[..|history| - 1]) + Last(history).value
  }

  /** May "x2" double the last record? Only if there is one and its card is
      not "-1", "-2", "x2" or "Nope". */
  predicate Doubles(history: seq<Record>)
  {
    |history| > 0 && Last(history).card !in {MinusOne, MinusTwo, Double, Nope}
  }

  /** `calculateEffect(card, history)`: the delta the card would apply, or
      None (`null`) when it cannot be played. Numeric faces, "-1" and "-2"
      included, take the `!isNaN` branch; the later "-1"/"-2" branches and
      the final `return 0` are never reached by a card of the deck. */
  function Effect(card: Card, history: seq<Record>): Option<int>
  {
    if IsNumeric(card) then Some(ParseInt(card))
    else if card == Double then
      if Doubles(history) then Some(Last(history).value * 2) else None
    else
      if |history| == 0 then None else Some(-Last(history).value)
  }

  /** `canPlay(card)`: the card resolves and keeps the total at most 21. */
  predicate CanPlay(card: Card, history: seq<Record>, total: int)
  {
    Effect(card, history).Some? && total + Effect(card, history).value <= 21
  }

  /** `playerCanPlay(hand)`, i.e. `hand.some(canPlay)`. */
  predicate HandCanPlay(hand: seq<Card>, history: seq<Record>, total: int)
  {
    exists k :: 0 <= k < |hand| && CanPlay(hand[k], history, total)
  }

  /** `hand.findIndex(canPlay)` scanning from index `from`. */
  function FirstPlayableFrom(hand: seq<Card>, history: seq<Record>, total: int, from: nat): (r: Option<nat>)
    requires from <= |hand|
    decreases |hand| - from
    ensures r.Some? ==> from <= r.value < |hand| && CanPlay(hand[r.value], history, total)
    ensures r.Some? ==> forall j :: from <= j < r.value ==> !CanPlay(hand[j], history, total)
    ensures r.None? <==> forall j :: from <= j < |hand| ==> !CanPlay(hand[j], history, total)
  {
    if from == |hand| then None
    else if CanPlay(hand[from], history, total) then Some(from)
    else FirstPlayableFrom(hand, history, total, from + 1)
  }

  /** The automated player's choice: the first card of the hand that can be
      played, or None when there is none. */
  function ChooseMove(hand: seq<Card>, history: seq<Record>, total: int): (r: Option<nat>)
    ensures r.Some? ==> r.value < |hand| && CanPlay(hand[r.value], history, total)
    ensures r.Some? ==> forall j :: 0 <= j < r.value ==> !CanPlay(hand[j], history, total)
    ensures r.None? <==> !HandCanPlay(hand, history, total)
  {
    FirstPlayableFrom(hand, history, total, 0)
  }

  /** Number cards, "-1" and "-2" included, always resolve to their face
      value, whatever the history: they are never unplayable for lack of a
      previous effect. */
  lemma NumberEffect(card: Card, history: seq<Record>, other: seq<Record>)
    requires IsNumeric(card)
    ensures Effect(card, history).Some?
    ensures Effect(card, history) == Effect(card, other)
    ensures Effect(card, history).value == match card
      case One => 1 case Two => 2 case Three => 3 case Four => 4 case Five => 5
      case MinusOne => -1 case MinusTwo => -2
  {
  }

  /** "x2" resolves exactly when the last record exists and is a "1".."5"
      card, and then to twice the last record's value. */
  lemma DoubleEffect(history: seq<Record>)
    ensures Doubles(history) <==> |history| > 0 && Last(history).card in {One, Two, Three, Four, Five}
    ensures Effect(Double, history).Some? <==> Doubles(history)
    ensures Doubles(history) ==> Effect(Double, history).value == 2 * Last(history).value
  {
    if |history| > 0 {
      match Last(history).card
      case One => case Two => case Three => case Four => case Five =>
      case MinusOne => case MinusTwo => case Double => case Nope =>
    }
  }

  /** "Nope" resolves exactly when the history is non-empty, to minus the
      last record's value, so that adding it gives back the total from
      before that record, however its value was obtained. */
  lemma NopeEffect(history: seq<Record>)
    ensures Effect(Nope, history).Some? <==> |history| > 0
    ensures |history| > 0 ==> Effect(Nope, history).value == -Last(history).value
    ensures |history| > 0 ==> Sum(history) + Effect(Nope, history).value == Sum(history[..|history| - 1])
  {
  }

  /** A card is unplayable (`null`) only when it is "x2" and the history does
      not allow doubling, or "Nope" on an empty history. */
  lemma UnplayableCards(card: Card, history: seq<Record>)
    ensures Effect(card, history).None? <==>
      (card == Double && !Doubles(history)) || (card == Nope && |history| == 0)
  {
  }
}

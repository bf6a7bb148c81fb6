/** The cards of Nope 21 and the construction of the 40-card deck. */
module Cards {

  /** A card. The source represents each card by its face string:
      "1".."5", "-1", "-2", "x2" (double the last effect) and "Nope"
      (cancel the last effect). */
  datatype Card = One | Two | Three | Four | Five | MinusOne | MinusTwo | Double | Nope

  /** `!isNaN(face)`: the faces that read as numbers. "-1" and "-2" do,
      so they are numeric cards too; "x2" and "Nope" do not. */
  predicate IsNumeric(c: Card)
  {
    c != Double && c != Nope
  }

  /** `parseInt(face)` for a numeric face. */
  function ParseInt(c: Card): (v: int)
    requires IsNumeric(c)
    ensures -2 <= v <= 5 && v != 0
  {
    match c
    case One => 1
    case Two => 2
    case Three => 3
    case Four => 4
    case Five => 5
    case MinusOne => -1
    case MinusTwo => -2
  }

  /** `Array(k).fill(c)`. */
  function Repeat(c: Card, k: nat): seq<Card>
  {
    seq(k, _ => c)
  }

  const DeckSize: nat := 40

  /** The deck literal before the sort: `[...Array(5).fill("1"), ...]`,
      in the order the source spreads its groups. */
  function Unshuffled(): seq<Card>
  {
    Repeat(One, 5) + Repeat(Two, 5) + Repeat(Three, 5) + Repeat(Four, 5) + Repeat(Five, 5)
    + Repeat(Double, 4) + Repeat(MinusOne, 4) + Repeat(MinusTwo, 4) + Repeat(Nope, 3)
  }

  /** How many copies of each card the deck holds. */
  function Copies(c: Card): nat
  {
    match c
    case One | Two | Three | Four | Five => 5
    case Double | MinusOne | MinusTwo => 4
    case Nope => 3
  }

  lemma {:induction false} RepeatCount(c: Card, k: nat, d: Card)
    ensures multiset(Repeat(c, k))[d] == if c == d then k else 0
  {
    if k > 0 {
      RepeatCount(c, k - 1, d);
      assert Repeat(c, k) == Repeat(c, k - 1) + [c];
    }
  }

  /** The unshuffled deck holds 40 cards: five each of "1".."5", four each
      of "x2", "-1" and "-2", and three "Nope". */
  lemma UnshuffledComposition(c: Card)
    ensures |Unshuffled()| == DeckSize
    ensures multiset(Unshuffled())[c] == Copies(c)
  {
    RepeatCount(One, 5, c);
    RepeatCount(Two, 5, c);
    RepeatCount(Three, 5, c);
    RepeatCount(Four, 5, c);
    RepeatCount(Five, 5, c);
    RepeatCount(Double, 4, c);
    RepeatCount(MinusOne, 4, c);
    RepeatCount(MinusTwo, 4, c);
    RepeatCount(Nope, 3, c);
  }

  /** `p` lists each of 0..n-1 exactly once. */
  predicate IsPermutation(p: seq<nat>, n: nat)
  {
    && |p| == n
    && (forall i :: 0 <= i < n ==> p[i] < n)
    && (forall i, j :: 0 <= i < j < n ==> p[i] != p[j])
  }

  /** The sequence whose i-th element is `s[p[i]]`. */
  function Permute<T>(s: seq<T>, p: seq<nat>): (r: seq<T>)
    requires IsPermutation(p, |s|)
    ensures |r| == |s|
  {
    seq(|s|, i requires 0 <= i < |s| => s[p[i]])
  }

  /** The permutation of 0..n-2 left when the last entry, `p[n - 1]`, is
      struck out of `p` and the larger entries close the gap. */
  function Shrink(p: seq<nat>, n: nat): (q: seq<nat>)
    requires IsPermutation(p, n) && n > 0
    ensures IsPermutation(q, n - 1)
  {
    var j := p[n - 1];
    var q := seq(n - 1, i requires 0 <= i < n - 1 => if p[i] < j then p[i] else p[i] - 1);
    assert forall i :: 0 <= i < n - 1 ==> p[i] != p[n - 1];
    q
  }

  lemma PermuteShrink<T>(s: seq<T>, p: seq<nat>)
    requires IsPermutation(p, |s|) && |s| > 0
    ensures var j := p[|s| - 1];
      Permute(s[..j] + s[j + 1..], Shrink(p, |s|)) == Permute(s, p)[..|s| - 1]
  {
    var n, j := |s|, p[|s| - 1];
    var s', q := s[..j] + s[j + 1..], Shrink(p, n);
    forall i | 0 <= i < n - 1 ensures s'[q[i]] == s[p[i]] {
      assert p[i] != p[n - 1];
    }
  }

  /** Putting a sequence in another order keeps its multiset. */
  lemma {:induction false} PermutePreservesMultiset<T>(s: seq<T>, p: seq<nat>)
    requires IsPermutation(p, |s|)
    ensures multiset(Permute(s, p)) == multiset(s)
  {
    var n := |s|;
    if n > 0 {
      var j, r := p[n - 1], Permute(s, p);
      var s', q := s[..j] + s[j + 1..], Shrink(p, n);
      PermuteShrink(s, p);
      PermutePreservesMultiset(s', q);
      assert multiset(r[..n - 1]) == multiset(s');
      assert r == r[..n - 1] + [s[j]];
      assert s == s[..j] + [s[j]] + s[j + 1..];
    }
  }

  /** `DEFAULT_DECK()`: the fixed multiset put in some order. The source orders
      it by sorting with a random comparator; here the order that sort happens
      to produce is the parameter `order`. */
  function ShuffledDeck(order: seq<nat>): seq<Card>
    requires IsPermutation(order, DeckSize)
  {
    UnshuffledComposition(One);
    Permute(Unshuffled(), order)
  }

  /** Every shuffled deck has 40 cards: five each of "1".."5", four each of
      "x2", "-1" and "-2", three "Nope"; only the order varies. */
  lemma ShuffledComposition(order: seq<nat>, c: Card)
    requires IsPermutation(order, DeckSize)
    ensures |ShuffledDeck(order)| == DeckSize
    ensures multiset(ShuffledDeck(order)) == multiset(Unshuffled())
    ensures multiset(ShuffledDeck(order))[c] == Copies(c)
  {
    UnshuffledComposition(c);
    PermutePreservesMultiset(Unshuffled(), order);
  }
}

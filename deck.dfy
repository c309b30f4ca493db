/** The Deck: an array of cards built once in suit-then-face order, from which
    cards are drawn at random without replacement. */
module Decks {
  import opened Cards

  class Deck {
    /** The undrawn cards, in their current array order. */
    var cards: seq<Card>
    /** Every card drawn so far, in draw order. Proof-only history. */
    ghost var drawn: seq<Card>

    /** Draw without replacement: what was drawn and what remains are, together,
        exactly the 52 cards the deck was built with. */
    ghost predicate Valid()
      reads this
    {
      IsFull(multiset(drawn) + multiset(cards))
    }

    /** Pushes one card per face for each suit, suits in the outer loop; the
        loops run over the tables' keys, so every card has both display names. */
    constructor ()
      ensures Valid()
      ensures cards == FullDeck() && drawn == []
      ensures forall k :: 0 <= k < |cards| ==> cards[k].suit in SuitNames && cards[k].face in FaceNames
    {
      FullDeckOrder();
      var built: seq<Card> := [];
      var suit := 1;
      while suit <= 4
        invariant 1 <= suit <= 5
        invariant built == FullDeck()[..13 * (suit - 1)]
      {
        var face := 2;
        while face <= 14
          invariant 2 <= face <= 15
          invariant built == FullDeck()[..DeckIndex(suit, face)]
        {
          built := built + [Card(suit, face)];
          face := face + 1;
        }
        suit := suit + 1;
      }
      assert built == FullDeck();
      assert IsFull(multiset(built)) by { FullDeckExactlyOnce(); }
      assert forall k :: 0 <= k < |built| ==> built[k].suit in SuitNames && built[k].face in FaceNames by { TableKeys(); }
      cards := built;
      drawn := [];
    }

    /** The number of undrawn cards: 52 less the number of draws that returned a card. */
    function NumCardsRemaining(): (n: nat)
      reads this
      ensures n == |cards|
      ensures Valid() ==> n == 52 - |drawn|
    {
      FullSize(multiset(drawn) + multiset(cards));
      |cards|
    }

    /** Removes and returns a randomly chosen card, or None when the deck is empty.
        The random choice is the index `index`, any position of the array. */
    method GetNextCard() returns (card: Option<Card>, ghost index: nat)
      requires Valid()
      modifies this
      ensures Valid()
      ensures old(cards) == [] ==> card == None && cards == old(cards) && drawn == old(drawn)
      ensures old(cards) != [] ==>
        && index < |old(cards)|
        && card == Some(old(cards)[index])
        && cards == old(cards)[..index] + old(cards)[index + 1..]
        && drawn == old(drawn) + [card.value]
      ensures card.Some? ==>
        && multiset(old(cards)) == multiset(cards) + multiset{card.value}
        && card.value.IsStandard()
        && card.value !in old(drawn)
        && card.value !in cards
    {
      if NumCardsRemaining() == 0 {
        return None, 0;
      }
      var i :| 0 <= i < |cards|;
      var c := cards[i];
      ghost var before := cards;
      cards := cards[..i] + cards[i + 1..];
      drawn := drawn + [c];
      assert before == before[..i] + [c] + before[i + 1..];
      assert multiset(before) == multiset(cards) + multiset{c};
      return Some(c), i;
    }
  }

  /** No card is ever returned twice: a valid history of draws together with the
      remaining cards repeats no card, and holds only standard cards. */
  lemma DrawnAreDistinct(drawn: seq<Card>, cards: seq<Card>)
    requires IsFull(multiset(drawn) + multiset(cards))
    ensures Distinct(drawn + cards)
    ensures forall c :: c in drawn + cards ==> c.IsStandard()
  {
    assert multiset(drawn + cards) == multiset(drawn) + multiset(cards);
    AtMostOnceIsDistinct(drawn + cards);
  }
}

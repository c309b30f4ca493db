/** The Dealer: a name and the one Deck it deals from. */
module Dealers {
  import opened Cards
  import opened Decks

  class Dealer {
    const name: string
    const deck: Deck

    ghost predicate Valid()
      reads this, deck
    {
      deck.Valid()
    }

    /** A dealer with the given name and a newly built deck. */
    constructor (name: string)
      ensures this.name == name
      ensures fresh(deck) && Valid()
      ensures deck.cards == FullDeck() && deck.drawn == []
    {
      this.name := name;
      deck := new Deck();
    }

    /** The number of cards left in the dealer's deck. */
    function NumCardsRemaining(): (n: nat)
      reads this, deck
      ensures n == |deck.cards|
      ensures Valid() ==> n == 52 - |deck.drawn|
    {
      deck.NumCardsRemaining()
    }

    /** Deals the deck's next card: a random undrawn card, or None once the
        deck is exhausted. */
    method DealACard() returns (card: Option<Card>, ghost index: nat)
      requires Valid()
      modifies deck
      ensures Valid()
      ensures old(deck.cards) == [] ==> card == None && deck.cards == old(deck.cards) && deck.drawn == old(deck.drawn)
      ensures old(deck.cards) != [] ==>
        && index < |old(deck.cards)|
        && card == Some(old(deck.cards)[index])
        && deck.cards == old(deck.cards)[..index] + old(deck.cards)[index + 1..]
        && deck.drawn == old(deck.drawn) + [card.value]
      ensures card.Some? ==>
        && multiset(old(deck.cards)) == multiset(deck.cards) + multiset{card.value}
        && card.value.IsStandard()
        && card.value !in old(deck.drawn)
        && card.value !in deck.cards
    {
      card, index := deck.GetNextCard();
    }
  }
}

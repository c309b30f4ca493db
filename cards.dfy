/** Playing cards of the War engine: the suit and face tables, the Card value,
    and the 52-card sequence a new Deck is built as. */
module Cards {

  /** What the JavaScript engine writes as `null` (no card). */
  datatype Option<T> = None | Some(value: T)

  /** The SUITS table: suit code to display name. */
  const SuitNames: map<int, string> :=
    map[1 := "SPADES", 2 := "HEARTS", 3 := "DIAMONDS", 4 := "CLUBS"]

  /** The FACES table: face code (its numeric value in a round) to display name. */
  const FaceNames: map<int, string> :=
    map[2 := "TWO", 3 := "THREE", 4 := "FOUR", 5 := "FIVE", 6 := "SIX", 7 := "SEVEN",
        8 := "EIGHT", 9 := "NINE", 10 := "TEN", 11 := "JACK", 12 := "QUEEN", 13 := "KING",
        14 := "ACE"]

  /** One card. Its display names are looked up in the tables, as the JavaScript
      constructor does when it stores `suitName` and `faceName`. */
  datatype Card = Card(suit: int, face: int) {
    /** A card whose suit is one of 1 to 4 and whose face is one of 2 to 14. */
    predicate IsStandard() {
      1 <= suit <= 4 && 2 <= face <= 14
    }

    function SuitName(): string
      requires suit in SuitNames
    {
      SuitNames[suit]
    }

    function FaceName(): string
      requires face in FaceNames
    {
      FaceNames[face]
    }
  }

  /** The keys `for...in` visits: suits 1 to 4 and faces 2 to 14, and no others;
      so a standard card is exactly one whose suit and face both have a name. */
  lemma TableKeys()
    ensures forall s :: s in SuitNames <==> 1 <= s <= 4
    ensures forall f :: f in FaceNames <==> 2 <= f <= 14
    ensures forall c: Card :: c.IsStandard() <==> c.suit in SuitNames && c.face in FaceNames
  {
    forall f | 2 <= f <= 14
      ensures f in FaceNames
    {
      if f <= 8 {
        assert f == 2 || f == 3 || f == 4 || f == 5 || f == 6 || f == 7 || f == 8;
      } else {
        assert f == 9 || f == 10 || f == 11 || f == 12 || f == 13 || f == 14;
      }
    }
  }

  /** A standard card's two display names say which card it is: no two standard
      cards show the same suit name and face name. */
  lemma NamesIdentifyCard(c1: Card, c2: Card)
    requires c1.IsStandard() && c2.IsStandard()
    ensures c1.suit in SuitNames && c1.face in FaceNames
    ensures c2.suit in SuitNames && c2.face in FaceNames
    ensures c1.SuitName() == c2.SuitName() && c1.FaceName() == c2.FaceName() ==> c1 == c2
  {
    TableKeys();
  }

  /** The cards of a newly constructed Deck, in construction order: suits
      outermost and faces innermost, both ascending, so position `k` holds
      suit `k / 13 + 1` and face `k % 13 + 2`. */
  function FullDeck(): (deck: seq<Card>)
    ensures |deck| == 52
  {
    seq(52, k requires 0 <= k < 52 => Card(k / 13 + 1, k % 13 + 2))
  }

  /** Where the card of `suit` and `face` is pushed in construction order. */
  function DeckIndex(suit: int, face: int): int {
    13 * (suit - 1) + (face - 2)
  }

  /** A collection of cards that holds every standard card exactly once and
      nothing else: the contents of a whole deck, in any order. */
  ghost predicate IsFull(m: multiset<Card>) {
    forall c :: Count(m, c) == if c.IsStandard() then 1 else 0
  }

  /** How many copies of `c` the collection `m` holds: `m[c]` under a name of its
      own, so that the quantifier in `IsFull` is instantiated only where a count
      is asked for, not at every multiset selection in a proof. */
  ghost function Count(m: multiset<Card>, c: Card): nat {
    m[c]
  }

  /** No two positions hold the same card. */
  predicate Distinct(s: seq<Card>) {
    forall i, j :: 0 <= i < j < |s| ==> s[i] != s[j]
  }

  /** Construction order: the card of every standard (suit, face) pair is pushed
      at position DeckIndex(suit, face), and every position holds a standard card. */
  lemma FullDeckOrder()
    ensures forall suit, face :: 1 <= suit <= 4 && 2 <= face <= 14 ==>
      0 <= DeckIndex(suit, face) < 52 && FullDeck()[DeckIndex(suit, face)] == Card(suit, face)
    ensures forall k :: 0 <= k < 52 ==> FullDeck()[k].IsStandard()
  {
    forall suit, face | 1 <= suit <= 4 && 2 <= face <= 14
      ensures 0 <= DeckIndex(suit, face) < 52 && FullDeck()[DeckIndex(suit, face)] == Card(suit, face)
    {
      var k := DeckIndex(suit, face);
      assert k / 13 == suit - 1 && k % 13 == face - 2;
    }
  }

  /** The 52 cards of a new deck are pairwise different. */
  lemma FullDeckDistinct()
    ensures Distinct(FullDeck())
  {
    var deck := FullDeck();
    forall i, j | 0 <= i < j < 52
      ensures deck[i] != deck[j]
    {
      if i / 13 == j / 13 {
        assert i % 13 != j % 13;
      }
    }
  }

  /** In a sequence with no repeated position, every card occurs at most once. */
  lemma {:induction false} DistinctAtMostOnce(s: seq<Card>, c: Card)
    requires Distinct(s)
    ensures Count(multiset(s), c) == if c in s then 1 else 0
  {
    if s != [] {
      var rest := s[1..];
      assert s == [s[0]] + rest;
      assert Distinct(rest) by {
        forall i, j | 0 <= i < j < |rest| ensures rest[i] != rest[j] {
          assert rest[i] == s[i + 1] && rest[j] == s[j + 1];
        }
      }
      DistinctAtMostOnce(rest, c);
      assert s[0] !in rest by {
        forall j | 0 <= j < |rest| ensures rest[j] != s[0] {
          assert rest[j] == s[j + 1];
        }
      }
    }
  }

  /** A new deck holds 52 cards, exactly one of every (suit, face) pair of the
      tables and nothing else. */
  lemma FullDeckExactlyOnce()
    ensures |FullDeck()| == 52
    ensures IsFull(multiset(FullDeck()))
  {
    FullDeckOrder();
    FullDeckDistinct();
    forall c ensures Count(multiset(FullDeck()), c) == if c.IsStandard() then 1 else 0 {
      DistinctAtMostOnce(FullDeck(), c);
      if c.IsStandard() {
        assert FullDeck()[DeckIndex(c.suit, c.face)] == c;
      }
    }
  }

  /** A sequence in which no card occurs twice has no repeated position. */
  lemma AtMostOnceIsDistinct(s: seq<Card>)
    requires forall c :: Count(multiset(s), c) <= 1
    ensures Distinct(s)
  {
    forall i, j | 0 <= i < j < |s|
      ensures s[i] != s[j]
    {
      var x := s[j];
      assert s == s[..j] + [x] + s[j + 1..];
      assert multiset(s)[x] == multiset(s[..j])[x] + 1 + multiset(s[j + 1..])[x];
      assert Count(multiset(s), x) <= 1;
      assert x !in s[..j];
      assert s[i] == s[..j][i];
    }
  }

  /** Every full collection has 52 cards. */
  lemma FullSize(m: multiset<Card>)
    ensures IsFull(m) ==> |m| == 52
  {
    if IsFull(m) {
      FullDeckExactlyOnce();
      forall c ensures m[c] == multiset(FullDeck())[c] {
        assert Count(m, c) == Count(multiset(FullDeck()), c);
      }
      assert m == multiset(FullDeck());
    }
  }

  /** Two full collections that share a part agree on the rest. */
  lemma FullCancel(shared: multiset<Card>, b: multiset<Card>, c: multiset<Card>)
    requires IsFull(shared + b) && IsFull(shared + c)
    ensures b == c
  {
    forall x ensures b[x] == c[x] {
      assert Count(shared + b, x) == Count(shared + c, x);
    }
  }
}

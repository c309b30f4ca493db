/** One game of War: the dealer deals a card to each player per round, the
    strictly higher face scores one point, and when the deck is exhausted the
    player with strictly more points wins the game. */
module Games {
  import opened Cards
  import opened Decks
  import opened Dealers
  import opened Players

  /** Who wins a round or a game; Neither is a tie. */
  datatype Winner = Player1 | Player2 | Neither

  /** The rule shared by rounds (on faces) and the game (on points): the
      strictly greater value wins, equal values tie. */
  function Higher(a: int, b: int): (w: Winner)
    ensures w == Player1 <==> a > b
    ensures w == Player2 <==> b > a
    ensures w == Neither <==> a == b
  {
    if a > b then Player1 else if b > a then Player2 else Neither
  }

  /** The winner of a round in which player 1 holds `card1` and player 2 holds `card2`. */
  function RoundWinner(card1: Card, card2: Card): Winner {
    Higher(card1.face, card2.face)
  }

  /** The winner of a game that ends with these scores. */
  function GameWinner(points1: int, points2: int): (w: Winner)
    ensures w == Player1 <==> points1 > points2
    ensures w == Player2 <==> points2 > points1
    ensures w == Neither <==> points1 == points2
  {
    Higher(points1, points2)
  }

  /** The two players' points. */
  datatype Score = Score(points1: int, points2: int)

  /** The score after the winner of a round, if any, is awarded one point. */
  function Award(w: Winner, s: Score): (r: Score)
    ensures r.points1 == s.points1 + (if w == Player1 then 1 else 0)
    ensures r.points2 == s.points2 + (if w == Player2 then 1 else 0)
  {
    match w
    case Player1 => Score(s.points1 + 1, s.points2)
    case Player2 => Score(s.points1, s.points2 + 1)
    case Neither => s
  }

  /** What is announced after a round: the two cards, the round's winner, both
      scores and the number of cards left in the deck. */
  datatype RoundReport = RoundReport(
    card1: Card, card2: Card, winner: Winner, points1: int, points2: int, remaining: nat)

  /** What is announced at the end: both scores and the game's winner. */
  datatype FinalReport = FinalReport(points1: int, points2: int, winner: Winner)

  /** The score after the cards `dealt` were dealt in turn to player 1 and player 2,
      starting from `start`; a trailing unpaired card scores nothing. */
  function ScoreAfter(dealt: seq<Card>, start: Score): Score
    decreases |dealt|
  {
    var n := |dealt|;
    if n < 2 then start
    else if n % 2 == 1 then ScoreAfter(dealt[..n - 1], start)
    else Award(RoundWinner(dealt[n - 2], dealt[n - 1]), ScoreAfter(dealt[..n - 2], start))
  }

  /** The round reports announced while the cards `dealt` were dealt from a deck
      of `deckSize` cards, starting from the score `start`. */
  function ReportsAfter(dealt: seq<Card>, start: Score, deckSize: nat): seq<RoundReport>
    requires |dealt| <= deckSize
    decreases |dealt|
  {
    var n := |dealt|;
    if n < 2 then []
    else if n % 2 == 1 then ReportsAfter(dealt[..n - 1], start, deckSize)
    else
      var s := ScoreAfter(dealt, start);
      ReportsAfter(dealt[..n - 2], start, deckSize)
        + [RoundReport(dealt[n - 2], dealt[n - 1], RoundWinner(dealt[n - 2], dealt[n - 1]),
                       s.points1, s.points2, deckSize - n)]
  }

  /** The cards shown in `reports`, round by round: player 1's card, then player 2's. */
  function ReportedCards(reports: seq<RoundReport>): (cards: seq<Card>)
    ensures |cards| == 2 * |reports|
  {
    if reports == [] then []
    else
      var last := reports[|reports| - 1];
      ReportedCards(reports[..|reports| - 1]) + [last.card1, last.card2]
  }

  /** After whole rounds, the reports show the dealt cards in the order they
      were dealt. */
  lemma {:induction false} ReportsShowDealt(dealt: seq<Card>, start: Score, deckSize: nat)
    requires |dealt| <= deckSize
    requires |dealt| % 2 == 0
    ensures ReportedCards(ReportsAfter(dealt, start, deckSize)) == dealt
    decreases |dealt|
  {
    var n := |dealt|;
    if n >= 2 {
      var shorter := dealt[..n - 2];
      ReportsShowDealt(shorter, start, deckSize);
      var earlier := ReportsAfter(shorter, start, deckSize);
      var reports := ReportsAfter(dealt, start, deckSize);
      var last := reports[|reports| - 1];
      assert reports == earlier + [last];
      assert reports[..|reports| - 1] == earlier;
      assert last.card1 == dealt[n - 2] && last.card2 == dealt[n - 1];
      assert dealt == shorter + [dealt[n - 2], dealt[n - 1]];
    }
  }

  /** The number of reported rounds won by `w` (Neither: the number of ties). */
  function Wins(reports: seq<RoundReport>, w: Winner): nat {
    if reports == [] then 0
    else Wins(reports[..|reports| - 1], w) + (if reports[|reports| - 1].winner == w then 1 else 0)
  }

  /** One report per pair of dealt cards. */
  lemma {:induction false} ReportsCount(dealt: seq<Card>, start: Score, deckSize: nat)
    requires |dealt| <= deckSize
    ensures |ReportsAfter(dealt, start, deckSize)| == |dealt| / 2
    decreases |dealt|
  {
    var n := |dealt|;
    if n >= 2 {
      if n % 2 == 1 {
        ReportsCount(dealt[..n - 1], start, deckSize);
      } else {
        ReportsCount(dealt[..n - 2], start, deckSize);
      }
    }
  }

  /** Report `j` describes round `j`: the cards dealt at positions 2j and 2j+1,
      the winner by face, the score after j+1 rounds, and the cards then left. */
  lemma {:induction false} ReportAt(dealt: seq<Card>, start: Score, deckSize: nat, j: nat)
    requires |dealt| <= deckSize
    requires j < |dealt| / 2
    ensures |ReportsAfter(dealt, start, deckSize)| == |dealt| / 2
    ensures var s := ScoreAfter(dealt[..2 * j + 2], start);
      ReportsAfter(dealt, start, deckSize)[j] ==
        RoundReport(dealt[2 * j], dealt[2 * j + 1], RoundWinner(dealt[2 * j], dealt[2 * j + 1]),
                    s.points1, s.points2, deckSize - 2 * j - 2)
    decreases |dealt|
  {
    ReportsCount(dealt, start, deckSize);
    var n := |dealt|;
    if n % 2 == 1 {
      var shorter := dealt[..n - 1];
      ReportAt(shorter, start, deckSize, j);
      assert shorter[..2 * j + 2] == dealt[..2 * j + 2];
    } else {
      var shorter := dealt[..n - 2];
      ReportsCount(shorter, start, deckSize);
      var reports := ReportsAfter(shorter, start, deckSize);
      assert ReportsAfter(dealt, start, deckSize) == reports + [ReportsAfter(dealt, start, deckSize)[n / 2 - 1]];
      if j < n / 2 - 1 {
        ReportAt(shorter, start, deckSize, j);
        assert shorter[..2 * j + 2] == dealt[..2 * j + 2];
      } else {
        assert dealt[..2 * j + 2] == dealt;
      }
    }
  }

  /** The round rule, report by report: the round's winner gains exactly one
      point, the loser none, and a round of equal faces changes no score. */
  lemma RoundStep(dealt: seq<Card>, start: Score, deckSize: nat, j: nat)
    requires |dealt| <= deckSize
    requires j < |dealt| / 2
    ensures |ReportsAfter(dealt, start, deckSize)| == |dealt| / 2
    ensures var reports := ReportsAfter(dealt, start, deckSize);
      var before := if j == 0 then start else Score(reports[j - 1].points1, reports[j - 1].points2);
      && (reports[j].winner == Player1 <==> reports[j].card1.face > reports[j].card2.face)
      && (reports[j].winner == Player2 <==> reports[j].card2.face > reports[j].card1.face)
      && reports[j].points1 == before.points1 + (if reports[j].winner == Player1 then 1 else 0)
      && reports[j].points2 == before.points2 + (if reports[j].winner == Player2 then 1 else 0)
  {
    ReportAt(dealt, start, deckSize, j);
    var prefix := dealt[..2 * j + 2];
    assert prefix[..2 * j] == dealt[..2 * j];
    if j > 0 {
      ReportAt(dealt, start, deckSize, j - 1);
    }
  }

  /** The scores shown before report `j`: the previous report's, or `start` for the first. */
  function ScoreBefore(reports: seq<RoundReport>, j: nat, start: Score): Score
    requires j <= |reports|
  {
    if j == 0 then start else Score(reports[j - 1].points1, reports[j - 1].points2)
  }

  /** The round rule holds for every report: each names the winner of its own
      two cards, and its scores are the previous report's (or the starting
      score) with that winner awarded one point. */
  lemma RoundsFollowRule(dealt: seq<Card>, start: Score, deckSize: nat)
    requires |dealt| <= deckSize
    ensures var reports := ReportsAfter(dealt, start, deckSize);
      forall j :: 0 <= j < |reports| ==>
        && reports[j].winner == RoundWinner(reports[j].card1, reports[j].card2)
        && Score(reports[j].points1, reports[j].points2) == Award(reports[j].winner, ScoreBefore(reports, j, start))
  {
    ReportsCount(dealt, start, deckSize);
    var reports := ReportsAfter(dealt, start, deckSize);
    forall j | 0 <= j < |reports|
      ensures reports[j].winner == RoundWinner(reports[j].card1, reports[j].card2)
      ensures Score(reports[j].points1, reports[j].points2) == Award(reports[j].winner, ScoreBefore(reports, j, start))
    {
      RoundStep(dealt, start, deckSize, j);
    }
  }

  /** Dealing one more pair after a whole number of rounds plays one more round:
      its winner is awarded a point and one report is added. */
  lemma PairStep(dealt: seq<Card>, card1: Card, card2: Card, start: Score, deckSize: nat)
    requires |dealt| % 2 == 0
    requires |dealt| + 2 <= deckSize
    ensures ScoreAfter(dealt + [card1, card2], start) == Award(RoundWinner(card1, card2), ScoreAfter(dealt, start))
    ensures var s := ScoreAfter(dealt + [card1, card2], start);
      ReportsAfter(dealt + [card1, card2], start, deckSize) ==
        ReportsAfter(dealt, start, deckSize)
          + [RoundReport(card1, card2, RoundWinner(card1, card2), s.points1, s.points2,
                         deckSize - |dealt| - 2)]
  {
    assert (dealt + [card1, card2])[..|dealt|] == dealt;
  }

  /** A trailing card dealt without a partner changes neither score nor reports. */
  lemma LoneStep(dealt: seq<Card>, card: Card, start: Score, deckSize: nat)
    requires |dealt| % 2 == 0
    requires |dealt| + 1 <= deckSize
    ensures ScoreAfter(dealt + [card], start) == ScoreAfter(dealt, start)
    ensures ReportsAfter(dealt + [card], start, deckSize) == ReportsAfter(dealt, start, deckSize)
  {
    assert (dealt + [card])[..|dealt|] == dealt;
  }

  /** Every reported round is won by player 1, won by player 2, or tied. */
  lemma {:induction false} WinsPartition(reports: seq<RoundReport>)
    ensures Wins(reports, Player1) + Wins(reports, Player2) + Wins(reports, Neither) == |reports|
  {
    if reports != [] {
      WinsPartition(reports[..|reports| - 1]);
    }
  }

  /** Each player's score is the starting score plus the number of reported
      rounds that player won. */
  lemma {:induction false} ScoreIsTally(dealt: seq<Card>, start: Score, deckSize: nat)
    requires |dealt| <= deckSize
    ensures var reports := ReportsAfter(dealt, start, deckSize);
      ScoreAfter(dealt, start) ==
        Score(start.points1 + Wins(reports, Player1), start.points2 + Wins(reports, Player2))
    decreases |dealt|
  {
    var n := |dealt|;
    if n >= 2 {
      if n % 2 == 1 {
        ScoreIsTally(dealt[..n - 1], start, deckSize);
      } else {
        var shorter := dealt[..n - 2];
        ScoreIsTally(shorter, start, deckSize);
        var reports := ReportsAfter(dealt, start, deckSize);
        assert reports[..|reports| - 1] == ReportsAfter(shorter, start, deckSize);
      }
    }
  }

  /** Scores never go down, and all rounds together award at most one point per
      pair of dealt cards. */
  lemma ScoreBounds(dealt: seq<Card>, start: Score)
    ensures var s := ScoreAfter(dealt, start);
      && s.points1 >= start.points1
      && s.points2 >= start.points2
      && (s.points1 - start.points1) + (s.points2 - start.points2) <= |dealt| / 2
  {
    ScoreIsTally(dealt, start, |dealt|);
    ReportsCount(dealt, start, |dealt|);
    WinsPartition(ReportsAfter(dealt, start, |dealt|));
  }

  class Game {
    const dealer: Dealer
    const player1: Player
    const player2: Player

    ghost predicate Valid()
      reads this, dealer, dealer.deck
    {
      dealer.Valid() && player1 != player2
    }

    /** A game with a fresh dealer, deck and two players, named in that order. */
    constructor (dealerName: string, player1Name: string, player2Name: string)
      ensures Valid()
      ensures fresh(dealer) && fresh(dealer.deck) && fresh(player1) && fresh(player2)
      ensures dealer.name == dealerName && player1.name == player1Name && player2.name == player2Name
      ensures player1.points == 0 && player2.points == 0
      ensures dealer.deck.cards == FullDeck() && dealer.deck.drawn == []
    {
      dealer := new Dealer(dealerName);
      player1 := new Player(player1Name);
      player2 := new Player(player2Name);
    }

    /** One pass of the game loop: deals a card to player 1, then one to
        player 2. When both received a card, the player with the strictly
        higher face is awarded one point and the round is reported; when
        either got none, nothing is scored or reported. `pair` is what the
        deck gave out, in order. */
    method PlayRound() returns (report: Option<RoundReport>, ghost pair: seq<Card>)
      requires Valid()
      modifies dealer.deck, player1, player2
      ensures Valid()
      ensures dealer.deck.drawn == old(dealer.deck.drawn) + pair
      ensures multiset(pair) + multiset(dealer.deck.cards) == multiset(old(dealer.deck.cards))
      ensures |pair| + |dealer.deck.cards| == |old(dealer.deck.cards)|
      ensures |pair| <= 2
      ensures old(dealer.deck.cards) != [] ==> |pair| >= 1
      ensures |pair| == 2 ==>
        var winner := RoundWinner(pair[0], pair[1]);
        && Score(player1.points, player2.points) == Award(winner, Score(old(player1.points), old(player2.points)))
        && report == Some(RoundReport(pair[0], pair[1], winner, player1.points, player2.points,
                                      |dealer.deck.cards|))
      ensures |pair| < 2 ==>
        && report == None
        && dealer.deck.cards == []
        && player1.points == old(player1.points) && player2.points == old(player2.points)
    {
      var card1, card2;
      ghost var index1, index2;
      card1, index1 := dealer.DealACard();
      card2, index2 := dealer.DealACard();
      report := None;
      if card1.Some? && card2.Some? {
        pair := [card1.value, card2.value];
        var scored := ScoreRound(card1.value, card2.value);
        report := Some(scored);
      } else if card1.Some? {
        pair := [card1.value];
      } else {
        pair := [];
      }
    }

    /** Scores a round in which both players received a card: the player with
        the strictly higher face is awarded one point, and the round is
        reported with the scores after it and the cards left in the deck. */
    method ScoreRound(card1: Card, card2: Card) returns (report: RoundReport)
      requires player1 != player2
      modifies player1, player2
      ensures Score(player1.points, player2.points)
        == Award(RoundWinner(card1, card2), Score(old(player1.points), old(player2.points)))
      ensures report == RoundReport(card1, card2, RoundWinner(card1, card2),
                                    player1.points, player2.points, |dealer.deck.cards|)
    {
      var winner := RoundWinner(card1, card2);
      if winner == Player1 {
        player1.AwardPoints(1);
      } else if winner == Player2 {
        player2.AwardPoints(1);
      }
      report := RoundReport(card1, card2, winner, player1.points, player2.points, dealer.NumCardsRemaining());
    }

    /** Plays rounds while the deck has cards, then reports the final scores and
        the game's winner. `dealt` is the order in which the cards came out of
        the deck; the reports and scores are those the round rule gives for it. */
    method PlayWar() returns (rounds: seq<RoundReport>, outcome: FinalReport, ghost dealt: seq<Card>)
      requires Valid()
      modifies dealer.deck, player1, player2
      ensures Valid()
      ensures dealer.deck.cards == []
      ensures dealer.deck.drawn == old(dealer.deck.drawn) + dealt
      ensures multiset(dealt) == multiset(old(dealer.deck.cards))
      ensures |dealt| == |old(dealer.deck.cards)|
      ensures var start := Score(old(player1.points), old(player2.points));
        && Score(player1.points, player2.points) == ScoreAfter(dealt, start)
        && rounds == ReportsAfter(dealt, start, |old(dealer.deck.cards)|)
      ensures outcome == FinalReport(player1.points, player2.points, GameWinner(player1.points, player2.points))
    {
      var start := Score(player1.points, player2.points);
      ghost var deckSize := |dealer.deck.cards|;
      ghost var drawnBefore := dealer.deck.drawn;
      ghost var cardsBefore := dealer.deck.cards;
      rounds, dealt := [], [];
      while dealer.NumCardsRemaining() > 0
        invariant Valid()
        invariant dealer.deck.drawn == drawnBefore + dealt
        invariant |dealt| + |dealer.deck.cards| == deckSize
        invariant |dealt| % 2 == 0 || dealer.deck.cards == []
        invariant Score(player1.points, player2.points) == ScoreAfter(dealt, start)
        invariant rounds == ReportsAfter(dealt, start, deckSize)
        decreases |dealer.deck.cards|
      {
        var report;
        ghost var pair;
        report, pair := PlayRound();
        if report.Some? {
          rounds := rounds + [report.value];
        }
        assert Score(player1.points, player2.points) == ScoreAfter(dealt + pair, start)
            && rounds == ReportsAfter(dealt + pair, start, deckSize) by {
          if |pair| == 2 {
            PairStep(dealt, pair[0], pair[1], start, deckSize);
            assert pair == [pair[0], pair[1]];
          } else {
            LoneStep(dealt, pair[0], start, deckSize);
            assert pair == [pair[0]];
          }
        }
        dealt := dealt + pair;
      }
      assert multiset(dealt) == multiset(cardsBefore) by {
        assert multiset(drawnBefore + dealt) == multiset(drawnBefore) + multiset(dealt);
        FullCancel(multiset(drawnBefore), multiset(dealt), multiset(cardsBefore));
      }
      outcome := FinalReport(player1.points, player2.points, GameWinner(player1.points, player2.points));
    }
  }

  /** A game started with three names, played to the end: a fresh 52-card deck
      gives exactly 26 reported rounds, with 50, 48, ..., 0 cards left after
      them; each report names the winner of its own two cards and adds that
      winner's point to the previous scores; the reports show all 52 cards, each
      once; each final score counts the rounds that player won, the two add up
      to at most 26, and the winner is the player with strictly more points. */
  method PlayNewGame(dealerName: string, player1Name: string, player2Name: string)
    returns (rounds: seq<RoundReport>, outcome: FinalReport)
    ensures |rounds| == 26
    ensures forall j :: 0 <= j < |rounds| ==> rounds[j].remaining == 50 - 2 * j
    ensures outcome.points1 == Wins(rounds, Player1) && outcome.points2 == Wins(rounds, Player2)
    ensures outcome.points1 + outcome.points2 + Wins(rounds, Neither) == 26
    ensures outcome.winner == GameWinner(outcome.points1, outcome.points2)
    ensures forall j :: 0 <= j < |rounds| ==>
      rounds[j].winner == RoundWinner(rounds[j].card1, rounds[j].card2)
    ensures forall j :: 0 <= j < |rounds| ==>
      Score(rounds[j].points1, rounds[j].points2) == Award(rounds[j].winner, ScoreBefore(rounds, j, Score(0, 0)))
    ensures IsFull(multiset(ReportedCards(rounds)))
    ensures Distinct(ReportedCards(rounds))
  {
    var game := new Game(dealerName, player1Name, player2Name);
    ghost var dealt;
    rounds, outcome, dealt := game.PlayWar();
    assert |dealt| == 52 && IsFull(multiset(dealt)) by {
      FullDeckExactlyOnce();
      assert |multiset(dealt)| == |multiset(FullDeck())|;
    }
    assert Distinct(dealt) by {
      AtMostOnceIsDistinct(dealt);
    }
    ReportsShowDealt(dealt, Score(0, 0), 52);
    ReportsCount(dealt, Score(0, 0), 52);
    ScoreIsTally(dealt, Score(0, 0), 52);
    WinsPartition(rounds);
    RoundsFollowRule(dealt, Score(0, 0), 52);
    forall j | 0 <= j < |rounds|
      ensures rounds[j].remaining == 50 - 2 * j
    {
      ReportAt(dealt, Score(0, 0), 52, j);
    }
  }
}

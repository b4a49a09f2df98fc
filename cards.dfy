/**
 * Playing cards and the 52-card deck of the blackjack engine.
 *
 * A deck is built in the order of the Cartesian product of ranks and suits,
 * dealt by advancing a counter, and shuffled by an arbitrary permutation.
 */
module Cards {
  import opened Wrappers

  /** The exceptions the blackjack engine raises. */
  datatype Exception = ValueError(message: string) | IndexError | AttributeError

  /** A card: its rank name ("2".."10", "J", "Q", "K", "A") and its suit symbol. */
  datatype Card = Card(name: string, suit: string)

  const RANKS: seq<string> := ["2", "3", "4", "5", "6", "7", "8", "9", "10", "J", "Q", "K", "A"]
  const SUITS: seq<string> := ["♥", "♦", "♣", "♠"]
  const DECK_SIZE := 52

  /** `str(card)`: the rank name immediately followed by the suit. */
  function Show(c: Card): (s: string)
    ensures |s| == |c.name| + |c.suit|
    ensures s[..|c.name|] == c.name && s[|c.name|..] == c.suit
  {
    c.name + c.suit
  }

  /** Every suit symbol is one character, so the printed form of a card determines the card. */
  lemma ShowDetermines(c: Card, d: Card)
    requires c.suit in SUITS && d.suit in SUITS
    requires Show(c) == Show(d)
    ensures c == d
  {
    var s := Show(c);
    assert |c.suit| == 1 && |d.suit| == 1;
    assert c.name == s[..|s| - 1];
    assert d.name == s[..|s| - 1];
    assert c.suit == s[|s| - 1..] == d.suit;
  }

  /** The four cards of one rank, in suit order. */
  function RankRow(name: string): seq<Card>
  {
    [Card(name, SUITS[0]), Card(name, SUITS[1]), Card(name, SUITS[2]), Card(name, SUITS[3])]
  }

  /** `product(names, SUITS)`: rank-major, then suit. */
  function Product(names: seq<string>): seq<Card>
  {
    if names == [] then [] else RankRow(names[0]) + Product(names[1..])
  }

  /** Position i of the product holds rank `names[i / 4]` in suit `SUITS[i % 4]`. */
  lemma {:induction false} ProductIndex(names: seq<string>)
    ensures |Product(names)| == 4 * |names|
    ensures forall i :: 0 <= i < 4 * |names| ==> Product(names)[i] == Card(names[i / 4], SUITS[i % 4])
  {
    if names != [] {
      ProductIndex(names[1..]);
      var p := Product(names);
      forall i | 0 <= i < 4 * |names| ensures p[i] == Card(names[i / 4], SUITS[i % 4]) {
        if i >= 4 {
          assert p[i] == Product(names[1..])[i - 4];
          assert (i - 4) / 4 == i / 4 - 1 && (i - 4) % 4 == i % 4;
        }
      }
    }
  }

  /** A fresh deck: position i holds rank `RANKS[i / 4]` in suit `SUITS[i % 4]`. */
  function FreshCards(): (cards: seq<Card>)
    ensures |cards| == DECK_SIZE
  {
    seq(DECK_SIZE, i requires 0 <= i < DECK_SIZE => Card(RANKS[i / 4], SUITS[i % 4]))
  }

  /** The fresh deck is exactly `product(RANKS, SUITS)`: rank-major, then suit. */
  lemma FreshCardsIsProduct()
    ensures FreshCards() == Product(RANKS)
  {
    ProductIndex(RANKS);
  }

  /** Every card carries one of the 13 rank names. */
  predicate Ranked(cards: seq<Card>)
  {
    forall c :: c in cards ==> c.name in RANKS
  }

  /** Every card of a fresh deck carries one of the 13 rank names. */
  lemma FreshCardsRanked()
    ensures Ranked(FreshCards())
  {
    var cards := FreshCards();
    forall c | c in cards ensures c.name in RANKS {
      var i :| 0 <= i < |cards| && cards[i] == c;
      assert c.name == RANKS[i / 4];
    }
  }

  /** A shuffle keeps every card, so it keeps the deck ranked. */
  lemma RankedPermutation(a: seq<Card>, b: seq<Card>)
    requires multiset(a) == multiset(b) && Ranked(a)
    ensures Ranked(b)
  {
    forall c | c in b ensures c.name in RANKS {
      assert c in multiset(b);
      assert c in multiset(a);
    }
  }

  /** The 52 cards of a fresh deck are pairwise distinct. */
  lemma FreshCardsDistinct()
    ensures forall i, j :: 0 <= i < j < DECK_SIZE ==> FreshCards()[i] != FreshCards()[j]
  {
    forall i, j | 0 <= i < j < DECK_SIZE ensures FreshCards()[i] != FreshCards()[j] {
      PositionsDiffer(i, j);
    }
  }

  /** Two distinct product positions differ in rank index or in suit index. */
  lemma PositionsDiffer(i: int, j: int)
    requires 0 <= i < j < DECK_SIZE
    ensures Card(RANKS[i / 4], SUITS[i % 4]) != Card(RANKS[j / 4], SUITS[j % 4])
  {
    if i / 4 == j / 4 {
      SuitsDiffer(i % 4, j % 4);
    } else {
      RanksDiffer(i / 4, j / 4);
    }
  }

  /** Distinct rank indices name distinct ranks: every rank is told apart by length or first character. */
  lemma RanksDiffer(a: int, b: int)
    requires 0 <= a < |RANKS| && 0 <= b < |RANKS| && a != b
    ensures RANKS[a] != RANKS[b]
  {
    if |RANKS[a]| == |RANKS[b]| {
      assert RANKS[a][0] != RANKS[b][0];
    }
  }

  /** Distinct suit indices name distinct suit symbols. */
  lemma SuitsDiffer(a: int, b: int)
    requires 0 <= a < 4 && 0 <= b < 4 && a != b
    ensures SUITS[a] != SUITS[b]
  {
    assert SUITS[a][0] != SUITS[b][0];
  }

  /** The deck: the card sequence and the number of cards dealt so far. */
  class Deck {
    var cards: seq<Card>
    var count: nat

    /** Holds 52 cards. */
    ghost predicate Valid()
      reads this
    {
      |cards| == DECK_SIZE
    }

    constructor ()
      ensures Valid() && count == 0 && Ranked(cards)
      ensures cards == FreshCards()
    {
      cards := FreshCards();
      count := 0;
      FreshCardsRanked();
    }

    /**
     * Shuffles the cards by an arbitrary permutation (the source draws it at
     * random) and resets the dealt-card counter.
     */
    method Shuffle()
      modifies this
      ensures multiset(cards) == multiset(old(cards)) && |cards| == |old(cards)|
      ensures count == 0
    {
      var shuffled :| multiset(shuffled) == multiset(cards);
      cards := shuffled;
      count := 0;
    }

    /**
     * Deals the next card. The counter is advanced first; past the last card
     * the lookup raises IndexError.
     */
    method GetCard() returns (r: Result<Card, Exception>)
      modifies this`count
      ensures count == old(count) + 1
      ensures old(count) < |cards| ==> r == Ok(cards[old(count)])
      ensures old(count) >= |cards| ==> r == Err(IndexError)
    {
      count := count + 1;
      if count - 1 < |cards| {
        r := Ok(cards[count - 1]);
      } else {
        r := Err(IndexError);
      }
    }
  }
}

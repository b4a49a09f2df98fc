/**
 * Blackjack participants: bots that follow a strategy and the dealer, with
 * hand scoring where an ace counts 11 when that does not bust the hand.
 */
module Players {
  import opened Wrappers
  import opened Cards
  import opened Strategies

  const DEFAULT_CHIPS := 1000
  /** The dealer's bankroll, the largest signed 64-bit integer. */
  const DEALER_CHIPS := 0x7FFF_FFFF_FFFF_FFFF

  /** Points of a rank in the hard total: A is 1, K, Q, J and 10 are 10, 2..9 their face value. */
  function Points(name: string): int
    requires name in RANKS
  {
    if name == "A" then 1
    else if name in ["K", "Q", "J", "10"] then 10
    else (name[0] as int) - ('0' as int)
  }

  /** By rank index: ranks 2..9 are worth 2..9, the four ten-valued ranks 10, the ace 1. */
  lemma PointsOfRank(i: int)
    requires 0 <= i < |RANKS|
    ensures Points(RANKS[i]) == if i < 8 then i + 2 else if i < 12 then 10 else 1
  {
    var name := RANKS[i];
    if i < 8 {
      assert |name| == 1 && name[0] as int == '2' as int + i;
      assert name != "A";
      assert name !in ["K", "Q", "J", "10"] by {
        assert forall n :: n in ["K", "Q", "J", "10"] ==> n[0] != name[0];
      }
    } else if i < 12 {
      assert name == ["10", "J", "Q", "K"][i - 8];
    }
  }

  /** The hard total: every ace counted as 1. */
  function HardTotal(hand: seq<Card>): int
    requires Ranked(hand)
  {
    if hand == [] then 0 else HardTotal(hand[..|hand| - 1]) + Points(hand[|hand| - 1].name)
  }

  predicate HasAce(hand: seq<Card>)
  {
    exists i :: 0 <= i < |hand| && hand[i].name == "A"
  }

  /** The hand value: the hard total, plus 10 when an ace is held and the hard total is at most 11. */
  function Score(hand: seq<Card>): int
    requires Ranked(hand)
  {
    if hand == [] then 0
    else if HasAce(hand) && HardTotal(hand) <= 11 then HardTotal(hand) + 10
    else HardTotal(hand)
  }

  /** Every card adds 1..10 points, so the hard total lies between the card count and ten times it. */
  lemma {:induction false} HardTotalBounds(hand: seq<Card>)
    requires Ranked(hand)
    ensures |hand| <= HardTotal(hand) <= 10 * |hand|
  {
    if hand != [] {
      var last := hand[|hand| - 1];
      assert last in hand;
      var i :| 0 <= i < |RANKS| && RANKS[i] == last.name;
      PointsOfRank(i);
      HardTotalBounds(hand[..|hand| - 1]);
    }
  }

  /**
   * The ace bonus never busts a hand: the score lies between the hard total
   * and the hard total plus 10, and when the bonus applies the score is at most 21.
   */
  lemma ScoreBounds(hand: seq<Card>)
    requires Ranked(hand)
    ensures HardTotal(hand) <= Score(hand) <= HardTotal(hand) + 10
    ensures Score(hand) != HardTotal(hand) ==> HasAce(hand) && Score(hand) <= 21
    ensures hand == [] ==> Score(hand) == 0
  {
  }

  /** A two-card hand scores 21 exactly when it is an ace and a ten-valued card. */
  lemma NaturalBlackjack(a: Card, b: Card)
    requires a.name in RANKS && b.name in RANKS
    ensures Score([a, b]) == 21 <==> (a.name == "A" && Points(b.name) == 10) || (b.name == "A" && Points(a.name) == 10)
  {
    var ia :| 0 <= ia < |RANKS| && RANKS[ia] == a.name;
    var ib :| 0 <= ib < |RANKS| && RANKS[ib] == b.name;
    PointsOfRank(ia);
    PointsOfRank(ib);
    var h := [a, b];
    assert h[..1] == [a] && [a][..0] == [];
    assert HardTotal([a]) == Points(a.name);
    assert HardTotal(h) == HardTotal([a]) + Points(b.name);
    assert HasAce(h) <==> a.name == "A" || b.name == "A" by {
      if a.name == "A" { assert h[0].name == "A"; }
      if b.name == "A" { assert h[1].name == "A"; }
    }
  }

  /** One more card: the hard total grows by its points, and an ace is held iff it was or this card is one. */
  lemma PrefixStep(hand: seq<Card>, i: int)
    requires Ranked(hand) && 0 <= i < |hand|
    ensures hand[i].name in RANKS
    ensures HardTotal(hand[..i + 1]) == HardTotal(hand[..i]) + Points(hand[i].name)
    ensures HasAce(hand[..i + 1]) <==> HasAce(hand[..i]) || hand[i].name == "A"
  {
    var next := hand[..i + 1];
    assert next[..i] == hand[..i] && next[i] == hand[i];
    assert hand[i] in hand;
    if HasAce(hand[..i]) {
      var j :| 0 <= j < i && hand[..i][j].name == "A";
      assert next[j].name == "A";
    }
    if HasAce(next) {
      var j :| 0 <= j <= i && next[j].name == "A";
      assert j < i ==> hand[..i][j].name == "A";
    }
  }

  /** `calculate_score`'s loop: accumulate the hard total and remember whether an ace was seen. */
  method HandScore(hand: seq<Card>) returns (score: int)
    requires Ranked(hand)
    ensures score == Score(hand)
  {
    score := 0;
    var aceFlag := false;
    if |hand| > 0 {
      var i := 0;
      while i < |hand|
        invariant 0 <= i <= |hand|
        invariant score == HardTotal(hand[..i])
        invariant aceFlag <==> HasAce(hand[..i])
      {
        var card := hand[i];
        PrefixStep(hand, i);
        if card.name == "A" {
          score := score + 1;
          aceFlag := true;
        } else if card.name in ["K", "Q", "J", "10"] {
          score := score + 10;
        } else {
          score := score + (card.name[0] as int) - ('0' as int);
        }
        i := i + 1;
      }
      assert hand[..|hand|] == hand;
      if aceFlag && score <= 11 {
        score := score + 10;
      }
    }
  }

  /**
   * A participant. A bot asks its strategy; the dealer never does and keeps
   * its second card face down in `hideCard`.
   */
  class Player {
    const name: string
    var chips: int
    var hand: seq<Card>
    var score: int
    /** `isinstance(player, Bot)`. */
    const isBot: bool
    /** The bot's strategy; the dealer's is a placeholder it never consults. */
    var strategy: Strategy
    var hideCard: Option<Card>

    /** The hand and the hidden card hold cards of the 13 ranks. */
    ghost predicate RankedCards()
      reads this`hand, this`hideCard
    {
      Ranked(hand) && (hideCard.Some? ==> hideCard.value.name in RANKS)
    }

    /** A bot following `strategy`, with an empty hand. */
    constructor Bot(strategy: Strategy, name: string, chips: int)
      ensures isBot && this.strategy == strategy && this.name == name && this.chips == chips
      ensures hand == [] && score == 0 && hideCard == None
    {
      isBot := true;
      this.name := name;
      this.chips := chips;
      hand := [];
      score := 0;
      this.strategy := strategy;
      hideCard := None;
    }

    /** The dealer, named "Dealer", with the largest 64-bit bankroll and no hidden card. */
    constructor Dealer()
      ensures !isBot && name == "Dealer" && chips == DEALER_CHIPS
      ensures hand == [] && score == 0 && hideCard == None
    {
      isBot := false;
      name := "Dealer";
      chips := DEALER_CHIPS;
      hand := [];
      score := 0;
      strategy := new Strategy(Accurate);
      hideCard := None;
    }

    /** Adds a card at the end of the hand. */
    method GetCard(card: Card)
      modifies this`hand
      ensures hand == old(hand) + [card]
    {
      hand := hand + [card];
    }

    /** Recomputes `score` from the hand. */
    method CalculateScore()
      requires Ranked(hand)
      modifies this`score
      ensures score == Score(hand)
    {
      score := HandScore(hand);
    }

    /** The amount actually staked: the requested amount capped by the chips held; nothing changes. */
    method PlaceBet(amount: int) returns (bet: int)
      ensures bet <= amount && bet <= chips
      ensures bet == amount || bet == chips
    {
      bet := if amount < chips then amount else chips;
    }

    /** Adds a (possibly negative) settlement to the chips. */
    method SettleBet(amount: int)
      modifies this`chips
      ensures chips == old(chips) + amount
    {
      chips := chips + amount;
    }

    /** A bot asks its strategy about its current score; the dealer raises AttributeError. */
    function DecideHit(): (r: Result<bool, Exception>)
      reads this, strategy
      ensures isBot ==> r.Ok? && (r.value <==> score < HitThreshold(strategy.kind, strategy.count))
      ensures !isBot ==> r == Err(AttributeError)
    {
      if isBot then Ok(strategy.DecideHit(score)) else Err(AttributeError)
    }
  }
}

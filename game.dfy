/**
 * The blackjack game controller: seats up to six players, deals from one
 * deck with a reshuffle threshold, keeps the dealer's second card face down
 * until the dealer's turn, feeds every visible card to the card-counting
 * bots, and settles the bets by a fixed decision table.
 *
 * The class-level table of strategy objects is a `Registry` shared by all
 * games: every bot created for the name "counting" holds the same counting
 * strategy object, so with several such bots one count moves once per bot.
 */
module BlackJackGame {
  import opened Wrappers
  import opened Cards
  import opened Strategies
  import opened Players

  const MAX_PLAYERS := 6
  const DEALER_STAND_SCORE := 17
  const MAX_ROUND := 5
  const STOP_CARD := 32
  const MIN_BET := 10
  const MAX_BET := 100
  /** The ValueError text of a random draw from an empty range. */
  const EMPTY_RANGE := "empty range for randrange()"

  /** `str.lower` on ASCII letters; every other character is kept. */
  function LowerChar(c: char): char
  {
    if 'A' <= c <= 'Z' then (c as int + 32) as char else c
  }

  function Lower(s: string): (r: string)
    ensures |r| == |s|
    ensures forall i :: 0 <= i < |s| ==> !('A' <= r[i] <= 'Z')
    ensures forall i :: 0 <= i < |s| && !('A' <= s[i] <= 'Z') ==> r[i] == s[i]
  {
    seq(|s|, i requires 0 <= i < |s| => LowerChar(s[i]))
  }

  /** Lower-casing twice is lower-casing once. */
  lemma LowerIdempotent(s: string)
    ensures Lower(Lower(s)) == Lower(s)
  {
    assert forall i :: 0 <= i < |s| ==> Lower(Lower(s))[i] == Lower(s)[i];
  }

  /** The three shared strategy objects, looked up by case-insensitive name. */
  class Registry {
    const accurate: Strategy
    const aggressive: Strategy
    const counting: Strategy

    ghost predicate Valid()
    {
      accurate.kind == Accurate && aggressive.kind == Aggressive && counting.kind == Counting
    }

    constructor ()
      ensures Valid() && fresh(accurate) && fresh(aggressive) && fresh(counting)
      ensures counting.count == 0
    {
      accurate := new Strategy(Accurate);
      aggressive := new Strategy(Aggressive);
      counting := new Strategy(Counting);
    }

    /** `strategies.get(name.lower())`. */
    function Lookup(name: string): (r: Option<Strategy>)
      ensures r.Some? <==> Lower(name) in ["accurate", "aggressive", "counting"]
      ensures Valid() && r.Some? ==> Lower(name) == match r.value.kind
                                                   case Accurate => "accurate"
                                                   case Aggressive => "aggressive"
                                                   case Counting => "counting"
      ensures r.Some? ==> r.value in {accurate, aggressive, counting}
    {
      var key := Lower(name);
      if key == "accurate" then Some(accurate)
      else if key == "aggressive" then Some(aggressive)
      else if key == "counting" then Some(counting)
      else None
    }
  }

  /** Names that differ only in ASCII case find the same strategy object. */
  lemma LookupIgnoresCase(reg: Registry, a: string, b: string)
    requires Lower(a) == Lower(b)
    ensures reg.Lookup(a) == reg.Lookup(b)
  {
  }

  /** How one player's round ends, decided in the order the rules are checked. */
  datatype Outcome = Bust | DealerBust | Blackjack | Win | Push | Loss

  /** The settlement decision table. */
  function Settle(score: int, cards: nat, dealerScore: int, dealerCards: nat): Outcome
  {
    if score > 21 then Bust
    else if dealerScore > 21 then DealerBust
    else if cards == 2 && score == 21 && !(dealerCards == 2 && dealerScore == 21) then Blackjack
    else if score > dealerScore then Win
    else if score == dealerScore then Push
    else Loss
  }

  /** `int(bet * 1.5)`: three halves of the bet, truncated toward zero. */
  function BlackjackWinnings(bet: int): (w: int)
    ensures bet >= 0 ==> 2 * w <= 3 * bet < 2 * w + 2
    ensures bet < 0 ==> 2 * w - 2 < 3 * bet <= 2 * w
  {
    if bet >= 0 then 3 * bet / 2 else -((-3 * bet) / 2)
  }

  /** The chips a player gains (negative: loses) for an outcome. */
  function Winnings(outcome: Outcome, bet: int): int
  {
    match outcome
    case Bust => -bet
    case DealerBust => bet
    case Blackjack => BlackjackWinnings(bet)
    case Win => bet
    case Push => 0
    case Loss => -bet
  }

  /**
   * The settlement rules in plain words: a bust loses whatever the dealer has;
   * otherwise a dealer bust pays the bet; a two-card 21 pays three halves unless
   * the dealer also has a two-card 21; otherwise the higher score wins.
   */
  lemma SettleRules(score: int, cards: nat, dealerScore: int, dealerCards: nat, bet: int)
    ensures score > 21 ==> Winnings(Settle(score, cards, dealerScore, dealerCards), bet) == -bet
    ensures score <= 21 < dealerScore ==> Winnings(Settle(score, cards, dealerScore, dealerCards), bet) == bet
    ensures score <= 21 && dealerScore <= 21 && cards == 2 && score == 21 && !(dealerCards == 2 && dealerScore == 21)
      ==> Winnings(Settle(score, cards, dealerScore, dealerCards), bet) == BlackjackWinnings(bet)
    ensures score <= 21 && dealerScore <= 21 && !(cards == 2 && score == 21 && !(dealerCards == 2 && dealerScore == 21))
      ==> Winnings(Settle(score, cards, dealerScore, dealerCards), bet)
          == if score > dealerScore then bet else if score == dealerScore then 0 else -bet
  {
  }

  /** For a non-negative bet a player never loses more than the bet nor wins more than three halves of it. */
  lemma WinningsBounded(outcome: Outcome, bet: int)
    requires bet >= 0
    ensures -bet <= Winnings(outcome, bet) <= BlackjackWinnings(bet)
  {
  }

  /** Against the same dealer hand, a higher score that does not bust never pays less. */
  lemma SettleMonotone(s1: int, s2: int, cards: nat, dealerScore: int, dealerCards: nat, bet: int)
    requires bet >= 0 && s1 <= s2 <= 21
    ensures Winnings(Settle(s1, cards, dealerScore, dealerCards), bet) <= Winnings(Settle(s2, cards, dealerScore, dealerCards), bet)
  {
  }

  /** No player object appears twice. */
  ghost predicate Distinct(ps: seq<Player>)
  {
    forall i, j :: 0 <= i < j < |ps| ==> ps[i] != ps[j]
  }

  /** What the first `i` entries of `ss` add to the count of `s` when each entry adds `d` to its own. */
  function Gain(ss: seq<Strategy>, s: Strategy, i: nat, d: int): int
    requires i <= |ss|
  {
    if i == 0 then 0 else Gain(ss, s, i - 1, d) + (if ss[i - 1] == s then d else 0)
  }

  /**
   * The gain is the number of entries that are `s`, times `d`: a strategy
   * object shared by several counting bots moves once per bot.
   */
  lemma {:induction false} GainCounts(ss: seq<Strategy>, s: Strategy, i: nat, d: int)
    requires i <= |ss|
    ensures Gain(ss, s, i, d) == multiset(ss[..i])[s] * d
  {
    if i > 0 {
      GainCounts(ss, s, i - 1, d);
      var m := multiset(ss[..i - 1])[s];
      assert ss[..i] == ss[..i - 1] + [ss[i - 1]];
      if ss[i - 1] == s {
        assert multiset(ss[..i])[s] == m + 1;
        assert (m + 1) * d == m * d + d;
      } else {
        assert multiset(ss[..i])[s] == m;
      }
    }
  }

  /** The loop of `counting`: each strategy object in turn takes the card; one that is not a counting strategy (it has no `update_count`) raises AttributeError. */
  method CountAll(ss: seq<Strategy>, card: Card) returns (r: Result<(), Exception>)
    modifies ss`count
    ensures r.Err? <==> exists i :: 0 <= i < |ss| && ss[i].kind != Counting
    ensures r.Err? ==> r.error == AttributeError
    ensures r.Ok? ==> forall s :: s in ss ==> s.count == old(s.count) + Gain(ss, s, |ss|, HiLo(card.name))
  {
    var i := 0;
    while i < |ss|
      invariant 0 <= i <= |ss|
      invariant forall j :: 0 <= j < i ==> ss[j].kind == Counting
      invariant forall s :: s in ss ==> s.count == old(s.count) + Gain(ss, s, i, HiLo(card.name))
    {
      if ss[i].kind != Counting {
        return Err(AttributeError);
      }
      ss[i].UpdateCount(card);
      i := i + 1;
    }
    r := Ok(());
  }

  /** The strategy object of each player, in seating order. */
  function StrategiesOf(ps: seq<Player>): (ss: seq<Strategy>)
    reads ps`strategy
    ensures |ss| == |ps| && forall i :: 0 <= i < |ps| ==> ss[i] == ps[i].strategy
  {
    if ps == [] then [] else StrategiesOf(ps[..|ps| - 1]) + [ps[|ps| - 1].strategy]
  }

  /**
   * The bets table built by recording `amounts[j]` under the name of seat j,
   * seat by seat; a later seat overwrites an earlier one of the same name.
   */
  function Stakes(seats: seq<Player>, amounts: seq<int>): map<string, int>
    requires |amounts| <= |seats|
  {
    if amounts == [] then map[]
    else Stakes(seats, amounts[..|amounts| - 1])[seats[|amounts| - 1].name := amounts[|amounts| - 1]]
  }

  /** The table has a key for exactly the names of the seats that staked. */
  lemma {:induction false} StakesKeys(seats: seq<Player>, amounts: seq<int>)
    requires |amounts| <= |seats|
    ensures forall k :: k in Stakes(seats, amounts) <==> exists j :: 0 <= j < |amounts| && seats[j].name == k
  {
    if amounts != [] {
      StakesKeys(seats, amounts[..|amounts| - 1]);
    }
  }

  /** Under a name the table holds the stake of the last seat with that name. */
  lemma {:induction false} StakesLast(seats: seq<Player>, amounts: seq<int>, j: int)
    requires |amounts| <= |seats| && 0 <= j < |amounts|
    requires forall l :: j < l < |amounts| ==> seats[l].name != seats[j].name
    ensures seats[j].name in Stakes(seats, amounts) && Stakes(seats, amounts)[seats[j].name] == amounts[j]
  {
    var n := |amounts| - 1;
    if j < n {
      StakesLast(seats, amounts[..n], j);
    }
  }

  /** A run of dealt cards grows by the next card. */
  lemma SliceStep(cards: seq<Card>, lo: int, hi: int)
    requires 0 <= lo <= hi < |cards|
    ensures cards[lo..hi + 1] == cards[lo..hi] + [cards[hi]]
  {
  }

  /** The game state. */
  class Game {
    const registry: Registry
    const deck: Deck
    const dealer: Player
    var players: seq<Player>
    var countingPlayers: seq<Player>
    var bets: map<string, int>
    var gameOver: bool
    var roundCount: int

    /**
     * The state every round operation keeps: a full deck of ranked cards, the
     * dealer apart from at most six distinct players, counting bots among the
     * players, and only ranked cards in every hand.
     */
    ghost predicate Valid()
      reads this`players, this`countingPlayers, deck`cards, deck`count
      reads dealer`hand, dealer`hideCard, players`hand, players`hideCard
    {
      Seated() && DeckReady()
      && (forall j :: 0 <= j < |players| ==> players[j].RankedCards())
      && dealer.RankedCards()
    }

    /** Who sits at the table: the dealer apart from at most six distinct players, counters among them. */
    ghost predicate Seated()
      reads this`players, this`countingPlayers
    {
      !dealer.isBot && dealer !in players && Distinct(players) && |players| <= MAX_PLAYERS
      && forall c :: c in countingPlayers ==> c in players
    }

    /** A full deck of ranked cards, dealt no further than its end. */
    ghost predicate DeckReady()
      reads deck`cards, deck`count
    {
      |deck.cards| == DECK_SIZE && deck.count <= DECK_SIZE && Ranked(deck.cards)
    }

    /** The strategy objects of the counting bots. */
    ghost function CountingStrategies(): set<Strategy>
      reads this`countingPlayers, countingPlayers`strategy
    {
      set s | s in StrategiesOf(countingPlayers)
    }

    /** Some counting bot has since been given a strategy that is not a counting strategy. */
    ghost predicate CountingBroken()
      reads this`countingPlayers, countingPlayers`strategy
    {
      exists i :: 0 <= i < |countingPlayers| && countingPlayers[i].strategy.kind != Counting
    }

    /**
     * The table right after an opening deal that started at deck position
     * `c0`: player j holds the cards at `c0 + j` and `c0 + n + 1 + j`, the
     * dealer holds the card at `c0 + n` face up and the one at `c0 + 2n + 1`
     * face down.
     */
    ghost predicate Opened(c0: nat)
      reads this`players, this`countingPlayers, deck`cards, deck`count
      reads dealer`hand, dealer`hideCard, players`hand, players`hideCard
    {
      var n := |players|;
      Valid() && deck.count == c0 + 2 * n + 2
      && (forall j :: 0 <= j < n ==> players[j].hand == [deck.cards[c0 + j]] + [deck.cards[c0 + n + 1 + j]])
      && dealer.hand == [deck.cards[c0 + n]] && dealer.hideCard == Some(deck.cards[c0 + 2 * n + 1])
    }

    /** A new game over the shared strategy table: a fresh deck, no players, a new dealer. */
    constructor (registry: Registry)
      ensures this.registry == registry
      ensures fresh(deck) && deck.cards == FreshCards() && deck.count == 0
      ensures fresh(dealer) && dealer.name == "Dealer" && dealer.chips == DEALER_CHIPS
      ensures players == [] && countingPlayers == [] && bets == map[] && !gameOver && roundCount == 0
      ensures Valid()
    {
      this.registry := registry;
      deck := new Deck();
      dealer := new Player.Dealer();
      players := [];
      countingPlayers := [];
      bets := map[];
      gameOver := false;
      roundCount := 0;
    }

    /** Seats a player; a bot holding a counting strategy is also registered as a counter. */
    method AddPlayer(player: Player) returns (r: Result<(), Exception>)
      modifies this
      ensures |old(players)| >= MAX_PLAYERS ==>
        r == Err(ValueError("Maximum number of players: 6"))
        && players == old(players) && countingPlayers == old(countingPlayers)
      ensures |old(players)| < MAX_PLAYERS ==>
        r == Ok(()) && players == old(players) + [player]
        && countingPlayers == old(countingPlayers)
           + (if player.isBot && player.strategy.kind == Counting then [player] else [])
      ensures bets == old(bets) && gameOver == old(gameOver) && roundCount == old(roundCount)
      ensures (old(Valid()) && player !in old(players) && player != dealer
        && player.RankedCards()) ==> Valid()
    {
      if |players| >= MAX_PLAYERS {
        return Err(ValueError("Maximum number of players: 6"));
      }
      players := players + [player];
      if player.isBot && player.strategy.kind == Counting {
        countingPlayers := countingPlayers + [player];
      }
      r := Ok(());
    }

    /** A new bot for a case-insensitive strategy name, or ValueError for an unknown name. */
    method CreateBot(strategyName: string, botName: string, chips: int) returns (r: Result<Player, Exception>)
      ensures registry.Lookup(strategyName).None? ==> r == Err(ValueError("Unknown strategy: " + strategyName))
      ensures registry.Lookup(strategyName).Some? ==>
        r.Ok? && fresh(r.value)
        && r.value.strategy == registry.Lookup(strategyName).value
        && r.value.name == botName && r.value.chips == chips && r.value.hand == [] && r.value.score == 0
    {
      var strategy := registry.Lookup(strategyName);
      if strategy.Some? {
        var bot := new Player.Bot(strategy.value, botName, chips);
        return Ok(bot);
      }
      return Err(ValueError("Unknown strategy: " + strategyName));
    }

    /**
     * Feeds a card to every counting bot, in seating order. A bot whose
     * strategy is no longer a counting strategy (it has no `update_count`)
     * raises AttributeError.
     */
    method CountCard(card: Card) returns (r: Result<(), Exception>)
      modifies CountingStrategies()`count
      ensures r.Err? <==> CountingBroken()
      ensures r.Err? ==> r.error == AttributeError
      ensures r.Ok? ==> forall s :: s in CountingStrategies() ==> s.count == old(s.count) + Tally(s, HiLo(card.name))
    {
      r := CountAll(StrategiesOf(countingPlayers), card);
    }

    /** Shuffles the deck and resets the count of every counting bot's strategy. */
    method Shuffle()
      modifies deck, CountingStrategies()`count
      ensures multiset(deck.cards) == multiset(old(deck.cards)) && |deck.cards| == |old(deck.cards)|
      ensures deck.count == 0
      ensures forall s :: s in CountingStrategies() ==> s.count == 0
    {
      deck.Shuffle();
      var i := 0;
      while i < |countingPlayers|
        invariant 0 <= i <= |countingPlayers|
        invariant multiset(deck.cards) == multiset(old(deck.cards)) && |deck.cards| == |old(deck.cards)|
        invariant deck.count == 0
        invariant forall j :: 0 <= j < i ==> countingPlayers[j].strategy.count == 0
      {
        countingPlayers[i].strategy.count := 0;
        i := i + 1;
      }
    }

    /** Deals the next card to `p`, rescores it and counts the card. */
    method Hit(p: Player) returns (r: Result<(), Exception>)
      requires Ranked(deck.cards) && p.RankedCards()
      modifies deck`count, p`hand, p`score, CountingStrategies()`count
      ensures deck.count == old(deck.count) + 1
      ensures old(deck.count) >= |deck.cards| ==>
        r == Err(IndexError) && p.hand == old(p.hand) && p.score == old(p.score)
      ensures old(deck.count) < |deck.cards| ==>
        p.hand == old(p.hand) + [deck.cards[old(deck.count)]] && p.RankedCards()
        && (r.Err? <==> CountingBroken()) && (r.Err? ==> r.error == AttributeError)
      ensures r.Ok? ==> forall s :: s in CountingStrategies() ==>
        s.count == old(s.count) + Tally(s, HiLo(deck.cards[old(deck.count)].name))
    {
      var card := deck.GetCard();
      if card.Err? {
        return Err(card.error);
      }
      assert card.value in deck.cards;
      p.GetCard(card.value);
      p.CalculateScore();
      r := CountCard(card.value);
    }

    /** Empties every hand and zeroes every score, the dealer's included; the hidden card is kept. */
    method ClearHands()
      requires Valid()
      modifies players`hand, players`score, dealer`hand, dealer`score
      ensures forall j :: 0 <= j < |players| ==> players[j].hand == [] && players[j].score == 0
      ensures dealer.hand == [] && dealer.score == 0
      ensures Valid()
    {
      var i := 0;
      while i < |players|
        invariant 0 <= i <= |players|
        invariant forall j :: 0 <= j < i ==> players[j].hand == [] && players[j].score == 0
        invariant dealer.hand == old(dealer.hand) && dealer.score == old(dealer.score)
      {
        players[i].hand := [];
        players[i].score := 0;
        i := i + 1;
      }
      dealer.hand := [];
      dealer.score := 0;
    }

    /** One card to each player in seating order; every card is counted. */
    method DealPlayers() returns (r: Result<(), Exception>)
      requires Valid()
      modifies deck`count, players`hand, players`score, CountingStrategies()`count
      ensures r.Ok? <==> old(deck.count) + |players| <= DECK_SIZE && (|players| == 0 || !CountingBroken())
      ensures r.Err? && old(deck.count) + |players| <= DECK_SIZE ==> r.error == AttributeError
      ensures r.Ok? ==>
        deck.count == old(deck.count) + |players| && Valid()
        && forall j :: 0 <= j < |players| ==> players[j].hand == old(players[j].hand) + [deck.cards[old(deck.count) + j]]
    {
      ghost var c0 := deck.count;
      var i := 0;
      while i < |players|
        invariant 0 <= i <= |players|
        invariant deck.count == c0 + i <= DECK_SIZE
        invariant i > 0 ==> !CountingBroken()
        invariant forall j :: 0 <= j < i ==> players[j].hand == old(players[j].hand) + [deck.cards[c0 + j]]
        invariant forall j :: i <= j < |players| ==> players[j].hand == old(players[j].hand)
        invariant Valid()
      {
        r := Hit(players[i]);
        if r.Err? {
          return;
        }
        i := i + 1;
      }
      r := Ok(());
    }

    /** What one card of weight `d` adds to the count of `s`: `d` once for every counting bot that holds `s`. */
    ghost function Tally(s: Strategy, d: int): int
      reads this`countingPlayers, countingPlayers`strategy
    {
      Gain(StrategiesOf(countingPlayers), s, |countingPlayers|, d)
    }

    /**
     * The dealer's card of one pass of the opening deal. On the first pass it
     * joins the hand and is counted; on the second it is kept face down,
     * uncounted. Either way the dealer is rescored.
     */
    method DealDealer(second: bool) returns (r: Result<(), Exception>)
      requires Valid()
      modifies deck`count, dealer`hand, dealer`score, dealer`hideCard, CountingStrategies()`count
      ensures deck.count == old(deck.count) + 1
      ensures old(deck.count) >= DECK_SIZE ==> r == Err(IndexError)
      ensures old(deck.count) < DECK_SIZE && second ==>
        r == Ok(()) && dealer.hand == old(dealer.hand) && dealer.hideCard == Some(deck.cards[old(deck.count)])
      ensures old(deck.count) < DECK_SIZE && !second ==>
        dealer.hand == old(dealer.hand) + [deck.cards[old(deck.count)]] && dealer.hideCard == old(dealer.hideCard)
        && (r.Err? <==> CountingBroken()) && (r.Err? ==> r.error == AttributeError)
      ensures r.Ok? ==> Valid() && dealer.score == Score(dealer.hand)
      ensures second || old(deck.count) >= DECK_SIZE ==> forall s :: s in CountingStrategies() ==> s.count == old(s.count)
      ensures r.Ok? && !second ==> forall s :: s in CountingStrategies() ==>
        s.count == old(s.count) + Tally(s, HiLo(deck.cards[old(deck.count)].name))
    {
      var card := deck.GetCard();
      if card.Err? {
        return Err(card.error);
      }
      assert card.value in deck.cards;
      if second {
        dealer.hideCard := Some(card.value);
      } else {
        dealer.GetCard(card.value);
        r := CountCard(card.value);
        if r.Err? {
          return;
        }
      }
      label counted:
      dealer.CalculateScore();
      assert CountingStrategies() == old@counted(CountingStrategies());
      r := Ok(());
    }

    /**
     * One pass of the opening deal: a card to each player in seating order,
     * then one for the dealer, face down on the second pass.
     */
    method DealPass(second: bool) returns (r: Result<(), Exception>)
      requires Valid() && deck.count + |players| < DECK_SIZE
      modifies deck`count, players`hand, players`score, dealer`hand, dealer`score, dealer`hideCard
      modifies CountingStrategies()`count
      ensures r.Err? <==> (|players| > 0 || !second) && CountingBroken()
      ensures r.Err? ==> r.error == AttributeError
      ensures r.Ok? ==>
        var c0 := old(deck.count);
        var n := |players|;
        Valid() && deck.count == c0 + n + 1
        && (forall j :: 0 <= j < n ==> players[j].hand == old(players[j].hand) + [deck.cards[c0 + j]])
        && (!second ==> dealer.hand == old(dealer.hand) + [deck.cards[c0 + n]] && dealer.hideCard == old(dealer.hideCard))
        && (second ==> dealer.hand == old(dealer.hand) && dealer.hideCard == Some(deck.cards[c0 + n]))
    {
      r := DealPlayers();
      if r.Err? {
        return;
      }
      r := DealDealer(second);
    }

    /**
     * The two passes of the opening deal onto empty hands. The deck is short
     * of its end, so no pass runs out of cards.
     */
    method DealOpening() returns (r: Result<(), Exception>)
      requires Valid() && deck.count < STOP_CARD
      requires forall j :: 0 <= j < |players| ==> players[j].hand == []
      requires dealer.hand == []
      modifies deck`count, players`hand, players`score, dealer`hand, dealer`score, dealer`hideCard
      modifies CountingStrategies()`count
      ensures r.Err? <==> CountingBroken()
      ensures r.Err? ==> r.error == AttributeError
      ensures r.Ok? ==> Opened(old(deck.count))
    {
      ghost var c0 := deck.count;
      ghost var n := |players|;
      r := DealPass(false);
      if r.Err? {
        return;
      }
      assert forall j :: 0 <= j < n ==> players[j].hand == [deck.cards[c0 + j]];
      assert dealer.hand == [deck.cards[c0 + n]];
      r := DealPass(true);
    }

    /**
     * Before the opening deal: a reshuffle, which also resets the counts,
     * once 32 or more cards are dealt; then every hand is emptied.
     */
    method PrepareRound()
      requires Valid()
      modifies deck, players`hand, players`score, dealer`hand, dealer`score, CountingStrategies()`count
      ensures multiset(deck.cards) == multiset(old(deck.cards))
      ensures old(deck.count) < STOP_CARD ==> deck.cards == old(deck.cards) && deck.count == old(deck.count)
      ensures old(deck.count) >= STOP_CARD ==> deck.count == 0 && forall s :: s in CountingStrategies() ==> s.count == 0
      ensures old(deck.count) < STOP_CARD ==> forall s :: s in CountingStrategies() ==> s.count == old(s.count)
      ensures Valid() && dealer.hand == [] && dealer.score == 0
      ensures forall j :: 0 <= j < |players| ==> players[j].hand == [] && players[j].score == 0
    {
      if deck.count >= STOP_CARD {
        Shuffle();
        RankedPermutation(old(deck.cards), deck.cards);
      }
      ClearHands();
    }

    /**
     * Opens a round: reshuffles once 32 or more cards are dealt, clears every
     * hand, deals the opening cards and marks the game as running.
     */
    method StartRound() returns (r: Result<(), Exception>)
      requires Valid()
      modifies deck, players`hand, players`score, dealer`hand, dealer`score, dealer`hideCard
      modifies CountingStrategies()`count, this`gameOver
      ensures multiset(deck.cards) == multiset(old(deck.cards))
      ensures old(deck.count) < STOP_CARD ==> deck.cards == old(deck.cards)
      ensures r.Err? <==> CountingBroken()
      ensures r.Err? ==> r.error == AttributeError
      ensures r.Ok? ==> !gameOver && Opened(if old(deck.count) >= STOP_CARD then 0 else old(deck.count))
    {
      PrepareRound();
      r := DealOpening();
      if r.Ok? {
        gameOver := false;
      }
    }

    /** The stake recorded for a player name; 0 when none was placed. */
    function BetOf(name: string): int
      reads this`bets
    {
      if name in bets then bets[name] else 0
    }

    /**
     * Every player in seating order stakes a random amount between 10 and the
     * smaller of 100 and its chips, recorded under its name. A player with
     * fewer than 10 chips leaves the draw an empty range, which raises
     * ValueError. `amounts` are the stakes drawn, seat by seat.
     */
    method PlaceBets() returns (r: Result<(), Exception>, ghost amounts: seq<int>)
      modifies this`bets
      ensures r.Err? <==> exists j :: 0 <= j < |players| && players[j].chips < MIN_BET
      ensures r.Err? ==> r == Err(ValueError(EMPTY_RANGE))
      ensures r.Ok? ==>
        |amounts| == |players| && bets == Stakes(players, amounts)
        && forall j :: 0 <= j < |players| ==> MIN_BET <= amounts[j] <= MAX_BET && amounts[j] <= players[j].chips
    {
      var table := map[];
      amounts := [];
      var i := 0;
      while i < |players|
        invariant 0 <= i <= |players| && |amounts| == i
        invariant forall j :: 0 <= j < i ==> players[j].chips >= MIN_BET
        invariant table == Stakes(players, amounts)
        invariant forall j :: 0 <= j < i ==> MIN_BET <= amounts[j] <= MAX_BET && amounts[j] <= players[j].chips
      {
        var player := players[i];
        var high := if MAX_BET < player.chips then MAX_BET else player.chips;
        if high < MIN_BET {
          bets := table;
          r := Err(ValueError(EMPTY_RANGE));
          assert 0 <= i < |players| && players[i].chips < MIN_BET;
          return;
        }
        var bet :| MIN_BET <= bet <= high;
        var amount := player.PlaceBet(bet);
        assert (amounts + [amount])[..i] == amounts;
        table := table[player.name := amount];
        amounts := amounts + [amount];
        i := i + 1;
      }
      bets := table;
      r := Ok(());
    }

    /**
     * A bot's turn: while its strategy asks for a card it is hit. The dealer
     * and every other non-bot take no turn, and nothing happens once the
     * game is over.
     */
    method PlayTurn(p: Player) returns (r: Result<(), Exception>)
      requires Valid() && p in players
      modifies deck`count, p`hand, p`score, CountingStrategies()`count
      ensures old(gameOver) || !p.isBot ==>
        r == Ok(()) && deck.count == old(deck.count) && p.hand == old(p.hand) && p.score == old(p.score)
      ensures r.Err? ==> r.error == IndexError || (r.error == AttributeError && CountingBroken())
      ensures r == Err(IndexError) ==> deck.count == DECK_SIZE + 1
      ensures r.Ok? ==>
        Valid() && old(deck.count) <= deck.count
        && p.hand == old(p.hand) + deck.cards[old(deck.count)..deck.count]
      ensures r.Ok? && !old(gameOver) && p.isBot ==> p.DecideHit() == Ok(false)
    {
      if gameOver || !p.isBot {
        return Ok(());
      }
      ghost var c0 := deck.count;
      while p.DecideHit().value
        invariant Valid() && c0 <= deck.count
        invariant p.hand == old(p.hand) + deck.cards[c0..deck.count]
        decreases DECK_SIZE - deck.count
      {
        r := Hit(p);
        if r.Err? {
          return;
        }
        SliceStep(deck.cards, c0, deck.count - 1);
      }
      r := Ok(());
    }

    /** The dealer's face-down card, if any, joins the hand, is counted, and the dealer is rescored. */
    method RevealHidden() returns (r: Result<(), Exception>)
      requires Valid()
      modifies dealer`hand, dealer`score, dealer`hideCard, CountingStrategies()`count
      ensures old(dealer.hideCard) == None ==> r == Ok(()) && dealer.hand == old(dealer.hand) && dealer.score == old(dealer.score)
      ensures old(dealer.hideCard).Some? ==>
        dealer.hand == old(dealer.hand) + [old(dealer.hideCard).value]
        && (r.Err? <==> CountingBroken()) && (r.Err? ==> r.error == AttributeError)
      ensures r.Ok? ==> Valid() && dealer.hideCard == None
      ensures r.Ok? && old(dealer.hideCard).Some? ==> dealer.score == Score(dealer.hand)
      ensures old(dealer.hideCard) == None ==> forall s :: s in CountingStrategies() ==> s.count == old(s.count)
      ensures r.Ok? && old(dealer.hideCard).Some? ==> forall s :: s in CountingStrategies() ==>
        s.count == old(s.count) + Tally(s, HiLo(old(dealer.hideCard).value.name))
    {
      r := Ok(());
      if dealer.hideCard.Some? {
        var hidden := dealer.hideCard.value;
        dealer.hand := dealer.hand + [hidden];
        r := CountCard(hidden);
        if r.Err? {
          return;
        }
        label counted:
        dealer.hideCard := None;
        dealer.CalculateScore();
        assert CountingStrategies() == old@counted(CountingStrategies());
        forall s | s in CountingStrategies() ensures s.count == old(s.count) + Tally(s, HiLo(hidden.name)) {
          assert Tally(s, HiLo(hidden.name)) == old@counted(Tally(s, HiLo(hidden.name)));
        }
      }
    }

    /** One draw of the dealer: the next card joins the hand and is counted, then the dealer is rescored. */
    method DealerDraw() returns (r: Result<(), Exception>)
      requires Valid()
      modifies deck`count, dealer`hand, dealer`score, CountingStrategies()`count
      ensures deck.count == old(deck.count) + 1
      ensures old(deck.count) >= DECK_SIZE ==> r == Err(IndexError)
      ensures old(deck.count) < DECK_SIZE ==>
        dealer.hand == old(dealer.hand) + [deck.cards[old(deck.count)]]
        && (r.Err? <==> CountingBroken()) && (r.Err? ==> r.error == AttributeError)
      ensures r.Ok? ==> Valid() && dealer.score == Score(dealer.hand)
      ensures old(deck.count) >= DECK_SIZE ==> forall s :: s in CountingStrategies() ==> s.count == old(s.count)
      ensures r.Ok? ==> forall s :: s in CountingStrategies() ==>
        s.count == old(s.count) + Tally(s, HiLo(deck.cards[old(deck.count)].name))
    {
      var card := deck.GetCard();
      if card.Err? {
        return Err(card.error);
      }
      assert card.value in deck.cards;
      dealer.GetCard(card.value);
      r := CountCard(card.value);
      if r.Err? {
        return;
      }
      label counted:
      dealer.CalculateScore();
      assert CountingStrategies() == old@counted(CountingStrategies());
      forall s | s in CountingStrategies() ensures s.count == old(s.count) + Tally(s, HiLo(card.value.name)) {
        assert Tally(s, HiLo(card.value.name)) == old@counted(Tally(s, HiLo(card.value.name)));
      }
    }

    /**
     * The dealer's state after drawing every card from deck position `c0` to
     * the current one onto the hand `h0` scored `s0`: the hand is rescored
     * once a card was drawn and untouched otherwise.
     */
    ghost predicate DrawnFrom(h0: seq<Card>, s0: int, c0: nat)
      reads this`players, this`countingPlayers, deck`cards, deck`count
      reads dealer`hand, dealer`hideCard, dealer`score, players`hand, players`hideCard
    {
      Valid() && c0 <= deck.count
      && dealer.hand == h0 + deck.cards[c0..deck.count]
      && (deck.count > c0 ==> dealer.score == Score(dealer.hand))
      && (deck.count == c0 ==> dealer.hand == h0 && dealer.score == s0)
    }

    /** The dealer draws while its score is below 17. */
    method DealerDraws() returns (r: Result<(), Exception>)
      requires Valid()
      modifies deck`count, dealer`hand, dealer`score, CountingStrategies()`count
      ensures r.Err? ==> r.error == IndexError || (r.error == AttributeError && CountingBroken())
      ensures r.Ok? ==> DrawnFrom(old(dealer.hand), old(dealer.score), old(deck.count)) && dealer.score >= DEALER_STAND_SCORE
    {
      ghost var c0 := deck.count;
      while dealer.score < DEALER_STAND_SCORE && dealer.score <= 21
        invariant DrawnFrom(old(dealer.hand), old(dealer.score), c0)
        decreases DECK_SIZE - deck.count
      {
        r := DealerDraw();
        if r.Err? {
          return;
        }
        SliceStep(deck.cards, c0, deck.count - 1);
      }
      r := Ok(());
    }

    /**
     * The dealer's turn: the face-down card is revealed, the dealer draws to
     * 17, and after the last round the game is over.
     */
    method PlayDealerTurn() returns (r: Result<(), Exception>)
      requires Valid()
      modifies deck`count, dealer`hand, dealer`score, dealer`hideCard, CountingStrategies()`count, this`gameOver
      ensures r.Err? ==> r.error == IndexError || (r.error == AttributeError && CountingBroken())
      ensures r.Ok? ==>
        Valid() && old(deck.count) <= deck.count && dealer.hideCard == None
        && dealer.hand == old(dealer.hand) + (if old(dealer.hideCard).Some? then [old(dealer.hideCard).value] else [])
                          + deck.cards[old(deck.count)..deck.count]
        && dealer.score >= DEALER_STAND_SCORE
        && (gameOver <==> old(gameOver) || roundCount == MAX_ROUND)
      ensures r.Ok? && (old(dealer.hideCard).Some? || deck.count > old(deck.count)) ==> dealer.score == Score(dealer.hand)
    {
      r := RevealHidden();
      if r.Err? {
        return;
      }
      r := DealerDraws();
      if r.Err? {
        return;
      }
      if MAX_ROUND == roundCount {
        gameOver := true;
      }
    }

    /**
     * Pays out every player in seating order against the dealer's final
     * hand, by the decision table, with the stake recorded under its name.
     */
    method SettleBets()
      requires Seated()
      modifies players`chips
      ensures forall j :: 0 <= j < |players| ==>
        players[j].chips == old(players[j].chips)
          + Winnings(Settle(players[j].score, |players[j].hand|, dealer.score, |dealer.hand|), BetOf(players[j].name))
    {
      var i := 0;
      while i < |players|
        invariant 0 <= i <= |players|
        invariant forall j :: 0 <= j < i ==>
          players[j].chips == old(players[j].chips)
            + Winnings(Settle(players[j].score, |players[j].hand|, dealer.score, |dealer.hand|), BetOf(players[j].name))
        invariant forall j :: i <= j < |players| ==> players[j].chips == old(players[j].chips)
      {
        var player := players[i];
        var bet := BetOf(player.name);
        var outcome := Settle(player.score, |player.hand|, dealer.score, |dealer.hand|);
        player.SettleBet(Winnings(outcome, bet));
        i := i + 1;
      }
    }

    /** The first seat in seating order that is a bot named `botName`. */
    ghost predicate FirstBotNamed(k: int, botName: string)
      reads this`players
    {
      0 <= k < |players| && players[k].isBot && players[k].name == botName
      && forall j :: 0 <= j < k ==> !(players[j].isBot && players[j].name == botName)
    }

    /**
     * Gives the first bot named `botName` the shared strategy for
     * `strategyName` (matched ignoring case). The list of counting bots is
     * left as it was.
     */
    method ChangeBotStrategy(botName: string, strategyName: string) returns (r: Result<(), Exception>)
      modifies players`strategy
      ensures (forall j :: 0 <= j < |players| ==> !(players[j].isBot && players[j].name == botName)) ==>
        r == Err(ValueError("The bot was not found: " + botName))
        && forall j :: 0 <= j < |players| ==> players[j].strategy == old(players[j].strategy)
      ensures forall k :: FirstBotNamed(k, botName) && registry.Lookup(strategyName).None? ==>
        r == Err(ValueError("Unknown strategy: " + strategyName))
        && forall j :: 0 <= j < |players| ==> players[j].strategy == old(players[j].strategy)
      ensures forall k :: FirstBotNamed(k, botName) && registry.Lookup(strategyName).Some? ==>
        r == Ok(()) && players[k].strategy == registry.Lookup(strategyName).value
        && forall j :: 0 <= j < |players| && players[j] != players[k] ==> players[j].strategy == old(players[j].strategy)
    {
      var i := 0;
      while i < |players|
        invariant 0 <= i <= |players|
        invariant forall j :: 0 <= j < i ==> !(players[j].isBot && players[j].name == botName)
      {
        var player := players[i];
        if player.name == botName && player.isBot {
          var strategy := registry.Lookup(strategyName);
          if strategy.Some? {
            player.strategy := strategy.value;
            return Ok(());
          }
          return Err(ValueError("Unknown strategy: " + strategyName));
        }
        i := i + 1;
      }
      return Err(ValueError("The bot was not found: " + botName));
    }

    /** Every player takes its turn, in seating order; the first failure ends the sequence. */
    method PlayTurns() returns (r: Result<(), Exception>)
      requires Valid()
      modifies deck`count, players`hand, players`score, CountingStrategies()`count
      ensures r.Err? ==> r.error == IndexError || (r.error == AttributeError && CountingBroken())
      ensures r.Ok? ==> Valid() && old(deck.count) <= deck.count
      ensures gameOver && r.Ok? ==> deck.count == old(deck.count)
    {
      var i := 0;
      while i < |players|
        invariant 0 <= i <= |players|
        invariant Valid() && old(deck.count) <= deck.count
        invariant gameOver ==> deck.count == old(deck.count)
      {
        r := PlayTurn(players[i]);
        if r.Err? {
          return;
        }
        i := i + 1;
      }
      r := Ok(());
    }

    /**
     * The cards of one round: the opening deal, every player's turn and the
     * dealer's turn.
     */
    method PlayHands() returns (r: Result<(), Exception>)
      requires Valid()
      modifies deck, players`hand, players`score, dealer`hand, dealer`score, dealer`hideCard
      modifies CountingStrategies()`count, this`gameOver
      ensures r.Err? ==> r.error == IndexError || r.error == AttributeError
      ensures r.Ok? ==>
        Valid() && dealer.hideCard == None && dealer.score >= DEALER_STAND_SCORE
        && (gameOver <==> roundCount == MAX_ROUND)
    {
      r := StartRound();
      if r.Err? {
        return;
      }
      r := PlayTurns();
      if r.Err? {
        return;
      }
      r := PlayDealerTurn();
    }

    /**
     * One full round: the round number advances, bets are placed, the cards
     * are played, and every player is paid out against the dealer.
     */
    method PlayRound() returns (r: Result<(), Exception>)
      requires Valid()
      modifies this`roundCount, this`bets, this`gameOver, deck, players`hand, players`score, players`chips
      modifies dealer`hand, dealer`score, dealer`hideCard, CountingStrategies()`count
      ensures roundCount == old(roundCount) + 1
      ensures r.Err? ==> r.error == ValueError(EMPTY_RANGE) || r.error == IndexError || r.error == AttributeError
      ensures r.Ok? ==>
        Valid() && dealer.score >= DEALER_STAND_SCORE && (gameOver <==> roundCount == MAX_ROUND)
        && forall j :: 0 <= j < |players| ==>
             players[j].chips == old(players[j].chips)
               + Winnings(Settle(players[j].score, |players[j].hand|, dealer.score, |dealer.hand|), BetOf(players[j].name))
    {
      roundCount := roundCount + 1;
      ghost var amounts;
      r, amounts := PlaceBets();
      if r.Err? {
        return;
      }
      r := PlayHands();
      if r.Err? {
        return;
      }
      SettleBets();
    }
  }
}

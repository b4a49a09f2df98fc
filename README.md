# A verified model of six teaching exercises

This project models, in Dafny, the sequential core of a bundle of small
Python exercises and proves what each of them promises:

- **Treap** (`treap.dfy`, module `Treap`): an ordered map that is a binary
  search tree on keys and a max-heap on priorities, with `split`, `merge`,
  insert-or-update, lookup, membership, deletion, length and the two
  traversals. Trees are values (`datatype Tree`); the map object is a class
  whose only state, `root`, every update replaces.
- **Blackjack engine** (`cards.dfy`, `strategies.dfy`, `players.dfy`,
  `game.dfy`; modules `Cards`, `Strategies`, `Players`, `BlackJackGame`): the
  52-card deck with its dealt-card counter, soft-ace scoring, the three hit
  strategies with the Hi-Lo running count, and the round lifecycle
  (reshuffle threshold, opening deal with a face-down dealer card, bot turns,
  dealer draws to 17, the settlement decision table). Deck, player, strategy
  and game are classes whose fields the methods update.
- **Bounded memo cache** (`cache.dfy`, module `MemoCache`): a cache of at
  most `maxSize` results kept in insertion order, evicting the oldest first;
  a hit neither calls the function nor reorders the entries.
- **Curry and uncurry** (`curry.dfy`, module `Curry`): currying with an
  explicit arity as a value that gathers arguments, and uncurrying as a loop
  applying them one call at a time.
- **Index-based generators** (`generators.dfy`, module `Generators`): the
  lexicographic RGBA enumeration and indexed lookup into it, the
  trial-division prime stream, and the forward-only "k-th prime" decorator.
  Each suspended generator is a class holding its loop state.
- **Vectors and matrices** (`vector_matrix.dfy`, module `VectorsMatrix`):
  vector sum with zero padding, scalar product over the shorter length,
  scaling and difference as loops; matrix sum, product, scaling,
  transposition and difference as comprehensions.

`wrappers.dfy` holds the `Option` and `Result` types used for the
exceptions every operation can raise: each error path of the source is a
`Result.Err` carrying the exception and, where the source gives one, its
message.

Randomness is a parameter or a non-deterministic choice: treap priorities
are an argument in the range the source draws from, the deck shuffle is any
permutation, and each bet is any amount in the range the source draws from.

## Model

| member | source | states |
|---|---|---|
| Treap.Find | project/Treap/treap.py:196-204 | A found subtree is a node with the sought key; in a search tree a node is found exactly when the key is present |
| Treap.Split | project/Treap/treap.py:74-81 | The two parts together hold exactly the keys and, in in-order position, the nodes of the tree |
| Treap.SplitKeepsHeap | project/Treap/treap.py:74-81 | Both parts of a heap-ordered tree are heap-ordered, with roots no higher than the original bound |
| Treap.SplitKeepsOrder | project/Treap/treap.py:74-81 | Both parts of a search tree are search trees, the left one holding keys <= k and the right keys > k |
| Treap.SplitGet | project/Treap/treap.py:74-81 | A lookup of a key <= k is answered by the left part, any other by the right part |
| Treap.SplitPivotGoesLeft | project/Treap/treap.py:76-81 | A key equal to the pivot ends up on the left side, not the right |
| Treap.Merge | project/Treap/treap.py:99-108 | The merged tree holds the keys of both trees and their nodes in order, left nodes first |
| Treap.MergeKeepsHeap | project/Treap/treap.py:99-108 | Merging heaps gives a heap whose root is below any common bound of the two roots |
| Treap.MergeKeepsOrder | project/Treap/treap.py:99-108 | Merging separated search trees gives a search tree |
| Treap.MergeGet | project/Treap/treap.py:99-108 | After merging separated search trees a left key reads its left value and every other key its right value |
| Treap.MergeValid | project/Treap/treap.py:99-108 | Merging separated valid treaps gives a valid treap standing for the union of the two maps |
| Treap.MergeTieKeepsRightRoot | project/Treap/treap.py:103-108 | On equal root priorities the right root stays on top |
| Treap.SetValue | project/Treap/treap.py:125-128 | Overwriting a value keeps the shape, the keys and the priorities of the tree |
| Treap.SetValueKeepsValid | project/Treap/treap.py:125-128 | Overwriting a value keeps search order and heap order |
| Treap.SetValueGet | project/Treap/treap.py:125-128 | After the overwrite a found key reads the new value and every other key its old value |
| Treap.InsertAbsent | project/Treap/treap.py:130-132 | The new tree has one key more, and its nodes are the left part, the new node and the right part, in order |
| Treap.MergeAround | project/Treap/treap.py:132 | Merging a left treap, a single node and a right treap gives a valid treap reading the node's value at its key and the parts' values elsewhere |
| Treap.InsertAbsentAdds | project/Treap/treap.py:130-132 | Inserting an absent key into a valid treap keeps it valid and adds exactly that entry |
| Treap.RemoveKey | project/Treap/treap.py:237-257 | Removing a key the search does not find leaves the tree as it was |
| Treap.RemoveKeyKeepsValid | project/Treap/treap.py:237-257 | Removal keeps a valid treap valid, under the same root bound, and drops exactly that key |
| Treap.RemoveKeyGet | project/Treap/treap.py:237-257 | After removal the key is absent and every other key reads as before |
| Treap.InorderSorted | project/Treap/treap.py:287-290 | The in-order keys of a search tree are strictly ascending and are exactly its keys |
| Treap.ReverseAppend | project/Treap/treap.py:320-323 | Reversing a concatenation concatenates the reversed parts in swapped order |
| Treap.ReverseInorderIsReverse | project/Treap/treap.py:320-323 | The reverse traversal is exactly the reverse of the in-order traversal |
| Treap.DistinctLength | project/Treap/treap.py:147 | A strictly ascending sequence has as many distinct elements as entries |
| Treap.TraversalFacts | project/Treap/treap.py:147 | In a search tree the traversal is ascending, covers exactly the keys and has one entry per distinct key |
| Treap.Treap.constructor | project/Treap/treap.py:56 | The map starts with the given root |
| Treap.Treap.GetNode | project/Treap/treap.py:196-204 | The walk returns the node with the key, or None; in a search tree it finds a node exactly when the key is present |
| Treap.Treap.GetItem | project/Treap/treap.py:219-222 | `t[k]` returns the stored value, and raises KeyError exactly when no node has the key |
| Treap.Treap.Contains | project/Treap/treap.py:162-166 | `k in t` holds exactly when `t[k]` does not raise, which in a search tree is when k is a key |
| Treap.Treap.Insert | project/Treap/treap.py:125-132 | A key found from the root only has its value replaced; otherwise the root is untouched and the argument tree with the new node is returned |
| Treap.Treap.SetItem | project/Treap/treap.py:181 | `t[k] = v` keeps a valid treap valid, adds k to the keys, makes k read v and leaves every other key's value |
| Treap.Treap.DelItem | project/Treap/treap.py:237-257 | `del t[k]` raises KeyError and changes nothing when k is absent; otherwise the treap stays valid, loses exactly k and keeps every other value |
| Treap.Treap.Len | project/Treap/treap.py:147 | `len(t)` of a search tree is its number of distinct keys |
| Treap.Treap.Iter | project/Treap/treap.py:272 | Iteration yields exactly the keys, strictly ascending |
| Treap.Treap.Reversed | project/Treap/treap.py:305 | Reverse iteration yields exactly the reverse of the ascending iteration |
| Cards.Show | project/BlackJack/deck.py:32 | The printed card is its rank name followed by its suit |
| Cards.ShowDetermines | project/BlackJack/deck.py:32 | Two cards with standard suits that print alike are the same card |
| Cards.ProductIndex | project/BlackJack/deck.py:50-56 | The product of rank names and suits has four entries per rank, rank-major then suit order |
| Cards.FreshCards | project/BlackJack/deck.py:50-56 | A fresh deck has 52 cards |
| Cards.FreshCardsIsProduct | project/BlackJack/deck.py:50-56 | The fresh deck is exactly the product of the 13 ranks and 4 suits |
| Cards.FreshCardsRanked | project/BlackJack/deck.py:53 | Every card of a fresh deck carries one of the 13 rank names |
| Cards.RankedPermutation | project/BlackJack/deck.py:62 | A permutation of a deck of ranked cards is again ranked |
| Cards.FreshCardsDistinct | project/BlackJack/deck.py:50-56 | The 52 cards of a fresh deck are pairwise distinct |
| Cards.PositionsDiffer | project/BlackJack/deck.py:50-56 | Two different positions of the deck hold different (rank, suit) pairs |
| Cards.RanksDiffer | project/BlackJack/deck.py:53 | The 13 rank names are pairwise different |
| Cards.SuitsDiffer | project/BlackJack/deck.py:54 | The 4 suit symbols are pairwise different |
| Cards.Deck.constructor | project/BlackJack/deck.py:49-56 | A new deck holds the 52 fresh cards and nothing is dealt |
| Cards.Deck.Shuffle | project/BlackJack/deck.py:62-63 | The cards become a permutation of what they were and the dealt counter is reset to 0 |
| Cards.Deck.GetCard | project/BlackJack/deck.py:76-77 | The counter grows by one; the card at the old counter is returned, or IndexError once the deck is exhausted |
| Strategies.HiLo | project/BlackJack/bot_strategy.py:86-89 | The weight is +1 exactly for 2..6, -1 exactly for 10, J, Q, K, A, and otherwise 0 |
| Strategies.HiLoOfRank | project/BlackJack/bot_strategy.py:86-89 | By rank index the five low ranks weigh +1, 7..9 weigh 0 and the five high ranks -1 |
| Strategies.CountingThresholdMonotone | project/BlackJack/bot_strategy.py:105-110 | A higher running count never lowers the counting strategy's hit threshold |
| Strategies.Strategy.constructor | project/BlackJack/bot_strategy.py:73 | A new strategy has the given kind and a running count of 0 |
| Strategies.Strategy.DecideHit | project/BlackJack/bot_strategy.py:30-110 | Accurate hits iff score < 14, aggressive iff < 17, counting iff < 19 above +2, < 16 below -2, otherwise < 17 |
| Strategies.Strategy.UpdateCount | project/BlackJack/bot_strategy.py:86-89 | The count moves by the card's Hi-Lo weight, so by at most one |
| Strategies.StandsAbove | project/BlackJack/bot_strategy.py:30-110 | For a fixed count a strategy that stands at a score stands at every higher score |
| Players.PointsOfRank | project/BlackJack/players.py:48-56 | Ranks 2..9 are worth their face value, 10, J, Q and K are worth 10, the ace 1 |
| Players.HardTotalBounds | project/BlackJack/players.py:48-56 | The hard total lies between the number of cards and ten times it |
| Players.ScoreBounds | project/BlackJack/players.py:45-58 | The score is within 10 above the hard total, the ace bonus never busts, and an empty hand scores 0 |
| Players.NaturalBlackjack | project/BlackJack/players.py:45-58 | Two cards score 21 exactly when they are an ace and a ten-valued card |
| Players.PrefixStep | project/BlackJack/players.py:48-56 | One more card adds its points to the hard total and contributes an ace iff it is one |
| Players.HandScore | project/BlackJack/players.py:45-58 | The accumulating loop computes the hand's score |
| Players.Player.Bot | project/BlackJack/players.py:114-116 | A bot has the given strategy, name and chips and an empty hand |
| Players.Player.Dealer | project/BlackJack/players.py:138-139 | The dealer is named "Dealer", holds 2^63 - 1 chips and has no hidden card |
| Players.Player.GetCard | project/BlackJack/players.py:38 | The card is appended at the end of the hand; earlier cards stay |
| Players.Player.CalculateScore | project/BlackJack/players.py:45-58 | The score becomes the soft-ace score of the hand |
| Players.Player.PlaceBet | project/BlackJack/players.py:70-71 | The stake is the smaller of the request and the chips; nothing changes |
| Players.Player.SettleBet | project/BlackJack/players.py:80 | The chips change by exactly the settled amount |
| Players.Player.DecideHit | project/BlackJack/players.py:125 | A bot answers its strategy's decision on its score; the dealer raises AttributeError |
| BlackJackGame.Lower | project/BlackJack/game.py:98 | Lower-casing keeps the length, leaves no capital letter and keeps every other character |
| BlackJackGame.LowerIdempotent | project/BlackJack/game.py:98 | Lower-casing twice is lower-casing once |
| BlackJackGame.Registry.constructor | project/BlackJack/game.py:32-36 | The shared table holds three new strategy objects, the counter at count 0 |
| BlackJackGame.Registry.Lookup | project/BlackJack/game.py:98 | A name is found exactly when its lower-case form is one of the three names, and then maps to the shared object of that kind |
| BlackJackGame.LookupIgnoresCase | project/BlackJack/game.py:98 | Names equal up to case find the same strategy |
| BlackJackGame.BlackjackWinnings | project/BlackJack/game.py:241 | The blackjack payout is three halves of the bet, truncated toward zero |
| BlackJackGame.SettleRules | project/BlackJack/game.py:219-267 | Bust loses the bet whatever the dealer has; then a dealer bust pays it; then a two-card 21 pays three halves unless the dealer has one too; then the higher score wins |
| BlackJackGame.WinningsBounded | project/BlackJack/game.py:219-267 | A player never loses more than the bet nor wins more than the blackjack payout |
| BlackJackGame.SettleMonotone | project/BlackJack/game.py:249-267 | With the other inputs fixed, a higher score that is not a bust never settles worse |
| BlackJackGame.GainCounts | project/BlackJack/game.py:281-282 | A strategy object shared by several counting bots moves once per bot holding it |
| BlackJackGame.CountAll | project/BlackJack/game.py:281-282 | Counting a card raises AttributeError exactly when some counting bot's strategy is no longer a counting strategy (it has no `update_count`); otherwise each strategy moves by the weight once per bot holding it |
| BlackJackGame.StrategiesOf | project/BlackJack/game.py:281-282 | The strategies of the counting bots, seat by seat |
| BlackJackGame.StakesKeys | project/BlackJack/game.py:148-152 | The bets table has an entry exactly for every name of a player that placed a bet |
| BlackJackGame.StakesLast | project/BlackJack/game.py:148-152 | A player's entry holds the stake of the last player of that name |
| BlackJackGame.Game.constructor | project/BlackJack/game.py:55-63 | A new game has a fresh deck, a new dealer, no players, no bets, round 0, not over |
| BlackJackGame.Game.AddPlayer | project/BlackJack/game.py:75-81 | ValueError at 6 players; otherwise the player is appended, and a counting bot also to the counters |
| BlackJackGame.Game.CreateBot | project/BlackJack/game.py:98-102 | An unknown strategy name raises ValueError; a known one gives a new bot holding the shared strategy object |
| BlackJackGame.Game.CountCard | project/BlackJack/game.py:281-282 | Every counting bot's strategy moves by the card's weight once per bot holding it, or AttributeError |
| BlackJackGame.Game.Shuffle | project/BlackJack/game.py:106-108 | The deck is permuted and reset, and every counting bot's count is reset to 0 |
| BlackJackGame.Game.Hit | project/BlackJack/game.py:176-180 | The next card joins the player's hand and is counted; IndexError when the deck is exhausted |
| BlackJackGame.Game.ClearHands | project/BlackJack/game.py:121-125 | Every hand and score, the dealer's included, is emptied |
| BlackJackGame.Game.DealPlayers | project/BlackJack/game.py:129-133 | Player j receives the card j places after the counter |
| BlackJackGame.Game.DealDealer | project/BlackJack/game.py:135-142 | On the first pass the dealer's card is shown and every counting strategy moves by its weight once per bot holding it; on the second it is kept face down and no count moves |
| BlackJackGame.Game.DealPass | project/BlackJack/game.py:128-142 | One pass deals a card to each player in order and then the dealer's card |
| BlackJackGame.Game.DealOpening | project/BlackJack/game.py:128-142 | After the two passes each player has two cards and the dealer one shown and one hidden, all from fixed deck positions |
| BlackJackGame.Game.PrepareRound | project/BlackJack/game.py:117-125 | A reshuffle, with all counts reset, happens exactly when 32 or more cards were dealt, and otherwise no count moves; then every hand is empty |
| BlackJackGame.Game.StartRound | project/BlackJack/game.py:117-144 | The round opens with two cards per player and a hidden dealer card, dealt from the reshuffled or the continuing deck |
| BlackJackGame.Game.PlaceBets | project/BlackJack/game.py:148-152 | Every player's stake is in 10..100 and within its chips; ValueError when a player has fewer than 10 chips |
| BlackJackGame.Game.PlayTurn | project/BlackJack/game.py:161-167 | A bot draws consecutive deck cards until its strategy stands; others and a finished game draw nothing |
| BlackJackGame.Game.RevealHidden | project/BlackJack/game.py:185-190 | The face-down card joins the dealer's hand, every counting strategy moves by its weight once per bot holding it, and the dealer is rescored; with no face-down card nothing changes |
| BlackJackGame.Game.DealerDraw | project/BlackJack/game.py:194-197 | The next card joins the dealer's hand, every counting strategy moves by its weight once per bot holding it, and the dealer is rescored; IndexError, with no count moved, when the deck is exhausted |
| BlackJackGame.Game.DealerDraws | project/BlackJack/game.py:193-198 | The dealer draws consecutive cards until its score is at least 17 |
| BlackJackGame.Game.PlayDealerTurn | project/BlackJack/game.py:185-202 | The turn ends with no hidden card, a dealer score of at least 17, and the game over exactly after the last round |
| BlackJackGame.Game.SettleBets | project/BlackJack/game.py:211-267 | Each player's chips change by the decision table's payout on its recorded stake, 0 when none is recorded |
| BlackJackGame.Game.ChangeBotStrategy | project/BlackJack/game.py:298-308 | The first bot of that name gets the shared strategy and no one else changes; an unknown bot or strategy raises ValueError |
| BlackJackGame.Game.PlayTurns | project/BlackJack/game.py:345-346 | Every player takes its turn in seating order; a finished game deals no card |
| BlackJackGame.Game.PlayHands | project/BlackJack/game.py:341-348 | After the opening deal and all turns the dealer stands at 17 or more and the game is over exactly at the last round |
| BlackJackGame.Game.PlayRound | project/BlackJack/game.py:336-349 | The round counter grows by exactly one, and on success every player is paid by the decision table |
| MemoCache.KeyOf | project/Decorators/cache.py:55 | The key holds the positional arguments and exactly the keyword pairs passed |
| MemoCache.KeywordOrderIrrelevant | project/Decorators/cache.py:55 | Passing the same keywords in another order gives the same key |
| MemoCache.Memo.constructor | project/Decorators/cache.py:38 | A new cache is empty and keeps its capacity and function |
| MemoCache.Memo.Call | project/Decorators/cache.py:55-67 | The result is the function's value; a hit changes nothing; a miss calls once and, with positive capacity, appends the entry after evicting the oldest when full; the capacity is never exceeded |
| MemoCache.Cache | project/Decorators/cache.py:22-23 | A negative size raises ValueError; otherwise an empty cache is created |
| Curry.CurryExplicit | project/Decorators/curry.py:23-26 | Arity 0 returns the function itself, a negative arity raises ValueError, otherwise a lambda waiting for the first argument |
| Curry.FeedCompletes | project/Decorators/curry.py:39-42 | Supplying the missing arguments one at a time calls the function on all gathered arguments in order and returns its result, callable or not |
| Curry.FeedPartial | project/Decorators/curry.py:39-42 | Fewer arguments than missing leave a lambda that has gathered them all |
| Curry.FeedTooMany | project/Decorators/curry.py:39-42 | Arguments past the arity are applied to the function's result; when that result is not callable this raises TypeError |
| Curry.CurryApplied | project/Decorators/curry.py:39-44 | n arguments one at a time give the function's result; fewer give a partial; more are applied to that result, which raises TypeError when it is not callable |
| Curry.PartialReuse | project/Decorators/curry.py:42 | A partial application used with two continuations gives each its own result |
| Curry.InnerCurry | project/Decorators/curry.py:28-42 | Once exactly `arity` arguments are gathered the function's result on them is returned; before that a lambda holding the gathered arguments waits |
| Curry.NatToString | project/Decorators/curry.py:81 | The decimal form of a count is a non-empty string of digits |
| Curry.NatToStringValue | project/Decorators/curry.py:81 | Reading the decimal digits of a count back gives the count |
| Curry.UncurryExplicit | project/Decorators/curry.py:62-65 | A negative arity raises ValueError, arity 0 calls the function with no arguments, otherwise the wrapper is returned |
| Curry.InnerUncurry | project/Decorators/curry.py:80-86 | A wrong argument count raises ValueError with the expected and actual counts; otherwise the arguments are applied one call at a time, left to right |
| Curry.UncurryCurry | project/Decorators/curry.py:83-86 | Uncurrying a curried function with the same arity and calling it on n arguments gives the function's result |
| Curry.UncurryHandCurried | project/Decorators/curry.py:57-86 | A hand-curried `lambda x: lambda y: h(x, y)` uncurried with arity 2 and applied to two arguments gives `h` of them |
| Curry.CurriedResultCallable | project/Decorators/curry.py:39-42 | A curried function whose result is callable takes a further argument: `curry_explicit(lambda x: lambda y: y, 1)(1)(2)` gives 2 |
| Generators.DivModUnique | project/Generators/generators.py:23-26 | A quotient and remainder in range are the ones division gives |
| Generators.RgbaAtIndex | project/Generators/generators.py:21-27 | Each enumerated tuple is a valid colour sitting at its own index |
| Generators.IndexRgbaAt | project/Generators/generators.py:21-27 | Every valid colour occurs in the enumeration, at its index |
| Generators.IndexOrder | project/Generators/generators.py:21-27 | On valid colours the index order is the lexicographic (r, g, b, a) order |
| Generators.EnumerationOrdered | project/Generators/generators.py:21-27 | The enumeration is strictly increasing in lexicographic order and never repeats a tuple |
| Generators.RgbaSamples | project/Generators/generators.py:21-27 | Positions 0, 1, 51 and 161023 hold (0,0,0,0), (0,0,0,2), (0,0,1,0) and (0,12,85,32) |
| Generators.RgbaStep | project/Generators/generators.py:23-26 | The next tuple increases alpha by 2, or wraps it and carries into blue, green and red in turn |
| Generators.RgbaGen.constructor | project/Generators/generators.py:21-27 | A new generator is suspended before the first tuple |
| Generators.RgbaGen.Next | project/Generators/generators.py:21-27 | Each call yields the next tuple of the enumeration, and StopIteration after the last one |
| Generators.GetColour | project/Generators/generators.py:44-49 | IndexError exactly outside 1..256^3 * 51; otherwise the colour at position index - 1 |
| Generators.DividesTrans | project/Generators/generators.py:107-110 | A divisor of a divisor of m divides m |
| Generators.Cofactor | project/Generators/generators.py:107-110 | A proper divisor's cofactor is also a divisor of at least 2 |
| Generators.ProductBelowSquare | project/Generators/generators.py:107 | A factor of a product below i*i whose other factor is at least i is below i |
| Generators.NoSmallDivisorPrime | project/Generators/generators.py:107-110 | No divisor below a bound whose square passes n means n is prime |
| Generators.TrialDivision | project/Generators/generators.py:107-110 | The trial-division loop keeps the flag exactly when the number is prime |
| Generators.Fact | project/Generators/generators.py:104-114 | The factorial is positive |
| Generators.FactDivisible | project/Generators/generators.py:104-114 | Every number from 1 to n divides n! |
| Generators.LeastDivisorFrom | project/Generators/generators.py:104-114 | The least divisor of m that is at least d divides m and no smaller candidate does |
| Generators.LeastDivisorIsPrime | project/Generators/generators.py:104-114 | The least divisor above 1 is prime |
| Generators.PrimeAbove | project/Generators/generators.py:104-114 | Above every number there is a prime, so the stream never stops |
| Generators.LeastPrimeFrom | project/Generators/generators.py:104-114 | The least prime between n and a prime bound is prime, and nothing before it is |
| Generators.NextPrime | project/Generators/generators.py:104-114 | The next prime is a prime above n with no prime in between |
| Generators.NextPrimeUnique | project/Generators/generators.py:104-114 | A prime above n with no prime in between is the next prime |
| Generators.NthPrime | project/Generators/generators.py:104-114 | The k-th entry of the stream is prime |
| Generators.NthPrimeIncreasing | project/Generators/generators.py:104-114 | The stream is strictly increasing |
| Generators.NthPrimeCoversFrom | project/Generators/generators.py:104-114 | Every prime from the k-th on is some later entry of the stream |
| Generators.NthPrimeComplete | project/Generators/generators.py:104-114 | Every prime occurs in the stream |
| Generators.CandidateNext | project/Generators/generators.py:104-114 | The least prime from the current candidate on is the next entry of the stream |
| Generators.SearchPrime | project/Generators/generators.py:104-114 | The search from a candidate stops at the least prime from there on |
| Generators.CandidateBound | project/Generators/generators.py:104-114 | The candidate never passes the next prime |
| Generators.PrimeGen.constructor | project/Generators/generators.py:104-105 | A new stream has yielded nothing yet |
| Generators.PrimeGen.Next | project/Generators/generators.py:104-114 | The k-th call yields the k-th prime |
| Generators.PrimeDec.constructor | project/Generators/generators.py:67-69 | Decorating starts the stream with nothing requested and no last prime |
| Generators.PrimeDec.Wrapper | project/Generators/generators.py:71-86 | A k below the last one raises ValueError and changes nothing; k = 0 first raises RuntimeError; otherwise the k-th prime, the stream advanced exactly to k |
| Generators.NthPrimeStep | project/Generators/generators.py:104-114 | The prime after the k-th with nothing prime in between is the (k+1)-th |
| Generators.SmallPrime | project/Generators/generators.py:107-110 | A number below 36 divisible by none of 2, 3, 5 is prime |
| Generators.FirstPrimes | project/Generators/generators.py:104-114 | The first five entries are 2, 3, 5, 7 and 11 |
| Generators.NextPrimes | project/Generators/generators.py:104-114 | The sixth to tenth entries are 13, 17, 19, 23 and 29 |
| VectorsMatrix.Vector.ScalarProduct | project/VectorsMatrix/vector_matrix.py:39-50 | The loop sums the products of matching coordinates over the shorter length |
| VectorsMatrix.Vector.Add | project/VectorsMatrix/vector_matrix.py:89-104 | The sum is as long as the longer vector, holds sums below the shorter length and copies the longer vector beyond it |
| VectorsMatrix.Vector.Scale | project/VectorsMatrix/vector_matrix.py:116-119 | Every coordinate is multiplied, the length kept |
| VectorsMatrix.Vector.Sub | project/VectorsMatrix/vector_matrix.py:131 | The difference is the sum with the other vector scaled by -1 |
| VectorsMatrix.DotPrefixCommutes | project/VectorsMatrix/vector_matrix.py:39-50 | The partial scalar product is symmetric |
| VectorsMatrix.DotCommutes | project/VectorsMatrix/vector_matrix.py:39-50 | The scalar product is symmetric, whichever vector is longer |
| VectorsMatrix.DotPadded | project/VectorsMatrix/vector_matrix.py:39-50 | The scalar product equals that of the zero-padded vectors over any longer length |
| VectorsMatrix.PaddedDotPrefix | project/VectorsMatrix/vector_matrix.py:39-50 | Within the common length padding changes nothing |
| VectorsMatrix.DotPrefixScaled | project/VectorsMatrix/vector_matrix.py:39-50 | Scaling one vector scales the partial scalar product |
| VectorsMatrix.DotScaled | project/VectorsMatrix/vector_matrix.py:116-119 | Scaling one vector scales the scalar product |
| VectorsMatrix.ZipSumLaws | project/VectorsMatrix/vector_matrix.py:89-104 | Vector sum is commutative and associative with the empty vector as identity |
| VectorsMatrix.SubPointwise | project/VectorsMatrix/vector_matrix.py:131 | The difference subtracts padded coordinates and a vector minus itself is zero |
| VectorsMatrix.VectorSamples | project/VectorsMatrix/vector_matrix.py:39-131 | [1,1].[3,4,5] = 7, [1,1]+[3,4,5] = [4,5,5], [3,4,5]-[1,1] = [2,3,5], [1,1]*2 = [2,2] |
| VectorsMatrix.Matrix.AddAsWritten | project/VectorsMatrix/vector_matrix.py:178-190 | As written, ValueError exactly when both the row counts and the first-row lengths differ; a result exactly when both are empty, or when both are non-empty, one dimension agrees, no row of the first is shorter than its first row and, unless that first row is empty, the second has every entry the first operand's shape reads; a first operand with an empty first row gives that many empty rows; a result is the entrywise sum over the first operand's shape; every other failure is IndexError |
| VectorsMatrix.Matrix.Add | project/VectorsMatrix/vector_matrix.py:178-190 | With the check joined by `or`, ValueError exactly when a dimension differs; a result exactly when the dimensions agree, are non-empty and both matrices have every entry the first operand's shape reads; a result is the entrywise sum; two empty matrices raise IndexError |
| VectorsMatrix.Matrix.MultiplicationAsWritten | project/VectorsMatrix/vector_matrix.py:207-220 | As written, ValueError exactly when rows(m1) differs from cols(m2); an empty second matrix raises IndexError; a result exactly when rows(m1) = cols(m2) and either cols(m2) = 0 or both matrices have every entry the sums read; a result holds the row-by-column scalar products |
| VectorsMatrix.Matrix.Multiplication | project/VectorsMatrix/vector_matrix.py:207-220 | With the check on the inner dimensions, ValueError exactly when cols(m1) differs from rows(m2); an empty first matrix raises IndexError; a result exactly when cols(m1) = rows(m2) > 0 and either cols(m2) = 0 or both matrices have every entry the sums read; a result holds the row-by-column scalar products |
| VectorsMatrix.Matrix.Scale | project/VectorsMatrix/vector_matrix.py:232-237 | IndexError exactly when some row is shorter than the first row; otherwise as many rows, each as long as the first row, with every entry multiplied (longer rows are cut to the first row's length) |
| VectorsMatrix.Matrix.Transpose | project/VectorsMatrix/vector_matrix.py:246-251 | IndexError exactly for an empty matrix or one with a row shorter than the first row; otherwise one row per entry of the first row, as long as the row count, with t[j][i] = a[i][j] |
| VectorsMatrix.Matrix.SubAsWritten | project/VectorsMatrix/vector_matrix.py:263 | As written, the other matrix scaled by -1 is added with the `and` check: ValueError exactly when no row of the other matrix is shorter than its first row and both the row counts and the first-row lengths differ; a result exactly when both are empty, or when both are non-empty, one dimension agrees, no row of either is short and, unless the first matrix's first row is empty, the first matrix is no larger; a result is the entrywise difference over the first matrix's shape |
| VectorsMatrix.Matrix.Sub | project/VectorsMatrix/vector_matrix.py:263 | Built on the corrected `+`: ValueError exactly when no row of the second matrix is shorter than its first row and a dimension differs; a result exactly when the dimensions agree, are non-empty and no row of either matrix is shorter than its first row; a result is the entrywise difference |
| VectorsMatrix.SubAsWrittenMismatch | project/VectorsMatrix/vector_matrix.py:263 | As written a 3x3 matrix is subtracted from a 2x3 one; on the corrected `+` this raises ValueError |
| VectorsMatrix.RowsEqual | project/VectorsMatrix/vector_matrix.py:182-190 | Matrices with equal shapes and entries are equal |
| VectorsMatrix.AddRect | project/VectorsMatrix/vector_matrix.py:178-190 | With the check joined by `or`, rectangular matrices add entrywise exactly when their dimensions agree, else ValueError; the sum commutes |
| VectorsMatrix.AddAsWrittenRect | project/VectorsMatrix/vector_matrix.py:178-190 | As written, ValueError only when both dimensions differ, and a result exactly when one agrees, the other matrix's rows are no shorter and, for a first matrix with columns, the other has no fewer rows |
| VectorsMatrix.ZeroWidthAsWritten | project/VectorsMatrix/vector_matrix.py:178-190 | As written, `[[], []] + [[]]` and `[[], []] - [[]]` are both `[[], []]`, since no entry is read |
| VectorsMatrix.AddAsWrittenMismatch | project/VectorsMatrix/vector_matrix.py:178-181 | As written a 2x3 and a 3x3 matrix are added; with `or` they raise ValueError |
| VectorsMatrix.MultiplicationRect | project/VectorsMatrix/vector_matrix.py:207-220 | With the check on the inner dimensions, the product is rows(m1) x cols(m2) with entries the scalar products of rows and columns, else ValueError |
| VectorsMatrix.MultiplicationAsWrittenRect | project/VectorsMatrix/vector_matrix.py:207-208 | As written, ValueError exactly when rows(m1) differs from cols(m2) |
| VectorsMatrix.MultiplicationAsWrittenRejects | project/VectorsMatrix/vector_matrix.py:207-208 | As written the valid product of 1x2 by 2x3 is rejected; with the inner check it is [[1,2,0]] |
| VectorsMatrix.MultiplicationAsWrittenAccepts | project/VectorsMatrix/vector_matrix.py:207-220 | As written 2x2 by 3x2 gives a result although the inner dimensions differ; with the inner check it raises ValueError |
| VectorsMatrix.ScaleRect | project/VectorsMatrix/vector_matrix.py:232-237 | Scaling keeps the shape and multiplies every entry |
| VectorsMatrix.TransposeRect | project/VectorsMatrix/vector_matrix.py:246-251 | The transpose of a non-empty rectangular matrix swaps the dimensions with t[j][i] = a[i][j], and, for a matrix with at least one column, transposing twice gives the matrix back |
| VectorsMatrix.SubRect | project/VectorsMatrix/vector_matrix.py:263 | Matrices of equal dimensions subtract entrywise |
| VectorsMatrix.ProductSample | project/VectorsMatrix/vector_matrix.py:207-220 | [[1,1,1],[1,1,1]] times [[2,3],[4,5],[6,7]] is [[12,15],[12,15]], both as written and with the inner check |
| VectorsMatrix.AddSubSamples | project/VectorsMatrix/vector_matrix.py:178-190 | The sum and difference of the 2x3 example matrices, the sum both as written and with `or`, the difference also as the source writes it, both through `SubAsWritten` and spelled out as adding the other matrix scaled by -1 with the `and` check |
| VectorsMatrix.TransposeScaleSamples | project/VectorsMatrix/vector_matrix.py:232-251 | The transpose and the double of the 2x3 example matrix |

## Left out

- Randomness: the treap priority, the shuffle and the bet amounts are parameters or non-deterministic choices; no distribution is modelled.
- Printing: `print_table`, every `print_res` branch and the `__repr__` methods.
- `modify_game_rule` and the metaclass plumbing: they set arbitrary attributes by reflection; the constants and the shared strategy table are modelled.
- `play`: the loop of rounds until the game is over is not modelled; each round is.
- The thread pool, the parallel cartesian-product sums and `smart_args`: they concern threads, processes and reflection.
- BlackJackGame.Lower: only ASCII capitals are lower-cased, not the full Unicode case mapping.
- BlackJackGame.Game.PlaceBets: the message of the ValueError raised for an empty draw range is a fixed constant, not the text the random module formats.
- Game methods that fail do not state the state they leave behind; only the exception is stated.
- The dealer's `strategy` field is a placeholder the model never consults; the source's dealer has none.
- BlackJackGame.Game.Hit: the new score is stated by `Players.Player.CalculateScore`, which it calls, not in its own contract.
- BlackJackGame.Game.DealPlayers, BlackJackGame.Game.PlayTurn and BlackJackGame.Game.DealerDraws: the counts are not summed over the loop; each dealt card's effect on them is stated by `Hit` and `DealerDraw`, which the loops call. The same holds for the methods built on these loops (`DealPass`, `DealOpening`, `StartRound`, `PlayTurns`, `PlayDealerTurn`, `PlayHands`, `PlayRound`). Carrying the sum as a loop invariant beside the hands and the table invariant makes these loops too costly to verify.
- BlackJackGame.Game.Valid: the same player seated twice, or the dealer seated as a player, is excluded; the source accepts both. The frame reasoning of the dealing loops relies on every seat holding a distinct player other than the dealer.
- The treap's in-place rewiring of child fields is modelled as rebuilding the path; aliasing of nodes is not modelled.
- Treap.Merge: the in-order key sequence of the result is stated through its node sequence, not through `Inorder` directly.
- BlackJackGame.BlackjackWinnings: the floating-point product with 1.5 is modelled as the exact three halves truncated toward zero.
- The `for _ in range(2)` of the opening deal is two explicit passes.
- Curry.Obj: a function given by `Fun` accepts any number of positional arguments; the TypeError of a Python function called with the wrong number of them is modelled only for one-argument functions (`Lam`) and curried lambdas.
- Curry.UncurryExplicit: the wrapper it returns is a value of its own kind, so it cannot be curried again.
- Generators.TrialDivision: the floating-point bound `int(num ** 0.5)` is modelled as the exact test `i * i <= num`.
- Generator laziness: each generator is a class holding its loop state, advanced by `Next`.
- Generators.PrimeDec.Wrapper: the decorator is modelled around the prime stream only, not around an arbitrary generator function.
- Vector and matrix copies share the list they copy; the model works on values, so that aliasing is not modelled.
- `get_len` and `get_angle`: they use the floating-point `sqrt`, `acos` and `degrees`.
- VectorsMatrix.Matrix.Sub: it is built on the corrected `Add`, so it differs from the source's difference exactly where the `and` check does; the source's own difference is `SubAsWritten`.
- Coordinates and entries are integers; floating-point rounding is not modelled.
- The recursion-limit behaviour of a cached recursive function is not modelled. A cached function that calls its own wrapper changes the cache while it runs, before the outer call's eviction; `MemoCache.Memo.Call` applies a pure function in one step, so those inner calls are modelled as separate, earlier `Call`s in the order they complete.
- The counters `calls`, `pos` and `count` are ghost state of the model; the source has no such fields.

## Findings

| source | as written | input that shows it | evidently intended | confidence | as-written member | corrected member |
|---|---|---|---|---|---|---|
| project/VectorsMatrix/vector_matrix.py:207 | `multiplication` raises ValueError when the row count of the first matrix differs from the column count of the second | `[[1, 2]]` times `[[1, 0, 0], [0, 1, 0]]` is rejected although 1x2 by 2x3 is defined, and 2x2 times 3x2 gives a result although it is undefined | ValueError exactly when the column count of the first matrix differs from the row count of the second; otherwise the row-by-column product | not executed | VectorsMatrix.MultiplicationAsWrittenRejects | VectorsMatrix.Matrix.Multiplication |
| project/VectorsMatrix/vector_matrix.py:178-181 | `+` raises ValueError only when the row counts and the first-row lengths both differ | a 2x3 matrix plus a 3x3 matrix gives a 2x3 result instead of raising | ValueError when either dimension differs; the entrywise sum otherwise | not executed | VectorsMatrix.AddAsWrittenMismatch | VectorsMatrix.Matrix.Add |

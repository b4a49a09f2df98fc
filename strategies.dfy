/**
 * The bots' hitting strategies: two fixed thresholds and a Hi-Lo card
 * counter whose threshold moves with its running count.
 */
module Strategies {
  import opened Cards

  datatype StrategyKind = Accurate | Aggressive | Counting

  /** Hi-Lo weight of a rank: +1 for 2..6, -1 for 10, J, Q, K, A, 0 for 7..9. */
  function HiLo(name: string): (d: int)
    ensures -1 <= d <= 1
    ensures d == 1 <==> name in ["2", "3", "4", "5", "6"]
    ensures d == -1 <==> name in ["10", "J", "Q", "K", "A"]
  {
    if name in ["2", "3", "4", "5", "6"] then 1
    else if name in ["10", "J", "Q", "K", "A"] then -1
    else 0
  }

  /** By rank index: the five low ranks weigh +1, 7..9 weigh 0, the five high ranks weigh -1. */
  lemma HiLoOfRank(i: int)
    requires 0 <= i < |RANKS|
    ensures HiLo(RANKS[i]) == if i < 5 then 1 else if i < 8 then 0 else -1
  {
    var name := RANKS[i];
    if i < 5 {
      assert name == ["2", "3", "4", "5", "6"][i];
    } else if i < 8 {
      assert name !in ["2", "3", "4", "5", "6"] by {
        assert |name| == 1 && forall n :: n in ["2", "3", "4", "5", "6"] ==> |n| == 1 && n[0] < name[0];
      }
      assert name !in ["10", "J", "Q", "K", "A"] by {
        assert |name| == 1 && forall n :: n in ["10", "J", "Q", "K", "A"] ==> n[0] != name[0];
      }
    } else {
      assert name == ["10", "J", "Q", "K", "A"][i - 8];
      assert name !in ["2", "3", "4", "5", "6"] by {
        assert forall n :: n in ["2", "3", "4", "5", "6"] ==> n[0] != name[0];
      }
    }
  }

  /** The score below which a strategy of this kind, at this running count, asks for a card. */
  function HitThreshold(kind: StrategyKind, count: int): int
  {
    match kind
    case Accurate => 14
    case Aggressive => 17
    case Counting => if count > 2 then 19 else if count < -2 then 16 else 17
  }

  /** A positive count never makes the counter stand earlier, and a negative count never makes it hit later. */
  lemma CountingThresholdMonotone(c1: int, c2: int)
    requires c1 <= c2
    ensures HitThreshold(Counting, c1) <= HitThreshold(Counting, c2)
  {
  }

  /** One strategy object; bots that were handed the same object share its count. */
  class Strategy {
    const kind: StrategyKind
    var count: int

    /** A new strategy of the given kind; a new counter starts at 0. */
    constructor (kind: StrategyKind)
      ensures this.kind == kind && count == 0
    {
      this.kind := kind;
      count := 0;
    }

    /** `decide_hit(score)` of the three strategy classes. */
    function DecideHit(score: int): (hit: bool)
      reads this
      ensures kind == Accurate ==> (hit <==> score < 14)
      ensures kind == Aggressive ==> (hit <==> score < 17)
      ensures kind == Counting && count > 2 ==> (hit <==> score < 19)
      ensures kind == Counting && count < -2 ==> (hit <==> score < 16)
      ensures kind == Counting && -2 <= count <= 2 ==> (hit <==> score < 17)
    {
      score < HitThreshold(kind, count)
    }

    /** Hi-Lo update of the running count; only the counting strategy has it. */
    method UpdateCount(card: Card)
      requires kind == Counting
      modifies this`count
      ensures count == old(count) + HiLo(card.name)
      ensures old(count) - 1 <= count <= old(count) + 1
    {
      if card.name in ["2", "3", "4", "5", "6"] {
        count := count + 1;
      } else if card.name in ["10", "J", "Q", "K", "A"] {
        count := count - 1;
      }
    }
  }

  /** For a fixed count a strategy that stands at some score stands at every higher score. */
  lemma StandsAbove(s: Strategy, score: int, higher: int)
    requires score <= higher && !s.DecideHit(score)
    ensures !s.DecideHit(higher)
  {
  }
}

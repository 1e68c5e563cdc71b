/**
  The scoring rules a move is paid by: line points, the streak and its bonus,
  and the leaderboard milestone a move may cross.
*/
module Scoring {
  import opened Wrappers
  import opened Constants

  /** What the score of one move and the streak after it are. */
  datatype MoveScore = MoveScore(points: nat, newStreak: nat)

  /** Notification for crossing the third, second or first leaderboard entry. */
  datatype Milestone = Sweet | Good | Perfect

  /** Points for the lines cleared by one move, before any streak bonus. */
  function LinePoints(lines: nat): (p: nat)
    ensures lines == 0 ==> p == 0
    ensures lines == 1 ==> p == SingleLine
    ensures lines >= 2 ==> p == (MultiLineBase + MultiLineBonus) * lines
  {
    if lines == 0 then 0
    else if lines == 1 then SingleLine
    else lines * MultiLineBase + lines * MultiLineBonus
  }

  /**
    floor(points * 0.15 * streak), taken as the exact integer value of that
    product (the store's floating-point rounding is not modelled).
  */
  function StreakBonus(points: nat, streak: nat): nat
  {
    points * StreakMultiplierPercent * streak / 100
  }

  /** The points of a move clearing `lines` lines when the streak before it was `streak`. */
  function ScoreMove(lines: nat, streak: nat): (s: MoveScore)
    ensures s.points == 0 <==> lines == 0
    ensures s.newStreak == 0 <==> lines == 0
    ensures lines > 0 ==> s.newStreak == streak + 1
    ensures s.points >= LinePoints(lines)
    ensures s.newStreak < 2 ==> s.points == LinePoints(lines)
  {
    if lines > 0 then
      var base := LinePoints(lines);
      var newStreak := streak + 1;
      MoveScore(if newStreak >= 2 then base + StreakBonus(base, newStreak) else base, newStreak)
    else
      MoveScore(0, 0)
  }

  /** x <= y implies x * k <= y * k and the same after division by 100. */
  lemma ScaledMonotone(x: nat, y: nat, k: nat)
    requires x <= y
    ensures x * k <= y * k
    ensures x * k / 100 <= y * k / 100
  {
    assert y * k == x * k + (y - x) * k;
  }

  /** The bonus grows with the points it is computed from and with the streak. */
  lemma StreakBonusMonotone(p1: nat, p2: nat, s1: nat, s2: nat)
    requires p1 <= p2 && s1 <= s2
    ensures StreakBonus(p1, s1) <= StreakBonus(p2, s2)
  {
    ScaledMonotone(p1, p2, StreakMultiplierPercent);
    ScaledMonotone(s1, s2, p2 * StreakMultiplierPercent);
    assert p1 * StreakMultiplierPercent * s1 <= p2 * StreakMultiplierPercent * s1 by {
      ScaledMonotone(p1 * StreakMultiplierPercent, p2 * StreakMultiplierPercent, s1);
    }
    assert p2 * StreakMultiplierPercent * s1 <= p2 * StreakMultiplierPercent * s2 by {
      assert s1 * (p2 * StreakMultiplierPercent) <= s2 * (p2 * StreakMultiplierPercent);
    }
  }

  /** A longer streak never lowers the points of the same clear. */
  lemma LongerStreakNeverPaysLess(lines: nat, s1: nat, s2: nat)
    requires s1 <= s2
    ensures ScoreMove(lines, s1).points <= ScoreMove(lines, s2).points
  {
    if lines > 0 {
      StreakBonusMonotone(LinePoints(lines), LinePoints(lines), s1 + 1, s2 + 1);
    }
  }

  /** Clearing more lines at once always pays strictly more, whatever the streak. */
  lemma MoreLinesPayMore(l1: nat, l2: nat, streak: nat)
    requires l1 < l2
    ensures ScoreMove(l1, streak).points < ScoreMove(l2, streak).points
  {
    if l1 > 0 {
      assert LinePoints(l1) < LinePoints(l2);
      StreakBonusMonotone(LinePoints(l1), LinePoints(l2), streak + 1, streak + 1);
    }
  }

  /** An n-line clear (n at least 2) is worth more than n separate single-line clears before bonuses. */
  lemma MultiLineBeatsSingles(lines: nat)
    requires lines >= 2
    ensures LinePoints(lines) == 125 * lines > lines * SingleLine
  {
  }

  /** Two single-line clears in a row from streak 0 pay 100 and then 130. */
  lemma TwoSingleClearsInARow()
    ensures ScoreMove(1, 0) == MoveScore(100, 1)
    ensures ScoreMove(1, 1) == MoveScore(130, 2)
  {
  }

  /** A move from `before` to `after` reaches a positive threshold it was below. */
  predicate Crosses(before: int, after: int, threshold: int)
  {
    before < threshold <= after && threshold > 0
  }

  /**
    The milestone of a move, given the leaderboard entries first, second and
    third: the lowest entry crossed wins, at most one fires.
  */
  function MilestoneFor(before: int, after: int, first: int, second: int, third: int): (m: Option<Milestone>)
    ensures m == Some(Sweet) <==> Crosses(before, after, third)
    ensures m == Some(Good) <==> !Crosses(before, after, third) && Crosses(before, after, second)
    ensures m == Some(Perfect) <==>
              !Crosses(before, after, third) && !Crosses(before, after, second) && Crosses(before, after, first)
    ensures m == None <==>
              !Crosses(before, after, third) && !Crosses(before, after, second) && !Crosses(before, after, first)
  {
    if before < third && after >= third && third > 0 then Some(Sweet)
    else if before < second && after >= second && second > 0 then Some(Good)
    else if before < first && after >= first && first > 0 then Some(Perfect)
    else None
  }

  /** A move that does not raise the score fires no milestone. */
  lemma NoMilestoneWithoutGain(before: int, after: int, first: int, second: int, third: int)
    requires after <= before
    ensures MilestoneFor(before, after, first, second, third) == None
  {
  }

  /**
    On a descending leaderboard, a move that jumps past all three entries
    reports only Sweet: the lowest crossing takes priority.
  */
  lemma JumpPastAllReportsSweet(before: int, after: int, first: int, second: int, third: int)
    requires first >= second >= third > 0
    requires before < third && after >= first
    ensures MilestoneFor(before, after, first, second, third) == Some(Sweet)
  {
  }

  predicate NonDecreasing(scores: seq<int>)
  {
    forall i, j :: 0 <= i <= j < |scores| ==> scores[i] <= scores[j]
  }

  /**
    Along a game whose score never goes down, each milestone fires on at most
    one move: once a threshold is reached every later move starts at or above it.
  */
  lemma EachMilestoneFiresAtMostOnce(scores: seq<int>, first: int, second: int, third: int, kind: Milestone, i: nat, j: nat)
    requires NonDecreasing(scores)
    requires i < j && j + 1 < |scores|
    requires MilestoneFor(scores[i], scores[i + 1], first, second, third) == Some(kind)
    ensures MilestoneFor(scores[j], scores[j + 1], first, second, third) != Some(kind)
  {
    assert scores[i + 1] <= scores[j];
  }
}

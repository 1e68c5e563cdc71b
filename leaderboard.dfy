/**
  The leaderboard policy applied when a game ends: the top three scores in
  descending order, where a game continued after a game over replaces the
  score it recorded earlier instead of adding a second entry.
*/
module Leaderboard {
  import opened Wrappers

  /** Number of scores the leaderboard keeps. */
  const Slots: nat := 3

  predicate SortedDesc(s: seq<int>)
  {
    forall i, j :: 0 <= i < j < |s| ==> s[i] >= s[j]
  }

  /** Prepending an entry no lower than the head keeps a list descending. */
  lemma ConsSorted(h: int, s: seq<int>)
    requires SortedDesc(s) && (s == [] || h >= s[0])
    ensures SortedDesc([h] + s)
  {
  }

  /** Insert x into a descending list before the first entry it is not above. */
  function InsertDesc(x: int, s: seq<int>): (r: seq<int>)
    requires SortedDesc(s)
    ensures SortedDesc(r)
    ensures multiset(r) == multiset(s) + multiset{x}
    ensures |r| == |s| + 1
    ensures r[0] == (if s == [] || x >= s[0] then x else s[0])
  {
    if s == [] || x >= s[0] then
      ConsSorted(x, s);
      [x] + s
    else
      var rest := InsertDesc(x, s[1..]);
      assert s == [s[0]] + s[1..];
      ConsSorted(s[0], rest);
      [s[0]] + rest
  }

  /** Descending sort, the order the leaderboard is kept in. */
  function SortDesc(s: seq<int>): (r: seq<int>)
    ensures SortedDesc(r)
    ensures multiset(r) == multiset(s)
    ensures |r| == |s|
  {
    if s == [] then []
    else
      assert s == [s[0]] + s[1..];
      InsertDesc(s[0], SortDesc(s[1..]))
  }

  /** Position of the first occurrence of x in s, |s| when x does not occur. */
  function FirstIndex(s: seq<int>, x: int): (i: nat)
    ensures i <= |s|
    ensures i < |s| ==> s[i] == x
    ensures forall j :: 0 <= j < i ==> s[j] != x
  {
    if s == [] then 0
    else if s[0] == x then 0
    else 1 + FirstIndex(s[1..], x)
  }

  /** s without its first occurrence of x (s itself when x does not occur). */
  function RemoveFirst(s: seq<int>, x: int): (r: seq<int>)
    ensures x in s ==> |r| == |s| - 1 && multiset(r) == multiset(s) - multiset{x}
    ensures x !in s ==> r == s
  {
    var i := FirstIndex(s, x);
    if i < |s| then
      assert s == s[..i] + [s[i]] + s[i + 1..];
      s[..i] + s[i + 1..]
    else
      s
  }

  /** The first Slots entries of a list (all of it when shorter). */
  function Top(s: seq<int>): (r: seq<int>)
    ensures |r| == if |s| <= Slots then |s| else Slots
    ensures r == s[..|r|]
  {
    if |s| <= Slots then s else s[..Slots]
  }

  /**
    The leaderboard after a game over, or None when it is left unchanged:
    a first game over adds the score; a later one (lastSaved is the score
    recorded before continuing) replaces one occurrence of lastSaved only
    when the score now beats it.
  */
  function UpdatedLeaderboard(board: seq<int>, score: int, lastSaved: Option<int>): (r: Option<seq<int>>)
    ensures r.Some? ==> 0 < |r.value| <= Slots
  {
    match lastSaved
    case None => Some(Top(SortDesc(board + [score])))
    case Some(saved) =>
      if score > saved then Some(Top(SortDesc(RemoveFirst(board, saved) + [score])))
      else None
  }

  /** The score recorded for the session on a game over. */
  function SessionBest(score: int, lastSaved: Option<int>): (best: int)
    ensures best >= score
    ensures lastSaved.Some? ==> best >= lastSaved.value
    ensures best == score || (lastSaved.Some? && best == lastSaved.value)
  {
    match lastSaved
    case None => score
    case Some(saved) => if score > saved then score else saved
  }

  // ---------------------------------------------------------------------
  // Properties
  // ---------------------------------------------------------------------

  /** The head of a descending list is at least each of its entries. */
  lemma HeadIsMax(a: seq<int>, y: int)
    requires SortedDesc(a) && y in a
    ensures a[0] >= y
  {
    var k :| 0 <= k < |a| && a[k] == y;
  }

  /** Two descending lists with the same elements are equal: the descending order is unique. */
  lemma {:induction false} SortedUnique(a: seq<int>, b: seq<int>)
    requires SortedDesc(a) && SortedDesc(b) && multiset(a) == multiset(b)
    ensures a == b
  {
    if a == [] || b == [] {
      assert |a| == |multiset(a)| == |multiset(b)| == |b|;
    } else {
      assert a[0] in multiset(b) && b[0] in multiset(a);
      HeadIsMax(a, b[0]);
      HeadIsMax(b, a[0]);
      var ta, tb := a[1..], b[1..];
      TailMultiset(a);
      TailMultiset(b);
      assert SortedDesc(ta) && SortedDesc(tb);
      SortedUnique(ta, tb);
      SameHeadSameTail(a, b);
    }
  }

  lemma SameHeadSameTail(a: seq<int>, b: seq<int>)
    requires a != [] && b != [] && a[0] == b[0] && a[1..] == b[1..]
    ensures a == b
  {
    assert a == [a[0]] + a[1..];
    assert b == [b[0]] + b[1..];
  }

  /** Dropping the head of a list drops one copy of it from its elements. */
  lemma TailMultiset(a: seq<int>)
    requires a != []
    ensures multiset(a[1..]) == multiset(a) - multiset{a[0]}
  {
    assert a == [a[0]] + a[1..];
  }

  /** Sorting a list that is descending except for one new last entry is inserting that entry. */
  lemma SortAppendIsInsert(s: seq<int>, x: int)
    requires SortedDesc(s)
    ensures SortDesc(s + [x]) == InsertDesc(x, s)
  {
    SortedUnique(SortDesc(s + [x]), InsertDesc(x, s));
  }

  /** Removing an entry keeps a list descending. */
  lemma RemoveFirstSorted(s: seq<int>, x: int)
    requires SortedDesc(s)
    ensures SortedDesc(RemoveFirst(s, x))
  {
    var i := FirstIndex(s, x);
    if i < |s| {
      var r := s[..i] + s[i + 1..];
      forall a, b | 0 <= a < b < |r| ensures r[a] >= r[b] {
        var a' := if a < i then a else a + 1;
        var b' := if b < i then b else b + 1;
        assert r[a] == s[a'] && r[b] == s[b'];
      }
    }
  }

  /** x lands within the first k + 1 places when it is at least the k-th entry. */
  lemma {:induction false} InsertDescPosition(x: int, s: seq<int>, k: nat)
    requires SortedDesc(s) && k < |s| && x >= s[k]
    ensures x in InsertDesc(x, s)[..k + 1]
  {
    if x < s[0] {
      InsertDescPosition(x, s[1..], k - 1);
      assert InsertDesc(x, s)[..k + 1] == [s[0]] + InsertDesc(x, s[1..])[..k];
    }
  }

  /** Inserting below the k-th entry leaves the first k + 1 entries in place. */
  lemma {:induction false} InsertDescBelow(x: int, s: seq<int>, k: nat)
    requires SortedDesc(s) && k < |s| && x < s[k]
    ensures InsertDesc(x, s)[..k + 1] == s[..k + 1]
  {
    assert s[0] >= s[k];
    var rest := InsertDesc(x, s[1..]);
    assert InsertDesc(x, s) == [s[0]] + rest;
    if k > 0 {
      InsertDescBelow(x, s[1..], k - 1);
      assert rest[..k] == s[1..][..k];
      assert s[..k + 1] == [s[0]] + s[1..][..k];
    }
  }

  /** A prefix of a descending list is descending. */
  lemma PrefixSorted(s: seq<int>, n: nat)
    requires SortedDesc(s) && n <= |s|
    ensures SortedDesc(s[..n])
  {
  }

  /**
    On a game over without an earlier continuation, the three-entry
    leaderboard stays three entries long and descending; the new best is
    the larger of the old best and the score; a score at least the third
    entry gets on the board, and a lower one leaves the board as it was.
  */
  lemma FirstGameOverUpdate(board: seq<int>, score: int)
    requires |board| == Slots && SortedDesc(board)
    ensures UpdatedLeaderboard(board, score, None).Some?
    ensures var r := UpdatedLeaderboard(board, score, None).value;
      && |r| == Slots && SortedDesc(r)
      && r[0] == (if score > board[0] then score else board[0])
      && (score >= board[2] ==> score in r)
      && (score < board[2] ==> r == board)
  {
    FirstGameOverIsInsert(board, score);
    InsertedTopThree(board, score);
  }

  /** A first game over keeps the first three entries of the board with the score inserted. */
  lemma FirstGameOverIsInsert(board: seq<int>, score: int)
    requires |board| == Slots && SortedDesc(board)
    ensures UpdatedLeaderboard(board, score, None) == Some(InsertDesc(score, board)[..Slots])
  {
    SortAppendIsInsert(board, score);
  }

  /** The first three entries after inserting a score into a three-entry descending board. */
  lemma InsertedTopThree(board: seq<int>, score: int)
    requires |board| == Slots && SortedDesc(board)
    ensures var r := InsertDesc(score, board)[..Slots];
      && |r| == Slots && SortedDesc(r)
      && r[0] == (if score > board[0] then score else board[0])
      && (score >= board[2] ==> score in r)
      && (score < board[2] ==> r == board)
  {
    var ins := InsertDesc(score, board);
    PrefixSorted(ins, Slots);
    if score >= board[2] {
      InsertDescPosition(score, board, 2);
    } else {
      InsertDescBelow(score, board, 2);
      assert board[..3] == board;
    }
  }

  /**
    On a game over after a continuation whose recorded score is on the
    board, a higher score replaces that entry: the board keeps three
    entries, stays descending and holds the old entries with one copy of
    the recorded score exchanged for the new score. A score that does not
    beat the recorded one leaves the board unchanged.
  */
  lemma ContinuedGameOverUpdate(board: seq<int>, score: int, saved: int)
    requires |board| == Slots && SortedDesc(board) && saved in board
    ensures score <= saved ==> UpdatedLeaderboard(board, score, Some(saved)) == None
    ensures score > saved ==>
      && UpdatedLeaderboard(board, score, Some(saved)).Some?
      && var r := UpdatedLeaderboard(board, score, Some(saved)).value;
      && |r| == Slots && SortedDesc(r)
      && multiset(r) == multiset(board) - multiset{saved} + multiset{score}
  {
    if score > saved {
      var rest := RemoveFirst(board, saved);
      RemoveFirstSorted(board, saved);
      SortAppendIsInsert(rest, score);
      assert multiset(rest + [score]) == multiset(rest) + multiset{score};
    }
  }

  /**
    When the recorded score is no longer on the board (it never made the
    top three), a higher score is taken in as on a first game over.
  */
  lemma ContinuedAfterDroppedScore(board: seq<int>, score: int, saved: int)
    requires saved !in board && score > saved
    ensures UpdatedLeaderboard(board, score, Some(saved)) == UpdatedLeaderboard(board, score, None)
  {
  }

  /** Whatever happens at a game over, a three-entry descending board stays three entries and descending. */
  lemma UpdateKeepsShape(board: seq<int>, score: int, lastSaved: Option<int>)
    requires |board| == Slots && SortedDesc(board)
    ensures UpdatedLeaderboard(board, score, lastSaved).Some? ==>
              |UpdatedLeaderboard(board, score, lastSaved).value| == Slots
              && SortedDesc(UpdatedLeaderboard(board, score, lastSaved).value)
  {
    match lastSaved
    case None =>
      FirstGameOverUpdate(board, score);
    case Some(saved) =>
      if score > saved {
        var rest := RemoveFirst(board, saved);
        RemoveFirstSorted(board, saved);
        SortAppendIsInsert(rest, score);
        assert |rest + [score]| >= Slots;
      }
  }

  /** The best entry never drops at a game over. */
  lemma BestNeverDrops(board: seq<int>, score: int, lastSaved: Option<int>)
    requires |board| == Slots && SortedDesc(board)
    ensures UpdatedLeaderboard(board, score, lastSaved).Some? ==>
              UpdatedLeaderboard(board, score, lastSaved).value[0] >= board[0]
  {
    match lastSaved
    case None =>
      FirstGameOverUpdate(board, score);
    case Some(saved) =>
      if score > saved {
        var pool := RemoveFirst(board, saved) + [score];
        var sorted := SortDesc(pool);
        var w := if saved == board[0] then score else board[0];
        assert w in pool by {
          if saved != board[0] {
            assert FirstIndex(board, saved) > 0;
          }
        }
        assert w in multiset(sorted);
        HeadIsMax(sorted, w);
      }
  }
}

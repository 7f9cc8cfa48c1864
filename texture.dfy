/** The board-texture check that picks the bet size: a board is "wet" when
    two of its cards sit next to each other in rank (or pair), once the
    ranks are sorted. */
module Texture {
  import opened Cards

  /** The evaluator's `get_rank_int`: a card's rank as an integer, 0 for the
      deuce up to 12 for the ace. */
  type RankOf = Card -> int

  /** `[Card.get_rank_int(c) for c in board]`. */
  function BoardRanks(board: seq<Card>, rankOf: RankOf): (ranks: seq<int>)
    ensures |ranks| == |board|
    ensures forall i :: 0 <= i < |board| ==> ranks[i] == rankOf(board[i])
  {
    seq(|board|, i requires 0 <= i < |board| => rankOf(board[i]))
  }

  predicate Sorted(s: seq<int>) {
    forall i, j :: 0 <= i < j < |s| ==> s[i] <= s[j]
  }

  /** x placed into the sorted list s before the first larger element. */
  function Insert(x: int, s: seq<int>): (r: seq<int>)
    requires Sorted(s)
    ensures Sorted(r)
    ensures multiset(r) == multiset(s) + multiset{x}
  {
    if s == [] then [x]
    else if x <= s[0] then [x] + s
    else
      assert s == [s[0]] + s[1..];
      var rest := Insert(x, s[1..]);
      assert forall i :: 0 <= i < |rest| ==> rest[i] in multiset(s[1..]) + multiset{x};
      [s[0]] + rest
  }

  /** `sorted(ranks)`: the same ranks in ascending order. */
  function SortRanks(s: seq<int>): (r: seq<int>)
    ensures Sorted(r)
    ensures multiset(r) == multiset(s)
    ensures |r| == |s|
  {
    if s == [] then []
    else
      assert s == [s[0]] + s[1..];
      Insert(s[0], SortRanks(s[1..]))
  }

  /** `any(ranks[i+1] - ranks[i] <= 1 for i in range(len(ranks)-1))`. */
  function SomeNeighboursClose(ranks: seq<int>): (close: bool)
    ensures close ==> |ranks| >= 2
  {
    exists i :: 0 <= i < |ranks| - 1 && ranks[i + 1] - ranks[i] <= 1
  }

  /** `is_wet`: false for an empty board, otherwise whether some two
      neighbours in the sorted ranks differ by at most one. */
  function IsWet(board: seq<Card>, rankOf: RankOf): (wet: bool)
    ensures wet ==> |board| >= 2
  {
    board != [] && SomeNeighboursClose(SortRanks(BoardRanks(board, rankOf)))
  }

  /** Two cards of the board (at different positions) whose ranks are equal
      or adjacent. */
  predicate HasCloseRanks(ranks: seq<int>) {
    exists i, j :: 0 <= i < |ranks| && 0 <= j < |ranks| && i != j && -1 <= ranks[i] - ranks[j] <= 1
  }

  /** A value found at two positions occurs at least twice. */
  lemma TwoPositionsCount(s: seq<int>, i: nat, j: nat)
    requires i < j < |s| && s[i] == s[j]
    ensures multiset(s)[s[i]] >= 2
  {
    assert s == s[..j] + [s[j]] + s[j + 1..];
    assert s[i] == s[..j][i];
    assert multiset(s) == multiset(s[..j]) + multiset{s[j]} + multiset(s[j + 1..]);
  }

  /** A value occurring at least twice is found at two positions. */
  lemma {:induction false} CountTwoPositions(s: seq<int>, v: int)
    requires multiset(s)[v] >= 2
    ensures exists i, j :: 0 <= i < j < |s| && s[i] == v && s[j] == v
  {
    assert s == [s[0]] + s[1..];
    assert multiset(s) == multiset{s[0]} + multiset(s[1..]);
    if s[0] == v {
      assert v in multiset(s[1..]);
      var k :| 0 <= k < |s[1..]| && s[1..][k] == v;
      assert s[k + 1] == v;
    } else {
      CountTwoPositions(s[1..], v);
      var i, j :| 0 <= i < j < |s[1..]| && s[1..][i] == v && s[1..][j] == v;
      assert s[i + 1] == v && s[j + 1] == v;
    }
  }

  /** In a sorted list, two values at most one apart force the neighbour of
      the first to be at most one above it. */
  lemma SortedCloseNeighbour(r: seq<int>, p: nat, q: nat)
    requires Sorted(r) && p < q < |r| && r[q] - r[p] <= 1
    ensures SomeNeighboursClose(r)
  {
    assert r[p] <= r[p + 1] <= r[q];
    assert r[p + 1] - r[p] <= 1;
  }

  /** Two values at different positions of s are found at different
      positions of any permutation r of s. */
  lemma PermutedPositions(s: seq<int>, r: seq<int>, i: nat, j: nat) returns (p: nat, q: nat)
    requires multiset(r) == multiset(s)
    requires i < |s| && j < |s| && i != j
    ensures p < |r| && q < |r| && p != q
    ensures r[p] == s[i] && r[q] == s[j]
  {
    if s[i] == s[j] {
      if i < j {
        TwoPositionsCount(s, i, j);
      } else {
        TwoPositionsCount(s, j, i);
      }
      CountTwoPositions(r, s[i]);
      p, q :| 0 <= p < q < |r| && r[p] == s[i] && r[q] == s[i];
    } else {
      assert s[i] in multiset(r) && s[j] in multiset(r);
      p :| 0 <= p < |r| && r[p] == s[i];
      q :| 0 <= q < |r| && r[q] == s[j];
    }
  }

  /** Sorting is invisible to the wetness test: the sorted ranks have two
      neighbours at most one apart exactly when the board has two cards of
      equal or adjacent rank. */
  lemma {:induction false} SortedNeighboursIff(s: seq<int>)
    ensures SomeNeighboursClose(SortRanks(s)) <==> HasCloseRanks(s)
  {
    var r := SortRanks(s);
    if SomeNeighboursClose(r) {
      var k :| 0 <= k < |r| - 1 && r[k + 1] - r[k] <= 1;
      var i, j := PermutedPositions(r, s, k, k + 1);
      assert -1 <= s[j] - s[i] <= 1;
    }
    if HasCloseRanks(s) {
      var i, j :| 0 <= i < |s| && 0 <= j < |s| && i != j && -1 <= s[i] - s[j] <= 1;
      var p, q := PermutedPositions(s, r, i, j);
      if p < q {
        SortedCloseNeighbour(r, p, q);
      } else {
        SortedCloseNeighbour(r, q, p);
      }
    }
  }

  /** The board is wet exactly when two of its cards have equal or adjacent
      ranks. */
  lemma IsWetIff(board: seq<Card>, rankOf: RankOf)
    ensures IsWet(board, rankOf) <==> HasCloseRanks(BoardRanks(board, rankOf))
  {
    SortedNeighboursIff(BoardRanks(board, rankOf));
  }

  /** A paired board is wet. */
  lemma PairedIsWet(board: seq<Card>, rankOf: RankOf, i: nat, j: nat)
    requires i < |board| && j < |board| && i != j && rankOf(board[i]) == rankOf(board[j])
    ensures IsWet(board, rankOf)
  {
    IsWetIff(board, rankOf);
    var ranks := BoardRanks(board, rankOf);
    assert -1 <= ranks[i] - ranks[j] <= 1;
  }

  /** An empty or one-card board is never wet. */
  lemma SmallBoardIsDry(board: seq<Card>, rankOf: RankOf)
    requires |board| <= 1
    ensures !IsWet(board, rankOf)
  {
  }
}

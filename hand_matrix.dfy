/** The 13x13 starting-hand grid shown as the range heatmap (get_hand_matrix):
    pairs on the diagonal, suited hands above it, offsuit hands below it. */
module HandMatrix {
  import opened Numbers

  /** RANKS, strongest first: index 0 is the ace, index 12 the deuce. */
  const Ranks: seq<char> := ['A', 'K', 'Q', 'J', 'T', '9', '8', '7', '6', '5', '4', '3', '2']

  const Size: nat := 13

  /** The position of a rank letter in Ranks. */
  function RankIndex(c: char): (k: nat)
    requires c in Ranks
    ensures k < Size && Ranks[k] == c
  {
    if c == 'A' then 0 else if c == 'K' then 1 else if c == 'Q' then 2
    else if c == 'J' then 3 else if c == 'T' then 4 else if c == '9' then 5
    else if c == '8' then 6 else if c == '7' then 7 else if c == '6' then 8
    else if c == '5' then 9 else if c == '4' then 10 else if c == '3' then 11
    else 12
  }

  /** No rank letter appears twice in Ranks. */
  lemma RanksDistinct(a: nat, b: nat)
    requires a < Size && b < Size && Ranks[a] == Ranks[b]
    ensures a == b
  {
    assert RankIndex(Ranks[a]) == a;
  }

  /** The label of cell (i, j): the stronger rank first, then "s" above the
      diagonal, "o" below it and nothing on it. */
  function HandLabel(i: nat, j: nat): (h: string)
    requires i < Size && j < Size
    ensures |h| == (if i == j then 2 else 3)
    ensures h[0] == Ranks[Min(i, j)] && h[1] == Ranks[Max(i, j)]
    ensures i < j ==> h[2] == 's'
    ensures j < i ==> h[2] == 'o'
  {
    if i == j then [Ranks[i], Ranks[j]]
    else if i < j then [Ranks[i], Ranks[j], 's']
    else [Ranks[j], Ranks[i], 'o']
  }

  /** get_hand_matrix without its pandas wrapper: row i, column j holds the
      label of cell (i, j). */
  method GetHandMatrix() returns (matrix: seq<seq<string>>)
    ensures |matrix| == Size
    ensures forall i :: 0 <= i < Size ==> |matrix[i]| == Size
    ensures forall i, j :: 0 <= i < Size && 0 <= j < Size ==> matrix[i][j] == HandLabel(i, j)
  {
    matrix := [];
    var i := 0;
    while i < Size
      invariant 0 <= i <= Size
      invariant |matrix| == i
      invariant forall a :: 0 <= a < i ==> |matrix[a]| == Size
      invariant forall a, b :: 0 <= a < i && 0 <= b < Size ==> matrix[a][b] == HandLabel(a, b)
    {
      var r1 := Ranks[i];
      var row: seq<string> := [];
      var j := 0;
      while j < Size
        invariant 0 <= j <= Size
        invariant |row| == j
        invariant forall b :: 0 <= b < j ==> row[b] == HandLabel(i, b)
      {
        var r2 := Ranks[j];
        var hand;
        if i == j {
          hand := [r1, r2];
        } else if i < j {
          hand := [r1, r2, 's'];
        } else {
          hand := [r2, r1, 'o'];
        }
        row := row + [hand];
        j := j + 1;
      }
      matrix := matrix + [row];
      i := i + 1;
    }
  }

  /** Each of the 169 cells holds a different label. */
  lemma HandLabelsDistinct(i: nat, j: nat, k: nat, l: nat)
    requires i < Size && j < Size && k < Size && l < Size
    requires HandLabel(i, j) == HandLabel(k, l)
    ensures i == k && j == l
  {
    var h := HandLabel(i, j);
    RanksDistinct(Min(i, j), Min(k, l));
    RanksDistinct(Max(i, j), Max(k, l));
    if i != j {
      assert k != l;
      assert (i < j) == (k < l) by {
        assert h[2] == HandLabel(k, l)[2];
      }
    }
  }

  /** The cells (i, j) and (j, i) name the same two ranks in the same order;
      off the diagonal one is the suited hand and the other the offsuit one. */
  lemma HandLabelMirror(i: nat, j: nat)
    requires i < Size && j < Size
    ensures HandLabel(i, j)[..2] == HandLabel(j, i)[..2]
    ensures i != j ==> {HandLabel(i, j)[2], HandLabel(j, i)[2]} == {'s', 'o'}
  {
  }

  /** Every suited hand and every offsuit hand of two different ranks is in
      the grid, and so is every pair: the grid covers all 169 starting hands. */
  lemma HandLabelCovers(hi: char, lo: char, suffix: string)
    requires hi in Ranks && lo in Ranks
    requires RankIndex(hi) < RankIndex(lo) && suffix in {"s", "o"}
    ensures suffix == "s" ==> HandLabel(RankIndex(hi), RankIndex(lo)) == [hi, lo] + suffix
    ensures suffix == "o" ==> HandLabel(RankIndex(lo), RankIndex(hi)) == [hi, lo] + suffix
    ensures HandLabel(RankIndex(hi), RankIndex(hi)) == [hi, hi]
  {
  }
}

/**
 * The fixed tables of the trainer: the thirteen ranks, the positions,
 * stacks and table sizes, the legal first-in positions per table size,
 * the 169-cell hand grid in row-major order, and the two preset grids.
 */
module Constants {
  import opened Js
  import opened Types

  /** Ranks from highest (index 0) to lowest (index 12). */
  const Ranks: seq<char> := ['A', 'K', 'Q', 'J', 'T', '9', '8', '7', '6', '5', '4', '3', '2']

  const AllPositions: seq<Position> := [UTG, UTG1, UTG2, LJ, HJ, CO, BTN, SB]

  const Stacks: seq<StackSize> := [BB5, BB10, BB15, BB20]

  const PlayerCounts: seq<nat> := [2, 4, 6, 9]

  /**
   * The legal first-in positions for each table size, in seat order; a
   * table size the record has no entry for has none.
   */
  function PositionsByPlayerCount(n: nat): seq<Position>
  {
    match n
    case 2 => [SB]
    case 4 => [CO, BTN, SB]
    case 6 => [LJ, HJ, CO, BTN, SB]
    case 9 => [UTG, UTG1, UTG2, LJ, HJ, CO, BTN, SB]
    case _ => []
  }

  /** The position of a rank symbol in Ranks, -1 when it is not one (RANKS.indexOf, RANK_MAP). */
  function RankIndex(c: char): int
  {
    IndexOf(Ranks, c)
  }

  lemma RanksDistinct()
    ensures |Ranks| == 13 && Ranks[0] == 'A' && Ranks[12] == '2'
    ensures forall i, j :: 0 <= i < j < |Ranks| ==> Ranks[i] != Ranks[j]
  {
  }

  /** Two ranks are the same symbol exactly when they have the same index. */
  lemma RankSymbols(k: int, j: int)
    requires 0 <= k < 13 && 0 <= j < 13
    ensures Ranks[k] == Ranks[j] <==> k == j
  {
    RanksDistinct();
  }

  /** Looking a rank symbol up gives back its index. */
  lemma RankIndexOf(k: int)
    requires 0 <= k < 13
    ensures RankIndex(Ranks[k]) == k
  {
    RanksDistinct();
    IndexOfDistinct(Ranks, k);
  }

  function Min(a: int, b: int): int { if a <= b then a else b }

  function Max(a: int, b: int): int { if a <= b then b else a }

  /** Row and column of cell i in the row-major 13x13 grid. */
  function Row(i: int): int { i / 13 }

  function Col(i: int): int { i % 13 }

  function CellIndex(row: int, col: int): int { row * 13 + col }

  function KindOf(row: int, col: int): HandType
  {
    if row == col then Pair else if row < col then Suited else Offsuit
  }

  /** The label of a cell: the higher rank (smaller index) first, then "s" or "o" off the diagonal. */
  function LabelOf(row: int, col: int): string
    requires 0 <= row < 13 && 0 <= col < 13
  {
    [Ranks[Min(row, col)], Ranks[Max(row, col)]]
    + (match KindOf(row, col) case Pair => "" case Suited => "s" case Offsuit => "o")
  }

  lemma CellCoordinates(row: int, col: int)
    requires 0 <= row < 13 && 0 <= col < 13
    ensures 0 <= CellIndex(row, col) < 169
    ensures Row(CellIndex(row, col)) == row && Col(CellIndex(row, col)) == col
  {
  }

  /** GRID_HANDS[i]. */
  function HandAt(i: int): (h: HandCell)
    requires 0 <= i < 169
    ensures h.row < 13 && h.col < 13 && CellIndex(h.row, h.col) == i
    ensures h.row == Row(i) && h.col == Col(i)
    ensures h.kind == Pair <==> h.row == h.col
    ensures h.kind == Suited <==> h.row < h.col
    ensures h.kind == Offsuit <==> h.row > h.col
    ensures |h.name| == (if h.kind == Pair then 2 else 3)
  {
    var row, col := Row(i), Col(i);
    HandCell(row, col, LabelOf(row, col), KindOf(row, col))
  }

  /** A label names the higher rank first: its two symbols look up to the smaller and the larger coordinate. */
  lemma LabelRanks(i: int)
    requires 0 <= i < 169
    ensures var h := HandAt(i);
      RankIndex(h.name[0]) == Min(h.row, h.col) && RankIndex(h.name[1]) == Max(h.row, h.col)
  {
    var h := HandAt(i);
    RankIndexOf(Min(h.row, h.col));
    RankIndexOf(Max(h.row, h.col));
  }

  /** The cell the grid loops build at (row, col) is GRID_HANDS[row * 13 + col]. */
  lemma CellBuilt(row: int, col: int, text: string, kind: HandType)
    requires 0 <= row < 13 && 0 <= col < 13
    requires row == col ==> text == [Ranks[row], Ranks[col]] && kind == Pair
    requires row < col ==> text == [Ranks[row], Ranks[col], 's'] && kind == Suited
    requires row > col ==> text == [Ranks[col], Ranks[row], 'o'] && kind == Offsuit
    ensures 0 <= CellIndex(row, col) < 169 && HandAt(CellIndex(row, col)) == HandCell(row, col, text, kind)
  {
    CellCoordinates(row, col);
  }

  /** The nested loops that build GRID_HANDS, row by row. */
  method BuildGridHands() returns (grid: seq<HandCell>)
    ensures |grid| == 169
    ensures forall i :: 0 <= i < 169 ==> grid[i] == HandAt(i)
  {
    grid := [];
    for row := 0 to 13
      invariant |grid| == row * 13
      invariant forall i :: 0 <= i < |grid| ==> grid[i] == HandAt(i)
    {
      for col := 0 to 13
        invariant |grid| == row * 13 + col
        invariant forall i :: 0 <= i < |grid| ==> grid[i] == HandAt(i)
      {
        var rank1, rank2 := Ranks[row], Ranks[col];
        var text: string;
        var kind: HandType;
        if row == col {
          text, kind := [rank1, rank2], Pair;
        } else if row < col {
          text, kind := [rank1, rank2, 's'], Suited;
        } else {
          text, kind := [rank2, rank1, 'o'], Offsuit;
        }
        CellBuilt(row, col, text, kind);
        GridGrows(grid, HandCell(row, col, text, kind));
        grid := grid + [HandCell(row, col, text, kind)];
      }
      assert row * 13 + 13 == (row + 1) * 13;
    }
  }

  /** Appending the next cell keeps the grid a prefix of GRID_HANDS. */
  lemma GridGrows(grid: seq<HandCell>, cell: HandCell)
    requires |grid| < 169 && forall i :: 0 <= i < |grid| ==> grid[i] == HandAt(i)
    requires cell == HandAt(|grid|)
    ensures forall i :: 0 <= i < |grid| + 1 ==> (grid + [cell])[i] == HandAt(i)
  {
  }

  /** The 169 labels are pairwise distinct. */
  lemma LabelsDistinct(i: int, j: int)
    requires 0 <= i < 169 && 0 <= j < 169
    requires HandAt(i).name == HandAt(j).name
    ensures i == j
  {
    var h, g := HandAt(i), HandAt(j);
    LabelRanks(i);
    LabelRanks(j);
    assert h.name[0] == g.name[0] && h.name[1] == g.name[1];
    assert Min(h.row, h.col) == Min(g.row, g.col) && Max(h.row, h.col) == Max(g.row, g.col);
    if h.kind != Pair {
      assert h.name[2] == g.name[2];
    }
  }

  /** EMPTY_RANGE: every hand folds. */
  function EmptyRange(): (g: RangeGrid)
    ensures |g| == 169 && forall i :: 0 <= i < 169 ==> !g[i]
  {
    seq(169, _ => false)
  }

  /** The heuristic behind DEFAULT_PRESET_BTN_10BB, applied to one cell. */
  function PresetPushes(h: HandCell): bool
    requires |h.name| >= 2
  {
    var r1Idx := IndexOf(Ranks, h.name[0]);
    var r2Idx := IndexOf(Ranks, h.name[1]);
    if h.kind == Pair then true
    else if 'A' in h.name then true
    else if 'K' in h.name && h.kind == Suited then true
    else if r1Idx < 5 && r2Idx < 5 then true
    else false
  }

  /** DEFAULT_PRESET_BTN_10BB: GRID_HANDS mapped through the heuristic. */
  function DefaultPreset(): (g: RangeGrid)
    ensures |g| == 169
  {
    seq(169, i requires 0 <= i < 169 => PresetPushes(HandAt(i)))
  }

  /**
   * The preset pushes exactly every pair, every ace, every suited king and
   * every hand of two ranks from ace to ten.
   */
  lemma DefaultPresetCells(i: int)
    requires 0 <= i < 169
    ensures DefaultPreset()[i] <==>
      var r, c := Row(i), Col(i);
      r == c || r == 0 || c == 0 || (r == 1 && c > 1) || (r < 5 && c < 5)
  {
    var h := HandAt(i);
    PresetRule(i);
    assert DefaultPreset()[i] == PresetPushes(h);
  }

  /** The heuristic in terms of the cell's shape and its higher and lower rank. */
  lemma PresetRule(i: int)
    requires 0 <= i < 169
    ensures var h := HandAt(i);
      PresetPushes(h) == (h.kind == Pair || Min(h.row, h.col) == 0 || (Min(h.row, h.col) == 1 && h.kind == Suited)
                          || Max(h.row, h.col) < 5)
  {
    var h := HandAt(i);
    var lo, hi := Min(h.row, h.col), Max(h.row, h.col);
    LabelHoldsRank(i, 0);
    LabelHoldsRank(i, 1);
    LabelRanks(i);
    assert IndexOf(Ranks, h.name[0]) == lo && IndexOf(Ranks, h.name[1]) == hi;
  }

  /** A label contains a rank symbol exactly when that rank is one of the cell's coordinates. */
  lemma LabelHoldsRank(i: int, k: int)
    requires 0 <= i < 169 && 0 <= k < 13
    ensures var h := HandAt(i);
      Ranks[k] in h.name <==> Min(h.row, h.col) == k || Max(h.row, h.col) == k
  {
    var h := HandAt(i);
    var lo, hi := Min(h.row, h.col), Max(h.row, h.col);
    var suffix := match h.kind case Pair => "" case Suited => "s" case Offsuit => "o";
    assert h.name == [Ranks[lo], Ranks[hi]] + suffix;
    assert Ranks[k] !in suffix;
    RankSymbols(lo, k);
    RankSymbols(hi, k);
  }

  /** a is an order-preserving subsequence of b. */
  predicate IsSubsequence<T(==)>(a: seq<T>, b: seq<T>)
    decreases |a| + |b|
  {
    |a| == 0 || (|b| > 0 && if a[0] == b[0] then IsSubsequence(a[1..], b[1..]) else IsSubsequence(a, b[1..]))
  }

  /**
   * Every legal first-in list is an order-preserving subsequence of
   * AllPositions, never holds BB and ends with SB; heads-up allows only SB
   * and nine-handed all eight positions.
   */
  lemma PositionTables()
    ensures forall n: nat :: n in PlayerCounts ==>
      && IsSubsequence(PositionsByPlayerCount(n), AllPositions)
      && BB !in PositionsByPlayerCount(n)
      && PositionsByPlayerCount(n)[|PositionsByPlayerCount(n)| - 1] == SB
    ensures PositionsByPlayerCount(2) == [SB]
    ensures PositionsByPlayerCount(9) == AllPositions
  {
    assert IsSubsequence([SB], AllPositions);
    assert IsSubsequence([CO, BTN, SB], AllPositions);
    assert IsSubsequence([LJ, HJ, CO, BTN, SB], AllPositions);
    assert IsSubsequence(AllPositions, AllPositions);
  }

  /** The table sizes with legal positions are exactly the ones the trainer offers. */
  lemma PositionTableKeys(n: nat)
    ensures PositionsByPlayerCount(n) != [] <==> n in PlayerCounts
  {
  }
}

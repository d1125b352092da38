/**
 * The range editor: the table size, position and stack being edited, the
 * grid shown for them, whether it has unsaved edits, and the import box.
 *
 * Each handler is a method. A React effect runs after the state it depends
 * on changes, so a handler that changes the table size, the position, the
 * stack or the ranges ends by running the effects that change triggers:
 * position correction, then loading the grid. Confirmation dialogs are
 * boolean inputs.
 */
module RangeEditor {
  import opened Js
  import opened Types
  import opened Constants
  import opened HandParser
  import opened Storage

  /** A copy of grid with the cell at index flipped. */
  function Toggled(grid: RangeGrid, index: int): (r: RangeGrid)
    requires 0 <= index < |grid|
    ensures |r| == |grid| && r[index] == !grid[index]
    ensures forall j :: 0 <= j < |grid| && j != index ==> r[j] == grid[j]
  {
    grid[index := !grid[index]]
  }

  /** Toggling a cell twice gives back the grid. */
  lemma ToggleTwice(grid: RangeGrid, index: int)
    requires 0 <= index < |grid|
    ensures Toggled(Toggled(grid, index), index) == grid
  {
    var once := Toggled(grid, index);
    var twice := Toggled(once, index);
    assert forall j :: 0 <= j < |grid| ==> twice[j] == grid[j];
  }

  /** Toggling two cells gives the same grid in either order. */
  lemma TogglesCommute(grid: RangeGrid, i: int, j: int)
    requires 0 <= i < |grid| && 0 <= j < |grid|
    ensures Toggled(Toggled(grid, i), j) == Toggled(Toggled(grid, j), i)
  {
    var a, b := Toggled(Toggled(grid, i), j), Toggled(Toggled(grid, j), i);
    assert forall k :: 0 <= k < |grid| ==> a[k] == b[k];
  }

  /** The position-correction effect: an illegal position becomes the last legal one, if there is one. */
  function CorrectedPosition(players: nat, position: Position): (p: Position)
    ensures var valid := PositionsByPlayerCount(players);
      && (valid != [] ==> p in valid)
      && (position in valid ==> p == position)
      && (position !in valid && valid != [] ==> p == valid[|valid| - 1])
      && (valid == [] ==> p == position)
  {
    var validPositions := PositionsByPlayerCount(players);
    if position !in validPositions && |validPositions| > 0 then validPositions[|validPositions| - 1] else position
  }

  /** At every table size on offer the correction lands on SB, and correcting again changes nothing. */
  lemma CorrectionGoesToSmallBlind(players: nat, position: Position)
    requires players in PlayerCounts && position !in PositionsByPlayerCount(players)
    ensures CorrectedPosition(players, position) == SB
    ensures CorrectedPosition(players, CorrectedPosition(players, position)) == SB
  {
    PositionTables();
    PositionTableKeys(players);
  }

  /** What an import does with its text. */
  datatype ImportOutcome = Ignored | CouldNotParse | Imported

  /** Text that trims to nothing. */
  predicate Blank(text: string)
  {
    Trim(text) == []
  }

  /** The text marks no cell as a push. */
  predicate SelectsNothing(text: string)
  {
    forall i :: 0 <= i < 169 ==> !RangeSelects(text, i)
  }

  /** grid is the 169-cell parse of text. */
  predicate ParsesTo(text: string, grid: RangeGrid)
  {
    |grid| == 169 && forall i :: 0 <= i < 169 ==> grid[i] == RangeSelects(text, i)
  }

  /**
   * The decision of handleImport: blank text is ignored, text whose parse
   * has no pushed cell cannot be parsed, anything else imports the parse.
   */
  method ReadImport(text: string) returns (outcome: ImportOutcome, grid: RangeGrid)
    ensures outcome == Ignored <==> Blank(text)
    ensures outcome == CouldNotParse <==> !Blank(text) && SelectsNothing(text)
    ensures outcome == Imported ==> ParsesTo(text, grid)
  {
    grid := [];
    if Trim(text) == [] {
      return Ignored, grid;
    }
    assert |text| > 0 by {
      assert AllWhiteSpace([]);
    }
    var parsedGrid := ParseRangeString(text);
    var hasTrue := true in parsedGrid;
    if !hasTrue && |text| > 0 {
      return CouldNotParse, grid;
    }
    return Imported, parsedGrid;
  }

  class Editor {
    var ranges: RangeStorage
    var players: nat
    var position: Position
    var stack: StackSize
    var currentGrid: RangeGrid
    var isDirty: bool
    var importText: string
    const store: Store

    /** The initial state, before the effects run. */
    constructor(store0: Store)
      ensures store == store0 && ranges == map[] && players == 6 && position == BTN && stack == BB10
      ensures currentGrid == [] && !isDirty && importText == ""
    {
      store := store0;
      ranges := map[];
      players := 6;
      position := BTN;
      stack := BB10;
      currentGrid := [];
      isDirty := false;
      importText := "";
    }

    /** The storage key of the context being edited. */
    function Key(): string
      reads this
    {
      StorageKey(players, position, stack)
    }

    /** The grid-load effect: show the stored grid for the context, or an all-fold grid; no unsaved edits. */
    method LoadGrid()
      modifies this
      ensures currentGrid == StoredGrid(ranges, Key()) && !isDirty
      ensures ranges == old(ranges) && players == old(players) && position == old(position)
      ensures stack == old(stack) && importText == old(importText)
    {
      var key := StorageKey(players, position, stack);
      var existing := StoredGrid(ranges, key);
      currentGrid := existing;
      isDirty := false;
    }

    /** The position-correction effect. */
    method CorrectPosition()
      modifies this
      ensures position == CorrectedPosition(players, old(position))
      ensures ranges == old(ranges) && players == old(players) && stack == old(stack)
      ensures currentGrid == old(currentGrid) && isDirty == old(isDirty) && importText == old(importText)
    {
      var validPositions := PositionsByPlayerCount(players);
      if position !in validPositions {
        if |validPositions| > 0 {
          position := validPositions[|validPositions| - 1];
        }
      }
    }

    /** Mounting: load the stored ranges, then the effects run on the initial context. */
    method Mount()
      modifies this
      ensures ranges == store.LoadRanges()
      ensures players == old(players) && stack == old(stack) && importText == old(importText)
      ensures position == CorrectedPosition(players, old(position))
      ensures currentGrid == StoredGrid(ranges, Key()) && !isDirty
    {
      ranges := store.LoadRanges();
      CorrectPosition();
      LoadGrid();
    }

    /** handleToggle: flip one cell of a copy and mark the grid as edited. */
    method HandleToggle(index: int)
      requires 0 <= index < |currentGrid|
      modifies this
      ensures currentGrid == Toggled(old(currentGrid), index) && isDirty
      ensures ranges == old(ranges) && players == old(players) && position == old(position)
      ensures stack == old(stack) && importText == old(importText)
    {
      var newGrid := currentGrid;
      newGrid := newGrid[index := !newGrid[index]];
      currentGrid := newGrid;
      isDirty := true;
    }

    /**
     * handleSave: store the grid under the context's key, take the stored
     * ranges as the editor's, and reload the grid, which gives it back.
     */
    method HandleSave()
      modifies this, store
      ensures store.ranges == Present(old(store.LoadRanges())[old(Key()) := old(currentGrid)])
      ensures store.results == old(store.results)
      ensures ranges == store.LoadRanges() && StoredGrid(ranges, Key()) == old(currentGrid)
      ensures currentGrid == old(currentGrid) && !isDirty
      ensures players == old(players) && position == old(position) && stack == old(stack)
      ensures importText == old(importText)
    {
      var key := StorageKey(players, position, stack);
      var updatedRanges := store.SaveRange(key, currentGrid);
      ranges := updatedRanges;
      isDirty := false;
      LoadGrid();
    }

    /** handleClear: when confirmed, an all-fold grid with unsaved edits. */
    method HandleClear(confirmed: bool)
      modifies this
      ensures confirmed ==> currentGrid == EmptyRange() && isDirty
      ensures !confirmed ==> currentGrid == old(currentGrid) && isDirty == old(isDirty)
      ensures ranges == old(ranges) && players == old(players) && position == old(position)
      ensures stack == old(stack) && importText == old(importText)
    {
      if confirmed {
        currentGrid := EmptyRange();
        isDirty := true;
      }
    }

    /** handleResetAll: when confirmed, drop every custom range and show the defaults. */
    method HandleResetAll(confirmed: bool)
      modifies this, store
      ensures store.results == old(store.results)
      ensures confirmed ==> store.ranges == Absent && ranges == DefaultRanges()
      ensures confirmed ==> currentGrid == StoredGrid(DefaultRanges(), Key()) && !isDirty
      ensures !confirmed ==> store.ranges == old(store.ranges) && ranges == old(ranges)
      ensures !confirmed ==> currentGrid == old(currentGrid) && isDirty == old(isDirty)
      ensures players == old(players) && position == old(position) && stack == old(stack)
      ensures importText == old(importText)
    {
      if confirmed {
        var defaults := store.ResetRanges();
        ranges := defaults;
        LoadGrid();
      }
    }

    /**
     * handleImport: blank text is ignored; text that selects no cell raises
     * an alert and changes nothing; otherwise the parsed grid replaces the
     * current one, and the import box is emptied.
     */
    method HandleImport() returns (outcome: ImportOutcome)
      modifies this
      ensures outcome == Ignored <==> Blank(old(importText))
      ensures outcome == CouldNotParse <==> !Blank(old(importText)) && SelectsNothing(old(importText))
      ensures outcome != Imported ==>
        currentGrid == old(currentGrid) && isDirty == old(isDirty) && importText == old(importText)
      ensures outcome == Imported ==> ParsesTo(old(importText), currentGrid) && isDirty && importText == ""
      ensures ranges == old(ranges) && players == old(players) && position == old(position) && stack == old(stack)
    {
      var grid;
      outcome, grid := ReadImport(importText);
      if outcome == Imported {
        ShowImported(grid);
      }
    }

    /** An accepted import: the parsed grid replaces the current one, which is now edited, and the box is emptied. */
    method ShowImported(grid: RangeGrid)
      modifies this
      ensures currentGrid == grid && isDirty && importText == ""
      ensures ranges == old(ranges) && players == old(players) && position == old(position) && stack == old(stack)
    {
      currentGrid := grid;
      isDirty := true;
      importText := "";
    }

    /** Typing into the import box. */
    method SetImportText(text: string)
      modifies this
      ensures importText == text
      ensures ranges == old(ranges) && players == old(players) && position == old(position) && stack == old(stack)
      ensures currentGrid == old(currentGrid) && isDirty == old(isDirty)
    {
      importText := text;
    }

    /** Choosing a table size: the position is corrected and the grid for the new context is shown. */
    method SelectPlayers(count: nat)
      modifies this
      ensures players == count && position == CorrectedPosition(count, old(position))
      ensures PositionsByPlayerCount(count) != [] ==> position in PositionsByPlayerCount(count)
      ensures currentGrid == StoredGrid(ranges, Key()) && !isDirty
      ensures ranges == old(ranges) && stack == old(stack) && importText == old(importText)
    {
      players := count;
      CorrectPosition();
      LoadGrid();
    }

    /** Choosing a position. */
    method SelectPosition(p: Position)
      modifies this
      ensures players == old(players) && position == CorrectedPosition(players, p)
      ensures currentGrid == StoredGrid(ranges, Key()) && !isDirty
      ensures ranges == old(ranges) && stack == old(stack) && importText == old(importText)
    {
      position := p;
      CorrectPosition();
      LoadGrid();
    }

    /** Choosing a stack depth. */
    method SelectStack(s: StackSize)
      modifies this
      ensures stack == s && players == old(players) && position == old(position)
      ensures currentGrid == StoredGrid(ranges, Key()) && !isDirty
      ensures ranges == old(ranges) && importText == old(importText)
    {
      stack := s;
      LoadGrid();
    }
  }

  /** On a store holding nothing parsable, the editor opens on the preset button range. */
  lemma FreshStoreShowsPreset(ranges: RangeStorage)
    requires ranges == LoadedRanges(Absent)
    ensures StoredGrid(ranges, StorageKey(6, BTN, BB10)) == DefaultPreset()
  {
    DefaultKeyText();
  }
}

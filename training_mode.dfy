/**
 * The quiz: dealing two cards onto a grid cell, sampling a scenario from
 * the player's filters, judging an answer and moving between the setup,
 * quiz and feedback phases.
 *
 * Random numbers are nondeterministic choices: a method's contract holds
 * for every choice. The redraw loop that makes the second card differ from
 * the first is replaced by choosing two different card numbers.
 */
module TrainingMode {
  import opened Js
  import opened Types
  import opened Constants
  import opened HandParser
  import opened Storage

  // ---------------------------------------------------------------------
  // Cards

  const Suits: seq<char> := ['s', 'h', 'd', 'c']

  datatype Card = Card(rank: char, suit: char, rankIdx: int, suitIdx: int)

  /** getCardFromInt: card number v is rank v div 4 and suit v mod 4. */
  function CardFromInt(v: int): (c: Card)
    requires 0 <= v < 52
    ensures 0 <= c.rankIdx < 13 && 0 <= c.suitIdx < 4
    ensures c.rankIdx * 4 + c.suitIdx == v
    ensures c.rank == Ranks[c.rankIdx] && c.suit == Suits[c.suitIdx]
  {
    var rankIdx := v / 4;
    var suitIdx := v % 4;
    Card(Ranks[rankIdx], Suits[suitIdx], rankIdx, suitIdx)
  }

  /** A card getCardFromInt can return. */
  predicate ValidCard(c: Card)
  {
    0 <= c.rankIdx < 13 && 0 <= c.suitIdx < 4 && c.rank == Ranks[c.rankIdx] && c.suit == Suits[c.suitIdx]
  }

  /** Every rank and suit is dealt by exactly one card number. */
  lemma CardFromIntBijective(rank: int, suit: int, v: int)
    requires 0 <= rank < 13 && 0 <= suit < 4 && 0 <= v < 52
    ensures 0 <= rank * 4 + suit < 52
    ensures CardFromInt(rank * 4 + suit).rankIdx == rank && CardFromInt(rank * 4 + suit).suitIdx == suit
    ensures CardFromInt(v).rankIdx == rank && CardFromInt(v).suitIdx == suit ==> v == rank * 4 + suit
  {
    var c := CardFromInt(rank * 4 + suit);
    assert c.rankIdx * 4 + c.suitIdx == rank * 4 + suit;
  }

  /** Two different card numbers are two different cards. */
  lemma DistinctCards(c1: int, c2: int)
    requires 0 <= c1 < 52 && 0 <= c2 < 52 && c1 != c2
    ensures CardFromInt(c1).rankIdx != CardFromInt(c2).rankIdx || CardFromInt(c1).suitIdx != CardFromInt(c2).suitIdx
  {
  }

  /** The cell of the cards' ranks: whether they pair, share a suit, or neither. */
  function CellOfCards(card1: Card, card2: Card): (index: int)
    requires 0 <= card1.rankIdx < 13 && 0 <= card2.rankIdx < 13
    ensures 0 <= index < 169
    ensures HandAt(index).kind == Pair <==> card1.rankIdx == card2.rankIdx
    ensures HandAt(index).kind == Suited <==> card1.rankIdx != card2.rankIdx && card1.suitIdx == card2.suitIdx
    ensures HandAt(index).kind == Offsuit <==> card1.rankIdx != card2.rankIdx && card1.suitIdx != card2.suitIdx
    ensures Min(Row(index), Col(index)) == Min(card1.rankIdx, card2.rankIdx)
    ensures Max(Row(index), Col(index)) == Max(card1.rankIdx, card2.rankIdx)
  {
    var rc :=
      if card1.rankIdx == card2.rankIdx then (card1.rankIdx, card1.rankIdx)
      else if card1.suitIdx == card2.suitIdx then (Min(card1.rankIdx, card2.rankIdx), Max(card1.rankIdx, card2.rankIdx))
      else (Max(card1.rankIdx, card2.rankIdx), Min(card1.rankIdx, card2.rankIdx));
    var row, col := rc.0, rc.1;
    CellCoordinates(row, col);
    CellIndex(row, col)
  }

  /** drawRandomHand once its two card numbers are drawn; they differ. */
  function DrawnHandIndex(c1: int, c2: int): (index: int)
    requires 0 <= c1 < 52 && 0 <= c2 < 52 && c1 != c2
    ensures 0 <= index < 169
  {
    CellOfCards(CardFromInt(c1), CardFromInt(c2))
  }


  /** The dealt cell does not depend on which card came first. */
  lemma DrawSymmetric(c1: int, c2: int)
    requires 0 <= c1 < 52 && 0 <= c2 < 52 && c1 != c2
    ensures DrawnHandIndex(c1, c2) == DrawnHandIndex(c2, c1)
  {
    var i, j := DrawnHandIndex(c1, c2), DrawnHandIndex(c2, c1);
    assert Row(i) == Row(j) && Col(i) == Col(j);
    assert i == CellIndex(Row(i), Col(i)) && j == CellIndex(Row(j), Col(j));
  }

  /**
   * The dealt cell's label names the two card ranks, the higher first, with
   * "s" when the cards share a suit and "o" when they do not.
   */
  lemma DealtLabel(c1: int, c2: int)
    requires 0 <= c1 < 52 && 0 <= c2 < 52 && c1 != c2
    ensures var a, b := CardFromInt(c1), CardFromInt(c2);
      HandAt(DrawnHandIndex(c1, c2)).name
      == [Ranks[Min(a.rankIdx, b.rankIdx)], Ranks[Max(a.rankIdx, b.rankIdx)]]
         + (if a.rankIdx == b.rankIdx then "" else if a.suitIdx == b.suitIdx then "s" else "o")
  {
  }

  /** Parsing the dealt hand's label selects exactly the dealt cell. */
  lemma DealtHandParses(c1: int, c2: int, j: int)
    requires 0 <= c1 < 52 && 0 <= c2 < 52 && c1 != c2 && 0 <= j < 169
    ensures RangeSelects(HandAt(DrawnHandIndex(c1, c2)).name, j) <==> j == DrawnHandIndex(c1, c2)
  {
    ParseLabel(DrawnHandIndex(c1, c2), j);
  }

  /** A pair is dealt by two cards of its rank. */
  lemma PairDealt(r: int)
    requires 0 <= r < 13
    ensures DrawnHandIndex(r * 4, r * 4 + 1) == CellIndex(r, r)
  {
    CardFromIntBijective(r, 0, 0);
    CardFromIntBijective(r, 1, 0);
  }

  /** A suited hand (row above column) is dealt by two spades. */
  lemma SuitedDealt(r: int, c: int)
    requires 0 <= r < c < 13
    ensures DrawnHandIndex(r * 4, c * 4) == CellIndex(r, c)
  {
    CardFromIntBijective(r, 0, 0);
    CardFromIntBijective(c, 0, 0);
    var a, b := CardFromInt(r * 4), CardFromInt(c * 4);
    assert a.rankIdx == r && b.rankIdx == c && a.suitIdx == b.suitIdx;
    assert CellOfCards(a, b) == CellIndex(Min(r, c), Max(r, c));
  }

  /** An offsuit hand (row below column) is dealt by a spade and a heart. */
  lemma OffsuitDealt(r: int, c: int)
    requires 0 <= c < r < 13
    ensures DrawnHandIndex(r * 4, c * 4 + 1) == CellIndex(r, c)
  {
    CardFromIntBijective(r, 0, 0);
    CardFromIntBijective(c, 1, 0);
    var a, b := CardFromInt(r * 4), CardFromInt(c * 4 + 1);
    assert a.rankIdx == r && b.rankIdx == c && a.suitIdx != b.suitIdx;
    assert CellOfCards(a, b) == CellIndex(Max(r, c), Min(r, c));
  }

  /** Every cell of the grid can be dealt. */
  lemma EveryCellDealt(i: int)
    requires 0 <= i < 169
    ensures exists c1, c2 :: 0 <= c1 < 52 && 0 <= c2 < 52 && c1 != c2 && DrawnHandIndex(c1, c2) == i
  {
    var r, c := Row(i), Col(i);
    assert i == CellIndex(r, c);
    if r == c {
      PairDealt(r);
      assert DrawnHandIndex(r * 4, r * 4 + 1) == i;
    } else if r < c {
      SuitedDealt(r, c);
      assert DrawnHandIndex(r * 4, c * 4) == i;
    } else {
      OffsuitDealt(r, c);
      assert DrawnHandIndex(r * 4, c * 4 + 1) == i;
    }
  }

  // ---------------------------------------------------------------------
  // Scenarios and answers

  datatype Phase = Setup | Quiz | Feedback

  datatype Scenario = Scenario(
    players: nat,
    pos: Position,
    stack: StackSize,
    hand: HandCell,
    handIndex: int,
    shouldPush: bool,
    handCards: seq<Card>)

  /** validRange[handIndex], where reading past the end gives undefined, which counts as fold. */
  predicate CellPushes(grid: RangeGrid, index: int)
  {
    0 <= index < |grid| && grid[index]
  }

  /** A scenario whose range was never saved always expects a fold. */
  lemma MissingRangeFolds(ranges: RangeStorage, key: string, index: int)
    requires key !in ranges
    ensures !CellPushes(StoredGrid(ranges, key), index)
  {
  }

  /** What a scenario must be, whatever the filters are now. */
  predicate LegalScenario(s: Scenario)
  {
    && s.players in PlayerCounts
    && s.pos in PositionsByPlayerCount(s.players)
    && 0 <= s.handIndex < 169
    && s.hand == HandAt(s.handIndex)
    && |s.handCards| == 2
    && ValidCard(s.handCards[0]) && ValidCard(s.handCards[1]) && s.handCards[0] != s.handCards[1]
    && s.handIndex == CellOfCards(s.handCards[0], s.handCards[1])
  }

  /** The record handleAnswer stores. */
  function Judge(s: Scenario, action: Action, timestamp: int): (r: QuizResult)
    ensures r.correct <==> r.userAction == r.correctAction
    ensures r.correctAction == Push <==> s.shouldPush
    ensures r.userAction == action && r.timestamp == timestamp
    ensures r.handLabel == s.hand.name && r.scenarioKey == StorageKey(s.players, s.pos, s.stack)
  {
    var isCorrect := (action == Push && s.shouldPush) || (action == Fold && !s.shouldPush);
    QuizResult(isCorrect, action, if s.shouldPush then Push else Fold, s.hand.name,
      StorageKey(s.players, s.pos, s.stack), timestamp)
  }

  /** Two results with one scenario key come from the same players, position and stack. */
  lemma ResultKeyIdentifiesScenario(s: Scenario, t: Scenario, a: Action, b: Action, ts: int, tt: int)
    requires Judge(s, a, ts).scenarioKey == Judge(t, b, tt).scenarioKey
    ensures s.players == t.players && s.pos == t.pos && s.stack == t.stack
  {
    StorageKeyInjective(s.players, s.pos, s.stack, t.players, t.pos, t.stack);
  }

  /** No table size in counts has a position in positions that is legal for it. */
  predicate NoLegalPair(counts: seq<nat>, positions: seq<Position>)
  {
    forall n, p :: n in counts && p in positions ==> p !in PositionsByPlayerCount(n)
  }

  /** A legal scenario drawn from the given filters, judged against ranges. */
  predicate Fits(s: Scenario, counts: seq<nat>, positions: seq<Position>, stacks: seq<StackSize>, ranges: RangeStorage)
  {
    && LegalScenario(s)
    && s.players in counts
    && s.pos in positions
    && s.stack in stacks
    && s.shouldPush == CellPushes(StoredGrid(ranges, StorageKey(s.players, s.pos, s.stack)), s.handIndex)
  }

  /** The scenario startNextHand builds from its picks. */
  function DrawnScenario(players: nat, pos: Position, stack: StackSize, c1: int, c2: int, ranges: RangeStorage): Scenario
    requires 0 <= c1 < 52 && 0 <= c2 < 52 && c1 != c2
  {
    var handIndex := DrawnHandIndex(c1, c2);
    var validRange := StoredGrid(ranges, StorageKey(players, pos, stack));
    Scenario(players, pos, stack, HandAt(handIndex), handIndex, CellPushes(validRange, handIndex),
      [CardFromInt(c1), CardFromInt(c2)])
  }

  /** A table size and a position the filters offer, the position legal at that size. */
  predicate LegalPick(players: nat, pos: Position, counts: seq<nat>, positions: seq<Position>)
  {
    players in counts && pos in positions && pos in PositionsByPlayerCount(players)
  }

  /**
   * The retry loop of startNextHand: at most 50 times, pick a table size at
   * random and stop at the first one with a legal position among those on
   * offer, picking one of them at random.
   */
  method PickTable(counts: seq<nat>, positions: seq<Position>) returns (found: Option<(nat, Position)>, attempts: nat)
    requires |counts| > 0
    ensures 1 <= attempts <= 50
    ensures found.Some? ==> LegalPick(found.value.0, found.value.1, counts, positions)
    ensures found.None? ==> attempts == 50
  {
    found := None;
    attempts := 0;
    while attempts < 50
      invariant 0 <= attempts <= 50
      invariant found.None?
    {
      var pi :| 0 <= pi < |counts|;
      var players := counts[pi];
      var validAndSelected := FilterIncludes(positions, PositionsByPlayerCount(players));
      attempts := attempts + 1;
      if |validAndSelected| > 0 {
        var qi :| 0 <= qi < |validAndSelected|;
        found := Some((players, validAndSelected[qi]));
        return;
      }
    }
  }

  /** The built scenario fits the filters, which therefore allow a legal choice. */
  lemma DrawnScenarioFits(players: nat, pos: Position, stack: StackSize, c1: int, c2: int,
                          counts: seq<nat>, positions: seq<Position>, stacks: seq<StackSize>, ranges: RangeStorage)
    requires LegalPick(players, pos, counts, positions) && stack in stacks
    requires 0 <= c1 < 52 && 0 <= c2 < 52 && c1 != c2
    ensures Fits(DrawnScenario(players, pos, stack, c1, c2, ranges), counts, positions, stacks, ranges)
    ensures !NoLegalPair(counts, positions)
  {
    DistinctCards(c1, c2);
  }

  /**
   * startNextHand once its filters are known to be non-empty: find a table
   * size and position, then pick a stack and two different cards.
   */
  method DrawScenarioFrom(counts: seq<nat>, positions: seq<Position>, stacks: seq<StackSize>, ranges: RangeStorage)
    returns (drawn: Option<Scenario>)
    requires |counts| > 0 && |stacks| > 0
    ensures drawn.Some? ==> Fits(drawn.value, counts, positions, stacks, ranges)
    ensures NoLegalPair(counts, positions) ==> drawn.None?
  {
    var found, _ := PickTable(counts, positions);
    if found.None? {
      return None;
    }
    var si :| 0 <= si < |stacks|;
    assert 0 <= 0 < 52 && 0 <= 1 < 52 && 0 != 1;
    var c1, c2 :| 0 <= c1 < 52 && 0 <= c2 < 52 && c1 != c2;
    var players, pos, stack := found.value.0, found.value.1, stacks[si];
    DrawnScenarioFits(players, pos, stack, c1, c2, counts, positions, stacks, ranges);
    return Some(DrawnScenario(players, pos, stack, c1, c2, ranges));
  }

  /** The result of startNextHand. */
  datatype StartOutcome = Started | EmptyFilterAlert | NoValidScenarioAlert

  // ---------------------------------------------------------------------
  // The training view's state

  class Trainer {
    var phase: Phase
    var ranges: RangeStorage
    var selectedPlayerCounts: map<nat, bool>
    var selectedPos: map<Position, bool>
    var selectedStacks: map<StackSize, bool>
    var currentScenario: Option<Scenario>
    var lastResult: Option<QuizResult>
    var stats: seq<QuizResult>
    const store: Store

    /** The phases only ever show a scenario or a result that exists. */
    predicate Valid()
      reads this
    {
      && (currentScenario.Some? ==> LegalScenario(currentScenario.value))
      && (phase != Setup ==> currentScenario.Some?)
      && (phase == Feedback ==> lastResult.Some?)
    }

    /** The initial state: 6-handed only, every position and stack, the stored results as stats. */
    constructor(store0: Store)
      ensures Valid()
      ensures store == store0 && phase == Setup && ranges == map[]
      ensures selectedPlayerCounts == map[2 := false, 4 := false, 6 := true, 9 := false]
      ensures forall p :: p in AllPositions ==> Selected(selectedPos, p)
      ensures forall s :: s in Stacks ==> Selected(selectedStacks, s)
      ensures currentScenario == None && lastResult == None
      ensures stats == store0.GetResults()
    {
      store := store0;
      phase := Setup;
      ranges := map[];
      selectedPlayerCounts := map[2 := false, 4 := false, 6 := true, 9 := false];
      selectedPos := map[UTG := true, UTG1 := true, UTG2 := true, LJ := true, HJ := true, CO := true, BTN := true, SB := true];
      selectedStacks := map[BB5 := true, BB10 := true, BB15 := true, BB20 := true];
      currentScenario := None;
      lastResult := None;
      stats := store0.GetResults();
    }

    /** The mount effect: the stored ranges replace the empty initial map. */
    method LoadStoredRanges()
      modifies this
      ensures ranges == store.LoadRanges()
      ensures phase == old(phase) && currentScenario == old(currentScenario) && lastResult == old(lastResult)
      ensures selectedPlayerCounts == old(selectedPlayerCounts) && selectedPos == old(selectedPos)
      ensures selectedStacks == old(selectedStacks) && stats == old(stats)
    {
      ranges := store.LoadRanges();
    }

    /**
     * startNextHand: with an empty filter, alert and do nothing; otherwise try
     * at most 50 random table sizes, and at the first one with an active
     * legal position pick that position, a stack and two cards, and show the
     * quiz. When every attempt fails, alert and do nothing.
     */
    method StartNextHand() returns (outcome: StartOutcome)
      requires Valid()
      modifies this
      ensures Valid()
      ensures ranges == old(ranges) && lastResult == old(lastResult) && stats == old(stats)
      ensures selectedPlayerCounts == old(selectedPlayerCounts) && selectedPos == old(selectedPos)
      ensures selectedStacks == old(selectedStacks)
      ensures var counts, positions, stacks :=
          FilterSelected(PlayerCounts, selectedPlayerCounts), FilterSelected(AllPositions, selectedPos),
          FilterSelected(Stacks, selectedStacks);
        && (outcome == EmptyFilterAlert <==> counts == [] || positions == [] || stacks == [])
        && (outcome == Started ==>
              phase == Quiz && currentScenario.Some? && Fits(currentScenario.value, counts, positions, stacks, ranges))
        && (outcome == Started ==> !NoLegalPair(counts, positions))
      ensures outcome != Started ==> phase == old(phase) && currentScenario == old(currentScenario)
    {
      var counts, positions, stacks :=
        FilterSelected(PlayerCounts, selectedPlayerCounts), FilterSelected(AllPositions, selectedPos),
        FilterSelected(Stacks, selectedStacks);
      if |counts| == 0 || |positions| == 0 || |stacks| == 0 {
        return EmptyFilterAlert;
      }
      var drawn := DrawScenarioFrom(counts, positions, stacks, ranges);
      if drawn.None? {
        return NoValidScenarioAlert;
      }
      Show(drawn.value);
      return Started;
    }

    /** Show the quiz for a scenario. */
    method Show(s: Scenario)
      requires LegalScenario(s)
      modifies this
      ensures Valid() && currentScenario == Some(s) && phase == Quiz
      ensures ranges == old(ranges) && lastResult == old(lastResult) && stats == old(stats)
      ensures selectedPlayerCounts == old(selectedPlayerCounts) && selectedPos == old(selectedPos)
      ensures selectedStacks == old(selectedStacks)
    {
      currentScenario := Some(s);
      phase := Quiz;
    }

    /**
     * handleAnswer: without a scenario nothing happens; otherwise the judged
     * result is saved, appended to the session stats and shown as feedback.
     */
    method HandleAnswer(action: Action, timestamp: int)
      requires Valid()
      modifies this, store
      ensures Valid()
      ensures ranges == old(ranges) && currentScenario == old(currentScenario)
      ensures selectedPlayerCounts == old(selectedPlayerCounts) && selectedPos == old(selectedPos)
      ensures selectedStacks == old(selectedStacks) && store.ranges == old(store.ranges)
      ensures old(currentScenario).None? ==>
        phase == old(phase) && lastResult == old(lastResult) && stats == old(stats) && store.results == old(store.results)
      ensures old(currentScenario).Some? ==>
        var r := Judge(old(currentScenario).value, action, timestamp);
        && lastResult == Some(r) && stats == old(stats) + [r] && phase == Feedback
        && (old(store.results).Corrupt? ==> store.results == old(store.results))
        && (!old(store.results).Corrupt? ==> store.results == Present(AppendCapped(old(store.GetResults()), r)))
    {
      if currentScenario.None? {
        return;
      }
      var result := Judge(currentScenario.value, action, timestamp);
      store.SaveResult(result);
      stats := stats + [result];
      lastResult := Some(result);
      phase := Feedback;
    }

    /** The "back to setup" button. */
    method BackToSetup()
      requires Valid()
      modifies this
      ensures Valid() && phase == Setup
      ensures ranges == old(ranges) && currentScenario == old(currentScenario) && lastResult == old(lastResult)
      ensures selectedPlayerCounts == old(selectedPlayerCounts) && selectedPos == old(selectedPos)
      ensures selectedStacks == old(selectedStacks) && stats == old(stats)
    {
      phase := Setup;
    }

    /** A table-size chip: flip its flag; a missing flag reads as false, so it becomes true. */
    method TogglePlayerCount(p: nat)
      requires Valid()
      modifies this
      ensures Valid()
      ensures selectedPlayerCounts == old(selectedPlayerCounts)[p := !Selected(old(selectedPlayerCounts), p)]
      ensures Selected(selectedPlayerCounts, p) != Selected(old(selectedPlayerCounts), p)
      ensures phase == old(phase) && ranges == old(ranges) && currentScenario == old(currentScenario)
      ensures lastResult == old(lastResult) && stats == old(stats)
      ensures selectedPos == old(selectedPos) && selectedStacks == old(selectedStacks)
    {
      selectedPlayerCounts := selectedPlayerCounts[p := !Selected(selectedPlayerCounts, p)];
    }

    /** A position chip. */
    method TogglePosition(p: Position)
      requires Valid()
      modifies this
      ensures Valid()
      ensures selectedPos == old(selectedPos)[p := !Selected(old(selectedPos), p)]
      ensures Selected(selectedPos, p) != Selected(old(selectedPos), p)
      ensures phase == old(phase) && ranges == old(ranges) && currentScenario == old(currentScenario)
      ensures lastResult == old(lastResult) && stats == old(stats)
      ensures selectedPlayerCounts == old(selectedPlayerCounts) && selectedStacks == old(selectedStacks)
    {
      selectedPos := selectedPos[p := !Selected(selectedPos, p)];
    }

    /** A stack chip. */
    method ToggleStack(s: StackSize)
      requires Valid()
      modifies this
      ensures Valid()
      ensures selectedStacks == old(selectedStacks)[s := !Selected(old(selectedStacks), s)]
      ensures Selected(selectedStacks, s) != Selected(old(selectedStacks), s)
      ensures phase == old(phase) && ranges == old(ranges) && currentScenario == old(currentScenario)
      ensures lastResult == old(lastResult) && stats == old(stats)
      ensures selectedPlayerCounts == old(selectedPlayerCounts) && selectedPos == old(selectedPos)
    {
      selectedStacks := selectedStacks[s := !Selected(selectedStacks, s)];
    }
  }
}

/**
 * Persistence of ranges and quiz results in the browser's key-value store.
 *
 * The store is modelled as an object with two slots, one per storage key
 * ("pushfold_ranges_v1" and "pushfold_results_v1"). A slot is absent, holds
 * a value that JSON.parse would return, or holds text JSON.parse rejects.
 * Range keys are "players-position-stack"; the results log keeps the last
 * 500 results.
 */
module Storage {
  import opened Js
  import opened Types
  import opened Constants

  // ---------------------------------------------------------------------
  // Keys

  function DigitChar(d: nat): char
    requires d < 10
  {
    ('0' as int + d) as char
  }

  predicate IsDigit(c: char)
  {
    '0' <= c <= '9'
  }

  /** The decimal text of a whole number, as a template literal prints it. */
  function NatToString(n: nat): (s: string)
    ensures |s| >= 1
    ensures forall k :: 0 <= k < |s| ==> IsDigit(s[k])
    ensures s[0] == '0' ==> s == "0"
  {
    if n < 10 then [DigitChar(n)] else NatToString(n / 10) + [DigitChar(n % 10)]
  }

  /** The value of a string of decimal digits. */
  function DecimalValue(s: string): nat
    requires forall k :: 0 <= k < |s| ==> IsDigit(s[k])
  {
    if |s| == 0 then 0
    else
      var last := s[|s| - 1];
      assert IsDigit(last);
      10 * DecimalValue(s[..|s| - 1]) + (last as int - '0' as int)
  }

  /** Reading the printed number back gives the number. */
  lemma {:induction false} DecimalOfNatToString(n: nat)
    ensures DecimalValue(NatToString(n)) == n
  {
    var s := NatToString(n);
    if n >= 10 {
      DecimalOfNatToString(n / 10);
      assert s[..|s| - 1] == NatToString(n / 10);
    }
  }

  /** Different numbers print differently. */
  lemma NatToStringInjective(m: nat, n: nat)
    requires NatToString(m) == NatToString(n)
    ensures m == n
  {
    DecimalOfNatToString(m);
    DecimalOfNatToString(n);
  }

  /** getStorageKey: `${players}-${pos}-${stack}`. */
  function StorageKey(players: nat, pos: Position, stack: StackSize): string
  {
    NatToString(players) + "-" + PositionName(pos) + "-" + StackName(stack)
  }

  /** The first dash of a + "-" + b is the one after a, when a has none. */
  lemma {:induction false} FirstDashAt(a: string, b: string)
    requires '-' !in a
    ensures IndexOf(a + "-" + b, '-') == |a|
  {
    var x := a + "-" + b;
    if |a| > 0 {
      assert x[0] == a[0] && x[1..] == a[1..] + "-" + b;
      FirstDashAt(a[1..], b);
    }
  }

  /** Text before the first dash is determined by the whole string. */
  lemma SplitAtDash(a: string, b: string, c: string, d: string)
    requires '-' !in a && '-' !in c
    requires a + "-" + b == c + "-" + d
    ensures a == c && b == d
  {
    var x, y := a + "-" + b, c + "-" + d;
    FirstDashAt(a, b);
    FirstDashAt(c, d);
    assert a == x[..|a|] && c == y[..|c|];
    assert b == x[|a| + 1..] && d == y[|c| + 1..];
  }

  lemma NoDashInNumber(n: nat)
    ensures '-' !in NatToString(n)
  {
    var s := NatToString(n);
    assert forall k :: 0 <= k < |s| ==> s[k] != '-';
  }

  /** A key is the printed player count, a dash, and the position-stack rest. */
  lemma KeyShape(players: nat, pos: Position, stack: StackSize)
    ensures StorageKey(players, pos, stack) == NatToString(players) + "-" + (PositionName(pos) + "-" + StackName(stack))
  {
  }

  /** No two scenarios share a storage key. */
  lemma StorageKeyInjective(p1: nat, pos1: Position, s1: StackSize, p2: nat, pos2: Position, s2: StackSize)
    requires StorageKey(p1, pos1, s1) == StorageKey(p2, pos2, s2)
    ensures p1 == p2 && pos1 == pos2 && s1 == s2
  {
    NoDashInNumber(p1);
    NoDashInNumber(p2);
    KeyShape(p1, pos1, s1);
    KeyShape(p2, pos2, s2);
    SplitAtDash(NatToString(p1), PositionName(pos1) + "-" + StackName(s1), NatToString(p2), PositionName(pos2) + "-" + StackName(s2));
    NatToStringInjective(p1, p2);
    PositionNames(pos1, pos2);
    PositionNames(pos2, pos1);
    SplitAtDash(PositionName(pos1), StackName(s1), PositionName(pos2), StackName(s2));
    StackNames(s1, s2);
  }

  lemma DefaultKeyText()
    ensures StorageKey(6, BTN, BB10) == "6-BTN-10bb"
  {
    assert NatToString(6) == "6";
  }

  // ---------------------------------------------------------------------
  // Stored values

  /** What one storage key holds: nothing, a parsable value, or text JSON.parse rejects. */
  datatype Slot<T> = Absent | Present(value: T) | Corrupt

  /** What loadRanges falls back to: the preset under "6-BTN-10bb" and nothing else. */
  function DefaultRanges(): (r: RangeStorage)
    ensures r.Keys == {"6-BTN-10bb"}
    ensures r["6-BTN-10bb"] == DefaultPreset()
  {
    DefaultKeyText();
    map[StorageKey(6, BTN, BB10) := DefaultPreset()]
  }

  /** The grid stored under key, or the all-fold grid when there is none. */
  function StoredGrid(ranges: RangeStorage, key: string): (grid: RangeGrid)
    ensures key in ranges ==> grid == ranges[key]
    ensures key !in ranges ==> grid == EmptyRange()
  {
    if key in ranges then ranges[key] else EmptyRange()
  }

  /** loadRanges on a given slot. */
  function LoadedRanges(slot: Slot<RangeStorage>): (r: RangeStorage)
    ensures slot.Present? ==> r == slot.value
    ensures !slot.Present? ==> r == DefaultRanges()
  {
    if slot.Present? then slot.value else DefaultRanges()
  }

  /** The results-log bound. */
  const MaxResults: nat := 500

  /** The last n elements of s (all of s when it is shorter). */
  function LastN<T>(s: seq<T>, n: nat): (r: seq<T>)
    ensures |r| == if |s| <= n then |s| else n
  {
    if |s| <= n then s else s[|s| - n..]
  }

  /** The log with result appended, its oldest entry dropped once it holds more than 500. */
  function AppendCapped(log: seq<QuizResult>, result: QuizResult): (r: seq<QuizResult>)
    ensures |r| > 0 && r[|r| - 1] == result
    ensures |log| < MaxResults ==> r == log + [result]
    ensures |log| <= MaxResults ==> |r| <= MaxResults
  {
    var grown := log + [result];
    if |grown| > MaxResults then grown[1..] else grown
  }

  /** The log after saving the results one at a time, from the first. */
  function SaveAll(log: seq<QuizResult>, results: seq<QuizResult>): seq<QuizResult>
    decreases |results|
  {
    if |results| == 0 then log else SaveAll(AppendCapped(log, results[0]), results[1..])
  }

  /**
   * The log is a sliding window: after any number of saves into a log of at
   * most 500 results it holds exactly the latest 500 (or all, if fewer).
   */
  lemma {:induction false} SaveAllKeepsLatest(log: seq<QuizResult>, results: seq<QuizResult>)
    requires |log| <= MaxResults
    ensures SaveAll(log, results) == LastN(log + results, MaxResults)
    decreases |results|
  {
    if |results| == 0 {
      assert log + results == log;
    } else {
      var next := AppendCapped(log, results[0]);
      assert next == LastN(log + [results[0]], MaxResults);
      SaveAllKeepsLatest(next, results[1..]);
      var all := log + results;
      assert all == log + [results[0]] + results[1..];
      LastNAppend(log + [results[0]], results[1..], MaxResults);
    }
  }

  /** Trimming to the last n before appending more changes nothing once trimmed again. */
  lemma LastNAppend<T>(a: seq<T>, b: seq<T>, n: nat)
    ensures LastN(LastN(a, n) + b, n) == LastN(a + b, n)
  {
    if |a| > n {
      var t := a[|a| - n..];
      assert (a + b)[|a + b| - |t + b|..] == t + b;
      if |t + b| > n {
        assert (t + b)[|t + b| - n..] == (a + b)[|a + b| - n..];
      }
    }
  }

  /** getResults on a given slot. */
  function LoadedResults(slot: Slot<seq<QuizResult>>): (r: seq<QuizResult>)
    ensures slot.Present? ==> r == slot.value
    ensures !slot.Present? ==> r == []
  {
    if slot.Present? then slot.value else []
  }

  // ---------------------------------------------------------------------
  // The store

  class Store {
    var ranges: Slot<RangeStorage>
    var results: Slot<seq<QuizResult>>

    constructor(ranges0: Slot<RangeStorage>, results0: Slot<seq<QuizResult>>)
      ensures ranges == ranges0 && results == results0
    {
      ranges := ranges0;
      results := results0;
    }

    /** loadRanges: the stored ranges, or the preset default when nothing parsable is stored. */
    function LoadRanges(): (r: RangeStorage)
      reads this
      ensures ranges.Present? ==> r == ranges.value
      ensures !ranges.Present? ==> r == DefaultRanges()
    {
      LoadedRanges(ranges)
    }

    /** saveRange: load, set one key, write everything back, return it. */
    method SaveRange(key: string, grid: RangeGrid) returns (current: RangeStorage)
      modifies this
      ensures current == old(LoadRanges())[key := grid]
      ensures ranges == Present(current) && results == old(results)
      ensures LoadRanges() == current && LoadRanges()[key] == grid
      ensures forall k :: k != key && k in old(LoadRanges()) ==> k in LoadRanges() && LoadRanges()[k] == old(LoadRanges())[k]
    {
      current := LoadRanges();
      current := current[key := grid];
      ranges := Present(current);
    }

    /** resetRanges: remove the ranges key and return what loading then gives. */
    method ResetRanges() returns (reloaded: RangeStorage)
      modifies this
      ensures ranges == Absent && results == old(results)
      ensures reloaded == DefaultRanges() && LoadRanges() == reloaded
    {
      ranges := Absent;
      reloaded := LoadRanges();
    }

    /** saveResult: append to the capped log; text that does not parse makes it a no-op. */
    method SaveResult(result: QuizResult)
      modifies this
      ensures ranges == old(ranges)
      ensures old(results).Corrupt? ==> results == old(results)
      ensures !old(results).Corrupt? ==> results == Present(AppendCapped(old(GetResults()), result))
    {
      if !results.Corrupt? {
        var prev := LoadedResults(results);
        results := Present(AppendCapped(prev, result));
      }
    }

    /** getResults: the stored log, or [] when nothing parsable is stored. */
    function GetResults(): (r: seq<QuizResult>)
      reads this
      ensures results.Present? ==> r == results.value
      ensures !results.Present? ==> r == []
    {
      LoadedResults(results)
    }
  }
}

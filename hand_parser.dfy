/**
 * The range-string parser: a comma-separated list of poker shorthand
 * tokens ("22+", "AJ+", "KQ", "98s+") expanded into the 169-cell grid.
 *
 * Tokenising (split, trim, drop empty) and the two regular expressions are
 * pure functions; applying a token writes into a 169-element array through
 * SetHand, as the source does. What a token selects is specified cell by
 * cell by TokenSelects, and what a whole string selects by RangeSelects.
 */
module HandParser {
  import opened Js
  import opened Types
  import opened Constants

  /** The suit qualifier of a two-rank token: "s", "o" or none. */
  datatype Qualifier = SuitedOnly | OffsuitOnly | AnySuit

  /** What the two regular expressions make of one trimmed token. */
  datatype Token =
    | PairToken(rank: int, plus: bool)
    | HandToken(first: int, second: int, qualifier: Qualifier, plus: bool)
    | Unmatched

  /** How a two-rank token is expanded: without "+", or by one of the two "+" rules. */
  datatype Expansion = Exact | Kicker | Structure

  // ---------------------------------------------------------------------
  // Tokenising and matching

  /** ASCII toUpperCase; the i flag only ever folds a to z onto A to Z here. */
  function Upper(c: char): char
  {
    if 'a' <= c <= 'z' then (c as int - 32) as char else c
  }

  /**
   * RANK_MAP[c.toUpperCase()]: the map is built from RANKS, so the rank
   * symbols map to their index; any other character is undefined, here -1.
   */
  function RankOf(c: char): (k: int)
    ensures -1 <= k < 13
    ensures 0 <= k ==> Upper(c) == Ranks[k]
  {
    match Upper(c)
    case 'A' => 0 case 'K' => 1 case 'Q' => 2 case 'J' => 3 case 'T' => 4
    case '9' => 5 case '8' => 6 case '7' => 7 case '6' => 8 case '5' => 9
    case '4' => 10 case '3' => 11 case '2' => 12
    case _ => -1
  }

  /** The character class [AKQJT98765432] under the i flag: exactly the keys of RANK_MAP. */
  predicate IsRankChar(c: char)
  {
    0 <= RankOf(c)
  }

  /** RANK_MAP is RANKS read backwards: every rank symbol maps to its index in RANKS. */
  lemma RankSymbol(k: int)
    requires 0 <= k < 13
    ensures RankOf(Ranks[k]) == k && IsRankChar(Ranks[k]) && Upper(Ranks[k]) == Ranks[k]
  {
  }

  /** Looking a character up in RANK_MAP agrees with RANKS.indexOf of its upper case. */
  lemma RankMapFromRanks(c: char)
    ensures RankOf(c) == RankIndex(Upper(c))
  {
    var k := RankOf(c);
    if 0 <= k {
      RankIndexOf(k);
    } else {
      forall j | 0 <= j < 13
        ensures Ranks[j] != Upper(c)
      {
        RankSymbol(j);
      }
    }
  }

  /** The character class [soSO]. */
  predicate IsQualifierChar(c: char)
  {
    c == 's' || c == 'S' || c == 'o' || c == 'O'
  }

  /** The qualifier after toLowerCase. */
  function QualifierOf(c: char): Qualifier
  {
    if c == 's' || c == 'S' then SuitedOnly else OffsuitOnly
  }

  /** The pair pattern: a rank character, the same rank again in either case, and an optional '+'. */
  predicate MatchesPair(t: string)
  {
    (|t| == 2 || (|t| == 3 && t[2] == '+')) && IsRankChar(t[0]) && Upper(t[1]) == Upper(t[0])
  }

  /** The two-rank pattern: two rank characters, an optional 's' or 'o' in either case, and an optional '+'. */
  predicate MatchesHand(t: string)
  {
    && 2 <= |t| <= 4
    && IsRankChar(t[0]) && IsRankChar(t[1])
    && (|t| == 3 ==> IsQualifierChar(t[2]) || t[2] == '+')
    && (|t| == 4 ==> IsQualifierChar(t[2]) && t[3] == '+')
  }

  /** The pair expression is tried first, then the two-rank expression. */
  function Classify(t: string): (tok: Token)
    ensures tok.PairToken? ==> 0 <= tok.rank < 13
    ensures tok.HandToken? ==> 0 <= tok.first < 13 && 0 <= tok.second < 13
    ensures tok.Unmatched? <==> !MatchesPair(t) && !MatchesHand(t)
    ensures MatchesPair(t) ==> tok == PairToken(RankOf(t[0]), |t| == 3)
    ensures !MatchesPair(t) && MatchesHand(t) ==>
      && tok.HandToken? && tok.first == RankOf(t[0]) && tok.second == RankOf(t[1])
      && tok.plus == (t[|t| - 1] == '+')
  {
    if MatchesPair(t) then PairToken(RankOf(t[0]), |t| == 3)
    else if MatchesHand(t) then
      var qualifier := if |t| >= 3 && IsQualifierChar(t[2]) then QualifierOf(t[2]) else AnySuit;
      HandToken(RankOf(t[0]), RankOf(t[1]), qualifier, t[|t| - 1] == '+')
    else Unmatched
  }

  /** Every part trimmed, then the empty ones dropped. */
  function CleanTokens(parts: seq<string>): (tokens: seq<string>)
    ensures |tokens| <= |parts|
    ensures forall k :: 0 <= k < |tokens| ==> tokens[k] != []
    ensures forall t :: t in tokens <==> exists k :: 0 <= k < |parts| && t == Trim(parts[k]) && t != []
  {
    if |parts| == 0 then []
    else
      var t := Trim(parts[0]);
      var later := CleanTokens(parts[1..]);
      CleanStep(parts, later, (if t == [] then [] else [t]) + later);
      (if t == [] then [] else [t]) + later
  }

  /** The tokens of parts are those of its first part followed by those of the rest. */
  lemma CleanStep(parts: seq<string>, later: seq<string>, tokens: seq<string>)
    requires |parts| > 0
    requires forall x :: x in later <==> exists k :: 0 <= k < |parts[1..]| && x == Trim(parts[1..][k]) && x != []
    requires tokens == (if Trim(parts[0]) == [] then [] else [Trim(parts[0])]) + later
    ensures forall x :: x in tokens <==> exists k :: 0 <= k < |parts| && x == Trim(parts[k]) && x != []
  {
    forall x
      ensures x in tokens <==> exists k :: 0 <= k < |parts| && x == Trim(parts[k]) && x != []
    {
      if x in later {
        var k :| 0 <= k < |parts[1..]| && x == Trim(parts[1..][k]) && x != [];
        assert parts[1..][k] == parts[k + 1];
      }
      if exists k :: 0 <= k < |parts| && x == Trim(parts[k]) && x != [] {
        var k :| 0 <= k < |parts| && x == Trim(parts[k]) && x != [];
        if k > 0 {
          assert parts[k] == parts[1..][k - 1];
        }
      }
    }
  }

  /** The tokens of a range string. */
  function Tokens(input: string): seq<string>
  {
    CleanTokens(Split(input, ','))
  }

  // ---------------------------------------------------------------------
  // What a token selects, cell by cell

  predicate AllowsSuited(q: Qualifier) { q != OffsuitOnly }

  predicate AllowsOffsuit(q: Qualifier) { q != SuitedOnly }

  /** "+" means kicker mode when the higher card is A, K or Q (index at most 2), structure mode otherwise. */
  function ModeOf(high: int, plus: bool): Expansion
  {
    if !plus then Exact else if high <= 2 then Kicker else Structure
  }

  /**
   * Whether the expansion of the two-rank hand (high, low) reaches the
   * two-rank hand (h, l); in both pairs the first index is the higher rank.
   * Kicker mode keeps the high card and improves the kicker up to just
   * below it; structure mode moves both cards up, keeping the gap, until
   * the higher one is an ace.
   */
  predicate Reaches(mode: Expansion, high: int, low: int, h: int, l: int)
  {
    match mode
    case Exact => h == high && l == low
    case Kicker => h == high && high < l <= low
    case Structure => l - h == low - high && 0 <= h <= high
  }

  /** Whether a token sets cell i. */
  predicate TokenSelects(tok: Token, i: int)
    requires 0 <= i < 169
  {
    var r, c := Row(i), Col(i);
    match tok
    case Unmatched => false
    case PairToken(rank, plus) => r == c && (if plus then r <= rank else r == rank)
    case HandToken(first, second, q, plus) =>
      var high, low := Min(first, second), Max(first, second);
      var mode := ModeOf(high, plus);
      && high != low
      && ((AllowsSuited(q) && r < c && Reaches(mode, high, low, r, c))
          || (AllowsOffsuit(q) && c < r && Reaches(mode, high, low, c, r)))
  }

  /** Whether some token of the list sets cell i. */
  predicate AnySelects(tokens: seq<string>, i: int)
    requires 0 <= i < 169
  {
    exists k :: 0 <= k < |tokens| && TokenSelects(Classify(tokens[k]), i)
  }

  /** Whether some token of the input sets cell i. */
  predicate RangeSelects(input: string, i: int)
    requires 0 <= i < 169
  {
    AnySelects(Tokens(input), i)
  }

  lemma AnySelectsAppend(tokens: seq<string>, t: string, i: int)
    requires 0 <= i < 169
    ensures AnySelects(tokens + [t], i) == (AnySelects(tokens, i) || TokenSelects(Classify(t), i))
  {
    var all := tokens + [t];
    if AnySelects(all, i) && !TokenSelects(Classify(t), i) {
      var k :| 0 <= k < |all| && TokenSelects(Classify(all[k]), i);
      assert k < |tokens| && all[k] == tokens[k];
    }
    if AnySelects(tokens, i) {
      var k :| 0 <= k < |tokens| && TokenSelects(Classify(tokens[k]), i);
      assert all[k] == tokens[k];
    }
    if TokenSelects(Classify(t), i) {
      assert all[|tokens|] == t;
    }
  }

  // ---------------------------------------------------------------------
  // The parser

  /** The cells setHand(r1, r2) writes: (r1, r2) if suited hands are allowed, (r2, r1) if offsuit ones are. */
  predicate Marks(q: Qualifier, r1: int, r2: int, i: int)
  {
    && 0 <= r1 < 13 && 0 <= r2 < 13
    && ((AllowsSuited(q) && Row(i) == r1 && Col(i) == r2) || (AllowsOffsuit(q) && Row(i) == r2 && Col(i) == r1))
  }

  method SetHand(grid: array<bool>, q: Qualifier, r1: int, r2: int)
    requires grid.Length == 169
    modifies grid
    ensures forall i :: 0 <= i < 169 ==> grid[i] == (old(grid[i]) || Marks(q, r1, r2, i))
  {
    if r1 < 0 || r2 < 0 || r1 >= 13 || r2 >= 13 {
      return;
    }
    if q == SuitedOnly || q == AnySuit {
      grid[r1 * 13 + r2] := true;
    }
    if q == OffsuitOnly || q == AnySuit {
      grid[r2 * 13 + r1] := true;
    }
  }

  /** The body of the forEach: one token's cells are set, no cell is cleared. */
  method ApplyToken(grid: array<bool>, tok: Token)
    requires grid.Length == 169
    requires tok.PairToken? ==> 0 <= tok.rank < 13
    requires tok.HandToken? ==> 0 <= tok.first < 13 && 0 <= tok.second < 13
    modifies grid
    ensures forall i :: 0 <= i < 169 ==> grid[i] == (old(grid[i]) || TokenSelects(tok, i))
  {
    match tok {
      case Unmatched =>
      case PairToken(idx, isPlus) =>
        if isPlus {
          for i := 0 to idx + 1
            invariant forall j :: 0 <= j < 169 ==> grid[j] == (old(grid[j]) || (Row(j) == Col(j) && Row(j) < i))
          {
            grid[i * 13 + i] := true;
          }
        } else {
          grid[idx * 13 + idx] := true;
        }
      case HandToken(first, second, q, isPlus) =>
        var idx1, idx2 := first, second;
        if idx1 > idx2 {
          idx1, idx2 := idx2, idx1;
        }
        if idx1 == idx2 {
          return;
        }
        if !isPlus {
          SetHand(grid, q, idx1, idx2);
        } else if idx1 <= 2 {
          var k := idx2;
          while k > idx1
            invariant idx1 <= k <= idx2
            invariant forall j :: 0 <= j < 169 ==>
              (grid[j] == (old(grid[j])
                || (AllowsSuited(q) && Row(j) == idx1 && k < Col(j) <= idx2)
                || (AllowsOffsuit(q) && Col(j) == idx1 && k < Row(j) <= idx2)))
          {
            SetHand(grid, q, idx1, k);
            k := k - 1;
          }
        } else {
          var c1, c2 := idx1, idx2;
          while c1 >= 0 && c2 >= 0
            invariant -1 <= c1 <= idx1 && c2 - c1 == idx2 - idx1
            invariant forall j :: 0 <= j < 169 ==>
              (grid[j] == (old(grid[j])
                || (AllowsSuited(q) && Col(j) - Row(j) == idx2 - idx1 && c1 < Row(j) <= idx1)
                || (AllowsOffsuit(q) && Row(j) - Col(j) == idx2 - idx1 && c1 < Col(j) <= idx1)))
          {
            SetHand(grid, q, c1, c2);
            c1, c2 := c1 - 1, c2 - 1;
          }
        }
    }
  }

  /** parseRangeString: a fresh all-fold grid with the cells of every token set. */
  method ParseRangeString(input: string) returns (result: RangeGrid)
    ensures |result| == 169
    ensures forall i :: 0 <= i < 169 ==> result[i] == RangeSelects(input, i)
  {
    var grid := new bool[169](_ => false);
    var tokens := Tokens(input);
    for t := 0 to |tokens|
      invariant forall i :: 0 <= i < 169 ==> grid[i] == AnySelects(tokens[..t], i)
    {
      ApplyToken(grid, Classify(tokens[t]));
      assert tokens[..t + 1] == tokens[..t] + [tokens[t]];
      forall i | 0 <= i < 169
        ensures grid[i] == AnySelects(tokens[..t + 1], i)
      {
        AnySelectsAppend(tokens[..t], tokens[t], i);
      }
    }
    assert tokens[..|tokens|] == tokens;
    result := grid[..];
  }

  // ---------------------------------------------------------------------
  // Tokens are processed independently

  lemma {:induction false} CleanTokensConcat(a: seq<string>, b: seq<string>)
    ensures CleanTokens(a + b) == CleanTokens(a) + CleanTokens(b)
  {
    if |a| > 0 {
      var ab := a + b;
      assert ab[0] == a[0] && ab[1..] == a[1..] + b;
      CleanTokensConcat(a[1..], b);
      var head := if Trim(a[0]) == [] then [] else [Trim(a[0])];
      assert CleanTokens(ab) == head + CleanTokens(a[1..] + b);
      assert CleanTokens(a) == head + CleanTokens(a[1..]);
    } else {
      assert a + b == b;
    }
  }

  lemma AnySelectsConcat(x: seq<string>, y: seq<string>, i: int)
    requires 0 <= i < 169
    ensures AnySelects(x + y, i) == (AnySelects(x, i) || AnySelects(y, i))
  {
    var all := x + y;
    if AnySelects(all, i) {
      var k :| 0 <= k < |all| && TokenSelects(Classify(all[k]), i);
      if k < |x| {
        assert all[k] == x[k];
      } else {
        assert all[k] == y[k - |x|];
      }
    }
    if AnySelects(x, i) {
      var k :| 0 <= k < |x| && TokenSelects(Classify(x[k]), i);
      assert all[k] == x[k];
    }
    if AnySelects(y, i) {
      var k :| 0 <= k < |y| && TokenSelects(Classify(y[k]), i);
      assert all[|x| + k] == y[k];
    }
  }

  /** Parsing "a,b" selects the cellwise OR of parsing a and parsing b. */
  lemma ParseUnion(a: string, b: string, i: int)
    requires 0 <= i < 169
    ensures RangeSelects(a + "," + b, i) == (RangeSelects(a, i) || RangeSelects(b, i))
  {
    SplitConcat(a, b, ',');
    CleanTokensConcat(Split(a, ','), Split(b, ','));
    AnySelectsConcat(Tokens(a), Tokens(b), i);
  }

  /** A non-empty trimmed token without a comma is the whole input's only token. */
  lemma SingleToken(t: string)
    requires ',' !in t && t != [] && Trim(t) == t
    ensures Tokens(t) == [t]
  {
    SplitNoSeparator(t, ',');
    assert [t][1..] == [];
  }

  /** Such an input selects what its one token selects. */
  lemma SingleTokenSelects(t: string, i: int)
    requires ',' !in t && t != [] && Trim(t) == t
    requires 0 <= i < 169
    ensures RangeSelects(t, i) == TokenSelects(Classify(t), i)
  {
    SingleToken(t);
    assert [t][0] == t;
  }

  /** Input made only of commas and white space has no tokens, so it selects nothing. */
  lemma {:induction false} BlankInputHasNoTokens(input: string)
    requires forall k :: 0 <= k < |input| ==> input[k] == ',' || IsWhiteSpace(input[k])
    ensures Tokens(input) == []
  {
    BlankParts(input);
    BlankPartsClean(Split(input, ','));
  }

  lemma {:induction false} BlankParts(s: string)
    requires forall k :: 0 <= k < |s| ==> s[k] == ',' || IsWhiteSpace(s[k])
    ensures forall k :: 0 <= k < |Split(s, ',')| ==> AllWhiteSpace(Split(s, ',')[k])
  {
    if |s| > 0 {
      BlankParts(s[1..]);
      var rest := Split(s[1..], ',');
      if s[0] != ',' {
        assert AllWhiteSpace([s[0]] + rest[0]);
      }
    }
  }

  lemma {:induction false} BlankPartsClean(parts: seq<string>)
    requires forall k :: 0 <= k < |parts| ==> AllWhiteSpace(parts[k])
    ensures CleanTokens(parts) == []
  {
    if |parts| > 0 {
      BlankPartsClean(parts[1..]);
    }
  }

  // ---------------------------------------------------------------------
  // Matching ignores case

  /** toUpperCase on a whole string. */
  function UpperAll(s: string): (u: string)
    ensures |u| == |s|
    ensures forall k :: 0 <= k < |s| ==> u[k] == Upper(s[k])
  {
    if |s| == 0 then [] else [Upper(s[0])] + UpperAll(s[1..])
  }

  function UpperEach(parts: seq<string>): (u: seq<string>)
    ensures |u| == |parts|
  {
    if |parts| == 0 then [] else [UpperAll(parts[0])] + UpperEach(parts[1..])
  }

  /** Upper-casing leaves separators, '+' and white space exactly where they were. */
  lemma UpperKeepsPunctuation(c: char)
    ensures Upper(c) == ',' <==> c == ','
    ensures Upper(c) == '+' <==> c == '+'
    ensures IsWhiteSpace(Upper(c)) == IsWhiteSpace(c)
  {
  }

  /** Upper-casing is idempotent, so it changes no rank. */
  lemma UpperKeepsRank(c: char)
    ensures Upper(Upper(c)) == Upper(c)
    ensures IsRankChar(Upper(c)) == IsRankChar(c)
    ensures RankOf(Upper(c)) == RankOf(c)
  {
    if 'a' <= c <= 'z' {
      assert 'A' <= Upper(c) <= 'Z';
    }
  }

  /** Upper-casing changes no qualifier. */
  lemma UpperKeepsQualifier(c: char)
    ensures IsQualifierChar(Upper(c)) == IsQualifierChar(c)
    ensures IsQualifierChar(c) ==> QualifierOf(Upper(c)) == QualifierOf(c)
  {
    if 'a' <= c <= 'z' {
      assert Upper(c) as int == c as int - 32;
    }
  }

  lemma {:induction false} SplitUpper(s: string)
    ensures Split(UpperAll(s), ',') == UpperEach(Split(s, ','))
  {
    if |s| > 0 {
      SplitUpper(s[1..]);
      UpperKeepsPunctuation(s[0]);
      var u := UpperAll(s);
      assert u[0] == Upper(s[0]) && u[1..] == UpperAll(s[1..]);
      var rest := Split(s[1..], ',');
      var urest := UpperEach(rest);
      assert Split(u, ',') == if s[0] == ',' then [""] + urest else [[Upper(s[0])] + urest[0]] + urest[1..];
      if s[0] == ',' {
        assert ([""] + rest)[1..] == rest;
      } else {
        var whole := [[s[0]] + rest[0]] + rest[1..];
        assert whole[1..] == rest[1..];
        assert UpperAll(whole[0]) == [Upper(s[0])] + UpperAll(rest[0]);
        assert urest == [UpperAll(rest[0])] + UpperEach(rest[1..]);
      }
    }
  }

  lemma TrimStartUpper(s: string)
    ensures TrimStart(UpperAll(s)) == UpperAll(TrimStart(s))
  {
    var u, n := UpperAll(s), TextStart(s, 0);
    forall k | 0 <= k < |s| {
      UpperKeepsPunctuation(s[k]);
    }
    TextStartUnique(u, 0, n);
    assert u[n..] == UpperAll(s[n..]);
  }

  lemma TrimEndUpper(s: string)
    ensures TrimEnd(UpperAll(s)) == UpperAll(TrimEnd(s))
  {
    var u, n := UpperAll(s), TextEnd(s, |s|);
    forall k | 0 <= k < |s| {
      UpperKeepsPunctuation(s[k]);
    }
    TextEndUnique(u, |u|, n);
    assert u[..n] == UpperAll(s[..n]);
  }

  lemma {:induction false} CleanUpper(parts: seq<string>)
    ensures CleanTokens(UpperEach(parts)) == UpperEach(CleanTokens(parts))
  {
    if |parts| > 0 {
      var up := UpperEach(parts);
      assert up[0] == UpperAll(parts[0]) && up[1..] == UpperEach(parts[1..]);
      TrimStartUpper(parts[0]);
      TrimEndUpper(TrimStart(parts[0]));
      var t := Trim(parts[0]);
      assert Trim(UpperAll(parts[0])) == UpperAll(t);
      CleanUpper(parts[1..]);
      var later := CleanTokens(parts[1..]);
      assert CleanTokens(up) == (if t == [] then [] else [UpperAll(t)]) + UpperEach(later);
      assert CleanTokens(parts) == (if t == [] then [] else [t]) + later;
      if t != [] {
        assert ([t] + later)[0] == t && ([t] + later)[1..] == later;
        assert UpperEach([t] + later) == [UpperAll(t)] + UpperEach(later);
      } else {
        assert [] + later == later;
        assert [] + UpperEach(later) == UpperEach(later);
      }
    }
  }

  lemma MatchesUpper(t: string)
    ensures MatchesPair(UpperAll(t)) == MatchesPair(t)
    ensures MatchesHand(UpperAll(t)) == MatchesHand(t)
  {
    var u := UpperAll(t);
    if |t| >= 2 {
      UpperKeepsRank(t[0]);
      UpperKeepsRank(t[1]);
      UpperKeepsPunctuation(t[|t| - 1]);
      if |t| >= 3 {
        UpperKeepsQualifier(t[2]);
        UpperKeepsPunctuation(t[2]);
      }
    }
  }

  lemma ClassifyUpper(t: string)
    ensures Classify(UpperAll(t)) == Classify(t)
  {
    var u := UpperAll(t);
    MatchesUpper(t);
    if |t| >= 2 {
      UpperKeepsRank(t[0]);
      UpperKeepsRank(t[1]);
      UpperKeepsPunctuation(t[|t| - 1]);
      if |t| >= 3 {
        UpperKeepsQualifier(t[2]);
      }
    }
  }

  lemma AnySelectsUpper(tokens: seq<string>, i: int)
    requires 0 <= i < 169
    ensures AnySelects(UpperEach(tokens), i) == AnySelects(tokens, i)
  {
    var upper := UpperEach(tokens);
    if AnySelects(upper, i) {
      var k :| 0 <= k < |upper| && TokenSelects(Classify(upper[k]), i);
      UpperEachAt(tokens, k);
      ClassifyUpper(tokens[k]);
    }
    if AnySelects(tokens, i) {
      var k :| 0 <= k < |tokens| && TokenSelects(Classify(tokens[k]), i);
      UpperEachAt(tokens, k);
      ClassifyUpper(tokens[k]);
      assert TokenSelects(Classify(upper[k]), i);
    }
  }

  lemma {:induction false} UpperEachAt(parts: seq<string>, k: int)
    requires 0 <= k < |parts|
    ensures UpperEach(parts)[k] == UpperAll(parts[k])
  {
    if k > 0 {
      UpperEachAt(parts[1..], k - 1);
    }
  }

  /** Upper-casing the whole input changes nothing: matching ignores case. */
  lemma ParseIgnoresCase(input: string, i: int)
    requires 0 <= i < 169
    ensures RangeSelects(UpperAll(input), i) == RangeSelects(input, i)
  {
    SplitUpper(input);
    CleanUpper(Split(input, ','));
    AnySelectsUpper(Tokens(input), i);
  }

  // ---------------------------------------------------------------------
  // White space around a token does not matter

  lemma TrimStartPadded(w: string, x: string)
    requires AllWhiteSpace(w)
    ensures TrimStart(w + x) == TrimStart(x)
  {
    var n := TextStart(x, 0);
    TextStartUnique(w + x, 0, |w| + n);
    assert (w + x)[|w| + n..] == x[n..];
  }

  lemma TrimEndPadded(x: string, w: string)
    requires AllWhiteSpace(w)
    ensures TrimEnd(x + w) == TrimEnd(x)
  {
    var n := TextEnd(x, |x|);
    TextEndUnique(x + w, |x + w|, n);
    assert (x + w)[..n] == x[..n];
  }

  lemma TrimStartAppend(x: string, w: string)
    ensures TrimStart(x + w) == if AllWhiteSpace(x) then TrimStart(w) else TrimStart(x) + w
  {
    if AllWhiteSpace(x) {
      var n := TextStart(w, 0);
      TextStartUnique(x + w, 0, |x| + n);
      assert (x + w)[|x| + n..] == w[n..];
    } else {
      var n := TextStart(x, 0);
      TextStartUnique(x + w, 0, n);
      assert (x + w)[n..] == x[n..] + w;
    }
  }

  /** Trimming ignores any white space added around a token. */
  lemma TrimPadded(w1: string, t: string, w2: string)
    requires AllWhiteSpace(w1) && AllWhiteSpace(w2)
    ensures Trim(w1 + t + w2) == Trim(t)
  {
    assert w1 + t + w2 == w1 + (t + w2);
    TrimStartPadded(w1, t + w2);
    TrimStartAppend(t, w2);
    if AllWhiteSpace(t) {
      assert TrimStart(w2) == [];
    } else {
      TrimEndPadded(TrimStart(t), w2);
    }
  }

  /** A token padded with white space selects what the bare token selects. */
  lemma ParseIgnoresPadding(w1: string, t: string, w2: string, i: int)
    requires ',' !in t && AllWhiteSpace(w1) && AllWhiteSpace(w2)
    requires 0 <= i < 169
    ensures RangeSelects(w1 + t + w2, i) == RangeSelects(t, i)
  {
    var padded := w1 + t + w2;
    assert ',' !in padded by {
      forall k | 0 <= k < |padded|
        ensures padded[k] != ','
      {
        if k < |w1| {
          assert padded[k] == w1[k];
        } else if k < |w1| + |t| {
          assert padded[k] == t[k - |w1|];
        } else {
          assert padded[k] == w2[k - |w1| - |t|];
        }
      }
    }
    SplitNoSeparator(padded, ',');
    SplitNoSeparator(t, ',');
    TrimPadded(w1, t, w2);
    assert Tokens(padded) == Tokens(t);
  }

  // ---------------------------------------------------------------------
  // Rank order and qualifiers

  /** The token with its two rank characters exchanged ("KA" for "AK"). */
  function SwapRanks(t: string): string
    requires |t| >= 2
  {
    [t[1], t[0]] + t[2..]
  }

  /** Both rank orders of a token select the same cells. */
  lemma TokenOrderIrrelevant(t: string, i: int)
    requires |t| >= 2 && 0 <= i < 169
    ensures TokenSelects(Classify(SwapRanks(t)), i) == TokenSelects(Classify(t), i)
  {
    var u := SwapRanks(t);
    assert u[0] == t[1] && u[1] == t[0] && |u| == |t|;
    assert u[2..] == t[2..];
    SwapMatches(t);
  }

  lemma SwapMatches(t: string)
    requires |t| >= 2
    ensures MatchesPair(SwapRanks(t)) == MatchesPair(t)
    ensures MatchesHand(SwapRanks(t)) == MatchesHand(t)
    ensures MatchesPair(t) ==> RankOf(t[0]) == RankOf(t[1])
  {
    var u := SwapRanks(t);
    assert u[0] == t[1] && u[1] == t[0] && |u| == |t|;
    assert |t| >= 3 ==> u[2] == t[2];
    assert |t| >= 4 ==> u[3] == t[3];
  }

  /** Distinct rank symbols have distinct rank indices. */
  lemma DistinctRanks(x: char, y: char)
    requires IsRankChar(x) && IsRankChar(y) && Upper(x) != Upper(y)
    ensures 0 <= RankOf(x) < 13 && 0 <= RankOf(y) < 13 && RankOf(x) != RankOf(y)
  {
  }

  /**
   * Without a qualifier a two-rank token selects exactly the union of its
   * suited and its offsuit forms; "s" only reaches cells above the
   * diagonal and "o" only cells below it.
   */
  lemma QualifierSplit(x: char, y: char, plus: bool, i: int)
    requires IsRankChar(x) && IsRankChar(y) && Upper(x) != Upper(y)
    requires 0 <= i < 169
    ensures var p := if plus then "+" else "";
      && TokenSelects(Classify([x, y] + p), i)
         == (TokenSelects(Classify([x, y, 's'] + p), i) || TokenSelects(Classify([x, y, 'o'] + p), i))
      && (TokenSelects(Classify([x, y, 's'] + p), i) ==> Row(i) < Col(i))
      && (TokenSelects(Classify([x, y, 'o'] + p), i) ==> Row(i) > Col(i))
  {
    var p := if plus then "+" else "";
    DistinctRanks(x, y);
    var bare, suited, offsuit := [x, y] + p, [x, y, 's'] + p, [x, y, 'o'] + p;
    assert Classify(bare) == HandToken(RankOf(x), RankOf(y), AnySuit, plus);
    assert Classify(suited) == HandToken(RankOf(x), RankOf(y), SuitedOnly, plus);
    assert Classify(offsuit) == HandToken(RankOf(x), RankOf(y), OffsuitOnly, plus);
  }

  // ---------------------------------------------------------------------
  // The documented examples

  /** An input that is one bare token, without commas or surrounding white space. */
  lemma LiteralToken(t: string, tok: Token, i: int)
    requires ',' !in t && t != [] && !IsWhiteSpace(t[0]) && !IsWhiteSpace(t[|t| - 1])
    requires Classify(t) == tok && 0 <= i < 169
    ensures RangeSelects(t, i) == TokenSelects(tok, i)
  {
    assert TrimStart(t) == t;
    assert TrimEnd(t) == t;
    SingleTokenSelects(t, i);
  }

  lemma RankPlain(k: int)
    requires 0 <= k < 13
    ensures Ranks[k] != ',' && !IsWhiteSpace(Ranks[k])
  {
  }

  /** A rank symbol is neither a separator nor white space. */
  lemma RankCharPlain(c: char)
    requires IsRankChar(c)
    ensures c != ',' && !IsWhiteSpace(c) && c != '+'
  {
  }

  /** "RR" sets the one pair cell of rank R; "RR+" sets every pair from R up to aces, and neither sets anything else. */
  lemma PairTokenCells(x: char, y: char, plus: bool, i: int)
    requires IsRankChar(x) && Upper(y) == Upper(x) && 0 <= i < 169
    ensures var t := [x, y] + (if plus then "+" else "");
      RangeSelects(t, i) <==> Row(i) == Col(i) && (if plus then Row(i) <= RankOf(x) else Row(i) == RankOf(x))
  {
    var t := [x, y] + (if plus then "+" else "");
    UpperKeepsRank(y);
    RankCharPlain(x);
    RankCharPlain(y);
    assert MatchesPair(t);
    LiteralToken(t, PairToken(RankOf(x), plus), i);
  }

  /** Two distinct rank characters, an optional "s" or "o" and a "+" read as a two-rank plus token. */
  lemma ClassifyPlusToken(x: char, y: char, q: string)
    requires IsRankChar(x) && IsRankChar(y) && Upper(x) != Upper(y)
    requires q == "" || q == "s" || q == "o"
    ensures var t := [x, y] + q + "+";
      && ',' !in t && !IsWhiteSpace(t[0]) && !IsWhiteSpace(t[|t| - 1])
      && Classify(t) == HandToken(RankOf(x), RankOf(y), if q == "" then AnySuit else QualifierOf(q[0]), true)
  {
    var t := [x, y] + q + "+";
    DistinctRanks(x, y);
    RankCharPlain(x);
    RankCharPlain(y);
    assert t[0] == x && t[1] == y && t[|t| - 1] == '+';
    assert q != "" ==> t[2] == q[0];
    assert !MatchesPair(t) && MatchesHand(t);
  }

  /** The cells of a kicker-mode token without a qualifier. */
  lemma KickerSelects(a: int, b: int, i: int)
    requires 0 <= a < 13 && 0 <= b < 13 && a != b && Min(a, b) <= 2 && 0 <= i < 169
    ensures var high, low := Min(a, b), Max(a, b);
      TokenSelects(HandToken(a, b, AnySuit, true), i) <==>
        (Row(i) == high && high < Col(i) <= low) || (Col(i) == high && high < Row(i) <= low)
  {
  }

  /** The cells of a suited structure-mode token. */
  lemma StructureSelects(a: int, b: int, i: int)
    requires 0 <= a < 13 && 0 <= b < 13 && a != b && Min(a, b) >= 3 && 0 <= i < 169
    ensures var high, low := Min(a, b), Max(a, b);
      TokenSelects(HandToken(a, b, SuitedOnly, true), i) <==> Col(i) - Row(i) == low - high && Row(i) <= high
  {
  }

  /**
   * With A, K or Q as the higher rank, "XY+" keeps the higher card and takes
   * every kicker from Y up to just below it, suited and offsuit.
   */
  lemma KickerTokenCells(x: char, y: char, i: int)
    requires IsRankChar(x) && IsRankChar(y) && Upper(x) != Upper(y) && 0 <= i < 169
    requires Min(RankOf(x), RankOf(y)) <= 2
    ensures var high, low := Min(RankOf(x), RankOf(y)), Max(RankOf(x), RankOf(y));
      RangeSelects([x, y, '+'], i) <==>
        (Row(i) == high && high < Col(i) <= low) || (Col(i) == high && high < Row(i) <= low)
  {
    ClassifyPlusToken(x, y, "");
    assert [x, y] + "" + "+" == [x, y, '+'];
    DistinctRanks(x, y);
    var tok := HandToken(RankOf(x), RankOf(y), AnySuit, true);
    LiteralToken([x, y, '+'], tok, i);
    KickerSelects(RankOf(x), RankOf(y), i);
  }

  /**
   * With J or lower as the higher rank, "XYs+" moves both cards up one rank
   * at a time, keeping the gap, until the higher card is an ace; it sets no
   * offsuit cell.
   */
  lemma StructureTokenCells(x: char, y: char, i: int)
    requires IsRankChar(x) && IsRankChar(y) && Upper(x) != Upper(y) && 0 <= i < 169
    requires Min(RankOf(x), RankOf(y)) >= 3
    ensures var high, low := Min(RankOf(x), RankOf(y)), Max(RankOf(x), RankOf(y));
      RangeSelects([x, y, 's', '+'], i) <==> Col(i) - Row(i) == low - high && Row(i) <= high
  {
    ClassifyPlusToken(x, y, "s");
    assert [x, y] + "s" + "+" == [x, y, 's', '+'];
    DistinctRanks(x, y);
    var tok := HandToken(RankOf(x), RankOf(y), SuitedOnly, true);
    LiteralToken([x, y, 's', '+'], tok, i);
    StructureSelects(RankOf(x), RankOf(y), i);
  }

  /** "22+" is every pair. */
  lemma PairPlusExample(i: int)
    requires 0 <= i < 169
    ensures RangeSelects("22+", i) <==> Row(i) == Col(i)
  {
    var tok := PairToken(12, true);
    assert TokenSelects(tok, i) <==> Row(i) == Col(i);
    LiteralToken("22+", tok, i);
  }

  /**
   * "AJ+" is AJ, AQ and AK, suited and offsuit: the kicker loop climbs
   * from J to the rank just below the ace.
   */
  lemma AceJackPlusExample(i: int)
    requires 0 <= i < 169
    ensures RangeSelects("AJ+", i) <==> (Row(i) == 0 && 1 <= Col(i) <= 3) || (Col(i) == 0 && 1 <= Row(i) <= 3)
  {
    var tok := HandToken(0, 3, AnySuit, true);
    assert TokenSelects(tok, i) <==> (Row(i) == 0 && 1 <= Col(i) <= 3) || (Col(i) == 0 && 1 <= Row(i) <= 3);
    LiteralToken("AJ+", tok, i);
  }

  /** "98s+" is the suited connectors 98s, T9s, JTs, QJs, KQs and AKs. */
  lemma SuitedConnectorsExample(i: int)
    requires 0 <= i < 169
    ensures RangeSelects("98s+", i) <==> Col(i) == Row(i) + 1 && Row(i) <= 5
  {
    var tok := HandToken(5, 6, SuitedOnly, true);
    assert TokenSelects(tok, i) <==> Col(i) == Row(i) + 1 && Row(i) <= 5;
    LiteralToken("98s+", tok, i);
  }

  /** "KQ" is KQs and KQo and nothing else. */
  lemma KingQueenExample(i: int)
    requires 0 <= i < 169
    ensures RangeSelects("KQ", i) <==> (Row(i) == 1 && Col(i) == 2) || (Row(i) == 2 && Col(i) == 1)
  {
    var tok := HandToken(1, 2, AnySuit, false);
    assert TokenSelects(tok, i) <==> (Row(i) == 1 && Col(i) == 2) || (Row(i) == 2 && Col(i) == 1);
    LiteralToken("KQ", tok, i);
  }

  /** "AAs" passes the two-rank expression but names one rank twice, so it selects nothing. */
  lemma QualifiedPairExample(i: int)
    requires 0 <= i < 169
    ensures !RangeSelects("AAs", i)
  {
    var tok := HandToken(0, 0, SuitedOnly, false);
    LiteralToken("AAs", tok, i);
  }

  // ---------------------------------------------------------------------
  // Labels parse back to their own cell

  /** The token a cell label is read as. */
  function LabelToken(i: int): Token
    requires 0 <= i < 169
  {
    var lo, hi := Min(Row(i), Col(i)), Max(Row(i), Col(i));
    match KindOf(Row(i), Col(i))
    case Pair => PairToken(lo, false)
    case Suited => HandToken(lo, hi, SuitedOnly, false)
    case Offsuit => HandToken(lo, hi, OffsuitOnly, false)
  }

  /** A pair label reads as the plain pair token of its rank. */
  lemma ClassifyPairLabel(k: int)
    requires 0 <= k < 13
    ensures Classify([Ranks[k], Ranks[k]]) == PairToken(k, false)
  {
    RankSymbol(k);
  }

  /** A suited or offsuit label reads as the qualified two-rank token of its ranks. */
  lemma ClassifyQualifiedLabel(lo: int, hi: int, q: char)
    requires 0 <= lo < hi < 13 && (q == 's' || q == 'o')
    ensures Classify([Ranks[lo], Ranks[hi], q]) == HandToken(lo, hi, QualifierOf(q), false)
  {
    RankSymbol(lo);
    RankSymbol(hi);
    RankSymbols(lo, hi);
    var name := [Ranks[lo], Ranks[hi], q];
    assert !MatchesPair(name) && MatchesHand(name);
  }

  lemma ClassifyLabel(i: int)
    requires 0 <= i < 169
    ensures Classify(HandAt(i).name) == LabelToken(i)
  {
    var h := HandAt(i);
    var lo, hi := Min(h.row, h.col), Max(h.row, h.col);
    match h.kind
    case Pair =>
      assert h.name == [Ranks[lo], Ranks[lo]];
      ClassifyPairLabel(lo);
    case Suited =>
      assert h.name == [Ranks[lo], Ranks[hi], 's'];
      ClassifyQualifiedLabel(lo, hi, 's');
    case Offsuit =>
      assert h.name == [Ranks[lo], Ranks[hi], 'o'];
      ClassifyQualifiedLabel(lo, hi, 'o');
  }

  lemma LabelIsBare(i: int)
    requires 0 <= i < 169
    ensures var name := HandAt(i).name;
      ',' !in name && name != [] && !IsWhiteSpace(name[0]) && !IsWhiteSpace(name[|name| - 1])
  {
    var h := HandAt(i);
    var lo, hi := Min(h.row, h.col), Max(h.row, h.col);
    RankPlain(lo);
    RankPlain(hi);
    assert h.name[0] == Ranks[lo] && h.name[1] == Ranks[hi];
  }

  /** The token read from a label selects that cell alone. */
  lemma LabelTokenSelects(i: int, j: int)
    requires 0 <= i < 169 && 0 <= j < 169
    ensures TokenSelects(LabelToken(i), j) <==> j == i
  {
    if Row(j) == Row(i) && Col(j) == Col(i) {
      assert j == CellIndex(Row(j), Col(j)) == CellIndex(Row(i), Col(i)) == i;
    }
  }

  /** Parsing the label of cell i as a range selects cell i and no other. */
  lemma ParseLabel(i: int, j: int)
    requires 0 <= i < 169 && 0 <= j < 169
    ensures RangeSelects(HandAt(i).name, j) <==> j == i
  {
    LabelTokenSelects(i, j);
    ClassifyLabel(i);
    LabelIsBare(i);
    LiteralToken(HandAt(i).name, LabelToken(i), j);
  }
}

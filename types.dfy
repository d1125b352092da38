/**
 * The value types shared by the range engine: positions and stack depths
 * with the strings they are stored under, the three hand shapes, one cell
 * of the 13x13 hand grid, the two answers and the quiz result record.
 */
module Types {

  /** The seats a first-in range can be defined for; BB is declared but never legal first-in. */
  datatype Position = UTG | UTG1 | UTG2 | LJ | HJ | CO | BTN | SB | BB

  /** The enum string value of a position. */
  function PositionName(p: Position): string
  {
    match p
    case UTG => "UTG"
    case UTG1 => "UTG+1"
    case UTG2 => "UTG+2"
    case LJ => "LJ"
    case HJ => "HJ"
    case CO => "CO"
    case BTN => "BTN"
    case SB => "SB"
    case BB => "BB"
  }

  datatype StackSize = BB5 | BB10 | BB15 | BB20

  /** The enum string value of a stack depth. */
  function StackName(s: StackSize): string
  {
    match s
    case BB5 => "5bb"
    case BB10 => "10bb"
    case BB15 => "15bb"
    case BB20 => "20bb"
  }

  /** No two positions share a name, and no name contains '-'. */
  lemma PositionNames(p: Position, q: Position)
    ensures '-' !in PositionName(p)
    ensures PositionName(p) == PositionName(q) ==> p == q
  {
  }

  /** No two stack depths share a name, and no name contains '-'. */
  lemma StackNames(s: StackSize, t: StackSize)
    ensures '-' !in StackName(s)
    ensures StackName(s) == StackName(t) ==> s == t
  {
  }

  datatype HandType = Pair | Suited | Offsuit

  /** One of the 169 cells: its coordinates, its label, here `name` ("AKs", "TT", "72o") and its shape. */
  datatype HandCell = HandCell(row: nat, col: nat, name: string, kind: HandType)

  /** A flat sequence of 169 flags in row-major order; true is Push, false is Fold. */
  type RangeGrid = seq<bool>

  /** Stored ranges, keyed by "players-position-stack". */
  type RangeStorage = map<string, RangeGrid>

  datatype Action = Push | Fold

  datatype QuizResult = QuizResult(
    correct: bool,
    userAction: Action,
    correctAction: Action,
    handLabel: string,
    scenarioKey: string,
    timestamp: int)
}

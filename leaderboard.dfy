/**
 * The leaderboard page: the name search over the mock rows, the rank cell and
 * the change cell. Letter case is folded on ASCII only.
 */
module Leaderboard {
  import opened Ascii
  import opened Subsequence

  datatype Row = Row(id: nat, rank: int, name: string, totalValue: real, tokenCount: nat, profitPercent: real, change: int)

  const LEADERBOARD_DATA: seq<Row> := [
    Row(1, 1, "CyberTrader", 24850.75, 6, 18.7, 2),
    Row(2, 2, "NeonHunter", 18320.50, 8, 15.2, 0),
    Row(3, 3, "PixelMaster", 15750.25, 5, 12.8, 1),
    Row(4, 4, "RiftWalker", 12430.80, 4, 10.5, -2),
    Row(5, 5, "CyberQueen", 10870.60, 7, 9.2, 3),
    Row(6, 6, "TokenWhale", 9540.30, 3, 8.1, -1),
    Row(7, 7, "DigitalNomad", 8320.15, 5, 7.4, 0),
    Row(8, 8, "VirtualGhost", 7150.90, 6, 6.8, 4),
    Row(9, 9, "CryptoWizard", 6420.75, 4, 5.9, 1),
    Row(10, 10, "NeonDreamer", 5780.40, 5, 5.2, -3)
  ]

  /** The page's selectable state: the two drop-down filters and the search text. */
  datatype View = View(timeFilter: string, typeFilter: string, searchQuery: string)

  const INITIAL_VIEW := View("All Time", "Value", "")

  /** The row's lower-cased name contains the lower-cased query. */
  predicate Matches(row: Row, query: string)
    ensures Matches(row, query) ==> |query| <= |row.name|
  {
    Contains(Lower(row.name), Lower(query))
  }

  /** The rows that match the query, in their original order. */
  function FilterRows(rows: seq<Row>, query: string): (r: seq<Row>)
    ensures |r| <= |rows|
    ensures forall row :: row in r ==> row in rows && Matches(row, query)
  {
    if rows == [] then []
    else (if Matches(rows[0], query) then [rows[0]] else []) + FilterRows(rows[1..], query)
  }

  /** The rows the table shows for a given view. */
  function FilteredData(view: View): (r: seq<Row>)
    ensures |r| <= |LEADERBOARD_DATA|
    ensures forall row :: row in r ==> row in LEADERBOARD_DATA && Matches(row, view.searchQuery)
  {
    FilterRows(LEADERBOARD_DATA, view.searchQuery)
  }

  /** The filtered rows keep the order of the input. */
  lemma {:induction false} FilterIsSubsequence(rows: seq<Row>, query: string)
    ensures IsSubsequence(FilterRows(rows, query), rows)
  {
    if rows != [] {
      FilterIsSubsequence(rows[1..], query);
      ConsSubsequence(rows[0], FilterRows(rows[1..], query), rows[1..]);
      assert [rows[0]] + rows[1..] == rows;
      if Matches(rows[0], query) {
        assert FilterRows(rows, query) == [rows[0]] + FilterRows(rows[1..], query);
      } else {
        assert FilterRows(rows, query) == FilterRows(rows[1..], query);
      }
    }
  }

  /** A row is shown exactly when it is in the data and its name contains the query, ignoring case. */
  lemma {:induction false} FilterMembership(rows: seq<Row>, query: string)
    ensures forall row :: row in FilterRows(rows, query) <==> row in rows && Matches(row, query)
  {
    if rows != [] {
      FilterMembership(rows[1..], query);
      assert rows == [rows[0]] + rows[1..];
    }
  }

  /** Each row appears in the result as often as in the input when it matches, and not at all otherwise. */
  lemma {:induction false} FilterCounts(rows: seq<Row>, query: string, x: Row)
    ensures multiset(FilterRows(rows, query))[x] == if Matches(x, query) then multiset(rows)[x] else 0
  {
    if rows != [] {
      FilterCounts(rows[1..], query, x);
      assert rows == [rows[0]] + rows[1..];
      assert multiset(rows) == multiset([rows[0]]) + multiset(rows[1..]);
      if Matches(rows[0], query) {
        assert FilterRows(rows, query) == [rows[0]] + FilterRows(rows[1..], query);
      } else {
        assert FilterRows(rows, query) == FilterRows(rows[1..], query);
      }
    }
  }

  /** When every row matches, the filter returns the rows unchanged. */
  lemma {:induction false} FilterKeepsAll(rows: seq<Row>, query: string)
    requires forall row :: row in rows ==> Matches(row, query)
    ensures FilterRows(rows, query) == rows
  {
    if rows != [] {
      assert rows[0] in rows;
      FilterKeepsAll(rows[1..], query);
      assert [rows[0]] + rows[1..] == rows;
    }
  }

  /** An empty search shows every row. */
  lemma EmptyQueryKeepsAll(rows: seq<Row>)
    ensures FilterRows(rows, "") == rows
  {
    forall row | row in rows
      ensures Matches(row, "")
    {
      EmptyIsContained(Lower(row.name));
    }
    FilterKeepsAll(rows, "");
  }

  /** Two queries with the same lower-case form select the same rows. */
  lemma {:induction false} SameLowerSameRows(rows: seq<Row>, q1: string, q2: string)
    requires Lower(q1) == Lower(q2)
    ensures FilterRows(rows, q1) == FilterRows(rows, q2)
  {
    if rows != [] {
      SameLowerSameRows(rows[1..], q1, q2);
    }
  }

  /** Queries that differ only in letter case select the same rows. */
  lemma CaseInsensitive(rows: seq<Row>, q1: string, q2: string)
    requires DifferOnlyInCase(q1, q2)
    ensures FilterRows(rows, q1) == FilterRows(rows, q2)
  {
    DifferOnlyInCaseLower(q1, q2);
    SameLowerSameRows(rows, q1, q2);
  }

  /** The time and type drop-downs do not affect which rows appear; the first view shows them all. */
  lemma FiltersHaveNoEffect(v1: View, v2: View)
    requires v1.searchQuery == v2.searchQuery
    ensures FilteredData(v1) == FilteredData(v2)
    ensures FilteredData(INITIAL_VIEW) == LEADERBOARD_DATA
  {
    EmptyQueryKeepsAll(LEADERBOARD_DATA);
  }

  // ---------------------------------------------------------------------------
  // Rank cell

  /** A rank of 3 or less is drawn as a round badge with a colour style; any other rank as plain grey text. */
  datatype RankCell = Badge(style: string) | PlainRank

  function RankCellFor(rank: int): (r: RankCell)
    ensures r.Badge? <==> rank <= 3
    ensures r.Badge? ==> r.style != ""
  {
    if rank <= 3 then
      Badge(if rank == 1 then "bg-yellow-500/20 text-yellow-500"
            else if rank == 2 then "bg-gray-400/20 text-gray-400"
            else "bg-amber-700/20 text-amber-700")
    else PlainRank
  }

  /** Ranks 1, 2 and 3 get badges with three different styles; a rank above 3 gets plain text. */
  lemma RankCellSpec(rank: int)
    ensures RankCellFor(rank).Badge? <==> rank <= 3
    ensures RankCellFor(1) != RankCellFor(2) && RankCellFor(2) != RankCellFor(3) && RankCellFor(1) != RankCellFor(3)
    ensures forall row :: row in LEADERBOARD_DATA ==> (RankCellFor(row.rank).Badge? <==> 1 <= row.rank <= 3)
  {
  }

  // ---------------------------------------------------------------------------
  // Change cell

  /** A dash for no change, an up arrow with the value, or a down arrow with the absolute value. */
  datatype ChangeCell = NoChange | Up(shown: nat) | Down(shown: nat)

  function ChangeCellFor(change: int): (r: ChangeCell)
    ensures ChangeOf(r) == change
    ensures r.Up? <==> change > 0
    ensures r.Down? <==> change < 0
  {
    if change == 0 then NoChange
    else if change > 0 then Up(change)
    else Down(-change)
  }

  /** The signed change a cell stands for. */
  function ChangeOf(cell: ChangeCell): int
  {
    match cell
    case NoChange => 0
    case Up(n) => n
    case Down(n) => -(n as int)
  }

  /** The arrow follows the sign, the number shown is positive, and the change can be read back from the cell. */
  lemma ChangeCellSpec(change: int)
    ensures ChangeCellFor(change).NoChange? <==> change == 0
    ensures ChangeCellFor(change).Up? <==> change > 0
    ensures ChangeCellFor(change).Down? <==> change < 0
    ensures !ChangeCellFor(change).NoChange? ==> ChangeCellFor(change).shown > 0
    ensures ChangeOf(ChangeCellFor(change)) == change
  {
  }
}

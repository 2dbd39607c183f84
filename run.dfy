/**
 * The calculation run of the page (app.py lines 413-447): the rows of the
 * cutting-list editor become the demand list, both solvers run on the
 * effective bar length, and each result's waste is the stock used beyond
 * the pieces' total length.
 */
module RunHandler {
  import opened Wrappers
  import opened Seqs
  import opened Sorting
  import opened Plan
  import opened FirstFitDecreasing
  import opened ColumnGeneration

  /** One row of the editor: the length and quantity cells, None when blank. */
  datatype Row = Row(length: Option<int>, quantity: Option<int>)

  /** A cell Python treats as true: present and nonzero. */
  predicate Truthy(cell: Option<int>)
  {
    cell.Some? && cell.value != 0
  }

  predicate Keeps(row: Row)
  {
    Truthy(row.length) && Truthy(row.quantity)
  }

  /** The demand rows read from the editor, in row order (lines 416-421). */
  function Kept(rows: seq<Row>): seq<Demand>
  {
    if rows == [] then []
    else
      var row := rows[|rows| - 1];
      Kept(rows[..|rows| - 1]) + (if Keeps(row) then [Demand(row.length.value, row.quantity.value)] else [])
  }

  /** Row i of the editor holds the demand row d and is read. */
  predicate ReadFrom(rows: seq<Row>, i: int, d: Demand)
  {
    0 <= i < |rows| && Keeps(rows[i]) && rows[i] == Row(Some(d.length), Some(d.quantity))
  }

  lemma KeptLast(rows: seq<Row>, d: Demand)
    requires rows != []
    ensures d in Kept(rows) <==> d in Kept(rows[..|rows| - 1]) || ReadFrom(rows, |rows| - 1, d)
  {
  }

  /** A demand row is read exactly when some editor row has that length and quantity, both nonzero. */
  lemma {:induction false} KeptMembership(rows: seq<Row>, d: Demand)
    ensures d in Kept(rows) <==> exists i :: ReadFrom(rows, i, d)
  {
    if rows != [] {
      var n := |rows| - 1;
      KeptMembership(rows[..n], d);
      KeptLast(rows, d);
      forall i | 0 <= i < n
        ensures ReadFrom(rows[..n], i, d) == ReadFrom(rows, i, d)
      {
        assert rows[..n][i] == rows[i];
      }
      if exists i :: ReadFrom(rows, i, d) {
        var i :| ReadFrom(rows, i, d);
        assert i == n || ReadFrom(rows[..n], i, d);
      }
    }
  }

  /** Every demand row read has a nonzero length and a nonzero quantity. */
  lemma {:induction false} KeptNonZero(rows: seq<Row>)
    ensures forall k :: 0 <= k < |Kept(rows)| ==> Kept(rows)[k].length != 0 && Kept(rows)[k].quantity != 0
  {
    if rows != [] {
      KeptNonZero(rows[..|rows| - 1]);
    }
  }

  function ByLength(d: Demand): int
  {
    d.length
  }

  const EmptyListMessage: string := "Lütfen parça listesi oluşturun."

  /**
   * Lines 415-427: read the rows, sort them by length, longest first, and
   * refuse an empty list.
   */
  method NormaliseDemand(rows: seq<Row>) returns (r: Result<seq<Demand>>)
    ensures r.Err? <==> Kept(rows) == []
    ensures r.Err? ==> r.message == EmptyListMessage
    ensures r.Ok? ==> r.value == SortDesc(Kept(rows), ByLength)
  {
    var parts: seq<Demand> := [];
    for index := 0 to |rows|
      invariant parts == Kept(rows[..index])
    {
      var row := rows[index];
      assert rows[..index + 1][..index] == rows[..index];
      if Truthy(row.length) && Truthy(row.quantity) {
        parts := parts + [Demand(row.length.value, row.quantity.value)];
      }
    }
    assert rows[..|rows|] == rows;
    parts := SortDesc(parts, ByLength);
    if parts == [] {
      return Err(EmptyListMessage);
    }
    return Ok(parts);
  }

  /**
   * The demand list handed to the solvers: sorted by length, longest
   * first; the same rows as read; and rows of equal length in the order
   * they were read (Python's sort is stable).
   */
  lemma NormalisedDemand(rows: seq<Row>, v: int)
    ensures SortedDesc(SortDesc(Kept(rows), ByLength), ByLength)
    ensures multiset(SortDesc(Kept(rows), ByLength)) == multiset(Kept(rows))
    ensures WithKey(SortDesc(Kept(rows), ByLength), ByLength, v) == WithKey(Kept(rows), ByLength, v)
  {
    SortDescIsStable(Kept(rows), ByLength, v);
  }

  /** What a run shows for both solvers (lines 430-447), without the timings and percentages. */
  datatype Report = Report(
    effectiveLength: int,
    neededLength: int,
    exactTotal: int, exactDetails: seq<Detail>, exactWaste: int,
    ffdTotal: int, ffdDetails: seq<Detail>, ffdWaste: int)

  /** Lines 442-447: the stock `bars` raw bars provide beyond the length the pieces need. */
  function StockWaste(bars: int, effLen: int, needed: int): (waste: int)
    // negative exactly when the bars hold less than the pieces need
    ensures waste < 0 <==> bars * effLen < needed
  {
    bars * effLen - needed
  }

  /** Lines 433-435 and 442-444: the exact solver's result and its waste. */
  method RunExact(parts: seq<Demand>, effLen: int, oracle: Oracle)
    returns (total: int, details: seq<Detail>, waste: int, ghost patterns: seq<Pattern>)
    ensures Generated(oracle, Lengths(parts), Demands(parts), effLen, patterns)
    ensures total == oracle.finalObjective(patterns, Demands(parts))
    ensures details == ResultLines(patterns, FinalValues(oracle, patterns, Demands(parts)), Lengths(parts), effLen)
    ensures waste == StockWaste(total, effLen, NeededLength(parts))
    ensures Consistent(oracle, patterns, Demands(parts)) ==> TotalCount(details) == total
  {
    total, details, patterns := SolveCuttingStockInteger(parts, effLen, oracle);
    waste := StockWaste(total, effLen, NeededLength(parts));
  }

  /** Lines 437-439 and 446-448: the first-fit-decreasing result and its waste. */
  method RunFirstFit(parts: seq<Demand>, effLen: int) returns (total: int, details: seq<Detail>, waste: int)
    ensures total == |FfdBins(parts, effLen)| && details == FfdDetails(parts, effLen)
    ensures waste == StockWaste(total, effLen, NeededLength(parts))
    // with no negative quantity, the waste of line 447 is the waste the lines report
    ensures (forall k :: 0 <= k < |parts| ==> parts[k].quantity > 0) ==> waste == TotalWaste(details)
  {
    var bars: nat;
    bars, details := SolveFirstFitDecreasing(parts, effLen);
    total := bars;
    waste := StockWaste(total, effLen, NeededLength(parts));
    if forall k :: 0 <= k < |parts| ==> parts[k].quantity > 0 {
      ExpandLength(parts);
      SameWaste(TotalWaste(details), total, effLen, Sum(Expand(parts)), NeededLength(parts));
    }
  }

  lemma SameWaste(lineWaste: int, bars: int, effLen: int, pieces: int, needed: int)
    requires lineWaste == bars * effLen - pieces && pieces == needed
    ensures StockWaste(bars, effLen, needed) == lineWaste
  {
  }

  /**
   * Lines 430-447: what a run reports for the demand list `parts` on the
   * effective length, given the patterns the exact solver generated.
   */
  ghost predicate Reported(report: Report, parts: seq<Demand>, effLen: int, oracle: Oracle, patterns: seq<Pattern>)
  {
    var lengths, demands := Lengths(parts), Demands(parts);
    // line 430 and line 440
    && report.effectiveLength == effLen
    && report.neededLength == NeededLength(parts)
    // lines 433 and 442-443: the exact solver over the patterns its column generation leaves
    && Generated(oracle, lengths, demands, effLen, patterns)
    && report.exactTotal == oracle.finalObjective(patterns, demands)
    && report.exactDetails == ResultLines(patterns, FinalValues(oracle, patterns, demands), lengths, effLen)
    && report.exactWaste == StockWaste(report.exactTotal, effLen, report.neededLength)
    && (Consistent(oracle, patterns, demands) ==> TotalCount(report.exactDetails) == report.exactTotal)
    // lines 437 and 446-447: the greedy solver
    && report.ffdTotal == |FfdBins(parts, effLen)|
    && report.ffdDetails == FfdDetails(parts, effLen)
    && report.ffdWaste == StockWaste(report.ffdTotal, effLen, report.neededLength)
    && ((forall k :: 0 <= k < |parts| ==> parts[k].quantity > 0) ==> report.ffdWaste == TotalWaste(report.ffdDetails))
  }

  /**
   * Lines 430-447: both solvers on the effective bar length, and the
   * waste of each result. The exact solver's patterns are returned for the
   * contract only.
   */
  method RunSolvers(parts: seq<Demand>, effLen: int, oracle: Oracle) returns (report: Report, ghost patterns: seq<Pattern>)
    ensures Reported(report, parts, effLen, oracle, patterns)
  {
    var exactTotal, exactDetails, exactWaste;
    exactTotal, exactDetails, exactWaste, patterns := RunExact(parts, effLen, oracle);
    var ffdTotal, ffdDetails, ffdWaste := RunFirstFit(parts, effLen);
    report := Report(effLen, NeededLength(parts), exactTotal, exactDetails, exactWaste, ffdTotal, ffdDetails, ffdWaste);
  }

  /**
   * Lines 413-447: a run reads and sorts the demand list, stops with the
   * error message when it is empty, and otherwise runs both solvers on
   * the bar length left after the cutting allowance.
   */
  method RunCalculation(rows: seq<Row>, rawLength: int, wasteLimit: int, oracle: Oracle)
    returns (r: Result<Report>, ghost parts: seq<Demand>, ghost patterns: seq<Pattern>)
    ensures r.Err? <==> Kept(rows) == []
    ensures r.Err? ==> r.message == EmptyListMessage
    ensures r.Ok? ==> parts == SortDesc(Kept(rows), ByLength)
    ensures r.Ok? ==> Reported(r.value, parts, rawLength - wasteLimit, oracle, patterns)
  {
    var normalised := NormaliseDemand(rows);
    if normalised.Err? {
      return Err(normalised.message), [], [];
    }
    parts := normalised.value;
    var report;
    report, patterns := RunSolvers(normalised.value, rawLength - wasteLimit, oracle);
    r := Ok(report);
  }
}

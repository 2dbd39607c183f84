/** Demand rows and result lines shared by both solvers and the run handler. */
module Plan {
  import opened Seqs
  import opened Counting
  import opened PatternText

  /** One row of the cutting list: `quantity` pieces of `length` mm. */
  datatype Demand = Demand(length: int, quantity: int)

  /**
   * One line of a solver's result: `count` raw bars cut as described by
   * `patternStr`, each using `usedLen` mm and leaving `waste` mm.
   */
  datatype Detail = Detail(count: int, patternStr: string, usedLen: int, waste: int)

  /** Every demanded piece on its own: `[length] * quantity` for each row, in row order. */
  function Expand(data: seq<Demand>): (pieces: seq<int>)
    // every piece has a demanded length
    ensures forall x :: x in pieces ==> exists i :: 0 <= i < |data| && data[i].length == x
  {
    if data == [] then []
    else Expand(data[..|data| - 1]) + Repeat(data[|data| - 1].length, data[|data| - 1].quantity)
  }

  /** Sum of the quantities. */
  function TotalQuantity(data: seq<Demand>): int
  {
    if data == [] then 0 else TotalQuantity(data[..|data| - 1]) + data[|data| - 1].quantity
  }

  /** `sum(p[0] * p[1] for p in parca_listesi)`: the total length of stock the pieces need. */
  function NeededLength(data: seq<Demand>): int
  {
    if data == [] then 0 else NeededLength(data[..|data| - 1]) + data[|data| - 1].length * data[|data| - 1].quantity
  }

  /** The number of raw bars the result lines account for. */
  function TotalCount(details: seq<Detail>): int
  {
    if details == [] then 0 else TotalCount(details[..|details| - 1]) + details[|details| - 1].count
  }

  /** The waste over all the bars the result lines account for. */
  function TotalWaste(details: seq<Detail>): int
  {
    if details == [] then 0
    else TotalWaste(details[..|details| - 1]) + details[|details| - 1].count * details[|details| - 1].waste
  }

  /** The pieces a reader of the report sees: each line's described pieces, `count` times over. */
  function DescribedPieces(details: seq<Detail>): multiset<int>
  {
    if details == [] then multiset{}
    else
      var d := details[|details| - 1];
      DescribedPieces(details[..|details| - 1]) + Times(multiset(ExpandTerms(ParsePattern(d.patternStr))), d.count)
  }

  /** With no negative quantity, there are as many pieces as the quantities add up to. */
  lemma {:induction false} ExpandCount(data: seq<Demand>)
    requires forall i :: 0 <= i < |data| ==> data[i].quantity >= 0
    ensures |Expand(data)| == TotalQuantity(data)
  {
    if data != [] {
      ExpandCount(data[..|data| - 1]);
    }
  }

  /** With no negative quantity, the pieces add up to the needed length of line 440. */
  lemma {:induction false} ExpandLength(data: seq<Demand>)
    requires forall i :: 0 <= i < |data| ==> data[i].quantity >= 0
    ensures Sum(Expand(data)) == NeededLength(data)
  {
    if data != [] {
      var last := data[|data| - 1];
      ExpandLength(data[..|data| - 1]);
      SumConcat(Expand(data[..|data| - 1]), Repeat(last.length, last.quantity));
      SumRepeat(last.length, last.quantity);
    }
  }
}

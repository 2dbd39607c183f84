/**
 * A worked example of the greedy solver: pieces of 2000 mm x 3 and
 * 1500 mm x 4 (the demand list as the run handler hands it over, longest
 * first) on raw bars of 6000 mm.
 */
module Scenarios {
  import opened Seqs
  import opened Sorting
  import opened Plan
  import opened FirstFitDecreasing

  /** One more piece packed, given the bars before and after it. */
  lemma PackThrough(pieces: seq<int>, k: nat, rawLen: int, before: seq<Bin>, after: seq<Bin>)
    requires k < |pieces| && Pack(pieces[..k], rawLen) == before && Place(before, pieces[k], rawLen) == after
    ensures Pack(pieces[..k + 1], rawLen) == after
  {
    PackStep(pieces, k, rawLen);
  }

  // Each piece in turn, into the first bar with room or a new bar.
  lemma Place1()
    ensures Place([], 2000, 6000) == [Bin(4000, [2000])]
  {
  }

  lemma Place2()
    ensures Place([Bin(4000, [2000])], 2000, 6000) == [Bin(2000, [2000, 2000])]
  {
    assert FirstFit([Bin(4000, [2000])], 2000) == 0;
    assert [2000] + [2000] == [2000, 2000];
  }

  lemma Place3()
    ensures Place([Bin(2000, [2000, 2000])], 2000, 6000) == [Bin(0, [2000, 2000, 2000])]
  {
    assert FirstFit([Bin(2000, [2000, 2000])], 2000) == 0;
    assert [2000, 2000] + [2000] == [2000, 2000, 2000];
  }

  lemma Place4()
    ensures Place([Bin(0, [2000, 2000, 2000])], 1500, 6000) == [Bin(0, [2000, 2000, 2000]), Bin(4500, [1500])]
  {
  }

  lemma Place5()
    ensures Place([Bin(0, [2000, 2000, 2000]), Bin(4500, [1500])], 1500, 6000) == [Bin(0, [2000, 2000, 2000]), Bin(3000, [1500, 1500])]
  {
    assert FirstFit([Bin(0, [2000, 2000, 2000]), Bin(4500, [1500])], 1500) == 1;
    assert [1500] + [1500] == [1500, 1500];
  }

  lemma Place6()
    ensures Place([Bin(0, [2000, 2000, 2000]), Bin(3000, [1500, 1500])], 1500, 6000) == [Bin(0, [2000, 2000, 2000]), Bin(1500, [1500, 1500, 1500])]
  {
    assert FirstFit([Bin(0, [2000, 2000, 2000]), Bin(3000, [1500, 1500])], 1500) == 1;
    assert [1500, 1500] + [1500] == [1500, 1500, 1500];
  }

  lemma Place7()
    ensures Place([Bin(0, [2000, 2000, 2000]), Bin(1500, [1500, 1500, 1500])], 1500, 6000) == [Bin(0, [2000, 2000, 2000]), Bin(0, [1500, 1500, 1500, 1500])]
  {
    assert FirstFit([Bin(0, [2000, 2000, 2000]), Bin(1500, [1500, 1500, 1500])], 1500) == 1;
    assert [1500, 1500, 1500] + [1500] == [1500, 1500, 1500, 1500];
  }

  lemma ExpandScenario()
    ensures Expand([Demand(2000, 3), Demand(1500, 4)]) == [2000, 2000, 2000, 1500, 1500, 1500, 1500]
  {
    var data := [Demand(2000, 3), Demand(1500, 4)];
    assert Repeat(2000, 3) == [2000, 2000, 2000];
    assert Repeat(1500, 4) == [1500, 1500, 1500, 1500];
    assert data[..1] == [Demand(2000, 3)];
    assert Expand(data[..1]) == [2000, 2000, 2000];
  }

  /** Packing seven pieces goes through the stages one placement at a time. */
  lemma PackSeven(pieces: seq<int>, rawLen: int, b: seq<seq<Bin>>)
    requires |pieces| == 7 && |b| == 8 && b[0] == []
    requires forall k :: 0 <= k < 7 ==> Place(b[k], pieces[k], rawLen) == b[k + 1]
    ensures Pack(pieces, rawLen) == b[7]
  {
    for k := 0 to 7
      invariant Pack(pieces[..k], rawLen) == b[k]
    {
      PackThrough(pieces, k, rawLen, b[k], b[k + 1]);
    }
    assert pieces[..7] == pieces;
  }

  /** The demanded pieces, longest first. */
  function Pieces(): seq<int>
  {
    [2000, 2000, 2000, 1500, 1500, 1500, 1500]
  }

  /** The bars after each placement. */
  function Stages(): seq<seq<Bin>>
  {
    var full := Bin(0, [2000, 2000, 2000]);
    [[], [Bin(4000, [2000])], [Bin(2000, [2000, 2000])], [full], [full, Bin(4500, [1500])],
      [full, Bin(3000, [1500, 1500])], [full, Bin(1500, [1500, 1500, 1500])], [full, Bin(0, [1500, 1500, 1500, 1500])]]
  }

  lemma Placements()
    ensures forall k :: 0 <= k < 7 ==> Place(Stages()[k], Pieces()[k], 6000) == Stages()[k + 1]
  {
    forall k | 0 <= k < 7
      ensures Place(Stages()[k], Pieces()[k], 6000) == Stages()[k + 1]
    {
      if k == 0 { Place1(); }
      else if k == 1 { Place2(); }
      else if k == 2 { Place3(); }
      else if k == 3 { Place4(); }
      else if k == 4 { Place5(); }
      else if k == 5 { Place6(); }
      else { Place7(); }
    }
  }

  lemma ScenarioSorted()
    ensures SortDesc(Pieces(), Identity) == Pieces()
  {
    assert SortedDesc(Pieces(), Identity);
    SortDescOfSorted(Pieces(), Identity);
  }

  /** The first three pieces fill one bar exactly, the last four another. */
  lemma TwoFullBars()
    ensures FfdBins([Demand(2000, 3), Demand(1500, 4)], 6000) == [Bin(0, [2000, 2000, 2000]), Bin(0, [1500, 1500, 1500, 1500])]
  {
    ExpandScenario();
    ScenarioSorted();
    Placements();
    PackSeven(Pieces(), 6000, Stages());
  }

  lemma SumScenario()
    ensures Sum(Pieces()) == 12000
  {
    SumConcat([2000, 2000, 2000], [1500, 1500, 1500, 1500]);
    assert Pieces() == [2000, 2000, 2000] + [1500, 1500, 1500, 1500];
    SumRepeat(2000, 3);
    SumRepeat(1500, 4);
    assert Repeat(2000, 3) == [2000, 2000, 2000];
    assert Repeat(1500, 4) == [1500, 1500, 1500, 1500];
  }

  /**
   * Pieces of 2000 mm x 3 and 1500 mm x 4 on 6000 mm bars: two bars, each
   * cut without waste.
   */
  lemma ScenarioReport()
    ensures TotalCount(FfdDetails([Demand(2000, 3), Demand(1500, 4)], 6000)) == 2
    ensures TotalWaste(FfdDetails([Demand(2000, 3), Demand(1500, 4)], 6000)) == 0
  {
    var data := [Demand(2000, 3), Demand(1500, 4)];
    TwoFullBars();
    FfdReport(data, 6000);
    ExpandScenario();
    SumScenario();
  }
}

/**
 * The greedy baseline, `solve_first_fit_decreasing`: every demanded piece,
 * longest first, goes into the first raw bar that still has room for it;
 * a new bar is opened when none has. Bars with the same contents are then
 * reported together.
 */
module FirstFitDecreasing {
  import opened Seqs
  import opened Sorting
  import opened Counting
  import opened PatternText
  import opened Plan

  /** A raw bar in use: the length still free and the pieces cut from it, in the order they were placed. */
  datatype Bin = Bin(remaining: int, items: seq<int>)

  /** The first bar with at least `piece` mm free, or |bins| when there is none. */
  function FirstFit(bins: seq<Bin>, piece: int): (j: nat)
    ensures j <= |bins|
    ensures j < |bins| ==> bins[j].remaining >= piece
    ensures forall k :: 0 <= k < j ==> bins[k].remaining < piece
  {
    if bins == [] || bins[0].remaining >= piece then 0 else 1 + FirstFit(bins[1..], piece)
  }

  /** One piece placed: into the first bar with room, or into a new bar of `rawLen` mm. */
  function Place(bins: seq<Bin>, piece: int, rawLen: int): (r: seq<Bin>)
    ensures |bins| <= |r| <= |bins| + 1
  {
    var j := FirstFit(bins, piece);
    if j < |bins| then bins[j := Bin(bins[j].remaining - piece, bins[j].items + [piece])]
    else bins + [Bin(rawLen - piece, [piece])]
  }

  /** Placing a piece is first-fit. */
  lemma PlaceIsFirstFit(bins: seq<Bin>, piece: int, rawLen: int)
    // a new bar is opened exactly when no bar has room, and it holds just this piece
    ensures var r := Place(bins, piece, rawLen);
      && (|r| == |bins| + 1 <==> forall k :: 0 <= k < |bins| ==> bins[k].remaining < piece)
      && (|r| == |bins| || |r| == |bins| + 1)
      && (|r| == |bins| + 1 ==> r[..|bins|] == bins && r[|bins|] == Bin(rawLen - piece, [piece]))
    // a bar that changes is the earliest one with room, and it receives the piece
    ensures var r := Place(bins, piece, rawLen);
      forall k :: 0 <= k < |bins| && r[k] != bins[k] ==>
        && bins[k].remaining >= piece
        && (forall e :: 0 <= e < k ==> bins[e].remaining < piece)
        && r[k] == Bin(bins[k].remaining - piece, bins[k].items + [piece])
    // when no bar is opened, the first bar with room receives the piece
    ensures var r := Place(bins, piece, rawLen);
      |r| == |bins| ==> r[FirstFit(bins, piece)].items == bins[FirstFit(bins, piece)].items + [piece]
  {
  }

  function Items(bins: seq<Bin>): seq<seq<int>>
  {
    seq(|bins|, k requires 0 <= k < |bins| => bins[k].items)
  }

  /** The pieces of all the bars. */
  function AllItems(bins: seq<Bin>): seq<int>
  {
    Flatten(Items(bins))
  }

  /** Every bar holds at least one piece and its free length is `rawLen` less what is cut from it. */
  ghost predicate Accounted(bins: seq<Bin>, rawLen: int)
  {
    forall k :: 0 <= k < |bins| ==> bins[k].items != [] && bins[k].remaining == rawLen - Sum(bins[k].items)
  }

  lemma {:induction false} FlattenUpdate(xs: seq<seq<int>>, j: nat, s: seq<int>)
    requires j < |xs|
    ensures multiset(Flatten(xs[j := s])) + multiset(xs[j]) == multiset(Flatten(xs)) + multiset(s)
  {
    var n := |xs| - 1;
    var ys := xs[j := s];
    assert Flatten(ys) == Flatten(ys[..n]) + ys[n];
    assert Flatten(xs) == Flatten(xs[..n]) + xs[n];
    if j < n {
      FlattenUpdate(xs[..n], j, s);
      assert ys[..n] == xs[..n][j := s];
      assert ys[n] == xs[n];
      var a, b := multiset(Flatten(ys[..n])), multiset(Flatten(xs[..n]));
      assert a + multiset(xs[j]) == b + multiset(s);
      var left, right := multiset(Flatten(ys)) + multiset(xs[j]), multiset(Flatten(xs)) + multiset(s);
      forall x
        ensures left[x] == right[x]
      {
        assert (a + multiset(xs[j]))[x] == (b + multiset(s))[x];
      }
      assert left == right;
    } else {
      assert ys[..n] == xs[..n];
    }
  }

  lemma {:induction false} FlattenHas(xs: seq<seq<int>>, j: nat)
    requires j < |xs|
    ensures multiset(xs[j]) <= multiset(Flatten(xs))
  {
    var n := |xs| - 1;
    if j < n {
      FlattenHas(xs[..n], j);
    }
  }

  lemma ItemsUpdate(bins: seq<Bin>, j: nat, b: Bin)
    requires j < |bins|
    ensures Items(bins[j := b]) == Items(bins)[j := b.items]
  {
  }

  lemma PlaceIntoBarAccounted(bins: seq<Bin>, j: nat, piece: int, rawLen: int)
    requires Accounted(bins, rawLen) && j < |bins|
    ensures Accounted(bins[j := Bin(bins[j].remaining - piece, bins[j].items + [piece])], rawLen)
  {
    var b := bins[j];
    var r := bins[j := Bin(b.remaining - piece, b.items + [piece])];
    SumAppend(b.items, piece);
    forall k | 0 <= k < |r|
      ensures r[k].items != [] && r[k].remaining == rawLen - Sum(r[k].items)
    {
      if k != j {
        assert r[k] == bins[k];
      }
    }
  }

  lemma PlaceIntoBarPieces(bins: seq<Bin>, j: nat, piece: int)
    requires j < |bins|
    ensures multiset(AllItems(bins[j := Bin(bins[j].remaining - piece, bins[j].items + [piece])]))
      == multiset(AllItems(bins)) + multiset{piece}
  {
    var b := bins[j];
    var grown := b.items + [piece];
    var r := bins[j := Bin(b.remaining - piece, grown)];
    ItemsUpdate(bins, j, Bin(b.remaining - piece, grown));
    FlattenUpdate(Items(bins), j, grown);
    CancelItems(multiset(AllItems(r)), multiset(AllItems(bins)), b.items, piece);
  }

  lemma CancelItems(after: multiset<int>, before: multiset<int>, items: seq<int>, piece: int)
    requires after + multiset(items) == before + multiset(items + [piece])
    ensures after == before + multiset{piece}
  {
    assert multiset(items + [piece]) == multiset(items) + multiset{piece};
    forall x
      ensures after[x] == (before + multiset{piece})[x]
    {
      assert (after + multiset(items))[x] == (before + multiset(items + [piece]))[x];
    }
  }

  lemma PlaceNewBar(bins: seq<Bin>, piece: int, rawLen: int)
    requires Accounted(bins, rawLen)
    ensures var r := bins + [Bin(rawLen - piece, [piece])];
      && Accounted(r, rawLen)
      && multiset(AllItems(r)) == multiset(AllItems(bins)) + multiset{piece}
  {
    var r := bins + [Bin(rawLen - piece, [piece])];
    assert Items(r) == Items(bins) + [[piece]];
    assert Items(r)[..|bins|] == Items(bins);
    assert Sum([piece]) == Sum([]) + piece;
  }

  lemma PlaceAccounting(bins: seq<Bin>, piece: int, rawLen: int)
    requires Accounted(bins, rawLen)
    ensures Accounted(Place(bins, piece, rawLen), rawLen)
    ensures multiset(AllItems(Place(bins, piece, rawLen))) == multiset(AllItems(bins)) + multiset{piece}
    ensures (forall k :: 0 <= k < |bins| ==> bins[k].remaining >= 0) && piece <= rawLen ==>
      forall k :: 0 <= k < |Place(bins, piece, rawLen)| ==> Place(bins, piece, rawLen)[k].remaining >= 0
  {
    var j := FirstFit(bins, piece);
    var r := Place(bins, piece, rawLen);
    if j < |bins| {
      PlaceIntoBarAccounted(bins, j, piece, rawLen);
      PlaceIntoBarPieces(bins, j, piece);
      assert r == bins[j := Bin(bins[j].remaining - piece, bins[j].items + [piece])];
    } else {
      PlaceNewBar(bins, piece, rawLen);
      assert r == bins + [Bin(rawLen - piece, [piece])];
    }
    if (forall k :: 0 <= k < |bins| ==> bins[k].remaining >= 0) && piece <= rawLen {
      forall k | 0 <= k < |r|
        ensures r[k].remaining >= 0
      {
        if k != j && k < |bins| {
          assert r[k] == bins[k];
        }
      }
    }
  }

  /** All the pieces placed one after the other, starting with no bars. */
  function Pack(pieces: seq<int>, rawLen: int): (bins: seq<Bin>)
    ensures Accounted(bins, rawLen)
    // every piece is placed exactly once
    ensures multiset(AllItems(bins)) == multiset(pieces)
    ensures |bins| <= |pieces|
  {
    if pieces == [] then []
    else
      var bins := Pack(pieces[..|pieces| - 1], rawLen);
      SplitLast(pieces);
      PlaceAccounting(bins, pieces[|pieces| - 1], rawLen);
      Place(bins, pieces[|pieces| - 1], rawLen)
  }

  /** No piece in m is shorter than k. */
  ghost predicate NoneBelow(m: multiset<int>, k: int)
  {
    forall y :: y in m ==> y >= k
  }

  lemma AppendSmallest(items: seq<int>, piece: int)
    requires SortedDesc(items, Identity)
    requires NoneBelow(multiset(items), piece)
    ensures SortedDesc(items + [piece], Identity)
  {
    var r := items + [piece];
    forall i, j | 0 <= i < j < |r|
      ensures Identity(r[i]) >= Identity(r[j])
    {
      if j == |items| {
        assert r[i] in multiset(items);
      }
    }
  }

  lemma BarPiecesAtLeast(bins: seq<Bin>, j: nat, piece: int)
    requires j < |bins|
    requires NoneBelow(multiset(AllItems(bins)), piece)
    ensures NoneBelow(multiset(bins[j].items), piece)
  {
    FlattenHas(Items(bins), j);
    assert Items(bins)[j] == bins[j].items;
    forall y | y in multiset(bins[j].items)
      ensures y >= piece
    {
      assert multiset(bins[j].items)[y] <= multiset(AllItems(bins))[y];
    }
  }

  /** No bar is overfilled when every piece fits in a raw bar. */
  lemma {:induction false} PackFits(pieces: seq<int>, rawLen: int)
    requires forall i :: 0 <= i < |pieces| ==> pieces[i] <= rawLen
    ensures forall k :: 0 <= k < |Pack(pieces, rawLen)| ==> Pack(pieces, rawLen)[k].remaining >= 0
  {
    if pieces != [] {
      var prefix, piece := pieces[..|pieces| - 1], pieces[|pieces| - 1];
      PackFits(prefix, rawLen);
      var bins := Pack(prefix, rawLen);
      PlaceAccounting(bins, piece, rawLen);
      assert Pack(pieces, rawLen) == Place(bins, piece, rawLen);
    }
  }

  ghost predicate BarsDescending(bins: seq<Bin>)
  {
    forall k :: 0 <= k < |bins| ==> SortedDesc(bins[k].items, Identity)
  }

  lemma PlaceKeepsBarsDescending(bins: seq<Bin>, piece: int, rawLen: int)
    requires BarsDescending(bins)
    requires NoneBelow(multiset(AllItems(bins)), piece)
    ensures BarsDescending(Place(bins, piece, rawLen))
  {
    var j := FirstFit(bins, piece);
    var r := Place(bins, piece, rawLen);
    if j < |bins| {
      BarPiecesAtLeast(bins, j, piece);
      AppendSmallest(bins[j].items, piece);
      assert r == bins[j := Bin(bins[j].remaining - piece, bins[j].items + [piece])];
    } else {
      assert r == bins + [Bin(rawLen - piece, [piece])];
    }
  }

  /** In a descending list, the prefix is descending and nothing in it is shorter than the last piece. */
  lemma SortedPrefix(pieces: seq<int>)
    requires pieces != [] && SortedDesc(pieces, Identity)
    ensures SortedDesc(pieces[..|pieces| - 1], Identity)
    ensures NoneBelow(multiset(pieces[..|pieces| - 1]), Last(pieces))
  {
    var prefix := pieces[..|pieces| - 1];
    forall y | y in multiset(prefix)
      ensures y >= Last(pieces)
    {
      var i :| 0 <= i < |prefix| && prefix[i] == y;
      assert Identity(pieces[i]) >= Identity(pieces[|prefix|]);
    }
  }

  function Last(pieces: seq<int>): int
    requires pieces != []
  {
    pieces[|pieces| - 1]
  }

  lemma PackStep(pieces: seq<int>, i: nat, rawLen: int)
    requires i < |pieces|
    ensures Pack(pieces[..i + 1], rawLen) == Place(Pack(pieces[..i], rawLen), pieces[i], rawLen)
  {
    PackLast(pieces[..i + 1], rawLen);
    assert pieces[..i + 1][..i] == pieces[..i];
  }

  lemma PackLast(pieces: seq<int>, rawLen: int)
    requires pieces != []
    ensures Pack(pieces, rawLen) == Place(Pack(pieces[..|pieces| - 1], rawLen), Last(pieces), rawLen)
  {
  }

  /**
   * When the pieces come longest first, every bar's pieces are in
   * descending order already, so the `sorted(..., reverse=True)` of line 110
   * leaves them as they are.
   */
  lemma {:induction false} PackKeepsBarsDescending(pieces: seq<int>, rawLen: int)
    requires SortedDesc(pieces, Identity)
    ensures BarsDescending(Pack(pieces, rawLen))
  {
    if pieces != [] {
      var prefix := pieces[..|pieces| - 1];
      SortedPrefix(pieces);
      PackKeepsBarsDescending(prefix, rawLen);
      PlaceKeepsBarsDescending(Pack(prefix, rawLen), Last(pieces), rawLen);
      PackLast(pieces, rawLen);
    }
  }

  /** The bars of `solve_first_fit_decreasing`: all pieces, longest first, packed first-fit. */
  function FfdBins(data: seq<Demand>, rawLen: int): (bins: seq<Bin>)
    ensures |bins| <= |Expand(data)|
  {
    Pack(SortDesc(Expand(data), Identity), rawLen)
  }

  /**
   * The result line for `count` bars holding `content` (lines 115-124): the
   * description lists each length with how often it occurs.
   */
  function BarDetail(content: seq<int>, count: nat, rawLen: int): (d: Detail)
    ensures d.count == count && d.usedLen + d.waste == rawLen
    ensures d.usedLen == Sum(content)
  {
    var usedLen := Sum(content);
    Detail(count, FormatPattern(TermsOf(Count(content))), usedLen, rawLen - usedLen)
  }

  /** Reading a result line's description back gives exactly the bar's pieces and its used length. */
  lemma BarDetailDescribes(content: seq<int>, count: nat, rawLen: int)
    ensures var terms := ParsePattern(BarDetail(content, count, rawLen).patternStr);
      && multiset(ExpandTerms(terms)) == multiset(content)
      && UsedLength(terms) == BarDetail(content, count, rawLen).usedLen
  {
    var terms := TermsOf(Count(content));
    PatternRoundTrip(terms);
    CounterTermsDescribe(content);
  }

  /** The result lines for the grouped bar contents, in the order the groups were first seen. */
  function DetailsOf(groups: seq<(seq<int>, nat)>, rawLen: int): seq<Detail>
  {
    seq(|groups|, e requires 0 <= e < |groups| => BarDetail(groups[e].0, groups[e].1, rawLen))
  }

  lemma DetailsOfLast(groups: seq<(seq<int>, nat)>, rawLen: int)
    requires groups != []
    ensures var n := |groups| - 1;
      DetailsOf(groups, rawLen) == DetailsOf(groups[..n], rawLen) + [BarDetail(groups[n].0, groups[n].1, rawLen)]
  {
    var n := |groups| - 1;
    var whole, prefix := DetailsOf(groups, rawLen), DetailsOf(groups[..n], rawLen);
    assert whole[..n] == prefix;
  }

  /** The result lines account for as many bars as the groups. */
  lemma {:induction false} DetailsOfCount(groups: seq<(seq<int>, nat)>, rawLen: int)
    ensures TotalCount(DetailsOf(groups, rawLen)) == WeightedSum(groups, One)
  {
    if groups != [] {
      DetailsOfLast(groups, rawLen);
      DetailsOfCount(groups[..|groups| - 1], rawLen);
    }
  }

  lemma WasteStep(w: int, a: int, b: int, count: int, waste: int, r: int, used: int, bars: int, pieces: int)
    requires w == r * a - b && waste == r - used
    requires bars == a + count * 1 && pieces == b + count * used
    ensures w + count * waste == r * bars - pieces
  {
  }

  /** The result lines account for the length left over on the grouped bars. */
  lemma {:induction false} DetailsOfWaste(groups: seq<(seq<int>, nat)>, rawLen: int)
    ensures TotalWaste(DetailsOf(groups, rawLen)) == rawLen * WeightedSum(groups, One) - WeightedSum(groups, Sum)
  {
    if groups != [] {
      var n := |groups| - 1;
      var prefix, last := groups[..n], groups[n];
      var ds := DetailsOf(groups, rawLen);
      DetailsOfLast(groups, rawLen);
      DetailsOfWaste(prefix, rawLen);
      var d := BarDetail(last.0, last.1, rawLen);
      var w := TotalWaste(DetailsOf(prefix, rawLen));
      assert TotalWaste(ds) == w + d.count * d.waste;
      WasteStep(w, WeightedSum(prefix, One), WeightedSum(prefix, Sum), d.count, d.waste, rawLen, Sum(last.0),
        WeightedSum(groups, One), WeightedSum(groups, Sum));
    }
  }

  /** The result lines describe the pieces of the grouped bars. */
  lemma {:induction false} DetailsOfPieces(groups: seq<(seq<int>, nat)>, rawLen: int)
    ensures DescribedPieces(DetailsOf(groups, rawLen)) == WeightedBag(groups, Bag)
  {
    if groups != [] {
      var n := |groups| - 1;
      DetailsOfLast(groups, rawLen);
      DetailsOfPieces(groups[..n], rawLen);
      BarDetailDescribes(groups[n].0, groups[n].1, rawLen);
    }
  }

  /** What `solve_first_fit_decreasing` returns, as functions of its inputs. */
  function BarContents(bins: seq<Bin>): seq<seq<int>>
  {
    seq(|bins|, k requires 0 <= k < |bins| => SortDesc(bins[k].items, Identity))
  }

  /** Line 110: one content per bar, its pieces sorted longest first. */
  lemma BarContentsSorted(bins: seq<Bin>)
    ensures |BarContents(bins)| == |bins|
    ensures forall k :: 0 <= k < |bins| ==>
      SortedDesc(BarContents(bins)[k], Identity) && multiset(BarContents(bins)[k]) == multiset(bins[k].items)
  {
  }

  function FfdDetails(data: seq<Demand>, rawLen: int): (details: seq<Detail>)
    ensures forall e :: 0 <= e < |details| ==> details[e].count >= 1 && details[e].usedLen + details[e].waste == rawLen
  {
    DetailsOf(Count(BarContents(FfdBins(data, rawLen))), rawLen)
  }

  /** The bar contents of the report are the bars' pieces as they were placed. */
  lemma FfdContents(data: seq<Demand>, rawLen: int)
    ensures BarContents(FfdBins(data, rawLen)) == Items(FfdBins(data, rawLen))
  {
    var pieces := SortDesc(Expand(data), Identity);
    PackKeepsBarsDescending(pieces, rawLen);
    var bins := Pack(pieces, rawLen);
    forall k | 0 <= k < |bins|
      ensures SortDesc(bins[k].items, Identity) == bins[k].items
    {
      SortDescOfSorted(bins[k].items, Identity);
    }
  }

  lemma Scale(r: int, x: int, y: int)
    requires x == y
    ensures r * x == y * r
  {
  }

  lemma ReportTotals(bins: seq<Bin>, rawLen: int)
    requires BarContents(bins) == Items(bins)
    ensures var details := DetailsOf(Count(BarContents(bins)), rawLen);
      && TotalCount(details) == |bins|
      && DescribedPieces(details) == multiset(AllItems(bins))
      && TotalWaste(details) == |bins| * rawLen - Sum(AllItems(bins))
  {
    var contents := Items(bins);
    var groups := Count(contents);
    DetailsOfCount(groups, rawLen);
    CountWeightedSum(contents, One);
    SumOfOnes(contents);
    DetailsOfWaste(groups, rawLen);
    CountWeightedSum(contents, Sum);
    SumOfSums(contents);
    Scale(rawLen, WeightedSum(groups, One), |bins|);
    DetailsOfPieces(groups, rawLen);
    CountWeightedBag(contents, Bag);
    BagOfBags(contents);
  }

  /**
   * The report of `solve_first_fit_decreasing` accounts for every bar once,
   * for every demanded piece once, and for the waste left on the bars.
   */
  lemma FfdReport(data: seq<Demand>, rawLen: int)
    ensures TotalCount(FfdDetails(data, rawLen)) == |FfdBins(data, rawLen)|
    ensures DescribedPieces(FfdDetails(data, rawLen)) == multiset(Expand(data))
    ensures TotalWaste(FfdDetails(data, rawLen)) == |FfdBins(data, rawLen)| * rawLen - Sum(Expand(data))
  {
    var pieces := SortDesc(Expand(data), Identity);
    var bins := Pack(pieces, rawLen);
    assert bins == FfdBins(data, rawLen);
    FfdContents(data, rawLen);
    ReportTotals(bins, rawLen);
    SumPermutation(AllItems(bins), pieces);
    SumPermutation(pieces, Expand(data));
  }

  lemma ReportLines(bins: seq<Bin>, rawLen: int)
    ensures var details := DetailsOf(Count(BarContents(bins)), rawLen);
      forall e :: 0 <= e < |details| ==> details[e].count >= 1 && details[e].usedLen + details[e].waste == rawLen
  {
  }

  lemma ReportWasteNonNegative(bins: seq<Bin>, rawLen: int)
    requires BarContents(bins) == Items(bins) && Accounted(bins, rawLen)
    requires forall k :: 0 <= k < |bins| ==> bins[k].remaining >= 0
    ensures var details := DetailsOf(Count(BarContents(bins)), rawLen);
      forall e :: 0 <= e < |details| ==> details[e].waste >= 0
  {
    var contents := Items(bins);
    var groups := Count(contents);
    var details := DetailsOf(groups, rawLen);
    forall e | 0 <= e < |details|
      ensures details[e].waste >= 0
    {
      assert groups[e].0 in multiset(contents);
      var k :| 0 <= k < |contents| && contents[k] == groups[e].0;
      assert bins[k].remaining >= 0;
    }
  }

  lemma PermutationFits(a: seq<int>, b: seq<int>, rawLen: int)
    requires multiset(a) == multiset(b)
    requires forall i :: 0 <= i < |a| ==> a[i] <= rawLen
    ensures forall i :: 0 <= i < |b| ==> b[i] <= rawLen
  {
    forall i | 0 <= i < |b|
      ensures b[i] <= rawLen
    {
      assert b[i] in multiset(a);
    }
  }

  /** Every result line stands for at least one bar, whose length is split into used and waste. */
  lemma FfdLines(data: seq<Demand>, rawLen: int)
    ensures forall e :: 0 <= e < |FfdDetails(data, rawLen)| ==>
      var d := FfdDetails(data, rawLen)[e];
      d.count >= 1 && d.usedLen + d.waste == rawLen
  {
    ReportLines(FfdBins(data, rawLen), rawLen);
  }

  /** No result line has negative waste when every piece fits in a raw bar. */
  lemma FfdWasteNonNegative(data: seq<Demand>, rawLen: int)
    requires forall i :: 0 <= i < |Expand(data)| ==> Expand(data)[i] <= rawLen
    ensures forall e :: 0 <= e < |FfdDetails(data, rawLen)| ==> FfdDetails(data, rawLen)[e].waste >= 0
  {
    var pieces := SortDesc(Expand(data), Identity);
    PermutationFits(Expand(data), pieces, rawLen);
    var bins := Pack(pieces, rawLen);
    PackFits(pieces, rawLen);
    FfdContents(data, rawLen);
    ReportWasteNonNegative(bins, rawLen);
  }

  /** Lines 87-89: every row contributes `[length] * quantity`. */
  method ExpandDemand(data: seq<Demand>) returns (allItems: seq<int>)
    ensures allItems == Expand(data)
  {
    allItems := [];
    for i := 0 to |data|
      invariant allItems == Expand(data[..i])
    {
      assert data[..i + 1][..i] == data[..i];
      allItems := allItems + Repeat(data[i].length, data[i].quantity);
    }
    assert data[..|data|] == data;
  }

  /** Lines 95-108: one piece into the first bar with room, or into a new bar. */
  method PlacePiece(bins: seq<Bin>, item: int, rawLen: int) returns (r: seq<Bin>)
    ensures r == Place(bins, item, rawLen)
  {
    r := bins;
    var placed := false;
    var j := 0;
    while j < |r|
      invariant 0 <= j <= |r| && r == bins && !placed
      invariant forall k :: 0 <= k < j ==> r[k].remaining < item
    {
      if r[j].remaining >= item {
        assert FirstFit(bins, item) == j;
        r := r[j := Bin(r[j].remaining - item, r[j].items + [item])];
        placed := true;
        break;
      }
      j := j + 1;
    }
    if !placed {
      assert FirstFit(bins, item) == |bins|;
      r := r + [Bin(rawLen - item, [item])];
    }
  }

  /** Lines 93-108: the pieces placed in order, starting with no bars. */
  method PackPieces(allItems: seq<int>, rawLen: int) returns (bins: seq<Bin>)
    ensures bins == Pack(allItems, rawLen)
  {
    bins := [];
    for i := 0 to |allItems|
      invariant bins == Pack(allItems[..i], rawLen)
    {
      PackStep(allItems, i, rawLen);
      bins := PlacePiece(bins, allItems[i], rawLen);
    }
    assert allItems[..|allItems|] == allItems;
  }

  /** Lines 110-124: one result line per distinct bar content, in the order first seen. */
  method DescribeBars(bins: seq<Bin>, rawLen: int) returns (details: seq<Detail>)
    ensures details == DetailsOf(Count(BarContents(bins)), rawLen)
  {
    var contents := seq(|bins|, k requires 0 <= k < |bins| => SortDesc(bins[k].items, Identity));
    var binCounts := Count(contents);
    details := [];
    for k := 0 to |binCounts|
      invariant details == DetailsOf(binCounts[..k], rawLen)
    {
      assert binCounts[..k + 1][..k] == binCounts[..k];
      DetailsOfLast(binCounts[..k + 1], rawLen);
      var content, count := binCounts[k].0, binCounts[k].1;
      details := details + [BarDetail(content, count, rawLen)];
    }
    assert binCounts[..|binCounts|] == binCounts;
  }

  /**
   * `solve_first_fit_decreasing` (lines 86-126): returns the number of raw
   * bars used and one result line per distinct bar content.
   */
  method SolveFirstFitDecreasing(data: seq<Demand>, rawLen: int) returns (total: nat, details: seq<Detail>)
    ensures total == |FfdBins(data, rawLen)| && details == FfdDetails(data, rawLen)
    // the lines account for every bar and every demanded piece exactly once
    ensures TotalCount(details) == total
    ensures DescribedPieces(details) == multiset(Expand(data))
    ensures forall e :: 0 <= e < |details| ==> details[e].count >= 1 && details[e].usedLen + details[e].waste == rawLen
    // the waste is what the bars hold beyond the pieces
    ensures TotalWaste(details) == total * rawLen - Sum(Expand(data))
    ensures (forall i :: 0 <= i < |Expand(data)| ==> Expand(data)[i] <= rawLen) ==>
      forall e :: 0 <= e < |details| ==> details[e].waste >= 0
  {
    var allItems := ExpandDemand(data);
    allItems := SortDesc(allItems, Identity);
    var bins := PackPieces(allItems, rawLen);
    details := DescribeBars(bins, rawLen);
    total := |bins|;
    FfdReport(data, rawLen);
    FfdLines(data, rawLen);
    if forall i :: 0 <= i < |Expand(data)| ==> Expand(data)[i] <= rawLen {
      FfdWasteNonNegative(data, rawLen);
    }
  }
}

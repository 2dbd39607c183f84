/**
 * The exact solver, `solve_cutting_stock_integer` (app.py lines 14-84):
 * column generation over cutting patterns, then an integer program over
 * the patterns found. The linear and integer programs are solved by an
 * external solver, which the model takes as an oracle: whatever it answers
 * is passed in, and every property below holds for every answer, or for
 * every answer with the stated property.
 */
module ColumnGeneration {
  import opened Wrappers
  import opened Seqs
  import opened Counting
  import opened Text
  import opened PatternText
  import opened Plan

  /** How many pieces of each demanded length one raw bar is cut into. */
  type Pattern = seq<int>

  /** `max_iter` of line 25. */
  const MaxIter: nat := 300

  /** The reduced-cost tolerance of line 49. */
  const Tolerance: real := 0.0000001

  /** The solver status of an optimal solution (`LpStatusOptimal`). */
  const Optimal: int := 1

  /** What the master LP solve reports: its status and the constraints' shadow prices `c.pi`. */
  datatype LpSolution = LpSolution(status: int, duals: seq<real>)

  /**
   * The external solver. The problems it is given are determined by the
   * arguments: the patterns and demands for the master LP and the final
   * integer program; the shadow prices, piece lengths and raw length for
   * the pricing problem. `pricingValue` and `finalValue` are the solved
   * variables, `int(a[i].varValue)` and `x_int[j].varValue`.
   */
  datatype Oracle = Oracle(
    master: (seq<Pattern>, seq<int>) -> LpSolution,
    pricingObjective: (seq<real>, seq<int>, int) -> Option<real>,
    pricingValue: (seq<real>, seq<int>, int, nat) -> int,
    finalObjective: (seq<Pattern>, seq<int>) -> int,
    finalValue: (seq<Pattern>, seq<int>, nat) -> int)

  /** Lines 19-23: one piece of length i and nothing else. */
  function Unit(n: nat, i: nat): (p: Pattern)
    requires i < n
    ensures |p| == n && p[i] == 1
    ensures forall k :: 0 <= k < n && k != i ==> p[k] == 0
  {
    Repeat(0, n)[i := 1]
  }

  /** Line 52: the pattern the pricing problem proposes. */
  function NewPattern(oracle: Oracle, duals: seq<real>, lengths: seq<int>, rawLen: int): (p: Pattern)
    ensures |p| == |lengths|
  {
    seq(|lengths|, i requires 0 <= i < |lengths| => oracle.pricingValue(duals, lengths, rawLen, i))
  }

  /** `pulp.value(sub_prob.objective) or 0`. */
  function ObjectiveOrZero(objective: Option<real>): real
  {
    match objective
    case None => 0.0
    case Some(v) => v
  }

  /** Line 49: no pattern has a negative reduced cost, so the generation stops. */
  predicate NoImprovement(objective: Option<real>)
  {
    1.0 - ObjectiveOrZero(objective) >= -Tolerance
  }

  ghost predicate Distinct(patterns: seq<Pattern>)
  {
    forall a, b :: 0 <= a < b < |patterns| ==> patterns[a] != patterns[b]
  }

  /** Every pattern has one entry per demand row. */
  ghost predicate Shaped(patterns: seq<Pattern>, n: nat)
  {
    forall j :: 0 <= j < |patterns| ==> |patterns[j]| == n
  }

  /**
   * Lines 27-54, one round that does not stop: the master LP over the
   * patterns so far is optimal, the pricing problem over its shadow prices
   * improves on it, and the pattern it proposes, `p`, is new.
   */
  ghost predicate Appended(oracle: Oracle, lengths: seq<int>, demands: seq<int>, rawLen: int, known: seq<Pattern>, p: Pattern)
  {
    var master := oracle.master(known, demands);
    master.status == Optimal
    && !NoImprovement(oracle.pricingObjective(master.duals, lengths, rawLen))
    && p == NewPattern(oracle, master.duals, lengths, rawLen)
    && p !in known
  }

  /** Lines 38, 49-50 and 53: the round over these patterns stops the generation. */
  ghost predicate Stopped(oracle: Oracle, lengths: seq<int>, demands: seq<int>, rawLen: int, patterns: seq<Pattern>)
  {
    var master := oracle.master(patterns, demands);
    master.status != Optimal
    || NoImprovement(oracle.pricingObjective(master.duals, lengths, rawLen))
    || NewPattern(oracle, master.duals, lengths, rawLen) in patterns
  }

  /**
   * The patterns lines 19-54 leave: the unit patterns, one per row, then one
   * pattern per round that does not stop, each the pricing answer for the
   * master LP over the patterns before it; fewer than `max_iter` rounds
   * only when the last round stopped.
   */
  ghost predicate Generated(oracle: Oracle, lengths: seq<int>, demands: seq<int>, rawLen: int, patterns: seq<Pattern>)
  {
    |lengths| <= |patterns| <= |lengths| + MaxIter
    && Shaped(patterns, |lengths|)
    && (forall k :: 0 <= k < |lengths| ==> patterns[k] == Unit(|lengths|, k))
    && Distinct(patterns)
    && (forall k :: |lengths| <= k < |patterns| ==> Appended(oracle, lengths, demands, rawLen, patterns[..k], patterns[k]))
    && (|patterns| < |lengths| + MaxIter ==> Stopped(oracle, lengths, demands, rawLen, patterns))
  }

  /**
   * Lines 19-54: the unit patterns, then at most `max_iter` rounds of
   * pricing. A round stops the generation when the master LP is not
   * optimal, when no pattern improves it, or when the proposed pattern is
   * already known.
   */
  method GeneratePatterns(lengths: seq<int>, demands: seq<int>, rawLen: int, oracle: Oracle)
    returns (patterns: seq<Pattern>)
    ensures Generated(oracle, lengths, demands, rawLen, patterns)
  {
    var n := |lengths|;
    patterns := [];
    for i := 0 to n
      invariant |patterns| == i
      invariant forall k :: 0 <= k < i ==> patterns[k] == Unit(n, k)
    {
      var row := Repeat(0, n);
      row := row[i := 1];
      patterns := patterns + [row];
    }
    forall a, b | 0 <= a < b < n
      ensures patterns[a] != patterns[b]
    {
      assert patterns[a][a] != patterns[b][a];
    }

    for iteration := 0 to MaxIter
      invariant |patterns| == n + iteration
      invariant Shaped(patterns, n)
      invariant forall k :: 0 <= k < n ==> patterns[k] == Unit(n, k)
      invariant Distinct(patterns)
      invariant forall k :: n <= k < |patterns| ==> Appended(oracle, lengths, demands, rawLen, patterns[..k], patterns[k])
    {
      var master := oracle.master(patterns, demands);
      if master.status != Optimal {
        break;
      }
      var shadowPrices := master.duals;
      var objective := oracle.pricingObjective(shadowPrices, lengths, rawLen);
      if NoImprovement(objective) {
        break;
      }
      var newPattern := NewPattern(oracle, shadowPrices, lengths, rawLen);
      if newPattern in patterns {
        break;
      }
      AppendRound(oracle, lengths, demands, rawLen, patterns, newPattern);
      patterns := patterns + [newPattern];
    }
  }

  /** The rounds recorded so far stay recorded when a pattern is appended. */
  lemma AppendRound(oracle: Oracle, lengths: seq<int>, demands: seq<int>, rawLen: int, patterns: seq<Pattern>, p: Pattern)
    requires |lengths| <= |patterns|
    requires forall k :: |lengths| <= k < |patterns| ==> Appended(oracle, lengths, demands, rawLen, patterns[..k], patterns[k])
    requires Appended(oracle, lengths, demands, rawLen, patterns, p)
    ensures forall k :: |lengths| <= k < |patterns| + 1 ==>
      Appended(oracle, lengths, demands, rawLen, (patterns + [p])[..k], (patterns + [p])[k])
  {
    forall k | |lengths| <= k < |patterns| + 1
      ensures Appended(oracle, lengths, demands, rawLen, (patterns + [p])[..k], (patterns + [p])[k])
    {
      if k < |patterns| {
        assert (patterns + [p])[..k] == patterns[..k];
      } else {
        assert (patterns + [p])[..k] == patterns;
      }
    }
  }

  /** Two lists both left by the generation agree on their first k patterns. */
  lemma {:induction false} GeneratedPrefix(oracle: Oracle, lengths: seq<int>, demands: seq<int>, rawLen: int,
                                           p: seq<Pattern>, q: seq<Pattern>, k: nat)
    requires Generated(oracle, lengths, demands, rawLen, p) && Generated(oracle, lengths, demands, rawLen, q)
    requires k <= |p| && k <= |q|
    ensures p[..k] == q[..k]
  {
    var n := |lengths|;
    if k <= n {
      assert forall i :: 0 <= i < k ==> p[i] == Unit(n, i) == q[i];
    } else {
      GeneratedPrefix(oracle, lengths, demands, rawLen, p, q, k - 1);
      assert Appended(oracle, lengths, demands, rawLen, p[..k - 1], p[k - 1]);
      assert Appended(oracle, lengths, demands, rawLen, q[..k - 1], q[k - 1]);
      assert p[..k] == p[..k - 1] + [p[k - 1]];
      assert q[..k] == q[..k - 1] + [q[k - 1]];
    }
  }

  /**
   * The generation is determined by the solver's answers: the patterns it
   * leaves are the only list with the properties of `Generated`.
   */
  lemma GeneratedIsUnique(oracle: Oracle, lengths: seq<int>, demands: seq<int>, rawLen: int, p: seq<Pattern>, q: seq<Pattern>)
    requires Generated(oracle, lengths, demands, rawLen, p) && Generated(oracle, lengths, demands, rawLen, q)
    ensures p == q
  {
    assert p[..|p|] == p && q[..|q|] == q;
    if |p| < |q| {
      GeneratedPrefix(oracle, lengths, demands, rawLen, p, q, |p|);
      assert false;
    } else if |q| < |p| {
      GeneratedPrefix(oracle, lengths, demands, rawLen, p, q, |q|);
      assert false;
    } else {
      GeneratedPrefix(oracle, lengths, demands, rawLen, p, q, |p|);
    }
  }

  /** The indices of the positive entries of s, in increasing order. */
  function PositiveIndices(s: seq<int>): (ix: seq<nat>)
    ensures forall k :: 0 <= k < |ix| ==> ix[k] < |s| && s[ix[k]] > 0
    ensures forall k, m :: 0 <= k < m < |ix| ==> ix[k] < ix[m]
    ensures forall i :: 0 <= i < |s| && s[i] > 0 ==> i in ix
  {
    if s == [] then []
    else
      var ix := PositiveIndices(s[..|s| - 1]);
      ix + (if s[|s| - 1] > 0 then [|s| - 1] else [])
  }

  /**
   * Lines 72-75: the terms "{val}x {length}mm" of a pattern, one for each
   * positive entry, in index order.
   */
  function PatternTerms(p: Pattern, lengths: seq<int>): seq<Term>
    requires |p| <= |lengths|
  {
    if p == [] then []
    else
      var i := |p| - 1;
      PatternTerms(p[..i], lengths) + (if p[i] > 0 then [Term(p[i], lengths[i])] else [])
  }

  /** The terms of a pattern are its positive entries, in index order, with their lengths. */
  lemma {:induction false} PatternTermsArePositiveEntries(p: Pattern, lengths: seq<int>)
    requires |p| <= |lengths|
    ensures |PatternTerms(p, lengths)| == |PositiveIndices(p)|
    ensures forall k :: 0 <= k < |PositiveIndices(p)| ==>
      PatternTerms(p, lengths)[k] == Term(p[PositiveIndices(p)[k]], lengths[PositiveIndices(p)[k]])
  {
    if p != [] {
      var i := |p| - 1;
      PatternTermsArePositiveEntries(p[..i], lengths);
      var ix, terms := PositiveIndices(p[..i]), PatternTerms(p[..i], lengths);
      forall k | 0 <= k < |ix|
        ensures PatternTerms(p, lengths)[k] == Term(p[ix[k]], lengths[ix[k]])
      {
        assert PatternTerms(p, lengths)[k] == terms[k];
        assert p[ix[k]] == p[..i][ix[k]];
      }
    }
  }

  lemma FormatTermsAppend(terms: seq<Term>, t: Term)
    ensures FormatTerms(terms + [t]) == FormatTerms(terms) + [FormatTerm(t)]
  {
  }

  /**
   * Lines 70-75: the description and the used length of one pattern,
   * entry by entry.
   */
  method DescribePattern(pattern: Pattern, lengths: seq<int>) returns (description: seq<string>, patternLength: int)
    requires |pattern| <= |lengths|
    ensures description == FormatTerms(PatternTerms(pattern, lengths))
    ensures patternLength == UsedLength(PatternTerms(pattern, lengths))
  {
    description, patternLength := [], 0;
    for idx := 0 to |pattern|
      invariant description == FormatTerms(PatternTerms(pattern[..idx], lengths))
      invariant patternLength == UsedLength(PatternTerms(pattern[..idx], lengths))
    {
      var terms := PatternTerms(pattern[..idx], lengths);
      assert pattern[..idx + 1][..idx] == pattern[..idx];
      var val := pattern[idx];
      if val > 0 {
        var t := Term(val, lengths[idx]);
        FormatTermsAppend(terms, t);
        assert (terms + [t])[..|terms|] == terms;
        description := description + [FormatTerm(t)];
        patternLength := patternLength + val * lengths[idx];
      } else {
        assert terms + [] == terms;
      }
    }
    assert pattern[..|pattern|] == pattern;
  }

  /** `sum(p[i] * lengths[i])`: the length the pieces of a pattern take up. */
  function Dot(p: Pattern, lengths: seq<int>): int
    requires |p| <= |lengths|
  {
    if p == [] then 0 else Dot(p[..|p| - 1], lengths) + p[|p| - 1] * lengths[|p| - 1]
  }

  ghost predicate NonNegative(s: seq<int>)
  {
    forall i :: 0 <= i < |s| ==> s[i] >= 0
  }

  /** With no negative entry, the used length of line 75 is the pattern's whole length. */
  lemma {:induction false} UsedLengthIsDot(p: Pattern, lengths: seq<int>)
    requires |p| <= |lengths| && NonNegative(p)
    ensures UsedLength(PatternTerms(p, lengths)) == Dot(p, lengths)
  {
    if p != [] {
      var i := |p| - 1;
      UsedLengthIsDot(p[..i], lengths);
      var terms := PatternTerms(p[..i], lengths);
      if p[i] > 0 {
        var t := Term(p[i], lengths[i]);
        assert (terms + [t])[..|terms|] == terms;
      } else {
        assert terms + [] == terms;
      }
    }
  }

  /** A unit pattern takes up exactly its one piece. */
  lemma {:induction false} UnitDot(n: nat, i: nat, lengths: seq<int>, m: nat)
    requires i < n <= |lengths| && m <= n
    ensures Dot(Unit(n, i)[..m], lengths) == if i < m then lengths[i] else 0
  {
    if m > 0 {
      UnitDot(n, i, lengths, m - 1);
      assert Unit(n, i)[..m][..m - 1] == Unit(n, i)[..m - 1];
    }
  }

  /** The constraint of line 45, and the lower bound 0 of line 43. */
  ghost predicate Fits(p: Pattern, lengths: seq<int>, rawLen: int)
  {
    |p| <= |lengths| && NonNegative(p) && Dot(p, lengths) <= rawLen
  }

  /** An oracle whose pricing answers respect the pricing problem's constraints. */
  ghost predicate PricingFeasible(oracle: Oracle, lengths: seq<int>, rawLen: int)
  {
    forall duals :: Fits(NewPattern(oracle, duals, lengths, rawLen), lengths, rawLen)
  }

  /**
   * Every pattern the generation keeps fits a raw bar, when the pricing
   * answers respect their constraints and every piece fits a bar on its own.
   */
  lemma GeneratedPatternFits(oracle: Oracle, lengths: seq<int>, demands: seq<int>, rawLen: int, patterns: seq<Pattern>, k: nat)
    requires PricingFeasible(oracle, lengths, rawLen)
    requires forall i :: 0 <= i < |lengths| ==> 0 <= lengths[i] <= rawLen
    requires Generated(oracle, lengths, demands, rawLen, patterns) && k < |patterns|
    ensures Fits(patterns[k], lengths, rawLen)
  {
    var n := |lengths|;
    if k < n {
      UnitDot(n, k, lengths, n);
      assert Unit(n, k)[..n] == Unit(n, k);
    } else {
      assert Appended(oracle, lengths, demands, rawLen, patterns[..k], patterns[k]);
    }
  }

  /** One line of the result for a pattern cut `count` times (lines 77-82). */
  function PatternDetail(p: Pattern, count: int, lengths: seq<int>, rawLen: int): (d: Detail)
    requires |p| <= |lengths|
    ensures d.count == count && d.usedLen + d.waste == rawLen
    ensures ParsePattern(d.patternStr) == PatternTerms(p, lengths)
  {
    var terms := PatternTerms(p, lengths);
    PatternRoundTrip(terms);
    Detail(count, FormatPattern(terms), UsedLength(terms), rawLen - UsedLength(terms))
  }

  /** A pattern that fits a raw bar leaves no negative waste. */
  lemma PatternDetailWaste(p: Pattern, count: int, lengths: seq<int>, rawLen: int)
    requires Fits(p, lengths, rawLen)
    ensures PatternDetail(p, count, lengths, rawLen).waste >= 0
    ensures PatternDetail(p, count, lengths, rawLen).usedLen == Dot(p, lengths)
  {
    UsedLengthIsDot(p, lengths);
  }

  /** Lines 66-82: a line for each pattern whose value is positive, in pattern order. */
  function ResultLines(patterns: seq<Pattern>, values: seq<int>, lengths: seq<int>, rawLen: int): seq<Detail>
    requires |values| <= |patterns| && Shaped(patterns, |lengths|)
  {
    if values == [] then []
    else
      var j := |values| - 1;
      ResultLines(patterns, values[..j], lengths, rawLen)
        + (if values[j] > 0 then [PatternDetail(patterns[j], values[j], lengths, rawLen)] else [])
  }

  /** The result lines are the patterns with a positive value, in pattern order. */
  lemma {:induction false} ResultLinesArePositiveValues(patterns: seq<Pattern>, values: seq<int>, lengths: seq<int>, rawLen: int)
    requires |values| <= |patterns| && Shaped(patterns, |lengths|)
    ensures |ResultLines(patterns, values, lengths, rawLen)| == |PositiveIndices(values)|
    ensures forall k :: 0 <= k < |PositiveIndices(values)| ==>
      var j := PositiveIndices(values)[k];
      ResultLines(patterns, values, lengths, rawLen)[k] == PatternDetail(patterns[j], values[j], lengths, rawLen)
  {
    if values != [] {
      var j := |values| - 1;
      ResultLinesArePositiveValues(patterns, values[..j], lengths, rawLen);
      var ix, lines := PositiveIndices(values[..j]), ResultLines(patterns, values[..j], lengths, rawLen);
      var tail := if values[j] > 0 then [PatternDetail(patterns[j], values[j], lengths, rawLen)] else [];
      assert ResultLines(patterns, values, lengths, rawLen) == lines + tail;
      assert PositiveIndices(values) == ix + (if values[j] > 0 then [j] else []);
      forall k | 0 <= k < |ix|
        ensures (lines + tail)[k] == PatternDetail(patterns[ix[k]], values[ix[k]], lengths, rawLen)
      {
        assert values[ix[k]] == values[..j][ix[k]];
      }
    }
  }

  /** The piece lengths and the demands of the rows (lines 16-17). */
  function Lengths(data: seq<Demand>): (lengths: seq<int>)
    ensures |lengths| == |data|
  {
    seq(|data|, i requires 0 <= i < |data| => data[i].length)
  }

  function Demands(data: seq<Demand>): (demands: seq<int>)
    ensures |demands| == |data|
  {
    seq(|data|, i requires 0 <= i < |data| => data[i].quantity)
  }

  /** The solved values of the integer variables, `x_int[j].varValue`. */
  function FinalValues(oracle: Oracle, patterns: seq<Pattern>, demands: seq<int>): (values: seq<int>)
    ensures |values| == |patterns|
  {
    seq(|patterns|, j requires 0 <= j < |patterns| => oracle.finalValue(patterns, demands, j))
  }

  /**
   * An integer solution that reports as its objective the sum of its
   * values (lines 58 and 64) and has no negative value (line 57).
   */
  ghost predicate Consistent(oracle: Oracle, patterns: seq<Pattern>, demands: seq<int>)
  {
    var values := FinalValues(oracle, patterns, demands);
    NonNegative(values) && oracle.finalObjective(patterns, demands) == Sum(values)
  }

  lemma ResultLinesStep(patterns: seq<Pattern>, values: seq<int>, j: nat, lengths: seq<int>, rawLen: int)
    requires j < |values| <= |patterns| && Shaped(patterns, |lengths|)
    ensures ResultLines(patterns, values[..j + 1], lengths, rawLen)
      == ResultLines(patterns, values[..j], lengths, rawLen)
        + (if values[j] > 0 then [PatternDetail(patterns[j], values[j], lengths, rawLen)] else [])
  {
    assert values[..j + 1][..j] == values[..j];
  }

  /** The line of lines 77-82, built from the description and length of lines 70-75. */
  lemma DescribedLine(p: Pattern, count: int, lengths: seq<int>, rawLen: int, description: seq<string>, patternLength: int)
    requires |p| <= |lengths|
    requires description == FormatTerms(PatternTerms(p, lengths))
    requires patternLength == UsedLength(PatternTerms(p, lengths))
    ensures Detail(count, Join(description, TermSeparator), patternLength, rawLen - patternLength)
      == PatternDetail(p, count, lengths, rawLen)
  {
  }

  /**
   * Lines 66-82: one result line for each pattern the integer solution
   * cuts at least once, in pattern order.
   */
  method DescribeSolution(patterns: seq<Pattern>, lengths: seq<int>, demands: seq<int>, rawLen: int, oracle: Oracle)
    returns (details: seq<Detail>)
    requires Shaped(patterns, |lengths|)
    ensures details == ResultLines(patterns, FinalValues(oracle, patterns, demands), lengths, rawLen)
  {
    ghost var values := FinalValues(oracle, patterns, demands);
    details := [];
    for j := 0 to |patterns|
      invariant details == ResultLines(patterns, values[..j], lengths, rawLen)
    {
      ResultLinesStep(patterns, values, j, lengths, rawLen);
      var count := oracle.finalValue(patterns, demands, j);
      assert count == values[j];
      if count > 0 {
        var description, patternLength := DescribePattern(patterns[j], lengths);
        DescribedLine(patterns[j], count, lengths, rawLen, description, patternLength);
        details := details + [Detail(count, Join(description, TermSeparator), patternLength, rawLen - patternLength)];
      }
    }
    assert values[..|patterns|] == values;
  }

  /**
   * `solve_cutting_stock_integer`: generate the patterns, then read the
   * integer solution over them. The patterns are returned for the
   * contract only.
   */
  method SolveCuttingStockInteger(data: seq<Demand>, rawLen: int, oracle: Oracle)
    returns (totalUsed: int, details: seq<Detail>, ghost patterns: seq<Pattern>)
    ensures Generated(oracle, Lengths(data), Demands(data), rawLen, patterns)
    ensures totalUsed == oracle.finalObjective(patterns, Demands(data))
    ensures details == ResultLines(patterns, FinalValues(oracle, patterns, Demands(data)), Lengths(data), rawLen)
    ensures Consistent(oracle, patterns, Demands(data)) ==> TotalCount(details) == totalUsed
  {
    var lengths, demands := Lengths(data), Demands(data);
    var generated := GeneratePatterns(lengths, demands, rawLen, oracle);
    patterns := generated;
    totalUsed := oracle.finalObjective(generated, demands);
    details := DescribeSolution(generated, lengths, demands, rawLen, oracle);
    if Consistent(oracle, generated, demands) {
      ResultLinesCount(generated, FinalValues(oracle, generated, demands), lengths, rawLen);
    }
  }

  /** With no negative value, the lines account for as many bars as the values add up to. */
  lemma {:induction false} ResultLinesCount(patterns: seq<Pattern>, values: seq<int>, lengths: seq<int>, rawLen: int)
    requires |values| <= |patterns| && Shaped(patterns, |lengths|) && NonNegative(values)
    ensures TotalCount(ResultLines(patterns, values, lengths, rawLen)) == Sum(values)
  {
    if values != [] {
      var j := |values| - 1;
      ResultLinesCount(patterns, values[..j], lengths, rawLen);
      var lines := ResultLines(patterns, values[..j], lengths, rawLen);
      if values[j] > 0 {
        var d := PatternDetail(patterns[j], values[j], lengths, rawLen);
        assert (lines + [d])[..|lines|] == lines;
      } else {
        assert lines + [] == lines;
      }
    }
  }

  /**
   * Every result line is cut at least once, and, when every pattern fits a
   * raw bar, uses the pattern's whole length and wastes nothing negative.
   */
  lemma ResultLinesWaste(patterns: seq<Pattern>, values: seq<int>, lengths: seq<int>, rawLen: int)
    requires |values| <= |patterns| && Shaped(patterns, |lengths|)
    ensures forall d :: d in ResultLines(patterns, values, lengths, rawLen) ==>
      d.count > 0 && d.usedLen + d.waste == rawLen
    ensures (forall j :: 0 <= j < |patterns| ==> Fits(patterns[j], lengths, rawLen)) ==>
      forall d :: d in ResultLines(patterns, values, lengths, rawLen) ==> d.waste >= 0
  {
    ResultLinesArePositiveValues(patterns, values, lengths, rawLen);
    var lines, ix := ResultLines(patterns, values, lengths, rawLen), PositiveIndices(values);
    forall d | d in lines
      ensures d.count > 0 && d.usedLen + d.waste == rawLen
      ensures (forall j :: 0 <= j < |patterns| ==> Fits(patterns[j], lengths, rawLen)) ==> d.waste >= 0
    {
      var k :| 0 <= k < |lines| && lines[k] == d;
      var j := ix[k];
      if forall j :: 0 <= j < |patterns| ==> Fits(patterns[j], lengths, rawLen) {
        PatternDetailWaste(patterns[j], values[j], lengths, rawLen);
      }
    }
  }

  /** How many pieces of length x a pattern cuts: its positive entries of that length. */
  function PiecesOfLength(p: Pattern, lengths: seq<int>, x: int): (c: int)
    requires |p| <= |lengths|
    ensures c >= 0
  {
    if p == [] then 0
    else
      var i := |p| - 1;
      PiecesOfLength(p[..i], lengths, x) + (if p[i] > 0 && lengths[i] == x then p[i] else 0)
  }

  lemma RepeatCount(l: int, c: int, x: int)
    requires c > 0
    ensures multiset(Repeat(l, c))[x] == if l == x then c else 0
  {
    RepeatBag(l, c);
    TimesCount(Singleton(l), c, x);
  }

  /** The pieces a pattern's description lists are the pieces the pattern cuts. */
  lemma {:induction false} PatternTermsPieces(p: Pattern, lengths: seq<int>, x: int)
    requires |p| <= |lengths|
    ensures multiset(ExpandTerms(PatternTerms(p, lengths)))[x] == PiecesOfLength(p, lengths, x)
  {
    if p != [] {
      var i := |p| - 1;
      PatternTermsPieces(p[..i], lengths, x);
      var terms := PatternTerms(p[..i], lengths);
      if p[i] > 0 {
        var t := Term(p[i], lengths[i]);
        assert (terms + [t])[..|terms|] == terms;
        RepeatCount(lengths[i], p[i], x);
      } else {
        assert terms + [] == terms;
      }
    }
  }

  /** A pattern cuts at least as many pieces of a row's length as its entry for that row. */
  lemma {:induction false} PiecesOfLengthAtLeast(p: Pattern, lengths: seq<int>, i: nat)
    requires i < |p| <= |lengths|
    ensures PiecesOfLength(p, lengths, lengths[i]) >= p[i]
  {
    var n := |p| - 1;
    if i < n {
      PiecesOfLengthAtLeast(p[..n], lengths, i);
    }
  }

  /** `lpSum(x[j] * patterns[j][i])`: the pieces of row i that the values cut (lines 33 and 60). */
  function Covered(patterns: seq<Pattern>, values: seq<int>, i: nat): int
    requires |values| <= |patterns| && forall j :: 0 <= j < |patterns| ==> i < |patterns[j]|
  {
    if values == [] then 0
    else
      var j := |values| - 1;
      Covered(patterns, values[..j], i) + values[j] * patterns[j][i]
  }

  /** A solution of the integer program of lines 56-62: no negative value, every demand met. */
  ghost predicate Feasible(patterns: seq<Pattern>, values: seq<int>, demands: seq<int>)
    requires |values| <= |patterns| && Shaped(patterns, |demands|)
  {
    NonNegative(values) && forall i :: 0 <= i < |demands| ==> Covered(patterns, values, i) >= demands[i]
  }

  lemma DescribedPiecesAppend(lines: seq<Detail>, d: Detail)
    ensures DescribedPieces(lines + [d])
      == DescribedPieces(lines) + Times(multiset(ExpandTerms(ParsePattern(d.patternStr))), d.count)
  {
    assert (lines + [d])[..|lines|] == lines;
  }

  lemma MulMonotone(v: int, a: int, b: int)
    requires v >= 0 && a >= b
    ensures v * a >= v * b
  {
  }

  lemma LineCovers(p: Pattern, v: int, lengths: seq<int>, rawLen: int, i: nat)
    requires i < |p| <= |lengths| && v > 0
    ensures var d := PatternDetail(p, v, lengths, rawLen);
      Times(multiset(ExpandTerms(ParsePattern(d.patternStr))), d.count)[lengths[i]] >= v * p[i]
  {
    var x := lengths[i];
    PatternTermsPieces(p, lengths, x);
    TimesCount(multiset(ExpandTerms(PatternTerms(p, lengths))), v, x);
    PiecesOfLengthAtLeast(p, lengths, i);
    MulMonotone(v, PiecesOfLength(p, lengths, x), p[i]);
  }

  /** The lines describe at least the pieces of row i that the values cut. */
  lemma {:induction false} ResultLinesCover(patterns: seq<Pattern>, values: seq<int>, lengths: seq<int>, rawLen: int, i: nat)
    requires |values| <= |patterns| && Shaped(patterns, |lengths|) && NonNegative(values) && i < |lengths|
    ensures DescribedPieces(ResultLines(patterns, values, lengths, rawLen))[lengths[i]] >= Covered(patterns, values, i)
  {
    if values != [] {
      var j := |values| - 1;
      ResultLinesCover(patterns, values[..j], lengths, rawLen, i);
      var lines := ResultLines(patterns, values[..j], lengths, rawLen);
      if values[j] > 0 {
        var d := PatternDetail(patterns[j], values[j], lengths, rawLen);
        DescribedPiecesAppend(lines, d);
        LineCovers(patterns[j], values[j], lengths, rawLen, i);
      } else {
        assert lines + [] == lines;
      }
    }
  }

  /**
   * When the integer solution is feasible, the result lines describe, for
   * every row, at least as many pieces of its length as the row demands.
   */
  lemma SolutionCoversDemand(oracle: Oracle, patterns: seq<Pattern>, data: seq<Demand>, rawLen: int, i: nat)
    requires Shaped(patterns, |data|) && i < |data|
    requires Feasible(patterns, FinalValues(oracle, patterns, Demands(data)), Demands(data))
    ensures DescribedPieces(ResultLines(patterns, FinalValues(oracle, patterns, Demands(data)), Lengths(data), rawLen))[data[i].length]
      >= data[i].quantity
  {
    ResultLinesCover(patterns, FinalValues(oracle, patterns, Demands(data)), Lengths(data), rawLen, i);
  }
}

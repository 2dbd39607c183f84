/**
 * The textual form of a cutting pattern shared by both solvers,
 * `" + ".join(f"{c}x {l}mm" ...)`, and the reader in the PDF report that
 * takes it apart again.
 */
module PatternText {
  import opened Wrappers
  import opened Seqs
  import opened Text
  import opened Counting

  /** `count` pieces of `length` mm, written "{count}x {length}mm". */
  datatype Term = Term(count: int, length: int)

  const TermSeparator: string := " + "

  /** One term of a description, `f"{c}x {l}mm"`. */
  function FormatTerm(t: Term): string
  {
    IntToString(t.count) + "x " + IntToString(t.length) + "mm"
  }

  function FormatTerms(terms: seq<Term>): seq<string>
  {
    seq(|terms|, i requires 0 <= i < |terms| => FormatTerm(terms[i]))
  }

  /** The pattern description: the terms joined with " + ". */
  function FormatPattern(terms: seq<Term>): string
  {
    Join(FormatTerms(terms), TermSeparator)
  }

  /** A term is never empty and never holds a '+', so it cannot run into the separator. */
  lemma FormatTermShape(t: Term)
    ensures |FormatTerm(t)| >= 4 && '+' !in FormatTerm(t)
  {
    var c, l := IntToString(t.count), IntToString(t.length);
    assert '+' !in c && '+' !in l;
  }

  /** A pattern description is empty exactly when the pattern has no term. */
  lemma FormatPatternEmpty(terms: seq<Term>)
    ensures FormatPattern(terms) == "" <==> terms == []
  {
    if terms != [] {
      FormatTermShape(terms[0]);
      JoinNotEmpty(FormatTerms(terms), TermSeparator);
    }
  }

  /**
   * One term read back: split on "x " into exactly two halves, int() of
   * the first, int() of the second with "mm" removed. None where Python
   * raises, which the report's bare `except` skips.
   */
  function ParseTerm(p: string): (r: Option<Term>)
    // a term is read only from a part holding "x "
    ensures r.Some? ==> exists k :: MatchAt(p, "x ", k)
  {
    var halves := Split(p, "x ");
    if |halves| != 2 then None
    else
      assert MatchAt(p, "x ", FindFrom(p, "x ", 0));
      match (ParseInt(halves[0]), ParseInt(Replace(halves[1], "mm", "")))
      case (Some(c), Some(l)) => Some(Term(c, l))
      case _ => None
  }

  /** The terms that parse, in order; the others are skipped. */
  function KeepParsed(parts: seq<string>): (terms: seq<Term>)
    ensures |terms| <= |parts|
  {
    if parts == [] then []
    else
      (match ParseTerm(parts[0]) case Some(t) => [t] case None => []) + KeepParsed(parts[1..])
  }

  /** The terms the report draws for a pattern description: none for the empty string. */
  function ParsePattern(s: string): (terms: seq<Term>)
    ensures |terms| <= |Split(s, TermSeparator)|
  {
    if s == "" then [] else KeepParsed(Split(s, TermSeparator))
  }

  lemma TermRoundTrip(t: Term)
    ensures ParseTerm(FormatTerm(t)) == Some(t)
  {
    var c, l := IntToString(t.count), IntToString(t.length);
    var lmm := l + "mm";
    assert 'x' !in c && 'x' !in lmm && 'm' !in l;
    SeparableWithoutFirst(c, "x ");
    SeparableWithoutFirst(lmm, "x ");
    assert FormatTerm(t) == Join([c, lmm], "x ");
    SplitJoin([c, lmm], "x ");
    SeparableWithoutFirst(l, "mm");
    assert Separable("", "mm");
    assert lmm == Join([l, ""], "mm");
    SplitJoin([l, ""], "mm");
    assert Join([l, ""], "") == l + "" + Join([""], "") == l;
    assert Replace(lmm, "mm", "") == l;
    IntToStringRoundTrip(t.count);
    IntToStringRoundTrip(t.length);
  }

  lemma KeepParsedStep(parts: seq<string>, t: Term)
    requires parts != [] && ParseTerm(parts[0]) == Some(t)
    ensures KeepParsed(parts) == [t] + KeepParsed(parts[1..])
  {
  }

  lemma KeepParsedFormattedStep(terms: seq<Term>)
    requires terms != []
    ensures KeepParsed(FormatTerms(terms)) == [terms[0]] + KeepParsed(FormatTerms(terms[1..]))
  {
    var parts := FormatTerms(terms);
    TermRoundTrip(terms[0]);
    KeepParsedStep(parts, terms[0]);
    assert parts[1..] == FormatTerms(terms[1..]);
  }

  lemma {:induction false} KeepParsedFormatted(terms: seq<Term>)
    ensures KeepParsed(FormatTerms(terms)) == terms
  {
    if terms != [] {
      KeepParsedFormattedStep(terms);
      KeepParsedFormatted(terms[1..]);
      SplitFirst(terms);
    }
  }

  /** Reading a pattern description back gives exactly the terms it was written from. */
  lemma PatternRoundTrip(terms: seq<Term>)
    ensures ParsePattern(FormatPattern(terms)) == terms
  {
    var parts := FormatTerms(terms);
    if terms != [] {
      forall i | 0 <= i < |parts|
        ensures Separable(parts[i], TermSeparator)
      {
        var c, l := IntToString(terms[i].count), IntToString(terms[i].length);
        assert parts[i] == c + "x " + l + "mm";
        assert '+' !in c && '+' !in l;
        SeparableWithoutSecond(parts[i], TermSeparator);
      }
      SplitJoin(parts, TermSeparator);
      assert |parts[0]| > 0;
      assert |parts| == 1 || FormatPattern(terms) == parts[0] + TermSeparator + Join(parts[1..], TermSeparator);
      KeepParsedFormatted(terms);
    }
  }

  /** The length the terms take up: the sum of count * length. */
  function UsedLength(terms: seq<Term>): int
  {
    if terms == [] then 0 else UsedLength(terms[..|terms| - 1]) + terms[|terms| - 1].count * terms[|terms| - 1].length
  }

  /** The individual pieces the terms describe, `[length] * count` for each term. */
  function ExpandTerms(terms: seq<Term>): seq<int>
  {
    if terms == [] then [] else ExpandTerms(terms[..|terms| - 1]) + Repeat(terms[|terms| - 1].length, terms[|terms| - 1].count)
  }

  /** The terms of a Counter over piece lengths: `(c, l) for l, c in counter.items()`. */
  function TermsOf(g: seq<(int, nat)>): seq<Term>
  {
    seq(|g|, i requires 0 <= i < |g| => Term(g[i].1, g[i].0))
  }

  lemma {:induction false} UsedLengthTermsOf(g: seq<(int, nat)>)
    ensures UsedLength(TermsOf(g)) == WeightedSum(g, Identity)
  {
    if g != [] {
      UsedLengthTermsOf(g[..|g| - 1]);
      assert TermsOf(g)[..|g| - 1] == TermsOf(g[..|g| - 1]);
    }
  }

  lemma {:induction false} RepeatBag(x: int, n: int)
    ensures multiset(Repeat(x, n)) == Times(Singleton(x), n)
    decreases n
  {
    if n > 0 {
      RepeatBag(x, n - 1);
      assert Repeat(x, n) == [x] + Repeat(x, n - 1);
    }
  }

  lemma {:induction false} ExpandTermsOf(g: seq<(int, nat)>)
    ensures multiset(ExpandTerms(TermsOf(g))) == WeightedBag(g, Singleton)
  {
    if g != [] {
      ExpandTermsOf(g[..|g| - 1]);
      assert TermsOf(g)[..|g| - 1] == TermsOf(g[..|g| - 1]);
      RepeatBag(g[|g| - 1].0, g[|g| - 1].1);
    }
  }

  /**
   * The terms written for the pieces of one raw bar (app.py's
   * `Counter(content)`) describe exactly those pieces and their total length.
   */
  lemma CounterTermsDescribe(pieces: seq<int>)
    ensures multiset(ExpandTerms(TermsOf(Count(pieces)))) == multiset(pieces)
    ensures UsedLength(TermsOf(Count(pieces))) == Sum(pieces)
  {
    ExpandTermsOf(Count(pieces));
    CountWeightedBag(pieces, Singleton);
    BagOfSingleton(pieces);
    UsedLengthTermsOf(Count(pieces));
    CountWeightedSum(pieces, Identity);
    SumOfIdentity(pieces);
  }
}

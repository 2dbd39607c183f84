/**
 * The Python string operations the pattern descriptions rely on:
 * str.split(sep), sep.join(parts), str.replace(old, new), formatting an
 * int with an f-string and reading it back with int().
 */
module Text {
  import opened Wrappers

  /** sep occurs in s starting at index k. */
  predicate MatchAt(s: string, sep: string, k: nat)
  {
    k + |sep| <= |s| && s[k..k + |sep|] == sep
  }

  /** The first occurrence of sep in s at or after from, or -1 when there is none. */
  function FindFrom(s: string, sep: string, from: nat): (i: int)
    requires |sep| > 0
    ensures i == -1 || (from <= i && MatchAt(s, sep, i))
    ensures forall k :: from <= k && (i == -1 || k < i) ==> !MatchAt(s, sep, k)
    decreases |s| - from
  {
    if from + |sep| > |s| then -1
    else if s[from..from + |sep|] == sep then from
    else FindFrom(s, sep, from + 1)
  }

  /** `s.split(sep)`: the pieces between non-overlapping occurrences of sep, left to right. */
  function Split(s: string, sep: string): (parts: seq<string>)
    requires |sep| > 0
    ensures |parts| >= 1
    decreases |s|
  {
    var i := FindFrom(s, sep, 0);
    if i < 0 then [s] else [s[..i]] + Split(s[i + |sep|..], sep)
  }

  /** `sep.join(parts)`: every part, with one separator between each two. */
  function Join(parts: seq<string>, sep: string): string
  {
    if parts == [] then ""
    else if |parts| == 1 then parts[0]
    else parts[0] + sep + Join(parts[1..], sep)
  }

  /** `s.replace(target, replacement)`: every non-overlapping occurrence of target, left to right, replaced by replacement. */
  function Replace(s: string, target: string, replacement: string): (r: string)
    requires |target| > 0
    // without an occurrence of target, nothing changes
    ensures FindFrom(s, target, 0) == -1 ==> r == s
  {
    Join(Split(s, target), replacement)
  }

  /** A join whose first part is not empty is not empty. */
  lemma JoinNotEmpty(parts: seq<string>, sep: string)
    requires parts != [] && parts[0] != ""
    ensures Join(parts, sep) != ""
  {
    if |parts| > 1 {
      assert |Join(parts, sep)| >= |parts[0]|;
    }
  }

  /** No occurrence of sep starts inside p when p is followed by sep. */
  ghost predicate Separable(p: string, sep: string)
  {
    forall k :: 0 <= k < |p| ==> !MatchAt(p + sep, sep, k)
  }

  lemma SeparableWithoutFirst(p: string, sep: string)
    requires |sep| > 0 && sep[0] !in p
    ensures Separable(p, sep)
  {
    forall k | 0 <= k < |p|
      ensures !MatchAt(p + sep, sep, k)
    {
      assert (p + sep)[k..k + |sep|][0] == p[k] != sep[0];
    }
  }

  lemma SeparableWithoutSecond(p: string, sep: string)
    requires |sep| >= 2 && sep[0] != sep[1] && sep[1] !in p
    ensures Separable(p, sep)
  {
    forall k | 0 <= k < |p|
      ensures !MatchAt(p + sep, sep, k)
    {
      assert (p + sep)[k..k + |sep|][1] == (p + sep)[k + 1];
      if k + 1 < |p| {
        assert (p + sep)[k + 1] == p[k + 1] != sep[1];
      } else {
        assert (p + sep)[k + 1] == sep[0] != sep[1];
      }
    }
  }

  lemma FindFirstMatch(s: string, sep: string, i: nat)
    requires |sep| > 0 && MatchAt(s, sep, i)
    requires forall k :: 0 <= k < i ==> !MatchAt(s, sep, k)
    ensures FindFrom(s, sep, 0) == i
  {
  }

  lemma FindNoMatch(p: string, sep: string)
    requires |sep| > 0 && Separable(p, sep)
    ensures FindFrom(p, sep, 0) == -1
  {
    forall k | 0 <= k < |p|
      ensures !MatchAt(p, sep, k)
    {
      assert !MatchAt(p + sep, sep, k);
      if k + |sep| <= |p| {
        assert p[k..k + |sep|] == (p + sep)[k..k + |sep|];
      }
    }
  }

  /** Splitting a joined list gives the list back, when no separator can be found inside a part. */
  lemma {:induction false} SplitJoin(parts: seq<string>, sep: string)
    requires |sep| > 0 && |parts| >= 1
    requires forall i :: 0 <= i < |parts| ==> Separable(parts[i], sep)
    ensures Split(Join(parts, sep), sep) == parts
  {
    var p := parts[0];
    if |parts| == 1 {
      FindNoMatch(p, sep);
    } else {
      var rest := Join(parts[1..], sep);
      var s := p + sep + rest;
      assert Join(parts, sep) == s;
      assert Separable(p, sep);
      forall k | 0 <= k < |p|
        ensures !MatchAt(s, sep, k)
      {
        assert !MatchAt(p + sep, sep, k);
        assert s[k..k + |sep|] == (p + sep)[k..k + |sep|];
      }
      assert s[|p|..|p| + |sep|] == sep;
      FindFirstMatch(s, sep, |p|);
      assert s[..|p|] == p;
      assert s[|p| + |sep|..] == rest;
      SplitJoin(parts[1..], sep);
    }
  }

  function DigitChar(d: nat): (c: char)
    requires d < 10
    ensures '0' <= c <= '9'
  {
    (48 + d) as char
  }

  predicate IsDigit(c: char)
  {
    '0' <= c <= '9'
  }

  predicate AllDigits(s: string)
  {
    forall i :: 0 <= i < |s| ==> IsDigit(s[i])
  }

  /** Decimal digits of n, most significant first, no leading zeros. */
  function NatToString(n: nat): (s: string)
    ensures |s| >= 1 && AllDigits(s)
  {
    if n < 10 then [DigitChar(n)] else NatToString(n / 10) + [DigitChar(n % 10)]
  }

  /** `str(n)` / `f"{n}"` for an int. */
  function IntToString(n: int): (s: string)
    ensures forall i :: 0 <= i < |s| ==> s[i] == '-' || IsDigit(s[i])
  {
    if n < 0 then "-" + NatToString(-n) else NatToString(n)
  }

  /** The value of a string of decimal digits. */
  function DigitsValue(s: string): nat
    requires AllDigits(s)
  {
    if s == [] then 0 else 10 * DigitsValue(s[..|s| - 1]) + (s[|s| - 1] as int - 48)
  }

  /** `int(s)`: an optional sign followed by at least one decimal digit; anything else is an error. */
  function ParseInt(s: string): (r: Option<int>)
    // int() accepts nothing but a sign and decimal digits
    ensures r.Some? ==> |s| >= 1 && forall i :: 0 <= i < |s| ==> s[i] == '-' || s[i] == '+' || IsDigit(s[i])
    ensures r.Some? && r.value < 0 ==> s[0] == '-'
  {
    if |s| >= 1 && (s[0] == '-' || s[0] == '+') then
      if |s| >= 2 && AllDigits(s[1..]) then
        assert forall i :: 1 <= i < |s| ==> s[i] == s[1..][i - 1];
        var v: int := DigitsValue(s[1..]);
        Some(if s[0] == '-' then -v else v)
      else None
    else if |s| >= 1 && AllDigits(s) then Some(DigitsValue(s))
    else None
  }

  lemma {:induction false} NatToStringValue(n: nat)
    ensures DigitsValue(NatToString(n)) == n
  {
    if n >= 10 {
      NatToStringValue(n / 10);
      var s := NatToString(n);
      assert s[..|s| - 1] == NatToString(n / 10);
    }
  }

  /** Formatting an int and reading it back with int() gives the same int. */
  lemma IntToStringRoundTrip(n: int)
    ensures ParseInt(IntToString(n)) == Some(n)
  {
    if n < 0 {
      NatToStringValue(-n);
      assert IntToString(n)[1..] == NatToString(-n);
    } else {
      NatToStringValue(n);
    }
  }
}

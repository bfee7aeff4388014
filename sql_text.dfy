/**
 * Text-level building blocks of SQL statements: decimal rendering of a parameter number
 * (what a template literal does with `${n}`), `Array.prototype.join`, and a reference scanner
 * that lists the positional placeholders `$1`, `$2`, ... occurring in a statement.
 */
module SqlText {

  predicate IsDigit(c: char) { '0' <= c <= '9' }

  predicate AllDigits(s: string) { forall i :: 0 <= i < |s| ==> IsDigit(s[i]) }

  /** A string that is non-empty and does not begin with a digit. */
  predicate StartsNonDigit(s: string) { s != [] && !IsDigit(s[0]) }

  function DigitChar(d: nat): (c: char)
    requires d < 10
    ensures IsDigit(c)
  {
    (d + 48) as char
  }

  /** The value of a decimal digit; the scanners below only ever pass it digits. */
  function DigitValue(c: char): (d: nat)
    ensures d < 10
    ensures IsDigit(c) ==> DigitChar(d) == c
  {
    if IsDigit(c) then c as int - 48 else 0
  }

  /** The decimal text of `n`, as JavaScript renders a non-negative integer. */
  function NatToDecimal(n: nat): (s: string)
    ensures |s| > 0 && AllDigits(s)
  {
    if n < 10 then [DigitChar(n)] else NatToDecimal(n / 10) + [DigitChar(n % 10)]
  }

  /** The number a run of decimal digits denotes. */
  function ParseDecimal(s: string): nat
  {
    if s == [] then 0 else 10 * ParseDecimal(s[..|s| - 1]) + DigitValue(s[|s| - 1])
  }

  lemma {:induction false} DecimalRoundTrip(n: nat)
    ensures ParseDecimal(NatToDecimal(n)) == n
  {
    if n >= 10 {
      var s := NatToDecimal(n);
      assert s[..|s| - 1] == NatToDecimal(n / 10);
      DecimalRoundTrip(n / 10);
    }
  }

  /** `parts.join(sep)`. */
  function Join(parts: seq<string>, sep: string): string
  {
    if |parts| == 0 then ""
    else if |parts| == 1 then parts[0]
    else parts[0] + sep + Join(parts[1..], sep)
  }

  lemma JoinStart(parts: seq<string>, sep: string)
    requires |parts| > 0 && StartsNonDigit(parts[0])
    ensures StartsNonDigit(Join(parts, sep)) && Join(parts, sep)[0] == parts[0][0]
  {
  }

  /** Splits `s` into its leading run of decimal digits and what follows it. */
  function TakeDigits(s: string): (r: (string, string))
    ensures |r.1| <= |s|
  {
    if s != [] && IsDigit(s[0]) then
      var (digits, rest) := TakeDigits(s[1..]);
      ([s[0]] + digits, rest)
    else ([], s)
  }

  /** A digit run followed by text that does not start with a digit splits at the seam. */
  lemma {:induction false} TakeDigitsOfDigits(s: string, b: string)
    requires AllDigits(s)
    requires b == [] || !IsDigit(b[0])
    ensures TakeDigits(s + b) == (s, b)
  {
    if s == [] {
      assert s + b == b;
    } else {
      assert (s + b)[0] == s[0];
      assert (s + b)[1..] == s[1..] + b;
      TakeDigitsOfDigits(s[1..], b);
      assert [s[0]] + s[1..] == s;
    }
  }

  /** Appending text that does not start with a digit leaves the leading digit run alone. */
  lemma {:induction false} TakeDigitsAppend(x: string, b: string)
    requires b == [] || !IsDigit(b[0])
    ensures TakeDigits(x + b) == (TakeDigits(x).0, TakeDigits(x).1 + b)
  {
    if x == [] {
      assert x + b == b;
    } else {
      assert (x + b)[0] == x[0];
      assert (x + b)[1..] == x[1..] + b;
      TakeDigitsAppend(x[1..], b);
    }
  }

  /**
   * Reference reading of a statement: the numbers of the positional placeholders it contains,
   * left to right, where a placeholder is a `$` followed by a maximal run of digits.
   */
  function Placeholders(s: string): seq<nat>
    decreases |s|
  {
    if s == [] then []
    else
      var (digits, rest) := TakeDigits(s[1..]);
      if s[0] == '$' && digits != [] then [ParseDecimal(digits)] + Placeholders(rest)
      else Placeholders(s[1..])
  }

  /** The contiguous numbering `first, first + 1, ..., first + n - 1`. */
  function Consecutive(first: nat, n: nat): (r: seq<nat>)
    ensures |r| == n && forall i :: 0 <= i < n ==> r[i] == first + i
  {
    seq(n, i => first + i)
  }

  /** The numbering `$1..$n` of a statement with n bound values. */
  function Numbering(n: nat): (r: seq<nat>)
    ensures |r| == n && forall i :: 0 <= i < n ==> r[i] == i + 1
  {
    Consecutive(1, n)
  }

  lemma NumberingNext(n: nat)
    ensures Numbering(n) + [n + 1] == Numbering(n + 1)
  {
    var a, b := Numbering(n) + [n + 1], Numbering(n + 1);
    assert |a| == |b|;
    forall i | 0 <= i < |a| ensures a[i] == b[i] {
      if i < n {
        assert a[i] == Numbering(n)[i];
      }
    }
  }

  lemma {:induction false} PlaceholdersNone(s: string)
    requires '$' !in s
    ensures Placeholders(s) == []
  {
    if s != [] {
      PlaceholdersNone(s[1..]);
    }
  }

  /** Scanning a concatenation scans each half, provided no digit run straddles the seam. */
  lemma {:induction false} PlaceholdersAppend(a: string, b: string)
    requires b == [] || !IsDigit(b[0])
    ensures Placeholders(a + b) == Placeholders(a) + Placeholders(b)
    decreases |a|
  {
    if a == [] {
      assert a + b == b;
    } else {
      assert (a + b)[0] == a[0];
      assert (a + b)[1..] == a[1..] + b;
      TakeDigitsAppend(a[1..], b);
      var t := TakeDigits(a[1..]);
      if a[0] == '$' && t.0 != [] {
        PlaceholdersAppend(t.1, b);
        var x := [ParseDecimal(t.0)];
        assert x + (Placeholders(t.1) + Placeholders(b)) == (x + Placeholders(t.1)) + Placeholders(b);
      } else {
        PlaceholdersAppend(a[1..], b);
      }
    }
  }

  /** The positional parameter `$n`. */
  function Placeholder(n: nat): string
  {
    "$" + NatToDecimal(n)
  }

  /** `$n` reads back as the single placeholder n. */
  lemma PlaceholderOf(n: nat)
    ensures Placeholders(Placeholder(n)) == [n] && Placeholder(n)[0] == '$'
  {
    var d := NatToDecimal(n);
    var s := "$" + d;
    assert s[1..] == d;
    TakeDigitsOfDigits(d, []);
    assert d + [] == d;
    DecimalRoundTrip(n);
    assert Placeholders(s) == [n] + Placeholders([]);
  }

  /** Text without a `$` in front of text that does not start with a digit adds no placeholder. */
  lemma PlaceholdersAfter(prefix: string, s: string)
    requires '$' !in prefix
    requires s == [] || !IsDigit(s[0])
    ensures Placeholders(prefix + s) == Placeholders(s)
  {
    PlaceholdersAppend(prefix, s);
    PlaceholdersNone(prefix);
  }

  /** Text without a `$` behind text adds no placeholder, unless it extends a digit run. */
  lemma PlaceholdersBefore(s: string, suffix: string)
    requires '$' !in suffix
    requires suffix == [] || !IsDigit(suffix[0])
    ensures Placeholders(s + suffix) == Placeholders(s)
  {
    PlaceholdersAppend(s, suffix);
    PlaceholdersNone(suffix);
  }

  /** The placeholders of each part, concatenated in order. */
  function PlaceholdersEach(parts: seq<string>): seq<nat>
  {
    if parts == [] then [] else Placeholders(parts[0]) + PlaceholdersEach(parts[1..])
  }

  lemma {:induction false} PlaceholdersJoin(parts: seq<string>, sep: string)
    requires StartsNonDigit(sep) && '$' !in sep
    requires forall i :: 0 <= i < |parts| ==> StartsNonDigit(parts[i])
    ensures Placeholders(Join(parts, sep)) == PlaceholdersEach(parts)
  {
    if |parts| == 1 {
      assert PlaceholdersEach(parts[1..]) == [];
    } else if |parts| > 1 {
      var rest := Join(parts[1..], sep);
      PlaceholdersJoin(parts[1..], sep);
      JoinStart(parts[1..], sep);
      assert Join(parts, sep) == parts[0] + (sep + rest);
      PlaceholdersAppend(parts[0], sep + rest);
      PlaceholdersAppend(sep, rest);
      PlaceholdersNone(sep);
    }
  }

  lemma {:induction false} PlaceholdersEachAppend(xs: seq<string>, ys: seq<string>)
    ensures PlaceholdersEach(xs + ys) == PlaceholdersEach(xs) + PlaceholdersEach(ys)
  {
    if xs == [] {
      assert xs + ys == ys;
    } else {
      assert (xs + ys)[1..] == xs[1..] + ys;
      PlaceholdersEachAppend(xs[1..], ys);
    }
  }

  lemma {:induction false} PlaceholdersEachConsecutive(parts: seq<string>, first: nat)
    requires forall i :: 0 <= i < |parts| ==> Placeholders(parts[i]) == [first + i]
    ensures PlaceholdersEach(parts) == Consecutive(first, |parts|)
  {
    if parts != [] {
      PlaceholdersEachConsecutive(parts[1..], first + 1);
      assert [first] + Consecutive(first + 1, |parts| - 1) == Consecutive(first, |parts|);
    }
  }
}

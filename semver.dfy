/**
 * A stand-in for the semantic-version library the lookup relies on:
 * versions of the form MAJOR.MINOR.PATCH (with an optional leading 'v'),
 * parsed to an Option, and the strict "greater than" order between them.
 * Pre-release and build metadata are not modelled.
 */
module Semver {
  import opened Wrappers

  datatype Version = Version(major: nat, minor: nat, patch: nat)

  /** Strict precedence: major first, then minor, then patch. */
  predicate GreaterThan(a: Version, b: Version) {
    || a.major > b.major
    || (a.major == b.major && a.minor > b.minor)
    || (a.major == b.major && a.minor == b.minor && a.patch > b.patch)
  }

  /** GreaterThan is a strict total order on versions. */
  lemma GreaterThanIsStrictTotalOrder(a: Version, b: Version, c: Version)
    ensures !GreaterThan(a, a)
    ensures GreaterThan(a, b) ==> !GreaterThan(b, a)
    ensures GreaterThan(a, b) && GreaterThan(b, c) ==> GreaterThan(a, c)
    ensures a == b || GreaterThan(a, b) || GreaterThan(b, a)
  {
  }

  predicate IsDigit(c: char) {
    '0' <= c <= '9'
  }

  predicate AllDigits(s: string) {
    forall i :: 0 <= i < |s| ==> IsDigit(s[i])
  }

  /** The decimal value of a string of digits. */
  function DigitsValue(s: string): nat
    requires AllDigits(s)
  {
    if s == [] then 0
    else DigitsValue(s[..|s| - 1]) * 10 + (s[|s| - 1] as int - '0' as int)
  }

  /** The decimal digits of n, without leading zeros. */
  function DigitString(n: nat): (s: string)
    ensures s != [] && AllDigits(s)
  {
    if n < 10 then ['0' + n as char]
    else DigitString(n / 10) + ['0' + (n % 10) as char]
  }

  lemma {:induction false} DigitStringRoundTrip(n: nat)
    ensures DigitsValue(DigitString(n)) == n
  {
    if n >= 10 {
      var s := DigitString(n);
      assert s[..|s| - 1] == DigitString(n / 10);
      DigitStringRoundTrip(n / 10);
    }
  }

  /** Splits s at every occurrence of sep; there is always at least one part. */
  function Split(s: string, sep: char): (parts: seq<string>)
    ensures |parts| >= 1
  {
    if s == [] then [""]
    else
      var rest := Split(s[1..], sep);
      if s[0] == sep then [""] + rest
      else [[s[0]] + rest[0]] + rest[1..]
  }

  lemma {:induction false} SplitWithoutSeparator(a: string, sep: char)
    requires sep !in a
    ensures Split(a, sep) == [a]
  {
    if a != [] {
      SplitWithoutSeparator(a[1..], sep);
      assert [a[0]] + a[1..] == a;
    }
  }

  lemma {:induction false} SplitAtFirstSeparator(a: string, sep: char, b: string)
    requires sep !in a
    ensures Split(a + [sep] + b, sep) == [a] + Split(b, sep)
  {
    if a == [] {
      assert a + [sep] + b == [sep] + b;
      assert ([sep] + b)[1..] == b;
    } else {
      var s := a + [sep] + b;
      assert s[1..] == a[1..] + [sep] + b;
      SplitAtFirstSeparator(a[1..], sep, b);
      assert [a[0]] + a[1..] == a;
    }
  }

  /** The largest value a version component may take: components are unsigned 64-bit integers. */
  const MaxComponent: nat := 0xFFFF_FFFF_FFFF_FFFF

  /** A non-empty run of digits whose value fits an unsigned 64-bit integer, as a number. */
  function ParseNumber(s: string): Option<nat> {
    if s != [] && AllDigits(s) && DigitsValue(s) <= MaxComponent then Some(DigitsValue(s)) else None
  }

  /** Parses "MAJOR.MINOR.PATCH", optionally prefixed by 'v'. */
  function Parse(s: string): Option<Version> {
    var body := if |s| > 0 && s[0] == 'v' then s[1..] else s;
    var parts := Split(body, '.');
    if |parts| != 3 then None
    else
      match (ParseNumber(parts[0]), ParseNumber(parts[1]), ParseNumber(parts[2]))
      case (Some(major), Some(minor), Some(patch)) => Some(Version(major, minor, patch))
      case _ => None
  }

  /** The canonical text of a version. */
  function Format(v: Version): string {
    DigitString(v.major) + "." + DigitString(v.minor) + "." + DigitString(v.patch)
  }

  /**
   * Every version whose components fit 64 bits survives formatting and
   * parsing unchanged; a version with a larger component does not parse.
   */
  lemma ParseFormat(v: Version)
    ensures Parse(Format(v)) ==
      if v.major <= MaxComponent && v.minor <= MaxComponent && v.patch <= MaxComponent then Some(v) else None
  {
    var a, b, c := DigitString(v.major), DigitString(v.minor), DigitString(v.patch);
    assert '.' !in a && '.' !in b && '.' !in c by {
      assert forall s: string :: AllDigits(s) ==> '.' !in s;
    }
    assert Format(v) == a + ['.'] + (b + ['.'] + c);
    SplitAtFirstSeparator(a, '.', b + ['.'] + c);
    SplitAtFirstSeparator(b, '.', c);
    SplitWithoutSeparator(c, '.');
    assert Split(Format(v), '.') == [a, b, c];
    DigitStringRoundTrip(v.major);
    DigitStringRoundTrip(v.minor);
    DigitStringRoundTrip(v.patch);
  }
}

/**
  Plugin versions: "v"-prefixed MAJOR.MINOR.PATCH triples, their precedence as in
  section 11 of Semantic Versioning 2.0.0 (numeric comparison of major, then minor,
  then patch), their textual form, and the ascending, duplicate-free version list
  that an inventory entry reports.
*/
module Semver {
  import opened Wrappers

  datatype Version = Version(major: nat, minor: nat, patch: nat)

  /** Precedence: `a` has lower precedence than `b`. */
  predicate Less(a: Version, b: Version): (lt: bool)
    ensures lt ==> a != b && a.major <= b.major
    ensures a.major < b.major ==> lt
  {
    || a.major < b.major
    || (a.major == b.major && a.minor < b.minor)
    || (a.major == b.major && a.minor == b.minor && a.patch < b.patch)
  }

  /** Precedence is a strict total order on versions. */
  lemma LessIsStrictTotalOrder(a: Version, b: Version, c: Version)
    ensures !Less(a, a)
    ensures Less(a, b) && Less(b, c) ==> Less(a, c)
    ensures a != b ==> Less(a, b) || Less(b, a)
    ensures Less(a, b) ==> !Less(b, a)
  {
  }

  // ---------------------------------------------------------------------------
  // Decimal numerals

  predicate IsDigit(c: char) {
    '0' <= c <= '9'
  }

  predicate AllDigits(s: string) {
    forall i | 0 <= i < |s| :: IsDigit(s[i])
  }

  /** A numeric identifier as section 2 of Semantic Versioning 2.0.0 allows it:
      non-empty, decimal, no leading zero. */
  predicate CanonicalNumeral(s: string) {
    |s| > 0 && AllDigits(s) && (s[0] == '0' ==> |s| == 1)
  }

  function DigitChar(d: nat): (c: char)
    requires d < 10
    ensures IsDigit(c)
  {
    ('0' as int + d) as char
  }

  function DigitValue(c: char): (d: nat)
    requires IsDigit(c)
    ensures d < 10 && DigitChar(d) == c
  {
    c as int - '0' as int
  }

  function NatToString(n: nat): (s: string)
    ensures CanonicalNumeral(s)
    decreases n
  {
    if n < 10 then [DigitChar(n)] else NatToString(n / 10) + [DigitChar(n % 10)]
  }

  function NumeralValue(s: string): nat
    requires AllDigits(s)
    decreases |s|
  {
    if |s| == 0 then 0 else NumeralValue(s[..|s| - 1]) * 10 + DigitValue(s[|s| - 1])
  }

  lemma {:induction false} NumeralOfNatToString(n: nat)
    ensures NumeralValue(NatToString(n)) == n
    decreases n
  {
    var s := NatToString(n);
    if n >= 10 {
      NumeralOfNatToString(n / 10);
      assert s[..|s| - 1] == NatToString(n / 10);
    }
  }

  lemma {:induction false} NumeralValueAtLeastLeadingDigit(s: string)
    requires AllDigits(s) && |s| > 0
    ensures NumeralValue(s) >= DigitValue(s[0])
    decreases |s|
  {
    if |s| > 1 {
      NumeralValueAtLeastLeadingDigit(s[..|s| - 1]);
    }
  }

  lemma {:induction false} NatToStringOfNumeral(s: string)
    requires CanonicalNumeral(s)
    ensures NatToString(NumeralValue(s)) == s
    decreases |s|
  {
    if |s| > 1 {
      var p, d := s[..|s| - 1], DigitValue(s[|s| - 1]);
      assert CanonicalNumeral(p);
      NatToStringOfNumeral(p);
      NumeralValueAtLeastLeadingDigit(p);
      var n := NumeralValue(s);
      assert n == NumeralValue(p) * 10 + d;
      assert n / 10 == NumeralValue(p) && n % 10 == d;
      assert s == p + [s[|s| - 1]];
    }
  }

  // ---------------------------------------------------------------------------
  // Splitting on a separator

  function Split(s: string, sep: char): (parts: seq<string>)
    ensures |parts| >= 1
    decreases |s|
  {
    if |s| == 0 then [""]
    else
      var rest := Split(s[1..], sep);
      if s[0] == sep then [""] + rest else [[s[0]] + rest[0]] + rest[1..]
  }

  function Join(parts: seq<string>, sep: char): string
    requires |parts| >= 1
    decreases |parts|
  {
    if |parts| == 1 then parts[0] else parts[0] + [sep] + Join(parts[1..], sep)
  }

  lemma JoinConsFirst(c: char, parts: seq<string>, sep: char)
    requires |parts| >= 1
    ensures Join([[c] + parts[0]] + parts[1..], sep) == [c] + Join(parts, sep)
  {
    var q := [[c] + parts[0]] + parts[1..];
    if |parts| > 1 {
      assert q[1..] == parts[1..];
    }
  }

  /** Splitting then joining gives back the text. */
  lemma {:induction false} JoinSplit(s: string, sep: char)
    ensures Join(Split(s, sep), sep) == s
    decreases |s|
  {
    if |s| > 0 {
      var rest := Split(s[1..], sep);
      JoinSplit(s[1..], sep);
      if s[0] == sep {
        assert ([""] + rest)[1..] == rest;
      } else {
        JoinConsFirst(s[0], rest, sep);
      }
      assert s == [s[0]] + s[1..];
    }
  }

  /** A separator-free piece followed by the separator splits off as the first part. */
  lemma {:induction false} SplitAfterPiece(a: string, b: string, sep: char)
    requires sep !in a
    ensures Split(a + [sep] + b, sep) == [a] + Split(b, sep)
    decreases |a|
  {
    if |a| == 0 {
      assert ([] + [sep] + b)[1..] == b;
    } else {
      SplitAfterPiece(a[1..], b, sep);
      assert (a + [sep] + b)[1..] == a[1..] + [sep] + b;
      assert [a[0]] + a[1..] == a;
    }
  }

  lemma {:induction false} SplitPiece(a: string, sep: char)
    requires sep !in a
    ensures Split(a, sep) == [a]
    decreases |a|
  {
    if |a| > 0 {
      SplitPiece(a[1..], sep);
      assert [a[0]] + a[1..] == a;
    }
  }

  // ---------------------------------------------------------------------------
  // Textual form

  /** The textual form stored in the inventory, e.g. "v0.28.0". */
  function Format(v: Version): (s: string)
    ensures |s| >= 6 && s[0] == 'v'
    ensures Split(s[1..], '.') == [NatToString(v.major), NatToString(v.minor), NatToString(v.patch)]
  {
    var a, b, c := NatToString(v.major), NatToString(v.minor), NatToString(v.patch);
    NumeralHasNoDot(a);
    NumeralHasNoDot(b);
    NumeralHasNoDot(c);
    SplitAfterPiece(a, b + ['.'] + c, '.');
    SplitAfterPiece(b, c, '.');
    SplitPiece(c, '.');
    var rest := a + ['.'] + (b + ['.'] + c);
    assert ("v" + rest)[1..] == rest;
    "v" + rest
  }

  /** Reads "vMAJOR.MINOR.PATCH"; anything else (a missing "v", a missing or extra
      component, a non-digit, a leading zero) is not a version. */
  function Parse(s: string): (r: Option<Version>)
    ensures r.Some? ==> |s| >= 6 && s[0] == 'v'
  {
    if |s| == 0 || s[0] != 'v' then None
    else
      var parts := Split(s[1..], '.');
      if |parts| == 3 && CanonicalNumeral(parts[0]) && CanonicalNumeral(parts[1]) && CanonicalNumeral(parts[2])
      then
        JoinSplit(s[1..], '.');
        JoinThree(parts, '.');
        Some(Version(NumeralValue(parts[0]), NumeralValue(parts[1]), NumeralValue(parts[2])))
      else None
  }

  lemma NumeralHasNoDot(s: string)
    requires AllDigits(s)
    ensures '.' !in s
  {
    forall i | 0 <= i < |s|
      ensures s[i] != '.'
    {
      assert IsDigit(s[i]);
    }
  }

  /** Every version reads back from its textual form. */
  lemma ParseFormat(v: Version)
    ensures Parse(Format(v)) == Some(v)
  {
    NumeralOfNatToString(v.major);
    NumeralOfNatToString(v.minor);
    NumeralOfNatToString(v.patch);
  }

  lemma JoinThree(parts: seq<string>, sep: char)
    requires |parts| == 3
    ensures Join(parts, sep) == parts[0] + [sep] + parts[1] + [sep] + parts[2]
  {
    assert parts[1..][1..] == [parts[2]];
    assert Join(parts[1..], sep) == parts[1] + [sep] + parts[2];
  }

  /** Every text that reads as a version is that version's textual form. */
  lemma FormatParse(s: string, v: Version)
    requires Parse(s) == Some(v)
    ensures Format(v) == s
  {
    var t := s[1..];
    var parts := Split(t, '.');
    assert |parts| == 3 && CanonicalNumeral(parts[0]) && CanonicalNumeral(parts[1]) && CanonicalNumeral(parts[2]);
    assert v == Version(NumeralValue(parts[0]), NumeralValue(parts[1]), NumeralValue(parts[2]));
    NatToStringOfNumeral(parts[0]);
    NatToStringOfNumeral(parts[1]);
    NatToStringOfNumeral(parts[2]);
    JoinSplit(t, '.');
    JoinThree(parts, '.');
    assert t == NatToString(v.major) + "." + NatToString(v.minor) + "." + NatToString(v.patch);
    assert s == "v" + t;
  }

  /** Comparing a text with a version's textual form is the same as reading the text. */
  lemma FormatMatchesParse(s: string, v: Version)
    ensures Format(v) == s <==> Parse(s) == Some(v)
  {
    ParseFormat(v);
    if Parse(s) == Some(v) {
      FormatParse(s, v);
    }
  }

  lemma FormatInjective(a: Version, b: Version)
    requires Format(a) == Format(b)
    ensures a == b
  {
    ParseFormat(a);
    ParseFormat(b);
  }

  // ---------------------------------------------------------------------------
  // Ascending version lists

  predicate StrictlySorted(s: seq<Version>) {
    forall i, j | 0 <= i < j < |s| :: Less(s[i], s[j])
  }

  /** Places `x` into an ascending list, keeping it duplicate-free. */
  function Insert(x: Version, s: seq<Version>): (r: seq<Version>)
    requires StrictlySorted(s)
    ensures StrictlySorted(r)
    ensures forall y :: y in r <==> y == x || y in s
    decreases |s|
  {
    if s == [] then [x]
    else if x == s[0] then s
    else if Less(x, s[0]) then [x] + s
    else
      assert Less(s[0], x);
      var t := Insert(x, s[1..]);
      assert forall y | y in t :: Less(s[0], y);
      [s[0]] + t
  }

  /** The distinct versions of `s`, in ascending precedence order. */
  function SortVersions(s: seq<Version>): (r: seq<Version>)
    ensures StrictlySorted(r)
    ensures forall y :: y in r <==> y in s
    decreases |s|
  {
    if s == [] then [] else Insert(s[0], SortVersions(s[1..]))
  }

  lemma SortedHeadIsLeast(s: seq<Version>, y: Version)
    requires StrictlySorted(s) && y in s
    ensures y == s[0] || Less(s[0], y)
  {
  }

  /** Two ascending lists with the same elements are the same list. */
  lemma {:induction false} StrictlySortedUnique(a: seq<Version>, b: seq<Version>)
    requires StrictlySorted(a) && StrictlySorted(b)
    requires forall y :: y in a <==> y in b
    ensures a == b
    decreases |a|
  {
    assert a != [] ==> a[0] in b;
    assert b != [] ==> b[0] in a;
    if a != [] && b != [] {
      SortedHeadIsLeast(b, a[0]);
      SortedHeadIsLeast(a, b[0]);
      assert a[0] == b[0];
      forall y
        ensures y in a[1..] <==> y in b[1..]
      {
        if y in a[1..] {
          var i :| 1 <= i < |a| && a[i] == y;
          assert Less(a[0], y);
          assert y in a && y in b;
          var m :| 0 <= m < |b| && b[m] == y;
          assert m != 0;
          assert b[1..][m - 1] == y;
        }
        if y in b[1..] {
          var i :| 1 <= i < |b| && b[i] == y;
          assert Less(b[0], y);
          assert y in b && y in a;
          var m :| 0 <= m < |a| && a[m] == y;
          assert m != 0;
          assert a[1..][m - 1] == y;
        }
      }
      StrictlySortedUnique(a[1..], b[1..]);
      assert a == [a[0]] + a[1..] && b == [b[0]] + b[1..];
    }
  }

  /** The sorted list depends only on which versions occur, not on their order or repetitions. */
  lemma SortVersionsOrderIndependent(s: seq<Version>, t: seq<Version>)
    requires forall y :: y in s <==> y in t
    ensures SortVersions(s) == SortVersions(t)
  {
    StrictlySortedUnique(SortVersions(s), SortVersions(t));
  }

  /** The last element of a non-empty ascending list is its greatest element. */
  lemma SortedLastIsGreatest(s: seq<Version>)
    requires StrictlySorted(s) && |s| > 0
    ensures forall y | y in s :: y == s[|s| - 1] || Less(y, s[|s| - 1])
  {
  }
}

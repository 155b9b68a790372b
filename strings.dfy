/**
 * Text utilities the modelled code takes from Rust's standard library:
 * the ordering of `str` (byte-wise, which on valid UTF-8 is code-point
 * order, i.e. the order of Dafny's `char`), `sort_unstable`, `Vec::dedup`,
 * `join`, the `{:010}` format and `str::parse::<usize>`.
 */
module Strings {
  import opened Wrappers

  // ---------------------------------------------------------------------
  // Lexicographic order of strings
  // ---------------------------------------------------------------------

  /** `a < b` on Rust strings. */
  predicate Below(a: string, b: string)
  {
    if |a| == 0 then |b| > 0
    else if |b| == 0 then false
    else if a[0] != b[0] then a[0] < b[0]
    else Below(a[1..], b[1..])
  }

  /** `a <= b` on Rust strings. */
  predicate AtMost(a: string, b: string)
  {
    a == b || Below(a, b)
  }

  lemma {:induction false} BelowIrreflexive(a: string)
    ensures !Below(a, a)
  {
    if |a| > 0 {
      BelowIrreflexive(a[1..]);
    }
  }

  lemma {:induction false} BelowTransitive(a: string, b: string, c: string)
    requires Below(a, b) && Below(b, c)
    ensures Below(a, c)
  {
    if |a| > 0 && |b| > 0 && |c| > 0 && a[0] == b[0] && b[0] == c[0] {
      BelowTransitive(a[1..], b[1..], c[1..]);
    }
  }

  lemma {:induction false} BelowTotal(a: string, b: string)
    ensures a == b || Below(a, b) || Below(b, a)
  {
    if |a| > 0 && |b| > 0 && a[0] == b[0] {
      BelowTotal(a[1..], b[1..]);
      if a[1..] == b[1..] {
        assert a == [a[0]] + a[1..] && b == [b[0]] + b[1..];
      }
    }
  }

  lemma BelowAsymmetric(a: string, b: string)
    requires Below(a, b)
    ensures !Below(b, a) && a != b
  {
    BelowIrreflexive(a);
    if Below(b, a) {
      BelowTransitive(a, b, a);
    }
  }

  lemma AtMostTransitive(a: string, b: string, c: string)
    requires AtMost(a, b) && AtMost(b, c)
    ensures AtMost(a, c)
  {
    if a != b && b != c {
      BelowTransitive(a, b, c);
    }
  }

  /** Two strings of equal length keep their order whatever is appended. */
  lemma {:induction false} BelowExtend(x: string, y: string, u: string, v: string)
    requires |x| == |y| && Below(x, y)
    ensures Below(x + u, y + v)
  {
    if x[0] == y[0] {
      assert (x + u)[1..] == x[1..] + u && (y + v)[1..] == y[1..] + v;
      BelowExtend(x[1..], y[1..], u, v);
    }
  }

  /** A common prefix followed by a smaller character. */
  lemma {:induction false} BelowAtEnd(x: string, c: char, d: char)
    requires c < d
    ensures Below(x + [c], x + [d])
  {
    if |x| > 0 {
      assert (x + [c])[1..] == x[1..] + [c] && (x + [d])[1..] == x[1..] + [d];
      BelowAtEnd(x[1..], c, d);
    }
  }

  // ---------------------------------------------------------------------
  // Sorting (Rust's `sort_unstable` on strings)
  // ---------------------------------------------------------------------

  ghost predicate Sorted(s: seq<string>)
  {
    forall i, j :: 0 <= i < j < |s| ==> AtMost(s[i], s[j])
  }

  ghost predicate StrictlySorted(s: seq<string>)
  {
    forall i, j :: 0 <= i < j < |s| ==> Below(s[i], s[j])
  }

  /** Inserts `x` into a sorted sequence. */
  function Insert(x: string, s: seq<string>): (r: seq<string>)
    requires Sorted(s)
    ensures multiset(r) == multiset(s) + multiset{x}
    ensures Sorted(r)
    decreases |s|
  {
    if s == [] then [x]
    else if AtMost(x, s[0]) then
      InsertHeadSorted(x, s);
      [x] + s
    else
      var rest := Insert(x, s[1..]);
      assert s == [s[0]] + s[1..];
      InsertTailSorted(x, s, rest);
      [s[0]] + rest
  }

  lemma InsertHeadSorted(x: string, s: seq<string>)
    requires Sorted(s) && s != [] && AtMost(x, s[0])
    ensures Sorted([x] + s)
  {
    forall i, j | 0 <= i < j < |[x] + s|
      ensures AtMost(([x] + s)[i], ([x] + s)[j])
    {
      if i == 0 && j > 1 {
        AtMostTransitive(x, s[0], s[j - 1]);
      }
    }
  }

  lemma InsertTailSorted(x: string, s: seq<string>, rest: seq<string>)
    requires Sorted(s) && s != [] && !AtMost(x, s[0])
    requires Sorted(rest) && multiset(rest) == multiset(s[1..]) + multiset{x}
    ensures Sorted([s[0]] + rest)
  {
    BelowTotal(x, s[0]);
    forall k | 0 <= k < |rest|
      ensures AtMost(s[0], rest[k])
    {
      assert rest[k] in multiset(rest);
      if rest[k] != x {
        assert rest[k] in multiset(s[1..]);
        var m :| 0 <= m < |s[1..]| && s[1..][m] == rest[k];
        assert s[m + 1] == rest[k];
      }
    }
  }

  /**
   * The sorted order of `s`. Rust's `sort_unstable` is a library call; any
   * sorting routine gives this same result (see SortedIsUnique).
   */
  function Sort(s: seq<string>): (r: seq<string>)
    ensures Sorted(r) && multiset(r) == multiset(s)
  {
    if s == [] then []
    else
      assert s == [s[0]] + s[1..];
      Insert(s[0], Sort(s[1..]))
  }

  lemma SortedHeadIsLeast(s: seq<string>, x: string)
    requires Sorted(s) && x in multiset(s)
    ensures AtMost(s[0], x)
  {
    var k :| 0 <= k < |s| && s[k] == x;
  }

  lemma SortedSameHead(a: seq<string>, b: seq<string>)
    requires Sorted(a) && Sorted(b) && multiset(a) == multiset(b) && a != []
    ensures b != [] && a[0] == b[0]
  {
    assert |b| == |a| by { assert |multiset(b)| == |multiset(a)|; }
    assert a[0] in multiset(b) && b[0] in multiset(a);
    SortedHeadIsLeast(a, b[0]);
    SortedHeadIsLeast(b, a[0]);
    if a[0] != b[0] {
      BelowAsymmetric(a[0], b[0]);
    }
  }

  lemma TailMultiset(a: seq<string>)
    requires a != []
    ensures multiset(a[1..]) == multiset(a) - multiset{a[0]}
  {
    assert a == [a[0]] + a[1..];
  }

  /** A sorted permutation is unique: whatever sort the library uses, its result equals `Sort`. */
  lemma {:induction false} SortedIsUnique(a: seq<string>, b: seq<string>)
    requires Sorted(a) && Sorted(b) && multiset(a) == multiset(b)
    ensures a == b
  {
    if a != [] {
      SortedSameHead(a, b);
      TailMultiset(a);
      TailMultiset(b);
      SortedIsUnique(a[1..], b[1..]);
      assert a == [a[0]] + a[1..] && b == [b[0]] + b[1..];
    } else {
      assert |b| == 0 by { assert |multiset(b)| == |multiset(a)|; }
    }
  }

  // ---------------------------------------------------------------------
  // Removing consecutive duplicates (Rust's `Vec::dedup`)
  // ---------------------------------------------------------------------

  /** What `Vec::dedup` leaves: every run of equal neighbours collapsed to one element. */
  function Dedup(s: seq<string>): seq<string>
  {
    if s == [] then []
    else
      var d := Dedup(s[..|s| - 1]);
      if d != [] && d[|d| - 1] == s[|s| - 1] then d else d + [s[|s| - 1]]
  }

  /** `Dedup` keeps exactly the elements of `s`, and of a sorted `s` leaves a strictly sorted one. */
  lemma {:induction false} DedupKeepsElements(s: seq<string>)
    ensures forall x :: x in Dedup(s) <==> x in s
    ensures Sorted(s) ==> StrictlySorted(Dedup(s))
    ensures Dedup(s) != [] ==> s != [] && Dedup(s)[|Dedup(s)| - 1] == s[|s| - 1]
  {
    if s != [] {
      var init := s[..|s| - 1];
      var last := s[|s| - 1];
      DedupKeepsElements(init);
      assert s == init + [last];
      if Sorted(s) {
        assert Sorted(init);
        var d := Dedup(init);
        assert StrictlySorted(d);
        if d != [] && d[|d| - 1] == last {
          assert Dedup(s) == d;
        } else {
          assert Dedup(s) == d + [last];
          forall i | 0 <= i < |d|
            ensures Below(d[i], last)
          {
            assert d[i] in init;
            var m :| 0 <= m < |init| && init[m] == d[i];
            assert AtMost(s[m], s[|s| - 1]);
            if i < |d| - 1 {
              BelowAsymmetric(d[i], d[|d| - 1]);
            }
          }
        }
      }
    }
  }

  /** Rust's in-place `Vec::dedup`, written as the loop it performs. */
  method DedupInPlace(s: seq<string>) returns (out: seq<string>)
    ensures out == Dedup(s)
  {
    out := [];
    var i := 0;
    while i < |s|
      invariant 0 <= i <= |s|
      invariant out == Dedup(s[..i])
    {
      assert s[..i + 1][..i] == s[..i];
      if out == [] || out[|out| - 1] != s[i] {
        out := out + [s[i]];
      }
      i := i + 1;
    }
    assert s[..|s|] == s;
  }

  /** Pairwise-distinct sequences have as many elements as their set. */
  lemma {:induction false} StrictlySortedCardinality(s: seq<string>)
    requires StrictlySorted(s)
    ensures |s| == |set x | x in s|
  {
    if s != [] {
      var tail := s[1..];
      assert StrictlySorted(tail);
      StrictlySortedCardinality(tail);
      forall k | 0 <= k < |tail| ensures tail[k] != s[0] {
        BelowAsymmetric(s[0], s[k + 1]);
      }
      assert (set x | x in s) == {s[0]} + (set x | x in tail);
    }
  }

  // ---------------------------------------------------------------------
  // join, decimal formatting and parsing
  // ---------------------------------------------------------------------

  /** `parts.join(sep)`. */
  function Join(parts: seq<string>, sep: string): string
  {
    if parts == [] then ""
    else if |parts| == 1 then parts[0]
    else parts[0] + sep + Join(parts[1..], sep)
  }

  lemma JoinTwo(a: string, b: string, sep: string)
    ensures Join([a, b], sep) == a + sep + b
  {
    assert [a, b][1..] == [b];
  }

  function DigitChar(d: nat): char
    requires d < 10
  {
    ['0','1','2','3','4','5','6','7','8','9'][d]
  }

  predicate IsDigit(c: char) { '0' <= c <= '9' }

  function DigitValue(c: char): nat
    requires IsDigit(c)
  {
    (c as int - '0' as int) as nat
  }

  function Pow10(k: nat): nat
  {
    if k == 0 then 1 else 10 * Pow10(k - 1)
  }

  /** The decimal digits of `n`, without leading zeros. */
  function Digits(n: nat): string
  {
    if n < 10 then [DigitChar(n)] else Digits(n / 10) + [DigitChar(n % 10)]
  }

  /** The last `width` decimal digits of `n`, zero-padded on the left. */
  function PadTo(n: nat, width: nat): string
  {
    if width == 0 then "" else PadTo(n / 10, width - 1) + [DigitChar(n % 10)]
  }

  /** Rust's `format!("{:010}", n)` of an `i64`: sign-aware zero padding to width 10. */
  function Format010(n: int): string
  {
    if n >= 0 then
      if n < Pow10(10) then PadTo(n, 10) else Digits(n)
    else
      "-" + if -n < Pow10(9) then PadTo(-n, 9) else Digits(-n)
  }

  /** The value of a string of decimal digits. */
  function DecimalValue(s: string): nat
    requires forall i :: 0 <= i < |s| ==> IsDigit(s[i])
  {
    if s == [] then 0 else DecimalValue(s[..|s| - 1]) * 10 + DigitValue(s[|s| - 1])
  }

  lemma DigitCharValue(d: nat)
    requires d < 10
    ensures IsDigit(DigitChar(d)) && DigitValue(DigitChar(d)) == d
  {
  }

  /** `PadTo` writes exactly `width` digits, and they read back as `n` when `n` fits. */
  lemma {:induction false} PadToRoundTrip(n: nat, width: nat)
    requires n < Pow10(width)
    ensures |PadTo(n, width)| == width
    ensures forall i :: 0 <= i < width ==> IsDigit(PadTo(n, width)[i])
    ensures DecimalValue(PadTo(n, width)) == n
  {
    if width > 0 {
      PadToRoundTrip(n / 10, width - 1);
      var p := PadTo(n, width);
      DigitCharValue(n % 10);
      assert p[..width - 1] == PadTo(n / 10, width - 1);
    }
  }

  /** Zero-padded numbers of one width sort as their values do. */
  lemma DivideByTen(a: nat, b: nat, width: nat)
    requires a < b < Pow10(width)
    ensures width > 0 && b / 10 < Pow10(width - 1)
    ensures a / 10 < b / 10 || (a / 10 == b / 10 && a % 10 < b % 10)
  {
  }

  lemma {:induction false} PadToLength(n: nat, width: nat)
    ensures |PadTo(n, width)| == width
  {
    if width > 0 {
      PadToLength(n / 10, width - 1);
    }
  }

  lemma {:induction false} PadToOrder(a: nat, b: nat, width: nat)
    requires a < b < Pow10(width)
    ensures Below(PadTo(a, width), PadTo(b, width))
  {
    DivideByTen(a, b, width);
    var qa, ra, qb, rb := a / 10, a % 10, b / 10, b % 10;
    assert PadTo(a, width) == PadTo(qa, width - 1) + [DigitChar(ra)];
    assert PadTo(b, width) == PadTo(qb, width - 1) + [DigitChar(rb)];
    if qa < qb {
      PadToOrder(qa, qb, width - 1);
      PadToLength(qa, width - 1);
      PadToLength(qb, width - 1);
      BelowExtend(PadTo(qa, width - 1), PadTo(qb, width - 1), [DigitChar(ra)], [DigitChar(rb)]);
    } else {
      BelowAtEnd(PadTo(qa, width - 1), DigitChar(ra), DigitChar(rb));
    }
  }

  /** `Digits` writes only digits, and they read back as the number. */
  lemma {:induction false} DigitsRoundTrip(n: nat)
    ensures |Digits(n)| > 0 && forall i :: 0 <= i < |Digits(n)| ==> IsDigit(Digits(n)[i])
    ensures DecimalValue(Digits(n)) == n
  {
    DigitCharValue(n % 10);
    if n >= 10 {
      DigitsRoundTrip(n / 10);
      var d := Digits(n);
      assert d[..|d| - 1] == Digits(n / 10);
    }
  }

  /** A number of at least 10^k has more than k digits. */
  lemma {:induction false} DigitsLength(n: nat, k: nat)
    requires n >= Pow10(k)
    ensures |Digits(n)| > k
  {
    if k > 0 {
      DigitsLength(n / 10, k - 1);
    }
  }

  /**
   * A non-negative number is written with at least ten digits, exactly ten
   * below 10^10, and they read back as the number.
   */
  lemma Format010RoundTrip(n: int)
    requires n >= 0
    ensures var f := Format010(n);
            && |f| >= 10 && (n < Pow10(10) <==> |f| == 10)
            && (forall i :: 0 <= i < |f| ==> IsDigit(f[i]))
            && DecimalValue(f) == n
  {
    if n < Pow10(10) {
      PadToRoundTrip(n, 10);
    } else {
      DigitsRoundTrip(n);
      DigitsLength(n, 10);
    }
  }

  /**
   * Rust's `str::parse::<usize>` on a 64-bit target: an optional `+`, then
   * at least one decimal digit, and a value below 2^64.
   */
  function ParseUsize(s: string): (r: Option<nat>)
  {
    var body := if |s| > 0 && s[0] == '+' then s[1..] else s;
    if body == [] || exists i :: 0 <= i < |body| && !IsDigit(body[i]) then None
    else if DecimalValue(body) >= 18446744073709551616 then None
    else Some(DecimalValue(body))
  }

  /** Every `usize` written in decimal parses back to itself. */
  lemma ParseUsizeRoundTrip(n: nat)
    requires n < 18446744073709551616
    ensures ParseUsize(Digits(n)) == Some(n)
  {
    DigitsRoundTrip(n);
  }
}

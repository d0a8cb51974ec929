/**
 The file names of the segments.  A segment with id n lives in a file called
 by the decimal digits of n, and the directory is read in the order of the
 names, not in the order of the numbers.
 */
module SegmentNames {

  /** The decimal rendering of n. */
  function Name(n: nat): (s: string)
    ensures |s| >= 1
    ensures forall i :: 0 <= i < |s| ==> '0' <= s[i] <= '9'
  {
    if n < 10 then [Digit(n)] else Name(n / 10) + [Digit(n % 10)]
  }

  function Digit(d: nat): (c: char)
    requires d < 10
    ensures '0' <= c <= '9' && c as int == d + '0' as int
  {
    ('0' as int + d) as char
  }

  /** What a string of decimal digits stands for, read from its first digit on. */
  function Reads(s: string, sofar: nat): nat
    requires forall i :: 0 <= i < |s| ==> '0' <= s[i] <= '9'
  {
    if s == "" then sofar else Reads(s[1..], 10 * sofar + (s[0] as int - '0' as int))
  }

  lemma {:induction false} ReadsSnoc(s: string, c: char, sofar: nat)
    requires '0' <= c <= '9' && forall i :: 0 <= i < |s| ==> '0' <= s[i] <= '9'
    ensures Reads(s + [c], sofar) == 10 * Reads(s, sofar) + (c as int - '0' as int)
  {
    if s == "" {
      assert s + [c] == [c] && [c][1..] == "";
    } else {
      assert (s + [c])[1..] == s[1..] + [c];
      ReadsSnoc(s[1..], c, 10 * sofar + (s[0] as int - '0' as int));
    }
  }

  /** The name of a segment is its number in decimal, without leading zeros. */
  lemma {:induction false} NameReadsBack(n: nat)
    ensures Reads(Name(n), 0) == n && (n > 0 ==> Name(n)[0] != '0')
  {
    if n < 10 {
      assert Name(n)[1..] == "";
    } else {
      NameReadsBack(n / 10);
      ReadsSnoc(Name(n / 10), Digit(n % 10), 0);
    }
  }

  /** The order of strings: byte by byte, a proper prefix comes first. */
  predicate Before(a: string, b: string) {
    if b == "" then false
    else if a == "" then true
    else if a[0] != b[0] then a[0] < b[0]
    else Before(a[1..], b[1..])
  }

  /** The order in which two segments appear in a directory listing. */
  predicate Earlier(m: nat, n: nat) {
    Before(Name(m), Name(n))
  }

  lemma {:induction false} BeforeTransitive(a: string, b: string, c: string)
    requires Before(a, b) && Before(b, c)
    ensures Before(a, c)
  {
    if a == "" || !(a[0] == b[0] == c[0]) {
    } else {
      BeforeTransitive(a[1..], b[1..], c[1..]);
    }
  }

  lemma {:induction false} BeforeTotal(a: string, b: string)
    ensures !(Before(a, b) && Before(b, a))
    ensures a != b ==> Before(a, b) || Before(b, a)
    ensures a == b ==> !Before(a, b)
  {
    if a == "" || b == "" || a[0] != b[0] {
    } else {
      BeforeTotal(a[1..], b[1..]);
      assert a == [a[0]] + a[1..] && b == [b[0]] + b[1..];
    }
  }

  /** Comparing two strings of one width looks at the last position only when all others agree. */
  lemma {:induction false} BeforeSnoc(a: string, b: string, c: char, d: char)
    requires |a| == |b|
    ensures Before(a + [c], b + [d]) <==> Before(a, b) || (a == b && c < d)
  {
    if a == "" {
      assert a + [c] == [c] && b + [d] == [d];
      assert [c][1..] == "" && [d][1..] == "";
    } else {
      assert (a + [c])[1..] == a[1..] + [c] && (b + [d])[1..] == b[1..] + [d];
      BeforeSnoc(a[1..], b[1..], c, d);
      assert a == [a[0]] + a[1..] && b == [b[0]] + b[1..];
    }
  }

  /** At one width, the order of names is the order of numbers. */
  lemma {:induction false} SameWidthOrder(m: nat, n: nat)
    requires |Name(m)| == |Name(n)|
    ensures Earlier(m, n) <==> m < n
    ensures Name(m) == Name(n) <==> m == n
  {
    if m >= 10 {
      assert |Name(n / 10)| == |Name(n)| - 1;
      SameWidthOrder(m / 10, n / 10);
      BeforeSnoc(Name(m / 10), Name(n / 10), Digit(m % 10), Digit(n % 10));
      if Name(m) == Name(n) {
        assert Name(m)[..|Name(m)| - 1] == Name(m / 10) && Name(n)[..|Name(n)| - 1] == Name(n / 10);
        assert Name(m)[|Name(m)| - 1] == Digit(m % 10) && Name(n)[|Name(n)| - 1] == Digit(n % 10);
      }
    } else {
      assert n < 10;
      assert Name(m) == [Digit(m)] && Name(n) == [Digit(n)];
      assert !Before(Name(m)[1..], Name(n)[1..]);
    }
  }

  lemma NameInjective(m: nat, n: nat)
    requires Name(m) == Name(n)
    ensures m == n
  {
    SameWidthOrder(m, n);
  }

  /** Distinct segments are always in one order or the other. */
  lemma EarlierTotal(m: nat, n: nat)
    ensures !(Earlier(m, n) && Earlier(n, m))
    ensures m != n ==> Earlier(m, n) || Earlier(n, m)
    ensures m == n ==> !Earlier(m, n)
  {
    BeforeTotal(Name(m), Name(n));
    if Name(m) == Name(n) {
      NameInjective(m, n);
    }
  }

  lemma {:induction false} WidthMonotone(m: nat, n: nat)
    requires m <= n
    ensures |Name(m)| <= |Name(n)|
  {
    if m < 10 {
    } else {
      WidthMonotone(m / 10, n / 10);
    }
  }

  /** Where the width grows, the number after all nines starts with a one. */
  lemma {:induction false} WidthStep(n: nat)
    requires |Name(n)| < |Name(n + 1)|
    ensures Name(n)[0] == '9' && Name(n + 1)[0] == '1'
    ensures Earlier(n + 1, n)
  {
    if n < 10 {
      assert n == 9;
      assert Name(10) == Name(1) + [Digit(0)];
    } else {
      assert (n + 1) / 10 == n / 10 + 1;
      WidthStep(n / 10);
    }
  }

  /** A range of ids that changes width holds a neighbouring pair that is listed in reverse. */
  lemma {:induction false} WidthCrossing(lo: nat, hi: nat) returns (m: nat)
    requires lo <= hi && |Name(lo)| != |Name(hi)|
    ensures lo <= m < hi && Earlier(m + 1, m)
    decreases hi - lo
  {
    WidthMonotone(lo, hi);
    if |Name(lo)| < |Name(lo + 1)| {
      WidthStep(lo);
      m := lo;
    } else {
      WidthMonotone(lo, lo + 1);
      m := WidthCrossing(lo + 1, hi);
    }
  }

  /** The ids lo..hi appear in a listing in ascending order. */
  ghost predicate ListedInOrder(lo: nat, hi: nat) {
    forall m, n :: lo <= m < n <= hi ==> Earlier(m, n)
  }

  lemma OneWidthListedInOrder(lo: nat, hi: nat, m: nat, n: nat)
    requires lo <= m < n <= hi && |Name(lo)| == |Name(hi)|
    ensures Earlier(m, n)
  {
    WidthMonotone(lo, m);
    WidthMonotone(m, n);
    WidthMonotone(n, hi);
    SameWidthOrder(m, n);
  }

  /**
   A run of consecutive ids is listed oldest first if and only if its first and
   last id have equally many digits.
   */
  lemma ListedInOrderIffOneWidth(lo: nat, hi: nat)
    requires lo <= hi
    ensures ListedInOrder(lo, hi) <==> |Name(lo)| == |Name(hi)|
  {
    if |Name(lo)| == |Name(hi)| {
      forall m, n | lo <= m < n <= hi
        ensures Earlier(m, n)
      {
        OneWidthListedInOrder(lo, hi, m, n);
      }
    } else {
      var m := WidthCrossing(lo, hi);
      EarlierTotal(m, m + 1);
      assert !Earlier(m, m + 1);
    }
  }
}

/** JavaScript's ordering of strings and fixed-width decimal text. */
module Strings {
  import opened Values

  /** `a < b` on JavaScript strings: the first differing character decides,
      and a proper prefix is smaller. */
  predicate Less(a: string, b: string)
  {
    if |a| == 0 then |b| > 0
    else if |b| == 0 then false
    else if a[0] != b[0] then a[0] < b[0]
    else Less(a[1..], b[1..])
  }

  lemma {:induction false} LessIrreflexive(a: string)
    ensures !Less(a, a)
  {
    if |a| > 0 { LessIrreflexive(a[1..]); }
  }

  lemma {:induction false} LessTransitive(a: string, b: string, c: string)
    requires Less(a, b) && Less(b, c)
    ensures Less(a, c)
  {
    if |a| > 0 && |b| > 0 && |c| > 0 && a[0] == b[0] && b[0] == c[0] {
      LessTransitive(a[1..], b[1..], c[1..]);
    }
  }

  lemma {:induction false} LessTotal(a: string, b: string)
    ensures a == b || Less(a, b) || Less(b, a)
  {
    if |a| > 0 && |b| > 0 && a[0] == b[0] {
      LessTotal(a[1..], b[1..]);
      if a[1..] == b[1..] {
        assert a == [a[0]] + a[1..] && b == [b[0]] + b[1..];
      }
    }
  }

  lemma {:induction false} LessAsymmetric(a: string, b: string)
    requires Less(a, b)
    ensures !Less(b, a)
  {
    if |a| > 0 && |b| > 0 && a[0] == b[0] {
      LessAsymmetric(a[1..], b[1..]);
    }
  }

  /** Comparing two concatenations whose first parts have equal length. */
  lemma {:induction false} LessConcat(x1: string, y1: string, x2: string, y2: string)
    requires |x1| == |x2|
    ensures Less(x1 + y1, x2 + y2) <==> Less(x1, x2) || (x1 == x2 && Less(y1, y2))
  {
    if |x1| == 0 {
      assert x1 + y1 == y1 && x2 + y2 == y2;
    } else {
      assert (x1 + y1)[1..] == x1[1..] + y1 && (x2 + y2)[1..] == x2[1..] + y2;
      LessConcat(x1[1..], y1, x2[1..], y2);
      if x1[0] == x2[0] && x1[1..] == x2[1..] {
        assert x1 == [x1[0]] + x1[1..] && x2 == [x2[0]] + x2[1..];
      }
    }
  }

  function Pow10(w: nat): (p: nat)
    ensures p >= 1
  {
    if w == 0 then 1 else 10 * Pow10(w - 1)
  }

  /** `n` written with exactly `w` decimal digits, zero-padded on the left
      (the digits of higher place values are dropped). */
  function Pad(n: nat, w: nat): (s: string)
    ensures |s| == w && AllDigits(s)
  {
    if w == 0 then [] else Pad(n / 10, w - 1) + [DigitChar(n % 10)]
  }

  lemma {:induction false} PadInjective(a: nat, b: nat, w: nat)
    requires a < Pow10(w) && b < Pow10(w)
    ensures Pad(a, w) == Pad(b, w) <==> a == b
  {
    if w > 0 {
      PadInjective(a / 10, b / 10, w - 1);
      var pa, pb := Pad(a, w), Pad(b, w);
      if pa == pb {
        assert pa[..w - 1] == Pad(a / 10, w - 1) && pb[..w - 1] == Pad(b / 10, w - 1);
        assert pa[w - 1] == DigitChar(a % 10) && pb[w - 1] == DigitChar(b % 10);
      }
    }
  }

  /** For numbers that fit in `w` digits, string order of the padded text is
      numeric order. */
  lemma {:induction false} PadLess(a: nat, b: nat, w: nat)
    requires a < Pow10(w) && b < Pow10(w)
    ensures Less(Pad(a, w), Pad(b, w)) <==> a < b
  {
    if w == 0 {
    } else {
      PadLess(a / 10, b / 10, w - 1);
      PadInjective(a / 10, b / 10, w - 1);
      var ca, cb := DigitChar(a % 10), DigitChar(b % 10);
      LessConcat(Pad(a / 10, w - 1), [ca], Pad(b / 10, w - 1), [cb]);
      assert Less([ca], [cb]) <==> a % 10 < b % 10 by {
        assert [ca][1..] == [] && [cb][1..] == [];
      }
      assert a < b <==> a / 10 < b / 10 || (a / 10 == b / 10 && a % 10 < b % 10);
    }
  }
}

/** Numeric order of decimal ids as the database sorts its `bigint` column:
    a shorter canonical numeral is smaller, equally long ones compare by text. */
module NumericOrder {
  import opened Strings

  predicate NumLess(a: string, b: string)
  {
    |a| < |b| || (|a| == |b| && Less(a, b))
  }

  lemma NumLessIrreflexive(a: string)
    ensures !NumLess(a, a)
  {
    LessIrreflexive(a);
  }

  lemma NumLessTransitive(a: string, b: string, c: string)
    requires NumLess(a, b) && NumLess(b, c)
    ensures NumLess(a, c)
  {
    if |a| == |b| == |c| { LessTransitive(a, b, c); }
  }

  lemma NumLessTotal(a: string, b: string)
    ensures a == b || NumLess(a, b) || NumLess(b, a)
  {
    LessTotal(a, b);
  }
}

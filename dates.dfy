/**
 * Calendar dates as the application stores them: `YYYY-MM-DD` strings, compared the way
 * the database and JavaScript compare strings (character by character, a proper prefix
 * first). For strings of the date shape this order is the calendar order.
 */
module Dates {

  predicate IsDigit(c: char)
  {
    '0' <= c <= '9'
  }

  /** The pattern `^\d{4}-\d{2}-\d{2}$` used to validate every date the actions receive. */
  predicate IsDate(s: string)
  {
    |s| == 10 && s[4] == '-' && s[7] == '-' &&
    forall i | 0 <= i < 10 && i != 4 && i != 7 :: IsDigit(s[i])
  }

  /** String order `a < b`. */
  predicate Less(a: string, b: string)
  {
    |b| > 0 && (|a| == 0 || a[0] < b[0] || (a[0] == b[0] && Less(a[1..], b[1..])))
  }

  /** String order `a <= b` (the `lte` filter of the price lookup). */
  predicate AtOrBefore(a: string, b: string)
  {
    a == b || Less(a, b)
  }

  lemma {:induction false} LessIrreflexive(a: string)
    ensures !Less(a, a)
  {
    if |a| > 0 {
      LessIrreflexive(a[1..]);
    }
  }

  lemma {:induction false} LessTransitive(a: string, b: string, c: string)
    requires Less(a, b) && Less(b, c)
    ensures Less(a, c)
  {
    if |a| > 0 && a[0] == b[0] && b[0] == c[0] {
      LessTransitive(a[1..], b[1..], c[1..]);
    }
  }

  lemma {:induction false} LessTotal(a: string, b: string)
    ensures a == b || Less(a, b) || Less(b, a)
  {
    if |a| > 0 && |b| > 0 && a[0] == b[0] {
      LessTotal(a[1..], b[1..]);
      if a[1..] == b[1..] {
        assert a == [a[0]] + a[1..] && b == [b[0]] + b[1..];
      }
    }
  }

  lemma LessAsymmetric(a: string, b: string)
    requires Less(a, b)
    ensures !Less(b, a) && a != b
  {
    if Less(b, a) {
      LessTransitive(a, b, a);
      LessIrreflexive(a);
    }
    LessIrreflexive(a);
  }

  lemma AtOrBeforeTransitive(a: string, b: string, c: string)
    requires AtOrBefore(a, b) && AtOrBefore(b, c)
    ensures AtOrBefore(a, c)
  {
    if Less(a, b) && Less(b, c) {
      LessTransitive(a, b, c);
    }
  }

  lemma AtOrBeforeAntisymmetric(a: string, b: string)
    requires AtOrBefore(a, b) && AtOrBefore(b, a)
    ensures a == b
  {
    if a != b {
      LessAsymmetric(a, b);
    }
  }
}

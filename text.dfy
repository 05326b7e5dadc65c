/**
 * The string operations the actions apply to user input: JavaScript's `trim`, an ASCII
 * `toUpperCase`, decimal rendering of a number (`String(n)`), `padStart` with zeros and
 * `parseInt` of a run of decimal digits.
 */
module Text {
  import opened Dates

  /** JavaScript's WhiteSpace and LineTerminator characters, the set `trim` removes. */
  predicate IsSpace(c: char)
  {
    c == ' ' || c == '\t' || c == '\n' || c == '\r' || c == '\U{B}' || c == '\U{C}' ||
    c == '\U{A0}' || c == '\U{1680}' || ('\U{2000}' <= c <= '\U{200A}') ||
    c == '\U{2028}' || c == '\U{2029}' || c == '\U{202F}' || c == '\U{205F}' ||
    c == '\U{3000}' || c == '\U{FEFF}'
  }

  predicate AllSpace(s: string)
  {
    forall i | 0 <= i < |s| :: IsSpace(s[i])
  }

  /** `s` neither starts nor ends with whitespace. */
  predicate Trimmed(s: string)
  {
    s == [] || (!IsSpace(s[0]) && !IsSpace(s[|s| - 1]))
  }

  /** The first index at or after `i` that holds no whitespace, or `|s|`. */
  function SkipLeading(s: string, i: nat): (n: nat)
    requires i <= |s|
    ensures i <= n <= |s|
    ensures forall k | i <= k < n :: IsSpace(s[k])
    ensures n == |s| || !IsSpace(s[n])
    decreases |s| - i
  {
    if i < |s| && IsSpace(s[i]) then SkipLeading(s, i + 1) else i
  }

  /** The index just past the last non-whitespace character before `j`, but never below `i`. */
  function SkipTrailing(s: string, i: nat, j: nat): (n: nat)
    requires i <= j <= |s|
    ensures i <= n <= j
    ensures forall k | n <= k < j :: IsSpace(s[k])
    ensures n == i || !IsSpace(s[n - 1])
  {
    if i < j && IsSpace(s[j - 1]) then SkipTrailing(s, i, j - 1) else j
  }

  /** `s.trim()` */
  function Trim(s: string): (r: string)
    ensures Trimmed(r)
    ensures |r| <= |s|
    ensures exists i, j | 0 <= i <= j <= |s| :: r == s[i..j] && AllSpace(s[..i]) && AllSpace(s[j..])
  {
    var i := SkipLeading(s, 0);
    var j := SkipTrailing(s, i, |s|);
    assert AllSpace(s[..i]) by {
      forall k | 0 <= k < i ensures IsSpace(s[..i][k]) {
        assert s[..i][k] == s[k];
      }
    }
    assert AllSpace(s[j..]) by {
      forall k | 0 <= k < |s| - j ensures IsSpace(s[j..][k]) {
        assert s[j..][k] == s[j + k];
      }
    }
    s[i..j]
  }

  /** `s.trim() === ""` exactly when `s` is all whitespace. */
  lemma TrimEmpty(s: string)
    ensures Trim(s) == [] <==> AllSpace(s)
  {
    var i := SkipLeading(s, 0);
    var j := SkipTrailing(s, i, |s|);
    if Trim(s) == [] {
      assert i == j;
    }
    if AllSpace(s) {
      assert i == |s|;
    }
  }

  /**
   * A slice of `s` with only whitespace around it and none at its own ends is what `trim`
   * returns, so `Trim`'s result is the only such slice.
   */
  lemma TrimUnique(s: string, a: nat, b: nat)
    requires a <= b <= |s| && AllSpace(s[..a]) && AllSpace(s[b..]) && Trimmed(s[a..b])
    ensures Trim(s) == s[a..b]
  {
    forall k | 0 <= k < a ensures IsSpace(s[k]) {
      assert s[..a][k] == s[k];
    }
    forall k | b <= k < |s| ensures IsSpace(s[k]) {
      assert s[b..][k - b] == s[k];
    }
    if a < b {
      assert s[a..b][0] == s[a] && s[a..b][b - a - 1] == s[b - 1];
      assert SkipLeading(s, 0) == a;
      assert SkipTrailing(s, a, |s|) == b;
    } else {
      TrimEmpty(s);
    }
  }

  lemma TrimKeepsTrimmed(s: string)
    requires Trimmed(s)
    ensures Trim(s) == s
  {
    assert s[..0] == [] && s[|s|..] == [] && s[0..|s|] == s;
    TrimUnique(s, 0, |s|);
  }

  lemma TrimIdempotent(s: string)
    ensures Trim(Trim(s)) == Trim(s)
  {
    TrimKeepsTrimmed(Trim(s));
  }

  /** Whitespace around the input does not change what `trim` returns. */
  lemma TrimIgnoresPadding(w1: string, s: string, w2: string)
    requires AllSpace(w1) && AllSpace(w2)
    ensures Trim(w1 + s + w2) == Trim(s)
  {
    var t := Trim(s);
    var i, j :| 0 <= i <= j <= |s| && t == s[i..j] && AllSpace(s[..i]) && AllSpace(s[j..]);
    var x, a, b := w1 + s + w2, |w1| + i, |w1| + j;
    PaddedPrefix(w1, s, w2, i);
    PaddedSuffix(w1, s, w2, j);
    PaddedMiddle(w1, s, w2, i, j);
    assert Trimmed(t) && x[a..b] == t;
    TrimUnique(x, a, b);
  }

  lemma PaddedPrefix(w1: string, s: string, w2: string, i: nat)
    requires AllSpace(w1) && i <= |s| && AllSpace(s[..i])
    ensures AllSpace((w1 + s + w2)[..|w1| + i])
  {
    var p := (w1 + s + w2)[..|w1| + i];
    forall k | 0 <= k < |p| ensures IsSpace(p[k]) {
      if k < |w1| {
        assert p[k] == w1[k];
      } else {
        assert p[k] == s[..i][k - |w1|];
      }
    }
  }

  lemma PaddedSuffix(w1: string, s: string, w2: string, j: nat)
    requires AllSpace(w2) && j <= |s| && AllSpace(s[j..])
    ensures AllSpace((w1 + s + w2)[|w1| + j..])
  {
    var q := (w1 + s + w2)[|w1| + j..];
    forall k | 0 <= k < |q| ensures IsSpace(q[k]) {
      if k < |s| - j {
        assert q[k] == s[j..][k];
      } else {
        assert q[k] == w2[k - (|s| - j)];
      }
    }
  }

  lemma PaddedMiddle(w1: string, s: string, w2: string, i: nat, j: nat)
    requires i <= j <= |s|
    ensures (w1 + s + w2)[|w1| + i..|w1| + j] == s[i..j]
  {
    var m := (w1 + s + w2)[|w1| + i..|w1| + j];
    forall k | 0 <= k < j - i ensures m[k] == s[i..j][k] {
      assert m[k] == s[i + k];
    }
  }

  /** `toUpperCase` of one character (ASCII letters only). */
  function UpperChar(c: char): char
  {
    if 'a' <= c <= 'z' then (c as int - 32) as char else c
  }

  /** `s.toUpperCase()` */
  function Upper(s: string): (r: string)
    ensures |r| == |s|
  {
    seq(|s|, i requires 0 <= i < |s| => UpperChar(s[i]))
  }

  /** A digit is not whitespace and has no upper-case form of its own. */
  lemma DigitIsPlain(c: char)
    requires IsDigit(c)
    ensures !IsSpace(c) && UpperChar(c) == c
  {
  }

  lemma UpperPreservesSpace(c: char)
    ensures IsSpace(UpperChar(c)) <==> IsSpace(c)
    ensures IsDigit(UpperChar(c)) <==> IsDigit(c)
    ensures UpperChar(UpperChar(c)) == UpperChar(c)
  {
  }

  lemma UpperIdempotent(s: string)
    ensures Upper(Upper(s)) == Upper(s)
  {
    forall i | 0 <= i < |s| ensures Upper(Upper(s))[i] == Upper(s)[i] {
      UpperPreservesSpace(s[i]);
    }
  }

  /** Upper-casing neither adds nor removes surrounding whitespace. */
  lemma UpperKeepsTrimmed(s: string)
    requires Trimmed(s)
    ensures Trimmed(Upper(s))
  {
    if s != [] {
      UpperPreservesSpace(s[0]);
      UpperPreservesSpace(s[|s| - 1]);
    }
  }

  predicate AllDigits(s: string)
  {
    forall i | 0 <= i < |s| :: IsDigit(s[i])
  }

  /** `parseInt(s, 10)` of a run of decimal digits. */
  function ParseDigits(s: string): nat
    requires AllDigits(s)
  {
    if s == [] then 0 else ParseDigits(s[..|s| - 1]) * 10 + (s[|s| - 1] as int - '0' as int)
  }

  function DigitChar(d: nat): (c: char)
    requires d < 10
    ensures IsDigit(c)
  {
    ('0' as int + d) as char
  }

  /** `String(n)`: the decimal digits of `n`, without leading zeros. */
  function Decimal(n: nat): (r: string)
    ensures r != [] && AllDigits(r)
    ensures |r| > 1 ==> r[0] != '0'
  {
    if n < 10 then [DigitChar(n)] else Decimal(n / 10) + [DigitChar(n % 10)]
  }

  lemma {:induction false} ParseDecimal(n: nat)
    ensures ParseDigits(Decimal(n)) == n
  {
    if n >= 10 {
      ParseDecimal(n / 10);
      assert Decimal(n)[..|Decimal(n)| - 1] == Decimal(n / 10);
    }
  }

  function Zeros(k: nat): (r: string)
    ensures |r| == k && AllDigits(r)
  {
    seq(k, _ => '0')
  }

  /** `s.padStart(width, "0")` */
  function PadStart(s: string, width: nat): (r: string)
    ensures |r| == if |s| >= width then |s| else width
    ensures r[|r| - |s|..] == s && r[..|r| - |s|] == Zeros(|r| - |s|)
  {
    if |s| >= width then s else Zeros(width - |s|) + s
  }

  lemma {:induction false} ParseZeros(k: nat)
    ensures ParseDigits(Zeros(k)) == 0
  {
    if k > 0 {
      assert Zeros(k)[..k - 1] == Zeros(k - 1);
      ParseZeros(k - 1);
    }
  }

  /** Leading zeros do not change the parsed value. */
  lemma {:induction false} ParseIgnoresLeadingZeros(k: nat, s: string)
    requires AllDigits(s)
    ensures AllDigits(Zeros(k) + s) && ParseDigits(Zeros(k) + s) == ParseDigits(s)
    decreases |s|
  {
    if s == [] {
      assert Zeros(k) + s == Zeros(k);
      ParseZeros(k);
    } else {
      var z := Zeros(k) + s;
      assert z[..|z| - 1] == Zeros(k) + s[..|s| - 1];
      ParseIgnoresLeadingZeros(k, s[..|s| - 1]);
    }
  }
}

/**
 * Vendor creation: the code a new vendor gets. A supplied code is trimmed and upper-cased;
 * without one, the next free code of the form "V" followed by at least three digits is
 * generated from the numeric suffixes of the existing codes.
 */
module Vendors {
  import opened Common
  import opened Dates
  import opened Text
  import opened Ledger
  import opened Database

  // ---------------------------------------------------------------- normalizeCode

  /** `normalizeCode`: the trimmed, upper-cased code, or "" when no code is given. */
  function NormalizeCode(code: Option<string>): (r: string)
    ensures code.None? ==> r == ""
    ensures Trimmed(r) && Upper(r) == r
    ensures code.Some? ==> |r| <= |code.value| && (r == "" <==> AllSpace(code.value))
  {
    match code
    case None => ""
    case Some(c) =>
      TrimEmpty(c);
      UpperKeepsTrimmed(Trim(c));
      UpperIdempotent(Trim(c));
      Upper(Trim(c))
  }

  /** Normalising a normalised code changes nothing. */
  lemma NormalizeCodeIdempotent(code: Option<string>)
    ensures NormalizeCode(Some(NormalizeCode(code))) == NormalizeCode(code)
  {
    var r := NormalizeCode(code);
    TrimKeepsTrimmed(r);
  }

  /** Whitespace around a code is ignored. */
  lemma NormalizeIgnoresPadding(w1: string, c: string, w2: string)
    requires AllSpace(w1) && AllSpace(w2)
    ensures NormalizeCode(Some(w1 + c + w2)) == NormalizeCode(Some(c))
  {
    TrimIgnoresPadding(w1, c, w2);
  }

  // ---------------------------------------------------------------- generateVendorCode

  /** The number matched by `/^V(\d+)$/i` in the trimmed code, if it matches. */
  function VSuffix(code: string): Option<nat>
  {
    var t := Trim(code);
    if |t| >= 2 && (t[0] == 'V' || t[0] == 'v') && AllDigits(t[1..]) then Some(ParseDigits(t[1..]))
    else None
  }

  /** The numeric suffix of every code, in table order. */
  function VSuffixes(codes: seq<string>): (r: seq<Option<nat>>)
    ensures |r| == |codes| && forall i | 0 <= i < |codes| :: r[i] == VSuffix(codes[i])
  {
    seq(|codes|, i requires 0 <= i < |codes| => VSuffix(codes[i]))
  }

  /** `reduce((acc, x) => x === undefined ? acc : Math.max(acc, x), 0)` */
  function MaxOf(xs: seq<Option<nat>>): (r: nat)
    ensures forall i | 0 <= i < |xs| && xs[i].Some? :: xs[i].value <= r
    ensures r == 0 || exists i | 0 <= i < |xs| :: xs[i] == Some(r)
  {
    if xs == [] then 0
    else
      var acc := MaxOf(xs[..|xs| - 1]);
      match xs[|xs| - 1]
      case None => acc
      case Some(v) => if v > acc then v else acc
  }

  /** The `reduce` over the existing codes: the largest numeric suffix, 0 when there is none. */
  function MaxSuffix(codes: seq<string>): (r: nat)
    ensures forall i | 0 <= i < |codes| && VSuffix(codes[i]).Some? :: VSuffix(codes[i]).value <= r
    ensures r == 0 || exists i | 0 <= i < |codes| :: VSuffix(codes[i]) == Some(r)
  {
    var xs := VSuffixes(codes);
    assert forall i | 0 <= i < |codes| :: xs[i] == VSuffix(codes[i]);
    MaxOf(xs)
  }

  /** The set `existing`: every code, upper-cased (but not trimmed). */
  function ExistingCodes(codes: seq<string>): set<string>
  {
    set i | 0 <= i < |codes| :: Upper(codes[i])
  }

  /** `V${String(n).padStart(3, "0")}` */
  function VendorCode(n: nat): string
  {
    "V" + PadStart(Decimal(n), 3)
  }

  /** `String(n).padStart(3, "0")` is a run of at least three digits worth `n`. */
  lemma PaddedDecimal(n: nat)
    ensures var p := PadStart(Decimal(n), 3);
      |p| >= 3 && AllDigits(p) && ParseDigits(p) == n
  {
    var d := Decimal(n);
    var p := PadStart(d, 3);
    assert p == Zeros(|p| - |d|) + d;
    ParseIgnoresLeadingZeros(|p| - |d|, d);
    ParseDecimal(n);
  }

  /** "V" followed by digits is already trimmed and upper-case. */
  lemma VDigitsPlain(c: string)
    requires |c| >= 2 && c[0] == 'V' && AllDigits(c[1..])
    ensures Trimmed(c) && Upper(c) == c
  {
    assert c[|c| - 1] == c[1..][|c| - 2];
    DigitIsPlain(c[|c| - 1]);
    forall i | 0 <= i < |c| ensures Upper(c)[i] == c[i] {
      if i > 0 {
        assert c[i] == c[1..][i - 1];
        DigitIsPlain(c[i]);
      }
    }
  }

  /** "V" followed by digits matches the pattern, with those digits as its number. */
  lemma VDigits(c: string)
    requires |c| >= 2 && c[0] == 'V' && AllDigits(c[1..])
    ensures Trimmed(c) && Upper(c) == c
    ensures VSuffix(c) == Some(ParseDigits(c[1..]))
  {
    VDigitsPlain(c);
    TrimKeepsTrimmed(c);
  }

  /** A generated code reads back as the number it was made from. */
  lemma VendorCodeRoundTrip(n: nat)
    ensures Trimmed(VendorCode(n)) && Upper(VendorCode(n)) == VendorCode(n)
    ensures VSuffix(VendorCode(n)) == Some(n)
  {
    PaddedDecimal(n);
    var c := VendorCode(n);
    assert c[1..] == PadStart(Decimal(n), 3);
    VDigits(c);
  }

  /** Different numbers give different codes. */
  lemma VendorCodeInjective(n: nat)
    ensures forall k: nat | k != n :: VendorCode(k) != VendorCode(n)
  {
    VendorCodeRoundTrip(n);
    forall k: nat | k != n ensures VendorCode(k) != VendorCode(n) {
      VendorCodeRoundTrip(k);
    }
  }

  /** A code that upper-cases to "V" followed by digits is "V" or "v" followed by the same digits. */
  lemma UpperOfVDigitsShape(c: string, g: string)
    requires |g| >= 2 && g[0] == 'V' && AllDigits(g[1..]) && Upper(c) == g
    ensures Trimmed(c) && (c[0] == 'V' || c[0] == 'v') && c[1..] == g[1..]
  {
    forall i | 1 <= i < |c| ensures c[i] == g[i] {
      assert g[i] == g[1..][i - 1];
      assert UpperChar(c[i]) == g[i];
      UpperPreservesSpace(c[i]);
      DigitIsPlain(c[i]);
    }
    assert UpperChar(c[0]) == 'V';
    UpperPreservesSpace(c[0]);
    assert c[|c| - 1] == g[|g| - 1] == g[1..][|g| - 2];
    DigitIsPlain(c[|c| - 1]);
  }

  lemma UpperOfVDigits(c: string, g: string)
    requires |g| >= 2 && g[0] == 'V' && AllDigits(g[1..]) && Upper(c) == g
    ensures VSuffix(c) == Some(ParseDigits(g[1..]))
  {
    UpperOfVDigitsShape(c, g);
    TrimKeepsTrimmed(c);
  }

  /** A code whose upper-cased form is a generated code carries that code's number. */
  lemma UpperOfVendorCode(c: string, n: nat)
    ensures Upper(c) == VendorCode(n) ==> VSuffix(c) == Some(n)
  {
    if Upper(c) == VendorCode(n) {
      var g := VendorCode(n);
      PaddedDecimal(n);
      assert g[1..] == PadStart(Decimal(n), 3);
      UpperOfVDigits(c, g);
    }
  }

  /** The first candidate, one past the largest suffix, is never among the existing codes. */
  lemma FirstCandidateFree(codes: seq<string>)
    ensures VendorCode(MaxSuffix(codes) + 1) !in ExistingCodes(codes)
  {
    var n := MaxSuffix(codes) + 1;
    forall i | 0 <= i < |codes| ensures Upper(codes[i]) != VendorCode(n) {
      UpperOfVendorCode(codes[i], n);
    }
  }

  /** Without any `V<digits>` code in the table the first generated code is "V001". */
  lemma NoVCodesGivesV001(codes: seq<string>)
    requires forall i | 0 <= i < |codes| :: VSuffix(codes[i]).None?
    ensures VendorCode(MaxSuffix(codes) + 1) == "V001"
  {
    assert MaxSuffix(codes) == 0;
    var c := VendorCode(1);
    assert Decimal(1) == ['1'];
    assert PadStart(['1'], 3) == Zeros(2) + ['1'];
    assert |c| == 4 && c[0] == 'V' && c[1] == '0' && c[2] == '0' && c[3] == '1';
  }

  /**
   * The `while` loop of `generateVendorCode`: counts up from `start` until the candidate is
   * not in `existing`, having passed over taken candidates only.
   */
  method NextFreeCode(existing: set<string>, start: nat) returns (code: string, next: nat)
    ensures next >= start && code == VendorCode(next) && code !in existing
    ensures forall m | start <= m < next :: VendorCode(m) in existing
  {
    next := start;
    code := VendorCode(next);
    ghost var tried: set<string> := {};
    while code in existing
      invariant next >= start && code == VendorCode(next)
      invariant tried <= existing
      invariant forall c, k: nat | c in tried && k >= next :: c != VendorCode(k)
      invariant forall m | start <= m < next :: VendorCode(m) in existing
      decreases |existing - tried|
    {
      VendorCodeInjective(next);
      assert code !in tried;
      assert existing - tried == (existing - (tried + {code})) + {code};
      tried := tried + {code};
      next := next + 1;
      code := VendorCode(next);
    }
  }

  /**
   * `generateVendorCode`, given the codes of the vendor table: the first candidate, one past
   * the largest suffix, is always free, so the loop stops there.
   */
  method GenerateVendorCode(codes: seq<string>) returns (code: string)
    ensures code == VendorCode(MaxSuffix(codes) + 1)
    ensures code !in ExistingCodes(codes)
  {
    var existing := ExistingCodes(codes);
    var max := MaxSuffix(codes);
    var next;
    code, next := NextFreeCode(existing, max + 1);
    StopsAtFirstCandidate(codes, next);
  }

  /** A loop that passed over taken candidates only stopped at the first one. */
  lemma StopsAtFirstCandidate(codes: seq<string>, next: nat)
    requires next > MaxSuffix(codes)
    requires forall m | MaxSuffix(codes) < m < next :: VendorCode(m) in ExistingCodes(codes)
    ensures next == MaxSuffix(codes) + 1
  {
    FirstCandidateFree(codes);
  }

  // ---------------------------------------------------------------- createVendor

  /** The request: a name, an optional code and the optional flags. */
  datatype VendorInput = VendorInput(name: string, code: Option<string>, active: Option<bool>, isFavorite: Option<bool>)

  /** `INVALID` (schema rejection), or a code the table's uniqueness constraint refuses. */
  datatype VendorError = Invalid | CodeTaken

  /** The schema's preprocess step: a code that is blank after trimming counts as absent. */
  function SuppliedCode(code: Option<string>): Option<string>
  {
    if code.Some? && Trim(code.value) == "" then None else code
  }

  /** `createVendorSchema`: a name of at least 2 characters, and a supplied code of at least 2. */
  predicate ValidVendorInput(input: VendorInput)
  {
    && |input.name| >= 2
    && (SuppliedCode(input.code).None? || |SuppliedCode(input.code).value| >= 2)
  }

  function Codes(vendors: seq<Vendor>): (r: seq<string>)
    ensures |r| == |vendors| && forall i | 0 <= i < |vendors| :: r[i] == vendors[i].code
  {
    seq(|vendors|, i requires 0 <= i < |vendors| => vendors[i].code)
  }

  /** `normalizeCode(rawCode) || generateVendorCode()` */
  function ChosenCode(code: Option<string>, codes: seq<string>): string
  {
    var normalized := NormalizeCode(SuppliedCode(code));
    if normalized != "" then normalized else VendorCode(MaxSuffix(codes) + 1)
  }

  /**
   * A code with something besides whitespace is kept, trimmed and upper-cased; otherwise
   * the generated code is used, and it collides with no existing code, whatever its case.
   */
  lemma ChosenCodeFacts(code: Option<string>, codes: seq<string>)
    ensures var r := ChosenCode(code, codes);
      && r != "" && Trimmed(r) && Upper(r) == r
      && (code.Some? && !AllSpace(code.value) ==> r == Upper(Trim(code.value)))
      && (code.None? || AllSpace(code.value) ==>
            r == VendorCode(MaxSuffix(codes) + 1) && r !in codes && r !in ExistingCodes(codes))
  {
    var r := ChosenCode(code, codes);
    if code.Some? {
      TrimEmpty(code.value);
    }
    if code.None? || AllSpace(code.value) {
      FirstCandidateFree(codes);
      VendorCodeRoundTrip(MaxSuffix(codes) + 1);
      forall i | 0 <= i < |codes| ensures codes[i] != r {
        assert Upper(codes[i]) in ExistingCodes(codes);
      }
    }
  }

  /** No two vendors share a code. */
  predicate UniqueCodes(vendors: seq<Vendor>)
  {
    forall i, j | 0 <= i < j < |vendors| :: vendors[i].code != vendors[j].code
  }

  /** Appending a vendor whose code is not yet used keeps the codes unique. */
  lemma AppendKeepsCodesUnique(vendors: seq<Vendor>, v: Vendor)
    requires UniqueCodes(vendors) && v.code !in Codes(vendors)
    ensures UniqueCodes(vendors + [v])
  {
    var w := vendors + [v];
    forall i, j | 0 <= i < j < |w| ensures w[i].code != w[j].code {
      if j == |vendors| {
        assert Codes(vendors)[i] == w[i].code;
      }
    }
  }

  /** The row `createVendor` inserts: flags default to active and not a favourite. */
  function NewVendor(id: VendorId, input: VendorInput, code: string): Vendor
  {
    Vendor(id, input.name, code, GetOpt(input.active, true), GetOpt(input.isFavorite, false))
  }

  function GetOpt<T>(o: Option<T>, fallback: T): T
  {
    if o.Some? then o.value else fallback
  }

  /**
   * `createVendor`; `freshId` is the identifier the store assigns to the new row. The row is
   * appended unless the input is invalid or its code is already taken.
   */
  method CreateVendor(db: Db, input: VendorInput, freshId: VendorId) returns (r: Result<Vendor, VendorError>)
    requires db.Valid()
    modifies db`vendors
    ensures db.Valid()
    ensures !ValidVendorInput(input) ==> r == Failure(Invalid) && db.vendors == old(db.vendors)
    ensures ValidVendorInput(input) ==>
      var code := ChosenCode(input.code, Codes(old(db.vendors)));
      if code in Codes(old(db.vendors)) then r == Failure(CodeTaken) && db.vendors == old(db.vendors)
      else r == Success(NewVendor(freshId, input, code)) && db.vendors == old(db.vendors) + [r.value]
    ensures UniqueCodes(old(db.vendors)) ==> UniqueCodes(db.vendors)
  {
    if !ValidVendorInput(input) {
      return Failure(Invalid);
    }
    var codes := Codes(db.vendors);
    var code := NormalizeCode(SuppliedCode(input.code));
    if code == "" {
      code := GenerateVendorCode(codes);
    }
    if code in codes {
      return Failure(CodeTaken);
    }
    assert code == ChosenCode(input.code, codes);
    var v := NewVendor(freshId, input, code);
    if UniqueCodes(db.vendors) {
      AppendKeepsCodesUnique(db.vendors, v);
    }
    db.vendors := db.vendors + [v];
    r := Success(v);
  }
}

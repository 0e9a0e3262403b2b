/**
  Decimal rendering, zero padding and the codes built from row counts
  (PaymentsRepository.getNextInvoiceNumber, StudentsRepository.getNextStudentCode).
 */
module SequenceCodes {

  predicate IsDigit(c: char) {
    '0' <= c <= '9'
  }

  function Digit(d: nat): (c: char)
    requires d < 10
    ensures IsDigit(c)
  {
    '0' + d as char
  }

  /** String(n) for a non-negative integer n. */
  function Decimal(n: nat): (s: string)
    ensures |s| >= 1
  {
    if n < 10 then [Digit(n)] else Decimal(n / 10) + [Digit(n % 10)]
  }

  /** String.prototype.padStart(width, '0'): never cuts. */
  function PadStart(s: string, width: nat): string
    decreases width - |s|
  {
    if |s| >= width then s else PadStart(['0'] + s, width)
  }

  /** INV-<year>-<count, at least six digits> */
  function InvoiceNumber(year: nat, count: nat): string {
    "INV-" + Decimal(year) + "-" + PadStart(Decimal(count), 6)
  }

  /** STU-<count, at least five digits> */
  function StudentCode(count: nat): string {
    "STU-" + PadStart(Decimal(count), 5)
  }

  /** The number written by the maximal run of digits at the end of s: the reader of the codes above. */
  function TrailingNumber(s: string): nat {
    if s == [] || !IsDigit(s[|s| - 1]) then 0
    else 10 * TrailingNumber(s[..|s| - 1]) + (s[|s| - 1] - '0') as nat
  }

  ghost predicate EndsInNonDigit(s: string) {
    s == [] || !IsDigit(s[|s| - 1])
  }

  function Zeros(k: nat): string {
    if k == 0 then "" else Zeros(k - 1) + ['0']
  }

  lemma {:induction false} ReadsZeros(prefix: string, k: nat)
    requires EndsInNonDigit(prefix)
    ensures TrailingNumber(prefix + Zeros(k)) == 0
  {
    if k == 0 {
      assert prefix + Zeros(0) == prefix;
    } else {
      var s := prefix + Zeros(k);
      assert s[..|s| - 1] == prefix + Zeros(k - 1);
      ReadsZeros(prefix, k - 1);
    }
  }

  lemma {:induction false} ReadsDecimal(prefix: string, k: nat, n: nat)
    requires EndsInNonDigit(prefix)
    ensures TrailingNumber(prefix + Zeros(k) + Decimal(n)) == n
  {
    var s := prefix + Zeros(k) + Decimal(n);
    if n < 10 {
      assert s[..|s| - 1] == prefix + Zeros(k);
      ReadsZeros(prefix, k);
    } else {
      assert s[..|s| - 1] == prefix + Zeros(k) + Decimal(n / 10);
      ReadsDecimal(prefix, k, n / 10);
    }
  }

  lemma {:induction false} ZerosShift(k: nat, s: string)
    ensures Zeros(k) + (['0'] + s) == Zeros(k + 1) + s
  {
    assert Zeros(k) + (['0'] + s) == Zeros(k) + ['0'] + s;
  }

  lemma {:induction false} PadStartIsZeros(s: string, width: nat)
    ensures PadStart(s, width) == Zeros(if |s| < width then width - |s| else 0) + s
    decreases width - |s|
  {
    if |s| < width {
      PadStartIsZeros(['0'] + s, width);
      ZerosShift(width - |s| - 1, s);
    }
  }

  /** Reading back a padded number gives the number, also when it is longer than the pad width. */
  lemma {:induction false} PadRoundTrip(prefix: string, width: nat, n: nat)
    requires EndsInNonDigit(prefix)
    ensures TrailingNumber(prefix + PadStart(Decimal(n), width)) == n
  {
    var s := Decimal(n);
    var k := if |s| < width then width - |s| else 0;
    PadStartIsZeros(s, width);
    assert prefix + PadStart(s, width) == prefix + Zeros(k) + s;
    ReadsDecimal(prefix, k, n);
  }

  lemma {:induction false} DecimalRoundTrip(prefix: string, n: nat)
    requires EndsInNonDigit(prefix)
    ensures TrailingNumber(prefix + Decimal(n)) == n
  {
    ReadsDecimal(prefix, 0, n);
    assert prefix + Zeros(0) + Decimal(n) == prefix + Decimal(n);
  }

  lemma {:induction false} InvoiceNumberRoundTrip(year: nat, count: nat)
    ensures TrailingNumber(InvoiceNumber(year, count)) == count
  {
    PadRoundTrip("INV-" + Decimal(year) + "-", 6, count);
  }

  lemma {:induction false} StudentCodeRoundTrip(count: nat)
    ensures TrailingNumber(StudentCode(count)) == count
  {
    PadRoundTrip("STU-", 5, count);
  }

  /** Two invoice numbers are equal only if they were drawn in the same year at the same row count. */
  lemma {:induction false} InvoiceNumberInjective(y1: nat, c1: nat, y2: nat, c2: nat)
    ensures InvoiceNumber(y1, c1) == InvoiceNumber(y2, c2) <==> y1 == y2 && c1 == c2
  {
    InvoiceNumberRoundTrip(y1, c1);
    InvoiceNumberRoundTrip(y2, c2);
    if InvoiceNumber(y1, c1) == InvoiceNumber(y2, c2) {
      var p1, p2 := "INV-" + Decimal(y1), "INV-" + Decimal(y2);
      var tail := "-" + PadStart(Decimal(c1), 6);
      assert InvoiceNumber(y1, c1) == p1 + tail && InvoiceNumber(y2, c2) == p2 + tail;
      assert |p1| == |p2|;
      assert p1 == (p1 + tail)[..|p1|] == (p2 + tail)[..|p2|] == p2;
      DecimalRoundTrip("INV-", y1);
      DecimalRoundTrip("INV-", y2);
    }
  }

  lemma {:induction false} StudentCodeInjective(c1: nat, c2: nat)
    ensures StudentCode(c1) == StudentCode(c2) <==> c1 == c2
  {
    StudentCodeRoundTrip(c1);
    StudentCodeRoundTrip(c2);
  }

  // ----- how the codes look -----

  lemma {:induction false} DecimalMeans(n: nat)
    ensures forall i :: 0 <= i < |Decimal(n)| ==> IsDigit(Decimal(n)[i])
    ensures Decimal(n)[0] == '0' <==> n == 0
    ensures |Decimal(n)| == 1 <==> n < 10
  {
    if n >= 10 {
      DecimalMeans(n / 10);
    }
  }

  /** Padding puts zeros in front up to the width. */
  lemma {:induction false} PadStartMeans(s: string, width: nat)
    ensures var k := if |s| < width then width - |s| else 0; var r := PadStart(s, width);
            && |r| == k + |s| && r[k..] == s && forall i :: 0 <= i < k ==> r[i] == '0'
    decreases width - |s|
  {
    if |s| < width {
      PadStartMeans(['0'] + s, width);
      var r, k := PadStart(s, width), width - |s|;
      assert r[k - 1..] == ['0'] + s;
      assert r[k - 1] == r[k - 1..][0] && r[k..] == r[k - 1..][1..];
    }
  }

  /** The first number of 2024 and the first student code. */
  lemma {:induction false} FirstCodes()
    ensures InvoiceNumber(2024, 1) == "INV-2024-000001" && StudentCode(1) == "STU-00001"
  {
    assert Decimal(2) == "2" && Decimal(20) == "20" && Decimal(202) == "202" && Decimal(2024) == "2024";
    assert Decimal(1) == "1";
    PadStartMeans("1", 6);
    PadStartMeans("1", 5);
    assert PadStart("1", 6) == PadStart("1", 6)[..5] + PadStart("1", 6)[5..] == "000001";
    assert PadStart("1", 5) == PadStart("1", 5)[..4] + PadStart("1", 5)[4..] == "00001";
  }
}

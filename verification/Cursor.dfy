/** The Last-Event-ID cursor: an unsigned decimal of any length. */
module Cursor {
  import opened Options

  datatype Result<T> = Ok(value: T) | InvalidLastEventId

  predicate IsDigit(c: char) {
    '0' <= c <= '9'
  }

  predicate AllDigits(s: string) {
    forall i :: 0 <= i < |s| ==> IsDigit(s[i])
  }

  function DigitValue(c: char): nat
    requires IsDigit(c)
  {
    (c - '0') as nat
  }

  function Power10(n: nat): nat {
    if n == 0 then 1 else 10 * Power10(n - 1)
  }

  /** The decimal value: the first digit weighs 10 to the number of digits after it. */
  function Decimal(s: string): nat
    requires AllDigits(s)
  {
    if s == "" then 0 else DigitValue(s[0]) * Power10(|s| - 1) + Decimal(s[1..])
  }

  lemma {:induction false} PowerSum(a: nat, b: nat)
    ensures Power10(a + b) == Power10(a) * Power10(b)
  {
    if a > 0 {
      PowerSum(a - 1, b);
      assert 10 * (Power10(a - 1) * Power10(b)) == (10 * Power10(a - 1)) * Power10(b);
    }
  }

  /** Splitting a numeral anywhere: shift the first part past the second and add. */
  lemma {:induction false} DecimalSplit(a: string, b: string)
    requires AllDigits(a) && AllDigits(b)
    ensures AllDigits(a + b) && Decimal(a + b) == Decimal(a) * Power10(|b|) + Decimal(b)
  {
    if a == "" {
      assert a + b == b;
    } else {
      assert (a + b)[1..] == a[1..] + b;
      DecimalSplit(a[1..], b);
      PowerSum(|a| - 1, |b|);
      ShiftDistributes(DigitValue(a[0]), Power10(|a| - 1), Power10(|b|), Decimal(a[1..]), Power10(|a| - 1 + |b|));
    }
  }

  lemma ShiftDistributes(d: nat, p: nat, q: nat, rest: nat, product: nat)
    requires product == p * q
    ensures (d * p + rest) * q == d * product + rest * q
  {
    assert d * (p * q) == (d * p) * q;
  }

  /** Parse the header: missing means 0, anything but ASCII digits is refused, and digits are
      converted in chunks so that no conversion limit applies. */
  method ParseInChunks(value: Option<string>, chunk: nat) returns (r: Result<nat>)
    requires chunk > 0
    ensures value.None? ==> r == Ok(0)
    ensures value.Some? ==> (r.Ok? <==> value.value != "" && AllDigits(value.value))
    ensures value.Some? && r.Ok? ==> r.value == Decimal(value.value)
  {
    if value.None? { return Ok(0); }
    var text := value.value;
    if text == "" || !AllDigits(text) { return InvalidLastEventId; }
    var cursor, offset := 0, 0;
    while offset < |text|
      invariant 0 <= offset <= |text|
      invariant cursor == Decimal(text[..offset])
    {
      var end := if offset + chunk < |text| then offset + chunk else |text|;
      var piece := text[offset..end];
      assert text[..end] == text[..offset] + piece;
      DecimalSplit(text[..offset], piece);
      cursor := cursor * Power10(|piece|) + Decimal(piece);
      offset := end;
    }
    assert text[..|text|] == text;
    return Ok(cursor);
  }

  /** The chunk size the server uses. */
  method ParseLastEventId(value: Option<string>) returns (r: Result<nat>)
    ensures value.None? ==> r == Ok(0)
    ensures value.Some? ==> (r.Ok? <==> value.value != "" && AllDigits(value.value))
    ensures value.Some? && r.Ok? ==> r.value == Decimal(value.value)
  {
    r := ParseInChunks(value, 500);
  }

  function DigitChar(d: nat): char
    requires d < 10
  {
    '0' + d as char
  }

  /** The canonical numeral, as `str` prints a sequence number. */
  function Printed(n: nat): (s: string)
    ensures s != "" && AllDigits(s)
  {
    if n < 10 then [DigitChar(n)] else Printed(n / 10) + [DigitChar(n % 10)]
  }

  /** Reading back a printed number gives the number. */
  lemma {:induction false} PrintedParses(n: nat)
    ensures Decimal(Printed(n)) == n
  {
    var last := [DigitChar(n % 10)];
    assert last[1..] == "" && Decimal(last) == DigitValue(last[0]) * Power10(0) + Decimal(last[1..]) == n % 10;
    if n >= 10 {
      PrintedParses(n / 10);
      DecimalSplit(Printed(n / 10), last);
      assert Power10(1) == 10 * Power10(0) == 10;
    }
  }

  /** Leading zeros do not change the cursor. */
  lemma {:induction false} LeadingZeros(zeros: nat, s: string)
    requires AllDigits(s)
    ensures var padded := seq(zeros, _ => '0') + s; AllDigits(padded) && Decimal(padded) == Decimal(s)
  {
    var padded := seq(zeros, _ => '0') + s;
    if zeros == 0 {
      assert padded == s;
    } else {
      assert padded[1..] == seq(zeros - 1, _ => '0') + s;
      LeadingZeros(zeros - 1, s);
    }
  }
}

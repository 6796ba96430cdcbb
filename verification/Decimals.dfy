/** Decimal numbers in requests and replies. */
module Decimals {
  import opened Base

  const ZERO: byte := 48
  const UINT64: nat := 0x1_0000_0000_0000_0000

  predicate IsDigit(c: byte) {
    48 <= c <= 57
  }

  predicate IsDecimal(text: Bytes) {
    text != [] && forall k :: 0 <= k < |text| ==> IsDigit(text[k])
  }

  function DigitValue(c: byte): nat
    requires IsDigit(c)
  {
    c as nat - 48
  }

  function Value(text: Bytes): nat
    requires forall k :: 0 <= k < |text| ==> IsDigit(text[k])
  {
    if text == [] then 0 else Value(text[..|text| - 1]) * 10 + DigitValue(text[|text| - 1])
  }

  /** The shortest decimal form. */
  function Digits(n: nat): (text: Bytes)
    ensures IsDecimal(text) && (text[0] == ZERO ==> n == 0 && |text| == 1)
  {
    if n < 10 then [(48 + n) as byte] else Digits(n / 10) + [(48 + n % 10) as byte]
  }

  lemma {:induction false} DigitsRead(n: nat)
    ensures Value(Digits(n)) == n
  {
    if n >= 10 {
      DigitsRead(n / 10);
      var text := Digits(n);
      assert text[..|text| - 1] == Digits(n / 10);
    }
  }

  function Power10(k: nat): nat {
    if k == 0 then 1 else 10 * Power10(k - 1)
  }

  lemma {:induction false} DigitsLength(n: nat, k: nat)
    requires k > 0 && n < Power10(k)
    ensures |Digits(n)| <= k
  {
    if n >= 10 {
      DigitsLength(n / 10, k - 1);
    }
  }

  lemma {:induction false} ValueGrows(text: Bytes, k: nat)
    requires k <= |text| && forall j :: 0 <= j < |text| ==> IsDigit(text[j])
    ensures Value(text[..k]) <= Value(text)
    decreases |text| - k
  {
    if k < |text| {
      ValueGrows(text, k + 1);
      assert text[..k + 1][..k] == text[..k];
    } else {
      assert text[..k] == text;
    }
  }

  /** The C library's conversion of a digit string: the value, or a range error above 64 bits. */
  method StrToULL(text: Bytes) returns (range: bool, value: nat)
    requires IsDecimal(text)
    ensures range <==> Value(text) >= UINT64
    ensures !range ==> value == Value(text)
  {
    value := 0;
    assert text[..0] == [];
    for i := 0 to |text|
      invariant value == Value(text[..i]) < UINT64
    {
      assert text[..i + 1][..i] == text[..i];
      var next := value * 10 + DigitValue(text[i]);
      if next >= UINT64 {
        ValueGrows(text, i + 1);
        return true, 0;
      }
      value := next;
    }
    assert text[..|text|] == text;
    range := false;
  }

  /** A request number, in either helper: digits only, and no more than `max`. */
  method Decimal(text: Bytes, max: nat) returns (ok: bool, value: nat)
    requires max < UINT64
    ensures ok <==> IsDecimal(text) && Value(text) <= max
    ensures ok ==> value == Value(text)
  {
    value := 0;
    if text == [] { return false, 0; }
    for i := 0 to |text|
      invariant forall k :: 0 <= k < i ==> IsDigit(text[k])
    {
      if text[i] < 48 || text[i] > 57 { return false, 0; }
    }
    var range;
    range, value := StrToULL(text);
    if range || value > max { return false, 0; }
    ok := true;
  }
}

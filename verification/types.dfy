/**
 * The shared semantic types: a section's validity flag, section ids, and the
 * generator of the grid's section ids `"1"`, `"2"`, ..., `"count"`.
 */
module Types {
  import opened Wrappers

  /** `"valid" | "invalid"`. */
  datatype Validity = Valid | Invalid

  type SectionId = string

  /** A `Record<SectionId, Validity>`. */
  type ValidityMap = map<SectionId, Validity>

  /** `m[id]` read from a plain object: `undefined` (None) when the key is absent. */
  function Lookup(m: ValidityMap, id: SectionId): (r: Option<Validity>)
    ensures r.Some? <==> id in m
    ensures r.Some? ==> r.value == m[id]
  {
    if id in m then Some(m[id]) else None
  }

  /** The character of a decimal digit. */
  function DigitChar(d: nat): char
    requires d < 10
  {
    (48 + d) as char
  }

  /** The numeric value of a digit character. */
  function DigitValue(c: char): int {
    c as int - 48
  }

  /** Every character is a decimal digit. */
  ghost predicate AllDigits(s: string) {
    forall i :: 0 <= i < |s| ==> '0' <= s[i] <= '9'
  }

  /** The form `String` gives a non-negative integer: at least one digit, and no leading zero unless it is "0". */
  ghost predicate Canonical(s: string) {
    |s| >= 1 && AllDigits(s) && (|s| > 1 ==> s[0] != '0')
  }

  /** `String(n)` for a non-negative integer: its decimal digits, most significant first. */
  function Decimal(n: nat): (s: string)
    ensures Canonical(s)
    ensures s[0] == '0' <==> n == 0
    decreases n
  {
    if n < 10 then [DigitChar(n)] else Decimal(n / 10) + [DigitChar(n % 10)]
  }

  /** Reads a string of digits back as a number, last digit least significant. */
  function DecimalValue(s: string): int
    decreases |s|
  {
    if s == [] then 0 else 10 * DecimalValue(s[..|s| - 1]) + DigitValue(s[|s| - 1])
  }

  /** Reading back the decimal string of `n` gives `n`. */
  lemma {:induction false} DecimalRoundTrip(n: nat)
    ensures DecimalValue(Decimal(n)) == n
  {
    if n >= 10 {
      var s := Decimal(n);
      assert s[..|s| - 1] == Decimal(n / 10);
      DecimalRoundTrip(n / 10);
    }
  }

  /** Distinct numbers have distinct decimal strings. */
  lemma DecimalInjective(a: nat, b: nat)
    ensures Decimal(a) == Decimal(b) ==> a == b
  {
    DecimalRoundTrip(a);
    DecimalRoundTrip(b);
  }

  /** A string of digits reads back as a non-negative number, at least 1 when it starts with a non-zero digit. */
  lemma {:induction false} DigitsValue(s: string)
    requires |s| >= 1 && AllDigits(s)
    ensures DecimalValue(s) >= 0
    ensures s[0] != '0' ==> DecimalValue(s) >= 1
    decreases |s|
  {
    if |s| > 1 {
      DigitsValue(s[..|s| - 1]);
    }
  }

  /** A canonical digit string is the decimal string of its own value: the other half of the round trip. */
  lemma {:induction false} CanonicalIsDecimal(s: string)
    requires Canonical(s)
    ensures DecimalValue(s) >= 0 && s == Decimal(DecimalValue(s))
    decreases |s|
  {
    DigitsValue(s);
    if |s| == 1 {
      assert DecimalValue(s) == DigitValue(s[0]);
    } else {
      var p := s[..|s| - 1];
      DigitsValue(p);
      assert p[0] == s[0];
      CanonicalIsDecimal(p);
      var n: nat := DecimalValue(s);
      assert n == 10 * DecimalValue(p) + DigitValue(s[|s| - 1]);
      assert n / 10 == DecimalValue(p) && n % 10 == DigitValue(s[|s| - 1]);
      assert s == p + [s[|s| - 1]];
    }
  }

  lemma DecimalRoundTripAll()
    ensures forall n: nat :: DecimalValue(Decimal(n)) == n
  {
    forall n: nat ensures DecimalValue(Decimal(n)) == n {
      DecimalRoundTrip(n);
    }
  }

  /**
   * `makeSectionIds(count)`: `Array.from({ length: count }, (_, i) => String(i + 1))`.
   * A negative length is clamped to 0 by `Array.from`.
   */
  function MakeSectionIds(count: int): (ids: seq<SectionId>)
    ensures |ids| == if count < 0 then 0 else count
    ensures forall i :: 0 <= i < |ids| ==> Canonical(ids[i]) && DecimalValue(ids[i]) == i + 1
    ensures forall i, j :: 0 <= i < j < |ids| ==> ids[i] != ids[j]
    ensures "0" !in ids
    ensures count >= 1 ==> ids[0] == "1"
  {
    DecimalRoundTripAll();
    assert DecimalValue("0") == 0;
    assert Decimal(1) == "1";
    seq(if count < 0 then 0 else count, i requires 0 <= i => Decimal(i + 1))
  }

  /**
   * Any id list meeting the contract of `MakeSectionIds` (element i a canonical
   * numeral reading as i + 1) is exactly the decimal strings of 1, 2, ...
   */
  lemma IdsFixedByContract(ids: seq<string>)
    requires forall i :: 0 <= i < |ids| ==> Canonical(ids[i]) && DecimalValue(ids[i]) == i + 1
    ensures forall i :: 0 <= i < |ids| ==> ids[i] == Decimal(i + 1)
  {
    forall i | 0 <= i < |ids|
      ensures ids[i] == Decimal(i + 1)
    {
      CanonicalIsDecimal(ids[i]);
    }
  }
}

/**
 * An immutable North-American phone number: range-checked parts, equality
 * and hash over the three parts, and the fixed "(AAA) YYY-ZZZZ" form.
 */
module PhoneNumbers {
  import opened Java

  const MAX_AREA_CODE: int32 := 999
  const MAX_PREFIX: int32 := 999
  const MAX_LINE_NUMBER: int32 := 9999

  /** The three stored parts; they are Java `short`s, and every accepted part fits one unchanged. */
  datatype PhoneParts = PhoneParts(areaCode: int32, prefix: int32, lineNumber: int32)

  /** `rangeCheck`: a part from 0 to `max`, both inclusive. */
  predicate InRange(arg: int32, max: int32)
  {
    0 <= arg <= max
  }

  /** The three parts a constructed number can hold. */
  predicate ValidParts(areaCode: int32, prefix: int32, lineNumber: int32)
  {
    InRange(areaCode, MAX_AREA_CODE) && InRange(prefix, MAX_PREFIX) && InRange(lineNumber, MAX_LINE_NUMBER)
  }

  /** A phone number object: only the constructor makes them, so its parts are always in range. */
  type PhoneNumber = pn: PhoneParts | ValidParts(pn.areaCode, pn.prefix, pn.lineNumber)
    witness PhoneParts(0, 0, 0)

  /**
   * The constructor: any part out of range throws `IllegalArgumentException`
   * (0 is accepted); otherwise the getters return exactly the arguments.
   */
  function NewPhoneNumber(areaCode: int32, prefix: int32, lineNumber: int32): (r: Result<PhoneNumber>)
    ensures r.Ok? <==> ValidParts(areaCode, prefix, lineNumber)
    ensures !r.Ok? ==> r == Throws(IllegalArgument)
    ensures r.Ok? ==> r.value.areaCode == areaCode && r.value.prefix == prefix && r.value.lineNumber == lineNumber
  {
    if !InRange(areaCode, MAX_AREA_CODE) then Throws(IllegalArgument)
    else if !InRange(prefix, MAX_PREFIX) then Throws(IllegalArgument)
    else if !InRange(lineNumber, MAX_LINE_NUMBER) then Throws(IllegalArgument)
    else Ok(PhoneParts(areaCode, prefix, lineNumber))
  }

  /** `equals`: another phone number with the same three parts. */
  predicate Equals(pn: PhoneNumber, o: Obj<PhoneNumber>)
  {
    o.Instance? && o.value.lineNumber == pn.lineNumber && o.value.prefix == pn.prefix && o.value.areaCode == pn.areaCode
  }

  /** Equality of phone numbers is exactly equality of their parts. */
  lemma EqualsIffSameParts(a: PhoneNumber, b: PhoneNumber)
    ensures Equals(a, Instance(b)) <==> a == b
    ensures Equals(a, Instance(b)) == Equals(b, Instance(a))
    ensures !Equals(a, Foreign) && !Equals(a, Null)
  {
  }

  /** `hashCode`: 17, then `31 * h + part` for area code, prefix and line number. */
  function HashCode(pn: PhoneNumber): int32
  {
    HashStep(HashStep(HashStep(17, pn.areaCode), pn.prefix), pn.lineNumber)
  }

  /** No step wraps, so the hash is the exact polynomial. */
  lemma HashIsPolynomial(pn: PhoneNumber)
    ensures HashCode(pn) as int == ((17 * 31 + pn.areaCode as int) * 31 + pn.prefix as int) * 31 + pn.lineNumber as int
  {
    var h1 := HashStep(17, pn.areaCode);
    assert h1 as int == 17 * 31 + pn.areaCode as int;
    var h2 := HashStep(h1, pn.prefix);
    assert h2 as int == h1 as int * 31 + pn.prefix as int;
  }

  /** Equal numbers hash equally. */
  lemma HashConsistent(a: PhoneNumber, b: PhoneNumber)
    requires Equals(a, Instance(b))
    ensures HashCode(a) == HashCode(b)
  {
  }

  /** 10^n. */
  function Pow10(n: nat): (p: nat)
    ensures p >= 1
  {
    if n == 0 then 1 else 10 * Pow10(n - 1)
  }

  /** The decimal digit for 0..9. */
  function DigitChar(d: nat): char
    requires d < 10
  {
    ('0' as int + d) as char
  }

  /** `%0<width>d` for a number with at most `width` digits: zero-padded to exactly `width` digits. */
  function ZeroPadded(n: nat, width: nat): (s: string)
    requires n < Pow10(width)
    ensures |s| == width
    ensures forall i :: 0 <= i < |s| ==> '0' <= s[i] <= '9'
  {
    if width == 0 then [] else ZeroPadded(n / 10, width - 1) + [DigitChar(n % 10)]
  }

  /** Reads a string of decimal digits as a number. */
  function DigitsValue(s: string): nat
    requires forall i :: 0 <= i < |s| ==> '0' <= s[i] <= '9'
  {
    if s == [] then 0 else 10 * DigitsValue(s[..|s| - 1]) + (s[|s| - 1] as int - '0' as int)
  }

  /** Reading the padded digits back gives the number. */
  lemma {:induction false} ZeroPaddedValue(n: nat, width: nat)
    requires n < Pow10(width)
    ensures DigitsValue(ZeroPadded(n, width)) == n
  {
    if width > 0 {
      var s := ZeroPadded(n, width);
      assert s[..|s| - 1] == ZeroPadded(n / 10, width - 1);
      ZeroPaddedValue(n / 10, width - 1);
    }
  }

  /** `toString`: "(AAA) YYY-ZZZZ", each part zero-padded. */
  function ToString(pn: PhoneNumber): string
  {
    "(" + ZeroPadded(pn.areaCode as nat, 3) + ") " + ZeroPadded(pn.prefix as nat, 3) + "-" + ZeroPadded(pn.lineNumber as nat, 4)
  }

  /**
   * The string form has fourteen characters, with
   * the punctuation in place and digits everywhere else, and reading the
   * three digit groups back gives the three parts.
   */
  lemma {:induction false} ToStringReadsBack(pn: PhoneNumber)
    ensures var s := ToString(pn);
      && |s| == 14 && s[0] == '(' && s[4] == ')' && s[5] == ' ' && s[9] == '-'
      && DigitsValue(s[1..4]) == pn.areaCode as int
      && DigitsValue(s[6..9]) == pn.prefix as int
      && DigitsValue(s[10..14]) == pn.lineNumber as int
  {
    var s := ToString(pn);
    var a := ZeroPadded(pn.areaCode as nat, 3);
    var p := ZeroPadded(pn.prefix as nat, 3);
    var l := ZeroPadded(pn.lineNumber as nat, 4);
    assert s == "(" + a + ") " + p + "-" + l;
    assert s[1..4] == a;
    assert s[6..9] == p;
    assert s[10..14] == l;
    ZeroPaddedValue(pn.areaCode as nat, 3);
    ZeroPaddedValue(pn.prefix as nat, 3);
    ZeroPaddedValue(pn.lineNumber as nat, 4);
  }

  /** Distinct numbers print differently. */
  lemma ToStringInjective(a: PhoneNumber, b: PhoneNumber)
    requires ToString(a) == ToString(b)
    ensures a == b
  {
    ToStringReadsBack(a);
    ToStringReadsBack(b);
  }
}

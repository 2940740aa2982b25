/** The parts of Go's `strings` and `strconv` packages that the modelled code uses. */
module Text {
  import opened Wrappers
  import Numerals

  // ---------------------------------------------------------------------------------------------------------------
  // strings.TrimSpace

  /** Unicode white space, as `unicode.IsSpace` has it. */
  predicate IsSpace(c: char) {
    var n := c as int;
    || 9 <= n <= 13 || n == 32 || n == 0x85 || n == 0xA0 || n == 0x1680 || 0x2000 <= n <= 0x200A
    || n == 0x2028 || n == 0x2029 || n == 0x202F || n == 0x205F || n == 0x3000
  }

  function TrimLeft(s: string): string {
    if s != [] && IsSpace(s[0]) then TrimLeft(s[1..]) else s
  }

  function TrimRight(s: string): string {
    if s != [] && IsSpace(s[|s| - 1]) then TrimRight(s[..|s| - 1]) else s
  }

  function TrimSpace(s: string): string {
    TrimRight(TrimLeft(s))
  }

  /** Text whose first and last characters are not white space is left alone. */
  lemma TrimKeeps(s: string)
    requires s != [] ==> !IsSpace(s[0]) && !IsSpace(s[|s| - 1])
    ensures TrimSpace(s) == s
  {
  }

  // ---------------------------------------------------------------------------------------------------------------
  // strings.TrimPrefix

  function TrimPrefix(s: string, prefix: string): string {
    if prefix <= s then s[|prefix|..] else s
  }

  // ---------------------------------------------------------------------------------------------------------------
  // strconv, base 10

  function DecimalDigit(d: nat): char
    requires d < 10
  {
    '0' + d as char
  }

  predicate IsDecimal(c: char) {
    '0' <= c <= '9'
  }

  function DecimalValue(c: char): nat
    requires IsDecimal(c)
  {
    c as int - '0' as int
  }

  function DecimalText(ds: seq<nat>): (s: string)
    requires Numerals.Below(ds, 10)
    ensures |s| == |ds|
  {
    seq(|ds|, i requires 0 <= i < |ds| => DecimalDigit(ds[i]))
  }

  function DecimalDigits(s: string): (ds: seq<nat>)
    requires forall i :: 0 <= i < |s| ==> IsDecimal(s[i])
    ensures |ds| == |s|
  {
    seq(|s|, i requires 0 <= i < |s| => DecimalValue(s[i]))
  }

  /** `strconv.Itoa` */
  function Itoa(n: int): string {
    if n == 0 then "0"
    else if n > 0 then DecimalText(Numerals.Digits(n, 10))
    else "-" + DecimalText(Numerals.Digits(-n, 10))
  }

  /** `strconv.ParseUint(s, 10, bits)`, where `limit` is two to the power of `bits`. */
  function ParseDecimal(s: string, limit: nat): Option<nat> {
    if s == [] || exists i :: 0 <= i < |s| && !IsDecimal(s[i]) then None
    else
      var n := Numerals.Value(DecimalDigits(s), 10);
      if n < limit then Some(n) else None
  }

  /** Printing a number and parsing it back. */
  lemma ParseItoa(n: nat, limit: nat)
    requires n < limit
    ensures ParseDecimal(Itoa(n), limit) == Some(n)
  {
    if n == 0 {
      assert DecimalDigits("0") == [0];
      assert Numerals.Value([0], 10) == 0;
    } else {
      var ds := Numerals.Digits(n, 10);
      assert DecimalDigits(DecimalText(ds)) == ds;
      Numerals.ValueOfDigits(n, 10);
    }
  }
}

/** Hexadecimal text: digits, 32-byte words and byte strings (Go's `strconv`, `math/big` and `encoding/hex`). */
module Hex {
  import opened Wrappers
  import opened Numerals

  type byte = n: nat | n < 256

  const UINT8: nat := 0x100
  const UINT32: nat := 0x1_0000_0000
  const UINT64: nat := 0x1_0000_0000_0000_0000
  const UINT160: nat := 0x1_0000_0000_0000_0000_0000_0000_0000_0000_0000_0000
  const UINT256: nat := 0x1_0000_0000_0000_0000_0000_0000_0000_0000_0000_0000_0000_0000_0000_0000_0000_0000

  predicate IsHex(c: char) {
    '0' <= c <= '9' || 'a' <= c <= 'f' || 'A' <= c <= 'F'
  }

  function HexValue(c: char): (d: nat)
    requires IsHex(c)
    ensures d < 16
  {
    if c <= '9' then c as int - '0' as int
    else if c <= 'F' then c as int - 'A' as int + 10
    else c as int - 'a' as int + 10
  }

  function HexDigit(d: nat): (c: char)
    requires d < 16
    ensures IsHex(c) && HexValue(c) == d && (c == '0' <==> d == 0) && c != 'x'
  {
    if d < 10 then '0' + d as char else 'a' + (d - 10) as char
  }

  /** Numbers are printed with small letters. */
  lemma SmallLetters(d: nat)
    requires d < 16
    ensures '0' <= HexDigit(d) <= '9' || 'a' <= HexDigit(d) <= 'f'
  {
  }

  predicate AllHex(s: string) {
    forall i :: 0 <= i < |s| ==> IsHex(s[i])
  }

  function HexText(ds: seq<nat>): (s: string)
    requires Below(ds, 16)
    ensures |s| == |ds| && AllHex(s)
    ensures forall i :: 0 <= i < |s| ==> s[i] == HexDigit(ds[i])
  {
    seq(|ds|, i requires 0 <= i < |ds| => HexDigit(ds[i]))
  }

  function HexDigits(s: string): (ds: seq<nat>)
    requires AllHex(s)
    ensures |ds| == |s| && Below(ds, 16)
    ensures forall i :: 0 <= i < |s| ==> ds[i] == HexValue(s[i])
  {
    seq(|s|, i requires 0 <= i < |s| => HexValue(s[i]))
  }

  /** The number written in hexadecimal, if the text is hexadecimal at all. */
  function HexNumber(s: string): Option<nat> {
    if s == [] || !AllHex(s) then None else Some(Value(HexDigits(s), 16))
  }

  /** `strconv.ParseUint(s, 16, bits)`, where `limit` is two to the power of `bits`. */
  function ParseHex(s: string, limit: nat): Option<nat> {
    var n := HexNumber(s);
    if n.Some? && n.value < limit then n else None
  }

  /** `big.Int.SetString(s, 16)`, which also takes a sign; nothing is promised of the value when it fails. */
  function SignedHex(s: string): Option<int> {
    if s == [] then None
    else
      match HexNumber(if s[0] == '-' || s[0] == '+' then s[1..] else s)
      case None => None
      case Some(n) =>
        var value: int := n;
        Some(if s[0] == '-' then -value else value)
  }

  /** n in exactly w lower-case hexadecimal digits, as `%0<w>x` prints it. */
  function Fixed(n: nat, w: nat): (s: string)
    ensures |s| == w && AllHex(s)
  {
    HexText(Padded(n, 16, w))
  }

  lemma NumberOfFixed(n: nat, w: nat)
    requires w > 0 && n < Pow(16, w)
    ensures HexNumber(Fixed(n, w)) == Some(n)
  {
    assert HexDigits(Fixed(n, w)) == Padded(n, 16, w);
    ValueOfPadded(n, 16, w);
  }

  lemma FixedLow(n: nat, w: nat, k: nat)
    requires k <= w
    ensures Fixed(n, w)[k..] == Fixed(n, w - k)
  {
    PaddedLow(n, 16, w, k);
  }

  predicate ZeroText(s: string) {
    forall i :: 0 <= i < |s| ==> s[i] == '0'
  }

  lemma ZeroFixed(n: nat, w: nat)
    requires n < Pow(16, w)
    ensures ZeroText(Fixed(n, w)) <==> n == 0
  {
    ZeroNumeral(n, 16, w);
    var ds := Padded(n, 16, w);
    if AllZero(ds) {
      assert ZeroText(Fixed(n, w));
    }
    if ZeroText(Fixed(n, w)) {
      assert forall i :: 0 <= i < w ==> Fixed(n, w)[i] == HexDigit(ds[i]);
    }
  }

  // ---------------------------------------------------------------------------------------------------------------
  // encoding/hex

  function HexEncode(bs: seq<byte>): (s: string)
    ensures |s| == 2 * |bs| && AllHex(s)
  {
    if bs == [] then [] else [HexDigit(bs[0] / 16), HexDigit(bs[0] % 16)] + HexEncode(bs[1..])
  }

  function HexDecode(s: string): (bs: Option<seq<byte>>)
    ensures bs.Some? ==> 2 * |bs.value| == |s|
  {
    if s == [] then Some([])
    else if |s| == 1 || !IsHex(s[0]) || !IsHex(s[1]) then None
    else
      var rest := HexDecode(s[2..]);
      if rest.None? then None else Some([16 * HexValue(s[0]) + HexValue(s[1])] + rest.value)
  }

  lemma {:induction false} DecodeOfEncode(bs: seq<byte>)
    ensures HexDecode(HexEncode(bs)) == Some(bs)
  {
    if bs != [] {
      DecodeOfEncode(bs[1..]);
      assert HexEncode(bs)[2..] == HexEncode(bs[1..]);
      assert [bs[0]] + bs[1..] == bs;
    }
  }

  lemma Limits()
    ensures Pow(16, 8) == UINT32 && Pow(16, 40) == UINT160 && Pow(16, 64) == UINT256
  {
    PowAdd(16, 8, 8);
    PowAdd(16, 16, 16);
    PowAdd(16, 32, 8);
    PowAdd(16, 32, 32);
  }

  /** The same facts for the three widths of the contract's words: whole words, addresses and uint32. */
  lemma NumberOfWord(n: nat)
    requires n < UINT256
    ensures HexNumber(Fixed(n, 64)) == Some(n)
    ensures ZeroText(Fixed(n, 64)) <==> n == 0
  {
    Limits();
    NumberOfFixed(n, 64);
    ZeroFixed(n, 64);
  }

  lemma NumberOfUint32(n: nat)
    requires n < UINT32
    ensures HexNumber(Fixed(n, 8)) == Some(n)
  {
    Limits();
    NumberOfFixed(n, 8);
  }

  lemma ZeroAddress(n: nat)
    requires n < UINT160
    ensures ZeroText(Fixed(n, 40)) <==> n == 0
  {
    Limits();
    ZeroFixed(n, 40);
  }
}

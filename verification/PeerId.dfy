/** Base58 text in the Bitcoin alphabet: one '1' per leading zero byte, then the number in base 58. */
module Base58 {
  import opened Wrappers
  import opened Numerals
  import opened Hex

  predicate IsDigit(c: char) {
    || '1' <= c <= '9' || 'A' <= c <= 'H' || 'J' <= c <= 'N' || 'P' <= c <= 'Z' || 'a' <= c <= 'k' || 'm' <= c <= 'z'
  }

  function DigitValue(c: char): (d: nat)
    requires IsDigit(c)
    ensures d < 58
  {
    if c <= '9' then c as int - '1' as int
    else if c <= 'H' then c as int - 'A' as int + 9
    else if c <= 'N' then c as int - 'J' as int + 17
    else if c <= 'Z' then c as int - 'P' as int + 22
    else if c <= 'k' then c as int - 'a' as int + 33
    else c as int - 'm' as int + 44
  }

  function Digit(d: nat): (c: char)
    requires d < 58
    ensures IsDigit(c) && DigitValue(c) == d && (c == '1' <==> d == 0)
  {
    if d < 9 then '1' + d as char
    else if d < 17 then 'A' + (d - 9) as char
    else if d < 22 then 'J' + (d - 17) as char
    else if d < 33 then 'P' + (d - 22) as char
    else if d < 44 then 'a' + (d - 33) as char
    else 'm' + (d - 44) as char
  }

  /** The alphabet is the letters and digits without 0, I, O and l, in the order of their codes. */
  lemma Alphabet(c: char, d: nat, e: nat)
    requires d < e < 58
    ensures IsDigit(c) <==>
              ('0' <= c <= '9' || 'A' <= c <= 'Z' || 'a' <= c <= 'z') && c !in {'0', 'I', 'O', 'l'}
    ensures Digit(d) < Digit(e)
  {
  }

  predicate AllDigits(s: string) {
    forall i :: 0 <= i < |s| ==> IsDigit(s[i])
  }

  function ToText(ds: seq<nat>): (s: string)
    requires Below(ds, 58)
    ensures |s| == |ds| && forall i :: 0 <= i < |s| ==> s[i] == Digit(ds[i])
  {
    seq(|ds|, i requires 0 <= i < |ds| => Digit(ds[i]))
  }

  function FromText(s: string): (ds: seq<nat>)
    requires AllDigits(s)
    ensures |ds| == |s| && forall i :: 0 <= i < |s| ==> ds[i] == DigitValue(s[i])
  {
    seq(|s|, i requires 0 <= i < |s| => DigitValue(s[i]))
  }

  /** How many times x is repeated at the start of s. */
  function Leading<T(==)>(s: seq<T>, x: T): (n: nat)
    ensures n <= |s| && (forall i :: 0 <= i < n ==> s[i] == x) && (n < |s| ==> s[n] != x)
  {
    if s != [] && s[0] == x then 1 + Leading(s[1..], x) else 0
  }

  function Repeat<T>(x: T, n: nat): (s: seq<T>)
    ensures |s| == n && forall i :: 0 <= i < n ==> s[i] == x
  {
    seq(n, i => x)
  }

  function Encode(bs: seq<byte>): string {
    var zeros := Leading<byte>(bs, 0);
    Repeat('1', zeros) + ToText(Digits(Value(bs[zeros..], 256), 58))
  }

  function Decode(s: string): Option<seq<byte>> {
    if s == [] || !AllDigits(s) then None
    else
      var ones := Leading(s, '1');
      Some(Repeat<byte>(0, ones) + Digits(Value(FromText(s[ones..]), 58), 256))
  }

  lemma {:induction false} LeadingOf<T>(x: T, n: nat, rest: seq<T>)
    requires rest != [] ==> rest[0] != x
    ensures Leading(Repeat(x, n) + rest, x) == n
  {
    if n > 0 {
      LeadingOf(x, n - 1, rest);
      assert (Repeat(x, n) + rest)[1..] == Repeat(x, n - 1) + rest;
    } else {
      assert Repeat(x, 0) + rest == rest;
    }
  }

  /** The text of a numeral after some '1's is split back into the same parts. */
  lemma TextRoundTrip(ones: nat, ds: seq<nat>)
    requires Below(ds, 58) && (ds != [] ==> ds[0] != 0)
    ensures var s := Repeat('1', ones) + ToText(ds);
            AllDigits(s) && Leading(s, '1') == ones && FromText(s[ones..]) == ds
  {
    var s := Repeat('1', ones) + ToText(ds);
    LeadingOf('1', ones, ToText(ds));
    assert s[ones..] == ToText(ds);
  }

  lemma DecodeNumeral(ones: nat, ds: seq<nat>)
    requires Below(ds, 58) && (ds != [] ==> ds[0] != 0) && (ones > 0 || ds != [])
    ensures Decode(Repeat('1', ones) + ToText(ds)) == Some(Repeat<byte>(0, ones) + Digits(Value(ds, 58), 256))
  {
    TextRoundTrip(ones, ds);
  }

  lemma NonZeroDigits(n: nat)
    requires n > 0
    ensures Digits(n, 58) != []
  {
  }

  /** Decoding inverts encoding on every non-empty byte string. */
  lemma RoundTrip(bs: seq<byte>)
    requires bs != []
    ensures Decode(Encode(bs)) == Some(bs)
  {
    var zeros := Leading<byte>(bs, 0);
    var rest := bs[zeros..];
    DigitsOfValue(rest, 256);
    var n := Value(rest, 256);
    if n > 0 { NonZeroDigits(n); }
    ValueOfDigits(n, 58);
    DecodeNumeral(zeros, Digits(n, 58));
    assert Encode(bs) == Repeat('1', zeros) + ToText(Digits(n, 58));
    assert Repeat<byte>(0, zeros) + rest == bs;
  }
}

/**
 * Conversion between libp2p peer ids and the bytes32 form kept by the pool contract
 * (`blockchain/peerid_utils.go`): a peer id is the base58 text of the identity multihash of an Ed25519 public key.
 */
module PeerId {
  import opened Wrappers
  import opened Numerals
  import opened Hex
  import opened Text
  import Base58

  /** The five bytes compared by the decoder, and the six written by the encoder, before the 32-byte key. */
  const HEADER: seq<byte> := [0x00, 0x24, 0x08, 0x01, 0x12]
  const PREFIX: seq<byte> := HEADER + [0x20]

  type Key = k: seq<byte> | |k| == 32 witness seq(32, i => 0)

  /** The peer id of a key, and its bytes32 text. */
  function IdOf(key: Key): string { Base58.Encode(PREFIX + key) }

  function Bytes32Of(key: Key): string { "0x" + HexEncode(key) }

  /** bytes32ToPeerId */
  function FromBytes32(digest: string): Option<string> {
    var key := HexDecode(TrimPrefix(digest, "0x"));
    if key.None? || |key.value| != 32 then None else Some(IdOf(key.value))
  }

  /** The 32 bytes taken from a decoded peer id, by the current or by the legacy layout. */
  function Extract(decoded: seq<byte>): Option<Key> {
    if HEADER <= decoded && |decoded| >= 37 then Some(decoded[|decoded| - 32..])
    else if |decoded| == 34 && decoded[0] == 0x12 && decoded[1] == 0x20 then Some(decoded[2..])
    else None
  }

  function WithoutZ(id: string): string { TrimPrefix(id, "z") }

  /** peerIdToBytes32 */
  function ToBytes32(id: string): Option<string> {
    var body := WithoutZ(id);
    var decoded := Base58.Decode(body);
    if decoded.None? then None
    else
      var key := Extract(decoded.value);
      if key.None? then None
      else
        var result := Bytes32Of(key.value);
        var back := FromBytes32(result);
        if back == Some(body) then Some(result) else None
  }

  method HasHeader(decoded: seq<byte>) returns (has: bool)
    ensures has <==> HEADER <= decoded
  {
    has := |decoded| >= |HEADER|;
    if has {
      for i := 0 to |HEADER|
        invariant HEADER[..i] == decoded[..i]
      {
        if decoded[i] != HEADER[i] {
          return false;
        }
      }
    }
  }

  method ExtractKey(decoded: seq<byte>) returns (key: Option<Key>)
    ensures key == Extract(decoded)
  {
    var isCIDv1 := HasHeader(decoded);
    if isCIDv1 && |decoded| >= 37 {
      key := Some(decoded[|decoded| - 32..]);
    } else if |decoded| == 34 && decoded[0] == 0x12 && decoded[1] == 0x20 {
      key := Some(decoded[2..]);
    } else {
      key := None;
    }
  }

  method PeerIdToBytes32(peerID: string) returns (r: Option<string>)
    ensures r == ToBytes32(peerID)
  {
    var id := peerID;
    if !("z" <= id) {
      id := "z" + id;
    }
    assert id[1..] == WithoutZ(peerID);
    var decoded := Base58.Decode(id[1..]);
    if decoded.None? {
      return None;
    }
    var extracted := ExtractKey(decoded.value);
    if extracted.None? {
      return None;
    }
    var key := extracted.value;
    var result := "0x" + HexEncode(key);
    var reconstructed := FromBytes32(result);
    if reconstructed != Some(TrimPrefix(id, "z")) {
      return None;
    }
    r := Some(result);
  }

  /** bytes32ToPeerId inverts the bytes32 text of every key. */
  lemma FromBytes32OfKey(key: Key)
    ensures FromBytes32(Bytes32Of(key)) == Some(IdOf(key))
  {
    assert TrimPrefix(Bytes32Of(key), "0x") == HexEncode(key);
    DecodeOfEncode(key);
  }

  /** Peer ids start with '1', so the multibase prefix 'z' is never part of one. */
  lemma IdStartsWithOne(key: Key)
    ensures IdOf(key) != [] && IdOf(key)[0] == '1'
    ensures WithoutZ(IdOf(key)) == WithoutZ("z" + IdOf(key)) == IdOf(key)
  {
    var bs := PREFIX + key;
    assert bs[0] == 0;
    assert Base58.Leading<byte>(bs, 0) >= 1;
  }

  lemma ExtractOfId(key: Key)
    ensures Base58.Decode(IdOf(key)) == Some(PREFIX + key) && Extract(PREFIX + key) == Some(key)
  {
    Base58.RoundTrip(PREFIX + key);
    assert PREFIX + key == HEADER + ([0x20] + key);
    assert (PREFIX + key)[6..] == key;
  }

  /** peerIdToBytes32 inverts bytes32ToPeerId on every 32-byte value, with or without the multibase prefix. */
  lemma InvertsFromBytes32(key: Key)
    ensures ToBytes32(IdOf(key)) == Some(Bytes32Of(key))
    ensures ToBytes32("z" + IdOf(key)) == Some(Bytes32Of(key))
  {
    IdStartsWithOne(key);
    ExtractOfId(key);
    FromBytes32OfKey(key);
  }

  /**
   * peerIdToBytes32 succeeds on exactly the ids of Ed25519 keys, optionally prefixed with z, and returns that key:
   * whatever its looser length and header tests let through is caught by the reversible check.
   */
  lemma SucceedsExactlyOnKeyIds(id: string)
    ensures ToBytes32(id).Some? <==> exists key: Key :: WithoutZ(id) == IdOf(key)
    ensures forall key: Key :: WithoutZ(id) == IdOf(key) ==> ToBytes32(id) == Some(Bytes32Of(key))
  {
    if ToBytes32(id).Some? {
      var key := Extract(Base58.Decode(WithoutZ(id)).value).value;
      FromBytes32OfKey(key);
      assert WithoutZ(id) == IdOf(key);
    }
    forall key: Key | WithoutZ(id) == IdOf(key) ensures ToBytes32(id) == Some(Bytes32Of(key)) {
      ExtractOfId(key);
      FromBytes32OfKey(key);
    }
  }

  /** A successful conversion is undone by bytes32ToPeerId. */
  lemma SuccessIsReversible(id: string)
    requires ToBytes32(id).Some?
    ensures FromBytes32(ToBytes32(id).value) == Some(WithoutZ(id))
  {
  }

  /** Two ids with the same bytes32 differ at most in the leading z. */
  lemma Injective(a: string, b: string)
    requires ToBytes32(a).Some? && ToBytes32(a) == ToBytes32(b)
    ensures WithoutZ(a) == WithoutZ(b)
  {
    SuccessIsReversible(a);
    SuccessIsReversible(b);
  }

  /** The legacy branch is dead: an id that decodes to a 34-byte multihash is never accepted. */
  lemma LegacyNeverSucceeds(id: string)
    requires Base58.Decode(WithoutZ(id)).Some? && |Base58.Decode(WithoutZ(id)).value| == 34
    ensures ToBytes32(id) == None
  {
    if ToBytes32(id).Some? {
      SucceedsExactlyOnKeyIds(id);
      var key: Key :| WithoutZ(id) == IdOf(key);
      ExtractOfId(key);
    }
  }

  // ---------------------------------------------------------------------------------------------------------------
  // What peer ids look like

  lemma Powers()
    ensures Pow(256, 32) == UINT256
    ensures Pow(58, 44) == 0x3_5dc5_d77b_83d0_7b8f_eef1_8a81_bd06_d803_b1ab_9dcf_25b6_a6ae_d55f_1000_0000_0000
  {
    assert Pow(256, 8) == UINT64;
    PowAdd(256, 8, 8);
    PowAdd(256, 16, 16);
    assert Pow(58, 11) == 0x1_5ac2_6455_4f03_2800;
    PowAdd(58, 11, 11);
    PowAdd(58, 22, 22);
  }

  /** The number that the bytes after the first zero stand for, cut after seven base-58 digits. */
  lemma HighDigits(key: Key) returns (low: nat)
    ensures low < Pow(58, 44)
    ensures Value(PREFIX[1..] + key, 256) == 45971276209 * Pow(58, 44) + low
  {
    ValueJoin(PREFIX[1..], key, 256);
    ValueBound(key, 256);
    Powers();
    assert PREFIX[1..] == [0x24, 0x08, 0x01, 0x12, 0x20];
    assert Value(PREFIX[1..], 256) == 0x24_0801_1220 by { FiveBytes(0x24, 0x08, 0x01, 0x12, 0x20); }
    low := Value(PREFIX[1..] + key, 256) - 45971276209 * Pow(58, 44);
  }

  lemma FiveBytes(a: nat, b: nat, c: nat, d: nat, e: nat)
    ensures Value([a, b, c, d, e], 256) == (((a * 256 + b) * 256 + c) * 256 + d) * 256 + e
  {
    ValueSnoc([], a, 256);
    ValueSnoc([a], b, 256);
    ValueSnoc([a, b], c, 256);
    ValueSnoc([a, b, c], d, 256);
    ValueSnoc([a, b, c, d], e, 256);
    assert [] + [a] == [a] && [a] + [b] == [a, b] && [a, b] + [c] == [a, b, c];
    assert [a, b, c] + [d] == [a, b, c, d] && [a, b, c, d] + [e] == [a, b, c, d, e];
  }

  lemma SevenDigits()
    ensures Digits(45971276209, 58) == [1, 12, 2, 18, 46, 46, 29]
  {
  }

  /** An id is one '1', then the base-58 number of the bytes after the zero. */
  lemma IdText(key: Key)
    ensures IdOf(key) == "1" + Base58.ToText(Digits(Value(PREFIX[1..] + key, 256), 58))
  {
    var bytes := PREFIX + key;
    assert bytes[0] == 0 && bytes[1] == 0x24;
    Base58.LeadingOf<byte>(0, 1, bytes[1..]);
    assert Base58.Repeat<byte>(0, 1) + bytes[1..] == bytes;
    assert bytes[1..] == PREFIX[1..] + key;
    assert Base58.Repeat('1', 1) == "1";
  }

  lemma StartOfText(ds: seq<nat>)
    requires Below(ds, 58) && |ds| >= 7 && ds[..7] == [1, 12, 2, 18, 46, 46, 29]
    ensures "12D3KooW" <= "1" + Base58.ToText(ds)
  {
    var text := "1" + Base58.ToText(ds);
    assert ds[0] == 1 && ds[1] == 12 && ds[2] == 2 && ds[3] == 18 && ds[4] == 46 && ds[5] == 46 && ds[6] == 29 by {
      assert forall i :: 0 <= i < 7 ==> ds[i] == ds[..7][i];
    }
    assert text[..8] == "12D3KooW";
  }

  /** The id of a key is the text of its identity multihash. */
  lemma IdIsMultihash(key: Key)
    ensures Base58.Decode(IdOf(key)) == Some([0x00, 0x24, 0x08, 0x01, 0x12, 0x20] + key)
  {
    Base58.RoundTrip(PREFIX + key);
    assert PREFIX == [0x00, 0x24, 0x08, 0x01, 0x12, 0x20];
  }

  /** The id of every key starts the way ids of Ed25519 keys do. */
  lemma IdStarts(key: Key)
    ensures "12D3KooW" <= IdOf(key)
  {
    IdText(key);
    var low := HighDigits(key);
    DigitsJoin(45971276209, low, 58, 44);
    SevenDigits();
    StartOfText(Digits(Value(PREFIX[1..] + key, 256), 58));
  }
}

/**
 * The contract codec of `blockchain/abi/contract.go`, against a reference encoder written from the Ethereum Contract
 * ABI Specification, section "Formal Specification of the Encoding" (32-byte words, head/tail layout, byte strings
 * padded on the right).
 */
module Abi {
  import opened Wrappers
  import opened Numerals
  import opened Hex
  import opened Text

  /** `Panic` is a Go run-time panic (a slice bound out of range), as opposed to a returned error. */
  datatype Result<+T> = Ok(value: T) | Err | Panic

  // ---------------------------------------------------------------------------------------------------------------
  // Calls

  const POOLS := "0xced08b2d"
  const POOL_IDS := "0x69883b4e"
  const IS_PEER_ID_MEMBER_OF_POOL := "0xb098a605"
  const REMOVE_MEMBER_PEER_ID := "0x3d71233a"
  const JOIN_REQUESTS := "0xccc9fc03"

  function EncodePoolsCall(poolID: nat): string { POOLS + Fixed(poolID, 64) }

  function EncodePoolIdsCall(index: nat): string { POOL_IDS + Fixed(index, 64) }

  /** The common shape of the (uint32,bytes32) calls. */
  function PeerCall(selector: string, poolID: nat, peer: string): string {
    selector + Fixed(poolID, 64) + TrimPrefix(peer, "0x")
  }

  function EncodeIsPeerIdMemberOfPoolCall(poolID: nat, peer: string): string {
    PeerCall(IS_PEER_ID_MEMBER_OF_POOL, poolID, peer)
  }

  function EncodeRemoveMemberPeerIdCall(poolID: nat, peer: string): string {
    PeerCall(REMOVE_MEMBER_PEER_ID, poolID, peer)
  }

  function EncodeJoinRequestsCall(poolID: nat, peer: string): string {
    PeerCall(JOIN_REQUESTS, poolID, peer)
  }

  /** Which encoder was called with what. */
  datatype Encoded =
    | PoolsCall(n: nat)
    | PoolIdsCall(n: nat)
    | MembershipCall(n: nat, peer: string)
    | RemovalCall(n: nat, peer: string)
    | JoinRequestsCall(n: nat, peer: string)

  function CallData(c: Encoded): string {
    match c
    case PoolsCall(n) => EncodePoolsCall(n)
    case PoolIdsCall(n) => EncodePoolIdsCall(n)
    case MembershipCall(n, peer) => EncodeIsPeerIdMemberOfPoolCall(n, peer)
    case RemovalCall(n, peer) => EncodeRemoveMemberPeerIdCall(n, peer)
    case JoinRequestsCall(n, peer) => EncodeJoinRequestsCall(n, peer)
  }

  /** The same call with the optional 0x of its peer dropped. */
  function Canonical(c: Encoded): Encoded {
    match c
    case PoolsCall(_) => c
    case PoolIdsCall(_) => c
    case MembershipCall(_, peer) => c.(peer := TrimPrefix(peer, "0x"))
    case RemovalCall(_, peer) => c.(peer := TrimPrefix(peer, "0x"))
    case JoinRequestsCall(_, peer) => c.(peer := TrimPrefix(peer, "0x"))
  }

  /** Call data is a four-byte selector, one word for the number, and the peer. */
  lemma CallParts(c: Encoded)
    ensures |CallData(c)| >= 74 && CallData(c)[10..74] == Fixed(c.n, 64)
    ensures CallData(c)[..10] == (match c
              case PoolsCall(_) => "0xced08b2d"
              case PoolIdsCall(_) => "0x69883b4e"
              case MembershipCall(_, _) => "0xb098a605"
              case RemovalCall(_, _) => "0x3d71233a"
              case JoinRequestsCall(_, _) => "0xccc9fc03")
    ensures !c.PoolsCall? && !c.PoolIdsCall? ==> CallData(c)[74..] == TrimPrefix(c.peer, "0x")
  {
  }

  /** Call data names the method, the pool and the peer: equal data means equal calls. */
  lemma CallsInjective(c: Encoded, d: Encoded)
    requires c.n < UINT32 && d.n < UINT32 && CallData(c) == CallData(d)
    ensures Canonical(c) == Canonical(d)
  {
    CallParts(c);
    CallParts(d);
    SelectorsDiffer();
    NumberOfWord(c.n);
    NumberOfWord(d.n);
  }

  lemma SelectorsDiffer()
    ensures POOLS != POOL_IDS && POOLS != IS_PEER_ID_MEMBER_OF_POOL && POOLS != REMOVE_MEMBER_PEER_ID
    ensures POOLS != JOIN_REQUESTS && POOL_IDS != IS_PEER_ID_MEMBER_OF_POOL && POOL_IDS != REMOVE_MEMBER_PEER_ID
    ensures POOL_IDS != JOIN_REQUESTS && IS_PEER_ID_MEMBER_OF_POOL != REMOVE_MEMBER_PEER_ID
    ensures IS_PEER_ID_MEMBER_OF_POOL != JOIN_REQUESTS && REMOVE_MEMBER_PEER_ID != JOIN_REQUESTS
  {
    assert POOLS[2] == 'c' && POOLS[3] == 'e';
    assert POOL_IDS[2] == '6';
    assert IS_PEER_ID_MEMBER_OF_POOL[2] == 'b';
    assert REMOVE_MEMBER_PEER_ID[2] == '3';
    assert JOIN_REQUESTS[2] == 'c' && JOIN_REQUESTS[3] == 'c';
  }

  // ---------------------------------------------------------------------------------------------------------------
  // Reference encoding of results

  /** The words of a reply, one after the other. */
  function Flatten(words: seq<string>): string {
    if words == [] then [] else words[0] + Flatten(words[1..])
  }

  predicate AllWords(words: seq<string>) {
    forall i :: 0 <= i < |words| ==> |words[i]| == 64
  }

  predicate HexWords(words: seq<string>) {
    forall i :: 0 <= i < |words| ==> |words[i]| == 64 && AllHex(words[i])
  }

  /** Static values, one word each. */
  function ValueWords(ns: seq<nat>): (ws: seq<string>)
    ensures |ws| == |ns| && HexWords(ws)
    ensures forall i :: 0 <= i < |ns| ==> ws[i] == Fixed(ns[i], 64)
  {
    seq(|ns|, i requires 0 <= i < |ns| => Fixed(ns[i], 64))
  }

  function Zeros(n: nat): (s: string)
    ensures |s| == n && AllHex(s)
  {
    seq(n, i => '0')
  }

  /** One word of byte-string contents, padded with zero bytes on the right. */
  function DataWord(bs: seq<byte>): (w: string)
    requires |bs| <= 32
    ensures |w| == 64 && AllHex(w)
  {
    HexEncode(bs) + Zeros(64 - 2 * |bs|)
  }

  /** The contents of a byte string, in whole words. */
  function DataWords(bs: seq<byte>): (ws: seq<string>)
    ensures HexWords(ws) && 32 * |ws| >= |bs|
  {
    if bs == [] then []
    else if |bs| <= 32 then [DataWord(bs)]
    else [DataWord(bs[..32])] + DataWords(bs[32..])
  }

  /** A dynamic byte string: its length, then its contents. */
  function StringWords(bs: seq<byte>): (ws: seq<string>)
    ensures HexWords(ws) && |ws| >= 1 && 32 * (|ws| - 1) >= |bs|
  {
    ValueWords([|bs|]) + DataWords(bs)
  }

  /** The contract's Pool struct. */
  datatype ContractPool = ContractPool(
    creator: nat, id: nat, maxChallengeResponsePeriod: nat, memberCount: nat, maxMembers: nat,
    requiredTokens: nat, minPingTime: nat, name: seq<byte>, region: seq<byte>)
  {
    predicate Valid() {
      && creator < UINT160 && id < UINT32 && maxChallengeResponsePeriod < UINT32
      && memberCount < UINT32 && maxMembers < UINT32 && requiredTokens < UINT256 && minPingTime < UINT256
    }
  }

  /** The nine head words of a pools(uint32) reply: values for static fields, byte offsets for the two strings. */
  function PoolHead(p: ContractPool): (ns: seq<nat>)
    ensures |ns| == 9
  {
    [p.creator, p.id, p.maxChallengeResponsePeriod, p.memberCount, p.maxMembers, p.requiredTokens, p.minPingTime,
     32 * 9, 32 * (9 + |StringWords(p.name)|)]
  }

  function PoolWords(p: ContractPool): (ws: seq<string>)
    ensures HexWords(ws) && |ws| == 9 + |StringWords(p.name)| + |StringWords(p.region)|
  {
    ValueWords(PoolHead(p)) + StringWords(p.name) + StringWords(p.region)
  }

  /** A dynamic array of bytes32 as the only result: its offset, its length, its elements. */
  function ArrayWords(ids: seq<nat>): (ws: seq<string>)
    ensures HexWords(ws) && |ws| == 2 + |ids|
  {
    ValueWords([32, |ids|] + ids)
  }

  /** A Go string is at most 2^63 - 1 bytes long. */
  predicate FitsString(words: seq<string>) {
    64 * |words| + 2 < 0x8000_0000_0000_0000
  }

  // ---------------------------------------------------------------------------------------------------------------
  // Splitting a reply into words

  function Slots(data: string): (slots: seq<string>)
    ensures AllWords(slots) && |slots| == |data| / 64
  {
    seq(|data| / 64, i requires 0 <= i < |data| / 64 => data[64 * i..64 * i + 64])
  }

  method SplitSlots(data: string) returns (slots: seq<string>)
    ensures slots == Slots(data)
  {
    slots := [];
    var i := 0;
    while i < |data|
      invariant i == 64 * |slots| || (i > |data| && |slots| == |data| / 64)
      invariant |slots| <= |data| / 64 && slots == Slots(data)[..|slots|]
      decreases |data| - i
    {
      if i + 64 <= |data| {
        slots := slots + [data[i..i + 64]];
      }
      i := i + 64;
    }
  }

  lemma {:induction false} FlattenIndex(words: seq<string>, i: nat)
    requires AllWords(words) && i < |words|
    ensures |Flatten(words)| == 64 * |words|
    ensures Flatten(words)[64 * i..64 * i + 64] == words[i]
    decreases |words|
  {
    if |words| == 1 {
      assert Flatten(words[1..]) == [];
    } else {
      FlattenIndex(words[1..], if i == 0 then 0 else i - 1);
      if i > 0 {
        assert Flatten(words)[64 * i..64 * i + 64] == Flatten(words[1..])[64 * (i - 1)..64 * (i - 1) + 64];
      }
    }
  }

  /** Splitting undoes concatenation. */
  lemma SlotsOfFlatten(words: seq<string>)
    requires AllWords(words)
    ensures Slots(Flatten(words)) == words
    ensures |Flatten(words)| == 64 * |words|
  {
    if words != [] {
      FlattenIndex(words, 0);
      forall i | 0 <= i < |words| ensures Slots(Flatten(words))[i] == words[i] {
        FlattenIndex(words, i);
      }
    }
  }

  // ---------------------------------------------------------------------------------------------------------------
  // pools(uint32)

  datatype Pool = Pool(
    creator: string, id: nat, maxChallengeResponsePeriod: nat, memberCount: nat, maxMembers: nat,
    requiredTokens: Option<int>, minPingTime: Option<int>, name: seq<byte>, region: seq<byte>)

  /**
   * The contents of a string whose first word of data is given. Doubling the length wraps at 64 bits; a result with
   * the top bit set is negative as an int, passes the comparison and then panics as a slice bound.
   */
  function Contents(word: string, length: nat): Result<seq<byte>>
    requires |word| == 64
  {
    var cut := (2 * length) % UINT64;
    if cut >= 0x8000_0000_0000_0000 then Panic
    else
      var bytes := HexDecode(if cut <= 64 then word[..cut] else word);
      if bytes.None? then Err else Ok(bytes.value)
  }

  /** The string at a byte offset: only its first word is read. */
  function StringAt(slots: seq<string>, offset: nat): Result<seq<byte>>
    requires AllWords(slots)
  {
    var index := offset / 32;
    if index >= |slots| then Ok([])
    else
      var length := ParseHex(slots[index], UINT64);
      if length.None? then Err
      else if length.value == 0 || index + 1 >= |slots| then Ok([])
      else Contents(slots[index + 1], length.value)
  }

  function DecodePools(reply: string): Result<Pool> {
    var data := TrimPrefix(reply, "0x");
    if |data| < 288 then Err
    else
      var slots := Slots(data);
      if |slots| < 9 || ZeroText(slots[0][24..]) then Err else DecodeSlots(slots)
  }

  function DecodeSlots(slots: seq<string>): Result<Pool>
    requires AllWords(slots) && |slots| >= 9
  {
    var id := ParseHex(slots[1][56..], UINT32);
    var maxChallenge := ParseHex(slots[2][56..], UINT32);
    var memberCount := ParseHex(slots[3][56..], UINT32);
    var maxMembers := ParseHex(slots[4][56..], UINT32);
    var nameOffset := ParseHex(slots[7], UINT64);
    var regionOffset := ParseHex(slots[8], UINT64);
    if id.None? || maxChallenge.None? || memberCount.None? || maxMembers.None? || nameOffset.None?
       || regionOffset.None?
    then Err
    else
      match StringAt(slots, nameOffset.value)
      case Err => Err
      case Panic => Panic
      case Ok(name) =>
        match StringAt(slots, regionOffset.value)
        case Err => Err
        case Panic => Panic
        case Ok(region) =>
          Ok(Pool("0x" + slots[0][24..], id.value, maxChallenge.value, memberCount.value, maxMembers.value,
                  SignedHex(slots[5]), SignedHex(slots[6]), name, region))
  }

  method IsZeroAddress(address: string) returns (zero: bool)
    ensures zero <==> ZeroText(address)
  {
    zero := true;
    for i := 0 to |address|
      invariant zero && ZeroText(address[..i])
    {
      if address[i] != '0' {
        return false;
      }
    }
    assert address[..|address|] == address;
  }

  method DecodePoolsResult(reply: string) returns (r: Result<Pool>)
    ensures r == DecodePools(reply)
  {
    var data := TrimPrefix(reply, "0x");
    if |data| < 288 {
      return Err;
    }
    var slots := SplitSlots(data);
    if |slots| < 9 {
      return Err;
    }
    var zero := IsZeroAddress(slots[0][24..]);
    if zero {
      return Err;
    }
    r := DecodeSlots(slots);
  }

  function FirstBytes(bs: seq<byte>): seq<byte> {
    if |bs| <= 32 then bs else bs[..32]
  }

  lemma ContentsRead(bs: seq<byte>)
    requires bs != [] && 2 * |bs| < 0x8000_0000_0000_0000
    ensures Contents(DataWord(FirstBytes(bs)), |bs|) == Ok(FirstBytes(bs))
  {
    FirstWord(bs);
    ContentsCut(DataWord(FirstBytes(bs)), |bs|, |FirstBytes(bs)|);
  }

  lemma ContentsCut(w: string, length: nat, first: nat)
    requires |w| == 64 && first <= 32 && 2 * length < 0x8000_0000_0000_0000
    requires first == (if length <= 32 then length else 32) && HexDecode(w[..2 * first]).Some?
    ensures Contents(w, length) == Ok(HexDecode(w[..2 * first]).value)
  {
    assert (2 * length) % UINT64 == 2 * length;
    assert w[..64] == w;
  }

  /** The two words that matter: the length, and the first word of the contents. */
  lemma StringRead(slots: seq<string>, at: nat, bs: seq<byte>)
    requires AllWords(slots) && at < |slots|
    requires ParseHex(slots[at], UINT64) == Some(|bs|)
    requires bs != [] ==> at + 1 < |slots| && Contents(slots[at + 1], |bs|) == Ok(FirstBytes(bs))
    ensures StringAt(slots, 32 * at) == Ok(FirstBytes(bs))
  {
    assert (32 * at) / 32 == at;
  }

  /** A byte string laid out at word `at` is read back up to its first 32 bytes. */
  lemma StringRoundTrip(slots: seq<string>, at: nat, bs: seq<byte>)
    requires AllWords(slots) && FitsString(slots)
    requires at + |StringWords(bs)| <= |slots| && slots[at..at + |StringWords(bs)|] == StringWords(bs)
    ensures StringAt(slots, 32 * at) == Ok(FirstBytes(bs))
  {
    var ws := StringWords(bs);
    assert slots[at] == slots[at..at + |ws|][0] == Fixed(|bs|, 64);
    if bs != [] {
      assert slots[at + 1] == slots[at..at + |ws|][1] == DataWords(bs)[0];
      FirstWord(bs);
      ContentsRead(bs);
    }
    NumberOfWord(|bs|);
    StringRead(slots, at, bs);
  }

  lemma FirstWord(bs: seq<byte>)
    requires bs != []
    ensures DataWords(bs)[0] == DataWord(FirstBytes(bs))
    ensures HexDecode(DataWord(FirstBytes(bs))[..2 * |FirstBytes(bs)|]) == Some(FirstBytes(bs))
  {
    var first := FirstBytes(bs);
    assert |bs| <= 32 ==> first == bs;
    assert DataWord(first)[..2 * |first|] == HexEncode(first);
    DecodeOfEncode(first);
  }

  /** What the decoder makes of a pool: fixed fields exactly, strings up to their first 32 bytes. */
  function Decoded(p: ContractPool): Pool {
    Pool("0x" + Fixed(p.creator, 40), p.id, p.maxChallengeResponsePeriod, p.memberCount, p.maxMembers,
         Some(p.requiredTokens), Some(p.minPingTime),
         FirstBytes(p.name), FirstBytes(p.region))
  }

  /** Word i of the reply is word i of the head. */
  lemma HeadWord(p: ContractPool, i: nat)
    requires i < 9
    ensures PoolWords(p)[i] == Fixed(PoolHead(p)[i], 64)
  {
    assert PoolWords(p)[i] == ValueWords(PoolHead(p))[i];
  }

  lemma UintField(p: ContractPool, i: nat)
    requires i < 9 && PoolHead(p)[i] < UINT32
    ensures ParseHex(PoolWords(p)[i][56..], UINT32) == Some(PoolHead(p)[i])
  {
    HeadWord(p, i);
    var n := PoolHead(p)[i];
    FixedLow(n, 64, 56);
    NumberOfUint32(n);
  }

  lemma BigField(p: ContractPool, i: nat)
    requires i < 9 && PoolHead(p)[i] < UINT256
    ensures HexNumber(PoolWords(p)[i]) == Some(PoolHead(p)[i])
    ensures SignedHex(PoolWords(p)[i]) == Some(PoolHead(p)[i])
  {
    HeadWord(p, i);
    NumberOfWord(PoolHead(p)[i]);
    assert IsHex(PoolWords(p)[i][0]);
  }

  lemma PoolNumbers(p: ContractPool)
    requires p.Valid()
    ensures ParseHex(PoolWords(p)[1][56..], UINT32) == Some(p.id)
    ensures ParseHex(PoolWords(p)[2][56..], UINT32) == Some(p.maxChallengeResponsePeriod)
  {
    UintField(p, 1);
    UintField(p, 2);
  }

  lemma PoolCounters(p: ContractPool)
    requires p.Valid()
    ensures ParseHex(PoolWords(p)[3][56..], UINT32) == Some(p.memberCount)
    ensures ParseHex(PoolWords(p)[4][56..], UINT32) == Some(p.maxMembers)
  {
    UintField(p, 3);
    UintField(p, 4);
  }

  lemma PoolAmounts(p: ContractPool)
    requires p.Valid()
    ensures var w := PoolWords(p);
            && SignedHex(w[5]) == Some(p.requiredTokens)
            && SignedHex(w[6]) == Some(p.minPingTime)
            && w[0][24..] == Fixed(p.creator, 40)
  {
    BigField(p, 5);
    BigField(p, 6);
    HeadWord(p, 0);
    FixedLow(p.creator, 64, 24);
  }

  lemma PoolName(p: ContractPool)
    requires FitsString(PoolWords(p))
    ensures var w := PoolWords(p);
            var name := ParseHex(w[7], UINT64);
            name.Some? && StringAt(w, name.value) == Ok(FirstBytes(p.name))
  {
    BigField(p, 7);
    PoolTail(p);
    StringRoundTrip(PoolWords(p), 9, p.name);
  }

  lemma PoolRegion(p: ContractPool)
    requires FitsString(PoolWords(p))
    ensures var w := PoolWords(p);
            var region := ParseHex(w[8], UINT64);
            region.Some? && StringAt(w, region.value) == Ok(FirstBytes(p.region))
  {
    BigField(p, 8);
    PoolTail(p);
    StringRoundTrip(PoolWords(p), 9 + |StringWords(p.name)|, p.region);
  }

  lemma PoolTail(p: ContractPool)
    ensures var w, name, region := PoolWords(p), StringWords(p.name), StringWords(p.region);
            && w[9..9 + |name|] == name
            && w[9 + |name|..9 + |name| + |region|] == region
  {
  }

  lemma NoPrefix(s: string)
    requires AllHex(s)
    ensures TrimPrefix(s, "0x") == s && TrimPrefix("0x" + s, "0x") == s
  {
    assert |s| >= 2 ==> s[1] != 'x';
  }

  lemma {:induction false} FlattenHex(words: seq<string>)
    requires HexWords(words)
    ensures AllHex(Flatten(words))
  {
    if words != [] {
      FlattenHex(words[1..]);
    }
  }

  /** A reply of hexadecimal words is split into those words, with or without the 0x prefix. */
  lemma ReplySlots(words: seq<string>)
    requires HexWords(words)
    ensures TrimPrefix("0x" + Flatten(words), "0x") == TrimPrefix(Flatten(words), "0x") == Flatten(words)
    ensures |Flatten(words)| == 64 * |words| && Slots(Flatten(words)) == words
  {
    SlotsOfFlatten(words);
    FlattenHex(words);
    NoPrefix(Flatten(words));
  }

  /**
   * Decoding inverts the ABI encoding of every pool, with or without the 0x prefix; exactly the pools with a zero
   * creator address are rejected.
   */
  lemma PoolsRoundTrip(p: ContractPool)
    requires p.Valid() && FitsString(PoolWords(p))
    ensures DecodePools("0x" + Flatten(PoolWords(p))) == (if p.creator == 0 then Err else Ok(Decoded(p)))
    ensures DecodePools(Flatten(PoolWords(p))) == (if p.creator == 0 then Err else Ok(Decoded(p)))
  {
    ReplySlots(PoolWords(p));
    SlotsDecoded(p);
    PoolAmounts(p);
    ZeroAddress(p.creator);
    NoteSlots("0x" + Flatten(PoolWords(p)), PoolWords(p));
    NoteSlots(Flatten(PoolWords(p)), PoolWords(p));
  }

  /** A reply shorter than the nine words of the head is an error. */
  lemma ShortPoolIsError(reply: string)
    requires |TrimPrefix(reply, "0x")| < 9 * 64
    ensures DecodePools(reply) == Err
  {
  }

  /** The two amounts are read with their sign, and a head that decodes at all decodes its numbers. */
  lemma AmountsAreSigned(slots: seq<string>, n: nat)
    requires AllWords(slots) && |slots| >= 9 && DecodeSlots(slots).Ok? && HexNumber(slots[5][1..]) == Some(n)
    ensures var tokens := DecodeSlots(slots).value.requiredTokens;
            && (slots[5][0] == '-' ==> tokens.Some? && tokens.value + n == 0)
            && (slots[5][0] == '+' ==> tokens.Some? && tokens.value == n)
    ensures DecodeSlots(slots).value.minPingTime == SignedHex(slots[6])
  {
  }

  /** A declared string length of 2^62 bytes or more, doubled, is a negative slice bound: a panic, not an error. */
  lemma HugeLengthPanics(slots: seq<string>, at: nat, length: nat)
    requires AllWords(slots) && at + 1 < |slots| && ParseHex(slots[at], UINT64) == Some(length)
    requires 0x4000_0000_0000_0000 <= length < 0x8000_0000_0000_0000
    ensures StringAt(slots, 32 * at) == Panic
  {
    assert (2 * length) % UINT64 == 2 * length;
  }

  /** A string whose offset or contents lie beyond the reply is read as empty, if its length is readable. */
  lemma MissingStringIsEmpty(slots: seq<string>, offset: nat)
    requires AllWords(slots) && offset / 32 + 1 >= |slots|
    requires offset / 32 < |slots| ==> ParseHex(slots[offset / 32], UINT64).Some?
    ensures StringAt(slots, offset) == Ok([])
  {
  }

  /** What the decoder does once it has cut the reply into slots. */
  lemma NoteSlots(reply: string, words: seq<string>)
    requires HexWords(words) && |words| >= 9 && TrimPrefix(reply, "0x") == Flatten(words)
    requires |Flatten(words)| == 64 * |words| && Slots(Flatten(words)) == words
    ensures DecodePools(reply) == if ZeroText(words[0][24..]) then Err else DecodeSlots(words)
  {
  }

  lemma SlotsDecoded(p: ContractPool)
    requires p.Valid() && FitsString(PoolWords(p))
    ensures DecodeSlots(PoolWords(p)) == Ok(Decoded(p))
  {
    PoolNumbers(p);
    PoolCounters(p);
    PoolAmounts(p);
    PoolName(p);
    PoolRegion(p);
  }

  // ---------------------------------------------------------------------------------------------------------------
  // getMemberPeerIds(uint32,address)

  /** The whole 64-character elements available from `start`, at most n of them. */
  function ElementsFrom(data: string, start: nat, n: nat): seq<string>
    requires start <= |data|
  {
    var available := (|data| - start) / 64;
    var count := if n <= available then n else available;
    seq(count, i requires 0 <= i < count => "0x" + data[start + 64 * i..start + 64 * i + 64])
  }

  /**
   * `capacity` is the longest slice of strings that can be allocated. The code allocates the declared length before
   * it looks at the data, so a larger one panics however short the reply is.
   */
  function DecodePeerIds(reply: string, capacity: nat): Result<seq<string>> {
    var data := TrimPrefix(reply, "0x");
    if |data| < 64 then Ok([])
    else
      var offset := ParseHex(data[..64], UINT64);
      if offset.None? then Err
      else
        var start := (2 * offset.value) % UINT64;
        if start >= 0x8000_0000_0000_0000 then Panic
        else if start + 64 > |data| then Ok([])
        else
          var length := ParseHex(data[start..start + 64], UINT64);
          if length.None? then Err
          else if length.value > capacity then Panic
          else Ok(ElementsFrom(data, start + 64, length.value))
  }

  method DecodeGetMemberPeerIdsResult(reply: string, capacity: nat) returns (r: Result<seq<string>>)
    ensures r == DecodePeerIds(reply, capacity)
  {
    var data := TrimPrefix(reply, "0x");
    if |data| < 64 {
      return Ok([]);
    }
    var offset := ParseHex(data[..64], UINT64);
    if offset.None? {
      return Err;
    }
    var start := (2 * offset.value) % UINT64;
    if start >= 0x8000_0000_0000_0000 {
      return Panic;
    }
    if start >= |data| || start + 64 > |data| {
      return Ok([]);
    }
    var length := ParseHex(data[start..start + 64], UINT64);
    if length.None? {
      return Err;
    }
    if length.value > capacity {
      return Panic;
    }
    var ids := [];
    var i := 0;
    while i < length.value
      invariant i == |ids| <= |ElementsFrom(data, start + 64, length.value)|
      invariant ids == ElementsFrom(data, start + 64, length.value)[..i]
    {
      var from := start + 64 + 64 * i;
      if from + 64 > |data| {
        break;
      }
      ids := ids + ["0x" + data[from..from + 64]];
      i := i + 1;
    }
    assert ids == ElementsFrom(data, start + 64, length.value);
    r := Ok(ids);
  }

  lemma ArrayHeader(ids: seq<nat>)
    requires FitsString(ArrayWords(ids))
    ensures var data := Flatten(ArrayWords(ids));
            && |data| == 64 * (2 + |ids|)
            && ParseHex(data[..64], UINT64) == Some(32)
            && ParseHex(data[64..128], UINT64) == Some(|ids|)
  {
    var w := ArrayWords(ids);
    FlattenIndex(w, 0);
    FlattenIndex(w, 1);
    NumberOfWord(32);
    NumberOfWord(|ids|);
  }

  /** Decoding inverts the ABI encoding of a bytes32 array of any length that can be allocated. */
  lemma PeerIdsRoundTrip(ids: seq<nat>, capacity: nat)
    requires FitsString(ArrayWords(ids))
    ensures DecodePeerIds("0x" + Flatten(ArrayWords(ids)), capacity)
         == if |ids| > capacity then Panic
            else Ok(seq(|ids|, i requires 0 <= i < |ids| => "0x" + Fixed(ids[i], 64)))
  {
    ReplySlots(ArrayWords(ids));
    ArrayHeader(ids);
    ArrayElements(ids);
    ArrayRead("0x" + Flatten(ArrayWords(ids)), |ids|, capacity);
  }

  lemma ArrayRead(reply: string, n: nat, capacity: nat)
    requires var data := TrimPrefix(reply, "0x");
             && |data| >= 128 && ParseHex(data[..64], UINT64) == Some(32)
             && ParseHex(data[64..128], UINT64) == Some(n)
    ensures DecodePeerIds(reply, capacity)
         == if n > capacity then Panic else Ok(ElementsFrom(TrimPrefix(reply, "0x"), 128, n))
  {
    assert (2 * 32) % UINT64 == 64;
  }

  lemma ArrayElements(ids: seq<nat>)
    requires |Flatten(ArrayWords(ids))| == 64 * (2 + |ids|)
    ensures ElementsFrom(Flatten(ArrayWords(ids)), 128, |ids|)
         == seq(|ids|, i requires 0 <= i < |ids| => "0x" + Fixed(ids[i], 64))
  {
    var data := Flatten(ArrayWords(ids));
    var got := ElementsFrom(data, 128, |ids|);
    assert (|data| - 128) / 64 == |ids|;
    forall i | 0 <= i < |ids| ensures got[i] == "0x" + Fixed(ids[i], 64) {
      ArrayElement(ids, i);
    }
  }

  lemma ArrayElement(ids: seq<nat>, i: nat)
    requires i < |ids| && |Flatten(ArrayWords(ids))| == 64 * (2 + |ids|)
    ensures Flatten(ArrayWords(ids))[128 + 64 * i..128 + 64 * i + 64] == Fixed(ids[i], 64)
  {
    var w, k := ArrayWords(ids), i + 2;
    assert w[k] == Fixed(ids[i], 64);
    FlattenIndex(w, k);
    assert 64 * k == 128 + 64 * i;
  }

  /** So is a declared array offset in that range. */
  lemma HugeOffsetPanics(reply: string, capacity: nat, offset: nat)
    requires |TrimPrefix(reply, "0x")| >= 64 && ParseHex(TrimPrefix(reply, "0x")[..64], UINT64) == Some(offset)
    requires 0x4000_0000_0000_0000 <= offset < 0x8000_0000_0000_0000
    ensures DecodePeerIds(reply, capacity) == Panic
  {
    assert (2 * offset) % UINT64 == 2 * offset;
  }

  /** The ids that arrive whole in the first `cut` characters of a reply. */
  function Whole(cut: nat): nat { if cut < 128 then 0 else (cut - 128) / 64 }

  /** The texts of the first n ids. */
  function FirstIds(ids: seq<nat>, n: nat): (texts: seq<string>)
    requires n <= |ids|
    ensures |texts| == n && forall i :: 0 <= i < n ==> texts[i] == "0x" + Fixed(ids[i], 64)
  {
    seq(n, i requires 0 <= i < n => "0x" + Fixed(ids[i], 64))
  }

  /** A reply that breaks off gives the ids that arrived whole; none if not even the length did. */
  lemma TruncatedArray(ids: seq<nat>, cut: nat, capacity: nat)
    requires FitsString(ArrayWords(ids)) && cut <= |Flatten(ArrayWords(ids))| && |ids| <= capacity
    ensures Whole(cut) <= |ids|
    ensures DecodePeerIds("0x" + Flatten(ArrayWords(ids))[..cut], capacity) == Ok(FirstIds(ids, Whole(cut)))
  {
    var data := Flatten(ArrayWords(ids));
    ArrayHeader(ids);
    FlattenHex(ArrayWords(ids));
    NoPrefix(data[..cut]);
    if cut < 128 {
      ShortArray("0x" + data[..cut], data, cut, capacity);
      assert FirstIds(ids, 0) == [];
    } else {
      assert data[..cut][..64] == data[..64];
      assert data[..cut][64..128] == data[64..128];
      ArrayRead("0x" + data[..cut], |ids|, capacity);
      CutElements(ids, cut);
    }
  }

  lemma ShortArray(reply: string, data: string, cut: nat, capacity: nat)
    requires cut < 128 <= |data| && TrimPrefix(reply, "0x") == data[..cut]
    requires ParseHex(data[..64], UINT64) == Some(32)
    ensures DecodePeerIds(reply, capacity) == Ok([])
  {
    if cut >= 64 {
      assert data[..cut][..64] == data[..64];
      assert (2 * 32) % UINT64 == 64;
    }
  }

  lemma CutElements(ids: seq<nat>, cut: nat)
    requires |Flatten(ArrayWords(ids))| == 64 * (2 + |ids|) && 128 <= cut <= |Flatten(ArrayWords(ids))|
    ensures Whole(cut) <= |ids|
    ensures ElementsFrom(Flatten(ArrayWords(ids))[..cut], 128, |ids|) == FirstIds(ids, Whole(cut))
  {
    var data := Flatten(ArrayWords(ids))[..cut];
    assert Whole(cut) <= |ids|;
    var got := ElementsFrom(data, 128, |ids|);
    assert |got| == Whole(cut);
    forall i | 0 <= i < Whole(cut) ensures got[i] == "0x" + Fixed(ids[i], 64) {
      CutElement(ids, cut, i);
    }
  }

  lemma CutElement(ids: seq<nat>, cut: nat, i: nat)
    requires |Flatten(ArrayWords(ids))| == 64 * (2 + |ids|) && 128 <= cut <= |Flatten(ArrayWords(ids))|
    requires i < |ids| && 128 + 64 * i + 64 <= cut
    ensures Flatten(ArrayWords(ids))[..cut][128 + 64 * i..128 + 64 * i + 64] == Fixed(ids[i], 64)
  {
    ArrayElement(ids, i);
    var data, from := Flatten(ArrayWords(ids)), 128 + 64 * i;
    assert data[..cut][from..from + 64] == data[from..from + 64];
  }

  // ---------------------------------------------------------------------------------------------------------------
  // poolIds(uint256), isPeerIdMemberOfPool(uint32,bytes32) and joinRequests(uint32,bytes32)

  function DecodePoolIdResponse(reply: string): Result<nat> {
    var data := TrimPrefix(reply, "0x");
    if |data| != 64 then Err
    else
      var n := ParseHex(data, UINT64);
      if n.None? then Err else Ok(n.value % UINT32)
  }

  /** A reply of any other length is an error. */
  lemma PoolIdNeedsOneWord(reply: string)
    requires |TrimPrefix(reply, "0x")| != 64
    ensures DecodePoolIdResponse(reply) == Err
  {
  }

  lemma PoolIdRoundTrip(id: nat)
    requires id < UINT256
    ensures DecodePoolIdResponse("0x" + Fixed(id, 64)) == (if id < UINT64 then Ok(id % UINT32) else Err)
  {
    NoPrefix(Fixed(id, 64));
    NumberOfWord(id);
  }

  datatype Membership = Membership(isMember: bool, memberAddress: string)

  function DecodeIsMemberOfPoolResult(reply: string): Result<Membership> {
    var data := TrimPrefix(reply, "0x");
    if |data| < 128 then Err
    else Ok(Membership(!ZeroText(data[..64]), "0x" + data[88..128]))
  }

  function MembershipWords(isMember: bool, member: nat): (ws: seq<string>)
    ensures HexWords(ws)
  {
    ValueWords([if isMember then 1 else 0, member])
  }

  lemma MembershipRoundTrip(isMember: bool, member: nat)
    requires member < UINT160
    ensures DecodeIsMemberOfPoolResult("0x" + Flatten(MembershipWords(isMember, member)))
         == Ok(Membership(isMember, "0x" + Fixed(member, 40)))
  {
    var w := MembershipWords(isMember, member);
    var data := Flatten(w);
    ReplySlots(w);
    FlattenIndex(w, 0);
    FlattenIndex(w, 1);
    assert data[88..128] == data[64..128][24..];
    FixedLow(member, 64, 24);
    NumberOfWord(if isMember then 1 else 0);
  }

  function DecodeJoinRequestStatus(reply: string): Result<nat> {
    var data := TrimPrefix(reply, "0x");
    if |data| < 512 then Err
    else
      var status := ParseHex(data[384..448], UINT8);
      if status.None? then Err else Ok(status.value)
  }

  /** The eight words of a join request; its status is the seventh. */
  predicate RequestWords(ws: seq<string>, status: nat) {
    && |ws| == 8 && HexWords(ws)
    && ws[6] == Fixed(status, 64)
  }

  lemma StatusRoundTrip(ws: seq<string>, status: nat)
    requires status < UINT8 && RequestWords(ws, status)
    ensures DecodeJoinRequestStatus("0x" + Flatten(ws)) == Ok(status)
  {
    ReplySlots(ws);
    FlattenIndex(ws, 6);
    NumberOfWord(status);
  }
}

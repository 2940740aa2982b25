/**
 * `ClusterPeerPoolStatus` and `strictEthCall` of `blockchain/bl_pool.go`: what the chain says about this device's
 * membership in a pool. The chain RPC is an oracle that may answer anything, fail, or disagree with itself.
 */
module ClusterStatus {
  import opened Wrappers
  import opened Hex
  import opened Text
  import opened Abi
  import PeerId

  /** What one HTTP attempt brings back. */
  datatype HttpOutcome = NoResponse | Response(statusCode: int, body: RpcBody)
  datatype RpcBody = Malformed | RpcError | Result(text: string)

  /** The oracle: the outcome of attempt `n` at an eth_call of the given data on the given chain. */
  type Rpc = (string, string, nat) -> HttpOutcome

  const SUPPORTED_CHAINS: set<string> := {"base", "skale"}
  const MAX_ATTEMPTS: nat := 3
  const JOIN_REQUEST_PENDING: nat := 1

  /** callEVMChainWithRetry: the first attempt that gets any response decides. */
  function CallWithRetry(chain: string, data: string, rpc: Rpc, attempt: nat): HttpOutcome
    requires 1 <= attempt <= MAX_ATTEMPTS
    decreases MAX_ATTEMPTS - attempt
  {
    var outcome := rpc(chain, data, attempt);
    if outcome.Response? || attempt == MAX_ATTEMPTS then outcome
    else CallWithRetry(chain, data, rpc, attempt + 1)
  }

  /** Attempt n of three is the first to get a response. */
  predicate FirstAnswered(chain: string, data: string, rpc: Rpc, n: nat) {
    && 1 <= n <= 3 && rpc(chain, data, n).Response?
    && (forall k :: 1 <= k < n ==> rpc(chain, data, k).NoResponse?)
  }

  lemma RetriesOn(chain: string, data: string, rpc: Rpc, attempt: nat, n: nat)
    requires 1 <= attempt <= n <= 3 && FirstAnswered(chain, data, rpc, n)
    ensures CallWithRetry(chain, data, rpc, attempt) == rpc(chain, data, n)
    decreases n - attempt
  {
    if attempt < n {
      assert rpc(chain, data, attempt).NoResponse?;
      RetriesOn(chain, data, rpc, attempt + 1, n);
    }
  }

  /** The result of a call is that of the first of three attempts that gets a response; none if all three do not. */
  lemma FirstResponse(chain: string, data: string, rpc: Rpc)
    ensures forall n: nat :: FirstAnswered(chain, data, rpc, n) ==>
              CallWithRetry(chain, data, rpc, 1) == rpc(chain, data, n)
    ensures (forall k :: 1 <= k <= 3 ==> rpc(chain, data, k).NoResponse?) ==>
              CallWithRetry(chain, data, rpc, 1) == NoResponse
  {
    forall n: nat | FirstAnswered(chain, data, rpc, n)
      ensures CallWithRetry(chain, data, rpc, 1) == rpc(chain, data, n)
    {
      RetriesOn(chain, data, rpc, 1, n);
    }
    if forall k :: 1 <= k <= 3 ==> rpc(chain, data, k).NoResponse? {
      assert CallWithRetry(chain, data, rpc, 3) == NoResponse;
      assert CallWithRetry(chain, data, rpc, 2) == NoResponse;
    }
  }

  function StrictEthCall(chain: string, data: string, rpc: Rpc): Option<string> {
    if chain !in SUPPORTED_CHAINS then None
    else
      match CallWithRetry(chain, data, rpc, 1)
      case Response(code, Result(text)) => if code == 200 then Some(text) else None
      case _ => None
  }

  datatype Status = Failure | Listed(member: bool, pending: bool)

  const NOT_LISTED := Listed(false, false)
  const MEMBER := Listed(true, false)

  /** What the two replies add up to; the second call is only made after the first denied membership. */
  function FromReplies(m: Option<string>, j: Option<string>): Status {
    match MembershipReply(m)
    case None => Failure
    case Some(isMember) =>
      if isMember then MEMBER
      else
        match StatusReply(j)
        case None => Failure
        case Some(status) => Listed(false, status == JOIN_REQUEST_PENDING)
  }

  function ClusterPeerPoolStatus(clusterPeer: string, poolID: nat, chain: string, rpc: Rpc): Status {
    if clusterPeer == "" then Failure
    else
      match PeerId.ToBytes32(clusterPeer)
      case None => Failure
      case Some(peer) =>
        FromReplies(StrictEthCall(chain, EncodeIsPeerIdMemberOfPoolCall(poolID, peer), rpc),
                    StrictEthCall(chain, EncodeJoinRequestsCall(poolID, peer), rpc))
  }

  function MembershipReply(reply: Option<string>): Option<bool> {
    if reply.None? then None
    else
      match DecodeIsMemberOfPoolResult(reply.value)
      case Ok(m) => Some(m.isMember)
      case _ => None
  }

  function StatusReply(reply: Option<string>): Option<nat> {
    if reply.None? then None
    else
      match DecodeJoinRequestStatus(reply.value)
      case Ok(s) => Some(s)
      case _ => None
  }

  /** No answer is ever given for a chain this firmware does not know. */
  lemma UnsupportedChainFails(clusterPeer: string, poolID: nat, chain: string, rpc: Rpc)
    requires chain !in SUPPORTED_CHAINS
    ensures ClusterPeerPoolStatus(clusterPeer, poolID, chain, rpc) == Failure
  {
  }

  /** What a reply carries after its optional 0x. */
  function Payload(reply: string): string { TrimPrefix(reply, "0x") }

  /** A membership reply that arrived and has both its words. */
  predicate MembershipComplete(reply: Option<string>) {
    reply.Some? && |Payload(reply.value)| >= 128
  }

  /** Its flag word is zero. */
  predicate FlagIsZero(reply: string)
    requires |Payload(reply)| >= 128
  {
    ZeroText(Payload(reply)[..64])
  }

  /** A join-request reply that arrived, has all its eight words, and whose status word is a small number. */
  predicate RequestComplete(reply: Option<string>) {
    && reply.Some? && |Payload(reply.value)| >= 512
    && var status := HexNumber(Payload(reply.value)[384..448]); status.Some? && status.value < UINT8
  }

  predicate StatusIsPending(reply: Option<string>)
    requires RequestComplete(reply)
  {
    HexNumber(Payload(reply.value)[384..448]) == Some(1)
  }

  const PENDING := Listed(false, true)

  /** The status told from the two raw replies, for a peer and a chain that can be asked about at all. */
  predicate Reported(m: Option<string>, j: Option<string>, status: Status) {
    match status
    case Failure =>
      !MembershipComplete(m) || (FlagIsZero(m.value) && !RequestComplete(j))
    case Listed(true, pending) =>
      !pending && MembershipComplete(m) && !FlagIsZero(m.value)
    case Listed(false, pending) =>
      && MembershipComplete(m) && FlagIsZero(m.value) && RequestComplete(j)
      && (pending <==> StatusIsPending(j))
  }

  lemma RepliesReported(m: Option<string>, j: Option<string>)
    ensures MembershipReply(m) == (if MembershipComplete(m) then Some(!FlagIsZero(m.value)) else None)
    ensures StatusReply(j).Some? <==> RequestComplete(j)
    ensures RequestComplete(j) ==> (StatusReply(j) == Some(JOIN_REQUEST_PENDING) <==> StatusIsPending(j))
  {
  }

  /**
   * No answer is a guess. Each of the four results is given exactly when the two raw replies for this pool and this
   * peer say so: a call that is lost, short or malformed gives an error, never "member", "pending" or "not listed",
   * and an id or a chain that cannot be asked about is an error too.
   */
  lemma AnswersAreDefinite(clusterPeer: string, poolID: nat, chain: string, rpc: Rpc)
    ensures var status := ClusterPeerPoolStatus(clusterPeer, poolID, chain, rpc);
            && status in {Failure, MEMBER, PENDING, NOT_LISTED}
            && var peer := PeerId.ToBytes32(clusterPeer);
               if clusterPeer == "" || peer.None? || (chain != "base" && chain != "skale") then status == Failure
               else
                 var m := StrictEthCall(chain, EncodeIsPeerIdMemberOfPoolCall(poolID, peer.value), rpc);
                 var j := StrictEthCall(chain, EncodeJoinRequestsCall(poolID, peer.value), rpc);
                 forall x: Status :: Reported(m, j, x) <==> status == x
  {
    if clusterPeer != "" && PeerId.ToBytes32(clusterPeer).Some? {
      var peer := PeerId.ToBytes32(clusterPeer).value;
      RepliesReported(StrictEthCall(chain, EncodeIsPeerIdMemberOfPoolCall(poolID, peer), rpc),
                      StrictEthCall(chain, EncodeJoinRequestsCall(poolID, peer), rpc));
    }
  }

  // ---------------------------------------------------------------------------------------------------------------
  // The pool contract, answering calls by the ABI

  /** A join request, as the getter of the joinRequests mapping returns it. */
  datatype JoinRequest = JoinRequest(
    account: nat, poolId: nat, timestamp: nat, index: nat, approvals: nat, rejections: nat, status: nat, peerId: nat)

  /** The member address of each (pool, key) that is a member, and the join request of each (pool, key). */
  datatype Contract = Contract(memberOf: (nat, PeerId.Key) -> Option<nat>, request: (nat, PeerId.Key) -> JoinRequest)

  ghost predicate ValidContract(c: Contract) {
    && (forall pool: nat, key: PeerId.Key :: c.memberOf(pool, key).Some? ==> c.memberOf(pool, key).value < UINT160)
    && (forall pool: nat, key: PeerId.Key :: c.request(pool, key).status < UINT8)
  }

  datatype Call = Call(selector: string, pool: nat, key: PeerId.Key)

  /** How the contract reads the data of a (uint32,bytes32) call. */
  function ReadCall(data: string): Option<Call> {
    if |data| != 138 then None
    else
      var pool, key := ParseHex(data[10..74], UINT32), HexDecode(data[74..]);
      if pool.None? || key.None? then None else Some(Call(data[..10], pool.value, key.value))
  }

  function RequestWordsOf(r: JoinRequest): seq<string> {
    ValueWords([r.account, r.poolId, r.timestamp, r.index, r.approvals, r.rejections, r.status, r.peerId])
  }

  function Execute(c: Contract, data: string): string {
    match ReadCall(data)
    case None => "0x"
    case Some(call) =>
      if call.selector == IS_PEER_ID_MEMBER_OF_POOL then
        var member := c.memberOf(call.pool, call.key);
        "0x" + Flatten(MembershipWords(member.Some?, if member.Some? then member.value else 0))
      else if call.selector == JOIN_REQUESTS then
        "0x" + Flatten(RequestWordsOf(c.request(call.pool, call.key)))
      else "0x"
  }

  /** The encoders produce what the contract reads. */
  lemma ReadCallRoundTrip(selector: string, pool: nat, key: PeerId.Key)
    requires |selector| == 10 && pool < UINT32
    ensures ReadCall(PeerCall(selector, pool, PeerId.Bytes32Of(key))) == Some(Call(selector, pool, key))
  {
    var data := PeerCall(selector, pool, PeerId.Bytes32Of(key));
    assert TrimPrefix(PeerId.Bytes32Of(key), "0x") == HexEncode(key);
    assert data[..10] == selector;
    assert data[10..74] == Fixed(pool, 64);
    assert data[74..] == HexEncode(key);
    NumberOfWord(pool);
    DecodeOfEncode(key);
  }

  /** Every response that counts as an answer is the contract's own; responses may still be lost or be errors. */
  ghost predicate Truthful(rpc: Rpc, chain: string, c: Contract) {
    forall data: string, n: nat ::
      var o := rpc(chain, data, n);
      o.Response? && o.statusCode == 200 && o.body.Result? ==> o.body.text == Execute(c, data)
  }

  /** Every call gets through on one of its three attempts. */
  ghost predicate Reliable(rpc: Rpc, chain: string, c: Contract) {
    forall data: string :: GetsThroughSometime(rpc, chain, c, data)
  }

  ghost predicate GetsThroughSometime(rpc: Rpc, chain: string, c: Contract, data: string) {
    exists n: nat :: GetsThrough(rpc, chain, c, data, n)
  }

  predicate GetsThrough(rpc: Rpc, chain: string, c: Contract, data: string, n: nat) {
    FirstAnswered(chain, data, rpc, n) && rpc(chain, data, n) == Response(200, Result(Execute(c, data)))
  }

  lemma TruthfulCall(chain: string, data: string, rpc: Rpc, c: Contract, attempt: nat)
    requires Truthful(rpc, chain, c) && 1 <= attempt <= MAX_ATTEMPTS
    ensures var o := CallWithRetry(chain, data, rpc, attempt);
            o.Response? && o.statusCode == 200 && o.body.Result? ==> o.body.text == Execute(c, data)
    decreases MAX_ATTEMPTS - attempt
  {
    if rpc(chain, data, attempt).NoResponse? && attempt < MAX_ATTEMPTS {
      TruthfulCall(chain, data, rpc, c, attempt + 1);
    }
  }

  lemma TruthfulEthCall(chain: string, data: string, rpc: Rpc, c: Contract)
    requires Truthful(rpc, chain, c) && chain in SUPPORTED_CHAINS
    ensures StrictEthCall(chain, data, rpc) in {None, Some(Execute(c, data))}
    ensures Reliable(rpc, chain, c) ==> StrictEthCall(chain, data, rpc) == Some(Execute(c, data))
  {
    TruthfulCall(chain, data, rpc, c, 1);
    if Reliable(rpc, chain, c) {
      assert GetsThroughSometime(rpc, chain, c, data);
      var n: nat :| GetsThrough(rpc, chain, c, data, n);
      RetriesOn(chain, data, rpc, 1, n);
    }
  }

  /** The membership and join-request replies decode to the contract's state. */
  lemma RepliesDecode(c: Contract, pool: nat, key: PeerId.Key)
    requires ValidContract(c) && pool < UINT32
    ensures MembershipReply(Some(Execute(c, EncodeIsPeerIdMemberOfPoolCall(pool, PeerId.Bytes32Of(key)))))
         == Some(c.memberOf(pool, key).Some?)
    ensures StatusReply(Some(Execute(c, EncodeJoinRequestsCall(pool, PeerId.Bytes32Of(key)))))
         == Some(c.request(pool, key).status)
  {
    ReadCallRoundTrip(IS_PEER_ID_MEMBER_OF_POOL, pool, key);
    ReadCallRoundTrip(JOIN_REQUESTS, pool, key);
    var member, request := c.memberOf(pool, key), c.request(pool, key);
    MembershipRoundTrip(member.Some?, if member.Some? then member.value else 0);
    StatusRoundTrip(RequestWordsOf(request), request.status);
  }

  /** What the contract says about a device: its membership bit, and pending when it is not a member. */
  function Truth(c: Contract, pool: nat, key: PeerId.Key): Status {
    if c.memberOf(pool, key).Some? then MEMBER
    else Listed(false, c.request(pool, key).status == 1)
  }

  /**
   * Over replies of the pool contract the result is exactly the contract's state or an error, however many calls
   * are lost on the way; when nothing is lost it is the contract's state.
   */
  lemma StatusIsContractState(c: Contract, pool: nat, key: PeerId.Key, chain: string, rpc: Rpc)
    requires ValidContract(c) && pool < UINT32 && chain in SUPPORTED_CHAINS && Truthful(rpc, chain, c)
    ensures ClusterPeerPoolStatus(PeerId.IdOf(key), pool, chain, rpc) in {Failure, Truth(c, pool, key)}
    ensures Reliable(rpc, chain, c) ==>
              ClusterPeerPoolStatus(PeerId.IdOf(key), pool, chain, rpc) == Truth(c, pool, key)
  {
    PeerId.InvertsFromBytes32(key);
    PeerId.IdStartsWithOne(key);
    var peer := PeerId.Bytes32Of(key);
    TruthfulEthCall(chain, EncodeIsPeerIdMemberOfPoolCall(pool, peer), rpc, c);
    TruthfulEthCall(chain, EncodeJoinRequestsCall(pool, peer), rpc, c);
    TruthfulReplies(c, pool, key, StrictEthCall(chain, EncodeIsPeerIdMemberOfPoolCall(pool, peer), rpc),
                    StrictEthCall(chain, EncodeJoinRequestsCall(pool, peer), rpc));
  }

  lemma TruthfulReplies(c: Contract, pool: nat, key: PeerId.Key, m: Option<string>, j: Option<string>)
    requires ValidContract(c) && pool < UINT32
    requires var peer := PeerId.Bytes32Of(key);
             && m in {None, Some(Execute(c, EncodeIsPeerIdMemberOfPoolCall(pool, peer)))}
             && j in {None, Some(Execute(c, EncodeJoinRequestsCall(pool, peer)))}
    ensures FromReplies(m, j) in {Failure, Truth(c, pool, key)}
    ensures m.Some? && j.Some? ==> FromReplies(m, j) == Truth(c, pool, key)
  {
    RepliesDecode(c, pool, key);
  }

  /** So "not listed", from truthful replies, means neither a member nor waiting to join. */
  lemma NotListedIsTrue(c: Contract, pool: nat, key: PeerId.Key, chain: string, rpc: Rpc)
    requires ValidContract(c) && pool < UINT32 && Truthful(rpc, chain, c)
    ensures ClusterPeerPoolStatus(PeerId.IdOf(key), pool, chain, rpc) == NOT_LISTED ==>
              c.memberOf(pool, key).None? && c.request(pool, key).status != JOIN_REQUEST_PENDING
  {
    if chain !in SUPPORTED_CHAINS {
      UnsupportedChainFails(PeerId.IdOf(key), pool, chain, rpc);
    } else {
      StatusIsContractState(c, pool, key, chain, rpc);
    }
  }
}

// The ledger of src/core/dag-ledger.ts as a value: what addBlock accepts, what an accepted block
// changes, and what rejecting a block undoes. The class in DagLedger.dfy is proved equal to it.
module LedgerState {
  import opened Basics
  import opened DagBlock

  const MAX_CHAIN_MEMORY := 5000

  datatype UnclaimedSend = UnclaimedSend(fromPub: Pub, toPub: Pub, amount: int)

  datatype Contract = Contract(owner: Pub, code: Option<string>, name: string, deployedAt: int)

  // The on-chain part of a provider profile.
  datatype Provider = Provider(
    deviceId: string, registeredAt: int, capacityGB: real, lastActualStoredBytes: real,
    lastHeartbeat: int, lastRewardEpoch: int, totalEarned: int,
    smokeAddr: Option<string>, countryCode: Option<string>)

  datatype Account = Account(balance: int, nonce: int, pqPub: Option<string>)

  // `order` is the insertion order of the JavaScript Map allBlocks.
  datatype Ledger = Ledger(
    blocks: map<Hash, Block>, order: seq<Hash>, chains: map<Pub, seq<Block>>,
    unclaimed: map<Hash, UnclaimedSend>, contracts: map<Hash, Contract>,
    providers: map<Pub, Provider>, heartbeats: map<Pub, map<int, nat>>, accounts: map<Pub, Account>)

  const EMPTY := Ledger(map[], [], map[], map[], map[], map[], map[], map[])

  function Chain(s: Ledger, pub: Pub): seq<Block> {
    Lookup(s.chains, pub).GetOr([])
  }

  function Head(s: Ledger, pub: Pub): Option<Block> {
    var c := Chain(s, pub);
    if c == [] then None else Some(c[|c| - 1])
  }

  function PqOf(s: Ledger, pub: Pub): Option<string> {
    if pub in s.accounts then s.accounts[pub].pqPub else None
  }

  // ----- Heartbeats, capacity and rewards ------------------------------------------------------

  function EpochDay(timestamp: int): int {
    timestamp / REWARD_EPOCH_MS
  }

  // countHeartbeatsInEpoch: the index lookup.
  function HeartbeatsInEpoch(s: Ledger, pub: Pub, epoch: int): nat {
    Lookup(Lookup(s.heartbeats, pub).GetOr(map[]), epoch).GetOr(0)
  }

  // The capacity in force after replaying, oldest first, the register and deregister blocks dated before `time`.
  function CapacityBefore(chain: seq<Block>, time: int): real {
    if chain == [] then 0.0
    else
      var b := chain[|chain| - 1];
      var earlier := CapacityBefore(chain[..|chain| - 1], time);
      if b.timestamp >= time then earlier
      else if b.kind.StorageDeregister? then 0.0
      else if b.kind.StorageRegister? && b.contractData.Some? then RegisteredCapacity(b)
      else earlier
  }

  function CapacityAtEpochStart(chain: seq<Block>, epoch: int): real {
    CapacityBefore(chain, epoch * REWARD_EPOCH_MS)
  }

  function ReportedBytes(b: Block): Option<real> {
    match b.contractData
    case Some(Json(_, _, _, _, _, bytes, _, _, _, _, _)) => bytes
    case _ => None
  }

  predicate ReportsInEpoch(b: Block, epoch: int) {
    b.kind.StorageHeartbeat? && EpochDay(b.timestamp) == epoch && ReportedBytes(b).Some?
  }

  // The report with the greatest positive timestamp in the epoch, the earliest of equals, as (bytes, timestamp).
  function LatestReport(chain: seq<Block>, epoch: int): (real, int) {
    if chain == [] then (0.0, 0)
    else
      var b := chain[|chain| - 1];
      var earlier := LatestReport(chain[..|chain| - 1], epoch);
      if ReportsInEpoch(b, epoch) && b.timestamp > earlier.1 then (ReportedBytes(b).value, b.timestamp)
      else earlier
  }

  function ActualStoredGB(chain: seq<Block>, epoch: int): real {
    LatestReport(chain, epoch).0 / (GB_BYTES as real)
  }

  function EffectiveGB(chain: seq<Block>, epoch: int): real {
    var capacity := CapacityAtEpochStart(chain, epoch);
    var actual := ActualStoredGB(chain, epoch);
    if actual > 0.0 then MinReal(actual, capacity) else capacity
  }

  function MaxReward(effectiveGB: real, heartbeats: nat): int {
    var uptime := MinReal(heartbeats as real / MAX_HEARTBEATS_PER_DAY as real, 1.0);
    (BASE_STORAGE_RATE_MILLI as real * effectiveGB * uptime).Floor
  }

  // validateStorageReward.
  function ValidateReward(s: Ledger, b: Block): Option<Refusal> {
    var provider := Lookup(s.providers, b.accountPub);
    var chain := Chain(s, b.accountPub);
    var epoch := RewardEpoch(b);
    if provider.None? || provider.value.capacityGB == 0.0 then Some(NotAProvider)
    else if provider.value.lastRewardEpoch >= epoch then Some(EpochAlreadyRewarded)
    else if CapacityAtEpochStart(chain, epoch) == 0.0 then Some(NotRegisteredAtEpochStart)
    else if HeartbeatsInEpoch(s, b.accountPub, epoch) == 0 then Some(NoHeartbeats)
    else if RewardStoredGB(b) > EffectiveGB(chain, epoch) + 0.000000001 then Some(StoredGBTooLarge)
    else if RewardAmount(b) > MaxReward(EffectiveGB(chain, epoch), HeartbeatsInEpoch(s, b.accountPub, epoch)) then Some(RewardTooLarge)
    else None
  }

  // ----- addBlock: acceptance ------------------------------------------------------------------

  function Parent(s: Ledger, b: Block): Option<Block> {
    if b.kind.Open? then None else Lookup(s.blocks, b.previousHash)
  }

  function ValidateReceive(s: Ledger, b: Block): Option<Refusal> {
    var send := Lookup(s.blocks, b.sendBlockHash.GetOr(""));
    if send.None? then Some(SendNotFound)
    else if !send.value.kind.Send? then Some(NotASend)
    else if send.value.recipient != Some(b.accountPub) then Some(RecipientMismatch)
    else if send.value.amount != b.receiveAmount then Some(ReceiveAmountMismatch)
    else None
  }

  function ValidateHeartbeat(s: Ledger, b: Block, now: int): Option<Refusal> {
    var provider := Lookup(s.providers, b.accountPub);
    if provider.None? || provider.value.capacityGB == 0.0 then Some(NotAProvider)
    else if provider.value.lastHeartbeat > 0 && b.timestamp - provider.value.lastHeartbeat < HEARTBEAT_INTERVAL_MS - 60_000 then
      Some(HeartbeatTooSoon)
    else if b.timestamp > now + 600_000 then Some(TimestampInFuture)
    else None
  }

  function ValidCredentials(env: Env, creds: seq<RelayCredential>, faceMapHash: Option<string>): nat {
    if creds == [] then 0
    else
      var c := creds[|creds| - 1];
      ValidCredentials(env, creds[..|creds| - 1], faceMapHash)
        + if faceMapHash.Some? && env.verify(c.sig, c.relayPub) == faceMapHash then 1 else 0
  }

  function MinCredentials(env: Env): nat {
    if env.mainnet then 3 else 1
  }

  // The checks that need the ledger, for a structurally valid block.
  function ValidateSemantics(env: Env, s: Ledger, b: Block, now: int): Option<Refusal> {
    match b.kind
    case Receive => ValidateReceive(s, b)
    case StorageReward => ValidateReward(s, b)
    case StorageHeartbeat => ValidateHeartbeat(s, b, now)
    case Open =>
      if ValidCredentials(env, b.relayCredentials, b.faceMapHash) < MinCredentials(env) then Some(TooFewCredentials) else None
    case _ => None
  }

  // Everything addBlock checks before the block reaches the vote manager.
  function Validate(env: Env, s: Ledger, b: Block, now: int): (r: Option<Refusal>)
  {
    if !HashMatches(env, b) then Some(HashMismatch)
    else if !SignatureValid(env, b, PqOf(s, b.accountPub)) then Some(InvalidSignature)
    else
      var structure := ValidateBlockStructure(b, Parent(s, b));
      if structure.Some? then structure else ValidateSemantics(env, s, b, now)
  }

  datatype Verdict = AlreadyStored | Refused(reason: Refusal) | Accepted

  function Judge(env: Env, s: Ledger, b: Block, now: int): Verdict
  {
    if b.hash in s.blocks then AlreadyStored
    else
      var refusal := Validate(env, s, b, now);
      if refusal.Some? then Refused(refusal.value)
      else if b.kind.Open? && b.accountPub in s.chains then Refused(AlreadyOpen)
      else Accepted
  }

  // ----- addBlock: effects ---------------------------------------------------------------------

  function IsCountryCode(s: string): bool {
    |s| == 2 && 'A' <= s[0] <= 'Z' && 'A' <= s[1] <= 'Z'
  }

  // What one accepted block does to its account's provider profile.
  function ProviderAfter(p: Option<Provider>, b: Block): Option<Provider> {
    match b.kind
    case StorageRegister =>
      (match b.contractData
       case Some(Json(_, _, capacityGB, deviceId, _, _, _, _, _, _, _)) =>
         var prev := p.GetOr(Provider("", b.timestamp, 0.0, 0.0, 0, 0, 0, None, None));
         Some(Provider(deviceId.GetOr(prev.deviceId), prev.registeredAt, capacityGB.GetOr(0.0), prev.lastActualStoredBytes,
                       prev.lastHeartbeat, prev.lastRewardEpoch, prev.totalEarned, None, None))
       case _ => p)
    case StorageDeregister => None
    case StorageHeartbeat =>
      if p.None? then None
      else
        var beat := p.value.(lastHeartbeat := b.timestamp);
        (match b.contractData
         case Some(Json(_, _, _, _, smokeAddr, bytes, country, _, _, _, _)) =>
           Some(beat.(smokeAddr := if Given(smokeAddr) then smokeAddr else beat.smokeAddr,
                      lastActualStoredBytes := bytes.GetOr(beat.lastActualStoredBytes),
                      countryCode := if country.Some? && IsCountryCode(country.value) then country else beat.countryCode))
         case _ => Some(beat))
    case StorageReward =>
      (match b.contractData
       case Some(Json(_, _, _, _, _, _, _, _, _, _, _)) =>
         if p.None? then None
         else Some(p.value.(lastRewardEpoch := RewardEpoch(b), totalEarned := p.value.totalEarned + RewardAmount(b)))
       case _ => p)
    case _ => p
  }

  function HeartbeatsAfter(index: map<int, nat>, b: Block): map<int, nat> {
    if b.kind.StorageHeartbeat? then
      index[EpochDay(b.timestamp) := Lookup(index, EpochDay(b.timestamp)).GetOr(0) + 1]
    else index
  }

  function UnclaimedOf(send: Block): UnclaimedSend {
    UnclaimedSend(send.accountPub, send.recipient.GetOr(""), send.amount.GetOr(0))
  }

  function UnclaimedAfter(unclaimed: map<Hash, UnclaimedSend>, b: Block): map<Hash, UnclaimedSend> {
    if b.kind.Send? && Given(b.recipient) && b.amount.GetOr(0) != 0 then unclaimed[b.hash := UnclaimedOf(b)]
    else if b.kind.Receive? && Given(b.sendBlockHash) then unclaimed - {b.sendBlockHash.value}
    else unclaimed
  }

  predicate Deploys(b: Block) {
    b.kind.Deploy? && b.contractData.Some? && b.contractData.value.Json?
  }

  function ContractOf(b: Block): Contract
    requires Deploys(b)
  {
    var data := b.contractData.value;
    Contract(b.accountPub, data.code, if Given(data.name) then data.name.value else "Unnamed", b.timestamp)
  }

  function AccountAfter(a: Account, b: Block): Account {
    var pq := match b.updateData
      case Some(Changes(_, _, newPQPub, _)) => if b.kind.Update? && Given(newPQPub) then newPQPub else a.pqPub
      case _ => a.pqPub;
    Account(b.balance, b.index, pq)
  }

  // The ledger after an accepted block, before old blocks are pruned.
  function Store(s: Ledger, b: Block): Ledger {
    var pub := b.accountPub;
    Ledger(
      s.blocks[b.hash := b],
      s.order + [b.hash],
      s.chains[pub := Chain(s, pub) + [b]],
      UnclaimedAfter(s.unclaimed, b),
      if Deploys(b) then s.contracts[b.hash := ContractOf(b)] else s.contracts,
      Put(s.providers, pub, ProviderAfter(Lookup(s.providers, pub), b)),
      if b.kind.StorageHeartbeat? then s.heartbeats[pub := HeartbeatsAfter(Lookup(s.heartbeats, pub).GetOr(map[]), b)] else s.heartbeats,
      if pub in s.accounts then s.accounts[pub := AccountAfter(s.accounts[pub], b)] else s.accounts)
  }

  // Deleting a hash from the JavaScript Map allBlocks.
  function Without(order: seq<Hash>, gone: set<Hash>): seq<Hash> {
    if order == [] then []
    else
      var rest := Without(order[..|order| - 1], gone);
      if order[|order| - 1] in gone then rest else rest + [order[|order| - 1]]
  }

  function Hashes(bs: seq<Block>): set<Hash> {
    set b | b in bs :: b.hash
  }

  // pruneAccountChain: keep the newest MAX_CHAIN_MEMORY blocks of one account.
  function Prune(s: Ledger, pub: Pub): Ledger {
    var chain := Chain(s, pub);
    if |chain| <= MAX_CHAIN_MEMORY then s
    else
      var cut := |chain| - MAX_CHAIN_MEMORY;
      var gone := Hashes(chain[..cut]);
      s.(blocks := s.blocks - gone, order := Without(s.order, gone), chains := s.chains[pub := chain[cut..]])
  }

  function AddBlock(env: Env, s: Ledger, b: Block, now: int): Ledger
  {
    if Judge(env, s, b, now).Accepted? then Prune(Store(s, b), b.accountPub) else s
  }

  // ----- handleRejectedBlock -------------------------------------------------------------------

  // The chain without the first block that has the hash.
  function RemoveHash(chain: seq<Block>, h: Hash): seq<Block> {
    if chain == [] then []
    else if chain[0].hash == h then chain[1..]
    else [chain[0]] + RemoveHash(chain[1..], h)
  }

  function Reject(s: Ledger, h: Hash): Ledger {
    if h !in s.blocks then s
    else
      var b := s.blocks[h];
      var send := Lookup(s.blocks, b.sendBlockHash.GetOr(""));
      var restored := b.kind.Receive? && Given(b.sendBlockHash) && send.Some? && send.value.kind.Send?
                      && Given(send.value.recipient) && send.value.amount.GetOr(0) != 0;
      s.(blocks := s.blocks - {h},
         order := Without(s.order, {h}),
         chains := if b.accountPub in s.chains then s.chains[b.accountPub := RemoveHash(s.chains[b.accountPub], h)] else s.chains,
         unclaimed := if restored then s.unclaimed[b.sendBlockHash.value := UnclaimedOf(send.value)] else s.unclaimed)
  }

  function RejectAll(s: Ledger, hs: seq<Hash>): Ledger {
    if hs == [] then s else Reject(RejectAll(s, hs[..|hs| - 1]), hs[|hs| - 1])
  }

  // registerAccount for a username that is free: a known account only gains a missing PQ key.
  function RegisterAccount(s: Ledger, pub: Pub, account: Account): Ledger {
    if pub !in s.accounts then s.(accounts := s.accounts[pub := account])
    else if Given(account.pqPub) && !Given(s.accounts[pub].pqPub) then
      s.(accounts := s.accounts[pub := s.accounts[pub].(pqPub := account.pqPub)])
    else s
  }
}

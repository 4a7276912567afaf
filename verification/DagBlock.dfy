// src/core/dag-block.ts: the block record, its constants, the hash input, signature verification
// and the structural validation of a block against its parent.
module DagBlock {
  import opened Basics

  type Hash = string
  type Pub = string

  const MAX_SAFE_INTEGER := 9_007_199_254_740_991
  const VERIFICATION_MINT_AMOUNT := 1_000_000_000
  const BASE_STORAGE_RATE_MILLI := 1_000
  const GB_BYTES := 1_073_741_824
  const MAX_HEARTBEATS_PER_DAY := 6
  const HEARTBEAT_INTERVAL_MS := 14_400_000
  const REWARD_EPOCH_MS := 86_400_000
  const ZERO_HASH: Hash := "0000000000000000000000000000000000000000000000000000000000000000"

  datatype BlockType =
    | Open | Send | Receive | Deploy | Call
    | StorageRegister | StorageDeregister | StorageHeartbeat | StorageReward
    | Update | Unknown

  // The JSON text in contractData: unparsable, or an object of which only these properties are read.
  // A property that is missing or is not a number (not an integer, for epochDay and amount) is None.
  datatype ContractData =
    | BadJson
    | Json(name: Option<string>, code: Option<string>,
           capacityGB: Option<real>, deviceId: Option<string>,
           smokeAddr: Option<string>, actualStoredBytes: Option<real>, countryCode: Option<string>,
           epochDay: Option<int>, storedGB: Option<real>, amount: Option<int>, heartbeatCount: Option<int>)

  datatype UpdateData =
    | BadUpdate
    | Changes(newFaceMapHash: Option<string>, newLinkedAnchor: Option<string>,
              newPQPub: Option<string>, newPQKemPub: Option<string>)

  datatype RelayCredential = RelayCredential(relayPub: Pub, sig: string)

  // contractData and updateData are None when the field is absent or the empty string. `rest` is what else their texts
  // hold: properties nothing here reads, such as the arguments of a call, and formatting.
  datatype Block = Block(
    hash: Hash, accountPub: Pub, index: int, kind: BlockType, previousHash: Hash,
    balance: int, timestamp: int, signature: string, pqSignature: Option<string>,
    recipient: Option<Pub>, amount: Option<int>,
    sendBlockHash: Option<Hash>, sendFrom: Option<Pub>, receiveAmount: Option<int>,
    faceMapHash: Option<string>, contractData: Option<ContractData>, contentCid: Option<string>,
    updateData: Option<UpdateData>, rest: string, relayCredentials: seq<RelayCredential>)

  // The fields the hash covers: every field but the hash itself, the signatures and the relay credentials.
  function HashInput(b: Block): Block {
    b.(hash := "", signature := "", pqSignature := None, relayCredentials := [])
  }

  // Exactly the fields the source puts into the hash.
  lemma HashCovers(a: Block, b: Block)
    ensures HashInput(a) == HashInput(b) <==>
            && a.accountPub == b.accountPub && a.index == b.index && a.kind == b.kind && a.previousHash == b.previousHash
            && a.balance == b.balance && a.timestamp == b.timestamp && a.recipient == b.recipient && a.amount == b.amount
            && a.sendBlockHash == b.sendBlockHash && a.sendFrom == b.sendFrom && a.receiveAmount == b.receiveAmount
            && a.faceMapHash == b.faceMapHash && a.contractData == b.contractData && a.contentCid == b.contentCid
            && a.updateData == b.updateData && a.rest == b.rest
  {
  }

  // The cryptographic primitives and the network the ledger runs on. `verify` returns the signed
  // text when the signature envelope is valid for the public key.
  datatype Env = Env(
    digest: Block -> Hash,
    verify: (string, Pub) -> Option<string>,
    pqVerify: (Hash, string, string) -> bool,
    mainnet: bool)

  // What the theorems assume of the block digest: blocks that hash alike have the same account and the same parent.
  ghost predicate CollisionFree(env: Env) {
    forall a: Block, b: Block :: env.digest(HashInput(a)) == env.digest(HashInput(b)) ==>
      a.accountPub == b.accountPub && a.previousHash == b.previousHash
  }

  predicate HashMatches(env: Env, b: Block) {
    env.digest(HashInput(b)) == b.hash
  }

  predicate SignatureValid(env: Env, b: Block, pqPub: Option<string>) {
    && env.verify(b.signature, b.accountPub) == Some(b.hash)
    && (Given(pqPub) && Given(b.pqSignature) ==> env.pqVerify(b.hash, b.pqSignature.value, pqPub.value))
  }

  datatype Refusal =
    | HashMismatch | InvalidSignature
    | BalanceOutOfRange | OpenWithParent | OpenIndex | OpenFaceMapHash | OpenMint | OpenPreviousHash
    | MissingParent | PreviousHashMismatch | BadIndex
    | NoRecipient | BadAmount | AmountOutOfRange | InsufficientBalance | BalanceMismatch
    | NoSendBlockHash | BalanceOverflow | NoContractData | BadCapacity | BadPayload
    | BadRewardAmount | BadEpochDay | BadStoredGB | NoUpdateData | NoLinkedAnchor | UnknownType
    | SendNotFound | NotASend | RecipientMismatch | ReceiveAmountMismatch
    | NotAProvider | EpochAlreadyRewarded | NotRegisteredAtEpochStart | NoHeartbeats | StoredGBTooLarge | RewardTooLarge
    | HeartbeatTooSoon | TimestampInFuture
    | TooFewCredentials | AlreadyOpen

  predicate SafeBalance(n: int) {
    0 <= n <= MAX_SAFE_INTEGER
  }

  // What a reward block mints.
  function RewardAmount(b: Block): int {
    match b.contractData
    case Some(Json(_, _, _, _, _, _, _, _, _, amount, _)) => amount.GetOr(0)
    case _ => 0
  }

  function RewardEpoch(b: Block): int {
    match b.contractData
    case Some(Json(_, _, _, _, _, _, _, epochDay, _, _, _)) => epochDay.GetOr(0)
    case _ => 0
  }

  function RewardStoredGB(b: Block): real {
    match b.contractData
    case Some(Json(_, _, _, _, _, _, _, _, storedGB, _, _)) => storedGB.GetOr(0.0)
    case _ => 0.0
  }

  function RegisteredCapacity(b: Block): real {
    match b.contractData
    case Some(Json(_, _, capacityGB, _, _, _, _, _, _, _, _)) => capacityGB.GetOr(0.0)
    case _ => 0.0
  }

  // What a block adds to its account's balance.
  function Delta(b: Block): int {
    match b.kind
    case Open => VERIFICATION_MINT_AMOUNT
    case Send => -b.amount.GetOr(0)
    case Receive => b.receiveAmount.GetOr(0)
    case StorageReward => RewardAmount(b)
    case _ => 0
  }

  // The fields a block of each kind must carry.
  predicate PayloadComplete(b: Block) {
    match b.kind
    case Open => b.faceMapHash.Some? && b.faceMapHash.value != ""
    case Send => b.recipient.Some? && b.recipient.value != "" && b.amount.Some? && 0 < b.amount.value <= 9_007_199_254_740_991
    case Receive =>
      && b.sendBlockHash.Some? && b.sendBlockHash.value != ""
      && b.receiveAmount.Some? && 0 < b.receiveAmount.value <= 9_007_199_254_740_991
    case Deploy => b.contractData.Some?
    case Call => b.contractData.Some?
    case StorageRegister => b.contractData.Some? && b.contractData.value.Json? && RegisteredCapacity(b) > 0.0
    case StorageDeregister => true
    case StorageHeartbeat => true
    case StorageReward =>
      && b.contractData.Some? && b.contractData.value.Json?
      && 0 < RewardAmount(b) <= 9_007_199_254_740_991 && 0 < RewardEpoch(b) && RewardStoredGB(b) > 0.0
    case Update =>
      && b.updateData.Some? && b.updateData.value.Changes?
      && b.updateData.value.newLinkedAnchor.Some? && b.updateData.value.newLinkedAnchor.value != ""
    case Unknown => false
  }

  // A block that extends its parent by exactly one index and moves the balance by exactly its Delta.
  predicate Sound(b: Block, parent: Option<Block>) {
    && PayloadComplete(b)
    && 0 <= b.balance <= 9_007_199_254_740_991
    && (b.kind.Open? ==>
          parent.None? && b.index == 0 && b.balance == Delta(b) && b.previousHash == ZERO_HASH)
    && (!b.kind.Open? ==>
          && parent.Some? && b.previousHash == parent.value.hash && b.index == parent.value.index + 1
          && b.balance == parent.value.balance + Delta(b))
  }

  // validateBlockStructure: the first check that fails, in the source's order, or None.
  function ValidateBlockStructure(b: Block, parent: Option<Block>): (r: Option<Refusal>)
    ensures r.None? <==> Sound(b, parent)
  {
    if !SafeBalance(b.balance) then Some(BalanceOutOfRange)
    else if b.kind.Open? then
      if parent.Some? then Some(OpenWithParent)
      else if b.index != 0 then Some(OpenIndex)
      else if !Given(b.faceMapHash) then Some(OpenFaceMapHash)
      else if b.balance != VERIFICATION_MINT_AMOUNT then Some(OpenMint)
      else if b.previousHash != ZERO_HASH then Some(OpenPreviousHash)
      else None
    else if parent.None? then Some(MissingParent)
    else if b.previousHash != parent.value.hash then Some(PreviousHashMismatch)
    else if b.index != parent.value.index + 1 then Some(BadIndex)
    else ValidatePayload(b, parent.value)
  }

  function ValidatePayload(b: Block, parent: Block): (r: Option<Refusal>)
    requires !b.kind.Open? && SafeBalance(b.balance)
    ensures r.None? <==> PayloadComplete(b) && b.balance == parent.balance + Delta(b)
  {
    match b.kind
    case Send =>
      if !Given(b.recipient) then Some(NoRecipient)
      else if b.amount.None? || b.amount.value <= 0 then Some(BadAmount)
      else if b.amount.value > MAX_SAFE_INTEGER then Some(AmountOutOfRange)
      else if parent.balance < b.amount.value then Some(InsufficientBalance)
      else if b.balance != parent.balance - b.amount.value then Some(BalanceMismatch)
      else None
    case Receive =>
      if !Given(b.sendBlockHash) then Some(NoSendBlockHash)
      else if b.receiveAmount.None? || b.receiveAmount.value <= 0 then Some(BadAmount)
      else if b.receiveAmount.value > MAX_SAFE_INTEGER then Some(AmountOutOfRange)
      else if parent.balance + b.receiveAmount.value > MAX_SAFE_INTEGER then Some(BalanceOverflow)
      else if b.balance != parent.balance + b.receiveAmount.value then Some(BalanceMismatch)
      else None
    case Deploy =>
      if b.contractData.None? then Some(NoContractData)
      else if b.balance != parent.balance then Some(BalanceMismatch)
      else None
    case Call =>
      if b.contractData.None? then Some(NoContractData)
      else if b.balance != parent.balance then Some(BalanceMismatch)
      else None
    case StorageRegister =>
      if b.contractData.None? then Some(NoContractData)
      else if b.contractData.value.BadJson? then Some(BadPayload)
      else if RegisteredCapacity(b) <= 0.0 then Some(BadCapacity)
      else if b.balance != parent.balance then Some(BalanceMismatch)
      else None
    case StorageDeregister =>
      if b.balance != parent.balance then Some(BalanceMismatch) else None
    case StorageHeartbeat =>
      if b.balance != parent.balance then Some(BalanceMismatch) else None
    case StorageReward =>
      if b.contractData.None? then Some(NoContractData)
      else if b.contractData.value.BadJson? then Some(BadPayload)
      else if !(0 < RewardAmount(b) <= MAX_SAFE_INTEGER) then Some(BadRewardAmount)
      else if RewardEpoch(b) <= 0 then Some(BadEpochDay)
      else if RewardStoredGB(b) <= 0.0 then Some(BadStoredGB)
      else if parent.balance + RewardAmount(b) > MAX_SAFE_INTEGER then Some(BalanceOverflow)
      else if b.balance != parent.balance + RewardAmount(b) then Some(BalanceMismatch)
      else None
    case Update =>
      if b.updateData.None? then Some(NoUpdateData)
      else if b.updateData.value.BadUpdate? then Some(BadPayload)
      else if !Given(b.updateData.value.newLinkedAnchor) then Some(NoLinkedAnchor)
      else if b.balance != parent.balance then Some(BalanceMismatch)
      else None
    case _ => Some(UnknownType)
  }
}

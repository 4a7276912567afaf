// Why addBlock refuses a block: what each refusal says is true of the block and the ledger.
module Refusals {
  import opened Basics
  import opened DagBlock
  import opened LedgerState
  import opened Consistency
  import opened RewardFigures

  // Refusals of the block by itself and against its parent.
  predicate StructureBecause(b: Block, parent: Option<Block>, x: Refusal) {
    match x
    case BalanceOutOfRange => !(0 <= b.balance <= 9_007_199_254_740_991)
    case OpenWithParent => b.kind.Open? && parent.Some?
    case OpenIndex => b.kind.Open? && b.index != 0
    case OpenFaceMapHash => b.kind.Open? && (b.faceMapHash.None? || b.faceMapHash.value == "")
    case OpenMint => b.kind.Open? && b.balance != 1_000_000_000
    case OpenPreviousHash => b.kind.Open? && b.previousHash != ZERO_HASH
    case MissingParent => !b.kind.Open? && parent.None?
    case PreviousHashMismatch => !b.kind.Open? && parent.Some? && b.previousHash != parent.value.hash
    case BadIndex => !b.kind.Open? && parent.Some? && b.index != parent.value.index + 1
    case NoRecipient => b.kind.Send? && (b.recipient.None? || b.recipient.value == "")
    case BadAmount => (b.kind.Send? && b.amount.GetOr(0) <= 0) || (b.kind.Receive? && b.receiveAmount.GetOr(0) <= 0)
    case AmountOutOfRange =>
      || (b.kind.Send? && b.amount.GetOr(0) > 9_007_199_254_740_991)
      || (b.kind.Receive? && b.receiveAmount.GetOr(0) > 9_007_199_254_740_991)
    case InsufficientBalance => b.kind.Send? && parent.Some? && parent.value.balance < b.amount.GetOr(0)
    case BalanceMismatch => parent.Some? && b.balance != parent.value.balance + Delta(b)
    case NoSendBlockHash => b.kind.Receive? && (b.sendBlockHash.None? || b.sendBlockHash.value == "")
    case BalanceOverflow => (b.kind.Receive? || b.kind.StorageReward?) && parent.Some? && parent.value.balance + Delta(b) > 9_007_199_254_740_991
    case NoContractData =>
      (b.kind.Deploy? || b.kind.Call? || b.kind.StorageRegister? || b.kind.StorageReward?) && b.contractData.None?
    case BadPayload =>
      || ((b.kind.StorageRegister? || b.kind.StorageReward?) && b.contractData == Some(BadJson))
      || (b.kind.Update? && b.updateData == Some(BadUpdate))
    case BadCapacity => b.kind.StorageRegister? && RegisteredCapacity(b) <= 0.0
    case BadRewardAmount => b.kind.StorageReward? && !(0 < RewardAmount(b) <= 9_007_199_254_740_991)
    case BadEpochDay => b.kind.StorageReward? && RewardEpoch(b) <= 0
    case BadStoredGB => b.kind.StorageReward? && RewardStoredGB(b) <= 0.0
    case NoUpdateData => b.kind.Update? && b.updateData.None?
    case NoLinkedAnchor => b.kind.Update? && b.updateData.Some? && b.updateData.value.Changes? && !Given(b.updateData.value.newLinkedAnchor)
    case UnknownType => b.kind.Unknown?
    case _ => false
  }

  // Refusals of a reward, given the capacity and the figure of its epoch.
  predicate RewardBecause(s: Ledger, b: Block, x: Refusal, capacity: real, gb: real) {
    var provider := Lookup(s.providers, b.accountPub);
    var heartbeats := HeartbeatsInEpoch(s, b.accountPub, RewardEpoch(b));
    match x
    case NotAProvider => !Active(provider)
    case EpochAlreadyRewarded => Active(provider) && provider.value.lastRewardEpoch >= RewardEpoch(b)
    case NotRegisteredAtEpochStart => capacity == 0.0
    case NoHeartbeats => heartbeats == 0
    case StoredGBTooLarge => RewardStoredGB(b) > gb + 0.000000001
    case RewardTooLarge => RewardAmount(b) > Amount(gb, heartbeats)
    case _ => false
  }

  // Refusals against the ledger.
  ghost predicate LedgerBecause(env: Env, s: Ledger, b: Block, now: int, x: Refusal) {
    var send := Lookup(s.blocks, b.sendBlockHash.GetOr(""));
    var provider := Lookup(s.providers, b.accountPub);
    match b.kind
    case Receive =>
      || (x == SendNotFound && send.None?)
      || (x == NotASend && send.Some? && !send.value.kind.Send?)
      || (x == RecipientMismatch && send.Some? && send.value.recipient != Some(b.accountPub))
      || (x == ReceiveAmountMismatch && send.Some? && send.value.amount != b.receiveAmount)
    case StorageReward =>
      exists capacity, gb :: Figure(Chain(s, b.accountPub), RewardEpoch(b), capacity, gb) && RewardBecause(s, b, x, capacity, gb)
    case StorageHeartbeat =>
      || (x == NotAProvider && !Active(provider))
      || (x == TimestampInFuture && b.timestamp > now + 600_000)
      || (x == HeartbeatTooSoon && Active(provider) && provider.value.lastHeartbeat > 0
          && b.timestamp - provider.value.lastHeartbeat < 14_340_000)
    case Open => x == TooFewCredentials && |Endorsements(env, b)| < if env.mainnet then 3 else 1
    case _ => false
  }

  lemma TransferRefused(b: Block, parent: Block)
    requires (b.kind.Send? || b.kind.Receive?) && SafeBalance(b.balance)
    ensures ValidatePayload(b, parent).Some? ==> StructureBecause(b, Some(parent), ValidatePayload(b, parent).value)
  {
  }

  lemma StorageRefused(b: Block, parent: Block)
    requires (b.kind.StorageRegister? || b.kind.StorageDeregister? || b.kind.StorageHeartbeat? || b.kind.StorageReward?) && SafeBalance(b.balance)
    ensures ValidatePayload(b, parent).Some? ==> StructureBecause(b, Some(parent), ValidatePayload(b, parent).value)
  {
  }

  lemma DataRefused(b: Block, parent: Block)
    requires (b.kind.Deploy? || b.kind.Call? || b.kind.Update? || b.kind.Unknown?) && SafeBalance(b.balance)
    ensures ValidatePayload(b, parent).Some? ==> StructureBecause(b, Some(parent), ValidatePayload(b, parent).value)
  {
  }

  lemma PayloadRefused(b: Block, parent: Block)
    requires !b.kind.Open? && SafeBalance(b.balance)
    ensures ValidatePayload(b, parent).Some? ==> StructureBecause(b, Some(parent), ValidatePayload(b, parent).value)
  {
    if b.kind.Send? || b.kind.Receive? {
      TransferRefused(b, parent);
    } else if b.kind.Deploy? || b.kind.Call? || b.kind.Update? || b.kind.Unknown? {
      DataRefused(b, parent);
    } else {
      StorageRefused(b, parent);
    }
  }

  lemma StructureRefused(b: Block, parent: Option<Block>)
    ensures ValidateBlockStructure(b, parent).Some? ==> StructureBecause(b, parent, ValidateBlockStructure(b, parent).value)
  {
    if !b.kind.Open? && SafeBalance(b.balance) && parent.Some? {
      PayloadRefused(b, parent.value);
    }
  }

  lemma RewardReasons(s: Ledger, b: Block, capacity: real, gb: real)
    requires capacity == CapacityAtEpochStart(Chain(s, b.accountPub), RewardEpoch(b))
    requires gb == EffectiveGB(Chain(s, b.accountPub), RewardEpoch(b))
    ensures ValidateReward(s, b).Some? ==> RewardBecause(s, b, ValidateReward(s, b).value, capacity, gb)
  {
    AmountIs(gb, HeartbeatsInEpoch(s, b.accountPub, RewardEpoch(b)));
  }

  lemma RewardRefused(env: Env, s: Ledger, b: Block, now: int)
    requires b.kind.StorageReward?
    ensures ValidateReward(s, b).Some? ==> LedgerBecause(env, s, b, now, ValidateReward(s, b).value)
  {
    var chain, epoch := Chain(s, b.accountPub), RewardEpoch(b);
    FigureIs(chain, epoch);
    RewardReasons(s, b, CapacityAtEpochStart(chain, epoch), EffectiveGB(chain, epoch));
  }

  lemma LedgerRefused(env: Env, s: Ledger, b: Block, now: int)
    ensures ValidateSemantics(env, s, b, now).Some? ==> LedgerBecause(env, s, b, now, ValidateSemantics(env, s, b, now).value)
  {
    if b.kind.StorageReward? {
      RewardRefused(env, s, b, now);
    }
    CredentialsCounted(env, b);
  }

  // A stored block is reported as stored; any other refusal is for a reason that is so.
  lemma RefusedBecause(env: Env, s: Ledger, b: Block, now: int)
    ensures Judge(env, s, b, now).AlreadyStored? <==> b.hash in s.blocks
    ensures match Judge(env, s, b, now)
            case Refused(HashMismatch) => env.digest(HashInput(b)) != b.hash
            case Refused(InvalidSignature) => !SignedBy(env, s, b)
            case Refused(AlreadyOpen) => b.kind.Open? && b.accountPub in s.chains
            case Refused(x) => StructureBecause(b, Parent(s, b), x) || LedgerBecause(env, s, b, now, x)
            case _ => true
  {
    StructureRefused(b, Parent(s, b));
    LedgerRefused(env, s, b, now);
  }
}

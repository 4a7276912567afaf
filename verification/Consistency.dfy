// What every append-only run keeps: all derived structures of the ledger agree with the set of stored blocks.
// Forks are allowed throughout this file.
module Consistency {
  import opened Basics
  import opened DagBlock
  import opened LedgerState
  import opened Nodes

  predicate Active(p: Option<Provider>) {
    p.Some? && p.value.capacityGB != 0.0
  }

  // The reward's epoch is new to the profile, the account was registered at its start and has heartbeats in it, and
  // neither the storage claimed nor the amount exceeds what they allow.
  predicate RewardAllowed(s: Ledger, b: Block) {
    var p, chain, epoch := Lookup(s.providers, b.accountPub), Chain(s, b.accountPub), RewardEpoch(b);
    && Active(p) && p.value.lastRewardEpoch < epoch
    && CapacityAtEpochStart(chain, epoch) != 0.0 && HeartbeatsInEpoch(s, b.accountPub, epoch) > 0
    && RewardStoredGB(b) <= EffectiveGB(chain, epoch) + 0.000000001
    && RewardAmount(b) <= MaxReward(EffectiveGB(chain, epoch), HeartbeatsInEpoch(s, b.accountPub, epoch))
  }

  predicate HeartbeatAllowed(s: Ledger, b: Block, now: int) {
    var p := Lookup(s.providers, b.accountPub);
    && Active(p) && b.timestamp <= now + 600_000
    && (p.value.lastHeartbeat > 0 ==> b.timestamp - p.value.lastHeartbeat >= 14_340_000)
  }

  // The credentials whose signature is the relay's over the block's face hash.
  ghost function Endorsements(env: Env, b: Block): set<int> {
    set i | 0 <= i < |b.relayCredentials| && b.faceMapHash.Some?
            && env.verify(b.relayCredentials[i].sig, b.relayCredentials[i].relayPub) == b.faceMapHash
  }

  // What addBlock demands of a block of each kind, besides a sound structure.
  ghost predicate KindAllows(env: Env, s: Ledger, b: Block, now: int) {
    match b.kind
    case Open => b.accountPub !in s.chains && |Endorsements(env, b)| >= if env.mainnet then 3 else 1
    case Receive => Backed(s.blocks, b)
    case StorageReward => RewardAllowed(s, b)
    case StorageHeartbeat => HeartbeatAllowed(s, b, now)
    case _ => true
  }

  // The account's key has signed this very hash, and so has its quantum-safe key if the account has one and the block
  // bears such a signature.
  predicate SignedBy(env: Env, s: Ledger, b: Block) {
    && env.verify(b.signature, b.accountPub) == Some(b.hash)
    && (b.accountPub in s.accounts ==>
          match (s.accounts[b.accountPub].pqPub, b.pqSignature)
          case (Some(key), Some(signature)) => key != "" && signature != "" ==> env.pqVerify(b.hash, signature, key)
          case _ => true)
  }

  // Exactly what addBlock demands of a block it stores.
  ghost predicate Admissible(env: Env, s: Ledger, b: Block, now: int) {
    && b.hash !in s.blocks
    && env.digest(HashInput(b)) == b.hash
    && SignedBy(env, s, b)
    && Sound(b, Parent(s, b))
    && KindAllows(env, s, b, now)
  }

  lemma {:induction false} CredentialsCounted(env: Env, b: Block)
    ensures ValidCredentials(env, b.relayCredentials, b.faceMapHash) == |Endorsements(env, b)|
    decreases |b.relayCredentials|
  {
    var creds := b.relayCredentials;
    if creds != [] {
      var n := |creds| - 1;
      var fewer := b.(relayCredentials := creds[..n]);
      CredentialsCounted(env, fewer);
      assert Endorsements(env, b) == if b.faceMapHash.Some? && env.verify(creds[n].sig, creds[n].relayPub) == b.faceMapHash
                                     then Endorsements(env, fewer) + {n} else Endorsements(env, fewer);
    }
  }

  lemma SemanticsByKind(env: Env, s: Ledger, b: Block, now: int)
    requires PayloadComplete(b)
    ensures ValidateSemantics(env, s, b, now).None? && (b.kind.Open? ==> b.accountPub !in s.chains) <==> KindAllows(env, s, b, now)
  {
    CredentialsCounted(env, b);
  }

  lemma AcceptedIffAdmissible(env: Env, s: Ledger, b: Block, now: int)
    ensures Judge(env, s, b, now).Accepted? <==> Admissible(env, s, b, now)
  {
    if PayloadComplete(b) {
      SemanticsByKind(env, s, b, now);
    }
  }

  // ----- Blocks --------------------------------------------------------------------------------

  function ParentIn(blocks: map<Hash, Block>, b: Block): Option<Block> {
    if b.kind.Open? then None else Lookup(blocks, b.previousHash)
  }

  ghost predicate Keyed(blocks: map<Hash, Block>) {
    forall h :: h in blocks ==> blocks[h].hash == h
  }

  ghost predicate Linked(blocks: map<Hash, Block>) {
    forall h :: h in blocks ==> blocks[h].index >= 0 && Sound(blocks[h], ParentIn(blocks, blocks[h]))
  }

  // A receive names a stored send to its account, of the same amount.
  predicate Backed(blocks: map<Hash, Block>, b: Block) {
    b.kind.Receive? ==>
      && Given(b.sendBlockHash) && b.sendBlockHash.value in blocks
      && var send := blocks[b.sendBlockHash.value];
      && send.kind.Send? && send.recipient == Some(b.accountPub) && send.amount == b.receiveAmount
  }

  ghost predicate AllBacked(blocks: map<Hash, Block>) {
    forall h :: h in blocks ==> Backed(blocks, blocks[h])
  }

  predicate Names(b: Block, send: Hash) {
    b.kind.Receive? && b.sendBlockHash == Some(send)
  }

  ghost predicate Claimed(blocks: map<Hash, Block>, send: Hash) {
    exists h :: h in blocks && Names(blocks[h], send)
  }

  // ----- Chains --------------------------------------------------------------------------------

  ghost predicate ChainOf(blocks: map<Hash, Block>, pub: Pub, chain: seq<Block>) {
    && (forall i :: 0 <= i < |chain| ==> chain[i].accountPub == pub && Lookup(blocks, chain[i].hash) == Some(chain[i]))
    && (forall i, j :: 0 <= i < j < |chain| ==> chain[i].hash != chain[j].hash)
  }

  ghost predicate Chained(blocks: map<Hash, Block>, chains: map<Pub, seq<Block>>) {
    && (forall p :: p in chains ==> chains[p] != [] && ChainOf(blocks, p, chains[p]))
    && (forall h :: h in blocks ==> blocks[h].accountPub in chains && blocks[h] in chains[blocks[h].accountPub])
  }

  ghost predicate Ordered(blocks: map<Hash, Block>, order: seq<Hash>) {
    && (forall h :: h in order <==> h in blocks)
    && (forall i, j :: 0 <= i < j < |order| ==> order[i] != order[j])
  }

  // ----- Derived structures --------------------------------------------------------------------

  function ProviderOf(chain: seq<Block>): Option<Provider> {
    if chain == [] then None else ProviderAfter(ProviderOf(chain[..|chain| - 1]), chain[|chain| - 1])
  }

  function HeartbeatIndex(chain: seq<Block>): map<int, nat> {
    if chain == [] then map[] else HeartbeatsAfter(HeartbeatIndex(chain[..|chain| - 1]), chain[|chain| - 1])
  }

  // The entry's sender, recipient and amount are the send's.
  predicate Describes(u: UnclaimedSend, send: Block) {
    u.fromPub == send.accountPub && Some(u.toPub) == send.recipient && Some(u.amount) == send.amount
  }

  // The unclaimed map holds exactly the stored sends that no stored receive names.
  ghost predicate UnclaimedExact(s: Ledger) {
    && (forall h :: h in s.unclaimed <==> h in s.blocks && s.blocks[h].kind.Send? && !Claimed(s.blocks, h))
    && (forall h :: h in s.unclaimed ==> Describes(s.unclaimed[h], s.blocks[h]))
  }

  // The contract's owner, date, code and name are the block's; a missing or empty name is "Unnamed".
  predicate DeployedBy(c: Contract, b: Block) {
    && b.contractData.Some? && b.contractData.value.Json?
    && c.owner == b.accountPub && c.deployedAt == b.timestamp && c.code == b.contractData.value.code
    && match b.contractData.value.name
       case Some(name) => c.name == (if name == "" then "Unnamed" else name)
       case None => c.name == "Unnamed"
  }

  ghost predicate ContractsExact(s: Ledger) {
    && (forall h :: h in s.contracts <==> h in s.blocks && Deploys(s.blocks[h]))
    && (forall h :: h in s.contracts ==> DeployedBy(s.contracts[h], s.blocks[h]))
  }

  ghost predicate ProvidersReplayed(s: Ledger) {
    forall p :: Lookup(s.providers, p) == ProviderOf(Chain(s, p))
  }

  ghost predicate HeartbeatsReplayed(s: Ledger) {
    && (forall p :: Lookup(s.heartbeats, p).GetOr(map[]) == HeartbeatIndex(Chain(s, p)))
    && (forall p :: p in s.heartbeats ==> s.heartbeats[p] != map[])
  }

  ghost predicate Consistent(s: Ledger) {
    && Keyed(s.blocks) && Linked(s.blocks) && AllBacked(s.blocks)
    && Chained(s.blocks, s.chains) && Ordered(s.blocks, s.order)
    && UnclaimedExact(s) && ContractsExact(s) && ProvidersReplayed(s) && HeartbeatsReplayed(s)
  }

  // ----- One accepted block keeps each of them -------------------------------------------------

  lemma StoreKeepsLinked(env: Env, s: Ledger, b: Block, now: int)
    requires Keyed(s.blocks) && Linked(s.blocks) && AllBacked(s.blocks) && Admissible(env, s, b, now)
    ensures Keyed(Store(s, b).blocks) && Linked(Store(s, b).blocks) && AllBacked(Store(s, b).blocks)
  {
    var blocks' := s.blocks[b.hash := b];
    assert ParentIn(blocks', b) == Parent(s, b);
    forall h | h in s.blocks
      ensures Sound(blocks'[h], ParentIn(blocks', blocks'[h])) && Backed(blocks', blocks'[h])
    {
      assert Sound(s.blocks[h], ParentIn(s.blocks, s.blocks[h]));
      assert Backed(s.blocks, s.blocks[h]);
    }
  }

  lemma ChainGains(blocks: map<Hash, Block>, p: Pub, chain: seq<Block>, b: Block)
    requires ChainOf(blocks, p, chain) && b.hash !in blocks && b.accountPub == p
    ensures ChainOf(blocks[b.hash := b], p, chain + [b])
  {
    assert forall i :: 0 <= i < |chain| ==> Lookup(blocks, chain[i].hash) == Some(chain[i]);
  }

  lemma ChainStays(blocks: map<Hash, Block>, p: Pub, chain: seq<Block>, b: Block)
    requires ChainOf(blocks, p, chain) && b.hash !in blocks
    ensures ChainOf(blocks[b.hash := b], p, chain)
  {
    assert forall i :: 0 <= i < |chain| ==> Lookup(blocks, chain[i].hash) == Some(chain[i]);
  }

  lemma StoreKeepsChains(s: Ledger, b: Block)
    requires Chained(s.blocks, s.chains) && b.hash !in s.blocks
    ensures Chained(Store(s, b).blocks, Store(s, b).chains)
  {
    var t := Store(s, b);
    var before := Chain(s, b.accountPub);
    forall p | p in t.chains
      ensures t.chains[p] != [] && ChainOf(t.blocks, p, t.chains[p])
    {
      assert p in s.chains ==> ChainOf(s.blocks, p, s.chains[p]);
      if p == b.accountPub {
        ChainGains(s.blocks, p, before, b);
      } else {
        ChainStays(s.blocks, p, s.chains[p], b);
      }
    }
    assert (before + [b])[|before|] == b;
    forall h | h in s.blocks
      ensures s.blocks[h].accountPub in t.chains && s.blocks[h] in t.chains[s.blocks[h].accountPub]
    {
    }
  }

  lemma StoreKeepsOrdered(s: Ledger, b: Block)
    requires Ordered(s.blocks, s.order) && b.hash !in s.blocks
    ensures Ordered(Store(s, b).blocks, Store(s, b).order)
  {
  }

  // A new send is not named yet: receives name stored blocks only.
  lemma ClaimedIsStored(blocks: map<Hash, Block>, send: Hash)
    requires AllBacked(blocks)
    ensures Claimed(blocks, send) ==> send in blocks
  {
  }

  lemma ClaimedAfter(blocks: map<Hash, Block>, b: Block, h: Hash)
    requires b.hash !in blocks
    ensures Claimed(blocks[b.hash := b], h) <==> Claimed(blocks, h) || Names(b, h)
  {
    var after := blocks[b.hash := b];
    assert after[b.hash] == b && forall g :: g in blocks ==> g in after && after[g] == blocks[g];
  }

  lemma StoreKeepsUnclaimed(s: Ledger, b: Block)
    requires AllBacked(s.blocks) && UnclaimedExact(s) && b.hash !in s.blocks && PayloadComplete(b) && Backed(s.blocks, b)
    ensures UnclaimedExact(Store(s, b))
  {
    var t := Store(s, b);
    ClaimedIsStored(s.blocks, b.hash);
    forall h
      ensures h in t.unclaimed <==> h in t.blocks && t.blocks[h].kind.Send? && !Claimed(t.blocks, h)
    {
      ClaimedAfter(s.blocks, b, h);
      assert h in s.unclaimed <==> h in s.blocks && s.blocks[h].kind.Send? && !Claimed(s.blocks, h);
    }
    StoreKeepsEntries(s, b);
  }

  lemma StoreKeepsEntries(s: Ledger, b: Block)
    requires UnclaimedExact(s) && b.hash !in s.blocks && PayloadComplete(b)
    ensures var t := Store(s, b); forall h :: h in t.unclaimed ==> h in t.blocks && Describes(t.unclaimed[h], t.blocks[h])
  {
    var t := Store(s, b);
    forall h | h in t.unclaimed
      ensures h in t.blocks && Describes(t.unclaimed[h], t.blocks[h])
    {
      assert h != b.hash ==> h in s.unclaimed && t.unclaimed[h] == s.unclaimed[h];
    }
  }

  lemma ReplayOneMore(chain: seq<Block>, b: Block)
    ensures ProviderOf(chain + [b]) == ProviderAfter(ProviderOf(chain), b)
    ensures HeartbeatIndex(chain + [b]) == HeartbeatsAfter(HeartbeatIndex(chain), b)
  {
  }

  lemma StoreKeepsProviders(s: Ledger, b: Block)
    requires ProvidersReplayed(s)
    ensures ProvidersReplayed(Store(s, b))
  {
    var t := Store(s, b);
    ReplayOneMore(Chain(s, b.accountPub), b);
    forall p
      ensures Lookup(t.providers, p) == ProviderOf(Chain(t, p))
    {
      assert Lookup(s.providers, p) == ProviderOf(Chain(s, p));
      assert Chain(t, p) == if p == b.accountPub then Chain(s, p) + [b] else Chain(s, p);
    }
  }

  lemma StoreKeepsHeartbeats(s: Ledger, b: Block)
    requires HeartbeatsReplayed(s)
    ensures HeartbeatsReplayed(Store(s, b))
  {
    var t := Store(s, b);
    ReplayOneMore(Chain(s, b.accountPub), b);
    forall p
      ensures Lookup(t.heartbeats, p).GetOr(map[]) == HeartbeatIndex(Chain(t, p))
    {
      assert Lookup(s.heartbeats, p).GetOr(map[]) == HeartbeatIndex(Chain(s, p));
      assert Chain(t, p) == if p == b.accountPub then Chain(s, p) + [b] else Chain(s, p);
    }
    forall p | p in t.heartbeats
      ensures t.heartbeats[p] != map[]
    {
      assert p == b.accountPub && b.kind.StorageHeartbeat? ==> EpochDay(b.timestamp) in t.heartbeats[p];
    }
  }

  lemma StoreKeepsContracts(s: Ledger, b: Block)
    requires b.hash !in s.blocks && ContractsExact(s)
    ensures ContractsExact(Store(s, b))
  {
  }

  lemma StoreKeepsConsistent(env: Env, s: Ledger, b: Block, now: int)
    requires Consistent(s) && Admissible(env, s, b, now)
    ensures Consistent(Store(s, b))
  {
    StoreKeepsLinked(env, s, b, now);
    StoreKeepsChains(s, b);
    StoreKeepsOrdered(s, b);
    StoreKeepsUnclaimed(s, b);
    StoreKeepsProviders(s, b);
    StoreKeepsHeartbeats(s, b);
    StoreKeepsContracts(s, b);
  }

  lemma AccountsDoNotMatter(s: Ledger, t: Ledger)
    requires Consistent(s) && t == s.(accounts := t.accounts)
    ensures Consistent(t)
  {
    assert forall p :: Chain(t, p) == Chain(s, p);
  }

  lemma StepKeepsConsistent(env: Env, s: Ledger, e: Event)
    requires Consistent(s)
    ensures Consistent(LedgerStep(env, s, e))
  {
    if e.Submit? && Judge(env, s, e.block, e.now).Accepted? {
      AcceptedIffAdmissible(env, s, e.block, e.now);
      StoreKeepsConsistent(env, s, e.block, e.now);
    } else {
      QuietStep(env, s, e);
      AccountsDoNotMatter(s, LedgerStep(env, s, e));
    }
  }

  lemma {:induction false} AppendOnlyConsistent(env: Env, es: seq<Event>)
    requires AppendOnly(env, es)
    ensures Consistent(Run(env, es).ledger)
  {
    if es != [] {
      LastStep(env, es);
      AppendOnlyConsistent(env, es[..|es| - 1]);
      StepKeepsConsistent(env, Run(env, es[..|es| - 1]).ledger, es[|es| - 1]);
    }
  }

  // ----- The account table ---------------------------------------------------------------------

  // The cached balance and nonce of every account that has blocks are those of its head.
  ghost predicate AccountsMirrorHeads(s: Ledger) {
    forall p :: p in s.accounts && Head(s, p).Some? ==>
      s.accounts[p].balance == Head(s, p).value.balance && s.accounts[p].nonce == Head(s, p).value.index
  }

  // Accounts are registered before their first block.
  predicate EnrolledFirst(env: Env, es: seq<Event>) {
    es != [] ==>
      && EnrolledFirst(env, es[..|es| - 1])
      && var s, e := Run(env, es[..|es| - 1]).ledger, es[|es| - 1];
         (e.Enroll? && e.pub !in s.accounts ==> Chain(s, e.pub) == [])
  }

  lemma StoreKeepsMirror(s: Ledger, b: Block)
    requires AccountsMirrorHeads(s)
    ensures AccountsMirrorHeads(Store(s, b))
  {
    var t := Store(s, b);
    forall p
      ensures Head(t, p) == if p == b.accountPub then Some(b) else Head(s, p)
    {
      assert Chain(t, p) == if p == b.accountPub then Chain(s, p) + [b] else Chain(s, p);
    }
  }

  lemma MirrorPut(s: Ledger, pub: Pub, a: Account)
    requires AccountsMirrorHeads(s)
    requires match Head(s, pub) case Some(head) => a.balance == head.balance && a.nonce == head.index case None => true
    ensures AccountsMirrorHeads(s.(accounts := s.accounts[pub := a]))
  {
    assert forall p :: Head(s.(accounts := s.accounts[pub := a]), p) == Head(s, p);
  }

  lemma EnrollKeepsMirror(s: Ledger, pub: Pub, account: Account)
    requires AccountsMirrorHeads(s) && (pub !in s.accounts ==> Chain(s, pub) == [])
    ensures AccountsMirrorHeads(RegisterAccount(s, pub, account))
  {
    if pub !in s.accounts {
      MirrorPut(s, pub, account);
    } else {
      MirrorPut(s, pub, s.accounts[pub].(pqPub := account.pqPub));
    }
  }

  lemma StepKeepsMirror(env: Env, s: Ledger, e: Event)
    requires AccountsMirrorHeads(s) && (e.Enroll? && e.pub !in s.accounts ==> Chain(s, e.pub) == [])
    ensures AccountsMirrorHeads(LedgerStep(env, s, e))
  {
    if e.Submit? && Judge(env, s, e.block, e.now).Accepted? {
      StoreKeepsMirror(s, e.block);
    } else if e.Enroll? {
      EnrollKeepsMirror(s, e.pub, e.account);
    }
  }

  // In append-only runs that register accounts before their blocks, forks included, the account table shows the heads.
  lemma {:induction false} AccountsShowHeads(env: Env, es: seq<Event>)
    requires AppendOnly(env, es) && EnrolledFirst(env, es)
    ensures AccountsMirrorHeads(Run(env, es).ledger)
  {
    if es != [] {
      LastStep(env, es);
      AccountsShowHeads(env, es[..|es| - 1]);
      StepKeepsMirror(env, Run(env, es[..|es| - 1]).ledger, es[|es| - 1]);
    }
  }
}

// What handleRejectedBlock undoes, and what it leaves behind.
module Rejection {
  import opened Basics
  import opened DagBlock
  import opened LedgerState
  import opened Nodes
  import opened Consistency
  import opened Health
  import Votes
  import opened VoteSafety

  lemma {:induction false} RemoveLast(chain: seq<Block>, b: Block)
    requires forall i :: 0 <= i < |chain| ==> chain[i].hash != b.hash
    ensures RemoveHash(chain + [b], b.hash) == chain
  {
    if chain != [] {
      RemoveLast(chain[1..], b);
      assert (chain + [b])[1..] == chain[1..] + [b];
    }
  }

  lemma {:induction false} WithoutAbsent(order: seq<Hash>, gone: set<Hash>)
    requires forall h :: h in order ==> h !in gone
    ensures Without(order, gone) == order
  {
    if order != [] {
      WithoutAbsent(order[..|order| - 1], gone);
    }
  }

  lemma UndoBlocks(s: Ledger, b: Block)
    requires Ordered(s.blocks, s.order) && b.hash !in s.blocks
    ensures Store(s, b).blocks - {b.hash} == s.blocks && Without(Store(s, b).order, {b.hash}) == s.order
  {
    assert (s.order + [b.hash])[..|s.order|] == s.order;
    WithoutAbsent(s.order, {b.hash});
  }

  lemma UndoChain(s: Ledger, b: Block)
    requires Chained(s.blocks, s.chains) && b.hash !in s.blocks
    ensures RemoveHash(Chain(s, b.accountPub) + [b], b.hash) == Chain(s, b.accountPub)
  {
    assert b.accountPub in s.chains ==> ChainOf(s.blocks, b.accountPub, s.chains[b.accountPub]);
    RemoveLast(Chain(s, b.accountPub), b);
  }

  lemma RestoresClaim(s: Ledger, b: Block)
    requires b.hash !in s.blocks && b.kind.Receive? && Backed(s.blocks, b) && PayloadComplete(s.blocks[b.sendBlockHash.value])
    ensures var h := b.sendBlockHash.value;
            Reject(Store(s, b), b.hash).unclaimed == s.unclaimed[h := UnclaimedOf(s.blocks[h])]
  {
  }

  // What rejecting the receive makes of the unclaimed map.
  lemma UndoClaim(s: Ledger, b: Block)
    requires Linked(s.blocks) && UnclaimedExact(s) && b.hash !in s.blocks
    requires b.kind.Receive? && Backed(s.blocks, b)
    ensures var h := b.sendBlockHash.value;
            && Reject(Store(s, b), b.hash).unclaimed == s.unclaimed[h := UnclaimedOf(s.blocks[h])]
            && (s.unclaimed[h := UnclaimedOf(s.blocks[h])] == s.unclaimed <==> h in s.unclaimed)
  {
    var h := b.sendBlockHash.value;
    var entry := UnclaimedOf(s.blocks[h]);
    assert PayloadComplete(s.blocks[h]) by {
      assert Sound(s.blocks[h], ParentIn(s.blocks, s.blocks[h]));
    }
    RestoresClaim(s, b);
    assert h in s.unclaimed ==> s.unclaimed[h] == entry;
    assert h in s.unclaimed[h := entry];
  }

  // Rejecting a receive that was just added restores blocks, their order, every chain's contents and the provider
  // state; it restores the chain table exactly when the account had a chain, and the unclaimed map exactly when
  // the send had not been claimed already.
  lemma RejectUndoesReceive(env: Env, s: Ledger, b: Block, now: int)
    requires Consistent(s) && b.kind.Receive? && Judge(env, s, b, now).Accepted? && |Chain(s, b.accountPub)| < MAX_CHAIN_MEMORY
    ensures var u := Reject(AddBlock(env, s, b, now), b.hash);
            && u.blocks == s.blocks && u.order == s.order && (forall p :: Chain(u, p) == Chain(s, p))
            && (u.chains == s.chains <==> b.accountPub in s.chains)
            && (u.unclaimed == s.unclaimed <==> b.sendBlockHash.value in s.unclaimed)
            && u.contracts == s.contracts && u.providers == s.providers && u.heartbeats == s.heartbeats
  {
    AcceptedIffAdmissible(env, s, b, now);
    UndoBlocks(s, b);
    UndoChain(s, b);
    UndoClaim(s, b);
    NothingPruned(s, b);
    RejectedParts(s, b);
  }

  lemma RejectedParts(s: Ledger, b: Block)
    requires b.kind.Receive? && RemoveHash(Chain(s, b.accountPub) + [b], b.hash) == Chain(s, b.accountPub)
    ensures var t, u := Store(s, b), Reject(Store(s, b), b.hash);
            && u.blocks == t.blocks - {b.hash} && u.order == Without(t.order, {b.hash})
            && u.chains == s.chains[b.accountPub := Chain(s, b.accountPub)] && (forall p :: Chain(u, p) == Chain(s, p))
            && (u.chains == s.chains <==> b.accountPub in s.chains)
            && u.contracts == s.contracts && u.providers == s.providers && u.heartbeats == s.heartbeats
  {
  }

  // ----- A block of any kind -------------------------------------------------------------------

  // What rejecting a block that was just added makes of the ledger: blocks, order and chain contents come back; contracts,
  // providers, heartbeat index and accounts stay as the block left them.
  lemma RejectedLeaves(s: Ledger, b: Block)
    requires Ordered(s.blocks, s.order) && Chained(s.blocks, s.chains) && b.hash !in s.blocks
    ensures var t, u := Store(s, b), Reject(Store(s, b), b.hash);
            && u.blocks == s.blocks && u.order == s.order && (forall p :: Chain(u, p) == Chain(s, p))
            && u.contracts == t.contracts && u.providers == t.providers && u.heartbeats == t.heartbeats && u.accounts == t.accounts
            && (!b.kind.Receive? ==> u.unclaimed == t.unclaimed)
  {
    UndoBlocks(s, b);
    UndoChain(s, b);
    assert Store(s, b).blocks[b.hash] == b;
  }

  // What an accepted block of each kind makes of the derived tables.
  predicate LeavesTables(s: Ledger, b: Block) {
    && !Deploys(b) && !b.kind.StorageHeartbeat? && !b.kind.StorageRegister? && !b.kind.StorageReward?
    && (b.kind.StorageDeregister? ==> b.accountPub !in s.providers)
  }

  lemma BeatsAfter(s: Ledger, b: Block)
    ensures Store(s, b).heartbeats == s.heartbeats <==> !b.kind.StorageHeartbeat?
  {
    if b.kind.StorageHeartbeat? {
      BeatCounted(Lookup(s.heartbeats, b.accountPub).GetOr(map[]), b);
    }
  }

  lemma ProvidersAfter(s: Ledger, b: Block)
    requires b.kind.StorageReward? ==> PayloadComplete(b) && RewardAllowed(s, b)
    ensures b.kind.StorageReward? ==> Store(s, b).providers != s.providers
    ensures LeavesTables(s, b) ==> Store(s, b).providers == s.providers
  {
    if b.kind.StorageReward? {
      assert Store(s, b).providers[b.accountPub].lastRewardEpoch == RewardEpoch(b) > s.providers[b.accountPub].lastRewardEpoch;
    }
    assert Put(s.providers, b.accountPub, Lookup(s.providers, b.accountPub)) == s.providers;
  }

  lemma TablesAfter(env: Env, s: Ledger, b: Block, now: int)
    requires Admissible(env, s, b, now) && ContractsExact(s)
    ensures var t := Store(s, b);
            && (t.contracts == s.contracts <==> !Deploys(b))
            && (t.heartbeats == s.heartbeats <==> !b.kind.StorageHeartbeat?)
            && (b.kind.StorageReward? ==> t.providers != s.providers)
            && (LeavesTables(s, b) ==> t.providers == s.providers)
  {
    assert Deploys(b) ==> b.hash in Store(s, b).contracts && b.hash !in s.contracts;
    BeatsAfter(s, b);
    ProvidersAfter(s, b);
  }

  lemma BeatCounted(index: map<int, nat>, b: Block)
    requires b.kind.StorageHeartbeat?
    ensures HeartbeatsAfter(index, b) != index
  {
    var e := EpochDay(b.timestamp);
    assert HeartbeatsAfter(index, b)[e] == Lookup(index, e).GetOr(0) + 1;
  }

  // Rejecting a block of any kind that was just added restores blocks, order and chain contents; it restores the
  // contracts exactly when the block deploys none, and the heartbeat index exactly when it is no heartbeat. A rejected
  // reward keeps its epoch and its earnings in the profile, and a rejected send its entry among the unclaimed.
  lemma RejectUndoesBlock(env: Env, s: Ledger, b: Block, now: int)
    requires Consistent(s) && Judge(env, s, b, now).Accepted? && |Chain(s, b.accountPub)| < MAX_CHAIN_MEMORY
    ensures var u := Reject(AddBlock(env, s, b, now), b.hash);
            && u.blocks == s.blocks && u.order == s.order && (forall p :: Chain(u, p) == Chain(s, p))
            && (u.contracts == s.contracts <==> !Deploys(b)) && (u.heartbeats == s.heartbeats <==> !b.kind.StorageHeartbeat?)
            && u.providers == Put(s.providers, b.accountPub, ProviderAfter(Lookup(s.providers, b.accountPub), b))
            && (b.kind.StorageReward? ==> u.providers != s.providers)
            && (LeavesTables(s, b) ==> u.providers == s.providers)
            && (!b.kind.Receive? ==> (u.unclaimed == s.unclaimed <==> !b.kind.Send?))
  {
    AcceptedIffAdmissible(env, s, b, now);
    NothingPruned(s, b);
    RejectedLeaves(s, b);
    TablesAfter(env, s, b, now);
    assert b.kind.Send? ==> b.hash !in s.unclaimed && b.hash in Store(s, b).unclaimed;
  }

  // A receive rejected later, when other blocks have come: the unclaimed map is exact again exactly when no other stored
  // receive names its send.
  lemma LaterRejectionIff(s: Ledger, r: Hash)
    requires Keyed(s.blocks) && Linked(s.blocks) && AllBacked(s.blocks) && UnclaimedExact(s) && r in s.blocks && s.blocks[r].kind.Receive?
    ensures var send := s.blocks[r].sendBlockHash.GetOr("");
            UnclaimedExact(Reject(s, r)) <==> forall g :: g in s.blocks && g != r ==> !Names(s.blocks[g], send)
  {
    var b := s.blocks[r];
    assert Backed(s.blocks, b);
    var h := b.sendBlockHash.value;
    assert Sound(s.blocks[h], ParentIn(s.blocks, s.blocks[h]));
    RestoredClaim(s, r, h);
  }

  lemma ClaimedWithout(blocks: map<Hash, Block>, r: Hash, h: Hash)
    ensures Claimed(blocks - {r}, h) <==> exists g :: g in blocks && g != r && Names(blocks[g], h)
  {
    if g :| g in blocks && g != r && Names(blocks[g], h) {
      assert g in blocks - {r};
    }
  }

  // Whether the entry of one hash is right after the rejection.
  predicate EntryRight(s: Ledger, k: Hash, claimed: bool) {
    k in s.unclaimed <==> k in s.blocks && s.blocks[k].kind.Send? && !claimed
  }

  lemma OtherEntries(s: Ledger, u: Ledger, r: Hash, h: Hash, k: Hash)
    requires r in s.blocks && Names(s.blocks[r], h) && k != h
    requires u.blocks == s.blocks - {r} && u.unclaimed.Keys == s.unclaimed.Keys + {h}
    requires EntryRight(s, k, Claimed(s.blocks, k))
    ensures EntryRight(u, k, Claimed(u.blocks, k))
  {
    ClaimedWithout(s.blocks, r, k);
  }

  lemma RestoredClaim(s: Ledger, r: Hash, h: Hash)
    requires Keyed(s.blocks) && UnclaimedExact(s) && r in s.blocks && Names(s.blocks[r], h) && h != ""
    requires h in s.blocks && s.blocks[h].kind.Send? && PayloadComplete(s.blocks[h])
    ensures UnclaimedExact(Reject(s, r)) <==> forall g :: g in s.blocks && g != r ==> !Names(s.blocks[g], h)
  {
    var u := Reject(s, r);
    assert u.blocks == s.blocks - {r} && u.unclaimed == s.unclaimed[h := UnclaimedOf(s.blocks[h])];
    ClaimedWithout(s.blocks, r, h);
    assert EntryRight(u, h, Claimed(u.blocks, h)) <==> !Claimed(u.blocks, h);
    forall k | k != h
      ensures EntryRight(u, k, Claimed(u.blocks, k))
    {
      OtherEntries(s, u, r, h, k);
    }
    ExactByEntry(u);
  }

  lemma ExactByEntry(u: Ledger)
    requires forall h :: h in u.unclaimed && h in u.blocks ==> Describes(u.unclaimed[h], u.blocks[h])
    ensures UnclaimedExact(u) <==> forall k :: EntryRight(u, k, Claimed(u.blocks, k))
  {
    if forall k :: EntryRight(u, k, Claimed(u.blocks, k)) {
      assert forall h :: h in u.unclaimed ==> EntryRight(u, h, Claimed(u.blocks, h));
    }
  }

  // Rejecting a send does not withdraw its unclaimed entry, but no receive that names it is accepted any more.
  lemma RejectedSendStaysListedButUnreceivable(env: Env, s: Ledger, h: Hash)
    requires h in s.blocks && s.blocks[h].kind.Send?
    ensures Reject(s, h).unclaimed == s.unclaimed
    ensures forall r: Block, now: int :: Names(r, h) ==> !Judge(env, Reject(s, h), r, now).Accepted?
  {
  }

  // ----- What depends on a rejected block ------------------------------------------------------

  lemma ChildKeepsParent(s: Ledger, h: Hash, g: Hash)
    requires Keyed(s.blocks) && Linked(s.blocks) && h in s.blocks && g in s.blocks && g != h
    ensures var after := Reject(s, h).blocks;
            && g in after && after[g] == s.blocks[g] && s.blocks[g].index >= 0
            && (Sound(after[g], ParentIn(after, after[g])) <==> s.blocks[g].kind.Open? || s.blocks[g].previousHash != h)
  {
    assert Sound(s.blocks[g], ParentIn(s.blocks, s.blocks[g]));
  }

  // Only the named block goes. Every other block keeps its parent exactly when none is a child of the rejected one.
  lemma ParentsSurviveIff(s: Ledger, h: Hash)
    requires Keyed(s.blocks) && Linked(s.blocks) && h in s.blocks
    ensures Linked(Reject(s, h).blocks) <==>
            forall g :: g in s.blocks && g != h && !s.blocks[g].kind.Open? ==> s.blocks[g].previousHash != h
  {
    forall g | g in s.blocks && g != h
      ensures g in Reject(s, h).blocks && s.blocks[g].index >= 0 && Reject(s, h).blocks[g] == s.blocks[g]
      ensures Sound(s.blocks[g], ParentIn(Reject(s, h).blocks, s.blocks[g])) <==> s.blocks[g].kind.Open? || s.blocks[g].previousHash != h
    {
      ChildKeepsParent(s, h, g);
    }
    assert Reject(s, h).blocks.Keys == s.blocks.Keys - {h};
  }

  // Every receive keeps its send exactly when none names the rejected block.
  lemma BackingSurvivesIff(s: Ledger, h: Hash)
    requires AllBacked(s.blocks) && h in s.blocks
    ensures AllBacked(Reject(s, h).blocks) <==> forall g :: g in s.blocks && g != h ==> !Names(s.blocks[g], h)
  {
    var after := Reject(s, h).blocks;
    forall g | g in s.blocks && g != h
      ensures Backed(after, after[g]) <==> !Names(s.blocks[g], h)
    {
      assert Backed(s.blocks, s.blocks[g]);
    }
    if g :| g in s.blocks && g != h && Names(s.blocks[g], h) {
      assert g in after && !Backed(after, after[g]);
    }
  }

  lemma {:induction false} RejectAllLeavesAccount(s: Ledger, hs: seq<Hash>, p: Pub)
    requires forall h :: h in hs && h in s.blocks ==> s.blocks[h].accountPub != p
    ensures Chain(RejectAll(s, hs), p) == Chain(s, p)
  {
    if hs != [] {
      RejectAllLeavesAccount(s, hs[..|hs| - 1], p);
      RejectAllBlocks(s, hs[..|hs| - 1]);
    }
  }

  // A resolution that rejects a send leaves a receive of it stored, without its send, and the receiver's chain and
  // balance as they were, unless it rejects a block of the receiver as well.
  lemma RejectedSendKeepsCredit(n: Node, now: int, h: Hash, r: Hash)
    requires Keyed(n.ledger.blocks) && r in n.ledger.blocks && Names(n.ledger.blocks[r], h)
    requires var rejected := Votes.ResolveConflicts(n.votes, now).rejected; h in rejected && r !in rejected
    ensures var s, t := n.ledger, ProcessConflicts(n, now).ledger;
            && h !in t.blocks && r in t.blocks && t.blocks[r] == s.blocks[r] && !AllBacked(t.blocks)
    ensures var s, t := n.ledger, ProcessConflicts(n, now).ledger;
            var q := s.blocks[r].accountPub;
            (forall g :: g in Votes.ResolveConflicts(n.votes, now).rejected && g in s.blocks ==> s.blocks[g].accountPub != q) ==>
              Chain(t, q) == Chain(s, q) && BalanceOf(t, q) == BalanceOf(s, q)
  {
    var s, t := n.ledger, ProcessConflicts(n, now).ledger;
    var rejected := Votes.ResolveConflicts(n.votes, now).rejected;
    RejectAllBlocks(s, rejected);
    assert !Backed(t.blocks, t.blocks[r]);
    if forall g :: g in rejected && g in s.blocks ==> s.blocks[g].accountPub != s.blocks[r].accountPub {
      RejectAllLeavesAccount(s, rejected, s.blocks[r].accountPub);
    }
  }

  // ----- Any stored block ----------------------------------------------------------------------

  // In every run, rejecting a stored block takes it out of the store and out of its chain, where the blocks before and
  // after it stay; the entry of a receive's stored send comes back; nothing else changes.
  lemma RejectExactly(env: Env, es: seq<Event>, h: Hash)
    requires h in Run(env, es).ledger.blocks
    ensures var s := Run(env, es).ledger;
            var b, t := s.blocks[h], Reject(s, h);
            && t.blocks == s.blocks - {h}
            && (forall p :: p != b.accountPub ==> Chain(t, p) == Chain(s, p))
            && (forall i :: 0 <= i < |Chain(s, b.accountPub)| && Chain(s, b.accountPub)[i] == b ==>
                  Chain(t, b.accountPub) == Chain(s, b.accountPub)[..i] + Chain(s, b.accountPub)[i + 1..])
            && (b !in Chain(s, b.accountPub) ==> Chain(t, b.accountPub) == Chain(s, b.accountPub))
            && (forall g :: if b.kind.Receive? && b.sendBlockHash == Some(g) && g in s.blocks && s.blocks[g].kind.Send?
                            then g in t.unclaimed && Describes(t.unclaimed[g], s.blocks[g])
                            else Lookup(t.unclaimed, g) == Lookup(s.unclaimed, g))
            && t.contracts == s.contracts && t.providers == s.providers && t.heartbeats == s.heartbeats && t.accounts == s.accounts
  {
    EveryRunHealthy(env, es);
    var s := Run(env, es).ledger;
    RejectedFromChain(s, h);
    RejectedEntries(s, h);
  }

  lemma RejectedFromChain(s: Ledger, h: Hash)
    requires Healthy(s) && h in s.blocks
    ensures var pub, b := s.blocks[h].accountPub, s.blocks[h];
            && (forall i :: 0 <= i < |Chain(s, pub)| && Chain(s, pub)[i] == b ==>
                  RemoveHash(Chain(s, pub), h) == Chain(s, pub)[..i] + Chain(s, pub)[i + 1..])
            && (b !in Chain(s, pub) ==> RemoveHash(Chain(s, pub), h) == Chain(s, pub))
  {
    var b := s.blocks[h];
    var chain := Chain(s, b.accountPub);
    assert ChainOf(s.blocks, b.accountPub, chain);
    if b in chain {
      forall i | 0 <= i < |chain| && chain[i] == b
        ensures RemoveHash(chain, h) == chain[..i] + chain[i + 1..]
      {
        RemoveAt(chain, i, h);
      }
    } else {
      RemoveNothing(chain, h);
    }
  }

  lemma RejectedEntries(s: Ledger, h: Hash)
    requires Healthy(s) && h in s.blocks
    ensures var b, t := s.blocks[h], Reject(s, h);
            forall g :: if b.kind.Receive? && b.sendBlockHash == Some(g) && g in s.blocks && s.blocks[g].kind.Send?
                        then g in t.unclaimed && Describes(t.unclaimed[g], s.blocks[g])
                        else Lookup(t.unclaimed, g) == Lookup(s.unclaimed, g)
  {
    var b := s.blocks[h];
    assert PayloadComplete(b);
    if b.kind.Receive? && b.sendBlockHash.value in s.blocks && s.blocks[b.sendBlockHash.value].kind.Send? {
      assert PayloadComplete(s.blocks[b.sendBlockHash.value]);
    }
  }
}

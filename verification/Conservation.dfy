// Conservation of supply over whole runs, and exactly when it holds.
module Conservation {
  import opened Basics
  import opened DagBlock
  import opened LedgerState
  import opened Nodes
  import opened Consistency
  import opened Lineage

  ghost function HeadBalances(chains: map<Pub, seq<Block>>): map<Pub, int> {
    map p | p in chains && chains[p] != [] :: chains[p][|chains[p]| - 1].balance
  }

  ghost function PendingAmounts(unclaimed: map<Hash, UnclaimedSend>): map<Hash, int> {
    map h | h in unclaimed :: unclaimed[h].amount
  }

  ghost function Rewards(blocks: map<Hash, Block>): map<Hash, int> {
    map h | h in blocks :: Moved(blocks[h], StorageReward)
  }

  // What accounts hold plus what is in flight.
  ghost function Supply(s: Ledger): int {
    Sum(HeadBalances(s.chains)) + Sum(PendingAmounts(s.unclaimed))
  }

  // What has been minted: one opening amount per account, and the rewards.
  ghost function Minted(s: Ledger): int {
    1_000_000_000 * |s.chains| + Sum(Rewards(s.blocks))
  }

  // No send is named by two receives.
  ghost predicate ClaimedOnce(blocks: map<Hash, Block>) {
    forall g, h :: g in blocks && h in blocks && SameClaim(blocks[g], blocks[h]) ==> g == h
  }

  predicate SameClaim(a: Block, b: Block) {
    a.kind.Receive? && b.kind.Receive? && a.sendBlockHash == b.sendBlockHash
  }

  // What a receive adds to the supply when its send has been claimed before.
  ghost function Inflation(s: Ledger, b: Block): int {
    if b.kind.Receive? && b.sendBlockHash.GetOr("") !in s.unclaimed then Delta(b) else 0
  }

  lemma HeadsAfter(s: Ledger, b: Block)
    requires forall p :: p in s.chains ==> s.chains[p] != []
    ensures Sum(HeadBalances(Store(s, b).chains)) == Sum(HeadBalances(s.chains)) - BalanceOf(s, b.accountPub) + b.balance
    ensures |Store(s, b).chains| == |s.chains| + if b.accountPub in s.chains then 0 else 1
  {
    HeadsPut(s.chains, b.accountPub, Chain(s, b.accountPub) + [b]);
    assert Lookup(HeadBalances(s.chains), b.accountPub).GetOr(0) == BalanceOf(s, b.accountPub);
  }

  lemma HeadsPut(chains: map<Pub, seq<Block>>, p: Pub, chain: seq<Block>)
    requires chain != []
    ensures Sum(HeadBalances(chains[p := chain])) ==
            Sum(HeadBalances(chains)) - Lookup(HeadBalances(chains), p).GetOr(0) + chain[|chain| - 1].balance
  {
    assert HeadBalances(chains[p := chain]) == HeadBalances(chains)[p := chain[|chain| - 1].balance];
    SumPut(HeadBalances(chains), p, chain[|chain| - 1].balance);
  }

  lemma PendingAfterSend(s: Ledger, b: Block)
    requires UnclaimedExact(s) && b.hash !in s.blocks && b.kind.Send? && PayloadComplete(b)
    ensures Sum(PendingAmounts(Store(s, b).unclaimed)) == Sum(PendingAmounts(s.unclaimed)) - Delta(b)
  {
    assert Store(s, b).unclaimed == s.unclaimed[b.hash := UnclaimedOf(b)];
    assert PendingAmounts(Store(s, b).unclaimed) == PendingAmounts(s.unclaimed)[b.hash := b.amount.value];
    SumPut(PendingAmounts(s.unclaimed), b.hash, b.amount.value);
  }

  lemma PendingAfterReceive(s: Ledger, b: Block)
    requires UnclaimedExact(s) && b.kind.Receive? && PayloadComplete(b) && Backed(s.blocks, b)
    ensures Sum(PendingAmounts(Store(s, b).unclaimed)) == Sum(PendingAmounts(s.unclaimed)) + Inflation(s, b) - Delta(b)
  {
    var h := b.sendBlockHash.value;
    assert Store(s, b).unclaimed == s.unclaimed - {h};
    assert PendingAmounts(Store(s, b).unclaimed) == PendingAmounts(s.unclaimed) - {h};
    if h in s.unclaimed {
      SumWithout(PendingAmounts(s.unclaimed), h);
    } else {
      assert PendingAmounts(s.unclaimed) - {h} == PendingAmounts(s.unclaimed);
    }
  }

  lemma RewardsAfter(blocks: map<Hash, Block>, b: Block)
    requires b.hash !in blocks
    ensures Sum(Rewards(blocks[b.hash := b])) == Sum(Rewards(blocks)) + Moved(b, StorageReward)
  {
    assert Rewards(blocks[b.hash := b]) == Rewards(blocks)[b.hash := Moved(b, StorageReward)];
    SumPut(Rewards(blocks), b.hash, Moved(b, StorageReward));
  }

  lemma ClaimedOnceAfter(blocks: map<Hash, Block>, b: Block)
    requires Keyed(blocks) && b.hash !in blocks && (b.kind.Receive? ==> b.sendBlockHash.Some?)
    ensures ClaimedOnce(blocks[b.hash := b]) <==>
            ClaimedOnce(blocks) && !(b.kind.Receive? && Claimed(blocks, b.sendBlockHash.value))
  {
    var after := blocks[b.hash := b];
    assert after[b.hash] == b && forall h :: h in blocks ==> h in after && after[h] == blocks[h];
    if b.kind.Receive? && Claimed(blocks, b.sendBlockHash.value) {
      var r :| r in blocks && Names(blocks[r], b.sendBlockHash.value);
      assert SameClaim(after[r], after[b.hash]) && r != b.hash;
    } else {
      forall h | h in blocks && (SameClaim(blocks[h], b) || SameClaim(b, blocks[h]))
        ensures false
      {
        assert Names(blocks[h], b.sendBlockHash.value);
      }
    }
  }

  // The balance a block is expected to start from: its account's head balance, or the opening amount when the account
  // has no chain yet.
  function Expected(s: Ledger, pub: Pub): int {
    if pub in s.chains then BalanceOf(s, pub) else VERIFICATION_MINT_AMOUNT
  }

  // By how much a block breaks conservation: what it receives a second time, plus what its parent's balance exceeds the
  // balance it should start from. The parent may be an older block, or a block of another account.
  ghost function Gap(s: Ledger, b: Block): int {
    Inflation(s, b) + match Parent(s, b) case Some(parent) => parent.balance - Expected(s, b.accountPub) case None => 0
  }

  lemma PendingAfter(s: Ledger, b: Block)
    requires UnclaimedExact(s) && b.hash !in s.blocks && PayloadComplete(b) && Backed(s.blocks, b)
    ensures Sum(PendingAmounts(Store(s, b).unclaimed)) ==
            Sum(PendingAmounts(s.unclaimed)) + Inflation(s, b) - if b.kind.Send? || b.kind.Receive? then Delta(b) else 0
  {
    if b.kind.Send? {
      PendingAfterSend(s, b);
    } else if b.kind.Receive? {
      PendingAfterReceive(s, b);
    } else {
      assert PendingAmounts(Store(s, b).unclaimed) == PendingAmounts(s.unclaimed);
    }
  }

  lemma SupplyChange(s: Ledger, b: Block)
    requires UnclaimedExact(s) && (forall p :: p in s.chains ==> s.chains[p] != [])
    requires b.hash !in s.blocks && Sound(b, Parent(s, b)) && Backed(s.blocks, b) && (b.kind.Open? ==> b.accountPub !in s.chains)
    ensures Supply(Store(s, b)) - Minted(Store(s, b)) == Supply(s) - Minted(s) + Gap(s, b)
  {
    HeadsAfter(s, b);
    RewardsAfter(s.blocks, b);
    PendingAfter(s, b);
  }

  // The balance sheet of one stored block.
  lemma SupplyAfter(s: Ledger, b: Block)
    requires Keyed(s.blocks) && UnclaimedExact(s) && (forall p :: p in s.chains ==> s.chains[p] != [])
    requires b.hash !in s.blocks && Sound(b, Parent(s, b)) && Backed(s.blocks, b) && (b.kind.Open? ==> b.accountPub !in s.chains)
    ensures Supply(Store(s, b)) - Minted(Store(s, b)) == Supply(s) - Minted(s) + Gap(s, b)
    ensures Inflation(s, b) >= 0
    ensures ClaimedOnce(Store(s, b).blocks) <==> ClaimedOnce(s.blocks) && Inflation(s, b) == 0
  {
    SupplyChange(s, b);
    ClaimedOnceAfter(s.blocks, b);
  }

  lemma SupplyAfterAccepted(env: Env, s: Ledger, b: Block, now: int)
    requires Consistent(s) && Judge(env, s, b, now).Accepted?
    ensures Supply(Store(s, b)) - Minted(Store(s, b)) == Supply(s) - Minted(s) + Gap(s, b)
  {
    AcceptedIffAdmissible(env, s, b, now);
    SupplyAfter(s, b);
  }

  // ----- Every append-only run -----------------------------------------------------------------

  // The gap a step opens: that of the block it stores.
  ghost function GapOf(env: Env, s: Ledger, e: Event): int {
    if e.Submit? && Judge(env, s, e.block, e.now).Accepted? then Gap(s, e.block) else 0
  }

  ghost function TotalGap(env: Env, es: seq<Event>): int {
    if es == [] then 0 else TotalGap(env, es[..|es| - 1]) + GapOf(env, Run(env, es[..|es| - 1]).ledger, es[|es| - 1])
  }

  lemma StepOpensGap(env: Env, s: Ledger, e: Event)
    requires Consistent(s)
    ensures var t := LedgerStep(env, s, e); Supply(t) - Minted(t) == Supply(s) - Minted(s) + GapOf(env, s, e)
  {
    if e.Submit? && Judge(env, s, e.block, e.now).Accepted? {
      SupplyAfterAccepted(env, s, e.block, e.now);
    } else {
      QuietStep(env, s, e);
    }
  }

  // In every append-only run, with forks, parents of other accounts and repeated claims, the supply differs from what
  // was minted by exactly the gaps of the stored blocks.
  lemma {:induction false} SupplyAccount(env: Env, es: seq<Event>)
    requires AppendOnly(env, es)
    ensures Supply(Run(env, es).ledger) - Minted(Run(env, es).ledger) == TotalGap(env, es)
  {
    if es != [] {
      LastStep(env, es);
      SupplyAccount(env, es[..|es| - 1]);
      AppendOnlyConsistent(env, es[..|es| - 1]);
      StepOpensGap(env, Run(env, es[..|es| - 1]).ledger, es[|es| - 1]);
    }
  }

  // The supply equals what was minted in every state the run passes through.
  ghost predicate AlwaysConserved(env: Env, es: seq<Event>) {
    Supply(Run(env, es).ledger) == Minted(Run(env, es).ledger) && (es != [] ==> AlwaysConserved(env, es[..|es| - 1]))
  }

  ghost predicate NoGaps(env: Env, es: seq<Event>) {
    es != [] ==> NoGaps(env, es[..|es| - 1]) && GapOf(env, Run(env, es[..|es| - 1]).ledger, es[|es| - 1]) == 0
  }

  // The exact condition for conservation throughout an append-only run.
  lemma {:induction false} ConservedIffNoGaps(env: Env, es: seq<Event>)
    requires AppendOnly(env, es)
    ensures AlwaysConserved(env, es) <==> NoGaps(env, es)
  {
    SupplyAccount(env, es);
    if es != [] {
      LastStep(env, es);
      ConservedIffNoGaps(env, es[..|es| - 1]);
      SupplyAccount(env, es[..|es| - 1]);
    }
  }

  // ----- Fork-free runs ------------------------------------------------------------------------

  // Never less supply than was minted, and exactly as much unless a send is named by two receives.
  ghost predicate Balanced(s: Ledger) {
    && Supply(s) >= Minted(s)
    && (Supply(s) == Minted(s) <==> ClaimedOnce(s.blocks))
  }

  // On the head of its account a block opens no gap but by a repeated claim.
  lemma HeadLeavesInflation(env: Env, s: Ledger, b: Block, now: int)
    requires Keyed(s.blocks) && Chained(s.blocks, s.chains) && ChainsInOrder(s.chains)
    requires Admissible(env, s, b, now) && Lineal(s.blocks[b.hash := b])
    ensures Gap(s, b) == Inflation(s, b)
  {
    if !b.kind.Open? {
      ParentIsHead(s, b);
    }
  }

  lemma AdmittedKeepsBalanced(env: Env, s: Ledger, b: Block, now: int)
    requires Consistent(s) && ChainsInOrder(s.chains) && Admissible(env, s, b, now) && Lineal(s.blocks[b.hash := b])
    requires Balanced(s)
    ensures Balanced(Store(s, b))
  {
    HeadLeavesInflation(env, s, b, now);
    SupplyAfter(s, b);
  }

  lemma AcceptedKeepsBalanced(env: Env, s: Ledger, b: Block, now: int)
    requires Consistent(s) && ChainsInOrder(s.chains) && Lineal(s.blocks[b.hash := b]) && Judge(env, s, b, now).Accepted?
    requires Balanced(s)
    ensures Balanced(Store(s, b))
  {
    AcceptedIffAdmissible(env, s, b, now);
    AdmittedKeepsBalanced(env, s, b, now);
  }

  lemma StepKeepsBalanced(env: Env, s: Ledger, e: Event)
    requires Consistent(s) && ChainsInOrder(s.chains) && Balanced(s) && Lineal(LedgerStep(env, s, e).blocks)
    ensures Balanced(LedgerStep(env, s, e))
  {
    if e.Submit? && Judge(env, s, e.block, e.now).Accepted? {
      AcceptedKeepsBalanced(env, s, e.block, e.now);
    } else {
      QuietStep(env, s, e);
    }
  }

  // In every append-only fork-free run with same-account parents the supply is never below what was minted,
  // and it equals what was minted exactly when no send is named by two receives.
  lemma {:induction false} SupplyConserved(env: Env, es: seq<Event>)
    requires AppendOnly(env, es) && Lineal(Run(env, es).ledger.blocks)
    ensures Balanced(Run(env, es).ledger)
  {
    if es != [] {
      var s := Run(env, es[..|es| - 1]).ledger;
      LastStep(env, es);
      LinealStep(env, s, es[|es| - 1]);
      SupplyConserved(env, es[..|es| - 1]);
      LinealRunInOrder(env, es[..|es| - 1]);
      AppendOnlyConsistent(env, es[..|es| - 1]);
      StepKeepsBalanced(env, s, es[|es| - 1]);
    }
  }
}

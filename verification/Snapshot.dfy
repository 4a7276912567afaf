// src/network/node.ts: exporting the stored blocks in insertion order and replaying them into an empty ledger.
module Snapshot {
  import opened Basics
  import opened DagBlock
  import opened LedgerState
  import opened Nodes
  import opened Consistency

  // The blocks of the export: the values of allBlocks in insertion order.
  function Export(s: Ledger): seq<Block>
    requires forall i :: 0 <= i < |s.order| ==> s.order[i] in s.blocks
  {
    seq(|s.order|, i requires 0 <= i < |s.order| => s.blocks[s.order[i]])
  }

  // The loop of applySnapshot, all at clock `now`.
  function Replay(env: Env, start: Ledger, bs: seq<Block>, now: int): Ledger {
    if bs == [] then start
    else AddBlock(env, Replay(env, start, bs[..|bs| - 1], now), bs[|bs| - 1], now)
  }

  // The snapshot's accounts, registered first.
  function Enrolled(start: Ledger, accounts: seq<(Pub, Account)>): Ledger {
    if accounts == [] then start
    else
      var (pub, account) := accounts[|accounts| - 1];
      RegisterAccount(Enrolled(start, accounts[..|accounts| - 1]), pub, account)
  }

  // A ledger that holds accounts and nothing else.
  predicate Fresh(start: Ledger) {
    start == EMPTY.(accounts := start.accounts)
  }

  predicate AllAccepted(env: Env, start: Ledger, bs: seq<Block>, now: int) {
    bs != [] ==>
      && AllAccepted(env, start, bs[..|bs| - 1], now)
      && Judge(env, Replay(env, start, bs[..|bs| - 1], now), bs[|bs| - 1], now).Accepted?
  }

  // Equal in everything but the account table.
  predicate SameButAccounts(s: Ledger, t: Ledger) {
    t == s.(accounts := t.accounts)
  }

  // ----- When a replay accepts everything ------------------------------------------------------

  // What the blocks do to an account table.
  function AccountsAfter(accounts: map<Pub, Account>, bs: seq<Block>): map<Pub, Account> {
    if bs == [] then accounts
    else
      var a, b := AccountsAfter(accounts, bs[..|bs| - 1]), bs[|bs| - 1];
      if b.accountPub in a then a[b.accountPub := AccountAfter(a[b.accountPub], b)] else a
  }

  function KeyIn(accounts: map<Pub, Account>, pub: Pub): Option<string> {
    if pub in accounts then accounts[pub].pqPub else None
  }

  predicate PqHolds(env: Env, b: Block, key: Option<string>) {
    Given(key) && Given(b.pqSignature) ==> env.pqVerify(b.hash, b.pqSignature.value, key.value)
  }

  // Each block's quantum-safe signature, if it has one, verifies under the key its account has at its turn.
  predicate PqChecks(env: Env, accounts: map<Pub, Account>, bs: seq<Block>) {
    bs != [] ==>
      && PqChecks(env, accounts, bs[..|bs| - 1])
      && PqHolds(env, bs[|bs| - 1], KeyIn(AccountsAfter(accounts, bs[..|bs| - 1]), bs[|bs| - 1].accountPub))
  }

  // The clock at replay is not behind any clock of the run.
  predicate ClocksUpTo(es: seq<Event>, now: int) {
    forall e :: e in es && e.Submit? ==> e.now <= now
  }

  // A block accepted once is accepted by a ledger that differs only in its accounts exactly when its
  // quantum-safe signature verifies there.
  lemma AcceptedAgain(env: Env, s: Ledger, t: Ledger, b: Block, now: int, later: int)
    requires SameButAccounts(s, t) && Judge(env, s, b, now).Accepted? && now <= later
    ensures Judge(env, t, b, later).Accepted? <==> PqHolds(env, b, PqOf(t, b.accountPub))
  {
  }

  lemma ExportOneMore(s: Ledger, b: Block)
    requires Ordered(s.blocks, s.order) && Ordered(Store(s, b).blocks, Store(s, b).order) && b.hash !in s.blocks
    ensures Export(Store(s, b)) == Export(s) + [b]
  {
  }

  lemma ReplayGrows(env: Env, start: Ledger, bs: seq<Block>, b: Block, now: int)
    ensures Replay(env, start, bs + [b], now) == AddBlock(env, Replay(env, start, bs, now), b, now)
    ensures AllAccepted(env, start, bs + [b], now) <==>
            AllAccepted(env, start, bs, now) && Judge(env, Replay(env, start, bs, now), b, now).Accepted?
  {
  }

  lemma ChecksGrow(env: Env, accounts: map<Pub, Account>, bs: seq<Block>, b: Block)
    ensures PqChecks(env, accounts, bs + [b]) <==>
            PqChecks(env, accounts, bs) && PqHolds(env, b, KeyIn(AccountsAfter(accounts, bs), b.accountPub))
    ensures var a := AccountsAfter(accounts, bs);
            AccountsAfter(accounts, bs + [b]) ==
            if b.accountPub in a then a[b.accountPub := AccountAfter(a[b.accountPub], b)] else a
  {
  }

  lemma ReplayOneMoreBlock(env: Env, s: Ledger, t: Ledger, b: Block, time: int, now: int)
    requires SameButAccounts(s, t) && Judge(env, s, b, time).Accepted? && time <= now && |Chain(s, b.accountPub)| < MAX_CHAIN_MEMORY
    ensures Judge(env, t, b, now).Accepted? <==> PqHolds(env, b, PqOf(t, b.accountPub))
    ensures Judge(env, t, b, now).Accepted? ==>
              && SameButAccounts(Store(s, b), AddBlock(env, t, b, now))
              && AddBlock(env, t, b, now).accounts == Store(t, b).accounts
  {
  }

  // What replaying the blocks `bs` of the ledger `s` comes to.
  ghost predicate ReplaysTo(env: Env, s: Ledger, start: Ledger, bs: seq<Block>, now: int) {
    && (AllAccepted(env, start, bs, now) <==> PqChecks(env, start.accounts, bs))
    && (AllAccepted(env, start, bs, now) ==>
          && SameButAccounts(s, Replay(env, start, bs, now))
          && Replay(env, start, bs, now).accounts == AccountsAfter(start.accounts, bs))
  }

  ghost predicate Exportable(s: Ledger) {
    Ordered(s.blocks, s.order) && forall i :: 0 <= i < |s.order| ==> s.order[i] in s.blocks
  }

  ghost predicate Replayed(env: Env, s: Ledger, start: Ledger, now: int) {
    Exportable(s) && ReplaysTo(env, s, start, Export(s), now)
  }

  lemma ReplaysOneMore(env: Env, s: Ledger, b: Block, time: int, start: Ledger, bs: seq<Block>, now: int)
    requires ReplaysTo(env, s, start, bs, now)
    requires Judge(env, s, b, time).Accepted? && time <= now && |Chain(s, b.accountPub)| < MAX_CHAIN_MEMORY
    ensures ReplaysTo(env, Store(s, b), start, bs + [b], now)
  {
    ReplayGrows(env, start, bs, b, now);
    ChecksGrow(env, start.accounts, bs, b);
    if AllAccepted(env, start, bs, now) {
      ReplayOneMoreBlock(env, s, Replay(env, start, bs, now), b, time, now);
    }
  }

  lemma ReplayedAccepted(env: Env, s: Ledger, b: Block, time: int, start: Ledger, now: int)
    requires Replayed(env, s, start, now) && Ordered(Store(s, b).blocks, Store(s, b).order)
    requires Judge(env, s, b, time).Accepted? && time <= now && |Chain(s, b.accountPub)| < MAX_CHAIN_MEMORY
    ensures Replayed(env, Store(s, b), start, now)
  {
    ExportOneMore(s, b);
    ReplaysOneMore(env, s, b, time, start, Export(s), now);
  }

  lemma ReplayedQuiet(env: Env, s: Ledger, t: Ledger, start: Ledger, now: int)
    requires Replayed(env, s, start, now) && SameButAccounts(s, t)
    ensures Replayed(env, t, start, now)
  {
  }

  // For every append-only run, forks included: feeding the stored blocks, in insertion order, to a ledger that holds
  // only accounts accepts every one of them exactly when their quantum-safe signatures check under the keys those
  // accounts have; it then rebuilds everything but the account table.
  lemma {:induction false} SnapshotReplays(env: Env, es: seq<Event>, start: Ledger, now: int)
    requires Fresh(start) && AppendOnly(env, es) && ClocksUpTo(es, now)
    ensures Replayed(env, Run(env, es).ledger, start, now)
  {
    if es != [] {
      var before, e := es[..|es| - 1], es[|es| - 1];
      var s := Run(env, before).ledger;
      LastStep(env, es);
      assert e in es && forall f :: f in before ==> f in es;
      SnapshotReplays(env, before, start, now);
      if e.Submit? && Judge(env, s, e.block, e.now).Accepted? {
        AppendOnlyConsistent(env, es);
        ReplayedAccepted(env, s, e.block, e.now, start, now);
      } else {
        QuietStep(env, s, e);
        ReplayedQuiet(env, s, Run(env, es).ledger, start, now);
      }
    }
  }

  // ----- Runs that change no PQ key ------------------------------------------------------------

  function KeyOf(pq: Option<string>): Option<string> {
    if Given(pq) then pq else None
  }

  predicate BringsOnly(b: Block, key: Option<string>) {
    b.kind.Update? && b.updateData.Some? && b.updateData.value.Changes? && Given(b.updateData.value.newPQPub) ==>
      b.updateData.value.newPQPub == key
  }

  // `keys` gives each account's key: every accepted block was checked under it, and no accepted update brings another.
  ghost predicate PqConstant(env: Env, es: seq<Event>, keys: map<Pub, string>) {
    es != [] ==>
      && PqConstant(env, es[..|es| - 1], keys)
      && var s, e := Run(env, es[..|es| - 1]).ledger, es[|es| - 1];
      (e.Submit? && Judge(env, s, e.block, e.now).Accepted? ==>
         && KeyOf(PqOf(s, e.block.accountPub)) == Lookup(keys, e.block.accountPub)
         && BringsOnly(e.block, Lookup(keys, e.block.accountPub)))
  }

  // Each key an account table knows is the one the blocks were checked under.
  ghost predicate AgreesWith(accounts: map<Pub, Account>, keys: map<Pub, string>) {
    forall p :: p in accounts && Given(accounts[p].pqPub) ==> accounts[p].pqPub == Lookup(keys, p)
  }

  // Registering a snapshot's accounts in an empty ledger gives a table to replay from.
  lemma {:induction false} EnrolledIsFresh(accounts: seq<(Pub, Account)>, keys: map<Pub, string>)
    requires forall a :: a in accounts && Given(a.1.pqPub) ==> a.1.pqPub == Lookup(keys, a.0)
    ensures Fresh(Enrolled(EMPTY, accounts)) && AgreesWith(Enrolled(EMPTY, accounts).accounts, keys)
  {
    if accounts != [] {
      EnrolledIsFresh(accounts[..|accounts| - 1], keys);
      assert accounts[|accounts| - 1] in accounts;
    }
  }

  lemma AcceptedSignature(env: Env, s: Ledger, b: Block, time: int)
    requires Judge(env, s, b, time).Accepted?
    ensures PqHolds(env, b, PqOf(s, b.accountPub))
  {
  }

  lemma ChecksOneMore(env: Env, accounts: map<Pub, Account>, bs: seq<Block>, b: Block, key: Option<string>, keys: map<Pub, string>)
    requires PqHolds(env, b, key) && KeyOf(key) == Lookup(keys, b.accountPub) && BringsOnly(b, Lookup(keys, b.accountPub))
    requires PqChecks(env, accounts, bs) && AgreesWith(AccountsAfter(accounts, bs), keys)
    ensures PqChecks(env, accounts, bs + [b]) && AgreesWith(AccountsAfter(accounts, bs + [b]), keys)
  {
    ChecksGrow(env, accounts, bs, b);
  }

  lemma AcceptedChecks(env: Env, s: Ledger, b: Block, time: int, start: Ledger, keys: map<Pub, string>)
    requires Ordered(s.blocks, s.order) && Ordered(Store(s, b).blocks, Store(s, b).order)
    requires Judge(env, s, b, time).Accepted?
    requires KeyOf(PqOf(s, b.accountPub)) == Lookup(keys, b.accountPub) && BringsOnly(b, Lookup(keys, b.accountPub))
    requires PqChecks(env, start.accounts, Export(s)) && AgreesWith(AccountsAfter(start.accounts, Export(s)), keys)
    ensures PqChecks(env, start.accounts, Export(Store(s, b)))
    ensures AgreesWith(AccountsAfter(start.accounts, Export(Store(s, b))), keys)
  {
    ExportOneMore(s, b);
    AcceptedSignature(env, s, b, time);
    ChecksOneMore(env, start.accounts, Export(s), b, PqOf(s, b.accountPub), keys);
  }

  lemma {:induction false} ConstantKeysCheck(env: Env, es: seq<Event>, start: Ledger, keys: map<Pub, string>)
    requires AppendOnly(env, es) && PqConstant(env, es, keys) && AgreesWith(start.accounts, keys)
    ensures var s := Run(env, es).ledger;
            && Exportable(s) && PqChecks(env, start.accounts, Export(s)) && AgreesWith(AccountsAfter(start.accounts, Export(s)), keys)
  {
    AppendOnlyConsistent(env, es);
    var t := Run(env, es).ledger;
    assert forall i :: 0 <= i < |t.order| ==> t.order[i] in t.order;
    if es != [] {
      var s, e := Run(env, es[..|es| - 1]).ledger, es[|es| - 1];
      LastStep(env, es);
      ConstantKeysCheck(env, es[..|es| - 1], start, keys);
      if e.Submit? && Judge(env, s, e.block, e.now).Accepted? {
        AcceptedChecks(env, s, e.block, e.now, start, keys);
      } else {
        QuietStep(env, s, e);
        assert Export(t) == Export(s);
      }
    }
  }

  function FinalKeys(accounts: map<Pub, Account>): map<Pub, string> {
    map p | p in accounts && Given(accounts[p].pqPub) :: accounts[p].pqPub.value
  }

  // A node's own snapshot, its accounts and its blocks, of a run that changed no PQ key: every block is accepted and
  // blocks, chains, unclaimed sends, contracts, providers and heartbeat index come out the same.
  lemma OwnSnapshotReplays(env: Env, es: seq<Event>, now: int)
    requires AppendOnly(env, es) && PqConstant(env, es, FinalKeys(Run(env, es).ledger.accounts)) && ClocksUpTo(es, now)
    ensures var s := Run(env, es).ledger;
            var start := EMPTY.(accounts := s.accounts);
            && Exportable(s) && AllAccepted(env, start, Export(s), now)
            && SameButAccounts(s, Replay(env, start, Export(s), now))
  {
    var s := Run(env, es).ledger;
    var start := EMPTY.(accounts := s.accounts);
    ConstantKeysCheck(env, es, start, FinalKeys(s.accounts));
    SnapshotReplays(env, es, start, now);
  }
}

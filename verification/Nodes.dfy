// One node: its ledger and its vote manager, the calls that change them, and runs of such calls.
module Nodes {
  import opened Basics
  import opened DagBlock
  import opened LedgerState
  import opened Votes

  datatype Node = Node(ledger: Ledger, votes: VoteState)

  const GENESIS := Node(EMPTY, NO_VOTES)

  datatype Event =
    | Submit(block: Block, now: int)          // addBlock
    | Enroll(pub: Pub, account: Account)      // registerAccount
    | Cast(vote: Vote, now: int)              // castVote
    | Process(now: int)                       // processConflicts

  function SlotOf(b: Block): Slot {
    Slot(b.accountPub, b.previousHash)
  }

  // addBlock registers a valid block with the vote manager before it refuses a second open block.
  predicate ReachesVotes(env: Env, s: Ledger, b: Block, now: int) {
    b.hash !in s.blocks && Validate(env, s, b, now).None?
  }

  function SubmitBlock(env: Env, n: Node, b: Block, now: int): Node {
    Node(AddBlock(env, n.ledger, b, now),
         if ReachesVotes(env, n.ledger, b, now) then Register(n.votes, b.hash, SlotOf(b), now) else n.votes)
  }

  function BalanceOf(s: Ledger, pub: Pub): int {
    match Head(s, pub)
    case Some(head) => head.balance
    case None => 0
  }

  // The stake castVote counts, whatever stake the vote claims; None when the head belongs to someone else.
  function VerifiedStake(s: Ledger, vote: Vote): Option<int> {
    if !Given(vote.chainHeadHash) then Some(0)
    else if vote.chainHeadHash.value !in s.blocks then Some(BalanceOf(s, vote.voterPub))
    else
      var head := s.blocks[vote.chainHeadHash.value];
      if head.accountPub != vote.voterPub then None else Some(head.balance)
  }

  function CastVote(n: Node, vote: Vote, now: int): Node {
    var stake := VerifiedStake(n.ledger, vote);
    if stake.None? || stake.value <= 0 then n
    else n.(votes := AddVote(n.votes, vote.(stake := stake.value), now))
  }

  function ProcessConflicts(n: Node, now: int): Node {
    var r := ResolveConflicts(n.votes, now);
    Node(RejectAll(n.ledger, r.rejected), r.votes)
  }

  function Step(env: Env, n: Node, e: Event): Node {
    match e
    case Submit(b, now) => SubmitBlock(env, n, b, now)
    case Enroll(pub, account) => n.(ledger := RegisterAccount(n.ledger, pub, account))
    case Cast(vote, now) => CastVote(n, vote, now)
    case Process(now) => ProcessConflicts(n, now)
  }

  function Run(env: Env, es: seq<Event>): Node {
    if es == [] then GENESIS
    else Step(env, Run(env, es[..|es| - 1]), es[|es| - 1])
  }

  // A step that removes no stored block: nothing is pruned and nothing stored is rejected.
  predicate Keeps(n: Node, e: Event) {
    match e
    case Submit(b, _) => |Chain(n.ledger, b.accountPub)| < MAX_CHAIN_MEMORY
    case Process(now) => forall h :: h in ResolveConflicts(n.votes, now).rejected ==> h !in n.ledger.blocks
    case _ => true
  }

  predicate AppendOnly(env: Env, es: seq<Event>) {
    es != [] ==> AppendOnly(env, es[..|es| - 1]) && Keeps(Run(env, es[..|es| - 1]), es[|es| - 1])
  }

  lemma NothingPruned(s: Ledger, b: Block)
    requires |Chain(s, b.accountPub)| < MAX_CHAIN_MEMORY
    ensures Prune(Store(s, b), b.accountPub) == Store(s, b)
  {
  }

  lemma {:induction false} RejectingNothing(s: Ledger, hs: seq<Hash>)
    requires forall h :: h in hs ==> h !in s.blocks
    ensures RejectAll(s, hs) == s
  {
    if hs != [] {
      RejectingNothing(s, hs[..|hs| - 1]);
    }
  }

  // What a step that removes nothing does to the ledger: it stores an accepted block or enrolls an account.
  function LedgerStep(env: Env, s: Ledger, e: Event): Ledger {
    match e
    case Submit(b, now) => if Judge(env, s, b, now).Accepted? then Store(s, b) else s
    case Enroll(pub, account) => RegisterAccount(s, pub, account)
    case _ => s
  }

  lemma QuietStep(env: Env, s: Ledger, e: Event)
    requires !(e.Submit? && Judge(env, s, e.block, e.now).Accepted?)
    ensures LedgerStep(env, s, e) == s.(accounts := LedgerStep(env, s, e).accounts)
  {
  }

  lemma KeptLedger(env: Env, n: Node, e: Event)
    requires Keeps(n, e)
    ensures Step(env, n, e).ledger == LedgerStep(env, n.ledger, e)
  {
    if e.Process? {
      RejectingNothing(n.ledger, ResolveConflicts(n.votes, e.now).rejected);
    } else if e.Submit? {
      NothingPruned(n.ledger, e.block);
    }
  }

  // An append-only run, one step at a time, as seen by the ledger.
  lemma LastStep(env: Env, es: seq<Event>)
    requires AppendOnly(env, es) && es != []
    ensures AppendOnly(env, es[..|es| - 1])
    ensures Run(env, es).ledger == LedgerStep(env, Run(env, es[..|es| - 1]).ledger, es[|es| - 1])
  {
    KeptLedger(env, Run(env, es[..|es| - 1]), es[|es| - 1]);
  }
}

// Who can extend a chain: in every run each stored block is signed, over its own hash, under its own account's key.
module Signatures {
  import opened Basics
  import opened DagBlock
  import opened LedgerState
  import opened Nodes
  import opened Consistency
  import opened Health
  import Votes
  import opened VoteSafety

  ghost predicate AllSigned(env: Env, blocks: map<Hash, Block>) {
    forall h :: h in blocks ==>
      && blocks[h].hash == h && env.digest(HashInput(blocks[h])) == h
      && env.verify(blocks[h].signature, blocks[h].accountPub) == Some(h)
  }

  lemma AcceptedIsSigned(env: Env, s: Ledger, b: Block, now: int)
    requires Judge(env, s, b, now).Accepted?
    ensures env.digest(HashInput(b)) == b.hash && env.verify(b.signature, b.accountPub) == Some(b.hash)
  {
    AcceptedIffAdmissible(env, s, b, now);
  }

  lemma SubmitKeepsSigned(env: Env, s: Ledger, b: Block, now: int)
    requires AllSigned(env, s.blocks)
    ensures AllSigned(env, AddBlock(env, s, b, now).blocks)
  {
    AddBlocks(env, s, b, now);
    if Judge(env, s, b, now).Accepted? {
      AcceptedIsSigned(env, s, b, now);
    }
  }

  lemma StepKeepsSigned(env: Env, n: Node, e: Event)
    requires AllSigned(env, n.ledger.blocks)
    ensures AllSigned(env, Step(env, n, e).ledger.blocks)
  {
    match e
    case Submit(b, now) =>
      SubmitKeepsSigned(env, n.ledger, b, now);
    case Enroll(_, _) =>
    case Cast(_, _) =>
    case Process(now) => RejectAllBlocks(n.ledger, Votes.ResolveConflicts(n.votes, now).rejected);
  }

  lemma {:induction false} EveryStoredBlockIsSigned(env: Env, es: seq<Event>)
    ensures AllSigned(env, Run(env, es).ledger.blocks)
  {
    if es != [] {
      EveryStoredBlockIsSigned(env, es[..|es| - 1]);
      StepKeepsSigned(env, Run(env, es[..|es| - 1]), es[|es| - 1]);
    }
  }

  // Only an account's key extends its chain: in every run each block of the chain of p verifies under p, to its own hash.
  lemma EveryChainIsSigned(env: Env, es: seq<Event>, p: Pub, i: nat)
    requires i < |Chain(Run(env, es).ledger, p)|
    ensures var b := Chain(Run(env, es).ledger, p)[i];
            b.accountPub == p && env.digest(HashInput(b)) == b.hash && env.verify(b.signature, p) == Some(b.hash)
  {
    EveryRunHealthy(env, es);
    EveryStoredBlockIsSigned(env, es);
    assert ChainOf(Run(env, es).ledger.blocks, p, Chain(Run(env, es).ledger, p));
  }

  // A new block whose signature is not the account's over the block's own hash is refused, whatever else the account signed.
  lemma UnsignedIsRefused(env: Env, s: Ledger, b: Block, now: int)
    requires b.hash !in s.blocks && env.digest(HashInput(b)) == b.hash && env.verify(b.signature, b.accountPub) != Some(b.hash)
    ensures Judge(env, s, b, now) == Refused(InvalidSignature)
  {
  }
}

// Building concrete runs, to show that what the theorems exclude does happen.
module Scenarios {
  import opened Basics
  import opened DagBlock
  import opened LedgerState
  import opened Votes
  import opened Nodes
  import opened Consistency
  import opened Creators

  // The blocks are told apart by the content they refer to.
  function Label(b: Block): string {
    b.contentCid.GetOr("")
  }

  // An environment in which the runs can be played: a signature is the text it signs, no quantum-safe signature verifies,
  // and the digest tells accounts, parents and labels apart.
  ghost predicate Plain(env: Env) {
    && !env.mainnet
    && (forall sig: string, pub: Pub :: env.verify(sig, pub) == Some(sig))
    && (forall hash: Hash, sig: string, key: string :: !env.pqVerify(hash, sig, key))
    && (forall b: Block :: env.digest(b) != "" && env.digest(b) != ZERO_HASH)
    && (forall a: Block, b: Block :: env.digest(HashInput(a)) == env.digest(HashInput(b)) ==>
          a.accountPub == b.accountPub && a.previousHash == b.previousHash && Label(a) == Label(b))
  }

  // ----- There is such an environment ----------------------------------------------------------

  function Pair(a: string, b: string): string {
    if a == [] then "." + b else "," + [a[0]] + Pair(a[1..], b)
  }

  lemma {:induction false} PairInjective(a: string, b: string, c: string, d: string)
    requires Pair(a, b) == Pair(c, d)
    ensures a == c && b == d
  {
    if a == [] || c == [] {
      assert Pair(a, b)[0] == Pair(c, d)[0];
      assert b == Pair(a, b)[1..] && d == Pair(c, d)[1..];
    } else {
      assert Pair(a, b)[1] == Pair(c, d)[1] && Pair(a[1..], b) == Pair(a, b)[2..] == Pair(c, d)[2..] == Pair(c[1..], d);
      PairInjective(a[1..], b, c[1..], d);
      assert a == [a[0]] + a[1..] && c == [c[0]] + c[1..];
    }
  }

  function PairDigest(b: Block): Hash {
    Pair(b.accountPub, Pair(b.previousHash, Label(b))) + "."
  }

  lemma DigestNotZero(b: Block)
    ensures PairDigest(b) != "" && PairDigest(b) != ZERO_HASH
  {
    var d := PairDigest(b);
    assert d[|d| - 1] == '.' && ZERO_HASH[|ZERO_HASH| - 1] == '0';
  }

  lemma DigestInjective(a: Block, b: Block)
    requires PairDigest(a) == PairDigest(b)
    ensures a.accountPub == b.accountPub && a.previousHash == b.previousHash && Label(a) == Label(b)
  {
    var d, e := PairDigest(a), PairDigest(b);
    assert d[..|d| - 1] == Pair(a.accountPub, Pair(a.previousHash, Label(a)));
    assert e[..|e| - 1] == Pair(b.accountPub, Pair(b.previousHash, Label(b)));
    PairInjective(a.accountPub, Pair(a.previousHash, Label(a)), b.accountPub, Pair(b.previousHash, Label(b)));
    PairInjective(a.previousHash, Label(a), b.previousHash, Label(b));
  }

  lemma PlainExists() returns (env: Env)
    ensures Plain(env) && CollisionFree(env)
  {
    env := Env((b: Block) => PairDigest(b), (sig, pub) => Some(sig), (hash, sig, key) => false, false);
    forall b: Block
      ensures env.digest(b) != "" && env.digest(b) != ZERO_HASH
    {
      DigestNotZero(b);
    }
    forall a: Block, b: Block | env.digest(HashInput(a)) == env.digest(HashInput(b))
      ensures a.accountPub == b.accountPub && a.previousHash == b.previousHash && Label(a) == Label(b)
    {
      DigestInjective(HashInput(a), HashInput(b));
    }
  }

  // ----- Blocks --------------------------------------------------------------------------------

  function Sign(env: Env, b: Block): Block {
    b.(hash := env.digest(HashInput(b)), signature := env.digest(HashInput(b)))
  }

  function Opening(pub: Pub, tag: string): Block {
    Draft(pub, 0, Open, ZERO_HASH, VERIFICATION_MINT_AMOUNT).(
      faceMapHash := Some("face"), relayCredentials := [RelayCredential("relay", "face")], contentCid := Some(tag))
  }

  function After(parent: Block, kind: BlockType, delta: int, tag: string): Block {
    Draft(parent.accountPub, parent.index + 1, kind, parent.hash, parent.balance + delta).(contentCid := Some(tag))
  }

  function Sending(parent: Block, to: Pub, amount: int, tag: string): Block {
    After(parent, Send, -amount, tag).(recipient := Some(to), amount := Some(amount))
  }

  function Receiving(parent: Block, send: Hash, amount: int, tag: string): Block {
    After(parent, Receive, amount, tag).(sendBlockHash := Some(send), receiveAmount := Some(amount))
  }

  // ----- Runs ----------------------------------------------------------------------------------

  // The run that submits the blocks one after the other, all at one clock, and the ledger it leaves if it accepts all.
  function Submits(bs: seq<Block>, now: int): seq<Event> {
    if bs == [] then [] else Submits(bs[..|bs| - 1], now) + [Submit(bs[|bs| - 1], now)]
  }

  function Table(bs: seq<Block>): Ledger {
    if bs == [] then EMPTY else Store(Table(bs[..|bs| - 1]), bs[|bs| - 1])
  }

  predicate AcceptedAt(env: Env, bs: seq<Block>, i: nat, now: int)
    requires i < |bs|
  {
    Judge(env, Table(bs[..i]), bs[i], now).Accepted?
  }

  ghost predicate Playable(env: Env, bs: seq<Block>, now: int) {
    forall i: nat :: i < |bs| ==> AcceptedAt(env, bs, i, now)
  }

  lemma PlayableMore(env: Env, bs: seq<Block>, b: Block, now: int)
    ensures Playable(env, bs + [b], now) <==> Playable(env, bs, now) && Judge(env, Table(bs), b, now).Accepted?
  {
    var more := bs + [b];
    forall i: nat | i < |bs|
      ensures AcceptedAt(env, more, i, now) <==> AcceptedAt(env, bs, i, now)
    {
      assert more[..i] == bs[..i];
    }
    assert more[..|bs|] == bs && (AcceptedAt(env, more, |bs|, now) <==> Judge(env, Table(bs), b, now).Accepted?);
  }

  lemma Submitted(env: Env, es: seq<Event>, b: Block, now: int)
    requires AppendOnly(env, es) && |Chain(Run(env, es).ledger, b.accountPub)| < MAX_CHAIN_MEMORY
    requires Judge(env, Run(env, es).ledger, b, now).Accepted?
    ensures var n, more := Run(env, es), es + [Submit(b, now)];
            AppendOnly(env, more) && Run(env, more) == Node(Store(n.ledger, b), Register(n.votes, b.hash, SlotOf(b), now))
  {
    assert (es + [Submit(b, now)])[..|es|] == es;
    NothingPruned(Run(env, es).ledger, b);
  }

  lemma {:induction false} ChainWithin(bs: seq<Block>, pub: Pub)
    ensures |Chain(Table(bs), pub)| <= |bs|
  {
    if bs != [] {
      ChainWithin(bs[..|bs| - 1], pub);
    }
  }

  lemma {:induction false} Played(env: Env, bs: seq<Block>, now: int)
    requires Playable(env, bs, now) && |bs| <= MAX_CHAIN_MEMORY
    ensures AppendOnly(env, Submits(bs, now)) && Run(env, Submits(bs, now)).ledger == Table(bs)
  {
    if bs != [] {
      assert bs == bs[..|bs| - 1] + [bs[|bs| - 1]];
      PlayableMore(env, bs[..|bs| - 1], bs[|bs| - 1], now);
      Played(env, bs[..|bs| - 1], now);
      ChainWithin(bs[..|bs| - 1], bs[|bs| - 1].accountPub);
      Submitted(env, Submits(bs[..|bs| - 1], now), bs[|bs| - 1], now);
    }
  }

  // Blocks with their own digests and different tags.
  ghost predicate Tagged(env: Env, bs: seq<Block>) {
    && (forall b :: b in bs ==> b == Sign(env, b))
    && (forall i, j :: 0 <= i < j < |bs| ==> Label(bs[i]) != Label(bs[j]))
  }

  predicate NewTag(bs: seq<Block>, tag: string) {
    forall b :: b in bs ==> Label(b) != tag
  }

  lemma TagsTellHashes(env: Env, a: Block, b: Block)
    requires Plain(env) && a == Sign(env, a) && b == Sign(env, b) && Label(a) != Label(b)
    ensures a.hash != b.hash
  {
    assert HashInput(a) == HashInput(Sign(env, a)) && HashInput(b) == HashInput(Sign(env, b));
  }

  // The ledger holds exactly these blocks, and no account record.
  ghost predicate HoldsExactly(s: Ledger, bs: seq<Block>) {
    && s.accounts == map[]
    && (forall b :: b in bs ==> Lookup(s.blocks, b.hash) == Some(b))
    && (forall h :: h in s.blocks ==> s.blocks[h].hash == h && s.blocks[h] in bs)
    && (forall pub :: pub in s.chains ==> exists b :: b in bs && b.accountPub == pub)
  }

  lemma HoldsOneMore(s: Ledger, bs: seq<Block>, b: Block)
    requires HoldsExactly(s, bs) && forall c :: c in bs ==> c.hash != b.hash
    ensures HoldsExactly(Store(s, b), bs + [b])
  {
    assert forall c :: c in bs + [b] <==> c in bs || c == b;
  }

  predicate DistinctHashes(bs: seq<Block>) {
    forall i, j :: 0 <= i < j < |bs| ==> bs[i].hash != bs[j].hash
  }

  lemma LastHashIsNew(bs: seq<Block>)
    requires bs != [] && DistinctHashes(bs)
    ensures bs == bs[..|bs| - 1] + [bs[|bs| - 1]] && DistinctHashes(bs[..|bs| - 1])
    ensures forall c :: c in bs[..|bs| - 1] ==> c.hash != bs[|bs| - 1].hash
  {
  }

  lemma NothingHeld()
    ensures HoldsExactly(EMPTY, [])
  {
  }

  lemma {:induction false} StoredDistinct(bs: seq<Block>)
    requires DistinctHashes(bs)
    ensures HoldsExactly(Table(bs), bs)
  {
    if bs == [] {
      NothingHeld();
    } else {
      var init, last := bs[..|bs| - 1], bs[|bs| - 1];
      LastHashIsNew(bs);
      StoredDistinct(init);
      HoldsOneMore(Table(init), init, last);
    }
  }

  lemma StoredBlocks(env: Env, bs: seq<Block>)
    requires Plain(env) && Tagged(env, bs)
    ensures HoldsExactly(Table(bs), bs)
  {
    forall i, j | 0 <= i < j < |bs|
      ensures bs[i].hash != bs[j].hash
    {
      assert bs[i] in bs && bs[j] in bs;
      TagsTellHashes(env, bs[i], bs[j]);
    }
    StoredDistinct(bs);
  }

  lemma SameEndorsements(env: Env, b: Block)
    ensures Endorsements(env, Sign(env, b)) == Endorsements(env, b)
  {
  }

  lemma OpeningEndorsed(env: Env, pub: Pub, tag: string)
    requires Plain(env)
    ensures |Endorsements(env, Opening(pub, tag))| == 1
  {
    assert Endorsements(env, Opening(pub, tag)) == {0};
  }

  // A sound and allowed block is accepted once it is signed.
  lemma Admitted(env: Env, s: Ledger, draft: Block, now: int)
    requires Plain(env) && s.accounts == map[] && Sign(env, draft).hash !in s.blocks
    requires Sound(draft, Parent(s, draft)) && KindAllows(env, s, draft, now)
    ensures Judge(env, s, Sign(env, draft), now).Accepted?
  {
    var b := Sign(env, draft);
    assert HashInput(b) == HashInput(draft);
    SameEndorsements(env, draft);
    assert Sound(b, Parent(s, b));
    AcceptedIffAdmissible(env, s, b, now);
  }

  // A sequence of signed and differently tagged blocks that plays.
  ghost predicate Game(env: Env, bs: seq<Block>, now: int) {
    Playable(env, bs, now) && Tagged(env, bs)
  }

  lemma TableMore(bs: seq<Block>, b: Block)
    ensures Table(bs + [b]) == Store(Table(bs), b)
  {
    assert (bs + [b])[..|bs|] == bs;
  }

  lemma NewHash(env: Env, bs: seq<Block>, draft: Block)
    requires Plain(env) && Tagged(env, bs) && NewTag(bs, Label(draft))
    ensures Sign(env, draft).hash !in Table(bs).blocks && Tagged(env, bs + [Sign(env, draft)])
  {
    var b := Sign(env, draft);
    StoredBlocks(env, bs);
    assert HashInput(b) == HashInput(draft);
    forall c | c in bs
      ensures c.hash != b.hash
    {
      TagsTellHashes(env, c, b);
    }
  }

  lemma Grow(env: Env, bs: seq<Block>, draft: Block, now: int)
    requires Plain(env) && Game(env, bs, now) && NewTag(bs, Label(draft))
    requires Sound(draft, Parent(Table(bs), draft)) && KindAllows(env, Table(bs), draft, now)
    ensures Game(env, bs + [Sign(env, draft)], now)
  {
    NewHash(env, bs, draft);
    StoredBlocks(env, bs);
    Admitted(env, Table(bs), draft, now);
    PlayableMore(env, bs, Sign(env, draft), now);
  }

  // An account opens.
  lemma Opens(env: Env, bs: seq<Block>, pub: Pub, tag: string, now: int) returns (b: Block)
    requires Plain(env) && Game(env, bs, now) && NewTag(bs, tag) && forall c :: c in bs ==> c.accountPub != pub
    ensures Game(env, bs + [b], now) && Label(b) == tag && b.accountPub == pub && b.previousHash == ZERO_HASH
    ensures b.kind.Open? && b.index == 0 && b.balance == VERIFICATION_MINT_AMOUNT
  {
    b := Sign(env, Opening(pub, tag));
    StoredBlocks(env, bs);
    OpeningEndorsed(env, pub, tag);
    Grow(env, bs, Opening(pub, tag), now);
  }

  // `b` is built on `parent` by an account, which need not be the parent's.
  predicate Builds(b: Block, pub: Pub, parent: Block, kind: BlockType, delta: int, tag: string) {
    && b.kind == kind && b.accountPub == pub && b.previousHash == parent.hash && b.index == parent.index + 1
    && b.balance == parent.balance + delta && Label(b) == tag
  }

  lemma SendingAllowed(env: Env, s: Ledger, pub: Pub, parent: Block, to: Pub, amount: int, tag: string, now: int)
    requires Lookup(s.blocks, parent.hash) == Some(parent) && to != "" && 0 < amount <= parent.balance <= MAX_SAFE_INTEGER
    ensures var draft := Sending(parent, to, amount, tag).(accountPub := pub);
            Sound(draft, Parent(s, draft)) && KindAllows(env, s, draft, now)
  {
  }

  lemma ReceivingAllowed(env: Env, s: Ledger, parent: Block, send: Block, tag: string, now: int)
    requires Lookup(s.blocks, parent.hash) == Some(parent) && Lookup(s.blocks, send.hash) == Some(send) && send.hash != ""
    requires send.kind.Send? && send.recipient == Some(parent.accountPub) && send.amount.Some? && 0 < send.amount.value
    requires 0 <= parent.balance && parent.balance + send.amount.value <= MAX_SAFE_INTEGER
    ensures var draft := Receiving(parent, send.hash, send.amount.value, tag);
            Sound(draft, Parent(s, draft)) && KindAllows(env, s, draft, now)
  {
  }

  lemma GrowSending(env: Env, bs: seq<Block>, pub: Pub, parent: Block, to: Pub, amount: int, tag: string, now: int)
    requires Plain(env) && Game(env, bs, now) && NewTag(bs, tag) && parent in bs
    requires to != "" && 0 < amount <= parent.balance <= MAX_SAFE_INTEGER
    ensures Game(env, bs + [Sign(env, Sending(parent, to, amount, tag).(accountPub := pub))], now)
  {
    StoredBlocks(env, bs);
    SendingAllowed(env, Table(bs), pub, parent, to, amount, tag, now);
    Grow(env, bs, Sending(parent, to, amount, tag).(accountPub := pub), now);
  }

  // An account sends from the balance of a stored block.
  lemma Sends(env: Env, bs: seq<Block>, pub: Pub, parent: Block, to: Pub, amount: int, tag: string, now: int) returns (b: Block)
    requires Plain(env) && Game(env, bs, now) && NewTag(bs, tag) && parent in bs
    requires to != "" && 0 < amount <= parent.balance <= MAX_SAFE_INTEGER
    ensures Game(env, bs + [b], now) && Builds(b, pub, parent, Send, -amount, tag)
    ensures b.recipient == Some(to) && b.amount == Some(amount)
  {
    GrowSending(env, bs, pub, parent, to, amount, tag, now);
    b := Sign(env, Sending(parent, to, amount, tag).(accountPub := pub));
  }

  lemma GrowReceiving(env: Env, bs: seq<Block>, parent: Block, send: Block, tag: string, now: int)
    requires Plain(env) && Game(env, bs, now) && NewTag(bs, tag) && parent in bs && send in bs
    requires send.kind.Send? && send.recipient == Some(parent.accountPub) && send.amount.Some? && 0 < send.amount.value
    requires 0 <= parent.balance && parent.balance + send.amount.value <= MAX_SAFE_INTEGER
    ensures Game(env, bs + [Sign(env, Receiving(parent, send.hash, send.amount.value, tag))], now)
  {
    StoredBlocks(env, bs);
    assert send == Sign(env, send) && send.hash != "";
    ReceivingAllowed(env, Table(bs), parent, send, tag, now);
    Grow(env, bs, Receiving(parent, send.hash, send.amount.value, tag), now);
  }

  // An account receives a stored send, on top of a stored block.
  lemma Receives(env: Env, bs: seq<Block>, parent: Block, send: Block, tag: string, now: int) returns (b: Block)
    requires Plain(env) && Game(env, bs, now) && NewTag(bs, tag) && parent in bs && send in bs
    requires send.kind.Send? && send.recipient == Some(parent.accountPub) && send.amount.Some? && 0 < send.amount.value
    requires 0 <= parent.balance && parent.balance + send.amount.value <= MAX_SAFE_INTEGER
    ensures Game(env, bs + [b], now) && Builds(b, parent.accountPub, parent, Receive, send.amount.value, tag)
    ensures b.sendBlockHash == Some(send.hash) && b.receiveAmount == send.amount
  {
    GrowReceiving(env, bs, parent, send, tag, now);
    b := Sign(env, Receiving(parent, send.hash, send.amount.value, tag));
  }

  // The blocks of one account, in order.
  function Of(bs: seq<Block>, pub: Pub): seq<Block> {
    if bs == [] then []
    else Of(bs[..|bs| - 1], pub) + if bs[|bs| - 1].accountPub == pub then [bs[|bs| - 1]] else []
  }

  lemma {:induction false} ChainIsOf(bs: seq<Block>, pub: Pub)
    ensures Chain(Table(bs), pub) == Of(bs, pub)
  {
    if bs != [] {
      ChainIsOf(bs[..|bs| - 1], pub);
    }
  }

  // ----- A transfer ----------------------------------------------------------------------------

  // P and Q open, P sends 5 to Q, and Q receives it.
  datatype Parties = Parties(openP: Block, openQ: Block, send: Block, receive: Block)

  function Blocks(x: Parties): seq<Block> {
    [x.openP, x.openQ, x.send, x.receive]
  }

  predicate IsOpening(b: Block, pub: Pub, tag: string) {
    && b.kind.Open? && b.accountPub == pub && b.previousHash == ZERO_HASH && b.index == 0
    && b.balance == VERIFICATION_MINT_AMOUNT && Label(b) == tag
  }

  predicate Transferred(x: Parties) {
    && IsOpening(x.openP, "P", "1") && IsOpening(x.openQ, "Q", "2")
    && Builds(x.send, "P", x.openP, Send, -5, "3") && x.send.recipient == Some("Q") && x.send.amount == Some(5)
    && Builds(x.receive, "Q", x.openQ, Receive, 5, "4")
    && x.receive.sendBlockHash == Some(x.send.hash) && x.receive.receiveAmount == Some(5)
  }

  lemma Openings(env: Env, now: int) returns (p: Block, q: Block)
    requires Plain(env)
    ensures IsOpening(p, "P", "1") && IsOpening(q, "Q", "2") && Game(env, [p, q], now)
  {
    p := Opens(env, [], "P", "1", now);
    assert [] + [p] == [p];
    q := Opens(env, [p], "Q", "2", now);
    assert [p] + [q] == [p, q];
  }

  lemma Transfer(env: Env, now: int) returns (x: Parties)
    requires Plain(env)
    ensures Transferred(x) && Game(env, Blocks(x), now)
  {
    var p, q := Openings(env, now);
    var s := Sends(env, [p, q], "P", p, "Q", 5, "3", now);
    assert [p, q] + [s] == [p, q, s];
    var r := Receives(env, [p, q, s], q, s, "4", now);
    assert [p, q, s] + [r] == [p, q, s, r];
    x := Parties(p, q, s, r);
  }
}

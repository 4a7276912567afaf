// The quantum-safe key in force for an account, from the history of its registrations and update blocks.
module Keys {
  import opened Basics
  import opened DagBlock
  import opened LedgerState
  import opened Nodes
  import opened Consistency
  import opened Health
  import Votes

  // An update block that brings a key.
  predicate Carries(b: Block) {
    && b.kind.Update? && b.updateData.Some? && b.updateData.value.Changes?
    && b.updateData.value.newPQPub.Some? && b.updateData.value.newPQPub.value != ""
  }

  predicate EnrolledAt(es: seq<Event>, i: nat, p: Pub) {
    i < |es| && es[i].Enroll? && es[i].pub == p
  }

  predicate KeyEnrolledAt(es: seq<Event>, i: nat, p: Pub) {
    EnrolledAt(es, i, p) && es[i].account.pqPub.Some? && es[i].account.pqPub.value != ""
  }

  // The key is the first one enrolled for the account, or none if there is none.
  ghost predicate EnrolledKey(es: seq<Event>, p: Pub, key: Option<string>) {
    && (forall i: nat :: KeyEnrolledAt(es, i, p) && (forall j: nat :: j < i ==> !KeyEnrolledAt(es, j, p)) ==> key == es[i].account.pqPub)
    && ((forall i: nat :: !KeyEnrolledAt(es, i, p)) ==> Missing(key))
  }

  // The step at position i accepts an update block that brings a key to a registered account.
  ghost predicate KeyStep(env: Env, es: seq<Event>, i: nat, p: Pub) {
    && i < |es| && es[i].Submit? && es[i].block.accountPub == p && Carries(es[i].block)
    && p in Run(env, es[..i]).ledger.accounts && Judge(env, Run(env, es[..i]).ledger, es[i].block, es[i].now).Accepted?
  }

  ghost function KeySteps(env: Env, es: seq<Event>, p: Pub): set<int> {
    set i | 0 <= i < |es| && KeyStep(env, es, i, p)
  }

  // The accounts know p exactly when it was registered; its key is that of the last of the given steps, and without any
  // the first one enrolled.
  ghost predicate KeyFrom(es: seq<Event>, p: Pub, steps: set<int>, accounts: map<Pub, Account>) {
    && (p in accounts <==> exists i: nat :: EnrolledAt(es, i, p))
    && (p in accounts ==>
          && (forall i :: i in steps && (forall j :: j in steps ==> j <= i) ==>
                && 0 <= i < |es| && es[i].Submit? && Carries(es[i].block)
                && accounts[p].pqPub == es[i].block.updateData.value.newPQPub)
          && ((forall i :: i !in steps) ==> EnrolledKey(es, p, accounts[p].pqPub)))
  }

  // What the history of a run makes of the account's key.
  ghost predicate KeyByHistory(env: Env, es: seq<Event>, p: Pub, accounts: map<Pub, Account>) {
    KeyFrom(es, p, KeySteps(env, es, p), accounts)
  }

  // ----- One more step -------------------------------------------------------------------------

  lemma EarlierEvents(env: Env, es: seq<Event>, e: Event, p: Pub)
    ensures KeySteps(env, es + [e], p) ==
            KeySteps(env, es, p) +
            if e.Submit? && e.block.accountPub == p && Carries(e.block) && p in Run(env, es).ledger.accounts
               && Judge(env, Run(env, es).ledger, e.block, e.now).Accepted?
            then {|es|} else {}
  {
    var more := es + [e];
    forall i: nat | i < |es|
      ensures KeyStep(env, more, i, p) <==> KeyStep(env, es, i, p)
    {
      assert more[..i] == es[..i];
    }
    assert more[..|es|] == es && more[|es|] == e;
  }

  predicate Missing(key: Option<string>) {
    key.None? || key == Some("")
  }

  // Registering a key fills a missing one.
  function Filled(key: Option<string>, enrolled: Option<string>): Option<string> {
    if Missing(key) && !Missing(enrolled) then enrolled else key
  }

  lemma SubmitKey(env: Env, s: Ledger, b: Block, now: int, p: Pub)
    ensures var a, c := s.accounts, AddBlock(env, s, b, now).accounts;
            var brings := b.accountPub == p && Carries(b) && Judge(env, s, b, now).Accepted?;
            && (p in c <==> p in a)
            && (p in a ==> c[p].pqPub == (if brings then b.updateData.value.newPQPub else a[p].pqPub))
  {
    assert AddBlock(env, s, b, now).accounts == if Judge(env, s, b, now).Accepted? then Store(s, b).accounts else s.accounts;
  }

  lemma RegisteredAccounts(s: Ledger, pub: Pub, account: Account)
    ensures RegisterAccount(s, pub, account).accounts ==
            if pub !in s.accounts then s.accounts[pub := account]
            else s.accounts[pub := s.accounts[pub].(pqPub := Filled(s.accounts[pub].pqPub, account.pqPub))]
  {
    if pub in s.accounts {
      assert s.accounts[pub := s.accounts[pub]] == s.accounts;
    }
  }

  lemma EnrollKey(s: Ledger, pub: Pub, account: Account, p: Pub)
    ensures var a, c := s.accounts, RegisterAccount(s, pub, account).accounts;
            && (pub == p ==> p in c && c[p].pqPub == if p !in a then account.pqPub else Filled(a[p].pqPub, account.pqPub))
            && (pub != p ==> (p in c <==> p in a) && (p in a ==> c[p] == a[p]))
  {
    RegisteredAccounts(s, pub, account);
  }

  // What a step does to one account's key.
  lemma AccountStep(env: Env, n: Node, e: Event, p: Pub)
    ensures var a, c := n.ledger.accounts, Step(env, n, e).ledger.accounts;
            if e.Enroll? && e.pub == p then
              p in c && c[p].pqPub == if p !in a then e.account.pqPub else Filled(a[p].pqPub, e.account.pqPub)
            else
              var brings := e.Submit? && e.block.accountPub == p && Carries(e.block) && Judge(env, n.ledger, e.block, e.now).Accepted?;
              && (p in c <==> p in a)
              && (p in a ==> c[p].pqPub == (if brings then e.block.updateData.value.newPQPub else a[p].pqPub))
  {
    match e
    case Submit(b, now) => SubmitKey(env, n.ledger, b, now, p);
    case Enroll(pub, account) => EnrollKey(n.ledger, pub, account, p);
    case Cast(_, _) =>
    case Process(now) => RejectAllAccounts(n.ledger, Votes.ResolveConflicts(n.votes, now).rejected);
  }

  lemma EnrolledKeyMore(es: seq<Event>, e: Event, p: Pub, key: Option<string>)
    requires EnrolledKey(es, p, key) && !(e.Enroll? && e.pub == p)
    ensures EnrolledKey(es + [e], p, key)
  {
    assert forall i: nat :: KeyEnrolledAt(es + [e], i, p) <==> KeyEnrolledAt(es, i, p);
  }

  // A further registration fills a missing key only.
  lemma EnrolledKeyFilled(es: seq<Event>, e: Event, p: Pub, key: Option<string>)
    requires EnrolledKey(es, p, key) && e.Enroll? && e.pub == p
    ensures EnrolledKey(es + [e], p, Filled(key, e.account.pqPub))
  {
    KeysBefore(es, e, p);
    if k: nat :| KeyEnrolledAt(es, k, p) {
      var i := FirstKey(es, p, k);
      assert key == es[i].account.pqPub && KeyEnrolledAt(es + [e], i, p);
    } else {
      assert Missing(key);
    }
  }

  lemma KeysBefore(es: seq<Event>, e: Event, p: Pub)
    ensures forall i: nat :: i < |es| ==> (KeyEnrolledAt(es + [e], i, p) <==> KeyEnrolledAt(es, i, p)) && (es + [e])[i] == es[i]
    ensures KeyEnrolledAt(es + [e], |es|, p) <==> e.Enroll? && e.pub == p && !Missing(e.account.pqPub)
  {
  }

  lemma {:induction false} FirstKey(es: seq<Event>, p: Pub, k: nat) returns (i: nat)
    requires KeyEnrolledAt(es, k, p)
    ensures KeyEnrolledAt(es, i, p) && forall j: nat :: j < i ==> !KeyEnrolledAt(es, j, p)
  {
    if j: nat :| j < k && KeyEnrolledAt(es, j, p) {
      i := FirstKey(es, p, j);
    } else {
      i := k;
    }
  }

  // The first registration of an account.
  lemma EnrolledKeyStarts(es: seq<Event>, e: Event, p: Pub)
    requires e.Enroll? && e.pub == p && forall i: nat :: !EnrolledAt(es, i, p)
    ensures EnrolledKey(es + [e], p, e.account.pqPub)
  {
    var more := es + [e];
    assert forall i: nat :: i < |es| ==> !KeyEnrolledAt(es, i, p) && (KeyEnrolledAt(more, i, p) <==> KeyEnrolledAt(es, i, p));
    assert KeyEnrolledAt(more, |es|, p) <==> Given(e.account.pqPub);
  }

  // ----- Every run -----------------------------------------------------------------------------

  // A registration.
  lemma KeyFromEnrolled(es: seq<Event>, e: Event, p: Pub, steps: set<int>, a: map<Pub, Account>, c: map<Pub, Account>)
    requires forall i :: i in steps ==> 0 <= i < |es|
    requires KeyFrom(es, p, steps, a) && e.Enroll? && e.pub == p && (p !in a ==> steps == {})
    requires p in c && c[p].pqPub == if p !in a then e.account.pqPub else Filled(a[p].pqPub, e.account.pqPub)
    ensures KeyFrom(es + [e], p, steps, c)
  {
    EnrolledMore(es, e, p);
    if p !in a {
      EnrolledKeyStarts(es, e, p);
    } else if k :| k in steps {
      var i := Greatest(steps, k);
      assert !Missing(a[p].pqPub);
    } else {
      EnrolledKeyFilled(es, e, p, a[p].pqPub);
    }
  }

  lemma {:induction false} Greatest(steps: set<int>, k: int) returns (i: int)
    requires k in steps
    ensures i in steps && forall j :: j in steps ==> j <= i
    decreases |steps|
  {
    if l :| l in steps && l != k {
      var rest := Greatest(steps - {k}, l);
      i := if k > rest then k else rest;
      assert forall j :: j in steps ==> j == k || j in steps - {k};
    } else {
      i := k;
    }
  }

  // An update block that brings a key.
  lemma KeyFromUpdate(es: seq<Event>, e: Event, p: Pub, steps: set<int>, a: map<Pub, Account>, c: map<Pub, Account>)
    requires forall i :: i in steps ==> 0 <= i < |es|
    requires KeyFrom(es, p, steps, a) && e.Submit? && Carries(e.block)
    requires p in a && p in c && c[p].pqPub == e.block.updateData.value.newPQPub
    ensures KeyFrom(es + [e], p, steps + {|es|}, c)
  {
    EnrolledMore(es, e, p);
  }

  // Any other step.
  lemma KeyFromOther(es: seq<Event>, e: Event, p: Pub, steps: set<int>, a: map<Pub, Account>, c: map<Pub, Account>)
    requires forall i :: i in steps ==> 0 <= i < |es|
    requires KeyFrom(es, p, steps, a) && !(e.Enroll? && e.pub == p)
    requires (p in c <==> p in a) && (p in a ==> c[p].pqPub == a[p].pqPub)
    ensures KeyFrom(es + [e], p, steps, c)
  {
    EnrolledMore(es, e, p);
    if p in a && forall i :: i !in steps {
      EnrolledKeyMore(es, e, p, a[p].pqPub);
    }
  }

  lemma HistoryMore(env: Env, es: seq<Event>, e: Event, p: Pub)
    requires KeyByHistory(env, es, p, Run(env, es).ledger.accounts)
    ensures KeyByHistory(env, es + [e], p, Step(env, Run(env, es), e).ledger.accounts)
  {
    var a, c := Run(env, es).ledger.accounts, Step(env, Run(env, es), e).ledger.accounts;
    var steps := KeySteps(env, es, p);
    EarlierEvents(env, es, e, p);
    AccountStep(env, Run(env, es), e, p);
    if e.Enroll? && e.pub == p {
      if p !in a {
        NoStepBefore(env, es, p);
      }
      KeyFromEnrolled(es, e, p, steps, a, c);
    } else if p in a && e.Submit? && e.block.accountPub == p && Carries(e.block) && Judge(env, Run(env, es).ledger, e.block, e.now).Accepted? {
      KeyFromUpdate(es, e, p, steps, a, c);
    } else {
      KeyFromOther(es, e, p, steps, a, c);
    }
  }

  lemma EnrolledMore(es: seq<Event>, e: Event, p: Pub)
    ensures (exists i: nat :: EnrolledAt(es + [e], i, p)) <==> (exists i: nat :: EnrolledAt(es, i, p)) || (e.Enroll? && e.pub == p)
  {
    if i: nat :| EnrolledAt(es, i, p) {
      assert EnrolledAt(es + [e], i, p);
    }
    if e.Enroll? && e.pub == p {
      assert EnrolledAt(es + [e], |es|, p);
    }
    if i: nat :| EnrolledAt(es + [e], i, p) {
      assert i < |es| ==> EnrolledAt(es, i, p);
    }
  }

  lemma {:induction false} NoStepBefore(env: Env, es: seq<Event>, p: Pub)
    requires p !in Run(env, es).ledger.accounts
    ensures KeySteps(env, es, p) == {}
  {
    if es != [] {
      var init, e := es[..|es| - 1], es[|es| - 1];
      assert es == init + [e];
      AccountStep(env, Run(env, init), e, p);
      NoStepBefore(env, init, p);
      EarlierEvents(env, init, e, p);
    }
  }

  // In every run, with rejections and pruning: an account is known once it is registered; its key is the one brought by
  // the last update block accepted for it since, whether or not that block is still stored; without such a block it is the
  // first key registered for it. A rejection does not bring an old key back.
  lemma {:induction false} KeyOfEveryRun(env: Env, es: seq<Event>, p: Pub)
    ensures KeyByHistory(env, es, p, Run(env, es).ledger.accounts)
  {
    if es != [] {
      assert es == es[..|es| - 1] + [es[|es| - 1]];
      KeyOfEveryRun(env, es[..|es| - 1], p);
      HistoryMore(env, es[..|es| - 1], es[|es| - 1], p);
    }
  }

  // ----- Append-only runs ----------------------------------------------------------------------

  // The last block of the chain that brings a key.
  ghost predicate LastCarrying(chain: seq<Block>, i: nat) {
    i < |chain| && Carries(chain[i]) && forall j: nat :: i < j < |chain| ==> !Carries(chain[j])
  }

  // The key a chain shows: that of its last update block with a key, and otherwise the one enrolled.
  ghost predicate KeyByChain(es: seq<Event>, p: Pub, chain: seq<Block>, key: Option<string>) {
    && (forall i: nat :: LastCarrying(chain, i) ==> key == chain[i].updateData.value.newPQPub)
    && ((forall i: nat :: i < |chain| ==> !Carries(chain[i])) ==> EnrolledKey(es, p, key))
  }

  lemma ChainMore(es: seq<Event>, e: Event, p: Pub, chain: seq<Block>, b: Block, key: Option<string>)
    requires KeyByChain(es, p, chain, key) && !e.Enroll?
    ensures KeyByChain(es + [e], p, chain + [b], if Carries(b) then b.updateData.value.newPQPub else key)
  {
    var more := chain + [b];
    if Carries(b) {
      assert forall i: nat :: LastCarrying(more, i) ==> i == |chain| by {
        assert Carries(more[|chain|]);
      }
      assert Carries(more[|chain|]);
    } else {
      forall i: nat | LastCarrying(more, i)
        ensures LastCarrying(chain, i)
      {
        assert forall j: nat :: i < j < |chain| ==> more[j] == chain[j];
      }
      if forall i: nat :: i < |more| ==> !Carries(more[i]) {
        assert forall i: nat :: i < |chain| ==> chain[i] == more[i];
        EnrolledKeyMore(es, e, p, key);
      }
    }
  }

  lemma {:induction false} LastCarryingOf(chain: seq<Block>, k: nat) returns (i: nat)
    requires k < |chain| && Carries(chain[k])
    ensures LastCarrying(chain, i)
    decreases |chain| - k
  {
    if j: nat :| k < j < |chain| && Carries(chain[j]) {
      i := LastCarryingOf(chain, j);
    } else {
      i := k;
    }
  }

  lemma EnrollAgain(es: seq<Event>, e: Event, p: Pub, chain: seq<Block>, key: Option<string>)
    requires KeyByChain(es, p, chain, key) && e.Enroll? && e.pub == p
    ensures KeyByChain(es + [e], p, chain, Filled(key, e.account.pqPub))
  {
    if k: nat :| k < |chain| && Carries(chain[k]) {
      var i := LastCarryingOf(chain, k);
    } else {
      EnrolledKeyFilled(es, e, p, key);
    }
  }

  lemma ChainEnrolled(env: Env, es: seq<Event>, e: Event, p: Pub, s: Ledger, t: Ledger)
    requires e.Enroll? && e.pub == p && t == RegisterAccount(s, e.pub, e.account)
    requires p in s.accounts ==> KeyByChain(es, p, Chain(s, p), s.accounts[p].pqPub)
    requires p !in s.accounts ==> Chain(s, p) == [] && forall i: nat :: !EnrolledAt(es, i, p)
    ensures p in t.accounts && KeyByChain(es + [e], p, Chain(t, p), t.accounts[p].pqPub)
  {
    EnrollKey(s, p, e.account, p);
    assert Chain(t, p) == Chain(s, p);
    if p in s.accounts {
      EnrollAgain(es, e, p, Chain(s, p), s.accounts[p].pqPub);
    } else {
      EnrolledKeyStarts(es, e, p);
    }
  }

  lemma ChainStored(env: Env, es: seq<Event>, e: Event, p: Pub, s: Ledger)
    requires e.Submit? && e.block.accountPub == p && p in s.accounts && KeyByChain(es, p, Chain(s, p), s.accounts[p].pqPub)
    ensures var t := Store(s, e.block);
            p in t.accounts && KeyByChain(es + [e], p, Chain(t, p), t.accounts[p].pqPub)
  {
    ChainMore(es, e, p, Chain(s, p), e.block, s.accounts[p].pqPub);
  }

  // What the last step of such a run does to one account and its chain.
  lemma StepKeyByChain(env: Env, es: seq<Event>, e: Event, p: Pub)
    requires AppendOnly(env, es + [e]) && EnrolledFirst(env, es + [e])
    requires var s := Run(env, es).ledger; p in s.accounts ==> KeyByChain(es, p, Chain(s, p), s.accounts[p].pqPub)
    ensures var t := Run(env, es + [e]).ledger; p in t.accounts ==> KeyByChain(es + [e], p, Chain(t, p), t.accounts[p].pqPub)
  {
    var s, more := Run(env, es).ledger, es + [e];
    assert more[..|es|] == es;
    LastStep(env, more);
    KeyOfEveryRun(env, es, p);
    if e.Enroll? && e.pub == p {
      ChainEnrolled(env, es, e, p, s, Run(env, more).ledger);
    } else if p in s.accounts && e.Submit? && e.block.accountPub == p && Judge(env, s, e.block, e.now).Accepted? {
      ChainStored(env, es, e, p, s);
    } else {
      AccountStep(env, Run(env, es), e, p);
      if p in s.accounts {
        SameChain(env, s, e, p);
        SameKey(es, e, p, Chain(s, p), s.accounts[p].pqPub);
      }
    }
  }

  lemma SameChain(env: Env, s: Ledger, e: Event, p: Pub)
    requires !(e.Submit? && e.block.accountPub == p && Judge(env, s, e.block, e.now).Accepted?)
    ensures Chain(LedgerStep(env, s, e), p) == Chain(s, p)
  {
  }

  lemma SameKey(es: seq<Event>, e: Event, p: Pub, chain: seq<Block>, key: Option<string>)
    requires KeyByChain(es, p, chain, key) && !(e.Enroll? && e.pub == p)
    ensures KeyByChain(es + [e], p, chain, key)
  {
    if forall i: nat :: i < |chain| ==> !Carries(chain[i]) {
      EnrolledKeyMore(es, e, p, key);
    }
  }

  // In append-only runs that register accounts before their blocks, the key in force is that of the last update block of
  // the account's chain that brings one, and otherwise the first one registered.
  lemma {:induction false} KeyShownByChain(env: Env, es: seq<Event>, p: Pub)
    requires AppendOnly(env, es) && EnrolledFirst(env, es) && p in Run(env, es).ledger.accounts
    ensures KeyByChain(es, p, Chain(Run(env, es).ledger, p), Run(env, es).ledger.accounts[p].pqPub)
  {
    if es != [] {
      var init, e := es[..|es| - 1], es[|es| - 1];
      assert es == init + [e];
      if p in Run(env, init).ledger.accounts {
        KeyShownByChain(env, init, p);
      }
      StepKeyByChain(env, init, e, p);
    }
  }
}

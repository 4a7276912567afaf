// The accounts a snapshot brings: what registering them in turn leaves in the account table.
module Bootstrap {
  import opened Basics
  import opened DagBlock
  import opened LedgerState
  import opened Nodes
  import opened Snapshot
  import opened Keys

  function Enrolls(accounts: seq<(Pub, Account)>): seq<Event> {
    seq(|accounts|, i requires 0 <= i < |accounts| => Enroll(accounts[i].0, accounts[i].1))
  }

  lemma {:induction false} EnrolledIsRun(env: Env, accounts: seq<(Pub, Account)>)
    ensures Run(env, Enrolls(accounts)).ledger == Enrolled(EMPTY, accounts)
  {
    if accounts != [] {
      EnrolledIsRun(env, accounts[..|accounts| - 1]);
      assert Enrolls(accounts)[..|accounts| - 1] == Enrolls(accounts[..|accounts| - 1]);
    }
  }

  predicate Entered(accounts: seq<(Pub, Account)>, i: nat, p: Pub) {
    i < |accounts| && accounts[i].0 == p
  }

  predicate KeyEntered(accounts: seq<(Pub, Account)>, i: nat, p: Pub) {
    Entered(accounts, i, p) && accounts[i].1.pqPub.Some? && accounts[i].1.pqPub.value != ""
  }

  // The table knows an account exactly when it was entered; it has the balance and nonce first entered for it, and the
  // first key.
  ghost predicate RowIs(accounts: seq<(Pub, Account)>, table: map<Pub, Account>, p: Pub) {
    && (p in table <==> exists i: nat :: Entered(accounts, i, p))
    && (forall i: nat :: Entered(accounts, i, p) && (forall j: nat :: j < i ==> !Entered(accounts, j, p)) ==>
          p in table && table[p].balance == accounts[i].1.balance && table[p].nonce == accounts[i].1.nonce)
    && (forall i: nat :: KeyEntered(accounts, i, p) && (forall j: nat :: j < i ==> !KeyEntered(accounts, j, p)) ==>
          p in table && table[p].pqPub == accounts[i].1.pqPub)
    && (p in table && (forall i: nat :: !KeyEntered(accounts, i, p)) ==> Missing(table[p].pqPub))
  }

  lemma OneEntry(s: Ledger, pub: Pub, account: Account, p: Pub)
    ensures var a, c := s.accounts, RegisterAccount(s, pub, account).accounts;
            && (p in c <==> p in a || pub == p)
            && (p in a ==> c[p].balance == a[p].balance && c[p].nonce == a[p].nonce)
            && (p !in a && pub == p ==> c[p] == account)
  {
    RegisteredAccounts(s, pub, account);
  }

  lemma {:induction false} FirstRecords(accounts: seq<(Pub, Account)>, p: Pub, i: nat)
    requires Entered(accounts, i, p) && forall j: nat :: j < i ==> !Entered(accounts, j, p)
    ensures var table := Enrolled(EMPTY, accounts).accounts;
            p in table && table[p].balance == accounts[i].1.balance && table[p].nonce == accounts[i].1.nonce
  {
    var init, last := accounts[..|accounts| - 1], accounts[|accounts| - 1];
    OneEntry(Enrolled(EMPTY, init), last.0, last.1, p);
    assert forall j: nat :: j < |init| ==> (Entered(init, j, p) <==> Entered(accounts, j, p));
    if i < |init| {
      FirstRecords(init, p, i);
    } else {
      NeverEntered(init, p);
    }
  }

  lemma {:induction false} NeverEntered(accounts: seq<(Pub, Account)>, p: Pub)
    requires forall j: nat :: !Entered(accounts, j, p)
    ensures p !in Enrolled(EMPTY, accounts).accounts
  {
    if accounts != [] {
      var init := accounts[..|accounts| - 1];
      assert forall j: nat :: Entered(init, j, p) ==> Entered(accounts, j, p);
      assert !Entered(accounts, |init|, p);
      NeverEntered(init, p);
    }
  }

  lemma SameEntries(accounts: seq<(Pub, Account)>, p: Pub)
    ensures forall i: nat :: EnrolledAt(Enrolls(accounts), i, p) <==> Entered(accounts, i, p)
    ensures forall i: nat :: KeyEnrolledAt(Enrolls(accounts), i, p) <==> KeyEntered(accounts, i, p)
    ensures (exists i: nat :: EnrolledAt(Enrolls(accounts), i, p)) <==> exists i: nat :: Entered(accounts, i, p)
  {
    if i: nat :| Entered(accounts, i, p) {
      assert EnrolledAt(Enrolls(accounts), i, p);
    }
  }

  lemma TableKeys(env: Env, accounts: seq<(Pub, Account)>, p: Pub)
    ensures var table := Enrolled(EMPTY, accounts).accounts;
            && (p in table <==> exists i: nat :: EnrolledAt(Enrolls(accounts), i, p))
            && (p in table ==> EnrolledKey(Enrolls(accounts), p, table[p].pqPub))
  {
    EnrolledIsRun(env, accounts);
    KeyOfEveryRun(env, Enrolls(accounts), p);
    assert KeySteps(env, Enrolls(accounts), p) == {};
  }

  lemma EnteredKeys(accounts: seq<(Pub, Account)>, p: Pub, key: Option<string>)
    requires EnrolledKey(Enrolls(accounts), p, key)
    ensures forall i: nat :: KeyEntered(accounts, i, p) && (forall j: nat :: j < i ==> !KeyEntered(accounts, j, p)) ==>
              key == accounts[i].1.pqPub
    ensures (forall i: nat :: !KeyEntered(accounts, i, p)) ==> Missing(key)
  {
    SameEntries(accounts, p);
  }

  // Registering a snapshot's accounts in an empty ledger.
  lemma EnrolledTable(env: Env, accounts: seq<(Pub, Account)>, p: Pub)
    ensures RowIs(accounts, Enrolled(EMPTY, accounts).accounts, p)
  {
    var table := Enrolled(EMPTY, accounts).accounts;
    TableKeys(env, accounts, p);
    SameEntries(accounts, p);
    if p in table {
      EnteredKeys(accounts, p, table[p].pqPub);
    }
    forall i: nat | Entered(accounts, i, p) && forall j: nat :: j < i ==> !Entered(accounts, j, p)
      ensures p in table && table[p].balance == accounts[i].1.balance && table[p].nonce == accounts[i].1.nonce
    {
      FirstRecords(accounts, p, i);
    }
  }
}

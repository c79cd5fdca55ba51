/** The books: what every posting keeps true of transactions, legs and balances. */
module WalletBooks {
  import opened WalletTypes
  import opened WalletTables
  import opened WalletSpec

  /** Legs form a chain per account: each starts from the balance the previous one left. */
  predicate LegWf(t: Tables, i: nat)
    requires i < |t.legs|
  {
    var g := t.legs[i];
    && g.tx < |t.transactions|
    && g.account in t.accounts
    && g.currency == g.account.currency
    && g.after == g.before + g.amount
    && g.before == LastAfter(t.legs[..i], g.account)
  }

  predicate LegsWf(t: Tables) {
    forall i :: 0 <= i < |t.legs| ==> LegWf(t, i)
  }

  /** Leg ids follow transaction ids, and a transaction touches an account at most once. */
  predicate LegsOrdered(legs: seq<Leg>) {
    forall i, j :: 0 <= i < j < |legs| ==>
      legs[i].tx <= legs[j].tx && (legs[i].tx == legs[j].tx ==> legs[i].account != legs[j].account)
  }

  predicate BalancedLegs(kind: Kind, legs: seq<Leg>) {
    AmountSum(legs) == 0 && if IsAudit(kind) then |legs| == 1 else |legs| >= 2
  }

  predicate TransactionsBalanced(t: Tables) {
    forall i :: 0 <= i < |t.transactions| ==> BalancedLegs(t.transactions[i].kind, LegsOf(t.legs, i))
  }

  predicate BalancesDerived(t: Tables) {
    forall k :: k in t.accounts ==> t.accounts[k].balance == LastAfter(t.legs, k)
  }

  predicate KeysUnique(txs: seq<Transaction>) {
    forall i, j :: 0 <= i < j < |txs| ==> !(txs[i].ref == txs[j].ref && txs[i].kind == txs[j].kind)
  }

  function InCurrency(a: map<AccountKey, Account>, k: AccountKey, currency: string): int {
    if k.currency == currency then AccountAt(a, k).balance else 0
  }

  /** The sum of the balances of one currency over a set of accounts. */
  ghost function TotalOver(ks: set<AccountKey>, a: map<AccountKey, Account>, currency: string): int {
    if ks == {} then 0
    else
      var k :| k in ks;
      InCurrency(a, k, currency) + TotalOver(ks - {k}, a, currency)
  }

  ghost predicate ZeroSum(t: Tables) {
    forall c :: TotalOver(t.accounts.Keys, t.accounts, c) == 0
  }

  ghost predicate Books(t: Tables) {
    LegsWf(t) && LegsOrdered(t.legs) && TransactionsBalanced(t) && BalancesDerived(t) &&
    KeysUnique(t.transactions) && ZeroSum(t)
  }

  // ---- totals over accounts ----

  lemma {:induction false} TotalWithout(ks: set<AccountKey>, a: map<AccountKey, Account>, c: string, k: AccountKey)
    requires k in ks
    ensures TotalOver(ks, a, c) == InCurrency(a, k, c) + TotalOver(ks - {k}, a, c)
  {
    var x :| x in ks && TotalOver(ks, a, c) == InCurrency(a, x, c) + TotalOver(ks - {x}, a, c);
    if x != k {
      TotalWithout(ks - {x}, a, c, k);
      TotalWithout(ks - {k}, a, c, x);
      assert ks - {x} - {k} == ks - {k} - {x};
    }
  }

  lemma {:induction false} TotalFrame(ks: set<AccountKey>, a: map<AccountKey, Account>, b: map<AccountKey, Account>,
                                      c: string)
    requires forall k :: k in ks ==> InCurrency(a, k, c) == InCurrency(b, k, c)
    ensures TotalOver(ks, a, c) == TotalOver(ks, b, c)
  {
    if ks != {} {
      var k :| k in ks;
      TotalWithout(ks, a, c, k);
      TotalWithout(ks, b, c, k);
      TotalFrame(ks - {k}, a, b, c);
    }
  }

  /** Writing one row moves the total by the difference of its balance; a missing row counts as zero. */
  lemma {:induction false} TotalUpdate(a: map<AccountKey, Account>, k: AccountKey, v: Account, c: string)
    ensures TotalOver(a[k := v].Keys, a[k := v], c) ==
            TotalOver(a.Keys, a, c) + if k.currency == c then v.balance - AccountAt(a, k).balance else 0
  {
    var b := a[k := v];
    assert b.Keys - {k} == a.Keys - {k};
    TotalWithout(b.Keys, b, c, k);
    TotalFrame(b.Keys - {k}, a, b, c);
    if k in a {
      TotalWithout(a.Keys, a, c, k);
    } else {
      assert a.Keys - {k} == a.Keys;
    }
  }

  // ---- what a posting does to balances ----

  predicate DistinctAccounts(legs: seq<PostingLeg>) {
    forall i, j :: 0 <= i < j < |legs| ==> legs[i].account != legs[j].account
  }

  /** A posting changes the balance of exactly the accounts it names, each by its own amount. */
  lemma {:induction false} PostedAt(accounts: map<AccountKey, Account>, legs: seq<PostingLeg>, k: AccountKey, j: nat)
    requires DistinctAccounts(legs)
    requires forall i :: 0 <= i < |legs| ==> legs[i].account in accounts
    ensures PostedAccounts(accounts, accounts, legs).Keys == accounts.Keys
    ensures (forall i :: 0 <= i < |legs| ==> legs[i].account != k) ==>
              AccountAt(PostedAccounts(accounts, accounts, legs), k) == AccountAt(accounts, k)
    ensures j < |legs| && legs[j].account == k ==>
              AccountAt(PostedAccounts(accounts, accounts, legs), k) ==
              accounts[k].(balance := accounts[k].balance + legs[j].amount)
  {
    if legs != [] {
      var last := |legs| - 1;
      PostedAt(accounts, legs[..last], k, j);
    }
  }

  lemma {:induction false} TotalPosted(accounts: map<AccountKey, Account>, legs: seq<PostingLeg>, c: string)
    requires DistinctAccounts(legs)
    requires forall i :: 0 <= i < |legs| ==> legs[i].account in accounts
    requires forall i :: 0 <= i < |legs| ==> legs[i].account.currency == legs[0].account.currency
    ensures var m := PostedAccounts(accounts, accounts, legs);
            TotalOver(m.Keys, m, c) == TotalOver(accounts.Keys, accounts, c) +
            if legs != [] && legs[0].account.currency == c then PostingTotal(legs) else 0
  {
    if legs != [] {
      var last := |legs| - 1;
      var init, g := legs[..last], legs[last];
      TotalPosted(accounts, init, c);
      PostedAt(accounts, init, g.account, 0);
      var m := PostedAccounts(accounts, accounts, init);
      TotalUpdate(m, g.account, AccountAt(m, g.account).(balance := accounts[g.account].balance + g.amount), c);
    }
  }

  lemma {:induction false} WrittenSum(accounts: map<AccountKey, Account>, tx: nat, legs: seq<PostingLeg>)
    ensures AmountSum(WrittenLegs(accounts, tx, legs)) == PostingTotal(legs)
  {
    if legs != [] {
      var last := |legs| - 1;
      WrittenSum(accounts, tx, legs[..last]);
      assert WrittenLegs(accounts, tx, legs)[..last] == WrittenLegs(accounts, tx, legs[..last]);
    }
  }

  /** Everything a command must bring to the posting kernel. */
  predicate Ready(t: Tables, p: Posting) {
    && Postable(p, t.accounts.Keys)
    && (forall i :: 0 <= i < |p.legs| ==> p.legs[i].currency == p.legs[i].account.currency)
    && FindTx(t.transactions, p.header.ref, p.header.kind).None?
  }

  lemma {:induction false} NewLegsOnly(t: Tables, p: Posting, i: nat)
    requires LegsWf(t)
    requires i <= |t.transactions|
    ensures LegsOf(Post(t, p).legs, i) ==
            if i < |t.transactions| then LegsOf(t.legs, i) else WrittenLegs(t.accounts, i, p.legs)
  {
    var n := |t.transactions|;
    var w := WrittenLegs(t.accounts, n, p.legs);
    LegsOfConcat(t.legs, w, i);
    if i < n {
      LegsOfNone(w, i);
    } else {
      forall j | 0 <= j < |t.legs| ensures t.legs[j].tx != i {
        assert LegWf(t, j);
      }
      LegsOfNone(t.legs, i);
      LegsOfAll(w, i);
    }
  }

  lemma {:induction false} PostKeepsBalanced(t: Tables, p: Posting)
    requires LegsWf(t) && TransactionsBalanced(t) && Ready(t, p)
    ensures TransactionsBalanced(Post(t, p))
  {
    var u := Post(t, p);
    forall i | 0 <= i < |u.transactions|
      ensures BalancedLegs(u.transactions[i].kind, LegsOf(u.legs, i))
    {
      NewLegsOnly(t, p, i);
      WrittenSum(t.accounts, i, p.legs);
    }
  }

  /** A new leg starts from the balance its account had, and no other new leg is on that account. */
  lemma {:induction false} NewLegWf(t: Tables, p: Posting, j: nat)
    requires BalancesDerived(t) && Ready(t, p) && j < |p.legs| && p.legs[j].account in Post(t, p).accounts
    ensures |Post(t, p).legs| == |t.legs| + |p.legs| && LegWf(Post(t, p), |t.legs| + j)
  {
    hide PostedAccounts, LegsOrdered;
    var u, w := Post(t, p), WrittenLegs(t.accounts, |t.transactions|, p.legs);
    assert u.legs[..|t.legs| + j] == t.legs + w[..j];
    LastAfterConcat(t.legs, w[..j], p.legs[j].account);
  }

  lemma {:induction false} PostKeepsChain(t: Tables, p: Posting)
    requires LegsWf(t) && BalancesDerived(t) && Ready(t, p)
    ensures LegsWf(Post(t, p))
  {
    hide PostedAccounts, BalancesDerived;
    var u, n := Post(t, p), |t.legs|;
    PostedAt(t.accounts, p.legs, p.legs[0].account, 0);
    forall i | 0 <= i < |u.legs| ensures LegWf(u, i) {
      if i < n {
        assert LegWf(t, i);
        assert u.legs[..i] == t.legs[..i];
      } else {
        NewLegWf(t, p, i - n);
      }
    }
  }

  lemma {:induction false} LastAfterPosted(legs: seq<Leg>, w: seq<Leg>, j: nat)
    requires j < |w|
    requires forall m :: j < m < |w| ==> w[m].account != w[j].account
    ensures LastAfter(legs + w, w[j].account) == w[j].after
  {
    var u, n := legs + w, |legs|;
    assert u[n + j] == w[j];
    forall m | n + j < m < |u| ensures u[m].account != u[n + j].account {
      assert u[m] == w[m - n];
    }
    LastAfterHit(u, n + j);
  }

  lemma {:induction false} PostKeepsBalance(t: Tables, p: Posting, k: AccountKey)
    requires BalancesDerived(t) && Ready(t, p) && k in t.accounts
    ensures AccountAt(Post(t, p).accounts, k).balance == LastAfter(Post(t, p).legs, k)
  {
    hide PostedAccounts, PostingTotal;
    var w := WrittenLegs(t.accounts, |t.transactions|, p.legs);
    if j :| 0 <= j < |p.legs| && p.legs[j].account == k {
      PostedAt(t.accounts, p.legs, k, j);
      LastAfterPosted(t.legs, w, j);
    } else {
      PostedAt(t.accounts, p.legs, k, 0);
      LastAfterConcat(t.legs, w, k);
    }
  }

  lemma {:induction false} PostKeepsBalances(t: Tables, p: Posting)
    requires BalancesDerived(t) && Ready(t, p)
    ensures BalancesDerived(Post(t, p))
  {
    PostedAt(t.accounts, p.legs, p.legs[0].account, 0);
    forall k | k in Post(t, p).accounts
      ensures Post(t, p).accounts[k].balance == LastAfter(Post(t, p).legs, k)
    {
      PostKeepsBalance(t, p, k);
    }
  }

  lemma {:induction false} PostKeepsOrder(t: Tables, p: Posting)
    requires LegsWf(t) && LegsOrdered(t.legs) && Ready(t, p)
    ensures LegsOrdered(Post(t, p).legs)
  {
    var u := Post(t, p);
    var n := |t.legs|;
    forall i, j | 0 <= i < j < |u.legs|
      ensures u.legs[i].tx <= u.legs[j].tx
      ensures u.legs[i].tx == u.legs[j].tx ==> u.legs[i].account != u.legs[j].account
    {
      if i < n {
        assert LegWf(t, i);
      } else {
        assert u.legs[i].account == p.legs[i - n].account && u.legs[j].account == p.legs[j - n].account;
      }
    }
  }

  /** The posting kernel keeps the books: chains, balance per transaction, derived balances, zero sum. */
  lemma {:induction false} PostKeepsBooks(t: Tables, p: Posting)
    requires Books(t) && Ready(t, p)
    ensures Books(Post(t, p))
  {
    PostKeepsBalanced(t, p);
    PostKeepsChain(t, p);
    PostKeepsBalances(t, p);
    PostKeepsOrder(t, p);
    forall c ensures TotalOver(Post(t, p).accounts.Keys, Post(t, p).accounts, c) == 0 {
      TotalPosted(t.accounts, p.legs, c);
    }
  }

  /** Changing limits, holds, in-flight amounts or status leaves the books as they are. */
  lemma {:induction false} BooksFrame(t: Tables, u: Tables)
    requires Books(t)
    requires u.legs == t.legs && u.transactions == t.transactions && u.accounts.Keys == t.accounts.Keys
    requires forall k :: k in t.accounts ==> u.accounts[k].balance == t.accounts[k].balance
    ensures Books(u)
  {
    forall i | 0 <= i < |u.legs| ensures LegWf(u, i) {
      assert LegWf(t, i);
    }
    forall c ensures TotalOver(u.accounts.Keys, u.accounts, c) == 0 {
      TotalFrame(t.accounts.Keys, t.accounts, u.accounts, c);
    }
  }

  lemma {:induction false} NoLegs(legs: seq<Leg>, k: AccountKey)
    requires forall i :: 0 <= i < |legs| ==> legs[i].account != k
    ensures LastAfter(legs, k) == 0 && LegSum(legs, k) == 0
  {
    if legs != [] {
      NoLegs(legs[..|legs| - 1], k);
    }
  }

  /** A freshly opened account has balance zero and no legs. */
  lemma {:induction false} OpenKeepsBooks(t: Tables, k: AccountKey)
    requires Books(t)
    ensures Books(t.(accounts := Open(t.accounts, k)))
  {
    if k !in t.accounts {
      var u := t.(accounts := Open(t.accounts, k));
      forall i | 0 <= i < |u.legs| ensures LegWf(u, i) && u.legs[i].account != k {
        assert LegWf(t, i);
      }
      NoLegs(t.legs, k);
      forall c ensures TotalOver(u.accounts.Keys, u.accounts, c) == 0 {
        TotalUpdate(t.accounts, k, OPENED, c);
      }
    }
  }

  /** A balance is the algebraic sum of the account's legs. */
  lemma {:induction false} BalanceIsLegSum(t: Tables, n: nat, k: AccountKey)
    requires LegsWf(t) && n <= |t.legs|
    ensures LastAfter(t.legs[..n], k) == LegSum(t.legs[..n], k)
  {
    if n > 0 {
      BalanceIsLegSum(t, n - 1, k);
      assert LegWf(t, n - 1);
      assert t.legs[..n][..n - 1] == t.legs[..n - 1];
    }
  }
}

/** Receipts are never lost: what replay reads back from transactions and legs is what the ledger filed. */
module WalletArchive {
  import opened Options
  import opened WalletTypes
  import opened WalletTables
  import opened WalletSpec
  import opened WalletBooks
  import opened WalletLedger

  /** The legs of a transfer on one name: the source gives, the destination receives, nobody else is touched. */
  predicate SideAgrees(legs: seq<Leg>, e: Entry, a: AccountRef, currency: string)
    requires e.Transferred?
  {
    var s := SideLegs(legs, a, currency);
    if Name(a, currency) == e.from then s != [] && AmountSum(s) == -e.amount && AfterSum(s) == e.fromAfter
    else if Name(a, currency) == e.to then s != [] && AmountSum(s) == e.amount && AfterSum(s) == e.toAfter
    else s == []
  }

  /** A stored transaction with its legs carries the receipt that was filed for it. */
  ghost predicate EntryMatches(h: Transaction, legs: seq<Leg>, x: nat, e: Entry) {
    && e.txId == x
    && e.fingerprint == h.fingerprint
    && match e
       case Moved(_, u, cur, amount, after, _) =>
         && (h.kind == CreditKind || h.kind == RefundKind)
         && |legs| == 2 && legs[0].account == UserKey(u, cur) && legs[1].account.owner.Internal?
         && Abs(legs[0].amount) == amount && legs[0].after == after
       case LimitSet(_, u, cur, limit, _) =>
         h.kind == CreditLineKind && |legs| == 1 && legs[0].account == UserKey(u, cur) && h.creditLimitAfter == Some(limit)
       case FrozenSet(_, target, cur, frozen, _) =>
         h.kind == FreezeKind && |legs| == 1 && legs[0].account == FirstKey(target, cur) && h.frozenAfter == Some(frozen)
       case Transferred(_, from, to, amount, _, _, _) =>
         h.kind == TransferKind && from != to && amount > 0 && forall a, cur :: SideAgrees(legs, e, a, cur)
       case Settlement(_, _, holder, after, _) =>
         h.kind == SettleKind && |legs| == 2 && legs[0].account == holder && legs[0].after == after
  }

  ghost predicate Filed(t: Tables, l: Ledger, ref: Ref, kind: Kind) {
    match FindTx(t.transactions, ref, kind)
    case None => (ref, kind) !in l.archive
    case Some(x) =>
      (ref, kind) in l.archive && EntryMatches(t.transactions[x], LegsOf(t.legs, x), x, l.archive[(ref, kind)])
  }

  ghost predicate Archived(t: Tables, l: Ledger) {
    forall ref, kind :: Filed(t, l, ref, kind)
  }

  /** A hold is settled exactly when its settlement is on file. */
  predicate SettledOnFile(l: Ledger, i: nat)
    requires i < |l.holds|
  {
    var key := (l.holds[i].ref, SettleKind);
    if l.holds[i].status == Settled then
      key in l.archive && l.archive[key].Settlement? && l.archive[key].holdId == i &&
      l.archive[key].holder == l.holds[i].account && l.holds[i].settledAmount.Some?
    else key !in l.archive
  }

  predicate SettlementsFiled(l: Ledger) {
    && (forall i :: 0 <= i < |l.holds| ==> SettledOnFile(l, i))
    && (forall key :: key in l.archive && key.1 == SettleKind ==> exists i :: 0 <= i < |l.holds| && l.holds[i].ref == key.0)
  }

  // ---- reading back ----

  lemma {:induction false} SingleLeg(legs: seq<Leg>, k: AccountKey)
    requires |legs| == 1
    ensures OwnLeg(legs, k) == if legs[0].account == k then Some(legs[0]) else None
  {
    assert OwnLeg(legs[1..], k).None?;
  }

  lemma {:induction false} UserLeg(legs: seq<Leg>, k: AccountKey)
    requires |legs| == 2 && k.owner.User? && legs[1].account.owner.Internal?
    ensures OwnLeg(legs, k) == if legs[0].account == k then Some(legs[0]) else None
  {
    SingleLeg(legs[1..], k);
  }

  /** Replay answers from the rows exactly what the ledger answers from its archive. */
  lemma {:induction false} ReadbackIsRepeat(t: Tables, l: Ledger, c: Command)
    requires Keyed(c) && !c.Authorize? && Malformed(c).None?
    requires Filed(t, l, c.ref, KindOf(c)) && (c.ref, KindOf(c)) in l.archive
    ensures PriorOf(t, c).Some? && Readback(t, c) == Repeat(l.archive[(c.ref, KindOf(c))], c)
  {
    var x := FindTx(t.transactions, c.ref, KindOf(c)).value;
    var e := l.archive[(c.ref, KindOf(c))];
    var legs := LegsOf(t.legs, x);
    match e
    case Moved(_, u, cur, _, _, _) => UserLeg(legs, UserKey(c.userId, c.currency));
    case LimitSet(_, u, cur, _, _) => SingleLeg(legs, UserKey(c.userId, c.currency));
    case FrozenSet(_, target, cur, _, _) => SingleLeg(legs, FirstKey(c.target, c.currency));
    case Transferred(_, from, to, _, _, _, _) =>
      assert SideAgrees(legs, e, c.from, c.fromCurrency);
      assert SideAgrees(legs, e, c.to, c.toCurrency);
    case Settlement(_, _, _, _, _) =>
  }

  // ---- filing ----

  /** Posting a transaction and filing its entry keeps every earlier receipt readable. */
  lemma {:induction false} PostFiles(t: Tables, p: Posting, l: Ledger, e: Entry)
    requires LegsWf(t) && Ready(t, p) && Archived(t, l)
    requires EntryMatches(p.header, WrittenLegs(t.accounts, |t.transactions|, p.legs), |t.transactions|, e)
    ensures Archived(Post(t, p), l.File(p.header.ref, p.header.kind, e))
  {
    var u, m := Post(t, p), l.File(p.header.ref, p.header.kind, e);
    forall ref, kind ensures Filed(u, m, ref, kind) {
      FindTxAppend(t.transactions, p.header, ref, kind);
      assert Filed(t, l, ref, kind);
      match FindTx(u.transactions, ref, kind)
      case None =>
      case Some(x) => NewLegsOnly(t, p, x);
    }
  }

  /** The archive does not depend on accounts or holds. */
  lemma {:induction false} ArchivedFrame(t: Tables, u: Tables, l: Ledger, m: Ledger)
    requires Archived(t, l)
    requires u.transactions == t.transactions && u.legs == t.legs && m.archive == l.archive
    ensures Archived(u, m)
  {
    forall ref, kind ensures Filed(u, m, ref, kind) {
      assert Filed(t, l, ref, kind);
    }
  }

  // ---- the legs of a transfer, side by side ----

  lemma {:induction false} SideLegsConcat(a: seq<Leg>, b: seq<Leg>, who: AccountRef, currency: string)
    ensures SideLegs(a + b, who, currency) == SideLegs(a, who, currency) + SideLegs(b, who, currency)
  {
    if b == [] {
      assert a + b == a;
    } else {
      assert (a + b)[..|a + b| - 1] == a + b[..|b| - 1];
      SideLegsConcat(a, b[..|b| - 1], who, currency);
    }
  }

  lemma {:induction false} SideLegsAll(legs: seq<Leg>, who: AccountRef, currency: string)
    requires forall i :: 0 <= i < |legs| ==> OnSide(legs[i].account, who, currency)
    ensures SideLegs(legs, who, currency) == legs
  {
    if legs != [] {
      SideLegsAll(legs[..|legs| - 1], who, currency);
    }
  }

  lemma {:induction false} SideLegsNone(legs: seq<Leg>, who: AccountRef, currency: string)
    requires forall i :: 0 <= i < |legs| ==> !OnSide(legs[i].account, who, currency)
    ensures SideLegs(legs, who, currency) == []
  {
    if legs != [] {
      SideLegsNone(legs[..|legs| - 1], who, currency);
    }
  }

  /** Every account lies on the side of one name only. */
  lemma {:induction false} SidesAreDisjoint(k: AccountKey, a: AccountRef, ac: string, b: AccountRef, bc: string)
    requires OnSide(k, a, ac) && OnSide(k, b, bc)
    ensures a == b && ac == bc
  {
  }

  lemma {:induction false} WrittenAfter(accounts: map<AccountKey, Account>, tx: nat, legs: seq<PostingLeg>,
                                        keys: seq<AccountKey>)
    requires |legs| == |keys| && forall i :: 0 <= i < |legs| ==> legs[i].account == keys[i]
    ensures AfterSum(WrittenLegs(accounts, tx, legs)) == SideTotal(accounts, keys) + PostingTotal(legs)
  {
    if legs != [] {
      var last := |legs| - 1;
      WrittenAfter(accounts, tx, legs[..last], keys[..last]);
      assert WrittenLegs(accounts, tx, legs)[..last] == WrittenLegs(accounts, tx, legs[..last]);
    }
  }

  lemma {:induction false} OneSide(accounts: map<AccountKey, Account>, tx: nat, legs: seq<PostingLeg>, keys: seq<AccountKey>,
                                   n: Name, a: AccountRef, currency: string)
    requires |legs| == |keys| && forall i :: 0 <= i < |legs| ==> legs[i].account == keys[i]
    requires forall k :: k in keys ==> OnSide(k, n.who, n.currency)
    ensures SideLegs(WrittenLegs(accounts, tx, legs), a, currency) ==
            if Name(a, currency) == n then WrittenLegs(accounts, tx, legs) else []
  {
    var w := WrittenLegs(accounts, tx, legs);
    forall i | 0 <= i < |w| ensures OnSide(w[i].account, n.who, n.currency) {
      assert keys[i] in keys;
    }
    if Name(a, currency) == n {
      SideLegsAll(w, a, currency);
    } else {
      forall i | 0 <= i < |w| ensures !OnSide(w[i].account, a, currency) {
        if OnSide(w[i].account, a, currency) {
          SidesAreDisjoint(w[i].account, a, currency, n.who, n.currency);
        }
      }
      SideLegsNone(w, a, currency);
    }
  }

  /** The legs of one side of a transfer add up to what the entry says of it. */
  predicate SideSums(accounts: map<AccountKey, Account>, legs: seq<PostingLeg>, keys: seq<AccountKey>, n: Name,
                     amount: int, after: int) {
    && |legs| == |keys| > 0
    && (forall i :: 0 <= i < |legs| ==> legs[i].account == keys[i])
    && (forall k :: k in keys ==> OnSide(k, n.who, n.currency))
    && PostingTotal(legs) == amount
    && after == SideTotal(accounts, keys) + amount
  }

  lemma {:induction false} SideWritten(accounts: map<AccountKey, Account>, tx: nat, legs: seq<PostingLeg>,
                                       keys: seq<AccountKey>, n: Name, amount: int, after: int)
    requires SideSums(accounts, legs, keys, n, amount, after)
    ensures var w := WrittenLegs(accounts, tx, legs);
            w != [] && AmountSum(w) == amount && AfterSum(w) == after
  {
    WrittenAfter(accounts, tx, legs, keys);
    WrittenSum(accounts, tx, legs);
  }

  lemma {:induction false} WrittenConcat(accounts: map<AccountKey, Account>, tx: nat, a: seq<PostingLeg>, b: seq<PostingLeg>)
    ensures WrittenLegs(accounts, tx, a + b) == WrittenLegs(accounts, tx, a) + WrittenLegs(accounts, tx, b)
  {
  }

  /** The written legs of a transfer agree with its entry on every name. */
  lemma {:induction false} TransferLegsAgree(accounts: map<AccountKey, Account>, tx: nat, d: seq<PostingLeg>,
                                             c: seq<PostingLeg>, from: seq<AccountKey>, to: seq<AccountKey>, e: Entry,
                                             a: AccountRef, currency: string)
    requires e.Transferred? && e.from != e.to
    requires SideSums(accounts, d, from, e.from, -e.amount, e.fromAfter)
    requires SideSums(accounts, c, to, e.to, e.amount, e.toAfter)
    ensures SideAgrees(WrittenLegs(accounts, tx, d + c), e, a, currency)
  {
    var wd, wc := WrittenLegs(accounts, tx, d), WrittenLegs(accounts, tx, c);
    WrittenConcat(accounts, tx, d, c);
    SideLegsConcat(wd, wc, a, currency);
    OneSide(accounts, tx, d, from, e.from, a, currency);
    OneSide(accounts, tx, c, to, e.to, a, currency);
    var s := SideLegs(WrittenLegs(accounts, tx, d + c), a, currency);
    if Name(a, currency) == e.from {
      assert s == wd;
      SideWritten(accounts, tx, d, from, e.from, -e.amount, e.fromAfter);
    } else if Name(a, currency) == e.to {
      assert s == wc;
      SideWritten(accounts, tx, c, to, e.to, e.amount, e.toAfter);
    }
  }
}

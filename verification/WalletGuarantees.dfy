/** What the wallet guarantees its callers and its operators, in every reachable state. */
module WalletGuarantees {
  import opened Options
  import opened WalletTypes
  import opened WalletTables
  import opened WalletSpec
  import opened WalletBooks
  import opened WalletAudit
  import opened WalletViews
  import opened WalletArchive
  import opened WalletRefinement
  import opened WalletHoldRefinement
  import opened WalletRuns
  import L = WalletLedger

  // ---- the audit ----

  predicate InFlightDerived(t: Tables) {
    forall k :: k in t.accounts ==> t.accounts[k].inFlight == ActiveSum(t.holds, k)
  }

  /** Nothing for the audit query to report. */
  predicate AuditClean(t: Tables) {
    TransactionsBalanced(t) && BalancesDerived(t) && InFlightDerived(t)
  }

  /** On books that are in order the audit finds nothing, and the money of each currency sums to zero. */
  lemma {:induction false} InvIsClean(t: Tables, k: AccountKey, currency: string)
    requires Inv(t)
    ensures AuditClean(t) && TotalOver(t.accounts.Keys, t.accounts, currency) == 0
    ensures k in t.accounts ==> t.accounts[k].balance == LegSum(t.legs, k)
  {
    forall x | x in t.accounts ensures t.accounts[x].inFlight == ActiveSum(t.holds, x) {
      assert Covered(x, t.accounts[x], t.holds);
    }
    BalanceIsLegSum(t, |t.legs|, k);
    assert t.legs[..|t.legs|] == t.legs;
  }

  /** On books that are in order no user account is below its credit floor. */
  lemma {:induction false} InvIsCovered(t: Tables, k: AccountKey)
    requires Inv(t) && k in t.accounts && k.owner.User?
    ensures var a := t.accounts[k];
            a.balance + a.creditLimit - a.inFlight >= 0 && a.inFlight >= 0 && a.creditLimit >= 0
  {
    assert Covered(k, t.accounts[k], t.holds);
    forall j | 0 <= j < |t.holds| ensures t.holds[j].amount > 0 {
      assert HoldWf(t, t.holds[j]);
    }
    ActiveSumBounds(t.holds, k, 0);
  }

  /** The audit never fails: no run of commands leaves drift, and the money of each currency sums to zero. */
  lemma {:induction false} AuditNeverFails(cfg: Config, events: seq<Event>, k: AccountKey, currency: string)
    requires cfg.Valid()
    ensures var t := Run(cfg, EMPTY, events);
            && AuditClean(t)
            && TotalOver(t.accounts.Keys, t.accounts, currency) == 0
            && (k in t.accounts ==> t.accounts[k].balance == LegSum(t.legs, k))
  {
    hide Run, Inv, AuditClean, TotalOver, LegSum;
    RunKeepsInv(cfg, events);
    InvIsClean(Run(cfg, EMPTY, events), k, currency);
  }

  /** Holds are always covered: no user account is ever below its credit floor, whatever is in flight. */
  lemma {:induction false} FloorHolds(cfg: Config, events: seq<Event>, k: AccountKey)
    requires cfg.Valid() && k in Run(cfg, EMPTY, events).accounts && k.owner.User?
    ensures var a := Run(cfg, EMPTY, events).accounts[k];
            a.balance + a.creditLimit - a.inFlight >= 0 && a.inFlight >= 0 && a.creditLimit >= 0
  {
    hide Run, Inv;
    RunKeepsInv(cfg, events);
    InvIsCovered(Run(cfg, EMPTY, events), k);
  }

  // ---- rejections change nothing ----

  lemma {:induction false} FailedTxChangesNothing(cfg: Config, t: Tables, c: Command, env: Env)
    requires cfg.Valid() && Malformed(c).None?
    ensures var (u, end) := TxStep(cfg, t, c, env);
            !end.Committed? || end.replayed ==> u == t
  {
    hide Postable, Post, FindTx, FindHold, Malformed, AnyFrozen, OpenSide, SideKeys, TransferPosting, SideTotal,
         FreeAll;
    if c.Credit? || c.Refund? {
    } else if c.Transfer? {
    } else if c.Settle? {
    } else if c.Release? {
    }
  }

  /** A rejected command, and a replayed one, leave every table as it was. */
  lemma {:induction false} RejectedChangesNothing(cfg: Config, t: Tables, c: Command, env: Env)
    requires cfg.Valid()
    ensures var (u, o) := Step(cfg, t, c, env);
            o.Rejected? || o.replayed ==> u == t
  {
    hide TxStep, Readback, Malformed;
    if FastPath(t, c).None? {
      FailedTxChangesNothing(cfg, t, c, env);
    }
  }

  // ---- no internal error ----

  lemma {:induction false} LedgerNeverFailsInside(cfg: Config, t: Tables, l: L.Ledger, c: Command, env: Env)
    requires Inv(t) && Refines(cfg, t, l)
    ensures L.Step(l, c, env).1 != Rejected(InternalError)
  {
    hide Inv, Views, LegsWf, Filed, FingerprintOf;
    if c.Settle? {
      var found := FindHold(l.holds, c.ref);
      if found.Some? {
        assert SettledOnFile(l, found.value);
      }
    } else if c.ReleaseExpired? {
      if Malformed(c).None? {
        ScanChosenSound(t, c.limit, env);
      }
    } else if Keyed(c) && !c.Authorize? {
      if (c.ref, KindOf(c)) in l.archive {
        EntryOfKind(t, l, c);
      }
    }
  }

  lemma {:induction false} EntryOfKind(t: Tables, l: L.Ledger, c: Command)
    requires Archived(t, l) && Keyed(c) && !c.Authorize? && (c.ref, KindOf(c)) in l.archive
    ensures var e := l.archive[(c.ref, KindOf(c))];
            && (c.Credit? || c.Refund? ==> e.Moved?) && (c.SetCreditLimit? ==> e.LimitSet?)
            && (c.Freeze? ==> e.FrozenSet?) && (c.Transfer? ==> e.Transferred?)
  {
    assert Filed(t, l, c.ref, KindOf(c));
  }

  /** The internal errors of the kernel are unreachable. */
  lemma {:induction false} NoInternalError(cfg: Config, events: seq<Event>, c: Command, env: Env)
    requires cfg.Valid()
    ensures Step(cfg, Run(cfg, EMPTY, events), c, env).1 != Rejected(InternalError)
  {
    hide Run, Step, L.Step, Inv, Refines, LedgerRun;
    var t, l := Run(cfg, EMPTY, events), LedgerRun(L.EMPTY_LEDGER, events);
    RunKeepsInv(cfg, events);
    RunRefines(cfg, events);
    StepRefines(cfg, t, l, c, env);
    LedgerNeverFailsInside(cfg, t, l, c, env);
  }

  // ---- settle ----

  /** The account a settlement credits. */
  function CounterpartyKey(cfg: Config, c: Command, holder: AccountKey): AccountKey
    requires cfg.Valid() && c.Settle?
  {
    ShardKey(c.counterparty, ShardOf(cfg, c.ref), holder.currency)
  }

  /** Settling needs an active, unexpired hold of at least the amount, on unfrozen accounts, and nothing else: there
      is no balance check, and none is missing. */
  predicate Settleable(cfg: Config, t: Tables, c: Command, env: Env)
    requires cfg.Valid() && c.Settle?
  {
    match FindHold(t.holds, c.ref)
    case None => false
    case Some(i) =>
      var h := t.holds[i];
      && h.status == Active
      && !(h.expiresAt.Some? && h.expiresAt.value <= env.now)
      && 0 < c.amount <= h.amount
      && !AccountAt(t.accounts, h.account).frozen
      && !AccountAt(t.accounts, CounterpartyKey(cfg, c, h.account)).frozen
  }

  lemma {:induction false} HoldOnFile(cfg: Config, t: Tables, l: L.Ledger, ref: Ref, i: nat)
    requires Inv(t) && Refines(cfg, t, l) && FindHold(t.holds, ref) == Some(i)
    ensures HoldWf(t, t.holds[i]) && SettledOnFile(l, i) && Filed(t, l, t.holds[i].ref, SettleKind) && l.holds == t.holds
    ensures l.next == |t.transactions| && Views(cfg, t.accounts, l)
    ensures t.holds[i].account in t.accounts && t.holds[i].account.owner.User?
  {
    var h := t.holds[i];
    assert HoldWf(t, h);
  }

  lemma {:induction false} ActiveSettles(cfg: Config, t: Tables, l: L.Ledger, c: Command, env: Env, i: nat)
    requires cfg.Valid() && c.Settle? && c.amount > 0 && Inv(t) && Refines(cfg, t, l)
    requires FindHold(t.holds, c.ref) == Some(i) && t.holds[i].status == Active
    ensures var o := Step(cfg, t, c, env).1;
            (o.Done? && !o.replayed) <==> Settleable(cfg, t, c, env)
  {
    hide Inv, Refines, Views, SettleReplay, SettleTx, LegsOf, ShardOf, HoldWf, EntryMatches, L.Ledger.At;
    var h := t.holds[i];
    HoldOnFile(cfg, t, l, c.ref, i);
    SettlePair(cfg, t, l, c, h);
    SettleDecision(cfg, t, l, c, env, i);
  }

  lemma {:induction false} SettleIff(cfg: Config, t: Tables, l: L.Ledger, c: Command, env: Env)
    requires cfg.Valid() && c.Settle? && Inv(t) && Refines(cfg, t, l)
    ensures var o := Step(cfg, t, c, env).1;
            (o.Done? && !o.replayed) <==> Settleable(cfg, t, c, env)
  {
    var found := FindHold(t.holds, c.ref);
    if found.Some? && c.amount > 0 && t.holds[found.value].status == Active {
      ActiveSettles(cfg, t, l, c, env, found.value);
    }
    hide Inv, Refines, SettleReplay, AccountAt, ShardKey, ShardOf;
  }

  /** Settle takes effect exactly when the hold and the two accounts allow it, and never breaks the credit floor. */
  lemma {:induction false} SettleNeedsOnlyItsHold(cfg: Config, events: seq<Event>, c: Command, env: Env, k: AccountKey)
    requires cfg.Valid() && c.Settle?
    ensures var t := Run(cfg, EMPTY, events);
            var (u, o) := Step(cfg, t, c, env);
            && ((o.Done? && !o.replayed) <==> Settleable(cfg, t, c, env))
            && (k in u.accounts && k.owner.User? ==>
                  u.accounts[k].balance + u.accounts[k].creditLimit - u.accounts[k].inFlight >= 0)
  {
    var t, l := Run(cfg, EMPTY, events), LedgerRun(L.EMPTY_LEDGER, events);
    RunKeepsInv(cfg, events);
    RunRefines(cfg, events);
    SettleIff(cfg, t, l, c, env);
    var more := events + [Event(c, env)];
    assert more[..|more| - 1] == events;
    assert Run(cfg, EMPTY, more) == Step(cfg, t, c, env).0;
    hide Run, Step, Settleable;
    if k in Step(cfg, t, c, env).0.accounts && k.owner.User? {
      FloorHolds(cfg, more, k);
    }
  }
}

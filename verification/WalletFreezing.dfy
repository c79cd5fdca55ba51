/** Freezing an account, of a user or of a code with all its shards, stops every later posting and hold on it. */
module WalletFreezing {
  import opened WalletTypes
  import opened WalletTables
  import opened WalletSpec
  import opened WalletAudit
  import opened WalletRuns
  import opened WalletGuarantees
  import L = WalletLedger
  import OrderedQuery

  /** Commands that would move money on an account, hold some of it, or change its limit. */
  predicate Touches(holds: seq<Hold>, c: Command, who: AccountRef, currency: string) {
    if c.Credit? || c.Refund? then c.currency == currency && (who == ToUser(c.userId) || who == ToCode(c.counterparty))
    else if c.Authorize? || c.SetCreditLimit? then c.currency == currency && who == ToUser(c.userId)
    else if c.Settle? then
      var found := FindHold(holds, c.ref);
      && found.Some? && holds[found.value].account.currency == currency
      && (who == ToCode(c.counterparty) || who == L.HolderOf(holds[found.value]))
    else
      c.Transfer? && ((c.from == who && c.fromCurrency == currency) || (c.to == who && c.toCurrency == currency))
  }

  predicate Unfreezes(c: Command, who: AccountRef, currency: string) {
    c.Freeze? && c.target == who && c.currency == currency && !c.frozen
  }

  lemma {:induction false} FrozenRejects(l: L.Ledger, c: Command, env: Env, who: AccountRef, currency: string)
    requires l.At(who, currency).frozen && Touches(l.holds, c, who, currency)
    ensures var o := L.Step(l, c, env).1;
            o.Rejected? || o.replayed
  {
    hide FingerprintOf, Malformed;
  }

  /** Expiry touches no status. */
  lemma {:induction false} ExpireKeepsStatus(l: L.Ledger, ids: seq<nat>, who: AccountRef, currency: string)
    requires forall i :: 0 <= i < |ids| ==> ids[i] < |l.holds|
    ensures L.ExpireEach(l, ids).At(who, currency).frozen == l.At(who, currency).frozen
  {
    if ids != [] {
      ExpireKeepsStatus(l, ids[..|ids| - 1], who, currency);
    }
  }

  lemma {:induction false} FrozenPersists(l: L.Ledger, c: Command, env: Env, who: AccountRef, currency: string)
    requires l.At(who, currency).frozen && !Unfreezes(c, who, currency)
    ensures L.Step(l, c, env).0.At(who, currency).frozen
  {
    hide FingerprintOf, L.Repeat, L.Answer, L.Spendable;
    if c.ReleaseExpired? && Malformed(c).None? {
      var ids := OrderedQuery.FirstIds(DueItems(l.holds, env), c.limit);
      if forall i :: 0 <= i < |ids| ==> ids[i] < |l.holds| {
        ExpireKeepsStatus(l, ids, who, currency);
      }
    } else if c.Settle? {
      SettleKeepsStatus(l, c, env, who, currency);
    }
  }

  lemma {:induction false} SettleKeepsStatus(l: L.Ledger, c: Command, env: Env, who: AccountRef, currency: string)
    requires c.Settle?
    ensures L.SettleHold(l, c, env).0.At(who, currency).frozen == l.At(who, currency).frozen
  {
    hide FingerprintOf, L.Answer;
  }

  lemma {:induction false} FrozenThroughRun(l: L.Ledger, events: seq<Event>, who: AccountRef, currency: string)
    requires l.At(who, currency).frozen
    requires forall i :: 0 <= i < |events| ==> !Unfreezes(events[i].command, who, currency)
    ensures LedgerRun(l, events).At(who, currency).frozen
  {
    if events != [] {
      var last := events[|events| - 1];
      FrozenThroughRun(l, events[..|events| - 1], who, currency);
      hide L.Step;
      FrozenPersists(LedgerRun(l, events[..|events| - 1]), last.command, last.env, who, currency);
    }
  }

  lemma {:induction false} LedgerRunConcat(l: L.Ledger, a: seq<Event>, b: seq<Event>)
    ensures LedgerRun(l, a + b) == LedgerRun(LedgerRun(l, a), b)
  {
    if b == [] {
      assert a + b == a;
    } else {
      assert (a + b)[..|a + b| - 1] == a + b[..|b| - 1];
      LedgerRunConcat(l, a, b[..|b| - 1]);
    }
  }

  lemma {:induction false} FreezeTakes(l: L.Ledger, f: Event)
    requires f.command.Freeze? && f.command.frozen
    requires var o := L.Step(l, f.command, f.env).1; o.Done? && !o.replayed
    ensures L.Step(l, f.command, f.env).0.At(f.command.target, f.command.currency).frozen
  {
  }

  /** A frozen account rejects every later credit, refund, hold, settlement, transfer and change of limit until it is
      unfrozen: nothing new is written, on any shard. */
  lemma {:induction false} FrozenAccountRejects(cfg: Config, before: seq<Event>, f: Event, after: seq<Event>, c: Command,
                                                env: Env, who: AccountRef, currency: string)
    requires cfg.Valid()
    requires f.command.Freeze? && f.command.frozen && f.command.target == who && f.command.currency == currency
    requires var o := Step(cfg, Run(cfg, EMPTY, before), f.command, f.env).1; o.Done? && !o.replayed
    requires forall i :: 0 <= i < |after| ==> !Unfreezes(after[i].command, who, currency)
    requires Touches(Run(cfg, EMPTY, before + [f] + after).holds, c, who, currency)
    ensures var t := Run(cfg, EMPTY, before + [f] + after);
            var (u, o) := Step(cfg, t, c, env);
            u == t && (o.Rejected? || o.replayed)
  {
    hide Step, L.Step, Run;
    var l0 := LedgerRun(L.EMPTY_LEDGER, before);
    var events := before + [f] + after;
    var t, l := Run(cfg, EMPTY, events), LedgerRun(L.EMPTY_LEDGER, events);
    RunKeepsInv(cfg, before);
    RunRefines(cfg, before);
    StepRefines(cfg, Run(cfg, EMPTY, before), l0, f.command, f.env);
    FreezeTakes(l0, f);
    assert (before + [f])[..|before|] == before;
    assert LedgerRun(L.EMPTY_LEDGER, before + [f]) == L.Step(l0, f.command, f.env).0;
    LedgerRunConcat(L.EMPTY_LEDGER, before + [f], after);
    hide LedgerRun;
    FrozenThroughRun(L.Step(l0, f.command, f.env).0, after, who, currency);
    RunKeepsInv(cfg, events);
    RunRefines(cfg, events);
    FrozenRejects(l, c, env, who, currency);
    StepRefines(cfg, t, l, c, env);
    RejectedChangesNothing(cfg, t, c, env);
  }
}

/** Whole runs: the wallet and the reference ledger answer every sequence of commands alike. */
module WalletRuns {
  import opened WalletTypes
  import opened WalletSpec
  import opened WalletBooks
  import opened WalletAudit
  import opened WalletViews
  import opened WalletArchive
  import opened WalletRefinement
  import opened WalletHoldRefinement
  import opened WalletTransferRefinement
  import L = WalletLedger

  lemma {:induction false} FirstRefines(cfg: Config, t: Tables, l: L.Ledger, c: Command, env: Env)
    requires cfg.Valid() && LegsWf(t) && Refines(cfg, t, l)
    requires Keyed(c) && !c.Authorize? && Malformed(c).None? && PriorOf(t, c).None?
    ensures var (u, end) := TxStep(cfg, t, c, env);
            var (m, o) := L.First(l, c);
            o == EndOutcome(u, c, end) && Refines(cfg, u, m)
  {
    hide LegsWf, Refines, EndOutcome, MoveTx, LimitTx, FreezeTx, TransferTx, L.Move, L.Grant, L.SetStatus, L.Hand;
    match c
    case Credit(_, _, _, _, _, _) => MoveRefines(cfg, t, l, c);
    case Refund(_, _, _, _, _, _) => MoveRefines(cfg, t, l, c);
    case SetCreditLimit(_, _, _, _, _) => LimitRefines(cfg, t, l, c);
    case Freeze(_, _, _, _, _) => FreezeRefines(cfg, t, l, c);
    case Transfer(_, _, _, _, _, _, _, _) => TransferRefines(cfg, t, l, c);
  }

  lemma {:induction false} KeyedStepRefines(cfg: Config, t: Tables, l: L.Ledger, c: Command, env: Env)
    requires cfg.Valid() && LegsWf(t) && Refines(cfg, t, l)
    requires Keyed(c) && !c.Authorize? && Malformed(c).None?
    ensures Step(cfg, t, c, env).1 == L.Step(l, c, env).1 && Refines(cfg, Step(cfg, t, c, env).0, L.Step(l, c, env).0)
  {
    var key := (c.ref, KindOf(c));
    assert Filed(t, l, c.ref, KindOf(c)) && (key in l.archive <==> PriorOf(t, c).Some?);
    hide LegsWf, Refines, EndOutcome, TxStep, L.First, Filed, Readback, L.Repeat;
    if key in l.archive {
      assert Filed(t, l, c.ref, KindOf(c));
      ReadbackIsRepeat(t, l, c);
    } else {
      FirstRefines(cfg, t, l, c, env);
    }
  }

  lemma {:induction false} HoldStepRefines(cfg: Config, t: Tables, l: L.Ledger, c: Command, env: Env)
    requires cfg.Valid() && LegsWf(t) && HoldsWf(t) && Refines(cfg, t, l)
    requires !(Keyed(c) && !c.Authorize?) && Malformed(c).None?
    ensures Step(cfg, t, c, env).1 == L.Step(l, c, env).1 && Refines(cfg, Step(cfg, t, c, env).0, L.Step(l, c, env).0)
  {
    hide HoldsWf, EndOutcome, AuthorizeTx, SettleTx, ReleaseTx, ScanTx, L.Place, L.SettleHold, L.ReleaseOne,
         L.ExpireDue;
    assert t.holds == l.holds;
    hide LegsWf, Refines;
    if c.Authorize? {
      if PriorOf(t, c).None? {
        AuthorizeRefines(cfg, t, l, c);
      }
    } else if c.Settle? {
      SettleRefines(cfg, t, l, c, env);
    } else if c.Release? {
      ReleaseRefines(cfg, t, l, c);
    } else {
      ScanRefines(cfg, t, l, c.limit, env);
    }
  }

  /** One command, uninterrupted: the same answer from both, and the states still correspond. */
  lemma {:induction false} StepRefines(cfg: Config, t: Tables, l: L.Ledger, c: Command, env: Env)
    requires cfg.Valid() && Inv(t) && Refines(cfg, t, l)
    ensures Step(cfg, t, c, env).1 == L.Step(l, c, env).1
    ensures Refines(cfg, Step(cfg, t, c, env).0, L.Step(l, c, env).0)
  {
    hide LegsWf, HoldsWf, Refines, TxStep, AllCovered;
    if Malformed(c).None? {
      if Keyed(c) && !c.Authorize? {
        KeyedStepRefines(cfg, t, l, c, env);
      } else {
        HoldStepRefines(cfg, t, l, c, env);
      }
    }
  }

  /** The answers of the wallet to a sequence of commands, oldest first. */
  function Answers(cfg: Config, t: Tables, events: seq<Event>): seq<Outcome>
    requires cfg.Valid()
  {
    if events == [] then []
    else
      var init, last := events[..|events| - 1], events[|events| - 1];
      Answers(cfg, t, init) + [Step(cfg, Run(cfg, t, init), last.command, last.env).1]
  }

  function LedgerRun(l: L.Ledger, events: seq<Event>): L.Ledger {
    if events == [] then l
    else
      var last := events[|events| - 1];
      L.Step(LedgerRun(l, events[..|events| - 1]), last.command, last.env).0
  }

  function LedgerAnswers(l: L.Ledger, events: seq<Event>): seq<Outcome> {
    if events == [] then []
    else
      var init, last := events[..|events| - 1], events[|events| - 1];
      LedgerAnswers(l, init) + [L.Step(LedgerRun(l, init), last.command, last.env).1]
  }

  lemma {:induction false} EmptyRefines(cfg: Config)
    ensures Refines(cfg, EMPTY, L.EMPTY_LEDGER)
  {
    forall who, currency ensures Shows(cfg, EMPTY.accounts, L.EMPTY_LEDGER.At(who, currency), who, currency) {
      if who.ToCode? {
        EmptyTotal(who.code, currency, cfg.shards);
      }
    }
    forall ref, kind ensures Filed(EMPTY, L.EMPTY_LEDGER, ref, kind) {
    }
  }

  lemma {:induction false} EmptyTotal(code: string, currency: string, n: nat)
    ensures ShardTotal(map[], code, currency, n) == 0
  {
    if n > 0 {
      EmptyTotal(code, currency, n - 1);
    }
  }

  /** Every run of the sharded wallet is a run of the one-account-per-name ledger, with the same acceptances,
      rejections and receipts. */
  lemma {:induction false} RunRefines(cfg: Config, events: seq<Event>)
    requires cfg.Valid()
    ensures Answers(cfg, EMPTY, events) == LedgerAnswers(L.EMPTY_LEDGER, events)
    ensures Refines(cfg, Run(cfg, EMPTY, events), LedgerRun(L.EMPTY_LEDGER, events))
  {
    hide Refines, Inv, Step, L.Step;
    if events == [] {
      EmptyRefines(cfg);
    } else {
      var init, last := events[..|events| - 1], events[|events| - 1];
      RunRefines(cfg, init);
      RunKeepsInv(cfg, init);
      StepRefines(cfg, Run(cfg, EMPTY, init), LedgerRun(L.EMPTY_LEDGER, init), last.command, last.env);
    }
  }
}

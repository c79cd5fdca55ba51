/** The guarantees of the wallet under any interleaving of calls, and across the kinds of one key. */
module WalletInterleaving {
  import opened WalletTypes
  import opened WalletTables
  import opened WalletSpec
  import opened WalletBooks
  import opened WalletAudit
  import opened WalletViews
  import opened WalletArchive
  import opened WalletRefinement
  import opened WalletTransferRefinement
  import opened WalletGuarantees
  import opened WalletConcurrency
  import L = WalletLedger

  // ---- what every interleaving keeps ----

  /** Under any interleaving the audit finds nothing, balances are the sums of their legs, and each currency sums to zero. */
  lemma {:induction false} AuditStaysClean(cfg: Config, commands: seq<Command>, turns: seq<Turn>, k: AccountKey, currency: string)
    requires cfg.Valid()
    ensures var t := Interleave(cfg, Begin(commands), turns).tables;
            && AuditClean(t)
            && TotalOver(t.accounts.Keys, t.accounts, currency) == 0
            && (k in t.accounts ==> t.accounts[k].balance == LegSum(t.legs, k))
  {
    hide Interleave, ShadowRun, Inv, Refines, CallsOk, AuditClean, TotalOver, LegSum;
    InterleaveSound(cfg, commands, turns);
    InvIsClean(Interleave(cfg, Begin(commands), turns).tables, k, currency);
  }

  /** Under any interleaving no user account is ever below its credit floor. */
  lemma {:induction false} FloorStays(cfg: Config, commands: seq<Command>, turns: seq<Turn>, k: AccountKey)
    requires cfg.Valid() && k in Interleave(cfg, Begin(commands), turns).tables.accounts && k.owner.User?
    ensures var a := Interleave(cfg, Begin(commands), turns).tables.accounts[k];
            a.balance + a.creditLimit - a.inFlight >= 0 && a.inFlight >= 0 && a.creditLimit >= 0
  {
    hide Interleave, ShadowRun, Inv, Refines, CallsOk;
    InterleaveSound(cfg, commands, turns);
    InvIsCovered(Interleave(cfg, Begin(commands), turns).tables, k);
  }

  // ---- one end for every hold ----

  /** Under any interleaving a hold ends in one way: a settlement and a release of it never both succeed, and neither
      does a settlement of one that has expired. */
  lemma {:induction false} SettledOrReleased(cfg: Config, commands: seq<Command>, turns: seq<Turn>, i: nat, j: nat)
    requires cfg.Valid() && i < |commands| && j < |commands|
    requires commands[i].Settle? && commands[j].Release? && commands[i].ref == commands[j].ref
    ensures var w := Interleave(cfg, Begin(commands), turns);
            var found := FindHold(w.tables.holds, commands[i].ref);
            && |w.calls| == |commands|
            && (w.calls[i].phase.Answered? && w.calls[i].phase.outcome.Done? ==>
                  found.Some? && w.tables.holds[found.value].status == Settled)
            && (w.calls[j].phase.Answered? && w.calls[j].phase.outcome.Done? ==>
                  found.Some? && (w.tables.holds[found.value].status == Released || w.tables.holds[found.value].status == Expired))
            && !(w.calls[i].phase.Answered? && w.calls[j].phase.Answered? && w.calls[i].phase.outcome.Done? &&
                 w.calls[j].phase.outcome.Done?)
            && !(Effective(w.calls[i]) && Effective(w.calls[j]))
  {
    hide Interleave, ShadowRun, Inv, FingerprintOf;
    var w := Interleave(cfg, Begin(commands), turns);
    var l := ShadowRun(cfg, Begin(commands), L.EMPTY_LEDGER, turns);
    InterleaveSound(cfg, commands, turns);
    SameCommands(cfg, Begin(commands), turns, i);
    SameCommands(cfg, Begin(commands), turns, j);
    assert CallOk(w.calls[i], l) && CallOk(w.calls[j], l);
    hide Views, Archived, SettlementsFiled;
  }

  // ---- no internal error ----

  /** What reads back a taken key never fails inside. */
  lemma {:induction false} ReadbackFinds(cfg: Config, t: Tables, l: L.Ledger, c: Command)
    requires Refines(cfg, t, l) && Keyed(c) && Malformed(c).None? && PriorOf(t, c).Some?
    ensures Readback(t, c) != Rejected(InternalError)
  {
    hide FingerprintOf, Views, SettlementsFiled, Malformed;
    if !c.Authorize? {
      ReadbackIsRepeat(t, l, c);
      assert Filed(t, l, c.ref, KindOf(c));
      EntryOfKind(t, l, c);
    }
  }

  lemma {:induction false} MoveIsPostable(cfg: Config, t: Tables, c: Command)
    requires cfg.Valid() && (c.Credit? || c.Refund?)
    ensures MoveTx(cfg, t, c).1 != Failed(InternalError)
  {
    hide Postable, FingerprintOf, FindTx, Post, AnyFrozen;
    var p := MovePosting(cfg, c);
    TwoLegsPostable(p.header, c.userId, c.counterparty, ShardOf(cfg, c.ref), c.currency, p.legs[0].amount);
    assert p.legs == TwoLegs(c.userId, c.counterparty, ShardOf(cfg, c.ref), c.currency, p.legs[0].amount);
  }

  lemma {:induction false} AuditsArePostable(cfg: Config, t: Tables, l: L.Ledger, c: Command)
    requires cfg.Valid() && Views(cfg, t.accounts, l)
    ensures c.SetCreditLimit? ==> LimitTx(t, c).1 != Failed(InternalError)
    ensures c.Freeze? ==> FreezeTx(cfg, t, c).1 != Failed(InternalError)
  {
    hide Postable, FingerprintOf, FindTx, Post, SetFrozen, OpenSide, SideKeys, ShardKeys, Views;
    if c.SetCreditLimit? {
      var k := UserKey(c.userId, c.currency);
      AuditPostable(LimitPosting(c), k, {k});
    } else if c.Freeze? {
      OpenedRowsOf(cfg, t.accounts, l, c.target, c.currency);
      var keys := SideKeys(OpenSide(cfg, t.accounts, c.target, c.currency), c.target, c.currency);
      assert keys != [] && keys[0] in keys;
      AuditPostable(FreezePosting(c, keys[0]), keys[0], set k | k in keys);
    }
  }

  lemma {:induction false} TransferIsPostable(cfg: Config, t: Tables, l: L.Ledger, c: Command)
    requires cfg.Valid() && Views(cfg, t.accounts, l) && c.Transfer? && Malformed(c).None?
    ensures TransferTx(cfg, t, c).1 != Failed(InternalError)
  {
    hide Postable, FingerprintOf, FindTx, Post, OpenBoth, ShardKeys, Views, TransferPosting, SideKeys, AnyFrozen;
    var accounts := OpenBoth(cfg, t.accounts, c);
    var from, to := SideOf(accounts, c.from, c.fromCurrency), SideOf(accounts, c.to, c.toCurrency);
    BothRows(cfg, t.accounts, l, c);
    if c.fromCurrency == c.toCurrency && TransferShortfall(accounts, from, c, ShardOf(cfg, c.ref)).None? {
      TransferPostable(cfg, accounts, l, c, from, to, ShardOf(cfg, c.ref), set k | k in from.keys + to.keys);
    }
    hide TransferShortfall;
  }

  /** A keyed transaction, whether or not its key is taken, never fails inside. */
  lemma {:induction false} KeyedTxFinds(cfg: Config, t: Tables, l: L.Ledger, c: Command, env: Env)
    requires cfg.Valid() && Views(cfg, t.accounts, l) && Keyed(c) && Malformed(c).None?
    ensures TxStep(cfg, t, c, env).1 != Failed(InternalError)
  {
    hide MoveTx, LimitTx, FreezeTx, TransferTx, Views, Malformed, FingerprintOf;
    if c.Credit? || c.Refund? {
      MoveIsPostable(cfg, t, c);
    } else if c.Transfer? {
      TransferIsPostable(cfg, t, l, c);
    } else if !c.Authorize? {
      AuditsArePostable(cfg, t, l, c);
    }
  }

  /** A call has not failed inside, and if the unique index blocked it the row that did so is there. */
  predicate CallFine(t: Tables, call: Call) {
    && call.phase != Answered(Rejected(InternalError))
    && (call.phase.Conflicted? ==> Keyed(call.command) && Malformed(call.command).None? && PriorOf(t, call.command).Some?)
  }

  predicate CallsFine(w: World) {
    forall i :: 0 <= i < |w.calls| ==> CallFine(w.tables, w.calls[i])
  }

  lemma {:induction false} PriorStays(cfg: Config, t: Tables, l: L.Ledger, u: Tables, m: L.Ledger, c: Command)
    requires Refines(cfg, t, l) && Refines(cfg, u, m) && Grows(l, m) && DistinctRefs(m.holds)
    requires Keyed(c) && PriorOf(t, c).Some?
    ensures PriorOf(u, c).Some?
  {
    hide Views, SettlementsFiled, EntryMatches;
    if c.Authorize? {
      FoundAgain(l, m, c.ref);
    } else {
      assert Filed(t, l, c.ref, KindOf(c)) && Filed(u, m, c.ref, KindOf(c));
    }
  }

  /** The tables only grow in a turn. */
  lemma {:induction false} TurnGrows(cfg: Config, w: World, l: L.Ledger, turn: Turn)
    requires cfg.Valid() && Sound(cfg, w, l)
    ensures Sound(cfg, Advance(cfg, w, turn), Shadow(w, l, turn))
    ensures Grows(l, Shadow(w, l, turn)) && DistinctRefs(Shadow(w, l, turn).holds)
  {
    AdvanceKeepsSound(cfg, w, l, turn);
    GrowsAlways(l);
    HoldTablesOk(Advance(cfg, w, turn).tables);
    hide Advance, TxStep, L.Step, Grows, PriorOf, CallsOk, HoldsWf;
    if turn.call < |w.calls| && w.calls[turn.call].phase.Missed? {
      var c := w.calls[turn.call].command;
      if Malformed(c).None? && !(Keyed(c) && PriorOf(w.tables, c).Some?) {
        FreeTxRefines(cfg, w.tables, l, c, turn.env);
      }
    }
  }

  /** The new phase of the call whose turn it is. */
  lemma {:induction false} OwnTurnFine(cfg: Config, w: World, l: L.Ledger, turn: Turn)
    requires cfg.Valid() && Sound(cfg, w, l) && CallsFine(w) && turn.call < |w.calls|
    ensures CallFine(Advance(cfg, w, turn).tables, Advance(cfg, w, turn).calls[turn.call])
  {
    var call := w.calls[turn.call];
    assert CallFine(w.tables, call) && CallOk(call, l);
    hide Inv, Refines, CallsOk, CallsFine, TxStep, Readback, PriorOf, L.Step;
    match call.phase
    case Start =>
      if Malformed(call.command).None? && Keyed(call.command) && PriorOf(w.tables, call.command).Some? {
        ReadbackFinds(cfg, w.tables, l, call.command);
      }
    case Missed => MissedTurnFine(cfg, w, l, turn);
    case Conflicted => ReadbackFinds(cfg, w.tables, l, call.command);
    case Answered(_) =>
  }

  lemma {:induction false} MissedTurnFine(cfg: Config, w: World, l: L.Ledger, turn: Turn)
    requires cfg.Valid() && Inv(w.tables) && Refines(cfg, w.tables, l)
    requires turn.call < |w.calls| && w.calls[turn.call].phase.Missed? && Malformed(w.calls[turn.call].command).None?
    ensures CallFine(Advance(cfg, w, turn).tables, Advance(cfg, w, turn).calls[turn.call])
  {
    hide Inv, TxStep, Readback, PriorOf, L.Step, Malformed;
    var c := w.calls[turn.call].command;
    var (u, end) := TxStep(cfg, w.tables, c, turn.env);
    if Keyed(c) {
      KeyedTxFinds(cfg, w.tables, l, c, turn.env);
    }
    hide Refines;
    if Keyed(c) && PriorOf(w.tables, c).Some? {
      TakenKeyBlocks(cfg, w.tables, c, turn.env);
      FailedTxChangesNothing(cfg, w.tables, c, turn.env);
    } else {
      FreeTxRefines(cfg, w.tables, l, c, turn.env);
      LedgerNeverFailsInside(cfg, w.tables, l, c, turn.env);
      FreeTxNeverConflicts(cfg, w.tables, c, turn.env);
    }
  }

  /** A keyed transaction that finds its key free does not run into the unique index. */
  lemma {:induction false} FreeTxNeverConflicts(cfg: Config, t: Tables, c: Command, env: Env)
    requires cfg.Valid() && Malformed(c).None?
    ensures Keyed(c) && PriorOf(t, c).None? ==> !TxStep(cfg, t, c, env).1.Conflict?
  {
    hide Postable, Post, Malformed, AnyFrozen, OpenSide, SideKeys, SideTotal, FingerprintOf, TransferShortfall;
  }

  lemma {:induction false} CallsStayFine(cfg: Config, commands: seq<Command>, turns: seq<Turn>)
    requires cfg.Valid()
    ensures CallsFine(Interleave(cfg, Begin(commands), turns))
  {
    hide Sound, Advance, Shadow, CallFine;
    if turns == [] {
      BeginFine(commands);
    } else {
      var init, turn := turns[..|turns| - 1], turns[|turns| - 1];
      var w, l := Interleave(cfg, Begin(commands), init), ShadowRun(cfg, Begin(commands), L.EMPTY_LEDGER, init);
      CallsStayFine(cfg, commands, init);
      InterleaveSound(cfg, commands, init);
      TurnFine(cfg, w, l, turn);
    }
  }

  lemma {:induction false} BeginFine(commands: seq<Command>)
    ensures CallsFine(Begin(commands))
  {
  }

  lemma {:induction false} TurnFine(cfg: Config, w: World, l: L.Ledger, turn: Turn)
    requires cfg.Valid() && Sound(cfg, w, l) && CallsFine(w)
    ensures CallsFine(Advance(cfg, w, turn))
  {
    hide Inv, Refines, CallsOk, TxStep, Readback, PriorOf, FastPath, EndOutcome, Grows, DistinctRefs, Malformed, L.Step;
    var u, m := Advance(cfg, w, turn), Shadow(w, l, turn);
    TurnGrows(cfg, w, l, turn);
    forall i | 0 <= i < |u.calls| ensures CallFine(u.tables, u.calls[i]) {
      if i == turn.call {
        OwnTurnFine(cfg, w, l, turn);
      } else {
        assert CallFine(w.tables, w.calls[i]);
        if w.calls[i].phase.Conflicted? {
          PriorStays(cfg, w.tables, l, u.tables, m, w.calls[i].command);
        }
      }
    }
  }

  /** Under any interleaving no call is ever answered with the internal error. */
  lemma {:induction false} NoCallFailsInside(cfg: Config, commands: seq<Command>, turns: seq<Turn>, i: nat)
    requires cfg.Valid() && i < |commands|
    ensures var w := Interleave(cfg, Begin(commands), turns);
            |w.calls| == |commands| && w.calls[i].phase != Answered(Rejected(InternalError))
  {
    hide Interleave, Begin;
    BeginLength(commands);
    CallsStayFine(cfg, commands, turns);
    SameCommands(cfg, Begin(commands), turns, i);
    assert CallFine(Interleave(cfg, Begin(commands), turns).tables, Interleave(cfg, Begin(commands), turns).calls[i]);
  }

  lemma {:induction false} BeginLength(commands: seq<Command>)
    ensures |Begin(commands).calls| == |commands|
  {
  }
}

/** Concurrent calls: any number of them, in any interleaving of their fast paths, transactions and read-backs.

    Two calls with the same business key may race. Whichever wins, the key takes effect once, and every call that
    succeeds names that one effect. */
module WalletConcurrency {
  import opened Options
  import opened WalletTypes
  import opened WalletTables
  import opened WalletSpec
  import opened WalletBooks
  import opened WalletAudit
  import opened WalletViews
  import opened WalletArchive
  import opened WalletRefinement
  import opened WalletRuns
  import opened WalletGuarantees
  import L = WalletLedger
  import OrderedQuery

  /** Where a call stands: not begun, past a fast path that found nothing, blocked by the unique index, or answered. */
  datatype Phase = Start | Missed | Conflicted | Answered(outcome: Outcome)

  datatype Call = Call(command: Command, phase: Phase)

  datatype World = World(tables: Tables, calls: seq<Call>)

  datatype Turn = Turn(call: nat, env: Env)

  /** One atomic step of one call. */
  function Advance(cfg: Config, w: World, turn: Turn): World
    requires cfg.Valid()
  {
    if turn.call >= |w.calls| then w
    else
      var c := w.calls[turn.call].command;
      match w.calls[turn.call].phase
      case Start =>
        var o := FastPath(w.tables, c);
        w.(calls := w.calls[turn.call := Call(c, if o.Some? then Answered(o.value) else Missed)])
      case Missed =>
        if Malformed(c).Some? then w
        else
          var (u, end) := TxStep(cfg, w.tables, c, turn.env);
          World(u, w.calls[turn.call :=
                             Call(c, if end.Conflict? && Keyed(c) then Conflicted else Answered(EndOutcome(u, c, end)))])
      case Conflicted =>
        if Keyed(c) then w.(calls := w.calls[turn.call := Call(c, Answered(Readback(w.tables, c)))]) else w
      case Answered(_) => w
  }

  function Begin(commands: seq<Command>): World {
    World(EMPTY, seq(|commands|, i requires 0 <= i < |commands| => Call(commands[i], Start)))
  }

  function Interleave(cfg: Config, w: World, turns: seq<Turn>): World
    requires cfg.Valid()
  {
    if turns == [] then w else Advance(cfg, Interleave(cfg, w, turns[..|turns| - 1]), turns[|turns| - 1])
  }

  // ---- the ledger that the interleaving follows ----

  /** The reference ledger moves exactly when a transaction that finds its key free commits. */
  function Shadow(w: World, l: L.Ledger, turn: Turn): L.Ledger {
    if turn.call >= |w.calls| then l
    else
      var call := w.calls[turn.call];
      if call.phase != Missed || Malformed(call.command).Some? then l
      else if Keyed(call.command) && PriorOf(w.tables, call.command).Some? then l
      else L.Step(l, call.command, turn.env).0
  }

  function ShadowRun(cfg: Config, w: World, l: L.Ledger, turns: seq<Turn>): L.Ledger
    requires cfg.Valid()
  {
    if turns == [] then l
    else
      var init := turns[..|turns| - 1];
      Shadow(Interleave(cfg, w, init), ShadowRun(cfg, w, l, init), turns[|turns| - 1])
  }

  // ---- the effect a call names ----

  /** The key under which a command may take effect once; a scan has none. */
  datatype Slot = TxSlot(ref: Ref, kind: Kind) | HoldSlot(ref: Ref) | SettleSlot(ref: Ref) | ReleaseSlot(ref: Ref) | NoSlot

  function SlotOf(c: Command): Slot {
    if c.ReleaseExpired? then NoSlot
    else if c.Settle? then SettleSlot(c.ref)
    else if c.Release? then ReleaseSlot(c.ref)
    else if c.Authorize? then HoldSlot(c.ref)
    else TxSlot(c.ref, KindOf(c))
  }

  /** What the ledger must hold for a successful answer `r` to `c`. */
  predicate Evidence(l: L.Ledger, c: Command, r: Receipt) {
    match SlotOf(c)
    case NoSlot => true
    case TxSlot(ref, kind) => (ref, kind) in l.archive && L.Repeat(l.archive[(ref, kind)], c) == Done(r, true)
    case HoldSlot(ref) =>
      var found := FindHold(l.holds, ref);
      found.Some? &&
      var h := l.holds[found.value];
      && h.account == UserKey(c.userId, c.currency) && h.fingerprint == FingerprintOf(c)
      && r.HoldReceipt? && r.(status := h.status) == HoldReceipt(found.value, h.amount, h.status, h.expiresAt)
    case SettleSlot(ref) =>
      var found := FindHold(l.holds, ref);
      found.Some? && (ref, SettleKind) in l.archive && l.archive[(ref, SettleKind)].Settlement? &&
      var h, e := l.holds[found.value], l.archive[(ref, SettleKind)];
      && h.status == Settled && h.settledAmount.Some? && e.fingerprint == FingerprintOf(c)
      && r == SettleReceipt(found.value, h.settledAmount.value, e.balanceAfter, h.amount - h.settledAmount.value)
    case ReleaseSlot(ref) =>
      var found := FindHold(l.holds, ref);
      found.Some? &&
      var h := l.holds[found.value];
      && (h.status == Released || h.status == Expired) && h.releaseReason.Some?
      && (h.status == Released ==> h.releaseFingerprint == Some(FingerprintOf(c)))
      && r == ReleaseReceipt(found.value, h.amount, h.releaseReason.value)
  }

  /** A hold keeps its identity, and once it has left the active state it never changes again. */
  predicate SameHold(a: Hold, b: Hold) {
    && a.ref == b.ref && a.account == b.account && a.amount == b.amount && a.expiresAt == b.expiresAt
    && a.fingerprint == b.fingerprint
    && (a.status != Active ==> a == b)
  }

  predicate Grows(l: L.Ledger, m: L.Ledger) {
    && (forall key :: key in l.archive ==> key in m.archive && m.archive[key] == l.archive[key])
    && |l.holds| <= |m.holds|
    && forall i :: 0 <= i < |l.holds| ==> SameHold(l.holds[i], m.holds[i])
  }

  predicate DistinctRefs(holds: seq<Hold>) {
    forall i, j :: 0 <= i < j < |holds| ==> holds[i].ref != holds[j].ref
  }

  lemma {:induction false} FoundAgain(l: L.Ledger, m: L.Ledger, ref: Ref)
    requires Grows(l, m) && DistinctRefs(m.holds) && FindHold(l.holds, ref).Some?
    ensures FindHold(m.holds, ref) == FindHold(l.holds, ref)
  {
    var i := FindHold(l.holds, ref).value;
    assert SameHold(l.holds[i], m.holds[i]);
    assert m.holds[i].ref == ref;
  }

  /** Evidence is never lost. */
  lemma {:induction false} EvidenceStays(l: L.Ledger, m: L.Ledger, c: Command, r: Receipt)
    requires Evidence(l, c, r) && Grows(l, m) && DistinctRefs(m.holds)
    ensures Evidence(m, c, r)
  {
    hide L.Repeat, FingerprintOf;
    if c.Settle? || c.Release? || c.Authorize? {
      FoundAgain(l, m, c.ref);
      var i := FindHold(l.holds, c.ref).value;
      assert SameHold(l.holds[i], m.holds[i]);
    }
  }

  // ---- what one reference step does to evidence ----

  lemma {:induction false} ExpireEachGrows(l: L.Ledger, ids: seq<nat>)
    requires Expirable(l.holds, ids)
    ensures Grows(l, L.ExpireEach(l, ids))
    ensures forall j :: 0 <= j < |l.holds| && j !in ids ==> L.ExpireEach(l, ids).holds[j] == l.holds[j]
  {
    if ids != [] {
      var init, i := ids[..|ids| - 1], ids[|ids| - 1];
      ExpireEachGrows(l, init);
      var m := L.ExpireEach(l, init);
      assert m.holds[i] == l.holds[i];
      assert ids == init + [i];
    }
  }

  lemma {:induction false} FirstGrows(l: L.Ledger, c: Command)
    requires Keyed(c) && !c.Authorize? && (c.ref, KindOf(c)) !in l.archive
    ensures Grows(l, L.First(l, c).0)
  {
    if c.SetCreditLimit? {
      GrantGrows(l, c);
    } else if c.Freeze? {
      StatusGrows(l, c);
    } else if c.Transfer? {
      HandGrows(l, c);
    } else {
      MoveGrows(l, c);
    }
    hide L.Grant, L.SetStatus, L.Hand, L.Move, Grows;
  }

  lemma {:induction false} GrantGrows(l: L.Ledger, c: Command)
    requires Keyed(c) && c.SetCreditLimit? && (c.ref, KindOf(c)) !in l.archive
    ensures Grows(l, L.Grant(l, c).0)
  {
    hide FingerprintOf, L.Spendable;
  }

  lemma {:induction false} StatusGrows(l: L.Ledger, c: Command)
    requires Keyed(c) && c.Freeze? && (c.ref, KindOf(c)) !in l.archive
    ensures Grows(l, L.SetStatus(l, c).0)
  {
    hide FingerprintOf, L.Spendable;
  }

  lemma {:induction false} HandGrows(l: L.Ledger, c: Command)
    requires Keyed(c) && c.Transfer? && (c.ref, KindOf(c)) !in l.archive
    ensures Grows(l, L.Hand(l, c).0)
  {
    hide FingerprintOf, L.Spendable;
  }

  lemma {:induction false} MoveGrows(l: L.Ledger, c: Command)
    requires Keyed(c) && (c.Credit? || c.Refund?) && (c.ref, KindOf(c)) !in l.archive
    ensures Grows(l, L.Move(l, c).0)
  {
    hide FingerprintOf, L.Spendable;
  }

  lemma {:induction false} ExpireDueGrows(l: L.Ledger, limit: nat, env: Env)
    ensures Grows(l, L.ExpireDue(l, limit, env).0)
  {
    var ids := OrderedQuery.FirstIds(DueItems(l.holds, env), limit);
    ScanChosenSound(EMPTY.(holds := l.holds), limit, env);
    hide DueItems, OrderedQuery.FirstIds;
    ExpireEachGrows(l, ids);
  }

  lemma {:induction false} SettleGrows(l: L.Ledger, c: Command, env: Env)
    requires SettlementsFiled(l) && c.Settle?
    ensures Grows(l, L.SettleHold(l, c, env).0)
  {
    hide FingerprintOf, L.Answer, FindHold, L.HolderOf;
    var found := FindHold(l.holds, c.ref);
    if found.Some? {
      assert SettledOnFile(l, found.value);
    }
  }

  lemma {:induction false} PlaceGrows(l: L.Ledger, c: Command)
    requires c.Authorize?
    ensures Grows(l, L.PlaceOrRepeat(l, c).0)
  {
    hide FingerprintOf, FindHold;
  }

  lemma {:induction false} StepGrows(l: L.Ledger, c: Command, env: Env)
    requires SettlementsFiled(l)
    ensures Grows(l, L.Step(l, c, env).0)
  {
    hide FingerprintOf, L.First, L.Repeat, L.SettleHold, L.ExpireDue, SettledOnFile, FindHold, L.HolderOf,
         L.PlaceOrRepeat;
    if c.Settle? {
      SettleGrows(l, c, env);
    } else if c.Authorize? {
      PlaceGrows(l, c);
    } else if c.ReleaseExpired? {
      if Malformed(c).None? {
        ExpireDueGrows(l, c.limit, env);
      }
    } else if Keyed(c) && !c.Authorize? && (c.ref, KindOf(c)) !in l.archive {
      FirstGrows(l, c);
    }
  }

  /** A successful first run leaves evidence of its own receipt. */
  lemma {:induction false} FirstLeavesEvidence(l: L.Ledger, c: Command)
    requires Keyed(c) && !c.Authorize? && (c.ref, KindOf(c)) !in l.archive
    ensures var (m, o) := L.First(l, c);
            o.Done? ==> Evidence(m, c, o.receipt)
  {
    hide FingerprintOf, L.Spendable;
  }

  predicate TerminalHolds(holds: seq<Hold>) {
    forall i :: 0 <= i < |holds| ==>
      (holds[i].status == Released || holds[i].status == Expired ==> holds[i].releaseReason.Some?)
      && (holds[i].status == Released ==> holds[i].releaseFingerprint.Some?)
  }

  lemma {:induction false} StepLeavesEvidence(l: L.Ledger, c: Command, env: Env)
    requires SettlementsFiled(l) && TerminalHolds(l.holds)
    ensures var (m, o) := L.Step(l, c, env);
            o.Done? ==> Evidence(m, c, o.receipt)
  {
    hide FingerprintOf, Malformed, L.First, L.Repeat;
    if c.Settle? {
      SettleLeavesEvidence(l, c, env);
    } else if c.Release? {
      ReleaseLeavesEvidence(l, c);
    } else if c.Authorize? {
      PlaceLeavesEvidence(l, c);
    } else if !c.ReleaseExpired? {
      if (c.ref, KindOf(c)) in l.archive {
        RepeatIsReplayed(l.archive[(c.ref, KindOf(c))], c);
      } else {
        FirstLeavesEvidence(l, c);
      }
    }
  }

  lemma {:induction false} RepeatIsReplayed(e: L.Entry, c: Command)
    requires Keyed(c) && !c.Authorize?
    ensures L.Repeat(e, c).Done? ==> L.Repeat(e, c).replayed
  {
    hide FingerprintOf;
  }

  lemma {:induction false} SettleLeavesEvidence(l: L.Ledger, c: Command, env: Env)
    requires SettlementsFiled(l) && c.Settle?
    ensures var (m, o) := L.SettleHold(l, c, env);
            o.Done? ==> Evidence(m, c, o.receipt)
  {
    hide FingerprintOf, FindHold, L.HolderOf, L.Repeat;
    var found := FindHold(l.holds, c.ref);
    if found.Some? {
      var h := l.holds[found.value];
      assert SettledOnFile(l, found.value);
      FindHoldUpdate(l.holds, found.value, h.(status := Settled, settledAmount := Some(c.amount)), c.ref);
    }
  }

  lemma {:induction false} ReleaseLeavesEvidence(l: L.Ledger, c: Command)
    requires TerminalHolds(l.holds) && c.Release?
    ensures var (m, o) := L.ReleaseOne(l, c);
            o.Done? ==> Evidence(m, c, o.receipt)
  {
    hide FingerprintOf;
    var found := FindHold(l.holds, c.ref);
    if found.Some? {
      var h := l.holds[found.value];
      FindHoldUpdate(l.holds, found.value,
                     h.(status := Released, releaseReason := Some(c.reason), releaseFingerprint := Some(FingerprintOf(c))), c.ref);
    }
  }

  lemma {:induction false} PlaceLeavesEvidence(l: L.Ledger, c: Command)
    requires c.Authorize?
    ensures var (m, o) := L.PlaceOrRepeat(l, c);
            o.Done? ==> Evidence(m, c, o.receipt)
  {
    hide FingerprintOf;
    if FindHold(l.holds, c.ref).None? {
      FindHoldAppend(l.holds, Hold(UserKey(c.userId, c.currency), c.ref, c.amount, Active, None, None, c.expiresAt,
                                   FingerprintOf(c), None), c.ref);
    }
  }

  /** Once a key has taken effect, the same key never takes effect again. */
  lemma {:induction false} NoSecondEffect(l: L.Ledger, c: Command, env: Env, d: Command, r: Receipt)
    requires Evidence(l, d, r) && SlotOf(c) == SlotOf(d) != NoSlot
    ensures var o := L.Step(l, c, env).1;
            o.Done? ==> o.replayed
  {
    hide FingerprintOf, Malformed;
    if Keyed(c) && !c.Authorize? {
      RepeatIsReplayed(l.archive[(c.ref, KindOf(c))], c);
    }
  }

  predicate SameEffect(a: Receipt, b: Receipt) {
    if a.HoldReceipt? && b.HoldReceipt? then a.(status := Active) == b.(status := Active) else a == b
  }

  /** Two answers backed by the same ledger under the same key name the same effect. */
  lemma {:induction false} EvidenceAgrees(l: L.Ledger, c: Command, r: Receipt, d: Command, q: Receipt)
    requires Evidence(l, c, r) && Evidence(l, d, q) && SlotOf(c) == SlotOf(d) != NoSlot
    ensures SameEffect(r, q)
    ensures FingerprintOf(c) == FingerprintOf(d) ||
            (c.Release? && FindHold(l.holds, c.ref).Some? && l.holds[FindHold(l.holds, c.ref).value].status == Expired)
  {
    hide FingerprintOf, FindHold;
    if SlotOf(c).TxSlot? {
      FiledAgrees(l, c, r, d, q);
    }
    hide L.Repeat;
  }

  lemma {:induction false} FiledAgrees(l: L.Ledger, c: Command, r: Receipt, d: Command, q: Receipt)
    requires Evidence(l, c, r) && Evidence(l, d, q) && SlotOf(c) == SlotOf(d) && SlotOf(c).TxSlot?
    ensures SameEffect(r, q) && FingerprintOf(c) == FingerprintOf(d)
  {
    hide FingerprintOf, FindHold, L.HolderOf;
  }

  // ---- the invariant of every interleaving ----

  predicate CallOk(call: Call, l: L.Ledger) {
    match call.phase
    case Start => true
    case Missed => Malformed(call.command).None?
    case Conflicted => Keyed(call.command) && Malformed(call.command).None?
    case Answered(o) => o.Done? ==> Malformed(call.command).None? && Evidence(l, call.command, o.receipt)
  }

  /** The call changed the tables. */
  predicate Effective(call: Call) {
    call.phase.Answered? && call.phase.outcome.Done? && !call.phase.outcome.replayed
  }

  predicate OneEffectPerSlot(calls: seq<Call>) {
    forall i, j :: 0 <= i < j < |calls| && SlotOf(calls[i].command) == SlotOf(calls[j].command) != NoSlot ==>
      !(Effective(calls[i]) && Effective(calls[j]))
  }

  predicate CallsOk(calls: seq<Call>, l: L.Ledger) {
    (forall i :: 0 <= i < |calls| ==> CallOk(calls[i], l)) && OneEffectPerSlot(calls)
  }

  ghost predicate Sound(cfg: Config, w: World, l: L.Ledger) {
    Inv(w.tables) && Refines(cfg, w.tables, l) && CallsOk(w.calls, l)
  }

  lemma {:induction false} ReadbackLeavesEvidence(cfg: Config, t: Tables, l: L.Ledger, c: Command)
    requires Refines(cfg, t, l) && Keyed(c) && Malformed(c).None?
    ensures var o := Readback(t, c);
            o.Done? ==> o.replayed && Evidence(l, c, o.receipt)
  {
    hide FingerprintOf, Malformed, Views, SettlementsFiled;
    if !c.Authorize? {
      assert Filed(t, l, c.ref, KindOf(c));
      if PriorOf(t, c).Some? {
        ReadbackIsRepeat(t, l, c);
        RepeatIsReplayed(l.archive[(c.ref, KindOf(c))], c);
      }
    }
  }

  /** A keyed transaction whose key is taken never commits. */
  lemma {:induction false} TakenKeyBlocks(cfg: Config, t: Tables, c: Command, env: Env)
    requires cfg.Valid() && Keyed(c) && Malformed(c).None? && PriorOf(t, c).Some?
    ensures !TxStep(cfg, t, c, env).1.Committed?
  {
    hide FingerprintOf, Malformed, Postable, AnyFrozen, OpenSide, SideKeys, SideTotal, TransferShortfall, Post;
    if c.Credit? || c.Refund? {
    } else if c.Transfer? {
    } else if c.Freeze? {
    } else if c.Authorize? {
    }
  }

  /** Replacing the phase of one call keeps the invariant when the new phase is sound and adds no second effect. */
  lemma {:induction false} PhaseChange(calls: seq<Call>, l: L.Ledger, m: L.Ledger, i: nat, call: Call)
    requires CallsOk(calls, l) && i < |calls| && call.command == calls[i].command
    requires Grows(l, m) && DistinctRefs(m.holds) && CallOk(call, m)
    requires !Effective(calls[i])
    requires Effective(call) ==> forall j :: 0 <= j < |calls| && j != i && Effective(calls[j]) ==>
               SlotOf(calls[j].command) != SlotOf(call.command) || SlotOf(call.command) == NoSlot
    ensures CallsOk(calls[i := call], m)
  {
    hide Evidence, SlotOf, Grows, DistinctRefs;
    forall j | 0 <= j < |calls| && j != i ensures CallOk(calls[j], m) {
      assert CallOk(calls[j], l);
      if calls[j].phase.Answered? && calls[j].phase.outcome.Done? {
        EvidenceStays(l, m, calls[j].command, calls[j].phase.outcome.receipt);
      }
    }
  }

  lemma {:induction false} GrowsAlways(l: L.Ledger)
    ensures Grows(l, l)
  {
  }

  /** Reads: a fast path or a read-back. */
  lemma {:induction false} ReadKeepsSound(cfg: Config, w: World, l: L.Ledger, turn: Turn)
    requires cfg.Valid() && Sound(cfg, w, l) && turn.call < |w.calls| && !w.calls[turn.call].phase.Missed?
    ensures Sound(cfg, Advance(cfg, w, turn), l)
  {
    var call := w.calls[turn.call];
    GrowsAlways(l);
    assert DistinctRefs(l.holds);
    assert CallOk(call, l);
    hide Inv, Refines, Evidence, Readback, Grows, DistinctRefs, Malformed, SlotOf;
    var v := Advance(cfg, w, turn);
    match call.phase
    case Start =>
      if Malformed(call.command).None? && Keyed(call.command) {
        ReadbackLeavesEvidence(cfg, w.tables, l, call.command);
      }
      PhaseChange(w.calls, l, l, turn.call, v.calls[turn.call]);
    case Conflicted =>
      ReadbackLeavesEvidence(cfg, w.tables, l, call.command);
      PhaseChange(w.calls, l, l, turn.call, v.calls[turn.call]);
    case Answered(_) =>
  }

  /** A transaction that finds its key taken. */
  lemma {:induction false} BlockedKeepsSound(cfg: Config, w: World, l: L.Ledger, turn: Turn)
    requires cfg.Valid() && Sound(cfg, w, l) && turn.call < |w.calls| && w.calls[turn.call].phase.Missed?
    requires Keyed(w.calls[turn.call].command) && PriorOf(w.tables, w.calls[turn.call].command).Some?
    ensures Sound(cfg, Advance(cfg, w, turn), l)
  {
    hide Evidence, Readback, Malformed, SlotOf, TxStep, PriorOf;
    var call := w.calls[turn.call];
    GrowsAlways(l);
    assert DistinctRefs(l.holds);
    assert CallOk(call, l);
    hide Inv, Refines, Grows, DistinctRefs;
    TakenKeyBlocks(cfg, w.tables, call.command, turn.env);
    FailedTxChangesNothing(cfg, w.tables, call.command, turn.env);
    PhaseChange(w.calls, l, l, turn.call, Advance(cfg, w, turn).calls[turn.call]);
  }

  lemma {:induction false} HoldTablesOk(t: Tables)
    requires HoldsWf(t)
    ensures DistinctRefs(t.holds) && TerminalHolds(t.holds)
  {
    forall i | 0 <= i < |t.holds| ensures HoldWf(t, t.holds[i]) {
    }
  }

  /** A transaction that runs with its key free is one step of the reference ledger. */
  lemma {:induction false} FreeTxRefines(cfg: Config, t: Tables, l: L.Ledger, c: Command, env: Env)
    requires cfg.Valid() && Inv(t) && Refines(cfg, t, l) && Malformed(c).None? && !(Keyed(c) && PriorOf(t, c).Some?)
    ensures var (u, end) := TxStep(cfg, t, c, env);
            var (m, o) := L.Step(l, c, env);
            && EndOutcome(u, c, end) == o && Inv(u) && Refines(cfg, u, m)
            && Grows(l, m) && DistinctRefs(m.holds)
            && (o.Done? ==> Evidence(m, c, o.receipt))
  {
    assert TerminalHolds(l.holds) && SettlementsFiled(l) by {
      HoldTablesOk(t);
    }
    TxStepKeepsInv(cfg, t, c, env);
    StepRefines(cfg, t, l, c, env);
    HoldTablesOk(TxStep(cfg, t, c, env).0);
    hide TxStep, EndOutcome, Evidence, L.Step, HoldsWf, LegsWf, PriorOf, Malformed;
    StepGrows(l, c, env);
    StepLeavesEvidence(l, c, env);
  }

  lemma {:induction false} FreeKeepsSound(cfg: Config, w: World, l: L.Ledger, turn: Turn)
    requires cfg.Valid() && Sound(cfg, w, l) && turn.call < |w.calls| && w.calls[turn.call].phase.Missed?
    requires var c := w.calls[turn.call].command; !(Keyed(c) && PriorOf(w.tables, c).Some?)
    ensures var c := w.calls[turn.call].command;
            Sound(cfg, Advance(cfg, w, turn), L.Step(l, c, turn.env).0)
  {
    hide Inv, Refines, Evidence, Grows, DistinctRefs, Malformed, SlotOf, TxStep, PriorOf, L.Step, EndOutcome, Readback;
    var i, call := turn.call, w.calls[turn.call];
    var c := call.command;
    assert CallOk(call, l);
    FreeTxRefines(cfg, w.tables, l, c, turn.env);
    var (m, o) := L.Step(l, c, turn.env);
    forall j | 0 <= j < |w.calls| && j != i && Effective(w.calls[j]) && SlotOf(w.calls[j].command) == SlotOf(c) != NoSlot
      ensures o.Done? ==> o.replayed
    {
      assert CallOk(w.calls[j], l);
      NoSecondEffect(l, c, turn.env, w.calls[j].command, w.calls[j].phase.outcome.receipt);
    }
    PhaseChange(w.calls, l, m, i, Advance(cfg, w, turn).calls[i]);
  }

  lemma {:induction false} AdvanceKeepsSound(cfg: Config, w: World, l: L.Ledger, turn: Turn)
    requires cfg.Valid() && Sound(cfg, w, l)
    ensures Sound(cfg, Advance(cfg, w, turn), Shadow(w, l, turn))
  {
    if turn.call < |w.calls| {
      var call := w.calls[turn.call];
      assert CallOk(call, l);
      hide Inv, Refines, CallsOk, TxStep, L.Step, Readback, EndOutcome, FastPath, PriorOf;
      if !call.phase.Missed? {
        ReadKeepsSound(cfg, w, l, turn);
      } else if Keyed(call.command) && PriorOf(w.tables, call.command).Some? {
        BlockedKeepsSound(cfg, w, l, turn);
      } else {
        FreeKeepsSound(cfg, w, l, turn);
      }
    }
  }

  lemma {:induction false} InterleaveSound(cfg: Config, commands: seq<Command>, turns: seq<Turn>)
    requires cfg.Valid()
    ensures Sound(cfg, Interleave(cfg, Begin(commands), turns), ShadowRun(cfg, Begin(commands), L.EMPTY_LEDGER, turns))
  {
    if turns == [] {
      EmptyIsInv();
      EmptyRefines(cfg);
      hide Inv, Refines;
    } else {
      hide Sound, Advance, Shadow, Begin;
      InterleaveSound(cfg, commands, turns[..|turns| - 1]);
      AdvanceKeepsSound(cfg, Interleave(cfg, Begin(commands), turns[..|turns| - 1]),
                        ShadowRun(cfg, Begin(commands), L.EMPTY_LEDGER, turns[..|turns| - 1]), turns[|turns| - 1]);
    }
  }

  lemma {:induction false} SameCommands(cfg: Config, w: World, turns: seq<Turn>, i: nat)
    requires cfg.Valid() && i < |w.calls|
    ensures |Interleave(cfg, w, turns).calls| == |w.calls| && Interleave(cfg, w, turns).calls[i].command == w.calls[i].command
  {
    if turns != [] {
      SameCommands(cfg, w, turns[..|turns| - 1], i);
      hide TxStep, Readback, EndOutcome, FastPath;
    }
  }

  /** Under any interleaving a business key takes effect at most once, and every call that succeeds under it names
      the same transaction or hold and the same amounts. Succeeding under different fingerprints is impossible,
      except for releases of a hold that has already expired. */
  lemma {:induction false} AtMostOnce(cfg: Config, commands: seq<Command>, turns: seq<Turn>, i: nat, j: nat)
    requires cfg.Valid() && i < j < |commands| && SlotOf(commands[i]) == SlotOf(commands[j]) != NoSlot
    ensures var w := Interleave(cfg, Begin(commands), turns);
            && |w.calls| == |commands|
            && !(Effective(w.calls[i]) && Effective(w.calls[j]))
            && (w.calls[i].phase.Answered? && w.calls[j].phase.Answered? ==>
                  var a, b := w.calls[i].phase.outcome, w.calls[j].phase.outcome;
                  a.Done? && b.Done? ==>
                    && SameEffect(a.receipt, b.receipt)
                    && (FingerprintOf(commands[i]) == FingerprintOf(commands[j]) ||
                        (commands[i].Release? && FindHold(w.tables.holds, commands[i].ref).Some? &&
                         w.tables.holds[FindHold(w.tables.holds, commands[i].ref).value].status == Expired)))
  {
    hide Interleave, ShadowRun, Inv, Evidence, SlotOf;
    var w := Interleave(cfg, Begin(commands), turns);
    var l := ShadowRun(cfg, Begin(commands), L.EMPTY_LEDGER, turns);
    InterleaveSound(cfg, commands, turns);
    SameCommands(cfg, Begin(commands), turns, i);
    SameCommands(cfg, Begin(commands), turns, j);
    assert w.tables.holds == l.holds;
    assert CallOk(w.calls[i], l) && CallOk(w.calls[j], l);
    hide Refines;
    if w.calls[i].phase.Answered? && w.calls[j].phase.Answered? {
      var a, b := w.calls[i].phase.outcome, w.calls[j].phase.outcome;
      if a.Done? && b.Done? {
        EvidenceAgrees(l, commands[i], a.receipt, commands[j], b.receipt);
      }
    }
  }

  /** The tables change only in a step that answers its call with a first, unreplayed success. */
  lemma {:induction false} OnlyEffectsChangeTables(cfg: Config, w: World, turn: Turn)
    requires cfg.Valid() && Advance(cfg, w, turn).tables != w.tables
    ensures turn.call < |w.calls| && Effective(Advance(cfg, w, turn).calls[turn.call])
  {
    var c := w.calls[turn.call].command;
    hide TxStep, Readback, FastPath, Malformed;
    FailedTxChangesNothing(cfg, w.tables, c, turn.env);
  }

  // ---- retries ----

  lemma {:induction false} EvidenceReplays(l: L.Ledger, c: Command, env: Env, r: Receipt)
    requires Evidence(l, c, r) && SlotOf(c) != NoSlot && Malformed(c).None?
    ensures var o := L.Step(l, c, env).1;
            o.Done? && o.replayed && SameEffect(r, o.receipt)
  {
    hide FingerprintOf;
  }
}

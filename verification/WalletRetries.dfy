/** Retries among concurrent calls: a call that begins after another call with the same command has succeeded. */
module WalletRetries {
  import opened WalletTypes
  import opened WalletSpec
  import opened WalletAudit
  import opened WalletArchive
  import opened WalletRefinement
  import opened WalletRuns
  import opened WalletGuarantees
  import opened WalletConcurrency
  import L = WalletLedger

  /** Call `i` has succeeded; call `j` repeats its command and has not left the way to the same effect. Only commands
      without an early read get past it. */
  predicate Retrying(w: World, i: nat, j: nat) {
    && i < |w.calls| && j < |w.calls| && i != j && w.calls[j].command == w.calls[i].command
    && w.calls[i].phase.Answered? && w.calls[i].phase.outcome.Done?
    && match w.calls[j].phase
       case Start => true
       case Missed => !Keyed(w.calls[j].command)
       case Conflicted => false
       case Answered(o) => o.Done? && o.replayed && SameEffect(w.calls[i].phase.outcome.receipt, o.receipt)
  }

  /** Evidence of an effect under a key is a row that the early read finds. */
  lemma {:induction false} EvidenceIsPrior(cfg: Config, t: Tables, l: L.Ledger, c: Command, r: Receipt)
    requires Refines(cfg, t, l) && Evidence(l, c, r) && Keyed(c)
    ensures PriorOf(t, c).Some?
  {
    hide L.Repeat, FingerprintOf;
    if !c.Authorize? {
      assert Filed(t, l, c.ref, KindOf(c));
    }
  }

  /** A command with evidence of its effect is replayed by whichever step answers it. */
  lemma {:induction false} EvidenceAnswers(cfg: Config, t: Tables, l: L.Ledger, c: Command, env: Env, r: Receipt)
    requires cfg.Valid() && Inv(t) && Refines(cfg, t, l)
    requires Evidence(l, c, r) && SlotOf(c) != NoSlot && Malformed(c).None?
    ensures FastPath(t, c).Some? <==> Keyed(c)
    ensures var (u, o) := Step(cfg, t, c, env);
            u == t && o.Done? && o.replayed && SameEffect(r, o.receipt)
  {
    hide Step, L.Step, Evidence, Inv, Refines, SlotOf, Malformed, PriorOf, Readback;
    if Keyed(c) {
      EvidenceIsPrior(cfg, t, l, c, r);
    }
    EvidenceReplays(l, c, env, r);
    StepRefines(cfg, t, l, c, env);
    RejectedChangesNothing(cfg, t, c, env);
  }

  /** Whoever moves, the retry stays on its way, and its own steps change no table. */
  lemma {:induction false} RetryTurn(cfg: Config, w: World, l: L.Ledger, i: nat, j: nat, turn: Turn)
    requires cfg.Valid() && Sound(cfg, w, l) && Retrying(w, i, j) && SlotOf(w.calls[i].command) != NoSlot
    ensures Retrying(Advance(cfg, w, turn), i, j)
    ensures Advance(cfg, w, turn).calls[i] == w.calls[i]
    ensures turn.call != j ==> Advance(cfg, w, turn).calls[j] == w.calls[j]
    ensures turn.call == j ==> Advance(cfg, w, turn).tables == w.tables
    ensures turn.call == j ==> w.calls[j].phase.Start? || Advance(cfg, w, turn).calls[j].phase.Answered?
  {
    hide Evidence, Inv, Refines, SlotOf, Malformed, TxStep, Readback, FastPath;
    assert CallOk(w.calls[i], l);
    var c := w.calls[i].command;
    hide CallsOk;
    EvidenceAnswers(cfg, w.tables, l, c, turn.env, w.calls[i].phase.outcome.receipt);
  }

  /** How many of the turns belong to call `j`. */
  function TurnsOf(turns: seq<Turn>, j: nat): nat {
    if turns == [] then 0 else TurnsOf(turns[..|turns| - 1], j) + if turns[|turns| - 1].call == j then 1 else 0
  }

  lemma {:induction false} RetryThroughTurns(cfg: Config, w: World, l: L.Ledger, more: seq<Turn>, i: nat, j: nat)
    requires cfg.Valid() && Sound(cfg, w, l) && Retrying(w, i, j) && SlotOf(w.calls[i].command) != NoSlot
    requires w.calls[j].phase.Start?
    ensures var v := Interleave(cfg, w, more);
            && Sound(cfg, v, ShadowRun(cfg, w, l, more)) && Retrying(v, i, j) && v.calls[i] == w.calls[i]
            && (TurnsOf(more, j) >= 1 ==> !v.calls[j].phase.Start?)
            && (TurnsOf(more, j) >= 2 ==> v.calls[j].phase.Answered?)
  {
    if more != [] {
      var init, last := more[..|more| - 1], more[|more| - 1];
      RetryThroughTurns(cfg, w, l, init, i, j);
      var v, m := Interleave(cfg, w, init), ShadowRun(cfg, w, l, init);
      hide Sound, Advance, Shadow, SlotOf;
      AdvanceKeepsSound(cfg, v, m, last);
      RetryTurn(cfg, v, m, i, j, last);
      LeavesStart(cfg, v, last, j);
    }
  }

  lemma {:induction false} LeavesStart(cfg: Config, w: World, turn: Turn, j: nat)
    requires cfg.Valid() && j < |w.calls| && j < |Advance(cfg, w, turn).calls|
    ensures turn.call == j || !w.calls[j].phase.Start? ==> !Advance(cfg, w, turn).calls[j].phase.Start?
  {
    hide TxStep, FastPath, Readback, EndOutcome, Malformed;
  }

  /** A call that begins after another call with the same command has succeeded, at any moment of any interleaving, is
      answered within two of its own turns with the effect of that call, replayed, and itself has none, whatever other
      calls do in between. */
  lemma {:induction false} RetriesReplay(cfg: Config, commands: seq<Command>, turns: seq<Turn>, more: seq<Turn>, i: nat, j: nat)
    requires cfg.Valid() && i < |commands| && j < |commands| && i != j && commands[i] == commands[j]
    requires SlotOf(commands[i]) != NoSlot
    requires var w := Interleave(cfg, Begin(commands), turns);
             |w.calls| == |commands| && w.calls[j].phase.Start? && w.calls[i].phase.Answered? && w.calls[i].phase.outcome.Done?
    ensures var w := Interleave(cfg, Begin(commands), turns);
            var v := Interleave(cfg, w, more);
            && |v.calls| == |commands| && !Effective(v.calls[j])
            && (v.calls[j].phase.Answered? ==>
                  var o := v.calls[j].phase.outcome;
                  o.Done? && o.replayed && SameEffect(w.calls[i].phase.outcome.receipt, o.receipt))
            && (TurnsOf(more, j) >= 2 ==> v.calls[j].phase.Answered?)
  {
    hide Interleave, ShadowRun, Sound, SlotOf;
    var w := Interleave(cfg, Begin(commands), turns);
    InterleaveSound(cfg, commands, turns);
    SameCommands(cfg, Begin(commands), turns, i);
    SameCommands(cfg, Begin(commands), turns, j);
    SameCommands(cfg, w, more, i);
    RetryThroughTurns(cfg, w, ShadowRun(cfg, Begin(commands), L.EMPTY_LEDGER, turns), more, i, j);
  }
}

/** The idempotent operation kernel: many runs of one operation id, decided by a blocking unique index.

    A run inserts its row, executes, and stores the receipt, all inside one transaction, its own or its caller's.
    A run that finds the key held by an open transaction waits; one that finds it committed reads the receipt back. */
module Operations {
  import opened Options

  type Id = string

  /** What `execute` returned, reduced to its identity; `NoReceipt` is the stored null. */
  datatype Receipt = NoReceipt | Receipt(content: nat)

  /** `stored` tells a receipt of null from a row whose receipt was never written. */
  datatype Row = Row(kind: string, fingerprint: string, receipt: Receipt, stored: bool)

  datatype Pending = Pending(tx: nat, row: Row)

  /** `Conflicted`: the insert found the key taken. `Failed`: execute or the receipt check threw. */
  datatype Phase =
    | Ready | Executing | Conflicted
    | Returned(receipt: Receipt, replayed: bool)
    | Mismatched | Failed | Broken

  datatype Run = Run(op: Id, kind: string, fingerprint: string, tx: nat, phase: Phase)

  datatype World = World(committed: map<Id, Row>, pending: map<Id, Pending>, runs: seq<Run>, done: set<nat>, undone: set<nat>)

  datatype Action =
    | Insert(run: nat)
    | ReadBack(run: nat)
    | Execute(run: nat, receipt: Receipt)
    | Fail(run: nat)
    | Commit(tx: nat)
    | Abort(tx: nat)

  predicate Open(w: World, tx: nat) {
    tx !in w.done && tx !in w.undone
  }

  function SetPhase(w: World, i: nat, phase: Phase): World
    requires i < |w.runs|
  {
    w.(runs := w.runs[i := w.runs[i].(phase := phase)])
  }

  /** The row a transaction sees under a key: its own uncommitted one, or the committed one. */
  function Visible(w: World, op: Id, tx: nat): Option<Row> {
    if op in w.pending && w.pending[op].tx == tx then Some(w.pending[op].row)
    else if op in w.committed then Some(w.committed[op])
    else None
  }

  /** The read-back compares kind and fingerprint before it gives the receipt away. */
  function Answer(row: Row, run: Run): Phase {
    if row.kind != run.kind || row.fingerprint != run.fingerprint then Mismatched else Returned(row.receipt, true)
  }

  function StepRun(w: World, a: Action): World
    requires a.Insert? || a.ReadBack? || a.Execute? || a.Fail?
    requires a.run < |w.runs| && Open(w, w.runs[a.run].tx)
  {
    var i, r := a.run, w.runs[a.run];
    match a
    case Insert(_) =>
      if r.phase != Ready then w
      else if Visible(w, r.op, r.tx).Some? then SetPhase(w, i, Conflicted)
      else if r.op in w.pending then w
      else SetPhase(w, i, Executing).(pending := w.pending[r.op := Pending(r.tx, Row(r.kind, r.fingerprint, NoReceipt, false))])
    case ReadBack(_) =>
      if r.phase != Conflicted then w
      else
        var row := Visible(w, r.op, r.tx);
        SetPhase(w, i, if row.None? then Broken else Answer(row.value, r))
    case Execute(_, receipt) =>
      if r.phase != Executing || r.op !in w.pending then w
      else
        var p := w.pending[r.op];
        SetPhase(w, i, Returned(receipt, false)).(pending := w.pending[r.op := p.(row := p.row.(receipt := receipt, stored := true))])
    case Fail(_) => if r.phase != Executing then w else SetPhase(w, i, Failed)
  }

  /** A transaction may end once none of its runs is in the middle of a call. */
  predicate Settled(w: World, tx: nat) {
    forall i :: 0 <= i < |w.runs| && w.runs[i].tx == tx ==> !w.runs[i].phase.Executing? && !w.runs[i].phase.Conflicted?
  }

  function Without(pending: map<Id, Pending>, tx: nat): map<Id, Pending> {
    map op | op in pending && pending[op].tx != tx :: pending[op]
  }

  function Step(w: World, a: Action): World {
    match a
    case Commit(tx) =>
      if !Open(w, tx) || !Settled(w, tx) then w
      else
        w.(committed := w.committed + (map op | op in w.pending && w.pending[op].tx == tx :: w.pending[op].row),
           pending := Without(w.pending, tx), done := w.done + {tx})
    case Abort(tx) => if !Open(w, tx) then w else w.(pending := Without(w.pending, tx), undone := w.undone + {tx})
    case Insert(i) => if i < |w.runs| && Open(w, w.runs[i].tx) then StepRun(w, a) else w
    case ReadBack(i) => if i < |w.runs| && Open(w, w.runs[i].tx) then StepRun(w, a) else w
    case Execute(i, _) => if i < |w.runs| && Open(w, w.runs[i].tx) then StepRun(w, a) else w
    case Fail(i) => if i < |w.runs| && Open(w, w.runs[i].tx) then StepRun(w, a) else w
  }

  /** The read-back of `run` would give away a row of its own transaction whose receipt is not written yet. */
  predicate ReadsOwnUnstored(w: World, run: Run) {
    run.phase.Conflicted? && run.op in w.pending && w.pending[run.op].tx == run.tx && !w.pending[run.op].row.stored &&
    w.pending[run.op].row.kind == run.kind && w.pending[run.op].row.fingerprint == run.fingerprint
  }

  /** The caller's two duties when it lends its transaction: roll back when the call throws, and do not run an operation
      again from inside its own execution. */
  predicate Proper(w: World, a: Action) {
    && (a.Commit? && Open(w, a.tx) && Settled(w, a.tx) ==>
          forall i :: 0 <= i < |w.runs| && w.runs[i].tx == a.tx ==> !w.runs[i].phase.Failed?)
    && (a.ReadBack? && a.run < |w.runs| && Open(w, w.runs[a.run].tx) ==> !ReadsOwnUnstored(w, w.runs[a.run]))
  }

  function Begin(runs: seq<Run>): World {
    World(map[], map[], seq(|runs|, i requires 0 <= i < |runs| => runs[i].(phase := Ready)), {}, {})
  }

  function Play(w: World, actions: seq<Action>): World {
    if actions == [] then w else Step(Play(w, actions[..|actions| - 1]), actions[|actions| - 1])
  }

  predicate AllProper(w: World, actions: seq<Action>) {
    actions == [] || (AllProper(w, actions[..|actions| - 1]) && Proper(Play(w, actions[..|actions| - 1]), actions[|actions| - 1]))
  }

  // ---- who owns a row: whatever callers do ----

  /** The run that inserted the row: it executes, has executed, or has failed, and its transaction was not rolled back. */
  predicate Owns(w: World, r: Run) {
    r.tx !in w.undone && (r.phase.Executing? || r.phase.Failed? || (r.phase.Returned? && !r.phase.replayed))
  }

  predicate Held(w: World, op: Id) {
    op in w.pending || op in w.committed
  }

  predicate SameCommand(row: Row, r: Run) {
    row.kind == r.kind && row.fingerprint == r.fingerprint
  }

  /** An executing or failed run still holds its row, without a receipt; an owner's row is its own; and who returned has
      seen a row of its kind and fingerprint. */
  predicate RunOk(w: World, r: Run) {
    && (r.phase.Conflicted? && Open(w, r.tx) ==> Visible(w, r.op, r.tx).Some?)
    && (r.phase.Executing? && r.tx !in w.undone ==> Open(w, r.tx))
    && ((r.phase.Executing? || r.phase.Failed?) && Open(w, r.tx) ==> r.op in w.pending && !w.pending[r.op].row.stored)
    && (Owns(w, r) && Open(w, r.tx) ==>
          r.op in w.pending && w.pending[r.op].tx == r.tx && SameCommand(w.pending[r.op].row, r))
    && (Owns(w, r) && r.tx in w.done ==> r.op in w.committed)
    && (r.phase.Returned? && Open(w, r.tx) ==>
          Visible(w, r.op, r.tx).Some? && SameCommand(Visible(w, r.op, r.tx).value, r))
    && (r.phase.Returned? && r.tx in w.done ==> r.op in w.committed && SameCommand(w.committed[r.op], r))
  }

  predicate RunsOk(w: World) {
    forall i :: 0 <= i < |w.runs| ==> RunOk(w, w.runs[i])
  }

  /** An operation has one owner at most, and only while its key is held. */
  predicate OwnersOk(w: World) {
    && (forall i, j :: 0 <= i < j < |w.runs| && w.runs[i].op == w.runs[j].op ==> !(Owns(w, w.runs[i]) && Owns(w, w.runs[j])))
    && (forall i :: 0 <= i < |w.runs| && Owns(w, w.runs[i]) ==> Held(w, w.runs[i].op))
  }

  /** A row without its receipt belongs to a run that is executing or has failed. */
  predicate PendingOk(w: World) {
    forall op :: op in w.pending ==>
      op !in w.committed && Open(w, w.pending[op].tx) &&
      (w.pending[op].row.stored || Backed(w.runs, op, w.pending[op].tx))
  }

  predicate Backed(runs: seq<Run>, op: Id, tx: nat) {
    exists i :: 0 <= i < |runs| && runs[i].op == op && runs[i].tx == tx && (runs[i].phase.Executing? || runs[i].phase.Failed?)
  }

  predicate Inv(w: World) {
    w.done !! w.undone && RunsOk(w) && OwnersOk(w) && PendingOk(w)
  }

  lemma {:induction false} InsertKeepsRun(w: World, i: nat, j: nat)
    requires Inv(w) && i < |w.runs| && Open(w, w.runs[i].tx) && j < |w.runs|
    ensures RunOk(StepRun(w, Insert(i)), StepRun(w, Insert(i)).runs[j])
  {
    assert RunOk(w, w.runs[i]) && RunOk(w, w.runs[j]);
    hide OwnersOk, PendingOk, RunsOk;
  }

  lemma {:induction false} InsertKeepsPending(w: World, i: nat)
    requires PendingOk(w) && i < |w.runs| && Open(w, w.runs[i].tx)
    ensures PendingOk(StepRun(w, Insert(i)))
  {
    var u := StepRun(w, Insert(i));
    forall op | op in u.pending && !u.pending[op].row.stored
      ensures Backed(u.runs, op, u.pending[op].tx)
    {
      if op in w.pending && u.pending[op] == w.pending[op] {
        var j :| 0 <= j < |w.runs| && w.runs[j].op == op && w.runs[j].tx == w.pending[op].tx &&
                 (w.runs[j].phase.Executing? || w.runs[j].phase.Failed?);
        assert u.runs[j] == w.runs[j];
      } else {
        assert u.runs[i].op == op;
      }
    }
  }

  lemma {:induction false} InsertKeeps(w: World, i: nat)
    requires Inv(w) && i < |w.runs| && Open(w, w.runs[i].tx)
    ensures Inv(StepRun(w, Insert(i)))
  {
    hide RunOk, PendingOk;
    var u := StepRun(w, Insert(i));
    forall j | 0 <= j < |u.runs| ensures RunOk(u, u.runs[j]) {
      InsertKeepsRun(w, i, j);
    }
    InsertKeepsPending(w, i);
    hide RunsOk;
  }

  lemma {:induction false} ReadBackKeeps(w: World, i: nat)
    requires Inv(w) && i < |w.runs| && Open(w, w.runs[i].tx)
    ensures Inv(StepRun(w, ReadBack(i)))
  {
    var u := StepRun(w, ReadBack(i));
    assert RunOk(w, w.runs[i]);
    forall j | 0 <= j < |u.runs| ensures RunOk(u, u.runs[j]) {
      assert RunOk(w, w.runs[j]);
    }
    if u != w {
      OtherRunsKeepRows(w, u, i);
    }
  }

  /** A run that is neither executing nor failed backs no unstored row. */
  lemma {:induction false} OtherRunsKeepRows(w: World, u: World, i: nat)
    requires PendingOk(w) && i < |w.runs| && u.pending == w.pending && u.committed == w.committed && u.done == w.done && u.undone == w.undone
    requires |u.runs| == |w.runs| && forall j :: 0 <= j < |w.runs| && j != i ==> u.runs[j] == w.runs[j]
    requires !w.runs[i].phase.Executing? && !w.runs[i].phase.Failed?
    ensures PendingOk(u)
  {
    forall op | op in u.pending && !u.pending[op].row.stored
      ensures Backed(u.runs, op, u.pending[op].tx)
    {
      var j :| 0 <= j < |w.runs| && w.runs[j].op == op && w.runs[j].tx == w.pending[op].tx &&
               (w.runs[j].phase.Executing? || w.runs[j].phase.Failed?);
      assert u.runs[j] == w.runs[j];
    }
  }

  /** Two runs of one operation are never both its owner. */
  lemma {:induction false} OneOwner(w: World, i: nat, j: nat)
    requires OwnersOk(w) && i < |w.runs| && j < |w.runs| && i != j
    requires w.runs[i].op == w.runs[j].op && Owns(w, w.runs[i])
    ensures !Owns(w, w.runs[j])
  {
    hide Owns;
    var low, high := if i < j then i else j, if i < j then j else i;
    assert !(Owns(w, w.runs[low]) && Owns(w, w.runs[high]));
  }

  lemma {:induction false} ExecuteKeepsRun(w: World, i: nat, receipt: Receipt, j: nat)
    requires Inv(w) && i < |w.runs| && Open(w, w.runs[i].tx) && j < |w.runs|
    ensures RunOk(StepRun(w, Execute(i, receipt)), StepRun(w, Execute(i, receipt)).runs[j])
  {
    assert RunOk(w, w.runs[i]) && RunOk(w, w.runs[j]);
    if i != j && w.runs[i].op == w.runs[j].op && Owns(w, w.runs[i]) {
      OneOwner(w, i, j);
    }
    hide OwnersOk, PendingOk, RunsOk;
  }

  lemma {:induction false} ExecuteKeeps(w: World, i: nat, receipt: Receipt)
    requires Inv(w) && i < |w.runs| && Open(w, w.runs[i].tx)
    ensures Inv(StepRun(w, Execute(i, receipt)))
  {
    hide RunOk;
    var u := StepRun(w, Execute(i, receipt));
    if u != w {
      forall j | 0 <= j < |u.runs| ensures RunOk(u, u.runs[j]) {
        ExecuteKeepsRun(w, i, receipt, j);
      }
      forall op | op in u.pending && !u.pending[op].row.stored
        ensures Backed(u.runs, op, u.pending[op].tx)
      {
        var j :| 0 <= j < |w.runs| && w.runs[j].op == op && w.runs[j].tx == w.pending[op].tx &&
                 (w.runs[j].phase.Executing? || w.runs[j].phase.Failed?);
        assert u.runs[j] == w.runs[j];
      }
    }
  }

  lemma {:induction false} FailKeepsRun(w: World, i: nat, j: nat)
    requires Inv(w) && i < |w.runs| && Open(w, w.runs[i].tx) && j < |w.runs|
    ensures RunOk(StepRun(w, Fail(i)), StepRun(w, Fail(i)).runs[j])
  {
    assert RunOk(w, w.runs[i]) && RunOk(w, w.runs[j]);
    hide OwnersOk, PendingOk, RunsOk;
  }

  lemma {:induction false} FailKeeps(w: World, i: nat)
    requires Inv(w) && i < |w.runs| && Open(w, w.runs[i].tx)
    ensures Inv(StepRun(w, Fail(i)))
  {
    hide RunOk;
    var u := StepRun(w, Fail(i));
    forall j | 0 <= j < |u.runs| ensures RunOk(u, u.runs[j]) {
      FailKeepsRun(w, i, j);
    }
    forall op | op in u.pending && !u.pending[op].row.stored
      ensures Backed(u.runs, op, u.pending[op].tx)
    {
      var j :| 0 <= j < |w.runs| && w.runs[j].op == op && w.runs[j].tx == w.pending[op].tx &&
               (w.runs[j].phase.Executing? || w.runs[j].phase.Failed?);
      assert u.runs[j].op == op;
    }
  }

  lemma {:induction false} CommitKeepsRun(w: World, tx: nat, j: nat)
    requires Inv(w) && Open(w, tx) && Settled(w, tx) && j < |w.runs|
    ensures RunOk(Step(w, Commit(tx)), w.runs[j])
  {
    assert RunOk(w, w.runs[j]);
    hide OwnersOk, RunsOk;
  }

  lemma {:induction false} CommitKeeps(w: World, tx: nat)
    requires Inv(w)
    ensures Inv(Step(w, Commit(tx)))
  {
    var u := Step(w, Commit(tx));
    if u != w {
      forall j | 0 <= j < |u.runs| ensures RunOk(u, u.runs[j]) {
        CommitKeepsRun(w, tx, j);
      }
      hide RunOk, RunsOk;
      EndKeepsPending(w, u, tx);
    }
  }

  /** Ending a transaction leaves the pending rows of the others as they were. */
  lemma {:induction false} EndKeepsPending(w: World, u: World, tx: nat)
    requires PendingOk(w) && u.pending == Without(w.pending, tx) && u.runs == w.runs
    requires u.done + u.undone == w.done + w.undone + {tx}
    requires forall op :: op in u.committed ==> op in w.committed || (op in w.pending && w.pending[op].tx == tx)
    ensures PendingOk(u)
  {
    forall op | op in u.pending
      ensures op !in u.committed && Open(u, u.pending[op].tx) &&
              (u.pending[op].row.stored || Backed(u.runs, op, u.pending[op].tx))
    {
      assert op in w.pending && u.pending[op] == w.pending[op];
      assert Open(w, w.pending[op].tx);
      assert w.pending[op].tx !in u.done + u.undone;
    }
  }

  lemma {:induction false} AbortKeeps(w: World, tx: nat)
    requires Inv(w)
    ensures Inv(Step(w, Abort(tx)))
  {
    var u := Step(w, Abort(tx));
    if u != w {
      forall j | 0 <= j < |u.runs| ensures RunOk(u, u.runs[j]) {
        assert RunOk(w, w.runs[j]);
      }
      hide RunOk, RunsOk;
      EndKeepsPending(w, u, tx);
    }
  }

  lemma {:induction false} StepKeeps(w: World, a: Action)
    requires Inv(w)
    ensures Inv(Step(w, a))
  {
    hide Inv, StepRun;
    match a
    case Insert(i) => if i < |w.runs| && Open(w, w.runs[i].tx) { InsertKeeps(w, i); }
    case ReadBack(i) => if i < |w.runs| && Open(w, w.runs[i].tx) { ReadBackKeeps(w, i); }
    case Execute(i, receipt) => if i < |w.runs| && Open(w, w.runs[i].tx) { ExecuteKeeps(w, i, receipt); }
    case Fail(i) => if i < |w.runs| && Open(w, w.runs[i].tx) { FailKeeps(w, i); }
    case Commit(tx) => CommitKeeps(w, tx);
    case Abort(tx) => AbortKeeps(w, tx);
  }

  lemma {:induction false} PlayKeeps(runs: seq<Run>, actions: seq<Action>)
    ensures Inv(Play(Begin(runs), actions))
  {
    if actions == [] {
      assert Inv(Begin(runs));
    } else {
      hide Inv, Step;
      PlayKeeps(runs, actions[..|actions| - 1]);
      StepKeeps(Play(Begin(runs), actions[..|actions| - 1]), actions[|actions| - 1]);
    }
  }

  // ---- what is promised of receipts, and exactly when it is kept ----

  predicate HasReceipt(row: Row, r: Run) {
    row.stored && r.phase.Returned? && row.receipt == r.phase.receipt
  }

  /** A run that returned, and was not rolled back, gave out the receipt that is stored under its key. */
  predicate ReceiptTrue(w: World, r: Run) {
    && (r.phase.Returned? && Open(w, r.tx) ==> Visible(w, r.op, r.tx).Some? && HasReceipt(Visible(w, r.op, r.tx).value, r))
    && (r.phase.Returned? && r.tx in w.done ==> r.op in w.committed && HasReceipt(w.committed[r.op], r))
  }

  /** The promise: no committed operation lacks its receipt, and no caller was given any other. */
  predicate Promised(w: World) {
    && (forall op :: op in w.committed ==> w.committed[op].stored)
    && (forall i :: 0 <= i < |w.runs| ==> ReceiptTrue(w, w.runs[i]))
  }

  lemma {:induction false} RunStepPromised(w: World, a: Action)
    requires Inv(w) && Promised(w) && (a.Insert? || a.Fail? || a.Execute?)
    requires a.run < |w.runs| && Open(w, w.runs[a.run].tx)
    ensures Promised(StepRun(w, a))
  {
    var u, i := StepRun(w, a), a.run;
    assert RunOk(w, w.runs[i]);
    forall j | 0 <= j < |u.runs| ensures ReceiptTrue(u, u.runs[j]) {
      assert RunOk(w, w.runs[j]) && ReceiptTrue(w, w.runs[j]);
      hide OwnersOk, RunsOk, Promised;
    }
  }

  /** A read-back with the right kind and fingerprint gives a receipt that was really stored exactly when the row it sees
      is not its own transaction's unfinished one. */
  lemma {:induction false} ReadBackIsTrueIff(w: World, i: nat)
    requires Inv(w) && Promised(w) && i < |w.runs| && Open(w, w.runs[i].tx)
    ensures Promised(StepRun(w, ReadBack(i))) <==> !ReadsOwnUnstored(w, w.runs[i])
  {
    var u := StepRun(w, ReadBack(i));
    assert RunOk(w, w.runs[i]);
    forall j | 0 <= j < |u.runs| && j != i ensures ReceiptTrue(u, u.runs[j]) {
      assert ReceiptTrue(w, w.runs[j]);
    }
    assert ReceiptTrue(w, w.runs[i]);
    assert ReceiptTrue(u, u.runs[i]) <==> !ReadsOwnUnstored(w, w.runs[i]);
    hide OwnersOk, RunsOk, PendingOk, ReceiptTrue, RunOk;
  }

  /** The rows of a transaction that may end all have their receipts exactly when none of its runs has failed. */
  lemma {:induction false} CommitIsStoredIff(w: World, tx: nat)
    requires Inv(w) && Open(w, tx) && Settled(w, tx)
    ensures (forall op :: op in w.pending && w.pending[op].tx == tx ==> w.pending[op].row.stored) <==>
            (forall i :: 0 <= i < |w.runs| && w.runs[i].tx == tx ==> !w.runs[i].phase.Failed?)
  {
    forall i | 0 <= i < |w.runs| && w.runs[i].tx == tx && w.runs[i].phase.Failed?
      ensures w.runs[i].op in w.pending && w.pending[w.runs[i].op].tx == tx && !w.pending[w.runs[i].op].row.stored
    {
      assert RunOk(w, w.runs[i]);
    }
    hide RunOk, RunsOk, OwnersOk;
  }

  lemma {:induction false} CommitPromisedIff(w: World, tx: nat)
    requires Inv(w) && Promised(w) && Open(w, tx) && Settled(w, tx)
    ensures Promised(Step(w, Commit(tx))) <==>
            forall i :: 0 <= i < |w.runs| && w.runs[i].tx == tx ==> !w.runs[i].phase.Failed?
  {
    hide OwnersOk, RunOk;
    var u := Step(w, Commit(tx));
    CommitIsStoredIff(w, tx);
    forall j | 0 <= j < |u.runs| ensures ReceiptTrue(u, u.runs[j]) {
      assert RunOk(w, w.runs[j]) && ReceiptTrue(w, w.runs[j]);
      hide RunsOk, OwnersOk;
    }
    hide RunsOk, ReceiptTrue;
    forall op | op in w.pending && w.pending[op].tx == tx ensures op in u.committed && u.committed[op] == w.pending[op].row {
    }
  }

  lemma {:induction false} AbortPromised(w: World, tx: nat)
    requires Inv(w) && Promised(w)
    ensures Promised(Step(w, Abort(tx)))
  {
    var u := Step(w, Abort(tx));
    forall j | 0 <= j < |u.runs| ensures ReceiptTrue(u, u.runs[j]) {
      assert ReceiptTrue(w, w.runs[j]);
    }
  }

  /** One step keeps the promise exactly when the caller keeps its duties in it. */
  lemma {:induction false} StepPromisedIff(w: World, a: Action)
    requires Inv(w) && Promised(w)
    ensures Promised(Step(w, a)) <==> Proper(w, a)
  {
    hide Inv, Promised, ReadsOwnUnstored, StepRun;
    if a.Commit? {
      if Open(w, a.tx) && Settled(w, a.tx) {
        CommitPromisedIff(w, a.tx);
      }
    } else if a.Abort? {
      AbortPromised(w, a.tx);
    } else if a.run < |w.runs| && Open(w, w.runs[a.run].tx) {
      if a.ReadBack? {
        ReadBackIsTrueIff(w, a.run);
      } else {
        RunStepPromised(w, a);
      }
    }
  }

  /** The promise holds at every moment of the play. */
  predicate AlwaysPromised(w: World, actions: seq<Action>) {
    Promised(Play(w, actions)) && (actions == [] || AlwaysPromised(w, actions[..|actions| - 1]))
  }

  /** Over every interleaving: receipts are as promised at every moment if and only if callers keep their two duties
      throughout. */
  lemma {:induction false} PromiseKeptIff(runs: seq<Run>, actions: seq<Action>)
    ensures AlwaysPromised(Begin(runs), actions) <==> AllProper(Begin(runs), actions)
  {
    if actions == [] {
      assert Promised(Begin(runs));
    } else {
      var init, last := actions[..|actions| - 1], actions[|actions| - 1];
      PromiseKeptIff(runs, init);
      PlayKeeps(runs, init);
      hide Inv, Step, Proper, Promised;
      if AlwaysPromised(Begin(runs), init) {
        PromisedNow(Begin(runs), init);
        StepPromisedIff(Play(Begin(runs), init), last);
      }
    }
  }

  lemma {:induction false} PromisedNow(w: World, actions: seq<Action>)
    requires AlwaysPromised(w, actions)
    ensures Promised(Play(w, actions))
  {
  }

  // ---- the theorems ----

  /** The run came back to a caller whose transaction has committed. */
  predicate Delivered(w: World, i: nat)
    requires i < |w.runs|
  {
    w.runs[i].phase.Returned? && w.runs[i].tx in w.done
  }

  /** Under any interleaving, and whatever callers do, at most one execution of an operation commits. */
  lemma {:induction false} AtMostOneExecution(runs: seq<Run>, actions: seq<Action>, i: nat, j: nat)
    requires var w := Play(Begin(runs), actions);
             i < j < |w.runs| && w.runs[i].op == w.runs[j].op && Delivered(w, i) && Delivered(w, j)
    ensures var w := Play(Begin(runs), actions);
            w.runs[i].phase.replayed || w.runs[j].phase.replayed
  {
    PlayKeeps(runs, actions);
    hide Play;
  }

  /** Whatever callers do, a run whose kind or fingerprint differs from the committed one never returns. */
  lemma {:induction false} MismatchGetsNothing(runs: seq<Run>, actions: seq<Action>, i: nat)
    requires var w := Play(Begin(runs), actions);
             i < |w.runs| && w.runs[i].op in w.committed && w.runs[i].tx !in w.undone &&
             (w.runs[i].kind != w.committed[w.runs[i].op].kind || w.runs[i].fingerprint != w.committed[w.runs[i].op].fingerprint)
    ensures !Play(Begin(runs), actions).runs[i].phase.Returned?
  {
    PlayKeeps(runs, actions);
    hide Play;
    var w := Play(Begin(runs), actions);
    assert RunOk(w, w.runs[i]);
  }

  /** Whatever callers do, a run that returns from a committed transaction names a committed operation of its own kind and
      fingerprint. */
  lemma {:induction false} DeliveredCommand(runs: seq<Run>, actions: seq<Action>, i: nat)
    requires var w := Play(Begin(runs), actions); i < |w.runs| && Delivered(w, i)
    ensures var w := Play(Begin(runs), actions);
            w.runs[i].op in w.committed && SameCommand(w.committed[w.runs[i].op], w.runs[i])
  {
    PlayKeeps(runs, actions);
    hide Play;
    var w := Play(Begin(runs), actions);
    assert RunOk(w, w.runs[i]);
  }

  /** While callers keep their duties, every run that returns from a committed transaction carries the receipt of the
      operation; so any two of them carry the same. */
  lemma {:induction false} DeliveredReceipt(runs: seq<Run>, actions: seq<Action>, i: nat)
    requires AllProper(Begin(runs), actions)
    requires var w := Play(Begin(runs), actions); i < |w.runs| && Delivered(w, i)
    ensures var w := Play(Begin(runs), actions);
            w.runs[i].op in w.committed && w.committed[w.runs[i].op].receipt == w.runs[i].phase.receipt
  {
    PromiseKeptIff(runs, actions);
    PromisedNow(Begin(runs), actions);
    hide Play;
    var w := Play(Begin(runs), actions);
    assert ReceiptTrue(w, w.runs[i]);
  }

  /** While callers keep their duties, no committed operation lacks its receipt, whether or not any run came back. */
  lemma {:induction false} CommittedIsStored(runs: seq<Run>, actions: seq<Action>, op: Id)
    requires AllProper(Begin(runs), actions) && op in Play(Begin(runs), actions).committed
    ensures Play(Begin(runs), actions).committed[op].stored
  {
    PromiseKeptIff(runs, actions);
    PromisedNow(Begin(runs), actions);
    hide Play;
  }

  /** A waiting run takes over when the transaction that held its key is rolled back. */
  lemma {:induction false} RollbackHandsOver(runs: seq<Run>, actions: seq<Action>, i: nat)
    requires var w := Play(Begin(runs), actions);
             && i < |w.runs| && w.runs[i].phase.Ready? && Open(w, w.runs[i].tx) && w.runs[i].op in w.pending
             && w.pending[w.runs[i].op].tx != w.runs[i].tx
    ensures var w := Play(Begin(runs), actions);
            var op := w.runs[i].op;
            && Step(w, Insert(i)) == w
            && Step(Step(w, Abort(w.pending[op].tx)), Insert(i)).runs[i].phase == Executing
            && op !in Step(w, Abort(w.pending[op].tx)).committed
  {
    PlayKeeps(runs, actions);
    hide Play;
  }

  // ---- why the caller's duties are needed ----

  /** Running an operation again inside its own execution replays a receipt that is not there yet. */
  lemma {:induction false} NestedRunReadsNothing(op: Id, kind: string, fingerprint: string)
    ensures var run := Run(op, kind, fingerprint, 0, Ready);
            var w := Step(Step(Step(Begin([run, run]), Insert(0)), Insert(1)), ReadBack(1));
            var v := Step(Step(w, Execute(0, Receipt(7))), Commit(0));
            && 1 < |v.runs| && Delivered(v, 1) && v.runs[1].phase.receipt == NoReceipt
            && op in v.committed && v.committed[op].receipt == Receipt(7)
  {
    var run := Run(op, kind, fingerprint, 0, Ready);
    var w0 := Begin([run, run]);
    assert w0.runs == [run, run];
    var w1 := Step(w0, Insert(0));
    assert w1.runs == [run.(phase := Executing), run];
    var row := Row(kind, fingerprint, NoReceipt, false);
    assert w1.pending == map[op := Pending(0, row)];
    var w2 := Step(w1, Insert(1));
    assert w2.runs == [run.(phase := Executing), run.(phase := Conflicted)];
    var w3 := Step(w2, ReadBack(1));
    assert w3.runs == [run.(phase := Executing), run.(phase := Returned(NoReceipt, true))];
    NestedEnd(w3, run, row);
  }

  lemma {:induction false} NestedEnd(w: World, run: Run, row: Row)
    requires w == World(map[], map[run.op := Pending(0, row)], [run.(phase := Executing), run.(phase := Returned(NoReceipt, true))], {}, {})
    requires run.tx == 0
    ensures var v := Step(Step(w, Execute(0, Receipt(7))), Commit(0));
            && 1 < |v.runs| && Delivered(v, 1) && v.runs[1].phase.receipt == NoReceipt
            && run.op in v.committed && v.committed[run.op].receipt == Receipt(7)
  {
    var u := Step(w, Execute(0, Receipt(7)));
    assert u.runs == [run.(phase := Returned(Receipt(7), false)), run.(phase := Returned(NoReceipt, true))];
    assert Settled(u, 0);
    assert run.op in u.pending && u.pending[run.op].tx == 0;
  }

  /** A caller that swallows the failure and commits leaves a row without a receipt for ever. */
  lemma {:induction false} SwallowedFailureLosesReceipt(op: Id, kind: string, fingerprint: string)
    ensures var w := Begin([Run(op, kind, fingerprint, 0, Ready)]);
            var v := Step(Step(Step(w, Insert(0)), Fail(0)), Commit(0));
            op in v.committed && !v.committed[op].stored
  {
    var w := Begin([Run(op, kind, fingerprint, 0, Ready)]);
    var w1 := Step(w, Insert(0));
    assert op in w1.pending && w1.pending[op].tx == 0;
    var w2 := Step(w1, Fail(0));
    assert Settled(w2, 0) && Open(w2, 0);
  }
}

/** Disabling a factor as it runs: an unlocked look at the row, the check of a code in statements of its own, and at last
    the transaction that deletes, with anything else in between. */
module MfaDisabling {
  import opened Options
  import opened Mfa

  /** Why a call may delete: it saw a pending row, or a code was accepted. For a time step, `enrolment` is the one whose
      secret the code matched; for a recovery code, the one it was issued with. */
  datatype Proof = SawPending | StepOf(enrolment: nat) | CodeOf(enrolment: nat)

  /** `read` is the enrolment of the row that the call read to match its code. */
  datatype Phase =
    | Looking
    | Coded
    | Trying(matched: Option<int>, read: nat)
    | Redeeming
    | Admitted(proof: Proof)
    | Ended(answer: DisableAnswer)

  /** `code` is the hash of what was typed in, if anything was. */
  datatype Call = Call(user: nat, code: Option<nat>, phase: Phase)

  datatype Request = Request(user: nat, code: Option<nat>)

  datatype World = World(store: Store, calls: seq<Call>)

  /** One statement, of a disabling or of something else; `matched` is the step that the code matches for the row just
      read. Nothing else than a disabling deletes a factor. */
  datatype Move =
    | Other(a: Action)
    | Look(call: nat)
    | Load(call: nat, matched: Option<int>)
    | TryStep(call: nat)
    | TryCode(call: nat)
    | Remove(call: nat)

  function AfterLook(s: Store, c: Call): Phase {
    if c.user !in s.totps then Ended(NotEnrolled)
    else if !s.totps[c.user].confirmed then Admitted(SawPending)
    else if c.code.None? then Ended(InvalidCode)
    else Coded
  }

  /** The step counts if it moves the row forward. The row may be another one than was read: only the step is compared. */
  function StepTried(s: Store, c: Call): (Store, Phase)
    requires c.phase.Trying?
  {
    if c.phase.matched.None? then (s, Redeeming)
    else
      var (t, event) := Step(s, Advance(c.user, c.phase.matched.value));
      (t, if event.StepAccepted? then Admitted(StepOf(c.phase.read)) else Redeeming)
  }

  function CodeTried(s: Store, c: Call): (Store, Phase)
    requires c.code.Some?
  {
    var (t, event) := Step(s, Redeem(c.user, c.code.value));
    (t, if event.CodeSpent? && event.code < |t.codes| then Admitted(CodeOf(t.codes[event.code].enrolment)) else Ended(InvalidCode))
  }

  /** A move that does not come next in its call does nothing. */
  function Proceed(s: Store, c: Call, m: Move): (Store, Phase) {
    if m.Look? && c.phase.Looking? then (s, AfterLook(s, c))
    else if m.Load? && c.phase.Coded? then
      (s, if IsConfirmed(s, c.user) then Trying(m.matched, s.totps[c.user].enrolment) else Ended(NotEnrolled))
    else if m.TryStep? && c.phase.Trying? then StepTried(s, c)
    else if m.TryCode? && c.phase.Redeeming? && c.code.Some? then CodeTried(s, c)
    else if m.Remove? && c.phase.Admitted? then (Step(s, Disable(c.user)).0, Ended(Disabled))
    else (s, c.phase)
  }

  function Next(w: World, m: Move): World {
    if m.Other? then if m.a.Disable? then w else w.(store := Step(w.store, m.a).0)
    else if m.call >= |w.calls| then w
    else
      var (s, phase) := Proceed(w.store, w.calls[m.call], m);
      World(s, w.calls[m.call := w.calls[m.call].(phase := phase)])
  }

  function PlayOn(w: World, moves: seq<Move>): World {
    if moves == [] then w else Next(PlayOn(w, moves[..|moves| - 1]), moves[|moves| - 1])
  }

  function Begin(requests: seq<Request>): World {
    World(EMPTY, seq(|requests|, i requires 0 <= i < |requests| => Call(requests[i].user, requests[i].code, Looking)))
  }

  // ---- what every run keeps ----

  /** A live recovery code belongs to the enrolment that is confirmed now. */
  predicate CodesOk(s: Store) {
    forall i :: 0 <= i < |s.codes| && s.codes[i].live ==>
      IsConfirmed(s, s.codes[i].user) && s.codes[i].enrolment == s.totps[s.codes[i].user].enrolment
  }

  predicate WorldOk(w: World) {
    EnrolmentsOk(w.store) && CodesOk(w.store)
  }

  /** The statement on the rows that a move is, if it is one. */
  function Statement(w: World, m: Move): Option<Action> {
    if m.Other? then if m.a.Disable? then None else Some(m.a)
    else if m.call >= |w.calls| then None
    else
      var c := w.calls[m.call];
      if m.TryStep? && c.phase.Trying? && c.phase.matched.Some? then Some(Advance(c.user, c.phase.matched.value))
      else if m.TryCode? && c.phase.Redeeming? && c.code.Some? then Some(Redeem(c.user, c.code.value))
      else if m.Remove? && c.phase.Admitted? then Some(Disable(c.user))
      else None
  }

  lemma {:induction false} MoveIsStatement(w: World, m: Move)
    ensures var a := Statement(w, m);
            Next(w, m).store == if a.None? then w.store else Step(w.store, a.value).0
  {
    hide Step;
  }

  lemma {:induction false} StepKeepsCodes(s: Store, a: Action)
    requires CodesOk(s)
    ensures CodesOk(Step(s, a).0)
  {
  }

  lemma {:induction false} NextKeeps(w: World, m: Move)
    requires WorldOk(w)
    ensures WorldOk(Next(w, m))
  {
    hide Step, Next, EnrolmentsOk, CodesOk, Statement;
    var a := Statement(w, m);
    MoveIsStatement(w, m);
    if a.Some? {
      StepKeepsEnrolments(w.store, a.value);
      StepKeepsCodes(w.store, a.value);
    }
  }

  lemma {:induction false} PlayKeeps(w: World, moves: seq<Move>)
    requires WorldOk(w)
    ensures WorldOk(PlayOn(w, moves))
  {
    hide WorldOk, Next;
    if moves != [] {
      PlayKeeps(w, moves[..|moves| - 1]);
      NextKeeps(PlayOn(w, moves[..|moves| - 1]), moves[|moves| - 1]);
    }
  }

  lemma {:induction false} CallsStay(w: World, moves: seq<Move>, i: nat)
    requires i < |w.calls|
    ensures |PlayOn(w, moves).calls| == |w.calls| && PlayOn(w, moves).calls[i].user == w.calls[i].user
  {
    hide Proceed;
    if moves != [] {
      CallsStay(w, moves[..|moves| - 1], i);
    }
  }

  lemma {:induction false} PlaySplit(w: World, moves: seq<Move>, k: nat)
    requires k <= |moves|
    ensures PlayOn(w, moves) == PlayOn(PlayOn(w, moves[..k]), moves[k..])
  {
    hide Next;
    var n := |moves| - 1;
    if k <= n {
      PlaySplit(w, moves[..n], k);
      assert moves[..n][..k] == moves[..k] && moves[..n][k..] == moves[k..][..n - k];
    } else {
      assert moves[..k] == moves && moves[k..] == [];
    }
  }

  /** The statements on the rows that these moves come to. */
  function Statements(w: World, moves: seq<Move>): seq<Action> {
    if moves == [] then []
    else
      var init := moves[..|moves| - 1];
      var a := Statement(PlayOn(w, init), moves[|moves| - 1]);
      Statements(w, init) + if a.None? then [] else [a.value]
  }

  lemma {:induction false} PlayIsRun(w: World, moves: seq<Move>)
    ensures PlayOn(w, moves).store == RunOn(w.store, Statements(w, moves))
  {
    hide Next, Statement, Step;
    if moves != [] {
      var init := moves[..|moves| - 1];
      PlayIsRun(w, init);
      MoveIsStatement(PlayOn(w, init), moves[|moves| - 1]);
      var statements := Statements(w, moves);
      if Statement(PlayOn(w, init), moves[|moves| - 1]).Some? {
        assert statements[..|statements| - 1] == Statements(w, init);
      } else {
        assert statements == Statements(w, init);
      }
    }
  }

  lemma {:induction false} BeginOk(requests: seq<Request>)
    ensures WorldOk(Begin(requests))
  {
  }

  // ---- the move that a deletion rests on ----

  /** Of a call that was admitted by this kind of proof, the `k`-th move is what decided it: the look at a pending row, the
      read of the row to match the code against, or the redemption. */
  predicate Decides(w: World, moves: seq<Move>, k: nat, i: nat, proof: Proof)
    requires i < |w.calls| && k < |moves|
  {
    var v := PlayOn(w, moves[..k]);
    i < |v.calls| &&
    match proof
    case SawPending => moves[k] == Look(i) && v.calls[i].phase.Looking?
    case StepOf(_) => moves[k].Load? && moves[k].call == i && v.calls[i].phase.Coded?
    case CodeOf(_) => moves[k] == TryCode(i) && v.calls[i].phase.Redeeming? && v.calls[i].code.Some?
  }

  /** What a call in this phase has to show. */
  function ShownBy(p: Phase): Option<Proof> {
    match p
    case Trying(_, read) => Some(StepOf(read))
    case Admitted(proof) => Some(proof)
    case _ => None
  }

  lemma {:induction false} DecidedOnce(w: World, m: Move, i: nat)
    requires i < |w.calls|
    ensures var u := Next(w, m);
            i < |u.calls| &&
            (ShownBy(u.calls[i].phase).Some? && ShownBy(u.calls[i].phase) != ShownBy(w.calls[i].phase) ==>
               Decides(w, [m], 0, i, ShownBy(u.calls[i].phase).value))
  {
    hide Step;
    assert [m][..0] == [];
  }

  lemma {:induction false} DecidedBefore(w: World, moves: seq<Move>, i: nat)
    requires i < |w.calls| && ShownBy(w.calls[i].phase).None?
    ensures i < |PlayOn(w, moves).calls|
    ensures var shown := ShownBy(PlayOn(w, moves).calls[i].phase);
            shown.Some? ==> exists k :: 0 <= k < |moves| && Decides(w, moves, k, i, shown.value)
  {
    hide Next, Decides;
    if moves != [] {
      var n := |moves| - 1;
      var init, v := moves[..n], PlayOn(w, moves[..n]);
      DecidedBefore(w, init, i);
      DecidedOnce(v, moves[n], i);
      var was, shown := ShownBy(v.calls[i].phase), ShownBy(PlayOn(w, moves).calls[i].phase);
      if shown.Some? && shown == was {
        var k :| 0 <= k < n && Decides(w, init, k, i, shown.value);
        DecidesLonger(w, moves, n, k, i, shown.value);
      } else if shown.Some? {
        DecidesLast(w, moves, i, shown.value);
      }
    }
  }

  lemma {:induction false} DecidesLonger(w: World, moves: seq<Move>, n: nat, k: nat, i: nat, proof: Proof)
    requires i < |w.calls| && k < n <= |moves|
    ensures Decides(w, moves[..n], k, i, proof) <==> Decides(w, moves, k, i, proof)
  {
    hide PlayOn;
    assert moves[..n][..k] == moves[..k];
  }

  lemma {:induction false} DecidesLast(w: World, moves: seq<Move>, i: nat, proof: Proof)
    requires moves != [] && i < |w.calls| && i < |PlayOn(w, moves[..|moves| - 1]).calls|
    requires Decides(PlayOn(w, moves[..|moves| - 1]), [moves[|moves| - 1]], 0, i, proof)
    ensures Decides(w, moves, |moves| - 1, i, proof)
  {
    hide Next;
    assert [moves[|moves| - 1]][..0] == [];
  }

  /** Whether a call in phase `a` may later be in phase `b`. */
  predicate Leads(a: Phase, b: Phase) {
    match a
    case Looking => true
    case Coded => !b.Looking? && b != Admitted(SawPending)
    case Trying(_, read) => b == a || b.Redeeming? || b == Admitted(StepOf(read)) || (b.Admitted? && b.proof.CodeOf?) || b.Ended?
    case Redeeming => b == a || (b.Admitted? && b.proof.CodeOf?) || b.Ended?
    case Admitted(_) => b == a || b.Ended?
    case Ended(_) => b == a
  }

  lemma {:induction false} NextLeads(w: World, m: Move, i: nat, p: Phase)
    requires i < |w.calls| && Leads(p, w.calls[i].phase)
    ensures i < |Next(w, m).calls| && Leads(p, Next(w, m).calls[i].phase)
  {
    hide Step;
  }

  lemma {:induction false} PlayLeads(w: World, moves: seq<Move>, i: nat)
    requires i < |w.calls|
    ensures i < |PlayOn(w, moves).calls| && Leads(w.calls[i].phase, PlayOn(w, moves).calls[i].phase)
  {
    hide Next;
    if moves != [] {
      PlayLeads(w, moves[..|moves| - 1], i);
      NextLeads(PlayOn(w, moves[..|moves| - 1]), moves[|moves| - 1], i, w.calls[i].phase);
    }
  }

  /** Right after the deciding move, a code is one of the factor that is confirmed then, and no factor is confirmed if the
      call saw a pending row. */
  lemma {:induction false} DecidedRightly(w: World, m: Move, i: nat, proof: Proof)
    requires WorldOk(w) && i < |w.calls| && Decides(w, [m], 0, i, proof)
    requires i < |Next(w, m).calls| && Leads(Next(w, m).calls[i].phase, Admitted(proof))
    ensures var u, user := Next(w, m), w.calls[i].user;
            if proof.SawPending? then !IsConfirmed(u.store, user)
            else IsConfirmed(u.store, user) && proof.enrolment == u.store.totps[user].enrolment
  {
    assert [m][..0] == [];
  }

  // ---- whose factor a removal takes ----

  /** Deleting now would take a confirmed factor although this call has had no code of it. */
  predicate TakesUncoded(w: World, i: nat)
    requires i < |w.calls|
  {
    var c := w.calls[i];
    c.phase.Admitted? && IsConfirmed(w.store, c.user) &&
    (c.phase.proof.SawPending? || c.phase.proof.enrolment != w.store.totps[c.user].enrolment)
  }

  /** Since the `k`-th move the user confirmed a factor. */
  predicate ConfirmedAfter(w: World, moves: seq<Move>, k: nat, user: nat)
    requires k < |moves|
  {
    var v := PlayOn(w, moves[..k + 1]);
    ConfirmedIn(v.store, Statements(v, moves[k + 1..]), user)
  }

  lemma {:induction false} TakesUncodedSince(w: World, moves: seq<Move>, k: nat, i: nat)
    requires WorldOk(w) && i < |w.calls| && k < |moves| && i < |PlayOn(w, moves).calls|
    requires PlayOn(w, moves).calls[i].phase.Admitted? && Decides(w, moves, k, i, PlayOn(w, moves).calls[i].phase.proof)
    ensures var u, user := PlayOn(w, moves), w.calls[i].user;
            TakesUncoded(u, i) <==> IsConfirmed(u.store, user) && ConfirmedAfter(w, moves, k, user)
  {
    hide WorldOk, Next, PlayOn, Leads, ConfirmedIn, Statements, RunOn, Decides, IsConfirmed;
    var v, rest, proof, user := PlayOn(w, moves[..k]), moves[k + 1..], PlayOn(w, moves).calls[i].phase.proof, w.calls[i].user;
    var d := PlayOn(w, moves[..k + 1]);
    PlayStep(w, moves, k);
    CallsStay(w, moves, i);
    CallsStay(w, moves[..k], i);
    PlayKeeps(w, moves[..k]);
    NextKeeps(v, moves[k]);
    PlaySplit(w, moves, k + 1);
    CallsStay(w, moves[..k + 1], i);
    PlayLeads(d, rest, i);
    DecidesHere(w, moves, k, i, proof);
    DecidedRightly(v, moves[k], i, proof);
    PlayIsRun(d, rest);
    if IsConfirmed(PlayOn(w, moves).store, user) {
      FactorSince(d.store, Statements(d, rest), user);
    }
    if IsConfirmed(d.store, user) {
      NumberedBelow(d, user);
    }
  }

  lemma {:induction false} PlayStep(w: World, moves: seq<Move>, k: nat)
    requires k < |moves|
    ensures PlayOn(w, moves[..k + 1]) == Next(PlayOn(w, moves[..k]), moves[k])
  {
    hide Next;
    assert moves[..k + 1][..k] == moves[..k];
  }

  lemma {:induction false} DecidesHere(w: World, moves: seq<Move>, k: nat, i: nat, proof: Proof)
    requires i < |w.calls| && k < |moves| && Decides(w, moves, k, i, proof)
    ensures i < |PlayOn(w, moves[..k]).calls| && Decides(PlayOn(w, moves[..k]), [moves[k]], 0, i, proof)
  {
    hide Next;
    assert [moves[k]][..0] == [];
  }

  lemma {:induction false} NumberedBelow(w: World, user: nat)
    requires WorldOk(w) && IsConfirmed(w.store, user)
    ensures w.store.totps[user].enrolment < w.store.enrolments
  {
  }

  /** Over every run: a call that may delete was decided by one of its moves, and its removal takes a confirmed factor that
      it has had no code of if and only if a factor is confirmed and the user confirmed one after that move. In either case
      the factor and all codes of the user are gone. */
  lemma {:induction false} TakesUncodedIff(requests: seq<Request>, moves: seq<Move>, i: nat)
    requires i < |requests| == |PlayOn(Begin(requests), moves).calls|
    requires PlayOn(Begin(requests), moves).calls[i].phase.Admitted?
    ensures var w, u, user := Begin(requests), PlayOn(Begin(requests), moves), requests[i].user;
            && (exists k :: 0 <= k < |moves| && Decides(w, moves, k, i, u.calls[i].phase.proof))
            && (forall k :: 0 <= k < |moves| && Decides(w, moves, k, i, u.calls[i].phase.proof) ==>
                  (TakesUncoded(u, i) <==> IsConfirmed(u.store, user) && ConfirmedAfter(w, moves, k, user)))
            && Barred(Next(u, Remove(i)).store, user) && user !in Next(u, Remove(i)).store.totps
  {
    hide WorldOk, Next, PlayOn, ConfirmedAfter, Decides, TakesUncoded, IsConfirmed;
    var w := Begin(requests);
    var u := PlayOn(w, moves);
    BeginOk(requests);
    DecidedBefore(w, moves, i);
    CallsStay(w, moves, i);
    RemovalBars(u, i);
    forall k | 0 <= k < |moves| && Decides(w, moves, k, i, u.calls[i].phase.proof)
      ensures TakesUncoded(u, i) <==> IsConfirmed(u.store, requests[i].user) && ConfirmedAfter(w, moves, k, requests[i].user)
    {
      TakesUncodedSince(w, moves, k, i);
    }
  }

  lemma {:induction false} RemovalBars(u: World, i: nat)
    requires i < |u.calls| && u.calls[i].phase.Admitted?
    ensures var user := u.calls[i].user;
            Barred(Next(u, Remove(i)).store, user) && user !in Next(u, Remove(i)).store.totps
  {
  }

  /** The first input that shows it: a look at a pending row, a confirmation, and then the removal; the confirmed factor goes
      without any code. */
  lemma {:induction false} DisabledWithoutCode(secret: nat, step: int)
    ensures var look := PlayOn(Begin([Request(0, None)]), [Other(Enroll(0, secret)), Look(0)]);
            var u := Next(look, Other(Confirm(0, step, [])));
            && |u.calls| == 1 && IsConfirmed(u.store, 0) && TakesUncoded(u, 0)
            && DisableWith(u.store, 0, None) == (u.store, InvalidCode)
            && 0 !in Next(u, Remove(0)).store.totps
            && Next(u, Remove(0)).calls == [Call(0, None, Ended(Disabled))]
  {
    var start := Begin([Request(0, None)]);
    var enrolled := Next(start, Other(Enroll(0, secret)));
    var look := Next(enrolled, Look(0));
    var moves := [Other(Enroll(0, secret)), Look(0)];
    assert moves[..1] == [Other(Enroll(0, secret))] && moves[..1][..0] == [];
    assert PlayOn(start, moves[..1]) == enrolled && PlayOn(start, moves) == look;
    assert start.calls == [Call(0, None, Looking)];
    assert enrolled.store.totps[0] == Totp(secret, false, -1, 0);
    assert look.calls == [Call(0, None, Admitted(SawPending))];
  }

  /** The moves of the second input: two calls read a factor with the secret `a`, one of them deletes it, a factor with `b`
      takes its place, and then the other call finishes. */
  function StaleMoves(a: nat, b: nat, step: int): seq<Move> {
    [Other(Enroll(0, a)), Other(Confirm(0, step, [])), Look(0), Load(0, Some(step + 3)), Look(1), Load(1, Some(step + 1)),
     TryStep(1), Remove(1), Other(Enroll(0, b)), Other(Confirm(0, step + 2, [])), TryStep(0)]
  }

  lemma {:induction false} FirstDeleted(a: nat, b: nat, step: int, h: nat, g: nat)
    ensures var w := Begin([Request(0, Some(h)), Request(0, Some(g))]);
            PlayOn(w, StaleMoves(a, b, step)[..8]) ==
            World(Store(map[], [], 1), [Call(0, Some(h), Trying(Some(step + 3), 0)), Call(0, Some(g), Ended(Disabled))])
  {
    hide PlayOn;
    var w, m := Begin([Request(0, Some(h)), Request(0, Some(g))]), StaleMoves(a, b, step);
    assert w.calls == [Call(0, Some(h), Looking), Call(0, Some(g), Looking)];
    var one := World(Store(map[0 := Totp(a, true, step, 0)], [], 1), w.calls);
    assert Next(Next(w, m[0]), m[1]) == one;
    var read := [Call(0, Some(h), Trying(Some(step + 3), 0)), Call(0, Some(g), Trying(Some(step + 1), 0))];
    assert Next(Next(Next(Next(one, m[2]), m[3]), m[4]), m[5]) == one.(calls := read);
    FourPlays(w, m, 0);
    FourPlays(w, m, 4);
  }

  lemma {:induction false} FourPlays(w: World, m: seq<Move>, k: nat)
    requires k + 4 <= |m|
    ensures PlayOn(w, m[..k + 4]) == Next(Next(Next(Next(PlayOn(w, m[..k]), m[k]), m[k + 1]), m[k + 2]), m[k + 3])
    ensures PlayOn(w, m[..0]) == w
  {
    hide Next;
    PlayStep(w, m, k);
    PlayStep(w, m, k + 1);
    PlayStep(w, m, k + 2);
    PlayStep(w, m, k + 3);
  }

  /** The second input: a call whose code matched only the secret `a` deletes a confirmed factor with the secret `b`. */
  lemma {:induction false} DisabledByStaleCode(a: nat, b: nat, step: int, h: nat, g: nat)
    requires a != b
    ensures var u := PlayOn(Begin([Request(0, Some(h)), Request(0, Some(g))]), StaleMoves(a, b, step));
            && u.store.totps == map[0 := Totp(b, true, step + 3, 1)]
            && |u.calls| == 2 && u.calls[0].phase == Admitted(StepOf(0)) && TakesUncoded(u, 0)
            && 0 !in Next(u, Remove(0)).store.totps && Next(u, Remove(0)).calls[0].phase == Ended(Disabled)
  {
    hide PlayOn;
    var w, m := Begin([Request(0, Some(h)), Request(0, Some(g))]), StaleMoves(a, b, step);
    FirstDeleted(a, b, step, h, g);
    PlayStep(w, m, 8);
    PlayStep(w, m, 9);
    PlayStep(w, m, 10);
    assert m[..11] == m;
  }

  // ---- with nothing in between ----

  /** All steps of one call, one after the other. */
  function WholeCall(i: nat, matched: Option<int>): seq<Move> {
    [Look(i), Load(i, matched), TryStep(i), TryCode(i), Remove(i)]
  }

  function TypedOf(c: Call, matched: Option<int>): Option<Typed> {
    if c.code.None? then None else Some(Typed(matched, c.code.value))
  }

  /** A disabling that nothing interrupts asks a confirmed factor for a code. */
  lemma {:induction false} UninterruptedNeedsCode(w: World, i: nat, matched: Option<int>)
    requires i < |w.calls| && w.calls[i].phase.Looking?
    ensures var u := PlayOn(w, WholeCall(i, matched));
            |u.calls| == |w.calls| &&
            u.calls[i].phase.Ended? && (u.store, u.calls[i].phase.answer) ==
                                       DisableWith(w.store, w.calls[i].user, TypedOf(w.calls[i], matched))
  {
    hide PlayOn, Find, Cleared, Issued, Distinct;
    var m := WholeCall(i, matched);
    var w1 := Next(w, Look(i));
    var w2 := Next(w1, Load(i, matched));
    var w3 := Next(w2, TryStep(i));
    var w4 := Next(w3, TryCode(i));
    FourPlays(w, m, 0);
    PlayStep(w, m, 4);
    assert m[..5] == m;
  }

  /** The calls under way, over the rows as the database changes them. */
  class DisableDesk {
    const store: MfaStore
    var calls: seq<Call>

    ghost function State(): World
      reads this, store
    {
      World(store.State(), calls)
    }

    constructor (requests: seq<Request>)
      ensures State() == Begin(requests) && fresh(store)
    {
      store := new MfaStore();
      calls := seq(|requests|, i requires 0 <= i < |requests| => Call(requests[i].user, requests[i].code, Looking));
    }

    /** The unlocked read. */
    method LookAt(i: nat)
      requires i < |calls| && calls[i].phase.Looking?
      modifies this`calls
      ensures State() == Next(old(State()), Look(i))
    {
      var c := calls[i];
      var phase;
      if c.user !in store.totps {
        phase := Ended(NotEnrolled);
      } else if !store.totps[c.user].confirmed {
        phase := Admitted(SawPending);
      } else if c.code.None? {
        phase := Ended(InvalidCode);
      } else {
        phase := Coded;
      }
      calls := calls[i := c.(phase := phase)];
    }

    /** The verification reads the row again, to match the code against its secret. */
    method LoadFactor(i: nat, matched: Option<int>)
      requires i < |calls| && calls[i].phase.Coded?
      modifies this`calls
      ensures State() == Next(old(State()), Load(i, matched))
    {
      var c := calls[i];
      var known := c.user in store.totps && store.totps[c.user].confirmed;
      calls := calls[i := c.(phase := if known then Trying(matched, store.totps[c.user].enrolment) else Ended(NotEnrolled))];
    }

    method TryStepOf(i: nat)
      requires i < |calls| && calls[i].phase.Trying?
      modifies this`calls, store
      ensures State() == Next(old(State()), TryStep(i))
    {
      var c := calls[i];
      var phase := Redeeming;
      if c.phase.matched.Some? {
        var ok := store.AdvanceStep(c.user, c.phase.matched.value);
        if ok {
          phase := Admitted(StepOf(c.phase.read));
        }
      }
      calls := calls[i := c.(phase := phase)];
    }

    method TryCodeOf(i: nat)
      requires i < |calls| && calls[i].phase.Redeeming? && calls[i].code.Some?
      modifies this`calls, store
      ensures State() == Next(old(State()), TryCode(i))
    {
      var c := calls[i];
      var found := Find(store.codes, c.user, c.code.value);
      var phase := if found.Some? then Admitted(CodeOf(store.codes[found.value].enrolment)) else Ended(InvalidCode);
      var _ := store.RedeemCode(c.user, c.code.value);
      calls := calls[i := c.(phase := phase)];
    }

    /** The deleting transaction; it does not look at the row again. */
    method RemoveOf(i: nat)
      requires i < |calls| && calls[i].phase.Admitted?
      modifies this`calls, store
      ensures State() == Next(old(State()), Remove(i))
    {
      var c := calls[i];
      store.RemoveTotp(c.user);
      calls := calls[i := c.(phase := Ended(Disabled))];
    }
  }
}

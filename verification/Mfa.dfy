/** Two-factor state of users: enrolment, confirmation, monotone steps and single-use recovery codes.

    Every action is one guarded statement or one locked transaction. The step an action carries was matched earlier,
    against a row that may have changed since, so it is any number at all. */
module Mfa {
  import opened Options

  /** `enrolment` numbers the confirmations; a row before confirmation is pending. */
  datatype Totp = Totp(secret: nat, confirmed: bool, lastStep: int, enrolment: nat)

  /** Recovery codes by position; a deleted row stays behind as not live. The hash stands for the code, and `enrolment`
      numbers the confirmation it was issued with. */
  datatype Code = Code(user: nat, hash: nat, used: bool, live: bool, enrolment: nat)

  datatype Store = Store(totps: map<nat, Totp>, codes: seq<Code>, enrolments: nat)

  const EMPTY := Store(map[], [], 0)

  predicate IsConfirmed(s: Store, user: nat) {
    user in s.totps && s.totps[user].confirmed
  }

  predicate IsPending(s: Store, user: nat) {
    user in s.totps && !s.totps[user].confirmed
  }

  datatype Action =
    | Enroll(user: nat, secret: nat)
    | Confirm(user: nat, step: int, hashes: seq<nat>)
    | Advance(user: nat, step: int)
    | Redeem(user: nat, hash: nat)
    | Disable(user: nat)

  /** What an action did that counts: a step accepted in an enrolment, a recovery code spent. */
  datatype Event = Nothing | StepAccepted(enrolment: nat, step: int) | CodeSpent(code: nat)

  function Find(codes: seq<Code>, user: nat, hash: nat): (r: Option<nat>)
    ensures r.Some? ==> r.value < |codes| && codes[r.value].live && !codes[r.value].used && codes[r.value].user == user &&
                        codes[r.value].hash == hash
    ensures r.None? ==> forall i :: 0 <= i < |codes| ==>
              !(codes[i].live && !codes[i].used && codes[i].user == user && codes[i].hash == hash)
  {
    if codes == [] then None
    else
      var last := codes[|codes| - 1];
      if last.live && !last.used && last.user == user && last.hash == hash then Some(|codes| - 1)
      else Find(codes[..|codes| - 1], user, hash)
  }

  /** The rows of a user are deleted. */
  function Cleared(codes: seq<Code>, user: nat): (r: seq<Code>)
    ensures |r| == |codes|
    ensures forall i :: 0 <= i < |r| ==> r[i] == if codes[i].user == user then codes[i].(live := false) else codes[i]
  {
    seq(|codes|, i requires 0 <= i < |codes| => if codes[i].user == user then codes[i].(live := false) else codes[i])
  }

  function Issued(user: nat, hashes: seq<nat>, enrolment: nat): (r: seq<Code>)
    ensures |r| == |hashes| && forall i :: 0 <= i < |r| ==> r[i] == Code(user, hashes[i], false, true, enrolment)
  {
    seq(|hashes|, i requires 0 <= i < |hashes| => Code(user, hashes[i], false, true, enrolment))
  }

  predicate Distinct(hashes: seq<nat>) {
    forall i, j :: 0 <= i < j < |hashes| ==> hashes[i] != hashes[j]
  }

  function Step(s: Store, a: Action): (Store, Event) {
    match a
    case Enroll(user, secret) =>
      if user in s.totps && s.totps[user].confirmed then (s, Nothing)
      else (s.(totps := s.totps[user := Totp(secret, false, -1, 0)]), Nothing)
    case Confirm(user, step, hashes) =>
      if user !in s.totps || s.totps[user].confirmed || !Distinct(hashes) then (s, Nothing)
      else
        (Store(s.totps[user := s.totps[user].(confirmed := true, lastStep := step, enrolment := s.enrolments)],
               Cleared(s.codes, user) + Issued(user, hashes, s.enrolments), s.enrolments + 1),
         StepAccepted(s.enrolments, step))
    case Advance(user, step) =>
      if user !in s.totps || !s.totps[user].confirmed || s.totps[user].lastStep >= step then (s, Nothing)
      else (s.(totps := s.totps[user := s.totps[user].(lastStep := step)]), StepAccepted(s.totps[user].enrolment, step))
    case Redeem(user, hash) =>
      var found := Find(s.codes, user, hash);
      if found.None? then (s, Nothing)
      else (s.(codes := s.codes[found.value := s.codes[found.value].(used := true)]), CodeSpent(found.value))
    case Disable(user) => (s.(totps := s.totps - {user}, codes := Cleared(s.codes, user)), Nothing)
  }

  function Run(actions: seq<Action>): Store {
    if actions == [] then EMPTY else Step(Run(actions[..|actions| - 1]), actions[|actions| - 1]).0
  }

  function Log(actions: seq<Action>): (r: seq<Event>)
    ensures |r| == |actions|
  {
    if actions == [] then []
    else Log(actions[..|actions| - 1]) + [Step(Run(actions[..|actions| - 1]), actions[|actions| - 1]).1]
  }

  // ---- the invariant ----

  /** Enrolment numbers are used once: by at most one confirmed row, and never again. */
  predicate EnrolmentsOk(s: Store) {
    && (forall u :: u in s.totps && s.totps[u].confirmed ==> s.totps[u].enrolment < s.enrolments)
    && forall u, v :: u in s.totps && v in s.totps && u != v && s.totps[u].confirmed && s.totps[v].confirmed ==>
         s.totps[u].enrolment != s.totps[v].enrolment
  }

  /** Whatever was accepted stays below what may still be accepted. */
  predicate EventOk(s: Store, e: Event) {
    match e
    case Nothing => true
    case StepAccepted(enrolment, step) =>
      enrolment < s.enrolments &&
      forall u :: u in s.totps && s.totps[u].confirmed && s.totps[u].enrolment == enrolment ==> step <= s.totps[u].lastStep
    case CodeSpent(code) => code < |s.codes| && s.codes[code].used
  }

  predicate Ordered(a: Event, b: Event) {
    && (a.StepAccepted? && b.StepAccepted? && a.enrolment == b.enrolment ==> a.step < b.step)
    && (a.CodeSpent? && b.CodeSpent? ==> a.code != b.code)
  }

  predicate LogOk(s: Store, log: seq<Event>) {
    (forall i :: 0 <= i < |log| ==> EventOk(s, log[i])) && forall i, j :: 0 <= i < j < |log| ==> Ordered(log[i], log[j])
  }

  lemma {:induction false} StepKeepsEvent(s: Store, a: Action, e: Event)
    requires EnrolmentsOk(s) && EventOk(s, e)
    ensures EventOk(Step(s, a).0, e) && Ordered(e, Step(s, a).1)
  {
  }

  lemma {:induction false} StepKeepsEnrolments(s: Store, a: Action)
    requires EnrolmentsOk(s)
    ensures EnrolmentsOk(Step(s, a).0)
  {
    hide Cleared, Issued, Find;
  }

  lemma {:induction false} StepEventOk(s: Store, a: Action)
    requires EnrolmentsOk(s)
    ensures EventOk(Step(s, a).0, Step(s, a).1)
  {
  }

  lemma {:induction false} RunOk(actions: seq<Action>)
    ensures EnrolmentsOk(Run(actions)) && LogOk(Run(actions), Log(actions))
  {
    if actions != [] {
      var init, last := actions[..|actions| - 1], actions[|actions| - 1];
      RunOk(init);
      var s, log := Run(init), Log(init);
      StepEventOk(s, last);
      StepKeepsEnrolments(s, last);
      hide Step, EventOk, Ordered, EnrolmentsOk;
      forall i | 0 <= i < |log| ensures EventOk(Run(actions), log[i]) && Ordered(log[i], Step(s, last).1) {
        StepKeepsEvent(s, last, log[i]);
      }
    }
  }

  /** In every interleaving the steps accepted in one enrolment strictly increase, so none is accepted twice, and each
      recovery code is spent at most once. */
  lemma {:induction false} StepsIncreaseCodesOnce(actions: seq<Action>, i: nat, j: nat)
    requires i < j < |actions|
    ensures var a, b := Log(actions)[i], Log(actions)[j];
            && (a.StepAccepted? && b.StepAccepted? && a.enrolment == b.enrolment ==> a.step < b.step)
            && (a.CodeSpent? && b.CodeSpent? ==> a.code != b.code)
  {
    RunOk(actions);
    assert Ordered(Log(actions)[i], Log(actions)[j]);
  }

  function RunOn(s: Store, actions: seq<Action>): Store {
    if actions == [] then s else Step(RunOn(s, actions[..|actions| - 1]), actions[|actions| - 1]).0
  }

  // ---- of which secret an accepted code is ----

  /** This action confirms a factor of the user. */
  predicate Confirms(s: Store, a: Action, user: nat) {
    a.Confirm? && a.user == user && Step(s, a).1 != Nothing
  }

  /** One of these actions does, starting from `s`. */
  predicate ConfirmedIn(s: Store, actions: seq<Action>, user: nat) {
    actions != [] &&
    (ConfirmedIn(s, actions[..|actions| - 1], user) ||
     Confirms(RunOn(s, actions[..|actions| - 1]), actions[|actions| - 1], user))
  }

  /** An action leaves a confirmed factor only if it confirms one, under the next number, or there was one. */
  lemma {:induction false} ConfirmedByStep(s: Store, a: Action, user: nat)
    requires IsConfirmed(Step(s, a).0, user)
    ensures var row := Step(s, a).0.totps[user];
            if Confirms(s, a, user) then row.enrolment == s.enrolments
            else IsConfirmed(s, user) && row.enrolment == s.totps[user].enrolment && row.secret == s.totps[user].secret
  {
  }

  lemma {:induction false} NumbersGrow(s: Store, actions: seq<Action>)
    ensures RunOn(s, actions).enrolments >= s.enrolments
  {
    if actions != [] {
      NumbersGrow(s, actions[..|actions| - 1]);
    }
  }

  /** What a factor that is confirmed after some actions is: a new one if the user confirmed meanwhile, otherwise the same. */
  lemma {:induction false} FactorSince(s: Store, actions: seq<Action>, user: nat)
    requires IsConfirmed(RunOn(s, actions), user)
    ensures var row := RunOn(s, actions).totps[user];
            if ConfirmedIn(s, actions, user) then row.enrolment >= s.enrolments
            else IsConfirmed(s, user) && row.enrolment == s.totps[user].enrolment && row.secret == s.totps[user].secret
  {
    hide Step, Confirms;
    if actions != [] {
      var init := actions[..|actions| - 1];
      ConfirmedByStep(RunOn(s, init), actions[|actions| - 1], user);
      NumbersGrow(s, init);
      if IsConfirmed(RunOn(s, init), user) {
        FactorSince(s, init, user);
      }
    }
  }

  /** A code is matched against the secret of a confirmed row, and its step accepted later, by whatever row there is then.
      After every run, and whatever happens in between: the accepting enrolment is the one whose secret the code matched if
      and only if the user has not confirmed another one since the row was read. */
  lemma {:induction false} AcceptedForSecretReadIff(before: seq<Action>, between: seq<Action>, user: nat, step: int)
    requires IsConfirmed(Run(before), user)
    requires Step(RunOn(Run(before), between), Advance(user, step)).1 != Nothing
    ensures var s, t := Run(before), RunOn(Run(before), between);
            && IsConfirmed(t, user)
            && Step(t, Advance(user, step)).1 == StepAccepted(t.totps[user].enrolment, step)
            && (t.totps[user].enrolment == s.totps[user].enrolment <==> !ConfirmedIn(s, between, user))
            && (t.totps[user].enrolment == s.totps[user].enrolment ==> t.totps[user].secret == s.totps[user].secret)
  {
    hide Run, RunOn, ConfirmedIn;
    RunOk(before);
    FactorSince(Run(before), between, user);
  }

  /** The secret of the last of these actions that starts an enrolment of the user, if one does. */
  function LastEnrolled(s: Store, actions: seq<Action>, user: nat): Option<nat> {
    if actions == [] then None
    else
      var init, last := actions[..|actions| - 1], actions[|actions| - 1];
      if last.Enroll? && last.user == user && !IsConfirmed(RunOn(s, init), user) then Some(last.secret)
      else LastEnrolled(s, init, user)
  }

  lemma {:induction false} PendingByStep(s: Store, a: Action, user: nat)
    requires IsPending(Step(s, a).0, user)
    ensures var row := Step(s, a).0.totps[user];
            if a.Enroll? && a.user == user && !IsConfirmed(s, user) then row.secret == a.secret
            else IsPending(s, user) && row.secret == s.totps[user].secret
  {
  }

  lemma {:induction false} PendingSince(s: Store, actions: seq<Action>, user: nat)
    requires IsPending(RunOn(s, actions), user)
    ensures var row, last := RunOn(s, actions).totps[user], LastEnrolled(s, actions, user);
            if last.Some? then row.secret == last.value else IsPending(s, user) && row.secret == s.totps[user].secret
  {
    hide Step, IsConfirmed;
    if actions != [] {
      var init := actions[..|actions| - 1];
      PendingByStep(RunOn(s, init), actions[|actions| - 1], user);
      if IsPending(RunOn(s, init), user) {
        PendingSince(s, init, user);
      }
    }
  }

  /** A confirmation matches its code against the secret of the pending row it reads first, and then confirms whatever
      pending row there is. From any state, and whatever happens in between: the secret that it confirms is the one its
      code matched if and only if the last enrolment started meanwhile, if there is one, has that secret again. */
  lemma {:induction false} ConfirmsSecretReadIff(s: Store, between: seq<Action>, user: nat, step: int, hashes: seq<nat>)
    requires IsPending(s, user) && Confirms(RunOn(s, between), Confirm(user, step, hashes), user)
    ensures var u, last := Step(RunOn(s, between), Confirm(user, step, hashes)).0, LastEnrolled(s, between, user);
            IsConfirmed(u, user) && (u.totps[user].secret == s.totps[user].secret <==> last.None? || last.value == s.totps[user].secret)
  {
    hide RunOn, LastEnrolled;
    PendingSince(s, between, user);
  }

  /** The input that shows the second: a pending row with the secret `a` is read, replaced by one with `b`, and a code of `a`
      confirms `b`. */
  lemma {:induction false} StaleCodeConfirms(a: nat, b: nat, step: int)
    requires a != b
    ensures var s, between := Run([Enroll(0, a)]), [Enroll(0, b)];
            && IsPending(s, 0) && s.totps[0].secret == a
            && Confirms(RunOn(s, between), Confirm(0, step, []), 0)
            && Step(RunOn(s, between), Confirm(0, step, [])).0.totps == map[0 := Totp(b, true, step, 0)]
  {
    var before, between := [Enroll(0, a)], [Enroll(0, b)];
    assert before[..0] == [] && between[..0] == [];
    assert Run(before) == Store(map[0 := Totp(a, false, -1, 0)], [], 0);
    assert RunOn(Run(before), between) == Store(map[0 := Totp(b, false, -1, 0)], [], 0);
  }

  /** The input that shows the first: a factor with `a` is read and disabled, and a step of `a` is accepted for the factor
      with `b` that comes after it. */
  lemma {:induction false} StaleStepAccepted(a: nat, b: nat, step: int)
    requires a != b
    ensures var s := Run([Enroll(0, a), Confirm(0, step, [])]);
            var t := RunOn(s, [Disable(0), Enroll(0, b), Confirm(0, step + 1, [])]);
            && IsConfirmed(s, 0) && s.totps[0].secret == a
            && Step(t, Advance(0, step + 2)).1 == StepAccepted(1, step + 2) && t.totps == map[0 := Totp(b, true, step + 1, 1)]
  {
    var before, between := [Enroll(0, a), Confirm(0, step, [])], [Disable(0), Enroll(0, b), Confirm(0, step + 1, [])];
    assert before[..1] == [Enroll(0, a)] && before[..1][..0] == [];
    assert Run(before[..1]) == Store(map[0 := Totp(a, false, -1, 0)], [], 0);
    var s := Run(before);
    assert s == Store(map[0 := Totp(a, true, step, 0)], [], 1);
    assert between[..2][..1] == between[..1] == [Disable(0)] && between[..1][..0] == [];
    assert RunOn(s, between[..1]) == Store(map[], [], 1);
    assert RunOn(s, between[..2]) == Store(map[0 := Totp(b, false, -1, 0)], [], 1);
    assert RunOn(s, between) == Store(map[0 := Totp(b, true, step + 1, 1)], [], 2);
  }

  // ---- what is accepted after a disabling ----

  /** Nothing of the user can be accepted: no confirmed factor, no live recovery code. */
  predicate Barred(s: Store, user: nat) {
    && !IsConfirmed(s, user)
    && forall i :: 0 <= i < |s.codes| && s.codes[i].user == user ==> !s.codes[i].live
  }

  lemma {:induction false} StaysBarred(s: Store, user: nat, a: Action)
    requires Barred(s, user) && !(a.Confirm? && a.user == user)
    ensures Barred(Step(s, a).0, user)
  {
  }

  lemma {:induction false} BarredThroughRun(s: Store, user: nat, actions: seq<Action>)
    requires Barred(s, user) && forall i :: 0 <= i < |actions| ==> !(actions[i].Confirm? && actions[i].user == user)
    ensures Barred(RunOn(s, actions), user)
  {
    if actions != [] {
      BarredThroughRun(s, user, actions[..|actions| - 1]);
      hide Step, Barred;
      StaysBarred(RunOn(s, actions[..|actions| - 1]), user, actions[|actions| - 1]);
    }
  }

  /** After a user's factor is disabled nothing of it is accepted, whatever else happens, until a new enrolment of that
      user is confirmed. */
  lemma {:induction false} DisabledAcceptsNothing(s: Store, user: nat, after: seq<Action>, step: int, hash: nat)
    requires forall i :: 0 <= i < |after| ==> !(after[i].Confirm? && after[i].user == user)
    ensures var t := RunOn(Step(s, Disable(user)).0, after);
            Step(t, Advance(user, step)) == (t, Nothing) && Step(t, Redeem(user, hash)) == (t, Nothing)
  {
    BarredThroughRun(Step(s, Disable(user)).0, user, after);
  }

  /** What was typed in: the time step it matched, if any, and its hash as a recovery code. */
  datatype Typed = Typed(matched: Option<int>, hash: nat)

  /** A typed code counts as a time step if that moves forward, or else as a recovery code. */
  function Verify(s: Store, user: nat, code: Typed): (Store, Event) {
    if !IsConfirmed(s, user) then (s, Nothing)
    else if code.matched.Some? && Step(s, Advance(user, code.matched.value)).1 != Nothing then
      Step(s, Advance(user, code.matched.value))
    else Step(s, Redeem(user, code.hash))
  }

  datatype DisableAnswer = Disabled | NotEnrolled | InvalidCode

  /** Disabling with nothing in between: only a pending enrolment is dropped without a code. */
  function DisableWith(s: Store, user: nat, code: Option<Typed>): (Store, DisableAnswer) {
    if user !in s.totps then (s, NotEnrolled)
    else if IsPending(s, user) then (Step(s, Disable(user)).0, Disabled)
    else if code.None? || Verify(s, user, code.value).1 == Nothing then (s, InvalidCode)
    else (Step(Verify(s, user, code.value).0, Disable(user)).0, Disabled)
  }

  /** A confirmed factor is disabled exactly by a time step newer than all accepted ones or by one of the user's unspent
      recovery codes, and is then gone; any other attempt changes nothing. */
  lemma {:induction false} DisabledOnlyByCode(s: Store, user: nat, code: Option<Typed>)
    requires IsConfirmed(s, user)
    ensures var (t, answer) := DisableWith(s, user, code);
            && (answer == Disabled <==>
                  code.Some? &&
                  ((code.value.matched.Some? && code.value.matched.value > s.totps[user].lastStep) ||
                   exists i :: 0 <= i < |s.codes| && s.codes[i].user == user && s.codes[i].live && !s.codes[i].used &&
                               s.codes[i].hash == code.value.hash))
            && (answer == Disabled ==> Barred(t, user))
            && (answer != Disabled ==> t == s)
  {
  }

  /** The rows as the database changes them. */
  class MfaStore {
    var totps: map<nat, Totp>
    var codes: seq<Code>
    var enrolments: nat

    ghost function State(): Store
      reads this
    {
      Store(totps, codes, enrolments)
    }

    constructor ()
      ensures State() == EMPTY
    {
      totps, codes, enrolments := map[], [], 0;
    }

    /** A pending enrolment may be replaced; a confirmed one is refused. */
    method EnrollTotp(user: nat, secret: nat) returns (ok: bool)
      modifies this`totps
      ensures State() == Step(old(State()), Enroll(user, secret)).0
      ensures ok <==> !(user in old(totps) && old(totps)[user].confirmed)
    {
      if user in totps && totps[user].confirmed {
        return false;
      }
      totps := totps[user := Totp(secret, false, -1, 0)];
      return true;
    }

    method ClearCodes(user: nat)
      modifies this`codes
      ensures codes == Cleared(old(codes), user)
    {
      var i := 0;
      while i < |codes|
        invariant i <= |codes| == |old(codes)|
        invariant forall j :: 0 <= j < |codes| ==>
                    codes[j] == if j < i && old(codes)[j].user == user then old(codes)[j].(live := false) else old(codes)[j]
      {
        if codes[i].user == user {
          codes := codes[i := codes[i].(live := false)];
        }
        i := i + 1;
      }
    }

    /** Only a pending row is confirmed; the old codes go, the new ones come, all or nothing. */
    method ConfirmTotp(user: nat, step: int, hashes: seq<nat>) returns (ok: bool)
      modifies this
      ensures (State(), if ok then StepAccepted(old(enrolments), step) else Nothing) == Step(old(State()), Confirm(user, step, hashes))
    {
      if user !in totps || totps[user].confirmed {
        return false;
      }
      if exists i, j :: 0 <= i < j < |hashes| && hashes[i] == hashes[j] {
        return false;
      }
      totps := totps[user := totps[user].(confirmed := true, lastStep := step, enrolment := enrolments)];
      ClearCodes(user);
      codes := codes + Issued(user, hashes, enrolments);
      enrolments := enrolments + 1;
      return true;
    }

    /** The step only moves forward. */
    method AdvanceStep(user: nat, step: int) returns (ok: bool)
      modifies this`totps
      ensures State() == Step(old(State()), Advance(user, step)).0
      ensures ok <==> Step(old(State()), Advance(user, step)).1 != Nothing
    {
      if user !in totps || !totps[user].confirmed || !(totps[user].lastStep < step) {
        return false;
      }
      totps := totps[user := totps[user].(lastStep := step)];
      return true;
    }

    method RedeemCode(user: nat, hash: nat) returns (ok: bool)
      modifies this`codes
      ensures State() == Step(old(State()), Redeem(user, hash)).0
      ensures ok <==> Step(old(State()), Redeem(user, hash)).1 != Nothing
    {
      var found := Find(codes, user, hash);
      if found.None? {
        return false;
      }
      codes := codes[found.value := codes[found.value].(used := true)];
      return true;
    }

    method VerifyMfa(user: nat, code: Typed) returns (ok: bool)
      modifies this`totps, this`codes
      ensures State() == Verify(old(State()), user, code).0
      ensures ok <==> Verify(old(State()), user, code).1 != Nothing
    {
      if user !in totps || !totps[user].confirmed {
        return false;
      }
      if code.matched.Some? {
        ok := AdvanceStep(user, code.matched.value);
        if ok {
          return;
        }
      }
      ok := RedeemCode(user, code.hash);
    }

    /** The transaction that ends a disabling: whatever row there is goes, with all codes. */
    method RemoveTotp(user: nat)
      modifies this`totps, this`codes
      ensures State() == Step(old(State()), Disable(user)).0
    {
      totps := totps - {user};
      ClearCodes(user);
    }

    /** A disabling that nothing interrupts: a confirmed factor asks for a code first. */
    method DisableTotp(user: nat, code: Option<Typed>) returns (answer: DisableAnswer)
      modifies this`totps, this`codes
      ensures (State(), answer) == DisableWith(old(State()), user, code)
    {
      if user !in totps {
        return NotEnrolled;
      }
      if totps[user].confirmed {
        if code.None? {
          return InvalidCode;
        }
        var ok := VerifyMfa(user, code.value);
        if !ok {
          return InvalidCode;
        }
      }
      RemoveTotp(user);
      return Disabled;
    }
  }
}

/** One-time challenges: begun under a cooldown, verified by a single counted compare-and-set, aborted at will. */
module Challenge {
  import opened Options

  /** `target` is an identifier or a user; the salted hash stands for the code. */
  datatype Challenge = Challenge(kind: string, target: string, code: string, attempts: nat, maxAttempts: nat, issuedAt: int,
                                 expiresAt: int, consumed: bool, aborted: bool)

  type Table = seq<Challenge>

  datatype Action =
    | Begin(kind: string, target: string, code: string, ttlMs: int, cooldownMs: int, maxAttempts: int, now: int)
    | Verify(id: nat, code: string, now: int)
    | AbortOne(id: nat)

  datatype Answer = Begun(id: nat) | InvalidInput | Cooldown | Correct | Wrong(remaining: nat) | Invalid | Aborted(changed: bool)

  predicate Live(c: Challenge) {
    !c.consumed && !c.aborted
  }

  predicate InBounds(a: Action)
    requires a.Begin?
  {
    1_000 <= a.ttlMs <= 86_400_000 && 0 <= a.cooldownMs <= 3_600_000 && 1 <= a.maxAttempts <= 100
  }

  /** The live challenge of a kind and target. */
  function FindLive(t: Table, kind: string, target: string): (r: Option<nat>)
    ensures r.Some? ==> r.value < |t| && Live(t[r.value]) && t[r.value].kind == kind && t[r.value].target == target
    ensures r.None? ==> forall i :: 0 <= i < |t| ==> !(Live(t[i]) && t[i].kind == kind && t[i].target == target)
  {
    if t == [] then None
    else
      var last := t[|t| - 1];
      if Live(last) && last.kind == kind && last.target == target then Some(|t| - 1) else FindLive(t[..|t| - 1], kind, target)
  }

  function NewChallenge(a: Action): Challenge
    requires a.Begin? && a.maxAttempts >= 1
  {
    Challenge(a.kind, a.target, a.code, 0, a.maxAttempts, a.now, a.now + a.ttlMs, false, false)
  }

  /** May still be answered: live, not expired, attempts left. */
  predicate Answerable(c: Challenge, now: int) {
    Live(c) && c.expiresAt > now && c.attempts < c.maxAttempts
  }

  function Step(t: Table, a: Action): (Table, Answer) {
    match a
    case Begin(kind, target, _, _, cooldownMs, _, now) =>
      if !InBounds(a) then (t, InvalidInput)
      else
        var live := FindLive(t, kind, target);
        if live.None? then (t + [NewChallenge(a)], Begun(|t|))
        else if t[live.value].issuedAt > now - cooldownMs then (t, Cooldown)
        else (t[live.value := t[live.value].(aborted := true)] + [NewChallenge(a)], Begun(|t|))
    case Verify(id, code, now) =>
      if id >= |t| || !Answerable(t[id], now) then (t, Invalid)
      else
        var c := t[id].(attempts := t[id].attempts + 1, consumed := t[id].code == code);
        (t[id := c], if c.consumed then Correct else Wrong(c.maxAttempts - c.attempts))
    case AbortOne(id) =>
      if id >= |t| || !Live(t[id]) then (t, Aborted(false)) else (t[id := t[id].(aborted := true)], Aborted(true))
  }

  function Run(actions: seq<Action>): Table {
    if actions == [] then [] else Step(Run(actions[..|actions| - 1]), actions[|actions| - 1]).0
  }

  // ---- the invariant ----

  predicate ChallengeOk(c: Challenge) {
    c.attempts <= c.maxAttempts && !(c.consumed && c.aborted) && 1 <= c.maxAttempts <= 100 && c.issuedAt < c.expiresAt
  }

  predicate OneLive(t: Table) {
    forall i, j :: 0 <= i < j < |t| && t[i].kind == t[j].kind && t[i].target == t[j].target ==> !(Live(t[i]) && Live(t[j]))
  }

  predicate TableOk(t: Table) {
    (forall i :: 0 <= i < |t| ==> ChallengeOk(t[i])) && OneLive(t)
  }

  lemma {:induction false} StepKeepsTable(t: Table, a: Action)
    requires TableOk(t)
    ensures TableOk(Step(t, a).0) && |t| <= |Step(t, a).0|
  {
  }

  /** In every reachable state a kind and target have one live challenge at most, attempts respect the limit, and no
      challenge is both consumed and aborted. */
  lemma {:induction false} AlwaysOk(actions: seq<Action>)
    ensures TableOk(Run(actions))
  {
    if actions != [] {
      AlwaysOk(actions[..|actions| - 1]);
      hide Step, TableOk;
      StepKeepsTable(Run(actions[..|actions| - 1]), actions[|actions| - 1]);
    }
  }

  // ---- over time ----

  /** One challenge through one action: its code and limit stay, attempts only grow, an end state stays, and it is
      consumed only by a verification with its own code. */
  predicate Later(c: Challenge, d: Challenge) {
    && d.code == c.code && d.maxAttempts == c.maxAttempts && c.attempts <= d.attempts
    && (!Live(c) ==> d.consumed == c.consumed && d.aborted == c.aborted && d.attempts == c.attempts)
    && (d.consumed && !c.consumed ==> c.attempts < c.maxAttempts)
  }

  lemma {:induction false} StepLater(t: Table, a: Action, i: nat)
    requires TableOk(t) && i < |t|
    ensures |t| <= |Step(t, a).0| && Later(t[i], Step(t, a).0[i])
    ensures Step(t, a).0[i].consumed && !t[i].consumed ==> a.Verify? && a.id == i && a.code == t[i].code && Step(t, a).1 == Correct
    ensures a.Verify? && a.id == i && Step(t, a).1 == Correct ==> !t[i].consumed && Step(t, a).0[i].consumed && a.code == t[i].code
    ensures a.Verify? && a.id == i && Step(t, a).1.Wrong? ==> Step(t, a).0[i].attempts == t[i].attempts + 1 && a.code != t[i].code
  {
  }

  /** How often a challenge was answered correctly in a run. */
  function Successes(actions: seq<Action>, id: nat): nat {
    if actions == [] then 0
    else
      var init, last := actions[..|actions| - 1], actions[|actions| - 1];
      Successes(init, id) + if last.Verify? && last.id == id && Step(Run(init), last).1 == Correct then 1 else 0
  }

  function Failures(actions: seq<Action>, id: nat): nat {
    if actions == [] then 0
    else
      var init, last := actions[..|actions| - 1], actions[|actions| - 1];
      Failures(init, id) + if last.Verify? && last.id == id && Step(Run(init), last).1.Wrong? then 1 else 0
  }

  lemma {:induction false} NoneYet(t: Table, a: Action, id: nat)
    requires id >= |t|
    ensures a.Verify? && a.id == id ==> Step(t, a).1 == Invalid
    ensures id < |Step(t, a).0| ==> !Step(t, a).0[id].consumed && Step(t, a).0[id].attempts == 0
  {
  }

  /** Counting answers: a challenge is consumed at most once, and every attempt is a success or a failure. */
  lemma {:induction false} AnswersCounted(actions: seq<Action>, id: nat)
    ensures var t := Run(actions);
            && Successes(actions, id) == (if id < |t| && t[id].consumed then 1 else 0)
            && Successes(actions, id) + Failures(actions, id) == (if id < |t| then t[id].attempts else 0)
  {
    if actions != [] {
      var init, last := actions[..|actions| - 1], actions[|actions| - 1];
      AnswersCounted(init, id);
      AlwaysOk(init);
      if id < |Run(init)| {
        StepLater(Run(init), last, id);
        AttemptCounts(Run(init), last, id);
        hide Step;
      } else {
        NoneYet(Run(init), last, id);
        hide Step;
      }
    }
  }

  lemma {:induction false} AttemptCounts(t: Table, a: Action, i: nat)
    requires TableOk(t) && i < |t|
    ensures var (u, answer) := Step(t, a);
            i < |u| && u[i].attempts == t[i].attempts +
              if a.Verify? && a.id == i && (answer == Correct || answer.Wrong?) then 1 else 0
  {
  }

  /** A challenge is consumed at most once, and only by its own code. */
  lemma {:induction false} ConsumedOnceByItsCode(before: seq<Action>, a: Action, id: nat)
    requires a.Verify? && a.id == id && Step(Run(before), a).1 == Correct
    ensures id < |Run(before)| && a.code == Run(before)[id].code && Successes(before, id) == 0
  {
    AlwaysOk(before);
    AnswersCounted(before, id);
    if id < |Run(before)| {
      StepLater(Run(before), a, id);
    } else {
      NoneYet(Run(before), a, id);
    }
  }

  /** After as many wrong codes as the limit allows, no code ever succeeds. */
  lemma {:induction false} ExhaustedNeverSucceeds(actions: seq<Action>, id: nat, code: string, now: int)
    requires id < |Run(actions)| && Failures(actions, id) >= Run(actions)[id].maxAttempts
    ensures Failures(actions, id) == Run(actions)[id].maxAttempts && Step(Run(actions), Verify(id, code, now)).1 == Invalid
  {
    AlwaysOk(actions);
    AnswersCounted(actions, id);
  }

  /** The table as the verbs change it. */
  class ChallengeStore {
    var rows: seq<Challenge>

    constructor ()
      ensures rows == []
    {
      rows := [];
    }

    /** Replaces a challenge that has cooled down; refuses while it has not. */
    method BeginChallenge(kind: string, target: string, code: string, ttlMs: int, cooldownMs: int, maxAttempts: int, now: int)
      returns (answer: Answer)
      modifies this
      ensures (rows, answer) == Step(old(rows), Begin(kind, target, code, ttlMs, cooldownMs, maxAttempts, now))
    {
      if ttlMs < 1_000 || ttlMs > 86_400_000 || cooldownMs < 0 || cooldownMs > 3_600_000 || maxAttempts < 1 || maxAttempts > 100 {
        return InvalidInput;
      }
      var live := FindLive(rows, kind, target);
      if live.Some? {
        var row := rows[live.value];
        if !(row.issuedAt <= now - cooldownMs) {
          return Cooldown;
        }
        rows := rows[live.value := row.(aborted := true)];
      }
      rows := rows + [Challenge.Challenge(kind, target, code, 0, maxAttempts, now, now + ttlMs, false, false)];
      return Begun(|rows| - 1);
    }

    /** One statement counts the attempt and consumes the challenge when the code is right. */
    method VerifyChallenge(id: nat, code: string, now: int) returns (answer: Answer)
      modifies this
      ensures (rows, answer) == Step(old(rows), Verify(id, code, now))
    {
      if id >= |rows| || rows[id].consumed || rows[id].aborted || rows[id].expiresAt <= now ||
         rows[id].attempts >= rows[id].maxAttempts
      {
        return Invalid;
      }
      var row := rows[id].(attempts := rows[id].attempts + 1);
      if row.code == code {
        row := row.(consumed := true);
      }
      rows := rows[id := row];
      if row.consumed {
        return Correct;
      }
      return Wrong(row.maxAttempts - row.attempts);
    }

    method AbortChallenge(id: nat) returns (answer: Answer)
      modifies this
      ensures (rows, answer) == Step(old(rows), AbortOne(id))
    {
      if id >= |rows| || rows[id].consumed || rows[id].aborted {
        return Aborted(false);
      }
      rows := rows[id := rows[id].(aborted := true)];
      return Aborted(true);
    }
  }
}

/** Progress of the expiry scan: how many calls it takes to clear what is due, oldest first. */
module WalletExpiry {
  import opened Options
  import opened WalletTypes
  import opened WalletSpec
  import opened WalletAudit
  import OrderedQuery

  lemma {:induction false} OneFewerDue(holds: seq<Hold>, env: Env, i: nat, h: Hold)
    requires i < |holds| && Due(holds[i], env.now) && i !in env.skip && h.status != Active
    ensures |DueItems(holds[i := h], env)| == |DueItems(holds, env)| - 1
  {
    var last := |holds| - 1;
    if i < last {
      assert holds[i := h][..last] == holds[..last][i := h];
      OneFewerDue(holds[..last], env, i, h);
    } else {
      assert holds[i := h][..last] == holds[..last];
    }
  }

  lemma {:induction false} BatchFewerDue(holds: seq<Hold>, env: Env, ids: seq<nat>)
    requires Expirable(holds, ids)
    requires forall i :: 0 <= i < |ids| ==> Due(holds[ids[i]], env.now) && ids[i] !in env.skip
    ensures |DueItems(ExpireHolds(holds, SetOf(ids)), env)| == |DueItems(holds, env)| - |ids|
  {
    if ids == [] {
      assert ExpireHolds(holds, SetOf(ids)) == holds;
    } else {
      var init, i := ids[..|ids| - 1], ids[|ids| - 1];
      ExpireOneMore(holds, ids);
      BatchFewerDue(holds, env, init);
      OneFewerDue(ExpireHolds(holds, SetOf(init)), env, i, holds[i].(status := Expired, releaseReason := Some(EXPIRED)));
    }
  }

  function Left(n: nat, limit: nat): nat {
    if n <= limit then 0 else n - limit
  }

  lemma {:induction false} ChosenDue(t: Tables, limit: nat, env: Env)
    requires HoldsWf(t)
    ensures var ids := ScanChosen(t, limit, env);
            && Expirable(t.holds, ids)
            && |ids| == |DueItems(t.holds, env)| - Left(|DueItems(t.holds, env)|, limit)
            && forall i :: 0 <= i < |ids| ==>
                 Due(t.holds[ids[i]], env.now) && ids[i] !in env.skip && t.holds[ids[i]].account in t.accounts
  {
    var items, ids := DueItems(t.holds, env), ScanChosen(t, limit, env);
    ScanChosenSound(t, limit, env);
    DueItemsSound(t.holds, env);
    OrderedQuery.FirstIdsSound(items, limit);
    hide DueItems, ScanChosen, OrderedQuery.FirstIds;
    forall i | 0 <= i < |ids| ensures t.holds[ids[i]].account in t.accounts && ids[i] !in env.skip {
      assert HoldWf(t, t.holds[ids[i]]);
      assert ids[i] in OrderedQuery.IdSet(items);
    }
  }

  /** One scan takes as many due, unlocked holds as the limit allows, and reports that number. */
  lemma {:induction false} ScanTakes(t: Tables, limit: nat, env: Env)
    requires HoldsWf(t)
    ensures var n := |DueItems(t.holds, env)|;
            var (u, end) := ScanTx(t, limit, env);
            && end == Committed(ScanReceipt(n - Left(n, limit)), false)
            && |DueItems(u.holds, env)| == Left(n, limit)
  {
    hide DueItems, ScanChosen, HoldsWf, Due;
    ChosenDue(t, limit, env);
    BatchFewerDue(t.holds, env, ScanChosen(t, limit, env));
  }

  function DueCount(t: Tables, now: int): nat {
    |DueItems(t.holds, Env(now, {}))|
  }

  lemma {:induction false} ScanStepTakes(cfg: Config, t: Tables, limit: nat, now: int)
    requires cfg.Valid() && Inv(t) && 1 <= limit <= 1000
    ensures DueCount(Step(cfg, t, ReleaseExpired(limit), Env(now, {})).0, now) == Left(DueCount(t, now), limit)
  {
    hide DueItems, ScanTx, HoldsWf, AllCovered;
    ScanTakes(t, limit, Env(now, {}));
  }

  /** `count` calls of the maintenance scan at one clock reading. */
  function ScanEvents(limit: nat, now: int, count: nat): seq<Event> {
    if count == 0 then [] else ScanEvents(limit, now, count - 1) + [Event(ReleaseExpired(limit), Env(now, {}))]
  }

  /** How many holds `count` scans can take together. */
  function Capacity(limit: nat, count: nat): nat {
    if count == 0 then 0 else Capacity(limit, count - 1) + limit
  }

  lemma {:induction false} ScansLeave(cfg: Config, events: seq<Event>, limit: nat, now: int, count: nat)
    requires cfg.Valid() && 1 <= limit <= 1000
    ensures DueCount(Run(cfg, EMPTY, events + ScanEvents(limit, now, count)), now) ==
            Left(DueCount(Run(cfg, EMPTY, events), now), Capacity(limit, count))
  {
    hide DueCount, Step;
    if count == 0 {
      assert events + ScanEvents(limit, now, count) == events;
    } else {
      var init, more := events + ScanEvents(limit, now, count - 1), events + ScanEvents(limit, now, count);
      assert more[..|more| - 1] == init;
      ScansLeave(cfg, events, limit, now, count - 1);
      RunKeepsInv(cfg, init);
      ScanStepTakes(cfg, Run(cfg, EMPTY, init), limit, now);
    }
  }

  function CeilDiv(n: nat, limit: nat): nat
    requires limit >= 1
  {
    (n + limit - 1) / limit
  }

  lemma {:induction false} CapacityIsProduct(limit: nat, count: nat)
    ensures Capacity(limit, count) == count * limit
  {
    if count > 0 {
      CapacityIsProduct(limit, count - 1);
    }
  }

  lemma {:induction false} TimesMonotone(a: int, b: int, limit: nat)
    requires a <= b
    ensures a * limit <= b * limit
  {
  }

  lemma {:induction false} CeilBounds(n: nat, limit: nat)
    requires limit >= 1
    ensures n <= CeilDiv(n, limit) * limit < n + limit
  {
    var m := n + limit - 1;
    assert m == (m / limit) * limit + m % limit;
  }

  lemma {:induction false} CapacityReaches(n: nat, limit: nat, count: nat)
    requires limit >= 1
    ensures n <= Capacity(limit, count) <==> count >= CeilDiv(n, limit)
  {
    hide CeilDiv;
    var q := CeilDiv(n, limit);
    CapacityIsProduct(limit, count);
    CeilBounds(n, limit);
    if count >= q {
      TimesMonotone(q, count, limit);
    } else {
      TimesMonotone(count + 1, q, limit);
      assert (count + 1) * limit == count * limit + limit;
    }
  }

  /** Repeated scans with limit L clear n due holds in exactly ceil(n / L) calls. */
  lemma {:induction false} ScansClearInCeil(cfg: Config, events: seq<Event>, limit: nat, now: int, count: nat)
    requires cfg.Valid() && 1 <= limit <= 1000
    ensures DueCount(Run(cfg, EMPTY, events + ScanEvents(limit, now, count)), now) == 0 <==>
            count >= CeilDiv(DueCount(Run(cfg, EMPTY, events), now), limit)
  {
    hide DueCount, CeilDiv, Capacity, Run;
    ScansLeave(cfg, events, limit, now, count);
    CapacityReaches(DueCount(Run(cfg, EMPTY, events), now), limit, count);
  }

  /** No due hold is passed over for a later one. */
  lemma {:induction false} OldestFirst(t: Tables, limit: nat, env: Env, i: nat, j: nat)
    requires i in ScanChosen(t, limit, env)
    requires j < |t.holds| && Due(t.holds[j], env.now) && j !in env.skip && j !in ScanChosen(t, limit, env)
    ensures i < |t.holds| && t.holds[i].expiresAt.Some? && t.holds[i].expiresAt.value <= t.holds[j].expiresAt.value
  {
    var items := DueItems(t.holds, env);
    DueItemsSound(t.holds, env);
    DueListed(t.holds, env, j);
    DueKeys(t.holds, env);
    OrderedQuery.FirstIdsAreFirst(items, limit, i, OrderedQuery.Item(j, OrderedQuery.At(t.holds[j].expiresAt.value), 0));
  }

  lemma {:induction false} DueListed(holds: seq<Hold>, env: Env, j: nat)
    requires j < |holds| && Due(holds[j], env.now) && j !in env.skip
    ensures OrderedQuery.Item(j, OrderedQuery.At(holds[j].expiresAt.value), 0) in DueItems(holds, env)
  {
    if j < |holds| - 1 {
      DueListed(holds[..|holds| - 1], env, j);
    }
  }

  lemma {:induction false} DueKeys(holds: seq<Hold>, env: Env)
    ensures forall x :: x in DueItems(holds, env) ==>
              x.id < |holds| && x.key.At? && holds[x.id].expiresAt == Some(x.key.value)
  {
    if holds != [] {
      DueKeys(holds[..|holds| - 1], env);
    }
  }
}

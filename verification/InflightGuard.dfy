/** The per-tenant in-flight guard: SET NX with a TTL, and an unconditional DEL. */
module InflightGuard {
  const INFLIGHT_TTL_SECONDS: nat := 120
  const TTL_MS: nat := INFLIGHT_TTL_SECONDS * 1000

  /** Expiry instants by tenant, as Redis holds them. */
  type Guards = map<string, nat>

  predicate Free(guards: Guards, tenant: string, at: nat) {
    tenant in guards ==> guards[tenant] <= at
  }

  // ---- Interleavings of callers ----

  datatype Event =
    | Acquire(caller: int, tenant: string, at: nat)
    | Release(caller: int, tenant: string, at: nat)
    | Die(caller: int, at: nat)   // the caller's process ends without releasing

  /** A call between its successful acquire and its release. */
  datatype Hold = Hold(caller: int, tenant: string, since: nat)

  datatype State = State(guards: Guards, holds: set<Hold>)

  const IDLE := State(map[], {})

  function HoldsOf(s: State, caller: int, tenant: string): set<Hold> {
    set h | h in s.holds && h.caller == caller && h.tenant == tenant
  }

  function Step(s: State, e: Event): State {
    match e
    case Acquire(c, t, at) =>
      if Free(s.guards, t, at) then State(s.guards[t := at + TTL_MS], s.holds + {Hold(c, t, at)}) else s
    case Release(c, t, _) => State(s.guards - {t}, s.holds - HoldsOf(s, c, t))
    case Die(c, _) => State(s.guards, set h | h in s.holds && h.caller != c)
  }

  /** Redis together with, for the proofs only, the calls between acquire and release. */
  class Redis {
    var guards: Guards
    ghost var holds: set<Hold>

    ghost function Now(): State
      reads this
    {
      State(guards, holds)
    }

    /** SET NX with a TTL. */
    method AcquireInflight(caller: int, tenant: string, at: nat) returns (acquired: bool)
      modifies this
      ensures Now() == Step(old(Now()), Acquire(caller, tenant, at))
      ensures acquired <==> Free(old(guards), tenant, at)
    {
      acquired := Free(guards, tenant, at);
      if acquired {
        guards := guards[tenant := at + TTL_MS];
        holds := holds + {Hold(caller, tenant, at)};
      }
    }

    /** An unconditional DEL. */
    method ReleaseInflight(caller: int, tenant: string, at: nat)
      modifies this
      ensures Now() == Step(old(Now()), Release(caller, tenant, at))
    {
      guards := guards - {tenant};
      holds := holds - HoldsOf(Now(), caller, tenant);
    }
  }

  function After(run: seq<Event>): State {
    if run == [] then IDLE else Step(After(run[..|run| - 1]), run[|run| - 1])
  }

  // ---- Exactly when calls of a tenant exclude each other ----

  /** At most one call of the tenant is in flight. */
  ghost predicate Exclusive(s: State, tenant: string) {
    forall h, h' :: h in s.holds && h' in s.holds && h.tenant == tenant && h'.tenant == tenant ==> h == h'
  }

  ghost predicate ExclusiveThroughout(run: seq<Event>, tenant: string) {
    && Exclusive(After(run), tenant)
    && (run != [] ==> ExclusiveThroughout(run[..|run| - 1], tenant))
  }

  /** Only a call that acquired the tenant's guard releases it. */
  ghost predicate OwnReleases(run: seq<Event>, tenant: string) {
    run != [] ==>
      var before, e := After(run[..|run| - 1]), run[|run| - 1];
      && OwnReleases(run[..|run| - 1], tenant)
      && (e.Release? && e.tenant == tenant ==> exists h :: Holds(before, h, e.caller, tenant))
  }

  ghost predicate Holds(s: State, h: Hold, caller: int, tenant: string) {
    h in s.holds && h.caller == caller && h.tenant == tenant
  }

  /** Whenever someone asks for the tenant's guard, its living holder is still within the TTL. */
  ghost predicate NobodyOverstays(run: seq<Event>, tenant: string) {
    run != [] ==>
      var before, e := After(run[..|run| - 1]), run[|run| - 1];
      && NobodyOverstays(run[..|run| - 1], tenant)
      && (e.Acquire? && e.tenant == tenant ==> AllWithinTtl(before, tenant, e.at))
  }

  ghost predicate AllWithinTtl(s: State, tenant: string, at: nat) {
    forall h :: h in s.holds && h.tenant == tenant ==> at < h.since + TTL_MS
  }

  /** The guard in Redis is the holder's own. */
  ghost predicate GuardIsHolders(s: State, h: Hold) {
    h.tenant in s.guards && s.guards[h.tenant] == h.since + TTL_MS
  }

  ghost predicate GuardsAreHolders(s: State, tenant: string) {
    forall h :: h in s.holds && h.tenant == tenant ==> GuardIsHolders(s, h)
  }

  /** While a tenant's calls exclude each other the stored guard is the holder's, whatever the
      event; and an `Acquire` ends exclusion exactly when it finds a living holder past its TTL. */
  lemma StepExcludes(s: State, e: Event, tenant: string)
    requires Exclusive(s, tenant) && GuardsAreHolders(s, tenant)
    requires e.Release? && e.tenant == tenant ==> exists h :: Holds(s, h, e.caller, tenant)
    ensures Exclusive(Step(s, e), tenant) <==> (e.Acquire? && e.tenant == tenant ==> AllWithinTtl(s, tenant, e.at))
    ensures Exclusive(Step(s, e), tenant) ==> GuardsAreHolders(Step(s, e), tenant)
  {
    if e.Release? && e.tenant == tenant {
      var own :| Holds(s, own, e.caller, tenant);
      assert forall h :: h in s.holds && h.tenant == tenant ==> h == own;
    } else if e.Acquire? && e.tenant == tenant {
      if AllWithinTtl(s, tenant, e.at) {
        forall h | h in s.holds && h.tenant == tenant ensures Step(s, e) == s {
          assert GuardIsHolders(s, h);
        }
      } else {
        var h :| h in s.holds && h.tenant == tenant && e.at >= h.since + TTL_MS;
        assert GuardIsHolders(s, h) && Free(s.guards, tenant, e.at);
        var h' := Hold(e.caller, tenant, e.at);
        assert h in Step(s, e).holds && h' in Step(s, e).holds && h != h';
      }
    }
  }

  /** For every run and tenant, whatever the clocks and the other tenants do: at most one call is
      in flight at every moment if and only if no call ever asks for the guard while a living
      holder is past its TTL. While that holds the stored guard is the current holder's. */
  lemma {:induction false} ExclusionIff(run: seq<Event>, tenant: string)
    requires OwnReleases(run, tenant)
    ensures ExclusiveThroughout(run, tenant) <==> NobodyOverstays(run, tenant)
    ensures ExclusiveThroughout(run, tenant) ==> GuardsAreHolders(After(run), tenant)
  {
    if run == [] {
      assert After(run) == IDLE;
    } else {
      var front := run[..|run| - 1];
      ExclusionIff(front, tenant);
      if ExclusiveThroughout(front, tenant) {
        ThroughoutIncludesNow(front, tenant);
        StepExcludes(After(front), run[|run| - 1], tenant);
      }
    }
  }

  lemma ThroughoutIncludesNow(run: seq<Event>, tenant: string)
    requires ExclusiveThroughout(run, tenant)
    ensures Exclusive(After(run), tenant)
  {
  }

  /** Every living holder of the tenant is within its TTL whenever anything happens. */
  ghost predicate Timely(run: seq<Event>, tenant: string) {
    run != [] ==> Timely(run[..|run| - 1], tenant) && AllWithinTtl(After(run[..|run| - 1]), tenant, run[|run| - 1].at)
  }

  lemma {:induction false} TimelyRunsDoNotOverstay(run: seq<Event>, tenant: string)
    requires Timely(run, tenant)
    ensures NobodyOverstays(run, tenant)
  {
    if run == [] {
    } else {
      TimelyRunsDoNotOverstay(run[..|run| - 1], tenant);
    }
  }

  /** In particular, if every holder of a tenant finishes within the TTL, its calls exclude each
      other, whatever other tenants' calls do. */
  lemma TimelyRunsExclude(run: seq<Event>, tenant: string)
    requires OwnReleases(run, tenant) && Timely(run, tenant)
    ensures ExclusiveThroughout(run, tenant) && GuardsAreHolders(After(run), tenant)
  {
    TimelyRunsDoNotOverstay(run, tenant);
    ExclusionIff(run, tenant);
  }

  /** The caller is in flight and the stored guard is its own. */
  ghost predicate HasTheGuard(s: State, caller: int, tenant: string) {
    exists h :: Holds(s, h, caller, tenant) && GuardIsHolders(s, h)
  }

  /** A holder's release deletes its own guard and ends its hold, and nothing else. */
  lemma HolderReleases(s: State, h: Hold, at: nat)
    requires Exclusive(s, h.tenant) && GuardsAreHolders(s, h.tenant) && h in s.holds
    ensures HasTheGuard(s, h.caller, h.tenant)
    ensures var after := Step(s, Release(h.caller, h.tenant, at));
            && h.tenant !in after.guards && (forall k :: k in after.holds ==> k.tenant != h.tenant)
            && (forall k :: k in s.holds && k.tenant != h.tenant ==> k in after.holds)
            && (forall t :: t != h.tenant ==> (t in s.guards <==> t in after.guards))
  {
    assert forall k :: k in s.holds && k.tenant == h.tenant ==> k == h;
    assert Holds(s, h, h.caller, h.tenant) && GuardIsHolders(s, h);
  }

  /** A release removes the releasing call's own guard and ends its hold, as long as exclusion
      held until then, and leaves the tenant without any holder. */
  lemma ReleaseIsOwn(run: seq<Event>, tenant: string)
    requires run != [] && run[|run| - 1].Release? && run[|run| - 1].tenant == tenant
    requires OwnReleases(run, tenant) && NobodyOverstays(run, tenant)
    ensures var before, after, e := After(run[..|run| - 1]), After(run), run[|run| - 1];
            && HasTheGuard(before, e.caller, tenant)
            && tenant !in after.guards && (forall h :: h in after.holds ==> h.tenant != tenant)
            && (forall h :: h in before.holds && h.tenant != tenant ==> h in after.holds)
            && (forall t :: t != tenant ==> (t in before.guards <==> t in after.guards))
  {
    var front, e := run[..|run| - 1], run[|run| - 1];
    ExclusionIff(front, tenant);
    ThroughoutIncludesNow(front, tenant);
    var own :| Holds(After(front), own, e.caller, tenant);
    HolderReleases(After(front), own, e.at);
    assert e == Release(own.caller, own.tenant, e.at) && After(run) == Step(After(front), e);
  }

  // ---- Callers that die ----

  /** `until` is when the guard a dead caller left runs out; nobody holds the tenant's guard. */
  ghost predicate LeftBehind(s: State, tenant: string, until: nat) {
    tenant in s.guards && s.guards[tenant] == until && forall h :: h in s.holds ==> h.tenant != tenant
  }

  lemma DyingLeavesTheGuard(run: seq<Event>, h: Hold, at: nat)
    requires OwnReleases(run, h.tenant) && NobodyOverstays(run, h.tenant) && h in After(run).holds
    ensures LeftBehind(After(run + [Die(h.caller, at)]), h.tenant, h.since + TTL_MS)
  {
    ExclusionIff(run, h.tenant);
    ThroughoutIncludesNow(run, h.tenant);
    assert (run + [Die(h.caller, at)])[..|run|] == run;
    assert GuardIsHolders(After(run), h);
  }

  /** Whatever happens after a caller died, its guard blocks the tenant until its TTL is over and
      no longer: every request before that is turned away, the first one after it gets in. */
  lemma {:induction false} DeadCallersBlockForTheTtl(run: seq<Event>, more: seq<Event>, tenant: string, until: nat)
    requires LeftBehind(After(run), tenant, until) && OwnReleases(run + more, tenant)
    requires forall i :: 0 <= i < |more| && more[i].Acquire? && more[i].tenant == tenant ==> more[i].at < until
    ensures LeftBehind(After(run + more), tenant, until)
    ensures forall at: nat :: Free(After(run + more).guards, tenant, at) <==> at >= until
  {
    if more == [] {
      assert run + more == run;
    } else {
      var front := more[..|more| - 1];
      assert (run + more)[..|run + more| - 1] == run + front;
      DeadCallersBlockForTheTtl(run, front, tenant, until);
    }
  }

  // ---- A witness ----

  /** Three calls of one tenant where the first is still going after `d`. */
  function Overstay(tenant: string, d: nat): seq<Event> {
    [Acquire(1, tenant, 0), Acquire(2, tenant, d), Release(1, tenant, d), Acquire(3, tenant, d)]
  }

  /** A call still going at `d` overlaps the next caller if and only if `d` has reached the TTL, and
      then its release deletes that caller's guard and lets a third one in. */
  lemma OverstayingBreaksExclusion(tenant: string, d: nat)
    ensures var run := Overstay(tenant, d);
            && (!Exclusive(After(run[..2]), tenant) <==> d >= 120_000)
            && (d >= 120_000 ==> tenant !in After(run[..3]).guards && Hold(2, tenant, d) in After(run[..3]).holds)
            && (d >= 120_000 ==> {Hold(2, tenant, d), Hold(3, tenant, d)} <= After(run).holds)
  {
    var run := Overstay(tenant, d);
    assert run[..1][..0] == [] && run[..2][..1] == run[..1] && run[..3][..2] == run[..2] && run[..4][..3] == run[..3];
    assert run[..4] == run;
    assert After(run[..1]) == State(map[tenant := 120_000], {Hold(1, tenant, 0)});
    if d >= 120_000 {
      assert After(run[..2]) == State(map[tenant := d + 120_000], {Hold(1, tenant, 0), Hold(2, tenant, d)});
      assert Hold(1, tenant, 0) != Hold(2, tenant, d);
      assert HoldsOf(After(run[..2]), 1, tenant) == {Hold(1, tenant, 0)};
    }
  }
}

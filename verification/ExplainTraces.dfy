/** What a fine trace of the engine promises, read off the trace itself: what was sent, cached,
    audited and charged, in what order, and what an undisturbed call comes to. */
module ExplainTraces {
  import opened Common
  import opened BatchCost
  import opened AnswerGates
  import opened ExplainEngine

  lemma {:induction false} FineSoFar(env: Env, trace: Trace, n: nat)
    requires n <= |trace| && Watching(env, trace).fine
    ensures Watching(env, trace[..n]).fine
  {
    if n < |trace| {
      FineSoFar(env, trace[..|trace| - 1], n);
      assert trace[..|trace| - 1][..n] == trace[..n];
    } else {
      assert trace[..n] == trace;
    }
  }

  /** The texts of the replayed summary pieces, joined. */
  function Replayed(trace: Trace): string {
    if trace == [] then ""
    else Replayed(trace[..|trace| - 1])
         + (var e := trace[|trace| - 1]; if e.Emit? && e.event.SummaryDelta? then e.event.text else "")
  }

  function CountDispatches(trace: Trace): nat {
    if trace == [] then 0 else CountDispatches(trace[..|trace| - 1]) + (if trace[|trace| - 1].Dispatch? then 1 else 0)
  }

  ghost predicate CachedBy(trace: Trace, i: int, c: Candidate) {
    0 <= i < |trace| && trace[i] == SetCached(c)
  }

  ghost predicate AuditedOkBy(trace: Trace, j: int) {
    0 <= j < |trace| && trace[j].Audit? && trace[j].status == AuditOk
  }

  /** `c` was cached and, after that, audited `ok`. */
  ghost predicate Earned(trace: Trace, c: Candidate) {
    exists i, j :: i < j && CachedBy(trace, i, c) && AuditedOkBy(trace, j)
  }

  lemma EarnedStays(trace: Trace, e: Effect, c: Candidate)
    requires Earned(trace, c)
    ensures Earned(trace + [e], c)
  {
    var i, j :| i < j && CachedBy(trace, i, c) && AuditedOkBy(trace, j);
    assert CachedBy(trace + [e], i, c) && AuditedOkBy(trace + [e], j);
  }

  lemma EarnedPrefix(trace: Trace, n: nat, c: Candidate)
    requires n <= |trace| && Earned(trace[..n], c)
    ensures exists i, j :: i < j < n && CachedBy(trace, i, c) && AuditedOkBy(trace, j)
  {
    var i, j :| i < j && CachedBy(trace[..n], i, c) && AuditedOkBy(trace[..n], j);
    assert CachedBy(trace, i, c) && AuditedOkBy(trace, j);
  }

  /** The monitor's counters and joined texts are those of the trace. */
  lemma {:induction false} WatchCounts(env: Env, trace: Trace)
    requires Watching(env, trace).fine
    ensures var w := Watching(env, trace);
            && w.deltas == Replayed(trace) && w.dispatches == CountDispatches(trace) <= 2
            && w.statuses == Statuses(trace) && w.last == LastEvent(trace)
  {
    if trace == [] {
    } else {
      var front, e := trace[..|trace| - 1], trace[|trace| - 1];
      NextCached(env, Watching(env, front), e);
      WatchCounts(env, front);
      NextCounts(env, Watching(env, front), e);
      NextTexts(env, Watching(env, front), e);
    }
  }

  lemma NextCounts(env: Env, w: Watch, e: Effect)
    requires w.dispatches <= 2
    ensures var w' := Next(env, w, e);
            && w'.dispatches == w.dispatches + (if e.Dispatch? then 1 else 0)
            && w'.statuses == w.statuses + (if e.Audit? then [e.status] else [])
            && (w'.fine ==> w.fine && w'.dispatches <= 2)
  {
  }

  lemma NextTexts(env: Env, w: Watch, e: Effect)
    ensures var w' := Next(env, w, e);
            && w'.deltas == w.deltas + (if e.Emit? && e.event.SummaryDelta? then e.event.text else "")
            && w'.last == (if e.Emit? then Some(e.event) else w.last)
  {
  }

  /** A payload becomes the cached one only by passing the gates, and stays it. */
  lemma NextCached(env: Env, w: Watch, e: Effect)
    ensures var w' := Next(env, w, e);
            w'.fine ==>
            && w.fine
            && (w.cached.Some? ==> w'.cached == w.cached)
            && (w'.cached.Some? && w.cached.None? ==>
                e == SetCached(w'.cached.value) && Passes(env.gates, w'.cached.value))
  {
  }

  lemma NextAuditedOk(env: Env, w: Watch, e: Effect)
    ensures var w' := Next(env, w, e);
            w'.fine && w'.auditedOk && !w.auditedOk ==>
              w.cached.Some? && w'.cached == w.cached && e.Audit? && e.status.AuditOk?
  {
  }

  lemma {:induction false} WatchRemembersCached(env: Env, trace: Trace)
    requires Watching(env, trace).fine
    ensures var w := Watching(env, trace);
            w.cached.Some? ==> Passes(env.gates, w.cached.value) && exists i :: CachedBy(trace, i, w.cached.value)
  {
    if trace == [] {
    } else {
      var front, e := trace[..|trace| - 1], trace[|trace| - 1];
      var w := Watching(env, front);
      NextCached(env, w, e);
      WatchRemembersCached(env, front);
      if w.cached.Some? {
        var i :| CachedBy(front, i, w.cached.value);
        assert CachedBy(trace, i, w.cached.value);
      } else if e.SetCached? {
        assert CachedBy(trace, |trace| - 1, e.payload);
      }
    }
  }

  /** The monitor says `audited ok` only of a payload cached before that audit. */
  lemma {:induction false} WatchRemembersOk(env: Env, trace: Trace)
    requires Watching(env, trace).fine
    ensures var w := Watching(env, trace);
            w.auditedOk ==>
              w.cached.Some? && Passes(env.gates, w.cached.value) && Earned(trace, w.cached.value)
  {
    if trace == [] || !Watching(env, trace).auditedOk {
      return;
    }
    var front, e := trace[..|trace| - 1], trace[|trace| - 1];
    assert trace == front + [e];
    var w := Watching(env, front);
    NextCached(env, w, e);
    if w.auditedOk {
      WatchRemembersOk(env, front);
      EarnedStays(front, e, w.cached.value);
    } else {
      NextAuditedOk(env, w, e);
      WatchRemembersCached(env, front);
      var i :| CachedBy(front, i, w.cached.value);
      EarnedNow(front, i, e, w.cached.value);
    }
  }

  lemma EarnedNow(trace: Trace, i: int, e: Effect, c: Candidate)
    requires CachedBy(trace, i, c)
    requires e.Audit? && e.status.AuditOk?
    ensures Earned(trace + [e], c)
  {
    assert CachedBy(trace + [e], i, c) && AuditedOkBy(trace + [e], |trace|);
  }

  /** A `done` event was earned: its payload passed every gate, was cached, was then audited ok,
      and the pieces replayed before it join up to its summary. */
  lemma DoneIsEarned(env: Env, trace: Trace, n: nat, c: Candidate)
    requires Watching(env, trace).fine && n < |trace| && trace[n] == Emit(DoneEvent(c))
    ensures Passes(env.gates, c) && Replayed(trace[..n]) == c.summary
    ensures exists i, j :: i < j < n && CachedBy(trace, i, c) && AuditedOkBy(trace, j)
  {
    FineSoFar(env, trace, n);
    FineSoFar(env, trace, n + 1);
    assert trace[..n + 1][..n] == trace[..n];
    WatchCounts(env, trace[..n]);
    WatchRemembersOk(env, trace[..n]);
    EarnedPrefix(trace, n, c);
  }

  /** Nothing reaches the cache that failed a gate or that the model did not just answer. */
  lemma CachedPassedEveryGate(env: Env, trace: Trace, n: nat, c: Candidate)
    requires Watching(env, trace).fine && n < |trace| && trace[n] == SetCached(c)
    ensures Passes(env.gates, c)
    ensures var d := CountDispatches(trace[..n]);
            0 < d <= 2 && env.reply(d - 1).Message? && env.gates.parse(env.reply(d - 1).text) == Some(c)
  {
    FineSoFar(env, trace, n);
    FineSoFar(env, trace, n + 1);
    assert trace[..n + 1][..n] == trace[..n];
    WatchCounts(env, trace[..n]);
  }

  /** No byte of a summary is sent before its payload was cached and audited ok. */
  lemma NoTextBeforeValidation(env: Env, trace: Trace, n: nat)
    requires Watching(env, trace).fine && n < |trace| && trace[n].Emit? && trace[n].event.SummaryDelta?
    ensures exists c, i, j :: i < j < n && Passes(env.gates, c) && CachedBy(trace, i, c) && AuditedOkBy(trace, j)
  {
    FineSoFar(env, trace, n);
    FineSoFar(env, trace, n + 1);
    assert trace[..n + 1][..n] == trace[..n];
    WatchRemembersOk(env, trace[..n]);
    EarnedPrefix(trace, n, Watching(env, trace[..n]).cached.value);
  }

  /** There are at most two dispatches; the second one's conversation ends with the rejected first
      answer and the correction. */
  lemma {:induction false} DispatchesAreBounded(env: Env, trace: Trace, n: nat)
    requires Watching(env, trace).fine && n < |trace| && trace[n].Dispatch?
    ensures CountDispatches(trace[..n]) < 2 && trace[n].turns == TurnsFor(env, CountDispatches(trace[..n]))
  {
    FineSoFar(env, trace, n);
    FineSoFar(env, trace, n + 1);
    assert trace[..n + 1][..n] == trace[..n];
    WatchCounts(env, trace[..n]);
  }

  lemma NextConversation(env: Env, w: Watch, turns: seq<Turn>)
    ensures Next(env, w, Dispatch(turns)).fine && w.dispatches == 0 ==> turns == [UserTurn(env.prompt)]
    ensures Next(env, w, Dispatch(turns)).fine && w.dispatches != 0 ==>
              && w.dispatches == 1 && env.reply(0).Message?
              && turns == [UserTurn(env.prompt), AssistantTurn(env.reply(0).text), CorrectiveTurn]
              && Retries(VerdictOf(env, 0))
  {
  }

  lemma RetriedAnswersFailed(env: Env)
    requires env.reply(0).Message? && Retries(VerdictOf(env, 0)) && env.gates.parse(env.reply(0).text).Some?
    ensures var c := env.gates.parse(env.reply(0).text).value; !BusinessRulesHold(env.gates, c) || !c.grounded
  {
  }

  /** The conversations themselves: the first dispatch carries the prompt alone. A second one comes
      only after an answer that failed schema, business rules or grounding, and carries the prompt,
      that answer as the assistant's own turn, and the correction. */
  lemma ConversationsAre(env: Env, trace: Trace, n: nat)
    requires Watching(env, trace).fine && n < |trace| && trace[n].Dispatch?
    ensures CountDispatches(trace[..n]) == 0 ==> trace[n].turns == [UserTurn(env.prompt)]
    ensures CountDispatches(trace[..n]) != 0 ==>
              && CountDispatches(trace[..n]) == 1 && env.reply(0).Message?
              && trace[n].turns == [UserTurn(env.prompt), AssistantTurn(env.reply(0).text), CorrectiveTurn]
              && (env.gates.parse(env.reply(0).text).Some? ==>
                    var c := env.gates.parse(env.reply(0).text).value; !BusinessRulesHold(env.gates, c) || !c.grounded)
  {
    var w := Watching(env, trace[..n]);
    FineSoFar(env, trace, n + 1);
    assert trace[..n + 1] == trace[..n] + [trace[n]];
    WatchNext(env, trace[..n], trace[n]);
    NextConversation(env, w, trace[n].turns);
    FineSoFar(env, trace, n);
    WatchCounts(env, trace[..n]);
    if w.dispatches != 0 && env.gates.parse(env.reply(0).text).Some? {
      RetriedAnswersFailed(env);
    }
  }

  /** What the gates let through: at most 4000 characters in either text, only cited fields that were
      allowed, grounded, nothing of the system prompt and nothing dangerous. */
  lemma PassesMeans(g: Gates, c: Candidate)
    ensures Passes(g, c) <==>
              && |c.summary| <= 4000 && |c.businessRisk| <= 4000 && c.grounded && !g.leaks(c) && g.dangerous(c) == None
              && forall i :: 0 <= i < |c.citedFields| && c.citedFields[i].Some? && g.allowedFields.Some? ==>
                   c.citedFields[i].value in g.allowedFields.value
  {
  }

  // ---- What an undisturbed call comes to, case by case ----

  /** The model's answer to attempt `n` parses to `c`. */
  ghost predicate Answered(env: Env, n: nat, c: Candidate) {
    env.reply(n).Message? && env.gates.parse(env.reply(n).text) == Some(c)
  }

  ghost predicate Malformed(env: Env, n: nat) {
    && env.reply(n).Message?
    && forall c :: Answered(env, n, c) ==> !BusinessRulesHold(env.gates, c)
  }

  ghost predicate Ungrounded(env: Env, n: nat) {
    exists c :: Answered(env, n, c) && BusinessRulesHold(env.gates, c) && !c.grounded
  }

  /** The statuses and the last event of attempt `n` when it ends the call. */
  ghost predicate EndsAs(env: Env, n: nat, status: Status, last: Event) {
    && (env.reply(n).Throttled? ==> status == AuditRateLimited && last == ErrorEvent(Busy))
    && (forall c :: Answered(env, n, c) && BusinessRulesHold(env.gates, c) && c.grounded ==>
          if env.gates.leaks(c) then status == AuditInjectionFlagged && last == ErrorEvent(GroundedFalse)
          else match env.gates.dangerous(c)
            case Some(pattern) => status == AuditUnsafeDenylisted && last == ErrorEvent(Unsafe(pattern))
            case None => status == AuditOk && last == DoneEvent(c))
  }

  /** The first attempt decides unless its answer is malformed or ungrounded, which is audited as
      such and followed by exactly one more; a second answer of that kind ends the call. */
  lemma UndisturbedCallsEndAs(env: Env, trace: Trace, exit: Exit)
    requires Promised(env, trace, exit) && Watching(env, trace).Smooth()
    requires env.hasKey && WithinBudget(env) && env.guardFree
    ensures exit == Finished && Statuses(trace) != [] && LastEvent(trace).Some?
    ensures var last := LastEvent(trace).value;
            if Malformed(env, 0) || Ungrounded(env, 0) then
              && |Statuses(trace)| == 2 == CountDispatches(trace)
              && Statuses(trace)[0] == (if Malformed(env, 0) then AuditValidationFailed else AuditGroundedRetry)
              && EndsAs(env, 1, Statuses(trace)[1], last)
              && (Malformed(env, 1) || Ungrounded(env, 1) ==>
                    Statuses(trace)[1] == AuditValidationFailed && last == ErrorEvent(GroundedFalse))
            else
              |Statuses(trace)| == 1 == CountDispatches(trace) && EndsAs(env, 0, Statuses(trace)[0], last)
  {
    WatchCounts(env, trace);
    RetriesMeans(env, 0);
    RetriesMeans(env, 1);
    VerdictEndsAs(env, 0);
    VerdictEndsAs(env, 1);
  }

  lemma RetriesMeans(env: Env, n: nat)
    ensures VerdictOf(env, n) == Invalid <==> Malformed(env, n)
    ensures VerdictOf(env, n) == NotGrounded <==> Ungrounded(env, n)
  {
    if env.reply(n).Message? {
      var parsed := env.gates.parse(env.reply(n).text);
      if parsed.Some? {
        assert Answered(env, n, parsed.value);
      }
    }
  }

  lemma VerdictEndsAs(env: Env, n: nat)
    ensures forall final :: EndsAs(env, n, StatusOf(VerdictOf(env, n), final), EventOf(VerdictOf(env, n)))
  {
  }

  /** Turned away before any dispatch: no key, over budget, or another call in flight. */
  lemma UndisturbedRefusalsEndAs(env: Env, trace: Trace, exit: Exit)
    requires Promised(env, trace, exit) && Watching(env, trace).Smooth()
    requires !env.hasKey || !WithinBudget(env) || !env.guardFree
    ensures exit == Finished && CountDispatches(trace) == 0
    ensures !env.hasKey ==> Statuses(trace) == [] && LastEvent(trace) == Some(NoKey)
    ensures env.hasKey && !WithinBudget(env) ==>
              Statuses(trace) == [AuditBudgetExceeded] && LastEvent(trace) == Some(ErrorEvent(BudgetExceeded))
    ensures env.hasKey && WithinBudget(env) ==> Statuses(trace) == [] && LastEvent(trace) == Some(ErrorEvent(Busy))
  {
    WatchCounts(env, trace);
  }

  lemma NextCharged(env: Env, w: Watch, status: Status, cost: Option<int>)
    ensures Next(env, w, Audit(status, cost)).fine && status == AuditOk ==>
              && w.dispatches > 0 && env.reply(w.dispatches - 1).Message?
              && cost == Some(EstimateCost(env.model, env.reply(w.dispatches - 1).input,
                                           env.reply(w.dispatches - 1).output))
    ensures Next(env, w, Audit(status, cost)).fine && status != AuditOk ==> cost == None || cost == Some(0)
  {
  }

  /** The `ok` audit carries the price of the very answer that was accepted, every other row none. */
  lemma AuditedPrices(env: Env, trace: Trace, n: nat)
    requires Watching(env, trace).fine && n < |trace| && trace[n].Audit?
    ensures trace[n].status == AuditOk ==>
              var d := CountDispatches(trace[..n]);
              && 0 < d <= 2 && env.reply(d - 1).Message?
              && trace[n].cost == Some(EstimateCost(env.model, env.reply(d - 1).input, env.reply(d - 1).output))
    ensures trace[n].status != AuditOk ==> trace[n].cost == None || trace[n].cost == Some(0)
  {
    var w := Watching(env, trace[..n]);
    FineSoFar(env, trace, n + 1);
    assert trace[..n + 1] == trace[..n] + [trace[n]];
    WatchNext(env, trace[..n], trace[n]);
    NextCharged(env, w, trace[n].status, trace[n].cost);
    FineSoFar(env, trace, n);
    WatchCounts(env, trace[..n]);
  }

  // ---- What a call adds to the tenant's month ----

  /** The budget rows of the trace's audits, written at `at`. */
  function RowsOf(env: Env, trace: Trace, at: int): seq<AuditRow> {
    if trace == [] then []
    else
      var front, e := trace[..|trace| - 1], trace[|trace| - 1];
      RowsOf(env, front, at) + (if e.Audit? then [AuditRow(env.tenant, true, at, RealCost(e.cost))] else [])
  }

  function RealCost(cost: Option<int>): Option<real> {
    match cost
    case None => None
    case Some(c) => Some(c as real)
  }

  /** The price of the answer a monitored call was accepted for, if it was. */
  function PriceOf(env: Env, w: Watch): real {
    if w.auditedOk && w.dispatches > 0 && env.reply(w.dispatches - 1).Message?
        then CostOf(env, w.dispatches - 1) as real
    else 0.0
  }

  /** One more effect charges only if it is the `ok` audit, and then the price of the answer. */
  lemma NextPrice(env: Env, w: Watch, e: Effect)
    requires w.auditedOk ==> w.cached.Some?
    ensures var w' := Next(env, w, e);
            w'.fine ==>
            && w.fine && (w'.auditedOk ==> w'.cached.Some?)
            && PriceOf(env, w') == PriceOf(env, w) + (if e.Audit? then RealCost(e.cost).GetOr(0.0) else 0.0)
  {
  }

  lemma {:induction false} SpendIsThePrice(env: Env, trace: Trace, at: int)
    requires Watching(env, trace).fine
    ensures Watching(env, trace).auditedOk ==> Watching(env, trace).cached.Some?
    ensures at >= env.monthStart ==>
              MonthSpend(RowsOf(env, trace, at), env.tenant, env.monthStart) == PriceOf(env, Watching(env, trace))
  {
    if trace == [] {
    } else {
      var front, e := trace[..|trace| - 1], trace[|trace| - 1];
      NextCached(env, Watching(env, front), e);
      SpendIsThePrice(env, front, at);
      NextPrice(env, Watching(env, front), e);
      var more := if e.Audit? then [AuditRow(env.tenant, true, at, RealCost(e.cost))] else [];
      SpendAppends(RowsOf(env, front, at), more, env.tenant, env.monthStart);
      if e.Audit? {
        assert more[..0] == [];
      }
    }
  }

  /** A call that dispatches at all found the month below the cap, and its own audit rows add
      exactly the price of the one accepted answer, or nothing. */
  lemma DispatchMeansUnderCap(env: Env, trace: Trace, n: nat, at: int)
    requires Watching(env, trace).fine && n < |trace| && trace[n].Dispatch? && at >= env.monthStart
    ensures CheckTenantBudget(env.ledger, env.tenant, env.monthStart, env.cap)
    ensures env.cap.Some? ==>
              MonthSpend(env.ledger + RowsOf(env, trace, at), env.tenant, env.monthStart)
              < env.cap.value + PriceOf(env, Watching(env, trace))
  {
    FineSoFar(env, trace, n + 1);
    assert trace[..n + 1][..n] == trace[..n];
    SpendIsThePrice(env, trace, at);
    SpendAppends(env.ledger, RowsOf(env, trace, at), env.tenant, env.monthStart);
  }
}

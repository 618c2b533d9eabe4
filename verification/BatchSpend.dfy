/** What polling adds to a tenant's month: the protocol's audit rows read as budget rows. */
module BatchSpend {
  import opened Common
  import opened AnswerGates
  import opened BatchWork
  import opened BatchCost
  import opened BatchProtocol
  import opened BatchAudits
  import opened BatchPrewarm

  // ---- The cost of a job's work ----

  function ActCost(act: Act): real {
    if act.Log? then act.row.cost else 0.0
  }

  function ActsCost(acts: seq<Act>): real {
    if acts == [] then 0.0 else ActsCost(acts[..|acts| - 1]) + ActCost(acts[|acts| - 1])
  }

  lemma {:induction false} ActsCostAppends(acts: seq<Act>, more: seq<Act>)
    ensures ActsCost(acts + more) == ActsCost(acts) + ActsCost(more)
  {
    if more == [] {
      assert acts + more == acts;
    } else {
      var all := acts + more;
      ActsCostAppends(acts, more[..|more| - 1]);
      assert all[..|all| - 1] == acts + more[..|more| - 1];
    }
  }

  /** The result of a line, if it is one that may cost something. */
  function ResultOf(g: Gates, job: Job, line: Line): seq<Result> {
    if line.customId in job.hashes && line.result.Succeeded?
    then [Result(line.customId, Judge(g, line.result.text).Accepted?, line.result.input, line.result.output)]
    else []
  }

  function ResultsOf(g: Gates, job: Job, lines: seq<Line>): seq<Result> {
    if lines == [] then []
    else ResultsOf(g, job, lines[..|lines| - 1]) + ResultOf(g, job, lines[|lines| - 1])
  }

  lemma SingleCost(act: Act)
    ensures ActsCost([act]) == ActCost(act)
  {
    assert [act][..0] == [];
  }

  /** A free act in front changes nothing. */
  lemma PutIsFree(put: Act, act: Act)
    requires put.Put?
    ensures ActsCost([put, act]) == ActCost(act)
  {
    assert [put, act] == [put] + [act];
    ActsCostAppends([put], [act]);
    SingleCost(put);
    SingleCost(act);
  }

  lemma LineCost(g: Gates, job: Job, line: Line)
    ensures ActsCost(LineActs(g, job, line)) == AuditedCost(job.model, ResultOf(g, job, line))
  {
    var acts, results := LineActs(g, job, line), ResultOf(g, job, line);
    if |acts| == 1 {
      assert acts == [acts[0]];
      SingleCost(acts[0]);
    } else if |acts| == 2 {
      assert acts == [acts[0], acts[1]];
      PutIsFree(acts[0], acts[1]);
    }
    if results != [] {
      assert results[..0] == [];
      assert AuditedCost(job.model, results) == ItemCost(job.model, results[0]);
    }
  }

  lemma {:induction false} AuditedCostAppends(model: string, results: seq<Result>, more: seq<Result>)
    ensures AuditedCost(model, results + more) == AuditedCost(model, results) + AuditedCost(model, more)
  {
    if more == [] {
      assert results + more == results;
    } else {
      var all := results + more;
      AuditedCostAppends(model, results, more[..|more| - 1]);
      assert all[..|all| - 1] == results + more[..|more| - 1];
    }
  }

  /** A job's work costs what its results are audited at. */
  lemma {:induction false} WorkCost(g: Gates, job: Job, lines: seq<Line>)
    ensures ActsCost(JobActs(g, job, lines)) == AuditedCost(job.model, ResultsOf(g, job, lines))
  {
    if lines == [] {
    } else {
      var front, last := lines[..|lines| - 1], lines[|lines| - 1];
      WorkCost(g, job, front);
      LineCost(g, job, last);
      ActsCostAppends(JobActs(g, job, front), LineActs(g, job, last));
      AuditedCostAppends(job.model, ResultsOf(g, job, front), ResultOf(g, job, last));
    }
  }

  /** No act has a negative cost. */
  lemma ActsCostNothingNegative(g: Gates, job: Job, lines: seq<Line>, i: nat)
    requires i < |JobActs(g, job, lines)|
    ensures ActCost(JobActs(g, job, lines)[i]) >= 0.0
  {
    var n := ActComesFromLine(g, job, lines, i);
    var line := lines[n];
    if line.result.Succeeded? {
      ItemCostsNothingNegative(job.model, Result("", true, line.result.input, line.result.output));
    }
  }

  /** The provider kept to the counts: for each answered request, in whatever order, the input is
      at most what was counted and the output at most the ceiling. */
  ghost predicate KeepsToCounts(lines: seq<Line>, ids: seq<string>, counted: seq<nat>)
    requires |ids| == |counted|
  {
    forall n :: 0 <= n < |lines| && lines[n].result.Succeeded? && lines[n].customId in ids ==>
      Answers(Result(lines[n].customId, true, lines[n].result.input, lines[n].result.output), ids, counted)
  }

  lemma {:induction false} ResultsComeFromLines(g: Gates, job: Job, lines: seq<Line>, i: nat) returns (n: nat)
    requires i < |ResultsOf(g, job, lines)|
    ensures n < |lines| && ResultOf(g, job, lines[n]) == [ResultsOf(g, job, lines)[i]]
  {
    var front := lines[..|lines| - 1];
    if i < |ResultsOf(g, job, front)| {
      n := ResultsComeFromLines(g, job, front, i);
    } else {
      n := |lines| - 1;
    }
  }

  lemma {:induction false} ResultsDistinct(g: Gates, job: Job, lines: seq<Line>)
    requires AnsweredOnce(lines)
    ensures forall i, j :: 0 <= i < j < |ResultsOf(g, job, lines)| ==>
              ResultsOf(g, job, lines)[i].id != ResultsOf(g, job, lines)[j].id
  {
    if lines == [] {
    } else {
      var front, last := lines[..|lines| - 1], lines[|lines| - 1];
      ResultsDistinct(g, job, front);
      forall i | 0 <= i < |ResultsOf(g, job, front)| ensures ResultsOf(g, job, front)[i].id != last.customId {
        var n := ResultsComeFromLines(g, job, front, i);
        assert lines[n] == front[n];
      }
    }
  }

  /** A submitted job costs at most its estimate plus rounding to work through once. */
  lemma WorkNeverOutrunsEstimate(g: Gates, t: Tenant, night: Night, requests: seq<Finding>, lines: seq<Line>)
    requires DistinctFindings(requests) && AnsweredOnce(lines) && KeepsToCounts(lines, Ids(requests), Counts(requests))
    ensures ActsCost(JobActs(g, JobFor(t, night, requests), lines))
         <= BatchEstimate(t.model, Counts(requests)) as real + (|requests| + 2) as real / 4.0
  {
    var job := JobFor(t, night, requests);
    var results := ResultsOf(g, job, lines);
    ResultsDistinct(g, job, lines);
    forall i | 0 <= i < |results| ensures Answers(results[i], Ids(requests), Counts(requests)) {
      var n := ResultsComeFromLines(g, job, lines, i);
      HashedIdsAreRequested(requests, lines[n].customId);
      var paid := Result(lines[n].customId, true, lines[n].result.input, lines[n].result.output);
      var k :| AnswersRequest(paid, Ids(requests), Counts(requests), k);
      assert AnswersRequest(results[i], Ids(requests), Counts(requests), k);
    }
    WorkCost(g, job, lines);
    BatchNeverOutrunsEstimate(t.model, results, Ids(requests), Counts(requests));
  }

  // ---- What runs of the protocol charge ----

  /** The audit rows of visit `v`, added up. */
  function VisitSpend(audits: seq<Entry>, v: int): real {
    if audits == [] then 0.0
    else
      var last := audits[|audits| - 1];
      VisitSpend(audits[..|audits| - 1], v) + (if last.visit == v then last.row.cost else 0.0)
  }

  lemma VisitSpendNext(audits: seq<Entry>, entry: Entry, v: int)
    ensures VisitSpend(audits + [entry], v)
         == VisitSpend(audits, v) + (if entry.visit == v then entry.row.cost else 0.0)
  {
    assert (audits + [entry])[..|audits|] == audits;
  }

  lemma {:induction false} NoRowsNoSpend(audits: seq<Entry>, v: int)
    requires forall n :: 0 <= n < |audits| ==> audits[n].visit != v
    ensures VisitSpend(audits, v) == 0.0
  {
    if audits == [] {
    } else {
      NoRowsNoSpend(audits[..|audits| - 1], v);
    }
  }

  /** Visit `v` has charged for exactly the first `pos` acts, and whoever has it in hand is there. */
  ghost predicate SpentUpTo(e: Provider, w: World, v: int, pos: int)
    requires 0 <= v < |w.visits| && w.visits[v] in w.jobs
  {
    && 0 <= pos <= |Plan(e, w.jobs[w.visits[v]], w.visits[v])|
    && VisitSpend(w.audits, v) == ActsCost(Plan(e, w.jobs[w.visits[v]], w.visits[v])[..pos])
    && forall p :: p in w.pollers && w.pollers[p].visit.Some? && w.pollers[p].visit.value.id == v ==>
         w.pollers[p].visit.value.pos == pos
  }

  ghost predicate Charged(e: Provider, w: World, v: int)
    requires 0 <= v < |w.visits| && w.visits[v] in w.jobs
  {
    exists pos :: SpentUpTo(e, w, v, pos)
  }

  /** Every row is one its visit's job asks for, and every visit has charged for a first part of it. */
  ghost predicate Accounted(e: Provider, w: World) {
    && VisitsKnown(w)
    && (forall n :: 0 <= n < |w.audits| ==> w.audits[n].visit < |w.visits| && RowAsked(e, w, w.audits[n]))
    && (forall v :: 0 <= v < |w.visits| ==> Charged(e, w, v))
  }

  ghost predicate RowAsked(e: Provider, w: World, entry: Entry)
    requires entry.visit < |w.visits| && VisitsKnown(w)
  {
    var j := w.visits[entry.visit];
    entry.at < |Plan(e, w.jobs[j], j)| && Plan(e, w.jobs[j], j)[entry.at] == Log(entry.row)
  }

  lemma CostOfOneMore(plan: seq<Act>, pos: nat)
    requires pos < |plan|
    ensures ActsCost(plan[..pos + 1]) == ActsCost(plan[..pos]) + ActCost(plan[pos])
  {
    assert plan[..pos + 1][..pos] == plan[..pos];
  }

  lemma SpendAfterPerform(e: Provider, w: World, p: int, v: int)
    requires Enabled(e, w, Perform(p))
    ensures var here, act := VisitOf(w, p), PlanOf(e, w, p)[VisitOf(w, p).pos];
            VisitSpend(Apply(e, w, Perform(p)).audits, v)
            == VisitSpend(w.audits, v) + (if here.id == v then ActCost(act) else 0.0)
  {
    var here, act := VisitOf(w, p), PlanOf(e, w, p)[VisitOf(w, p).pos];
    if act.Log? {
      VisitSpendNext(w.audits, Entry(here.id, here.pos, act.row), v);
    }
  }

  lemma PerformChargesOwn(e: Provider, w: World, p: int)
    requires Enabled(e, w, Perform(p)) && WorkDone(e, w) && Tidy(w) && Accounted(e, w)
    ensures Charged(e, Apply(e, w, Perform(p)), VisitOf(w, p).id)
  {
    var w', here := Apply(e, w, Perform(p)), VisitOf(w, p);
    assert Charged(e, w, here.id);
    var pos :| SpentUpTo(e, w, here.id, pos);
    assert pos == here.pos;
    SpendAfterPerform(e, w, p, here.id);
    CostOfOneMore(PlanOf(e, w, p), pos);
    assert SpentUpTo(e, w', here.id, pos + 1);
  }

  lemma PerformChargesOthers(e: Provider, w: World, p: int, v: int)
    requires Enabled(e, w, Perform(p)) && Accounted(e, w) && 0 <= v < |w.visits| && v != VisitOf(w, p).id
    ensures Charged(e, Apply(e, w, Perform(p)), v)
  {
    assert Charged(e, w, v);
    var pos :| SpentUpTo(e, w, v, pos);
    SpendAfterPerform(e, w, p, v);
    assert SpentUpTo(e, Apply(e, w, Perform(p)), v, pos);
  }

  lemma OpenCharges(e: Provider, w: World, p: int, v: int)
    requires Enabled(e, w, Open(p)) && Tidy(w) && Accounted(e, w)
    requires 0 <= v < |Apply(e, w, Open(p)).visits|
    ensures var w' := Apply(e, w, Open(p)); w'.visits[v] in w'.jobs && Charged(e, w', v)
  {
    var w' := Apply(e, w, Open(p));
    if v < |w.visits| {
      assert Charged(e, w, v);
      var pos :| SpentUpTo(e, w, v, pos);
      assert SpentUpTo(e, w', v, pos);
    } else {
      forall n | 0 <= n < |w.audits| ensures w.audits[n].visit != v {
        assert RowBehind(w, n);
      }
      NoRowsNoSpend(w.audits, v);
      assert SpentUpTo(e, w', v, 0);
    }
  }

  lemma OtherStepCharges(e: Provider, w: World, s: Step, v: int)
    requires Enabled(e, w, s) && !s.Perform? && !s.Open? && Accounted(e, w) && 0 <= v < |w.visits|
    ensures Charged(e, Apply(e, w, s), v)
  {
    assert Charged(e, w, v);
    var pos :| SpentUpTo(e, w, v, pos);
    assert SpentUpTo(e, Apply(e, w, s), v, pos);
  }

  lemma RowsStayAsked(e: Provider, w: World, s: Step)
    requires Enabled(e, w, s) && WorkDone(e, w) && Accounted(e, w)
    ensures var w' := Apply(e, w, s);
            && VisitsKnown(w')
            && forall n :: 0 <= n < |w'.audits| ==> w'.audits[n].visit < |w'.visits| && RowAsked(e, w', w'.audits[n])
  {
    var w' := Apply(e, w, s);
    StepTakesNothingBack(e, w, s);
    forall n | 0 <= n < |w'.audits| ensures w'.audits[n].visit < |w'.visits| && RowAsked(e, w', w'.audits[n]) {
      if n < |w.audits| {
        assert w'.audits[n] == w.audits[n] && RowAsked(e, w, w.audits[n]);
        assert w'.visits[w.audits[n].visit] == w.visits[w.audits[n].visit];
      }
    }
  }

  lemma StaysAccounted(e: Provider, w: World, s: Step)
    requires Enabled(e, w, s) && WorkDone(e, w) && Tidy(w) && Accounted(e, w)
    ensures Accounted(e, Apply(e, w, s))
  {
    var w' := Apply(e, w, s);
    RowsStayAsked(e, w, s);
    forall v | 0 <= v < |w'.visits| ensures Charged(e, w', v) {
      match s
      case Perform(p) =>
        if v == VisitOf(w, p).id {
          PerformChargesOwn(e, w, p);
        } else {
          PerformChargesOthers(e, w, p, v);
        }
      case Open(p) => OpenCharges(e, w, p, v);
      case _ => OtherStepCharges(e, w, s, v);
    }
  }

  /** In every run, however interrupted and overlapping, no visit charges more than its job's work
      up to where it got. */
  lemma {:induction false} RunsAreAccounted(e: Provider, w0: World, steps: seq<Step>, w: World)
    requires Fresh(w0) && Reaches(e, w0, steps, w)
    ensures Accounted(e, w)
  {
    if steps == [] {
    } else {
      var front, s := steps[..|steps| - 1], steps[|steps| - 1];
      var mid :| Reaches(e, w0, front, mid) && Advances(e, mid, s, w);
      RunsAreAccounted(e, w0, front, mid);
      RunKeepsInv(e, w0, front, mid);
      OneRowPerVisit(e, w0, front, mid);
      StaysAccounted(e, mid, s);
    }
  }

  // ---- The tenant's month ----

  /** The audit log the budget query reads; `at` is when each row was written. */
  function LedgerOf(audits: seq<Entry>, at: nat -> int): seq<AuditRow> {
    if audits == [] then []
    else
      var n := |audits| - 1;
      LedgerOf(audits[..n], at) + [AuditRow(audits[n].row.tenant, true, at(n), Some(audits[n].row.cost))]
  }

  predicate OfTenant(w: World, v: nat, tenant: string)
    requires v < |w.visits|
  {
    w.visits[v] in w.jobs && w.jobs[w.visits[v]].tenant == tenant
  }

  /** What the first `n` visits would charge the tenant if each worked its job through. */
  function FullCharge(e: Provider, w: World, tenant: string, n: nat): real
    requires n <= |w.visits|
  {
    if n == 0 then 0.0
    else
      var j := w.visits[n - 1];
      FullCharge(e, w, tenant, n - 1) + (if OfTenant(w, n - 1, tenant) then ActsCost(Plan(e, w.jobs[j], j)) else 0.0)
  }

  /** What they have charged according to the rows. */
  function SpentBy(audits: seq<Entry>, w: World, tenant: string, n: nat): real
    requires n <= |w.visits|
  {
    if n == 0 then 0.0
    else SpentBy(audits, w, tenant, n - 1) + (if OfTenant(w, n - 1, tenant) then VisitSpend(audits, n - 1) else 0.0)
  }

  /** One more row counts for the visit it came from, if that is among the first `n`. */
  lemma {:induction false} SpentByNext(audits: seq<Entry>, entry: Entry, w: World, tenant: string, n: nat)
    requires n <= |w.visits|
    ensures SpentBy(audits + [entry], w, tenant, n)
         == SpentBy(audits, w, tenant, n)
            + (if entry.visit < n && OfTenant(w, entry.visit, tenant) then entry.row.cost else 0.0)
  {
    if n == 0 {
    } else {
      SpentByNext(audits, entry, w, tenant, n - 1);
      VisitSpendNext(audits, entry, n - 1);
    }
  }

  lemma {:induction false} NoRowsNothingSpent(w: World, tenant: string, n: nat)
    requires n <= |w.visits|
    ensures SpentBy([], w, tenant, n) == 0.0
  {
    if n == 0 {
    } else {
      NoRowsNothingSpent(w, tenant, n - 1);
    }
  }

  /** A row's tenant is its job's, and its cost is not negative. */
  lemma AskedRow(e: Provider, w: World, entry: Entry)
    requires entry.visit < |w.visits| && VisitsKnown(w) && RowAsked(e, w, entry)
    ensures entry.row.tenant == w.jobs[w.visits[entry.visit]].tenant && entry.row.cost >= 0.0
  {
    var j := w.visits[entry.visit];
    ActsCostNothingNegative(e.gates, w.jobs[j], e.lines(j), entry.at);
    var n := ActComesFromLine(e.gates, w.jobs[j], e.lines(j), entry.at);
  }

  ghost predicate AllAsked(e: Provider, w: World, audits: seq<Entry>)
    requires VisitsKnown(w)
  {
    forall n :: 0 <= n < |audits| ==> audits[n].visit < |w.visits| && RowAsked(e, w, audits[n])
  }

  lemma AllAskedFront(e: Provider, w: World, audits: seq<Entry>)
    requires VisitsKnown(w) && AllAsked(e, w, audits) && audits != []
    ensures AllAsked(e, w, audits[..|audits| - 1])
    ensures audits[|audits| - 1].visit < |w.visits| && RowAsked(e, w, audits[|audits| - 1])
    ensures audits == audits[..|audits| - 1] + [audits[|audits| - 1]]
  {
    forall n | 0 <= n < |audits| - 1 ensures audits[n].visit < |w.visits| && RowAsked(e, w, audits[n]) {
    }
  }

  /** The month's sum over the rows is at most what the tenant's visits spent. */
  lemma {:induction false} MonthIsWhatVisitsSpent(e: Provider, w: World, audits: seq<Entry>, at: nat -> int,
                                                  tenant: string, monthStart: int)
    requires VisitsKnown(w) && AllAsked(e, w, audits)
    ensures MonthSpend(LedgerOf(audits, at), tenant, monthStart) <= SpentBy(audits, w, tenant, |w.visits|)
  {
    if audits == [] {
      NoRowsNothingSpent(w, tenant, |w.visits|);
    } else {
      var front, last := audits[..|audits| - 1], audits[|audits| - 1];
      AllAskedFront(e, w, audits);
      MonthIsWhatVisitsSpent(e, w, front, at, tenant, monthStart);
      AskedRow(e, w, last);
      SpentByNext(front, last, w, tenant, |w.visits|);
      LedgerNext(front, last, at, tenant, monthStart);
    }
  }

  lemma LedgerNext(front: seq<Entry>, last: Entry, at: nat -> int, tenant: string, monthStart: int)
    requires last.row.cost >= 0.0
    ensures MonthSpend(LedgerOf(front + [last], at), tenant, monthStart)
         <= MonthSpend(LedgerOf(front, at), tenant, monthStart)
             + (if last.row.tenant == tenant then last.row.cost else 0.0)
  {
    var audits := front + [last];
    assert audits[..|front|] == front;
    var ledger := LedgerOf(audits, at);
    assert ledger[..|ledger| - 1] == LedgerOf(front, at);
  }

  lemma {:induction false} PrefixCostsLess(acts: seq<Act>, pos: nat)
    requires pos <= |acts| && forall i :: 0 <= i < |acts| ==> ActCost(acts[i]) >= 0.0
    ensures ActsCost(acts[..pos]) <= ActsCost(acts)
    decreases |acts| - pos
  {
    if pos == |acts| {
      assert acts[..pos] == acts;
    } else {
      CostOfOneMore(acts, pos);
      PrefixCostsLess(acts, pos + 1);
    }
  }

  lemma {:induction false} SpentWithinFullCharge(e: Provider, w: World, tenant: string, n: nat)
    requires Accounted(e, w) && n <= |w.visits|
    ensures SpentBy(w.audits, w, tenant, n) <= FullCharge(e, w, tenant, n)
  {
    if n == 0 {
    } else {
      SpentWithinFullCharge(e, w, tenant, n - 1);
      var v, j := n - 1, w.visits[n - 1];
      assert Charged(e, w, v);
      var pos :| SpentUpTo(e, w, v, pos);
      forall i | 0 <= i < |Plan(e, w.jobs[j], j)| ensures ActCost(Plan(e, w.jobs[j], j)[i]) >= 0.0 {
        ActsCostNothingNegative(e.gates, w.jobs[j], e.lines(j), i);
      }
      PrefixCostsLess(Plan(e, w.jobs[j], j), pos);
    }
  }

  /** In every run, interrupted and overlapping polls included, polling charges a tenant at most
      one full working-through of the job for every visit to one of its jobs. */
  lemma PollingChargesPerVisit(e: Provider, w0: World, steps: seq<Step>, w: World, at: nat -> int, tenant: string,
                               monthStart: int)
    requires Fresh(w0) && Reaches(e, w0, steps, w)
    ensures MonthSpend(LedgerOf(w.audits, at), tenant, monthStart) <= FullCharge(e, w, tenant, |w.visits|)
  {
    RunsAreAccounted(e, w0, steps, w);
    MonthIsWhatVisitsSpent(e, w, w.audits, at, tenant, monthStart);
    SpentWithinFullCharge(e, w, tenant, |w.visits|);
  }

  // ---- From a submission on ----

  /** Since `w1`, when no poller was running, every new row comes from a new visit. */
  ghost predicate NewRowsFromNewVisits(w1: World, w: World) {
    && w1.audits <= w.audits && w1.visits <= w.visits
    && (forall n :: |w1.audits| <= n < |w.audits| ==> |w1.visits| <= w.audits[n].visit)
    && (forall p :: p in w.pollers && w.pollers[p].visit.Some? ==> |w1.visits| <= w.pollers[p].visit.value.id)
  }

  lemma {:induction false} RunsAddNewRows(e: Provider, w1: World, steps: seq<Step>, w: World)
    requires w1.pollers == map[] && Reaches(e, w1, steps, w)
    ensures NewRowsFromNewVisits(w1, w)
  {
    if steps == [] {
    } else {
      var front, s := steps[..|steps| - 1], steps[|steps| - 1];
      var mid :| Reaches(e, w1, front, mid) && Advances(e, mid, s, w);
      RunsAddNewRows(e, w1, front, mid);
      StepAddsNewRows(e, w1, mid, s);
    }
  }

  lemma StepAddsNewRows(e: Provider, w1: World, w: World, s: Step)
    requires Enabled(e, w, s) && NewRowsFromNewVisits(w1, w)
    ensures NewRowsFromNewVisits(w1, Apply(e, w, s))
  {
  }

  ghost predicate OnlyVisit(audits: seq<Entry>, from: nat, tenant: string, v: int) {
    forall n :: from <= n < |audits| && audits[n].row.tenant == tenant ==> audits[n].visit == v
  }

  /** Rows past `from` that are the tenant's only if they are visit `v`'s add to the month at most
      what they add to that visit's spend. */
  lemma {:induction false} NewRowsCharge(e: Provider, w: World, audits: seq<Entry>, from: nat, at: nat -> int,
                                         tenant: string, monthStart: int, v: int)
    requires VisitsKnown(w) && AllAsked(e, w, audits) && from <= |audits|
    requires OnlyVisit(audits, from, tenant, v)
    ensures var old', new' := LedgerOf(audits[..from], at), LedgerOf(audits, at);
            MonthSpend(new', tenant, monthStart) - MonthSpend(old', tenant, monthStart)
            <= VisitSpend(audits, v) - VisitSpend(audits[..from], v)
    decreases |audits|
  {
    if |audits| == from {
      assert audits[..from] == audits;
    } else {
      var front, last := audits[..|audits| - 1], audits[|audits| - 1];
      AllAskedFront(e, w, audits);
      NewRowsCharge(e, w, front, from, at, tenant, monthStart, v);
      AskedRow(e, w, last);
      LedgerNext(front, last, at, tenant, monthStart);
      VisitSpendNext(front, last, v);
      assert front[..from] == audits[..from];
    }
  }

  /** Every other job of the tenant was done with before. */
  ghost predicate OthersDone(w1: World, w: World, tenant: string, j: int) {
    && j in w.jobs
    && forall k :: k in w.jobs && k != j && w.jobs[k].tenant == tenant ==> k in w1.completed
  }

  /** Then the tenant's new rows are all of one visit. */
  lemma NewTenantRows(e: Provider, w1: World, w: World, tenant: string, j: int, v: int, n: int)
    requires Accounted(e, w) && SerialSince(w1, w) && NewRowsFromNewVisits(w1, w) && OthersDone(w1, w, tenant, j)
    requires |w1.visits| <= v < |w.visits| ==> w.visits[v] == j
    requires v < |w1.visits| ==> forall u :: |w1.visits| <= u < |w.visits| ==> w.visits[u] != j
    requires v < |w.visits| && |w1.audits| <= n < |w.audits| && w.audits[n].row.tenant == tenant
    ensures w.audits[n].visit == v
  {
    AskedRow(e, w, w.audits[n]);
    assert w.visits[w.audits[n].visit] == j;
  }

  lemma NoActsCostLess(e: Provider, job: Job, j: int, pos: nat)
    requires pos <= |Plan(e, job, j)|
    ensures ActsCost(Plan(e, job, j)[..pos]) <= ActsCost(Plan(e, job, j))
  {
    forall i | 0 <= i < |Plan(e, job, j)| ensures ActCost(Plan(e, job, j)[i]) >= 0.0 {
      ActsCostNothingNegative(e.gates, job, e.lines(j), i);
    }
    PrefixCostsLess(Plan(e, job, j), pos);
  }

  /** What a visit that started after `w1` has charged in all. */
  lemma NewVisitCharges(e: Provider, w1: World, w: World, j: int, v: int)
    requires Accounted(e, w) && j in w.jobs && v < |w.visits| && (|w1.visits| <= v ==> w.visits[v] == j)
    requires v < |w1.visits| ==> v < 0
    ensures VisitSpend(w.audits, v) <= ActsCost(Plan(e, w.jobs[j], j))
  {
    if v < 0 {
      NoRowsNoSpend(w.audits, v);
      NoActsCostLess(e, w.jobs[j], j, 0);
    } else {
      assert Charged(e, w, v);
      var pos :| SpentUpTo(e, w, v, pos);
      NoActsCostLess(e, w.jobs[j], j, pos);
    }
  }

  /** The visit of `j` since `w1`, or -1. */
  lemma VisitSince(w1: World, w: World, j: int) returns (v: int)
    requires |w1.visits| <= |w.visits|
    ensures v < |w.visits| && (|w1.visits| <= v ==> w.visits[v] == j) && (v < |w1.visits| ==> v == -1)
    ensures v == -1 ==> forall u :: |w1.visits| <= u < |w.visits| ==> w.visits[u] != j
  {
    if u :| |w1.visits| <= u < |w.visits| && w.visits[u] == j {
      v := u;
    } else {
      v := -1;
    }
  }

  /** After any history at all, interrupted and overlapping polls included: from a moment without a
      running poller on, undisturbed polling adds to the tenant's month at most one full
      working-through of its one job that was not completed yet. */
  lemma UndisturbedPollingChargesOnce(e: Provider, w0: World, past: seq<Step>, w1: World, steps: seq<Step>, w: World,
                                      j: int, at: nat -> int, tenant: string, monthStart: int)
    requires Fresh(w0) && Reaches(e, w0, past, w1) && w1.pollers == map[] && CalmlyReaches(e, w1, steps, w)
    requires OthersDone(w1, w, tenant, j)
    ensures MonthSpend(LedgerOf(w.audits, at), tenant, monthStart)
         <= MonthSpend(LedgerOf(w1.audits, at), tenant, monthStart) + ActsCost(Plan(e, w.jobs[j], j))
  {
    FactsSince(e, w0, past, w1, steps, w);
    RunsAreAccounted(e, w0, past, w1);
    ChargedOnceSince(e, w1, w, j, at, tenant, monthStart);
  }

  lemma ChargedOnceSince(e: Provider, w1: World, w: World, j: int, at: nat -> int, tenant: string, monthStart: int)
    requires Accounted(e, w1) && Accounted(e, w) && SerialSince(w1, w) && NewRowsFromNewVisits(w1, w)
    requires OthersDone(w1, w, tenant, j)
    ensures MonthSpend(LedgerOf(w.audits, at), tenant, monthStart)
         <= MonthSpend(LedgerOf(w1.audits, at), tenant, monthStart) + ActsCost(Plan(e, w.jobs[j], j))
  {
    var v := VisitSince(w1, w, j);
    TenantRowsAreOneVisits(e, w1, w, tenant, j, v);
    assert AllAsked(e, w, w.audits);
    NewRowsCharge(e, w, w.audits, |w1.audits|, at, tenant, monthStart, v);
    assert w.audits[..|w1.audits|] == w1.audits;
    NoRowsNoSpend(w1.audits, v);
    NewVisitCharges(e, w1, w, j, v);
  }

  lemma FactsSince(e: Provider, w0: World, past: seq<Step>, w1: World, steps: seq<Step>, w: World)
    requires Fresh(w0) && Reaches(e, w0, past, w1) && w1.pollers == map[] && CalmlyReaches(e, w1, steps, w)
    ensures Accounted(e, w) && SerialSince(w1, w) && NewRowsFromNewVisits(w1, w)
  {
    CalmRunsAreRuns(e, w1, steps, w);
    CalmRunsAreSerial(e, w1, steps, w);
    RunsCompose(e, w0, past, w1, steps, w);
    RunsAreAccounted(e, w0, past + steps, w);
    RunsAddNewRows(e, w1, steps, w);
  }

  lemma TenantRowsAreOneVisits(e: Provider, w1: World, w: World, tenant: string, j: int, v: int)
    requires Accounted(e, w) && SerialSince(w1, w) && NewRowsFromNewVisits(w1, w) && OthersDone(w1, w, tenant, j)
    requires v < |w.visits| && (|w1.visits| <= v ==> w.visits[v] == j)
    requires v < |w1.visits| ==> forall u :: |w1.visits| <= u < |w.visits| ==> w.visits[u] != j
    ensures OnlyVisit(w.audits, |w1.audits|, tenant, v)
  {
    forall n | |w1.audits| <= n < |w.audits| && w.audits[n].row.tenant == tenant ensures w.audits[n].visit == v {
      NewTenantRows(e, w1, w, tenant, j, v, n);
    }
  }

  lemma SentMeansItFits(cache: map<string, Candidate>, d: Desk, t: Tenant, night: Night)
    requires t.cap.Some? && AfterTenant(cache, d, t, night, NoSetback).batches != d.batches
    ensures var estimate := BatchEstimate(t.model, Counts(DueAmong(cache, t, night, t.findings)));
            MonthSpend(d.ledger, t.name, night.monthStart) + estimate as real < t.cap.value
  {
  }

  /** From submission to the month's sum, after any history of the table: let a batch of the tenant
      pass the budget check when no poller is running, over a ledger of the rows polled so far and
      any others. If its earlier jobs are completed and polling goes on undisturbed, the month stays
      below the cap plus the rounding, in whatever order the results arrive. */
  lemma SentBatchPolledOnceStaysUnderCap(e: Provider, w0: World, past: seq<Step>, w1: World, steps: seq<Step>, w: World,
                                         j: int, at: nat -> int, others: seq<AuditRow>,
                                         cache: map<string, Candidate>, d: Desk, t: Tenant, night: Night)
    requires Fresh(w0) && Reaches(e, w0, past, w1) && w1.pollers == map[] && CalmlyReaches(e, w1, steps, w)
    requires OthersDone(w1, w, t.name, j)
    requires DistinctFindings(t.findings) && t.cap.Some?
    requires d.ledger == others + LedgerOf(w1.audits, at)
    requires AfterTenant(cache, d, t, night, NoSetback).batches != d.batches
    requires var requests := DueAmong(cache, t, night, t.findings);
             && w.jobs[j] == JobFor(t, night, requests)
             && AnsweredOnce(e.lines(j)) && KeepsToCounts(e.lines(j), Ids(requests), Counts(requests))
    ensures MonthSpend(others + LedgerOf(w.audits, at), t.name, night.monthStart)
          < t.cap.value + (|DueAmong(cache, t, night, t.findings)| + 2) as real / 4.0
  {
    var requests := DueAmong(cache, t, night, t.findings);
    DueKeepsDistinct(cache, t, night, t.findings);
    WorkNeverOutrunsEstimate(e.gates, t, night, requests, e.lines(j));
    UndisturbedPollingChargesOnce(e, w0, past, w1, steps, w, j, at, t.name, night.monthStart);
    SentMeansItFits(cache, d, t, night);
    SpendAppends(others, LedgerOf(w1.audits, at), t.name, night.monthStart);
    SpendAppends(others, LedgerOf(w.audits, at), t.name, night.monthStart);
  }
}

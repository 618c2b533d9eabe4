/** The nightly submitter: which findings it asks about, what it freezes in the job row, and how
    that meets what the poller writes later. */
module BatchPrewarm {
  import opened Common
  import opened AnswerGates
  import opened BatchWork
  import opened BatchCost
  import opened BatchProtocol
  import CacheKey

  /** A finding of tonight's scope: the digest of its allowlisted fields, absent when its
      grounding record is gone, and what the provider's token counter says of its prompt. */
  datatype Finding = Finding(id: string, digest: Option<string>, counted: nat)

  datatype Tenant = Tenant(name: string, hasKey: bool, model: string, cap: Option<real>, findings: seq<Finding>)

  /** Where an exception hits a tenant's turn: nowhere, before anything was sent or committed,
      or after the provider took the batch. */
  datatype Setback = NoSetback | BeforeSending | AfterSending

  datatype Night = Night(promptVersion: string, monthStart: int, now: int)

  /** A batch the provider accepted, by tenant and custom ids. */
  datatype Batch = Batch(tenant: string, ids: seq<string>)

  /** What a night changes: job rows, audit rows and accepted batches, all append-only. */
  datatype Desk = Desk(jobs: seq<Job>, ledger: seq<AuditRow>, batches: seq<Batch>)

  function KeyTested(t: Tenant, night: Night, f: Finding): string
    requires f.digest.Some?
  {
    CacheKey.BuildCacheKey(t.name, RESOURCE_TYPE, f.id, f.digest.value, t.model, night.promptVersion)
  }

  predicate Due(cache: map<string, Candidate>, t: Tenant, night: Night, f: Finding) {
    f.digest.Some? && KeyTested(t, night, f) !in cache
  }

  /** The findings to ask about, in order. */
  function DueAmong(cache: map<string, Candidate>, t: Tenant, night: Night, fs: seq<Finding>): seq<Finding> {
    if fs == [] then []
    else
      var f := fs[|fs| - 1];
      DueAmong(cache, t, night, fs[..|fs| - 1]) + (if Due(cache, t, night, f) then [f] else [])
  }

  /** Every request's digest by its id; a later request with the same id replaces an earlier one. */
  function HashesOf(fs: seq<Finding>): map<string, string> {
    if fs == [] then map[]
    else HashesOf(fs[..|fs| - 1])[fs[|fs| - 1].id := fs[|fs| - 1].digest.GetOr("")]
  }

  function Counts(fs: seq<Finding>): seq<nat> {
    seq(|fs|, i requires 0 <= i < |fs| => fs[i].counted)
  }

  function Ids(fs: seq<Finding>): seq<string> {
    seq(|fs|, i requires 0 <= i < |fs| => fs[i].id)
  }

  function JobFor(t: Tenant, night: Night, requests: seq<Finding>): Job {
    Job(t.name, t.model, night.promptVersion, HashesOf(requests))
  }

  predicate Refused(ledger: seq<AuditRow>, t: Tenant, night: Night, requests: seq<Finding>) {
    WouldExceedBudget(ledger, t.name, night.monthStart, t.cap, BatchEstimate(t.model, Counts(requests)))
  }

  // ---- The submitter ----

  class Submitter {
    const cache: map<string, Candidate>
    var jobs: seq<Job>
    var ledger: seq<AuditRow>
    var batches: seq<Batch>

    constructor (cache: map<string, Candidate>, desk: Desk)
      ensures this.cache == cache && Contents() == desk
    {
      this.cache := cache;
      jobs, ledger, batches := desk.jobs, desk.ledger, desk.batches;
    }

    ghost function Contents(): Desk
      reads this
    {
      Desk(jobs, ledger, batches)
    }

    method CollectRequests(t: Tenant, night: Night) returns (requests: seq<Finding>, hashes: map<string, string>)
      ensures requests == DueAmong(cache, t, night, t.findings)
      ensures hashes == HashesOf(requests)
    {
      requests, hashes := [], map[];
      for i := 0 to |t.findings|
        invariant requests == DueAmong(cache, t, night, t.findings[..i]) && hashes == HashesOf(requests)
      {
        var f := t.findings[i];
        assert t.findings[..i + 1][..i] == t.findings[..i];
        if f.digest.None? {
          continue;
        }
        if KeyTested(t, night, f) in cache {
          continue;
        }
        hashes := hashes[f.id := f.digest.value];
        assert (requests + [f])[..|requests|] == requests;
        requests := requests + [f];
      }
      assert t.findings[..|t.findings|] == t.findings;
    }

    /** One tenant's turn: all of its due findings in one batch, or none. */
    method PrewarmTenant(t: Tenant, night: Night, setback: Setback)
      modifies this
      ensures Contents() == AfterTenant(cache, old(Contents()), t, night, setback)
    {
      if !t.hasKey {
        return;
      }
      var requests, hashes := CollectRequests(t, night);
      if requests == [] {
        return;
      }
      var estimate := EstimateBatchCost(t.model, Counts(requests));
      if setback.BeforeSending? {
        return;
      }
      if WouldExceedBudget(ledger, t.name, night.monthStart, t.cap, estimate) {
        ledger := ledger + [AuditRow(t.name, true, night.now, Some(0.0))];
        return;
      }
      batches := batches + [Batch(t.name, Ids(requests))];
      if setback.AfterSending? {
        return;
      }
      jobs := jobs + [Job(t.name, t.model, night.promptVersion, hashes)];
    }

    /** The whole night: one tenant's failure does not end it. */
    method RunPrewarm(tenants: seq<Tenant>, night: Night, setbacks: nat -> Setback)
      modifies this
      ensures Contents() == AfterNight(cache, old(Contents()), tenants, night, setbacks)
    {
      for i := 0 to |tenants|
        invariant Contents() == AfterNight(cache, old(Contents()), tenants[..i], night, setbacks)
      {
        assert tenants[..i + 1][..i] == tenants[..i];
        PrewarmTenant(tenants[i], night, setbacks(i));
      }
      assert tenants[..|tenants|] == tenants;
    }
  }

  function AfterTenant(cache: map<string, Candidate>, d: Desk, t: Tenant, night: Night, setback: Setback): Desk {
    var requests := DueAmong(cache, t, night, t.findings);
    if !t.hasKey || requests == [] || setback.BeforeSending? then d
    else if Refused(d.ledger, t, night, requests)
        then d.(ledger := d.ledger + [AuditRow(t.name, true, night.now, Some(0.0))])
    else
      d.(batches := d.batches + [Batch(t.name, Ids(requests))],
         jobs := d.jobs + (if setback.AfterSending? then [] else [JobFor(t, night, requests)]))
  }

  function AfterNight(cache: map<string, Candidate>, d: Desk, tenants: seq<Tenant>, night: Night,
                      setbacks: nat -> Setback): Desk {
    if tenants == [] then d
    else
      var n := |tenants| - 1;
      AfterTenant(cache, AfterNight(cache, d, tenants[..n], night, setbacks), tenants[n], night, setbacks(n))
  }

  // ---- The night as a whole ----

  /** The rows one tenant's turn would add if it were alone. */
  function JobsAlone(cache: map<string, Candidate>, d: Desk, t: Tenant, night: Night, setback: Setback): seq<Job> {
    AfterTenant(cache, d.(jobs := []), t, night, setback).jobs
  }

  function JobsOfEach(cache: map<string, Candidate>, d: Desk, tenants: seq<Tenant>, night: Night,
                      setbacks: nat -> Setback): seq<Job> {
    if tenants == [] then []
    else
      var n := |tenants| - 1;
      JobsOfEach(cache, d, tenants[..n], night, setbacks) + JobsAlone(cache, d, tenants[n], night, setbacks(n))
  }

  /** The submitter itself spends nothing, so no turn changes any tenant's month. */
  lemma {:induction false} NightSpendsNothing(cache: map<string, Candidate>, d: Desk, tenants: seq<Tenant>,
                                              night: Night,
                                              setbacks: nat -> Setback, name: string, monthStart: int)
    ensures MonthSpend(AfterNight(cache, d, tenants, night, setbacks).ledger, name, monthStart)
         == MonthSpend(d.ledger, name, monthStart)
  {
    if tenants == [] {
    } else {
      var n := |tenants| - 1;
      NightSpendsNothing(cache, d, tenants[..n], night, setbacks, name, monthStart);
      var before := AfterNight(cache, d, tenants[..n], night, setbacks);
      var row := AuditRow(tenants[n].name, true, night.now, Some(0.0));
      SpendAppends(before.ledger, [row], name, monthStart);
      assert MonthSpend([row], name, monthStart) == MonthSpend([], name, monthStart) + SpendOf(row, name, monthStart);
    }
  }

  /** Isolation: a night's new job rows are those every tenant's turn would have added alone,
      whatever exceptions and refusals hit the others. */
  lemma {:induction false} TenantsDoNotDisturbEachOther(cache: map<string, Candidate>, d: Desk, tenants: seq<Tenant>,
                                                        night: Night,
                                                        setbacks: nat -> Setback)
    ensures AfterNight(cache, d, tenants, night, setbacks).jobs
         == d.jobs + JobsOfEach(cache, d, tenants, night, setbacks)
  {
    if tenants == [] {
    } else {
      var n := |tenants| - 1;
      TenantsDoNotDisturbEachOther(cache, d, tenants[..n], night, setbacks);
      NightSpendsNothing(cache, d, tenants[..n], night, setbacks, tenants[n].name, night.monthStart);
    }
  }

  /** Fail closed: a tenant whose month would reach its cap gets no batch and no job, and a batch
      that is sent keeps the month under the cap however its items turn out. */
  lemma SentBatchFitsTheBudget(cache: map<string, Candidate>, d: Desk, t: Tenant, night: Night, setback: Setback,
                               more: seq<AuditRow>, results: seq<Result>)
    requires t.cap.Some? && AfterTenant(cache, d, t, night, setback).batches != d.batches
    requires var requests := DueAmong(cache, t, night, t.findings);
             WithinCounts(results, Ids(requests), Counts(requests)) && DistinctFindings(t.findings)
    requires AuditsBatch(more, t.name, night.monthStart, t.model, results)
    ensures MonthSpend(d.ledger + more, t.name, night.monthStart)
          < t.cap.value + (|DueAmong(cache, t, night, t.findings)| + 2) as real / 4.0
  {
    var requests := DueAmong(cache, t, night, t.findings);
    DueKeepsDistinct(cache, t, night, t.findings);
    SubmittedBatchStaysUnderCap(d.ledger, more, t.name, night.monthStart, t.cap.value, t.model,
                                Ids(requests), Counts(requests), results);
  }

  /** A turn sends a batch exactly when the tenant has a key and something due, nothing failed before,
      and the month's spend with the estimate stays below the cap; the batch asks about the due
      findings, one id each and in their order, under the tenant's name. */
  lemma SentExactlyWhen(cache: map<string, Candidate>, d: Desk, t: Tenant, night: Night, setback: Setback)
    ensures var due := DueAmong(cache, t, night, t.findings);
            var counted := seq(|due|, k requires 0 <= k < |due| => due[k].counted);
            var sent := AfterTenant(cache, d, t, night, setback).batches;
            && (sent != d.batches <==>
                  && t.hasKey && due != [] && setback != BeforeSending
                  && (t.cap.Some? ==> MonthSpend(d.ledger, t.name, night.monthStart)
                                      + BatchEstimate(t.model, counted) as real < t.cap.value))
            && (sent != d.batches ==>
                  && |sent| == |d.batches| + 1 && sent[..|d.batches|] == d.batches
                  && var b := sent[|d.batches|];
                     b.tenant == t.name && |b.ids| == |due| && forall k :: 0 <= k < |due| ==> b.ids[k] == due[k].id)
  {
    var requests := DueAmong(cache, t, night, t.findings);
    var one := [Batch(t.name, Ids(requests))];
    assert Counts(requests) == seq(|requests|, k requires 0 <= k < |requests| => requests[k].counted);
    assert (d.batches + one)[..|d.batches|] == d.batches && |d.batches + one| == |d.batches| + 1;
  }

  // ---- Submitting and polling agree ----

  /** Exactly the due findings are asked about. */
  lemma {:induction false} DueAmongExactly(cache: map<string, Candidate>, t: Tenant, night: Night, fs: seq<Finding>,
                                           f: Finding)
    ensures f in DueAmong(cache, t, night, fs) <==> f in fs && Due(cache, t, night, f)
  {
    if fs == [] {
    } else {
      DueAmongExactly(cache, t, night, fs[..|fs| - 1], f);
      assert fs == fs[..|fs| - 1] + [fs[|fs| - 1]];
    }
  }

  /** Findings are told apart by their ids. */
  ghost predicate DistinctFindings(fs: seq<Finding>) {
    forall i, j :: 0 <= i < j < |fs| ==> fs[i].id != fs[j].id
  }

  lemma {:induction false} DueKeepsDistinct(cache: map<string, Candidate>, t: Tenant, night: Night, fs: seq<Finding>)
    requires DistinctFindings(fs)
    ensures DistinctFindings(DueAmong(cache, t, night, fs))
  {
    if fs == [] {
    } else {
      var front, last := fs[..|fs| - 1], fs[|fs| - 1];
      DueKeepsDistinct(cache, t, night, front);
      forall f | f in DueAmong(cache, t, night, front) ensures f.id != last.id {
        DueAmongExactly(cache, t, night, front, f);
        var i :| 0 <= i < |front| && front[i] == f;
        assert fs[i] == f;
      }
    }
  }

  lemma {:induction false} HashedIdsAreRequested(fs: seq<Finding>, id: string)
    requires id in HashesOf(fs)
    ensures id in Ids(fs)
  {
    if fs == [] {
    } else {
      var front, last := fs[..|fs| - 1], fs[|fs| - 1];
      assert Ids(fs) == Ids(front) + [last.id];
      if id != last.id {
        HashedIdsAreRequested(front, id);
      }
    }
  }

  lemma {:induction false} HashesByIndex(fs: seq<Finding>, i: nat)
    requires DistinctFindings(fs) && i < |fs|
    ensures fs[i].id in HashesOf(fs) && HashesOf(fs)[fs[i].id] == fs[i].digest.GetOr("")
  {
    if i < |fs| - 1 {
      HashesByIndex(fs[..|fs| - 1], i);
    }
  }

  /** The key the poller will write a finding's answer under is the very key the submitter
      found missing, although the job row keeps only digests, model and prompt version. */
  lemma SubmitAndPollAgree(cache: map<string, Candidate>, t: Tenant, night: Night, f: Finding)
    requires DistinctFindings(t.findings) && f in t.findings && Due(cache, t, night, f)
    ensures var job := JobFor(t, night, DueAmong(cache, t, night, t.findings));
            && f.id in job.hashes && KeyFor(job, f.id) == KeyTested(t, night, f)
            && KeyFor(job, f.id) == CacheKey.BuildCacheKey(t.name, "prioritization", f.id, f.digest.value, t.model,
                                                           night.promptVersion)
  {
    var due := DueAmong(cache, t, night, t.findings);
    DueAmongExactly(cache, t, night, t.findings, f);
    DueKeepsDistinct(cache, t, night, t.findings);
    var i :| 0 <= i < |due| && due[i] == f;
    HashesByIndex(due, i);
  }

  /** Once a submitted job is completed, every finding the model answered acceptably is skipped by
      every later night with the same digest, model and prompt version, whatever polls,
      submissions and crashes happen meanwhile. */
  lemma AnsweredFindingsAreSkipped(e: Provider, w0: World, steps: seq<Step>, w: World, later: seq<Step>, w': World,
                                   j: int, n: nat, cache: map<string, Candidate>, t: Tenant, night: Night, f: Finding,
                                   t': Tenant, night': Night, f': Finding, c: Candidate)
    requires Fresh(w0) && Reaches(e, w0, steps, w) && Reaches(e, w, later, w')
    requires DistinctFindings(t.findings) && f in t.findings && Due(cache, t, night, f)
    requires j in w.completed && j in w.jobs && w.jobs[j] == JobFor(t, night, DueAmong(cache, t, night, t.findings))
    requires n < |e.lines(j)| && e.lines(j)[n].customId == f.id && e.lines(j)[n].result.Succeeded?
    requires Judge(e.gates, e.lines(j)[n].result.text) == Accepted(c)
    requires t'.name == t.name && t'.model == t.model && night'.promptVersion == night.promptVersion
    requires f'.id == f.id && f'.digest == f.digest
    ensures !Due(w'.cache, t', night', f')
  {
    SubmitAndPollAgree(cache, t, night, f);
    CompletedMeansAcceptedCached(e, w0, steps, w, j, n, KeyTested(t, night, f), c);
    CompletionNeverReverts(e, w, later, w');
  }

  /** When everything submitted is completed, a finding that was due is skipped next time exactly
      when some job's result was accepted under its key: rejected and missing answers leave it due. */
  lemma SkippedIffAnswered(e: Provider, w0: World, steps: seq<Step>, w: World, t: Tenant, night: Night, f: Finding)
    requires Fresh(w0) && Reaches(e, w0, steps, w) && AllCompleted(w)
    requires Due(w0.cache, t, night, f)
    ensures !Due(w.cache, t, night, f) <==> AnsweredUnder(e, w, KeyTested(t, night, f))
  {
    var key := KeyTested(t, night, f);
    if AnsweredUnder(e, w, key) {
      var j, n, c :| AnswerOf(e, w, j, n, key, c);
      CompletedMeansAcceptedCached(e, w0, steps, w, j, n, key, c);
    }
    if key in w.cache {
      RunKeepsInv(e, w0, steps, w);
      var j, i :| Puts(e, w.jobs, j, i, key, w.cache[key]);
      var n := PutComesFromLine(e.gates, w.jobs[j], e.lines(j), i, key, w.cache[key]);
      assert AnswerOf(e, w, j, n, key, w.cache[key]);
    }
  }

  ghost predicate AnswerOf(e: Provider, w: World, j: int, n: int, key: string, c: Candidate) {
    j in w.jobs && 0 <= n < |e.lines(j)| && AcceptedAs(e.gates, w.jobs[j], e.lines(j)[n], key, c)
  }

  ghost predicate AnsweredUnder(e: Provider, w: World, key: string) {
    exists j, n, c :: AnswerOf(e, w, j, n, key, c)
  }
}

/** Polling as a protocol: any number of pollers, each interrupted anywhere, working from the
    durable job table. */
module BatchProtocol {
  import opened Common
  import opened AnswerGates
  import opened BatchWork

  /** The provider's side: the result lines of a job's batch, the same whenever they are read. */
  datatype Provider = Provider(gates: Gates, lines: int -> seq<Line>)

  function Plan(e: Provider, job: Job, j: int): seq<Act> {
    JobActs(e.gates, job, e.lines(j))
  }

  /** One poller going through one job: it has done the first `pos` acts. Visits are numbered in
      the order they start. */
  datatype Visit = Visit(id: nat, job: int, pos: nat)

  /** A running poller: the ids it selected and has yet to look at, and the job in hand. */
  datatype Cursor = Cursor(todo: seq<int>, visit: Option<Visit>)

  /** An audit row together with the visit and the place in the job's work it came from. */
  datatype Entry = Entry(visit: nat, at: nat, row: Row)

  /** What is durable (jobs, completion marks, cache, audit rows), the pollers running, and the
      job of every visit so far. */
  datatype World = World(
    jobs: map<int, Job>,
    completed: set<int>,
    cache: map<string, Candidate>,
    audits: seq<Entry>,
    visits: seq<int>,
    pollers: map<int, Cursor>)

  datatype Step =
    | Submit(job: int, row: Job)
    | Select(p: int, todo: seq<int>)   // read the ids still in progress
    | PassOver(p: int)                 // no key, not ended yet, or an exception before any result
    | Open(p: int)                     // start on the next id, whatever its status is by now
    | Perform(p: int)
    | Complete(p: int)                 // mark completed and commit
    | Raise(p: int)                    // an exception: give the job up, go to the next one
    | Crash(p: int)                    // the process dies
    | Finish(p: int)

  ghost predicate ListsInProgress(w: World, todo: seq<int>) {
    && NoDuplicates(todo)
    && (forall i :: 0 <= i < |todo| ==> todo[i] in w.jobs && todo[i] !in w.completed)
    && (forall j :: j in w.jobs && j !in w.completed ==> j in todo)
  }

  predicate Visiting(w: World, p: int) {
    p in w.pollers && w.pollers[p].visit.Some? && w.pollers[p].visit.value.job in w.jobs
  }

  function VisitOf(w: World, p: int): Visit
    requires Visiting(w, p)
  {
    w.pollers[p].visit.value
  }

  function PlanOf(e: Provider, w: World, p: int): seq<Act>
    requires Visiting(w, p)
  {
    Plan(e, w.jobs[VisitOf(w, p).job], VisitOf(w, p).job)
  }

  predicate BetweenJobs(w: World, p: int) {
    p in w.pollers && w.pollers[p].visit.None? && w.pollers[p].todo != []
  }

  ghost predicate Enabled(e: Provider, w: World, s: Step) {
    match s
    case Submit(j, _) => j !in w.jobs
    case Select(p, todo) => p !in w.pollers && ListsInProgress(w, todo)
    case PassOver(p) => BetweenJobs(w, p)
    case Open(p) => BetweenJobs(w, p) && w.pollers[p].todo[0] in w.jobs
    case Perform(p) => Visiting(w, p) && VisitOf(w, p).pos < |PlanOf(e, w, p)|
    case Complete(p) => Visiting(w, p) && VisitOf(w, p).pos == |PlanOf(e, w, p)|
    case Raise(p) => Visiting(w, p)
    case Crash(p) => p in w.pollers
    case Finish(p) => p in w.pollers && w.pollers[p] == Cursor([], None)
  }

  function Performed(w: World, v: Visit, act: Act): World {
    match act
    case Put(key, c) => w.(cache := w.cache[key := c])
    case Log(row) => w.(audits := w.audits + [Entry(v.id, v.pos, row)])
  }

  ghost function Apply(e: Provider, w: World, s: Step): World
    requires Enabled(e, w, s)
  {
    match s
    case Submit(j, row) => w.(jobs := w.jobs[j := row])
    case Select(p, todo) => w.(pollers := w.pollers[p := Cursor(todo, None)])
    case PassOver(p) => w.(pollers := w.pollers[p := Cursor(w.pollers[p].todo[1..], None)])
    case Open(p) =>
      var todo := w.pollers[p].todo;
      w.(pollers := w.pollers[p := Cursor(todo[1..], Some(Visit(|w.visits|, todo[0], 0)))],
         visits := w.visits + [todo[0]])
    case Perform(p) =>
      var v := VisitOf(w, p);
      var done := Performed(w, v, PlanOf(e, w, p)[v.pos]);
      done.(pollers := w.pollers[p := w.pollers[p].(visit := Some(v.(pos := v.pos + 1)))])
    case Complete(p) =>
      w.(completed := w.completed + {VisitOf(w, p).job}, pollers := w.pollers[p := w.pollers[p].(visit := None)])
    case Raise(p) => w.(pollers := w.pollers[p := w.pollers[p].(visit := None)])
    case Crash(p) => w.(pollers := w.pollers - {p})
    case Finish(p) => w.(pollers := w.pollers - {p})
  }

  /** `w'` is reached from `w` by `steps`, each possible where it is taken. */
  ghost predicate Reaches(e: Provider, w: World, steps: seq<Step>, w': World) {
    if steps == [] then w == w'
    else
      var front, s := steps[..|steps| - 1], steps[|steps| - 1];
      exists mid :: Reaches(e, w, front, mid) && Advances(e, mid, s, w')
  }

  ghost predicate Advances(e: Provider, w: World, s: Step, w': World) {
    Enabled(e, w, s) && w' == Apply(e, w, s)
  }

  lemma ReachesNext(e: Provider, w: World, steps: seq<Step>, mid: World, s: Step)
    requires Reaches(e, w, steps, mid) && Enabled(e, mid, s)
    ensures Reaches(e, w, steps + [s], Apply(e, mid, s))
  {
    assert (steps + [s])[..|steps|] == steps;
    assert Advances(e, mid, s, Apply(e, mid, s));
  }

  /** Nothing polled, nothing cached by a poll, nobody running. */
  ghost predicate Fresh(w: World) {
    w.completed == {} && w.audits == [] && w.visits == [] && w.pollers == map[]
  }

  // ---- What the jobs ask for ----

  ghost predicate Puts(e: Provider, jobs: map<int, Job>, j: int, i: int, key: string, c: Candidate) {
    j in jobs && 0 <= i < |Plan(e, jobs[j], j)| && Plan(e, jobs[j], j)[i] == Put(key, c)
  }

  ghost predicate Planned(e: Provider, jobs: map<int, Job>, key: string, c: Candidate) {
    exists j, i :: Puts(e, jobs, j, i, key, c)
  }

  /** No two results claim one key with different payloads. */
  ghost predicate Agreeing(e: Provider, jobs: map<int, Job>) {
    forall key, c, c' :: Planned(e, jobs, key, c) && Planned(e, jobs, key, c') ==> c == c'
  }

  // ---- The invariant ----

  ghost predicate FromVisit(w: World, n: int, j: int, i: int, row: Row) {
    && 0 <= n < |w.audits| && w.audits[n].at == i && w.audits[n].row == row
    && w.audits[n].visit < |w.visits| && w.visits[w.audits[n].visit] == j
  }

  ghost predicate Done(e: Provider, w: World, j: int, i: int)
    requires j in w.jobs && 0 <= i < |Plan(e, w.jobs[j], j)|
  {
    match Plan(e, w.jobs[j], j)[i]
    case Put(key, _) => key in w.cache && Planned(e, w.jobs, key, w.cache[key])
    case Log(row) => exists n :: FromVisit(w, n, j, i, row)
  }

  ghost predicate DoneUpTo(e: Provider, w: World, j: int, n: int)
    requires j in w.jobs
  {
    n <= |Plan(e, w.jobs[j], j)| && forall i :: 0 <= i < n ==> Done(e, w, j, i)
  }

  /** Whatever the cache holds was there at first or is what some job asked for. */
  ghost predicate CacheSound(e: Provider, w0: World, w: World) {
    && w0.cache.Keys <= w.cache.Keys
    && forall k :: k in w.cache ==> (k in w0.cache && w.cache[k] == w0.cache[k]) || Planned(e, w.jobs, k, w.cache[k])
  }

  /** Completed jobs are done in full, a job in hand is done up to where its poller is. */
  ghost predicate WorkDone(e: Provider, w: World) {
    && (forall j :: j in w.completed ==> j in w.jobs && DoneUpTo(e, w, j, |Plan(e, w.jobs[j], j)|))
    && (forall p :: p in w.pollers && w.pollers[p].visit.Some? ==>
          var v := w.pollers[p].visit.value;
          v.job in w.jobs && v.id < |w.visits| && w.visits[v.id] == v.job && DoneUpTo(e, w, v.job, v.pos))
  }

  lemma PlannedGrows(e: Provider, jobs: map<int, Job>, j: int, row: Job, key: string, c: Candidate)
    requires j !in jobs && Planned(e, jobs, key, c)
    ensures Planned(e, jobs[j := row], key, c)
  {
    var j', i :| Puts(e, jobs, j', i, key, c);
    assert Puts(e, jobs[j := row], j', i, key, c);
  }

  lemma CacheStaysSound(e: Provider, w0: World, w: World, s: Step)
    requires Enabled(e, w, s) && CacheSound(e, w0, w)
    ensures CacheSound(e, w0, Apply(e, w, s))
  {
    var w' := Apply(e, w, s);
    match s
    case Submit(j, row) =>
      forall k | k in w.cache && Planned(e, w.jobs, k, w.cache[k]) ensures Planned(e, w'.jobs, k, w.cache[k]) {
        PlannedGrows(e, w.jobs, j, row, k, w.cache[k]);
      }
    case Perform(p) =>
      var v := VisitOf(w, p);
      var act := PlanOf(e, w, p)[v.pos];
      if act.Put? {
        assert Puts(e, w.jobs, v.job, v.pos, act.key, act.payload);
      }
    case _ =>
  }

  /** What was done stays done: a cache entry is only ever rewritten by what some job asks for
      under that key, and audit rows are never removed. */
  lemma DoneStays(e: Provider, w: World, s: Step, j: int, i: int)
    requires Enabled(e, w, s)
    requires j in w.jobs && 0 <= i < |Plan(e, w.jobs[j], j)| && Done(e, w, j, i)
    ensures Apply(e, w, s).jobs[j] == w.jobs[j] && Done(e, Apply(e, w, s), j, i)
  {
    var w' := Apply(e, w, s);
    match Plan(e, w.jobs[j], j)[i]
    case Put(key, _) =>
      if s.Perform? {
        var v := VisitOf(w, s.p);
        var act := PlanOf(e, w, s.p)[v.pos];
        if act.Put? && act.key == key {
          assert Puts(e, w'.jobs, v.job, v.pos, key, act.payload);
        }
      } else if s.Submit? {
        PlannedGrows(e, w.jobs, s.job, s.row, key, w.cache[key]);
      }
    case Log(row) =>
      var n :| FromVisit(w, n, j, i, row);
      assert FromVisit(w', n, j, i, row);
  }

  lemma DoneUpToStays(e: Provider, w: World, s: Step, j: int, n: int)
    requires Enabled(e, w, s)
    requires j in w.jobs && DoneUpTo(e, w, j, n)
    ensures j in Apply(e, w, s).jobs && Apply(e, w, s).jobs[j] == w.jobs[j] && DoneUpTo(e, Apply(e, w, s), j, n)
  {
    forall i | 0 <= i < n ensures Done(e, Apply(e, w, s), j, i) {
      DoneStays(e, w, s, j, i);
    }
  }

  /** The act a poller performs is done afterwards. */
  lemma PerformDoes(e: Provider, w: World, p: int)
    requires Enabled(e, w, Perform(p)) && WorkDone(e, w)
    ensures var v := VisitOf(w, p); DoneUpTo(e, Apply(e, w, Perform(p)), v.job, v.pos + 1)
  {
    var v, w' := VisitOf(w, p), Apply(e, w, Perform(p));
    DoneUpToStays(e, w, Perform(p), v.job, v.pos);
    var act := PlanOf(e, w, p)[v.pos];
    if act.Log? {
      assert FromVisit(w', |w.audits|, v.job, v.pos, act.row);
    } else {
      assert Puts(e, w'.jobs, v.job, v.pos, act.key, act.payload);
    }
    assert Done(e, w', v.job, v.pos);
  }

  lemma WorkStaysDone(e: Provider, w: World, s: Step)
    requires Enabled(e, w, s) && WorkDone(e, w)
    ensures WorkDone(e, Apply(e, w, s))
  {
    var w' := Apply(e, w, s);
    forall j | j in w'.completed ensures j in w'.jobs && DoneUpTo(e, w', j, |Plan(e, w'.jobs[j], j)|) {
      var n := |Plan(e, w.jobs[j], j)|;
      DoneUpToStays(e, w, s, j, n);
    }
    forall p | p in w'.pollers && w'.pollers[p].visit.Some?
      ensures var v := w'.pollers[p].visit.value;
              v.job in w'.jobs && v.id < |w'.visits| && w'.visits[v.id] == v.job && DoneUpTo(e, w', v.job, v.pos)
    {
      var v := w'.pollers[p].visit.value;
      if s == Perform(p) {
        PerformDoes(e, w, p);
      } else if s != Open(p) {
        assert w.pollers[p].visit == Some(v);
        DoneUpToStays(e, w, s, v.job, v.pos);
      }
    }
  }

  ghost predicate Inv(e: Provider, w0: World, w: World) {
    CacheSound(e, w0, w) && WorkDone(e, w)
  }

  lemma {:induction false} RunKeepsInv(e: Provider, w0: World, steps: seq<Step>, w: World)
    requires Fresh(w0) && Reaches(e, w0, steps, w)
    ensures Inv(e, w0, w)
  {
    if steps == [] {
    } else {
      var front, s := steps[..|steps| - 1], steps[|steps| - 1];
      var mid :| Reaches(e, w0, front, mid) && Advances(e, mid, s, w);
      RunKeepsInv(e, w0, front, mid);
      CacheStaysSound(e, w0, mid, s);
      WorkStaysDone(e, mid, s);
    }
  }

  // ---- The main results ----

  lemma StepTakesNothingBack(e: Provider, w: World, s: Step)
    requires Enabled(e, w, s)
    ensures var w' := Apply(e, w, s);
            && w.completed <= w'.completed && w.jobs.Keys <= w'.jobs.Keys && w.cache.Keys <= w'.cache.Keys
            && forall j :: j in w.jobs ==> w'.jobs[j] == w.jobs[j]
  {
  }

  /** A completed mark is never taken back, and no job or cached key disappears. */
  lemma {:induction false} CompletionNeverReverts(e: Provider, w0: World, steps: seq<Step>, w: World)
    requires Reaches(e, w0, steps, w)
    ensures w0.completed <= w.completed && w0.jobs.Keys <= w.jobs.Keys && w0.cache.Keys <= w.cache.Keys
    ensures forall j :: j in w0.jobs ==> w.jobs[j] == w0.jobs[j]
  {
    if steps == [] {
    } else {
      var front, s := steps[..|steps| - 1], steps[|steps| - 1];
      var mid :| Reaches(e, w0, front, mid) && Advances(e, mid, s, w);
      CompletionNeverReverts(e, w0, front, mid);
      StepTakesNothingBack(e, mid, s);
    }
  }

  /** The place of line `n`'s audit row in job `j`'s work. */
  function PlaceOf(e: Provider, w: World, j: int, n: nat): int
    requires j in w.jobs && n < |e.lines(j)|
  {
    AuditPlace(e.gates, w.jobs[j], e.lines(j), n)
  }

  /** However polls overlap, fail and restart, a job is completed only when every recognised line
      has an audit row at its own place, which no other line shares. */
  lemma CompletedMeansEveryLineAudited(e: Provider, w0: World, steps: seq<Step>, w: World, j: int, n: nat)
    requires Fresh(w0) && Reaches(e, w0, steps, w)
    requires j in w.completed && j in w.jobs && n < |e.lines(j)| && Recognised(w.jobs[j], e.lines(j)[n])
    ensures exists a, row :: FromVisit(w, a, j, PlaceOf(e, w, j, n), row) && row.resource == e.lines(j)[n].customId
    ensures forall m :: 0 <= m < |e.lines(j)| && m != n && Recognised(w.jobs[j], e.lines(j)[m]) ==>
              PlaceOf(e, w, j, m) != PlaceOf(e, w, j, n)
  {
    RunKeepsInv(e, w0, steps, w);
    RecognisedLineIsLogged(e.gates, w.jobs[j], e.lines(j), n);
    assert Done(e, w, j, PlaceOf(e, w, j, n));
    var row := Plan(e, w.jobs[j], j)[PlaceOf(e, w, j, n)].row;
    var a :| FromVisit(w, a, j, PlaceOf(e, w, j, n), row);
    forall m | 0 <= m < |e.lines(j)| && m != n && Recognised(w.jobs[j], e.lines(j)[m])
      ensures PlaceOf(e, w, j, m) != PlaceOf(e, w, j, n)
    {
      if m < n {
        PlacesAreOwn(e.gates, w.jobs[j], e.lines(j), m, n);
      } else {
        PlacesAreOwn(e.gates, w.jobs[j], e.lines(j), n, m);
      }
    }
  }

  lemma CompletedPutIsCached(e: Provider, w: World, j: int, i: int, key: string, c: Candidate)
    requires WorkDone(e, w) && j in w.completed && Puts(e, w.jobs, j, i, key, c)
    ensures key in w.cache && Planned(e, w.jobs, key, w.cache[key])
    ensures Agreeing(e, w.jobs) ==> w.cache[key] == c
  {
    assert Done(e, w, j, i);
    assert Planned(e, w.jobs, key, c);
  }

  /** And only when every accepted line's key is cached, with a payload accepted under that key:
      the line's own one unless two results claim the key. */
  lemma CompletedMeansAcceptedCached(e: Provider, w0: World, steps: seq<Step>, w: World, j: int, n: nat, key: string,
                                     c: Candidate)
    requires Fresh(w0) && Reaches(e, w0, steps, w)
    requires j in w.completed && j in w.jobs && n < |e.lines(j)|
             && AcceptedAs(e.gates, w.jobs[j], e.lines(j)[n], key, c)
    ensures key in w.cache && Planned(e, w.jobs, key, w.cache[key])
    ensures Agreeing(e, w.jobs) ==> w.cache[key] == c
  {
    RunKeepsInv(e, w0, steps, w);
    var i := AcceptedLineIsPut(e.gates, w.jobs[j], e.lines(j), n, key, c);
    CompletedPutIsCached(e, w, j, i, key, c);
  }

  ghost predicate AllCompleted(w: World) {
    forall j :: j in w.jobs ==> j in w.completed
  }

  /** Once every job is completed the cache is fixed by what was there and what the jobs ask
      for, and nothing else. */
  lemma FinalCacheIsDetermined(e: Provider, w0: World, steps: seq<Step>, w: World)
    requires Fresh(w0) && Reaches(e, w0, steps, w) && Agreeing(e, w.jobs) && AllCompleted(w)
    ensures forall k, c :: Planned(e, w.jobs, k, c) ==> k in w.cache && w.cache[k] == c
    ensures forall k :: k in w.cache && !Planned(e, w.jobs, k, w.cache[k]) ==>
              k in w0.cache && w.cache[k] == w0.cache[k]
    ensures w0.cache.Keys <= w.cache.Keys
  {
    RunKeepsInv(e, w0, steps, w);
    forall k, c | Planned(e, w.jobs, k, c) ensures k in w.cache && w.cache[k] == c {
      var j, i :| Puts(e, w.jobs, j, i, k, c);
      assert Done(e, w, j, i);
      assert Planned(e, w.jobs, k, w.cache[k]);
    }
  }

  /** Crash-resumability: two runs from the same start over the same jobs, interrupted and
      repeated in whatever way, end with the same cache once every job is completed. */
  lemma ResumingChangesNothing(e: Provider, w0: World, steps: seq<Step>, w: World, steps': seq<Step>, w': World)
    requires Fresh(w0) && Reaches(e, w0, steps, w) && Reaches(e, w0, steps', w')
    requires w.jobs == w'.jobs && Agreeing(e, w.jobs) && AllCompleted(w) && AllCompleted(w')
    ensures w.cache == w'.cache
  {
    FinalCacheIsDetermined(e, w0, steps, w);
    FinalCacheIsDetermined(e, w0, steps', w');
    forall k | k in w.cache ensures k in w'.cache && w'.cache[k] == w.cache[k] {
      if !Planned(e, w.jobs, k, w.cache[k]) {
        assert k in w'.cache;
        if Planned(e, w.jobs, k, w'.cache[k]) {
          assert w.cache[k] == w'.cache[k];
        }
      }
    }
    forall k | k in w'.cache ensures k in w.cache {
      if Planned(e, w.jobs, k, w'.cache[k]) {
        assert k in w.cache;
      }
    }
  }
}

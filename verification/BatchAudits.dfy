/** How many audit rows polling leaves behind, and when results cannot collide in the cache. */
module BatchAudits {
  import opened Common
  import opened AnswerGates
  import opened BatchWork
  import opened BatchProtocol
  import CacheKey

  // ---- Rows and visits ----

  /** No visit audits one place twice. */
  ghost predicate RowsDistinct(w: World) {
    forall m, n :: 0 <= m < n < |w.audits| ==>
          w.audits[m].visit != w.audits[n].visit || w.audits[m].at != w.audits[n].at
  }

  ghost predicate VisitsDistinct(w: World) {
    forall p, q ::
      p in w.pollers && q in w.pollers && p != q && w.pollers[p].visit.Some? && w.pollers[q].visit.Some? ==>
      w.pollers[p].visit.value.id != w.pollers[q].visit.value.id
  }

  /** Row `n` comes from a visit that exists, and is behind the place that visit has got to. */
  ghost predicate RowBehind(w: World, n: int)
    requires 0 <= n < |w.audits|
  {
    && w.audits[n].visit < |w.visits|
    && forall p :: p in w.pollers && w.pollers[p].visit.Some? && w.pollers[p].visit.value.id == w.audits[n].visit ==>
         w.audits[n].at < w.pollers[p].visit.value.pos
  }

  ghost predicate Tidy(w: World) {
    && RowsDistinct(w)
    && VisitsDistinct(w)
    && (forall n :: 0 <= n < |w.audits| ==> RowBehind(w, n))
    && (forall p :: p in w.pollers && w.pollers[p].visit.Some? ==> w.pollers[p].visit.value.id < |w.visits|)
  }

  lemma RowsStayBehind(e: Provider, w: World, s: Step)
    requires Enabled(e, w, s) && Tidy(w)
    ensures var w' := Apply(e, w, s); forall n :: 0 <= n < |w'.audits| ==> RowBehind(w', n)
  {
    var w' := Apply(e, w, s);
    forall n | 0 <= n < |w'.audits| ensures RowBehind(w', n) {
      if n < |w.audits| {
        assert RowBehind(w, n) && w'.audits[n] == w.audits[n];
      }
    }
  }

  lemma StaysTidy(e: Provider, w: World, s: Step)
    requires Enabled(e, w, s) && Tidy(w)
    ensures Tidy(Apply(e, w, s))
  {
    RowsStayBehind(e, w, s);
    var w' := Apply(e, w, s);
    forall m, n | 0 <= m < n < |w'.audits|
      ensures w'.audits[m].visit != w'.audits[n].visit || w'.audits[m].at != w'.audits[n].at
    {
      assert RowBehind(w, m);
    }
  }

  /** In every run, however interrupted, a line gets at most one audit row per visit to its job. */
  lemma {:induction false} OneRowPerVisit(e: Provider, w0: World, steps: seq<Step>, w: World)
    requires Fresh(w0) && Reaches(e, w0, steps, w)
    ensures Tidy(w)
  {
    if steps == [] {
    } else {
      var front, s := steps[..|steps| - 1], steps[|steps| - 1];
      var mid :| Reaches(e, w0, front, mid) && Advances(e, mid, s, w);
      OneRowPerVisit(e, w0, front, mid);
      StaysTidy(e, mid, s);
    }
  }

  // ---- Undisturbed polls ----

  /** A step of polls that never overlap and are never interrupted. */
  ghost predicate Calm(w: World, s: Step) {
    match s
    case Raise(_) => false
    case Crash(_) => false
    case Select(_, _) => w.pollers == map[]
    case _ => true
  }

  ghost predicate CalmlyReaches(e: Provider, w: World, steps: seq<Step>, w': World) {
    if steps == [] then w == w'
    else
      var front, s := steps[..|steps| - 1], steps[|steps| - 1];
      exists mid :: CalmlyReaches(e, w, front, mid) && Calm(mid, s) && Advances(e, mid, s, w')
  }

  lemma {:induction false} CalmRunsAreRuns(e: Provider, w: World, steps: seq<Step>, w': World)
    requires CalmlyReaches(e, w, steps, w')
    ensures Reaches(e, w, steps, w')
  {
    if steps == [] {
    } else {
      var front, s := steps[..|steps| - 1], steps[|steps| - 1];
      var mid :| CalmlyReaches(e, w, front, mid) && Calm(mid, s) && Advances(e, mid, s, w');
      CalmRunsAreRuns(e, w, front, mid);
    }
  }

  ghost predicate InHand(w: World, j: int) {
    exists p :: p in w.pollers && w.pollers[p].visit.Some? && w.pollers[p].visit.value.job == j
  }

  /** Since `w0` each job is visited at most once, and none that was completed then: by now it is
      completed or in the one poller's hand. */
  ghost predicate SerialSince(w0: World, w: World) {
    && |w0.visits| <= |w.visits| && w0.completed <= w.completed
    && (forall p, q :: p in w.pollers && q in w.pollers ==> p == q)
    && (forall u, v :: |w0.visits| <= u < v < |w.visits| ==> w.visits[u] != w.visits[v])
    && (forall v :: |w0.visits| <= v < |w.visits| ==> w.visits[v] !in w0.completed)
    && (forall v :: |w0.visits| <= v < |w.visits| ==> w.visits[v] in w.completed || InHand(w, w.visits[v]))
    && (forall p :: p in w.pollers ==> NoDuplicates(w.pollers[p].todo) && NotVisitedSince(w0, w, w.pollers[p].todo))
  }

  ghost predicate NotVisitedSince(w0: World, w: World, todo: seq<int>) {
    && (forall i, v :: 0 <= i < |todo| && |w0.visits| <= v < |w.visits| ==> todo[i] != w.visits[v])
    && (forall i :: 0 <= i < |todo| ==> todo[i] !in w0.completed)
  }

  lemma StaysSerial(e: Provider, w0: World, w: World, s: Step)
    requires Enabled(e, w, s) && Calm(w, s) && SerialSince(w0, w)
    ensures SerialSince(w0, Apply(e, w, s))
  {
    var w' := Apply(e, w, s);
    forall v | |w0.visits| <= v < |w'.visits| ensures w'.visits[v] in w'.completed || InHand(w', w'.visits[v]) {
      if v < |w.visits| && w.visits[v] !in w.completed {
        var p :| p in w.pollers && w.pollers[p].visit.Some? && w.pollers[p].visit.value.job == w.visits[v];
        if !s.Complete? {
          assert p in w'.pollers && w'.pollers[p].visit.Some? && w'.pollers[p].visit.value.job == w.visits[v];
        }
      } else if v == |w.visits| {
        assert s.p in w'.pollers && w'.pollers[s.p].visit.Some?;
      }
    }
  }

  /** From any world without a running poller, whatever happened to bring it about. */
  lemma {:induction false} CalmRunsAreSerial(e: Provider, w0: World, steps: seq<Step>, w: World)
    requires w0.pollers == map[] && CalmlyReaches(e, w0, steps, w)
    ensures SerialSince(w0, w)
  {
    if steps == [] {
    } else {
      var front, s := steps[..|steps| - 1], steps[|steps| - 1];
      var mid :| CalmlyReaches(e, w0, front, mid) && Calm(mid, s) && Advances(e, mid, s, w);
      CalmRunsAreSerial(e, w0, front, mid);
      StaysSerial(e, w0, mid, s);
    }
  }

  lemma {:induction false} RunsCompose(e: Provider, w0: World, steps: seq<Step>, w1: World, more: seq<Step>, w2: World)
    requires Reaches(e, w0, steps, w1) && Reaches(e, w1, more, w2)
    ensures Reaches(e, w0, steps + more, w2)
  {
    if more == [] {
      assert steps + more == steps;
    } else {
      var front, s := more[..|more| - 1], more[|more| - 1];
      var mid :| Reaches(e, w1, front, mid) && Advances(e, mid, s, w2);
      RunsCompose(e, w0, steps, w1, front, mid);
      ReachesNext(e, w0, steps + front, mid, s);
      assert steps + front + [s] == steps + more;
    }
  }

  ghost predicate RowAt(w: World, m: int, j: int, i: int) {
    0 <= m < |w.audits| && w.audits[m].at == i && w.audits[m].visit < |w.visits| && w.visits[w.audits[m].visit] == j
  }

  /** Exactly one audit row stands at place `i` of job `j`. */
  ghost predicate OneRowAt(w: World, j: int, i: int) {
    (exists m :: RowAt(w, m, j, i)) && forall m, n :: RowAt(w, m, j, i) && RowAt(w, n, j, i) ==> m == n
  }

  lemma {:induction false} VisitsOnlyGrow(e: Provider, w1: World, steps: seq<Step>, w: World)
    requires Reaches(e, w1, steps, w)
    ensures w1.visits <= w.visits
  {
    if steps == [] {
    } else {
      var front, s := steps[..|steps| - 1], steps[|steps| - 1];
      var mid :| Reaches(e, w1, front, mid) && Advances(e, mid, s, w);
      VisitsOnlyGrow(e, w1, front, mid);
    }
  }

  /** After any history: when the polls since a job was first looked at were neither interrupted nor
      overlapping, every recognised line of the completed job has exactly one row. */
  lemma UndisturbedPollsAuditOnce(e: Provider, w0: World, past: seq<Step>, w1: World, steps: seq<Step>, w: World,
                                  j: int, n: nat)
    requires Fresh(w0) && Reaches(e, w0, past, w1) && w1.pollers == map[] && j !in w1.visits
    requires CalmlyReaches(e, w1, steps, w)
    requires j in w.jobs && j in w.completed && n < |e.lines(j)| && Recognised(w.jobs[j], e.lines(j)[n])
    ensures OneRowAt(w, j, PlaceOf(e, w, j, n))
  {
    CalmRunsAreRuns(e, w1, steps, w);
    RunsCompose(e, w0, past, w1, steps, w);
    CompletedMeansEveryLineAudited(e, w0, past + steps, w, j, n);
    OneRowPerVisit(e, w0, past + steps, w);
    CalmRunsAreSerial(e, w1, steps, w);
    VisitsOnlyGrow(e, w1, steps, w);
    var i := PlaceOf(e, w, j, n);
    var a, row :| FromVisit(w, a, j, i, row);
    assert RowAt(w, a, j, i);
    OneVisitOneRow(w1, w, j, i);
  }

  lemma OneVisitOneRow(w1: World, w: World, j: int, i: int)
    requires w1.visits <= w.visits && j !in w1.visits && SerialSince(w1, w) && RowsDistinct(w)
    ensures forall m, n :: RowAt(w, m, j, i) && RowAt(w, n, j, i) ==> m == n
  {
    forall v | 0 <= v < |w1.visits| ensures w.visits[v] != j {
      assert w.visits[v] == w1.visits[v];
    }
  }

  // ---- Polls that overlap ----

  ghost predicate Smooth(steps: seq<Step>) {
    forall i :: 0 <= i < |steps| ==> !steps[i].Raise? && !steps[i].Crash?
  }

  /** Visit `v` has got past place `i`: whoever has it in hand is further on. */
  ghost predicate Past(w: World, v: int, i: int) {
    forall p :: p in w.pollers && w.pollers[p].visit.Some? && w.pollers[p].visit.value.id == v ==>
      i < w.pollers[p].visit.value.pos
  }

  ghost predicate RowOf(w: World, v: int, i: int) {
    exists m :: 0 <= m < |w.audits| && w.audits[m].visit == v && w.audits[m].at == i
  }

  /** Every visit has left a row at each audited place it got past. */
  ghost predicate Thorough(e: Provider, w: World) {
    forall v, i :: 0 <= v < |w.visits| && AuditedPlace(e, w, w.visits[v], i) && Past(w, v, i) ==> RowOf(w, v, i)
  }

  ghost predicate AuditedPlace(e: Provider, w: World, j: int, i: int) {
    j in w.jobs && 0 <= i < |Plan(e, w.jobs[j], j)| && Plan(e, w.jobs[j], j)[i].Log?
  }

  lemma RowOfStays(e: Provider, w: World, s: Step, v: int, i: int)
    requires Enabled(e, w, s) && RowOf(w, v, i)
    ensures RowOf(Apply(e, w, s), v, i)
  {
    var m :| 0 <= m < |w.audits| && w.audits[m].visit == v && w.audits[m].at == i;
    assert Apply(e, w, s).audits[m] == w.audits[m];
  }

  /** A step that is neither an exception nor a crash takes no visit past a place it did not audit. */
  lemma PastBefore(e: Provider, w: World, s: Step, v: int, i: int)
    requires Enabled(e, w, s) && !s.Raise? && !s.Crash? && WorkDone(e, w) && Tidy(w)
    requires 0 <= v < |w.visits| && AuditedPlace(e, w, w.visits[v], i) && Past(Apply(e, w, s), v, i)
    ensures Past(w, v, i) || RowOf(Apply(e, w, s), v, i)
  {
    var w' := Apply(e, w, s);
    if s.Perform? && VisitOf(w, s.p).id == v && VisitOf(w, s.p).pos == i {
      var m := |w.audits|;
      assert w'.audits[m].visit == v && w'.audits[m].at == i;
    } else {
      forall p | p in w.pollers && w.pollers[p].visit.Some? && w.pollers[p].visit.value.id == v
        ensures i < w.pollers[p].visit.value.pos
      {
        var here := w.pollers[p].visit.value;
        if s == Perform(p) {
          assert w'.pollers[p].visit.value == here.(pos := here.pos + 1);
        } else if s != Complete(p) {
          assert w'.pollers[p].visit == Some(here);
        }
      }
    }
  }

  lemma NewVisitIsNotPast(e: Provider, w: World, s: Step, v: int, i: nat)
    requires Enabled(e, w, s) && |w.visits| <= v < |Apply(e, w, s).visits|
    ensures !Past(Apply(e, w, s), v, i)
  {
    assert Apply(e, w, s).pollers[s.p].visit == Some(Visit(v, w.pollers[s.p].todo[0], 0));
  }

  lemma StaysThorough(e: Provider, w: World, s: Step)
    requires Enabled(e, w, s) && !s.Raise? && !s.Crash? && WorkDone(e, w) && Tidy(w)
    requires VisitsKnown(w) && Thorough(e, w)
    ensures VisitsKnown(Apply(e, w, s)) && Thorough(e, Apply(e, w, s))
  {
    var w' := Apply(e, w, s);
    StepTakesNothingBack(e, w, s);
    forall v, i | 0 <= v < |w'.visits| && AuditedPlace(e, w', w'.visits[v], i) && Past(w', v, i)
      ensures RowOf(w', v, i)
    {
      if v >= |w.visits| {
        NewVisitIsNotPast(e, w, s, v, i);
        assert false;
      }
      assert w'.visits[v] == w.visits[v] && AuditedPlace(e, w, w.visits[v], i);
      PastBefore(e, w, s, v, i);
      if Past(w, v, i) {
        RowOfStays(e, w, s, v, i);
      }
    }
  }

  ghost predicate VisitsKnown(w: World) {
    forall v :: 0 <= v < |w.visits| ==> w.visits[v] in w.jobs
  }

  lemma {:induction false} SmoothRunsAreThorough(e: Provider, w0: World, steps: seq<Step>, w: World)
    requires Fresh(w0) && Reaches(e, w0, steps, w) && Smooth(steps)
    ensures VisitsKnown(w) && Thorough(e, w)
  {
    if steps == [] {
    } else {
      var front, s := steps[..|steps| - 1], steps[|steps| - 1];
      var mid :| Reaches(e, w0, front, mid) && Advances(e, mid, s, w);
      SmoothRunsAreThorough(e, w0, front, mid);
      RunKeepsInv(e, w0, front, mid);
      OneRowPerVisit(e, w0, front, mid);
      StaysThorough(e, mid, s);
    }
  }

  ghost predicate VisitedOnce(w: World, j: int) {
    j in w.visits && forall u, v :: 0 <= u < v < |w.visits| ==> !(w.visits[u] == j && w.visits[v] == j)
  }

  /** Nobody has a job in hand. */
  ghost predicate AtRest(w: World) {
    forall p :: p in w.pollers ==> w.pollers[p].visit.None?
  }

  /** At rest after any run without exceptions and crashes, overlapping polls included, the rows at
      an audited place are one for each visit to the job. */
  lemma OneRowForEachVisit(e: Provider, w0: World, steps: seq<Step>, w: World, j: int, i: int)
    requires Fresh(w0) && Reaches(e, w0, steps, w) && Smooth(steps) && AtRest(w)
    requires AuditedPlace(e, w, j, i)
    ensures forall v :: 0 <= v < |w.visits| && w.visits[v] == j ==>
              exists m :: RowAt(w, m, j, i) && w.audits[m].visit == v
    ensures forall m, n :: RowAt(w, m, j, i) && RowAt(w, n, j, i) && m != n ==> w.audits[m].visit != w.audits[n].visit
  {
    SmoothRunsAreThorough(e, w0, steps, w);
    OneRowPerVisit(e, w0, steps, w);
    forall v | 0 <= v < |w.visits| && w.visits[v] == j ensures exists m :: RowAt(w, m, j, i) && w.audits[m].visit == v {
      assert Past(w, v, i);
      var m :| 0 <= m < |w.audits| && w.audits[m].visit == v && w.audits[m].at == i;
      assert RowAt(w, m, j, i);
    }
  }

  /** So a recognised line has exactly one audit row if and only if its job was visited exactly
      once. Overlap is what can make that more: a job is looked up by its id only, whatever its
      status has become. */
  lemma AuditedOnceIffVisitedOnce(e: Provider, w0: World, steps: seq<Step>, w: World, j: int, n: nat)
    requires Fresh(w0) && Reaches(e, w0, steps, w) && Smooth(steps) && AtRest(w)
    requires j in w.jobs && n < |e.lines(j)| && Recognised(w.jobs[j], e.lines(j)[n])
    ensures OneRowAt(w, j, PlaceOf(e, w, j, n)) <==> VisitedOnce(w, j)
  {
    var i := PlaceOf(e, w, j, n);
    RecognisedLineIsLogged(e.gates, w.jobs[j], e.lines(j), n);
    OneRowForEachVisit(e, w0, steps, w, j, i);
    if VisitedOnce(w, j) {
      var v :| 0 <= v < |w.visits| && w.visits[v] == j;
      var m :| RowAt(w, m, j, i) && w.audits[m].visit == v;
      forall m, n | RowAt(w, m, j, i) && RowAt(w, n, j, i) ensures m == n {
        assert w.audits[m].visit == w.audits[n].visit;
      }
    } else if j in w.visits {
      var u, v :| 0 <= u < v < |w.visits| && w.visits[u] == j && w.visits[v] == j;
      var a :| RowAt(w, a, j, i) && w.audits[a].visit == u;
      var b :| RowAt(w, b, j, i) && w.audits[b].visit == v;
      assert a != b;
    }
  }

  /** One poller alone may go through a job with a single piece of work that only audits. */
  lemma VisitOnce(e: Provider, w0: World, steps: seq<Step>, w: World, p: int, j: int, row: Row) returns (w': World)
    requires Reaches(e, w0, steps, w) && BetweenJobs(w, p) && w.pollers[p].todo == [j]
    requires j in w.jobs && Plan(e, w.jobs[j], j) == [Log(row)]
    ensures Reaches(e, w0, steps + [Open(p), Perform(p), Complete(p)], w')
    ensures w' == w.(completed := w.completed + {j}, audits := w.audits + [Entry(|w.visits|, 0, row)],
                     visits := w.visits + [j], pollers := w.pollers[p := Cursor([], None)])
  {
    var w1 := Apply(e, w, Open(p));
    ReachesNext(e, w0, steps, w, Open(p));
    var steps1 := steps + [Open(p)];
    w' := LogAndComplete(e, w0, steps1, w1, p, j, row);
    assert steps1 + [Perform(p), Complete(p)] == steps + [Open(p), Perform(p), Complete(p)];
  }

  lemma BothSelect(e: Provider, w0: World, j: int) returns (w: World)
    requires Fresh(w0) && w0.jobs.Keys == {j}
    ensures Reaches(e, w0, [Select(1, [j]), Select(2, [j])], w)
    ensures w == w0.(pollers := map[1 := Cursor([j], None), 2 := Cursor([j], None)])
  {
    var s1, s2 := Select(1, [j]), Select(2, [j]);
    ReachesNext(e, w0, [], w0, s1);
    var w1 := Apply(e, w0, s1);
    assert [] + [s1] == [s1];
    ReachesNext(e, w0, [s1], w1, s2);
    w := Apply(e, w1, s2);
    assert [s1] + [s2] == [s1, s2];
  }

  lemma LogAndComplete(e: Provider, w0: World, steps: seq<Step>, w: World, p: int, j: int, row: Row) returns (w': World)
    requires Reaches(e, w0, steps, w) && Visiting(w, p) && VisitOf(w, p).job == j && VisitOf(w, p).pos == 0
    requires w.pollers[p].todo == [] && Plan(e, w.jobs[j], j) == [Log(row)]
    ensures Reaches(e, w0, steps + [Perform(p), Complete(p)], w')
    ensures w' == w.(completed := w.completed + {j}, audits := w.audits + [Entry(VisitOf(w, p).id, 0, row)],
                     pollers := w.pollers[p := Cursor([], None)])
  {
    var w1 := PerformOnly(e, w, p, j, row);
    ReachesNext(e, w0, steps, w, Perform(p));
    w' := CompleteOnly(e, w1, p, j, row);
    ReachesNext(e, w0, steps + [Perform(p)], w1, Complete(p));
    assert steps + [Perform(p)] + [Complete(p)] == steps + [Perform(p), Complete(p)];
    assert w1.pollers[p := Cursor([], None)] == w.pollers[p := Cursor([], None)];
  }

  lemma PerformOnly(e: Provider, w: World, p: int, j: int, row: Row) returns (w': World)
    requires Visiting(w, p) && VisitOf(w, p).job == j && VisitOf(w, p).pos == 0
    requires w.pollers[p].todo == [] && Plan(e, w.jobs[j], j) == [Log(row)]
    ensures Enabled(e, w, Perform(p)) && w' == Apply(e, w, Perform(p))
    ensures var v := VisitOf(w, p);
            w' == w.(audits := w.audits + [Entry(v.id, 0, row)],
                     pollers := w.pollers[p := Cursor([], Some(v.(pos := 1)))])
  {
    w' := Apply(e, w, Perform(p));
  }

  lemma CompleteOnly(e: Provider, w: World, p: int, j: int, row: Row) returns (w': World)
    requires Visiting(w, p) && VisitOf(w, p).job == j && VisitOf(w, p).pos == 1
    requires w.pollers[p].todo == [] && Plan(e, w.jobs[j], j) == [Log(row)]
    ensures Enabled(e, w, Complete(p)) && w' == Apply(e, w, Complete(p))
    ensures w' == w.(completed := w.completed + {j}, pollers := w.pollers[p := Cursor([], None)])
  {
    w' := Apply(e, w, Complete(p));
  }

  /** A schedule that visits twice without any interruption: a poll that selected a job before another completed
      it works through the whole job again, because the job is looked up by its id only. */
  lemma OverlapAuditsTwice(e: Provider, w0: World, j: int, row: Row) returns (steps: seq<Step>, w: World)
    requires Fresh(w0) && w0.jobs.Keys == {j} && Plan(e, w0.jobs[j], j) == [Log(row)]
    ensures steps == [Select(1, [j]), Select(2, [j]), Open(1), Perform(1), Complete(1), Open(2), Perform(2),
                      Complete(2)]
    ensures Reaches(e, w0, steps, w)
    ensures w.completed == {j} && w.audits == [Entry(0, 0, row), Entry(1, 0, row)]
  {
    var w2 := BothSelect(e, w0, j);
    steps := [Select(1, [j]), Select(2, [j])];
    var w3 := VisitOnce(e, w0, steps, w2, 1, j, row);
    steps := steps + [Open(1), Perform(1), Complete(1)];
    w := VisitOnce(e, w0, steps, w3, 2, j, row);
    steps := steps + [Open(2), Perform(2), Complete(2)];
  }

  // ---- When results cannot collide ----

  /** Key segments without colons, as ids and hex digests are; the model may be anything. */
  ghost predicate PlainSegments(job: Job) {
    && CacheKey.ColonFree(job.tenant) && CacheKey.ColonFree(job.promptVersion)
    && forall id :: id in job.hashes ==> CacheKey.ColonFree(id) && CacheKey.ColonFree(job.hashes[id])
  }

  /** Both jobs ask about one finding in one state, under one model and prompt. */
  ghost predicate SameQuestion(a: Job, b: Job, id: string) {
    && a.tenant == b.tenant && a.model == b.model && a.promptVersion == b.promptVersion
    && id in a.hashes && id in b.hashes && a.hashes[id] == b.hashes[id]
  }

  ghost predicate DistinctQuestions(jobs: map<int, Job>) {
    && (forall j :: j in jobs ==> PlainSegments(jobs[j]))
    && (forall j, k, id :: j in jobs && k in jobs && j != k ==> !SameQuestion(jobs[j], jobs[k], id))
  }

  /** The provider answers each custom id once. */
  ghost predicate AnsweredOnce(lines: seq<Line>) {
    forall m, n :: 0 <= m < n < |lines| ==> lines[m].customId != lines[n].customId
  }

  /** In every run, whatever is in the cache was there at first or is an answer some line of some
      job was given, accepted by every gate. */
  lemma CachedOnlyIfAccepted(e: Provider, w0: World, steps: seq<Step>, w: World, key: string)
    requires Fresh(w0) && Reaches(e, w0, steps, w) && key in w.cache
    ensures (key in w0.cache && w.cache[key] == w0.cache[key])
         || (exists j, n :: j in w.jobs && 0 <= n < |e.lines(j)| &&
                            AcceptedAs(e.gates, w.jobs[j], e.lines(j)[n], key, w.cache[key]))
  {
    RunKeepsInv(e, w0, steps, w);
    if Planned(e, w.jobs, key, w.cache[key]) {
      var j, i :| Puts(e, w.jobs, j, i, key, w.cache[key]);
      var n := PutComesFromLine(e.gates, w.jobs[j], e.lines(j), i, key, w.cache[key]);
    }
  }

  /** Two results under one key are answers to one question. */
  lemma SameKeySameQuestion(a: Job, id: string, b: Job, id': string)
    requires PlainSegments(a) && PlainSegments(b) && id in a.hashes && id' in b.hashes
    requires KeyFor(a, id) == KeyFor(b, id')
    ensures id == id' && SameQuestion(a, b, id)
  {
    assert CacheKey.ColonFree(RESOURCE_TYPE);
    CacheKey.KeyIsInjective(a.tenant, RESOURCE_TYPE, id, a.hashes[id], a.model, a.promptVersion,
                            b.tenant, RESOURCE_TYPE, id', b.hashes[id'], b.model, b.promptVersion);
  }

  /** Jobs over distinct questions, each answered once, never disagree about a key. */
  lemma DistinctQuestionsAgree(e: Provider, jobs: map<int, Job>)
    requires DistinctQuestions(jobs) && forall j :: j in jobs ==> AnsweredOnce(e.lines(j))
    ensures Agreeing(e, jobs)
  {
    forall key, c, c' | Planned(e, jobs, key, c) && Planned(e, jobs, key, c') ensures c == c' {
      var j, i :| Puts(e, jobs, j, i, key, c);
      var j', i' :| Puts(e, jobs, j', i', key, c');
      PutsAgree(e, jobs, j, i, j', i', key, c, c');
    }
  }

  lemma PutsAgree(e: Provider, jobs: map<int, Job>, j: int, i: int, j': int, i': int, key: string, c: Candidate,
                  c': Candidate)
    requires DistinctQuestions(jobs) && forall j :: j in jobs ==> AnsweredOnce(e.lines(j))
    requires Puts(e, jobs, j, i, key, c) && Puts(e, jobs, j', i', key, c')
    ensures c == c'
  {
    var n := PutComesFromLine(e.gates, jobs[j], e.lines(j), i, key, c);
    var n' := PutComesFromLine(e.gates, jobs[j'], e.lines(j'), i', key, c');
    var id, id' := e.lines(j)[n].customId, e.lines(j')[n'].customId;
    SameKeySameQuestion(jobs[j], id, jobs[j'], id');
    assert j == j';
    assert n == n';
  }
}

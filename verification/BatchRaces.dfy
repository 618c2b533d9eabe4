/** Exactly when overlapping polls cannot change what ends up in the cache. */
module BatchRaces {
  import opened Common
  import opened AnswerGates
  import opened BatchWork
  import opened BatchProtocol

  /** `steps` complete every job `w0` has, and no others were submitted. */
  ghost predicate Completes(e: Provider, w0: World, steps: seq<Step>, w: World) {
    Reaches(e, w0, steps, w) && w.jobs == w0.jobs && AllCompleted(w)
  }

  /** Whatever the schedule, the same cache. */
  ghost predicate ScheduleFree(e: Provider, w0: World) {
    forall steps, w, steps', w' :: Completes(e, w0, steps, w) && Completes(e, w0, steps', w') ==> w.cache == w'.cache
  }

  /** The same poller somewhere else in the same job. */
  function Moved(w: World, p: int, pos: nat): map<int, Cursor>
    requires Visiting(w, p)
  {
    w.pollers[p := w.pollers[p].(visit := Some(VisitOf(w, p).(pos := pos)))]
  }

  /** A poller can go on through its job. */
  lemma {:induction false} GoOn(e: Provider, w0: World, steps: seq<Step>, w: World, p: int, n: nat)
    returns (steps': seq<Step>, w': World)
    requires Reaches(e, w0, steps, w) && Visiting(w, p) && VisitOf(w, p).pos <= n <= |PlanOf(e, w, p)|
    ensures Reaches(e, w0, steps', w')
    ensures w'.jobs == w.jobs && w'.completed == w.completed && w'.visits == w.visits && w'.pollers == Moved(w, p, n)
    decreases n - VisitOf(w, p).pos
  {
    if VisitOf(w, p).pos == n {
      steps', w' := steps, w;
      assert Moved(w, p, n) == w.pollers;
    } else {
      ReachesNext(e, w0, steps, w, Perform(p));
      var w1 := Apply(e, w, Perform(p));
      steps', w' := GoOn(e, w0, steps + [Perform(p)], w1, p, n);
      assert Moved(w1, p, n) == Moved(w, p, n);
    }
  }

  ghost predicate Undisturbed(w: World, w': World, p: int) {
    && w'.jobs == w.jobs && w'.pollers.Keys == w.pollers.Keys
    && forall q :: q in w.pollers && q != p ==> w'.pollers[q] == w.pollers[q]
  }

  /** A poller can work through the next job on its list. */
  lemma {:induction false} OneMore(e: Provider, w0: World, steps: seq<Step>, w: World, p: int)
    returns (steps': seq<Step>, w': World)
    requires Reaches(e, w0, steps, w) && BetweenJobs(w, p) && w.pollers[p].todo[0] in w.jobs
    ensures Reaches(e, w0, steps', w') && Undisturbed(w, w', p)
    ensures w'.completed == w.completed + {w.pollers[p].todo[0]}
    ensures w'.pollers[p] == Cursor(w.pollers[p].todo[1..], None)
  {
    ReachesNext(e, w0, steps, w, Open(p));
    var w1 := Apply(e, w, Open(p));
    var steps1, w2 := GoOn(e, w0, steps + [Open(p)], w1, p, |PlanOf(e, w1, p)|);
    ReachesNext(e, w0, steps1, w2, Complete(p));
    steps', w' := steps1 + [Complete(p)], Apply(e, w2, Complete(p));
  }

  /** And then through the rest of it. */
  lemma {:induction false} AllOfThem(e: Provider, w0: World, steps: seq<Step>, w: World, p: int)
    returns (steps': seq<Step>, w': World)
    requires Reaches(e, w0, steps, w) && p in w.pollers && w.pollers[p].visit.None?
    requires forall i :: 0 <= i < |w.pollers[p].todo| ==> w.pollers[p].todo[i] in w.jobs
    ensures Reaches(e, w0, steps', w') && Undisturbed(w, w', p)
    ensures w.completed <= w'.completed
    ensures forall i :: 0 <= i < |w.pollers[p].todo| ==> w.pollers[p].todo[i] in w'.completed
    decreases |w.pollers[p].todo|
  {
    steps', w' := steps, w;
    if w.pollers[p].todo != [] {
      var w1;
      steps', w1 := OneMore(e, w0, steps, w, p);
      steps', w' := AllOfThem(e, w0, steps', w1, p);
      forall i | 0 <= i < |w.pollers[p].todo| ensures w.pollers[p].todo[i] in w'.completed {
        if i > 0 {
          assert w1.pollers[p].todo[i - 1] == w.pollers[p].todo[i];
        }
      }
    }
  }

  lemma {:induction false} Listed(s: set<int>) returns (ids: seq<int>)
    ensures NoDuplicates(ids) && forall j :: j in s <==> j in ids
    decreases s
  {
    ids := [];
    if s == {} {
    } else {
      var j := Pick(s);
      var rest := Listed(s - {j});
      ids := [j] + rest;
    }
  }

  /** A fresh table's jobs, listed with a given one first. */
  lemma ListedFrom(w: World, j: int) returns (ids: seq<int>)
    requires w.completed == {} && j in w.jobs
    ensures ListsInProgress(w, ids) && ids != [] && ids[0] == j
  {
    var rest := Listed(w.jobs.Keys - {j});
    ids := [j] + rest;
    forall i | 0 <= i < |ids| ensures ids[i] in w.jobs && ids[i] !in w.completed {
      if i > 0 {
        assert ids[i] == rest[i - 1] && rest[i - 1] in rest;
      }
    }
  }

  /** Poller 1 stands right before act `i` of job `j`, poller 2 has just selected every job. */
  lemma Poised(e: Provider, w0: World, j: int, i: nat) returns (steps: seq<Step>, w: World)
    requires Fresh(w0) && j in w0.jobs && i <= |Plan(e, w0.jobs[j], j)|
    ensures Reaches(e, w0, steps, w) && w.jobs == w0.jobs && w.completed == {}
    ensures Visiting(w, 1) && VisitOf(w, 1).job == j && VisitOf(w, 1).pos == i
    ensures 2 in w.pollers && w.pollers[2].visit.None? && ListsInProgress(w0, w.pollers[2].todo)
  {
    var ids := ListedFrom(w0, j);
    ReachesNext(e, w0, [], w0, Select(1, ids));
    var w1 := Apply(e, w0, Select(1, ids));
    ReachesNext(e, w0, [] + [Select(1, ids)], w1, Open(1));
    var w2 := Apply(e, w1, Open(1));
    var w3;
    steps, w3 := GoOn(e, w0, [] + [Select(1, ids)] + [Open(1)], w2, 1, i);
    assert ListsInProgress(w3, ids);
    ReachesNext(e, w0, steps, w3, Select(2, ids));
    steps, w := steps + [Select(2, ids)], Apply(e, w3, Select(2, ids));
  }

  /** Whatever any result claims for a key can be what the cache ends up with: its poller stalls
      right before the write and wakes up after another poller completed everything. */
  lemma AnyClaimCanWin(e: Provider, w0: World, key: string, c: Candidate) returns (steps: seq<Step>, w: World)
    requires Fresh(w0) && Planned(e, w0.jobs, key, c)
    ensures Completes(e, w0, steps, w) && key in w.cache && w.cache[key] == c
  {
    var j, i :| Puts(e, w0.jobs, j, i, key, c);
    var steps1, w1 := Poised(e, w0, j, i);
    var steps2, w2 := AllOfThem(e, w0, steps1, w1, 2);
    assert w2.pollers[1] == w1.pollers[1];
    forall k | k in w0.jobs ensures k in w2.completed {
      assert k in w1.pollers[2].todo;
    }
    ReachesNext(e, w0, steps2, w2, Perform(1));
    steps, w := steps2 + [Perform(1)], Apply(e, w2, Perform(1));
  }

  /** Polls can be interrupted, repeated and overlapped without any effect on the final cache
      exactly when no two results claim one key with different payloads. */
  lemma ScheduleFreeIffAgreeing(e: Provider, w0: World)
    requires Fresh(w0)
    ensures ScheduleFree(e, w0) <==> Agreeing(e, w0.jobs)
  {
    if Agreeing(e, w0.jobs) {
      forall steps, w, steps', w' | Completes(e, w0, steps, w) && Completes(e, w0, steps', w')
        ensures w.cache == w'.cache
      {
        ResumingChangesNothing(e, w0, steps, w, steps', w');
      }
    } else {
      var key, c, c' :| Planned(e, w0.jobs, key, c) && Planned(e, w0.jobs, key, c') && c != c';
      var steps, w := AnyClaimCanWin(e, w0, key, c);
      var steps', w' := AnyClaimCanWin(e, w0, key, c');
    }
  }
}

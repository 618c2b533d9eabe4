/** The poller itself, over the durable store. Every execution of it is a run of the protocol. */
module BatchPoller {
  import opened Common
  import opened AnswerGates
  import opened BatchWork
  import opened BatchProtocol
  import opened BatchAudits

  /** What befalls an attempted effect: it goes through, it raises, or the process dies. */
  datatype Mishap = Fine | Throws | Kills

  /** Steps of poller `p` alone, selecting once and first. */
  ghost predicate SoleRun(p: int, steps: seq<Step>) {
    forall i :: 0 <= i < |steps| ==> !steps[i].Submit? && steps[i].p == p && (steps[i].Select? <==> i == 0)
  }

  /** Without exceptions and crashes the steps of one poller are an undisturbed run. */
  lemma {:induction false} SmoothSoleRunIsCalm(e: Provider, w0: World, p: int, steps: seq<Step>, w: World)
    requires w0.pollers == map[] && SoleRun(p, steps) && Smooth(steps) && Reaches(e, w0, steps, w)
    ensures CalmlyReaches(e, w0, steps, w)
  {
    if steps == [] {
    } else {
      var front, s := steps[..|steps| - 1], steps[|steps| - 1];
      var mid :| Reaches(e, w0, front, mid) && Advances(e, mid, s, w);
      SmoothSoleRunIsCalm(e, w0, p, front, mid);
      assert Calm(mid, s);
    }
  }

  /** The acts right ahead of a visit. */
  ghost predicate Ahead(e: Provider, jobs: map<int, Job>, v: Visit, own: seq<Act>) {
    && v.job in jobs && v.pos + |own| <= |Plan(e, jobs[v.job], v.job)|
    && forall i :: v.pos <= i < v.pos + |own| ==> Plan(e, jobs[v.job], v.job)[i] == own[i - v.pos]
  }

  /** `steps` of poller `p` alone lead from `w0` to `w`. */
  ghost predicate Arrives(e: Provider, w0: World, steps: seq<Step>, p: int, w: World) {
    Reaches(e, w0, steps, w) && SoleRun(p, steps) && steps != []
  }

  lemma ArrivesNext(e: Provider, w0: World, steps: seq<Step>, p: int, w: World, s: Step, w': World)
    requires Arrives(e, w0, steps, p, w) && Advances(e, w, s, w')
    requires !s.Submit? && !s.Select? && s.p == p
    ensures Arrives(e, w0, steps + [s], p, w')
    ensures Smooth(steps) && !s.Raise? && !s.Crash? ==> Smooth(steps + [s])
  {
    ReachesNext(e, w0, steps, w, s);
  }

  lemma PerformAdvances(e: Provider, w: World, p: int, todo: seq<int>, v: Visit, act: Act, w': World)
    requires w.pollers == map[p := Cursor(todo, Some(v))] && Ahead(e, w.jobs, v, [act])
    requires w' == Performed(w, v, act).(pollers := map[p := Cursor(todo, Some(v.(pos := v.pos + 1)))])
    ensures Advances(e, w, Perform(p), w')
  {
    assert Plan(e, w.jobs[v.job], v.job)[v.pos] == act;
    assert w.pollers[p := Cursor(todo, Some(v.(pos := v.pos + 1)))] == w'.pollers;
  }

  lemma CompleteAdvances(e: Provider, w: World, p: int, todo: seq<int>, v: Visit, w': World)
    requires w.pollers == map[p := Cursor(todo, Some(v))] && v.job in w.jobs && v.pos == |Plan(e, w.jobs[v.job], v.job)|
    requires w' == w.(completed := w.completed + {v.job}, pollers := map[p := Cursor(todo, None)])
    ensures Advances(e, w, Complete(p), w')
  {
    assert w.pollers[p := Cursor(todo, None)] == w'.pollers;
  }

  /** Arriving at a line, its own acts are right ahead. */
  lemma AheadOfLine(e: Provider, jobs: map<int, Job>, v: Visit, n: nat)
    requires v.job in jobs && n < |e.lines(v.job)|
    requires v.pos == |JobActs(e.gates, jobs[v.job], e.lines(v.job)[..n])|
    ensures var own := LineActs(e.gates, jobs[v.job], e.lines(v.job)[n]);
            && Ahead(e, jobs, v, own)
            && v.pos + |own| == |JobActs(e.gates, jobs[v.job], e.lines(v.job)[..n + 1])|
  {
    LineActsAt(e.gates, jobs[v.job], e.lines(v.job), n);
  }

  lemma SelectArrives(e: Provider, w0: World, p: int, todo: seq<int>, w: World)
    requires w0.pollers == map[] && ListsInProgress(w0, todo) && w == w0.(pollers := map[p := Cursor(todo, None)])
    ensures Arrives(e, w0, [Select(p, todo)], p, w)
  {
    assert w0.pollers[p := Cursor(todo, None)] == w.pollers;
    ReachesNext(e, w0, [], w0, Select(p, todo));
    assert [] + [Select(p, todo)] == [Select(p, todo)];
  }

  /** Moving on to the next id, either past it or into it. */
  lemma NextJobAdvances(e: Provider, w: World, p: int, todo: seq<int>)
    requires w.pollers == map[p := Cursor(todo, None)] && todo != []
    ensures Advances(e, w, PassOver(p), w.(pollers := map[p := Cursor(todo[1..], None)]))
    ensures todo[0] in w.jobs ==>
              Advances(e, w, Open(p), w.(visits := w.visits + [todo[0]],
                                         pollers := map[p := Cursor(todo[1..], Some(Visit(|w.visits|, todo[0], 0)))]))
  {
    assert w.pollers[p := Cursor(todo[1..], None)] == map[p := Cursor(todo[1..], None)];
    var c := Cursor(todo[1..], Some(Visit(|w.visits|, todo[0], 0)));
    assert w.pollers[p := c] == map[p := c];
  }

  /** Giving up a job, or everything. */
  lemma GivingUpAdvances(e: Provider, w: World, p: int, c: Cursor)
    requires w.pollers == map[p := c]
    ensures Advances(e, w, Crash(p), w.(pollers := map[]))
    ensures c == Cursor([], None) ==> Advances(e, w, Finish(p), w.(pollers := map[]))
    ensures Visiting(w, p) ==> Advances(e, w, Raise(p), w.(pollers := map[p := Cursor(c.todo, None)]))
  {
    assert w.pollers - {p} == map[];
    assert w.pollers[p := Cursor(c.todo, None)] == map[p := Cursor(c.todo, None)];
  }

  class Store {
    var jobs: map<int, Job>
    var completed: set<int>
    var cache: map<string, Candidate>
    var audits: seq<Entry>
    var visits: seq<int>

    /** The protocol's world with `p` as the only poller. */
    ghost function With(p: int, c: Cursor): World
      reads this
    {
      World(jobs, completed, cache, audits, visits, map[p := c])
    }

    ghost function Idle(): World
      reads this
    {
      World(jobs, completed, cache, audits, visits, map[])
    }

    /** `steps` lead from `w0` to here, with poller `p` at `c`. */
    ghost predicate At(e: Provider, w0: World, steps: seq<Step>, p: int, c: Cursor)
      reads this
    {
      Arrives(e, w0, steps, p, With(p, c))
    }

    /** Attempt the next act of the job in hand; when it goes through it is durable at once. */
    method Attempt(e: Provider, act: Act, v: Visit, mishap: nat -> Mishap, tick: nat,
                   ghost w0: World, ghost steps: seq<Step>, ghost p: int, ghost todo: seq<int>)
      returns (out: Mishap, ghost steps': seq<Step>)
      requires At(e, w0, steps, p, Cursor(todo, Some(v))) && Ahead(e, jobs, v, [act])
      modifies this
      ensures out == mishap(tick)
      ensures jobs == old(jobs) && completed == old(completed) && visits == old(visits)
      ensures cache == (if out.Fine? && act.Put? then old(cache)[act.key := act.payload] else old(cache))
      ensures audits == (if out.Fine? && act.Log? then old(audits) + [Entry(v.id, v.pos, act.row)] else old(audits))
      ensures At(e, w0, steps', p, Cursor(todo, Some(if out.Fine? then v.(pos := v.pos + 1) else v)))
      ensures Smooth(steps) ==> Smooth(steps')
    {
      out, steps' := mishap(tick), steps;
      if out.Fine? {
        ghost var w := With(p, Cursor(todo, Some(v)));
        match act {
          case Put(key, c) => cache := cache[key := c];
          case Log(row) => audits := audits + [Entry(v.id, v.pos, row)];
        }
        steps' := steps + [Perform(p)];
        ghost var w' := With(p, Cursor(todo, Some(v.(pos := v.pos + 1))));
        PerformAdvances(e, w, p, todo, v, act, w');
        ArrivesNext(e, w0, steps, p, w, Perform(p), w');
      }
    }

    /** Validate one answer; cache it if every gate passes, then audit whatever came of it. */
    method ValidateAndCache(e: Provider, job: Job, line: Line, key: string, v: Visit, mishap: nat -> Mishap, tick: nat,
                            ghost w0: World, ghost steps: seq<Step>, ghost p: int, ghost todo: seq<int>)
      returns (out: Mishap, tick': nat, v': Visit, ghost steps': seq<Step>)
      requires line.customId in job.hashes && key == KeyFor(job, line.customId) && line.result.Succeeded?
      requires At(e, w0, steps, p, Cursor(todo, Some(v))) && Ahead(e, jobs, v, LineActs(e.gates, job, line))
      modifies this
      ensures jobs == old(jobs) && completed == old(completed) && visits == old(visits)
      ensures At(e, w0, steps', p, Cursor(todo, Some(v'))) && (Smooth(steps) ==> Smooth(steps'))
      ensures v'.id == v.id && v'.job == v.job
      ensures out.Fine? ==> v'.pos == v.pos + |LineActs(e.gates, job, line)|
      ensures (forall k :: mishap(k).Fine?) ==> out.Fine?
    {
      var Succeeded(text, input, output) := line.result;
      ghost var own := LineActs(e.gates, job, line);
      tick', v', steps' := tick, v, steps;
      var status, cost;
      match Judge(e.gates, text) {
        case Rejected(s) =>
          status, cost := s, 0.0;
        case Accepted(payload) =>
          assert own[0] == Put(key, payload);
          assert Ahead(e, jobs, v, [own[0]]);
          out, steps' := Attempt(e, Put(key, payload), v, mishap, tick, w0, steps, p, todo);
          tick' := tick + 1;
          if !out.Fine? {
            return;
          }
          v' := v.(pos := v.pos + 1);
          status, cost := Ok, HalfPrice(job.model, input, output);
      }
      var act := LogOf(job, line, status, input, output, cost);
      assert act == own[|own| - 1];
      assert Ahead(e, jobs, v', [act]);
      out, steps' := Attempt(e, act, v', mishap, tick', w0, steps', p, todo);
      tick' := tick' + 1;
      if out.Fine? {
        v' := v'.(pos := v'.pos + 1);
      }
    }

    /** Handle result line `n`: nothing for an unknown id or type, else its own acts in order. */
    method ProcessLine(e: Provider, job: Job, n: nat, v: Visit, mishap: nat -> Mishap, tick: nat,
                       ghost w0: World, ghost steps: seq<Step>, ghost p: int, ghost todo: seq<int>)
      returns (out: Mishap, tick': nat, v': Visit, ghost steps': seq<Step>)
      requires v.job in jobs && job == jobs[v.job] && n < |e.lines(v.job)|
      requires v.pos == |JobActs(e.gates, job, e.lines(v.job)[..n])|
      requires At(e, w0, steps, p, Cursor(todo, Some(v)))
      modifies this
      ensures jobs == old(jobs) && completed == old(completed) && visits == old(visits)
      ensures At(e, w0, steps', p, Cursor(todo, Some(v'))) && (Smooth(steps) ==> Smooth(steps'))
      ensures v'.id == v.id && v'.job == v.job
      ensures out.Fine? ==> v'.pos == |JobActs(e.gates, job, e.lines(v.job)[..n + 1])|
      ensures (forall k :: mishap(k).Fine?) ==> out.Fine?
    {
      var line := e.lines(v.job)[n];
      AheadOfLine(e, jobs, v, n);
      out, tick', v', steps' := Fine, tick, v, steps;
      if line.customId !in job.hashes {
        return;
      }
      var key := KeyFor(job, line.customId);
      match line.result {
        case Succeeded(_, _, _) =>
          out, tick', v', steps' := ValidateAndCache(e, job, line, key, v, mishap, tick, w0, steps, p, todo);
        case Errored =>
          out, tick', v', steps' := AuditNonSucceeded(e, job, line, BatchErrored, v, mishap, tick, w0, steps, p, todo);
        case Canceled =>
          out, tick', v', steps' := AuditNonSucceeded(e, job, line, BatchCanceled, v, mishap, tick, w0, steps, p, todo);
        case Expired =>
          out, tick', v', steps' := AuditNonSucceeded(e, job, line, BatchExpired, v, mishap, tick, w0, steps, p, todo);
        case Unrecognised =>
      }
    }

    method AuditNonSucceeded(e: Provider, job: Job, line: Line, status: Status, v: Visit, mishap: nat -> Mishap,
                             tick: nat,
                             ghost w0: World, ghost steps: seq<Step>, ghost p: int, ghost todo: seq<int>)
      returns (out: Mishap, tick': nat, v': Visit, ghost steps': seq<Step>)
      requires LineActs(e.gates, job, line) == [LogOf(job, line, status, 0, 0, 0.0)]
      requires At(e, w0, steps, p, Cursor(todo, Some(v))) && Ahead(e, jobs, v, LineActs(e.gates, job, line))
      modifies this
      ensures jobs == old(jobs) && completed == old(completed) && visits == old(visits) && cache == old(cache)
      ensures At(e, w0, steps', p, Cursor(todo, Some(v'))) && (Smooth(steps) ==> Smooth(steps'))
      ensures v' == (if out.Fine? then v.(pos := v.pos + 1) else v) && out == mishap(tick)
    {
      out, steps' := Attempt(e, LogOf(job, line, status, 0, 0, 0.0), v, mishap, tick, w0, steps, p, todo);
      tick' := tick + 1;
      v' := if out.Fine? then v.(pos := v.pos + 1) else v;
    }

    /** Go through every result line of the job in hand, then mark it completed. */
    method FinishJob(e: Provider, v: Visit, mishap: nat -> Mishap, tick: nat,
                     ghost w0: World, ghost steps: seq<Step>, ghost p: int, ghost todo: seq<int>)
      returns (out: Mishap, tick': nat, ghost v': Visit, ghost steps': seq<Step>)
      requires v.job in jobs && v.pos == 0
      requires At(e, w0, steps, p, Cursor(todo, Some(v)))
      modifies this
      ensures jobs == old(jobs) && visits == old(visits)
      ensures completed == (if out.Fine? then old(completed) + {v.job} else old(completed))
      ensures At(e, w0, steps', p, Cursor(todo, if out.Fine? then None else Some(v')))
              && (Smooth(steps) ==> Smooth(steps'))
      ensures v'.job == v.job
      ensures (forall k :: mishap(k).Fine?) ==> out.Fine?
    {
      var job, lines := jobs[v.job], e.lines(v.job);
      var here := v;
      out, tick', v', steps' := Fine, tick, v, steps;
      for n := 0 to |lines|
        invariant jobs == old(jobs) && completed == old(completed) && visits == old(visits)
        invariant At(e, w0, steps', p, Cursor(todo, Some(here))) && (Smooth(steps) ==> Smooth(steps'))
        invariant here.id == v.id && here.job == v.job && here.pos == |JobActs(e.gates, job, lines[..n])|
      {
        out, tick', here, steps' := ProcessLine(e, job, n, here, mishap, tick', w0, steps', p, todo);
        v' := here;
        if !out.Fine? {
          return;
        }
      }
      assert lines[..|lines|] == lines;
      v' := here;
      out := mishap(tick');
      tick' := tick' + 1;
      if out.Fine? {
        ghost var w := With(p, Cursor(todo, Some(here)));
        completed := completed + {here.job};
        CompleteAdvances(e, w, p, todo, here, With(p, Cursor(todo, None)));
        ArrivesNext(e, w0, steps', p, w, Complete(p), With(p, Cursor(todo, None)));
        steps' := steps' + [Complete(p)];
      }
    }

    /** The ids of the jobs still in progress, in whatever order the table gives them. */
    method ListInProgress() returns (ids: seq<int>)
      ensures ListsInProgress(Idle(), ids)
    {
      ids := [];
      var rest := set j | j in jobs && j !in completed;
      while rest != {}
        invariant forall j :: j in rest ==> j in jobs && j !in completed && j !in ids
        invariant forall j :: j in jobs && j !in completed ==> j in rest || j in ids
        invariant NoDuplicates(ids) && forall i :: 0 <= i < |ids| ==> ids[i] in jobs && ids[i] !in completed
        decreases rest
      {
        var j := Choose(rest);
        ids := ids + [j];
        rest := rest - {j};
      }
    }

    /** The process dies: nothing durable changes. */
    ghost method Die(e: Provider, c: Cursor, w0: World, steps: seq<Step>, p: int) returns (steps': seq<Step>)
      requires At(e, w0, steps, p, c)
      ensures Arrives(e, w0, steps', p, Idle())
    {
      GivingUpAdvances(e, With(p, c), p, c);
      ArrivesNext(e, w0, steps, p, With(p, c), Crash(p), Idle());
      steps' := steps + [Crash(p)];
    }

    /** Look at the next selected job: leave it when its tenant has no key, its batch has not
        ended or an exception strikes, else work through it. */
    method PollJob(e: Provider, j: int, ready: int -> bool, mishap: nat -> Mishap, tick: nat,
                   ghost w0: World, ghost steps: seq<Step>, ghost p: int, ghost todo: seq<int>)
      returns (alive: bool, tick': nat, ghost steps': seq<Step>)
      requires todo != [] && j == todo[0] && j in jobs
      requires At(e, w0, steps, p, Cursor(todo, None))
      modifies this
      ensures jobs == old(jobs)
      ensures if alive then At(e, w0, steps', p, Cursor(todo[1..], None)) else Arrives(e, w0, steps', p, Idle())
      ensures completed == old(completed) || (ready(j) && completed == old(completed) + {j})
      ensures (forall k :: mishap(k).Fine?) ==>
                && alive && (Smooth(steps) ==> Smooth(steps'))
                && completed == old(completed) + (if ready(j) then {j} else {})
    {
      ghost var w := With(p, Cursor(todo, None));
      NextJobAdvances(e, w, p, todo);
      var lookup := mishap(tick);
      tick', alive := tick + 1, true;
      if lookup.Kills? {
        steps' := Die(e, Cursor(todo, None), w0, steps, p);
        return false, tick', steps';
      }
      if lookup.Throws? || !ready(j) {
        ArrivesNext(e, w0, steps, p, w, PassOver(p), With(p, Cursor(todo[1..], None)));
        return true, tick', steps + [PassOver(p)];
      }
      var v := Visit(|visits|, j, 0);
      visits := visits + [j];
      ArrivesNext(e, w0, steps, p, w, Open(p), With(p, Cursor(todo[1..], Some(v))));
      var out;
      ghost var v';
      out, tick', v', steps' := FinishJob(e, v, mishap, tick', w0, steps + [Open(p)], p, todo[1..]);
      if out.Throws? {
        ghost var c := Cursor(todo[1..], Some(v'));
        GivingUpAdvances(e, With(p, c), p, c);
        ArrivesNext(e, w0, steps', p, With(p, c), Raise(p), With(p, Cursor(todo[1..], None)));
        steps' := steps' + [Raise(p)];
      } else if out.Kills? {
        steps' := Die(e, Cursor(todo[1..], Some(v')), w0, steps', p);
        alive := false;
      }
    }

    /** The selected jobs one after the other. */
    method PollEach(e: Provider, ids: seq<int>, ready: int -> bool, mishap: nat -> Mishap,
                    ghost w0: World, ghost steps: seq<Step>, ghost p: int)
      returns (alive: bool, ghost steps': seq<Step>)
      requires forall i :: 0 <= i < |ids| ==> ids[i] in jobs
      requires At(e, w0, steps, p, Cursor(ids, None))
      modifies this
      ensures jobs == old(jobs) && old(completed) <= completed
      ensures if alive then At(e, w0, steps', p, Cursor([], None)) else Arrives(e, w0, steps', p, Idle())
      ensures forall j :: j in completed && j !in old(completed) ==> j in jobs && ready(j)
      ensures (forall k :: mishap(k).Fine?) ==>
                && alive && (Smooth(steps) ==> Smooth(steps'))
                && forall k :: 0 <= k < |ids| && ready(ids[k]) ==> ids[k] in completed
    {
      ghost var undisturbed := forall k :: mishap(k).Fine?;
      var tick := 0;
      alive, steps' := true, steps;
      assert ids[0..] == ids;
      for i := 0 to |ids|
        invariant jobs == old(jobs) && old(completed) <= completed && alive
        invariant At(e, w0, steps', p, Cursor(ids[i..], None))
        invariant forall j :: j in completed && j !in old(completed) ==> j in jobs && ready(j)
        invariant undisturbed && Smooth(steps) ==> Smooth(steps')
        invariant undisturbed ==> forall k :: 0 <= k < i && ready(ids[k]) ==> ids[k] in completed
      {
        alive, tick, steps' := PollJob(e, ids[i], ready, mishap, tick, w0, steps', p, ids[i..]);
        assert ids[i..][1..] == ids[i + 1..];
        if !alive {
          return;
        }
      }
      assert ids[|ids|..] == [];
    }

    /** One poll. Whatever befalls it, what it did is a run of the protocol; left alone, it
        completes every job that is ready. */
    method PollPendingBatches(e: Provider, ready: int -> bool, mishap: nat -> Mishap, ghost p: int)
      returns (ghost steps: seq<Step>)
      modifies this
      ensures jobs == old(jobs)
      ensures Reaches(e, old(Idle()), steps, Idle()) && SoleRun(p, steps)
      ensures forall j :: j in completed && j !in old(completed) ==> j in jobs && ready(j)
      ensures (forall k :: mishap(k).Fine?) ==>
                && CalmlyReaches(e, old(Idle()), steps, Idle())
                && forall j :: j in jobs && ready(j) ==> j in completed
    {
      ghost var w0 := Idle();
      var ids := ListInProgress();
      steps := [Select(p, ids)];
      SelectArrives(e, w0, p, ids, With(p, Cursor(ids, None)));
      var alive;
      alive, steps := PollEach(e, ids, ready, mishap, w0, steps, p);
      if alive {
        steps := Stop(e, w0, steps, p);
        if forall k :: mishap(k).Fine? {
          SmoothSoleRunIsCalm(e, w0, p, steps, Idle());
          assert forall j :: j in jobs && j !in w0.completed ==> j in ids;
        }
      }
    }

    ghost method Stop(e: Provider, w0: World, steps: seq<Step>, p: int) returns (steps': seq<Step>)
      requires At(e, w0, steps, p, Cursor([], None))
      ensures Arrives(e, w0, steps', p, Idle()) && (Smooth(steps) ==> Smooth(steps'))
    {
      ghost var w := With(p, Cursor([], None));
      GivingUpAdvances(e, w, p, Cursor([], None));
      ArrivesNext(e, w0, steps, p, w, Finish(p), Idle());
      steps' := steps + [Finish(p)];
    }
  }
}

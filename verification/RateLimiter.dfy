/** The per-tenant sliding-window rate limiter and the Redis sorted set behind it. */
module RateLimiter {
  import opened Common

  const RATE_LIMIT_REQUESTS: nat := 200
  const RATE_LIMIT_WINDOW: nat := 60
  const WINDOW_MS: nat := RATE_LIMIT_WINDOW * 1000

  /** `stamp` is the application server's clock when the request arrived, `at` is
      Redis's clock when the pipeline executed; both are in milliseconds. */
  datatype Request = Request(key: string, stamp: nat, nonce: nat, at: nat)

  datatype Member = Member(stamp: nat, nonce: nat)

  datatype ZSet = ZSet(scores: map<Member, nat>, expiresAt: nat)

  type Store = map<string, ZSet>

  datatype Response = Next | TooManyRequests(retryAfter: nat)

  function MemberOf(r: Request): Member {
    Member(r.stamp, r.nonce)
  }

  /** The scores a command executed at time `at` sees: an expired key is gone. */
  function Live(store: Store, key: string, at: nat): map<Member, nat> {
    if key in store && at < store[key].expiresAt then store[key].scores else map[]
  }

  /** ZREMRANGEBYSCORE key 0 upTo */
  function Pruned(scores: map<Member, nat>, upTo: int): map<Member, nat> {
    map m | m in scores && !(0 <= scores[m] <= upTo) :: scores[m]
  }

  /** What the pipeline leaves of the set before ZADD. */
  function Kept(store: Store, r: Request): map<Member, nat> {
    Pruned(Live(store, r.key, r.at), r.stamp - WINDOW_MS)
  }

  /** ZADD of the request's own member, after pruning. */
  function Scores(store: Store, r: Request): map<Member, nat> {
    Kept(store, r)[MemberOf(r) := r.stamp]
  }

  function Step(store: Store, r: Request): Store {
    store[r.key := ZSet(Scores(store, r), r.at + WINDOW_MS)]
  }

  predicate Admits(store: Store, r: Request) {
    |Scores(store, r)| <= RATE_LIMIT_REQUESTS
  }

  /** Redis after the first `n` requests of `log`, starting empty. */
  function After(log: seq<Request>, n: nat): Store
    requires n <= |log|
  {
    if n == 0 then map[] else Step(After(log, n - 1), log[n - 1])
  }

  predicate Admitted(log: seq<Request>, i: nat)
    requires i < |log|
  {
    Admits(After(log, i), log[i])
  }

  lemma {:induction false} AfterIgnoresTheFuture(log: seq<Request>, more: seq<Request>, n: nat)
    requires n <= |log|
    ensures After(log + more, n) == After(log, n)
  {
    if n == 0 {
    } else {
      AfterIgnoresTheFuture(log, more, n - 1);
      assert (log + more)[n - 1] == log[n - 1];
    }
  }

  lemma AfterOneMore(log: seq<Request>, r: Request)
    ensures After(log + [r], |log| + 1) == Step(After(log, |log|), r)
    ensures Admitted(log + [r], |log|) <==> Admits(After(log, |log|), r)
  {
    AfterIgnoresTheFuture(log, [r], |log|);
  }

  class TenantRateLimit {
    var store: Store
    ghost var log: seq<Request>  // every request the limiter decided, oldest first

    ghost predicate Valid()
      reads this
    {
      store == After(log, |log|)
    }

    constructor ()
      ensures Valid() && log == []
    {
      store := map[];
      log := [];
    }

    /** `tenant` is the decoded token's tenant, or None without a usable token;
        `redisUp` is false when the pipeline raised and nothing was executed. */
    method Dispatch(path: string, tenant: Option<string>, now: nat, nonce: nat, at: nat, redisUp: bool)
      returns (response: Response)
      requires Valid()
      modifies this
      ensures Valid()
      ensures !("/api/" <= path) || !redisUp ==>
                response == Next && log == old(log) && store == old(store)
      ensures "/api/" <= path && redisUp ==>
                && log == old(log) + [Request("ratelimit:" + tenant.GetOr("anonymous"), now, nonce, at)]
                && response == (if Admitted(log, |old(log)|) then Next else TooManyRequests(60))
    {
      if !("/api/" <= path) {
        return Next;
      }
      var key := "ratelimit:" + tenant.GetOr("anonymous");
      var windowStart := now - RATE_LIMIT_WINDOW * 1000;
      var member := Member(now, nonce);
      if !redisUp {
        return Next;
      }

      // One MULTI/EXEC pipeline: prune, add, count, expire.
      var scores := Pruned(Live(store, key, at), windowStart);
      scores := scores[member := now];
      var count := |scores|;
      store := store[key := ZSet(scores, at + RATE_LIMIT_WINDOW * 1000)];

      ghost var r := Request(key, now, nonce, at);
      assert scores == Scores(old(store), r) && store == Step(old(store), r);
      AfterOneMore(log, r);
      log := log + [r];

      if count > RATE_LIMIT_REQUESTS {
        return TooManyRequests(RATE_LIMIT_WINDOW);
      }
      return Next;
    }
  }

  // ---- What the sorted set remembers ----

  /** Redis executes pipelines in time order; a stamp is at most `lag` ms old by then
      and never ahead of it. */
  ghost predicate Clocked(log: seq<Request>, lag: nat) {
    && (forall i, j :: 0 <= i < j < |log| ==> log[i].at <= log[j].at)
    && (forall i :: 0 <= i < |log| ==> log[i].stamp <= log[i].at <= log[i].stamp + lag)
  }

  ghost predicate FreshMembers(log: seq<Request>) {
    forall i, j ::
      0 <= i < |log| && 0 <= j < |log| && log[i].key == log[j].key && MemberOf(log[i]) == MemberOf(log[j]) ==> i == j
  }

  /** No request of the same key up to `n` prunes entry `i` or lets its key expire. */
  ghost predicate Survives(log: seq<Request>, i: nat, n: nat) {
    forall j :: i < j < n <= |log| && log[j].key == log[i].key ==>
      log[j].stamp < log[i].stamp + WINDOW_MS && log[i].at <= log[j].at < log[i].at + WINDOW_MS
  }

  lemma {:induction false} Retained(log: seq<Request>, i: nat, n: nat)
    requires i < n <= |log|
    requires Survives(log, i, n)
    ensures log[i].key in After(log, n)
    ensures After(log, n)[log[i].key].expiresAt >= log[i].at + WINDOW_MS
    ensures MemberOf(log[i]) in After(log, n)[log[i].key].scores
    ensures After(log, n)[log[i].key].scores[MemberOf(log[i])] == log[i].stamp
  {
    if n > i + 1 {
      Retained(log, i, n - 1);
    }
  }

  /** Nothing is in the set that no request put there, and the deadline is that of some request. */
  lemma {:induction false} Provenance(log: seq<Request>, n: nat, key: string)
    requires n <= |log| && key in After(log, n)
    ensures exists j :: 0 <= j < n && log[j].key == key && After(log, n)[key].expiresAt == log[j].at + WINDOW_MS
    ensures forall m :: m in After(log, n)[key].scores ==>
      exists j :: 0 <= j < n && log[j].key == key && MemberOf(log[j]) == m &&
                  After(log, n)[key].scores[m] == log[j].stamp
  {
    var last := log[n - 1];
    var before := After(log, n - 1);
    if key in before {
      Provenance(log, n - 1, key);
    }
    if last.key == key {
      forall m | m in After(log, n)[key].scores
        ensures exists j :: 0 <= j < n && log[j].key == key && MemberOf(log[j]) == m &&
                            After(log, n)[key].scores[m] == log[j].stamp
      {
        if m == MemberOf(last) {
          assert After(log, n)[key].scores[m] == log[n - 1].stamp;
        } else {
          assert m in before[key].scores;
        }
      }
    }
  }

  // ---- The bound ----

  datatype Clock = RedisClock | StampClock

  function Time(r: Request, clock: Clock): nat {
    if clock == RedisClock then r.at else r.stamp
  }

  /** The admitted requests of `key` in the half-open window (lo, lo + width]. */
  ghost function InWindow(log: seq<Request>, key: string, lo: int, width: nat, clock: Clock): set<nat> {
    set i: nat | i < |log| && log[i].key == key && Admitted(log, i) && lo < Time(log[i], clock) <= lo + width
  }

  /** Counting requests of one key and counting their members is the same thing. */
  lemma CountMembers(log: seq<Request>, key: string, s: set<nat>, t: set<Member>)
    requires FreshMembers(log)
    requires forall i :: i in s ==> i < |log| && log[i].key == key && MemberOf(log[i]) in t
    ensures |s| <= |t|
    ensures (forall m :: m in t ==> exists i :: i in s && MemberOf(log[i]) == m) ==> |s| == |t|
  {
    var f := map i | i in s :: MemberOf(log[i]);
    assert f.Keys == s;
    assert |f| == |f.Keys|;
    if forall m :: m in t ==> exists i :: i in s && MemberOf(log[i]) == m {
      assert f.Values == t;
    }
    InjectiveMapSize(f, t);
  }

  lemma WindowSurvives(log: seq<Request>, lag: nat, lo: int, clock: Clock, i: nat, m: nat)
    requires lag <= WINDOW_MS && Clocked(log, lag)
    requires i <= m < |log|
    requires lo < Time(log[i], clock) && Time(log[m], clock) <= lo + WINDOW_MS - lag
    ensures Survives(log, i, m + 1)
  {
    forall j | i < j < m + 1 && log[j].key == log[i].key
      ensures log[j].stamp < log[i].stamp + WINDOW_MS && log[i].at <= log[j].at < log[i].at + WINDOW_MS
    {
      assert log[j].at <= log[m].at;
    }
  }

  lemma InWindowIsCounted(log: seq<Request>, lag: nat, lo: int, clock: Clock, i: nat, m: nat)
    requires lag <= WINDOW_MS && Clocked(log, lag)
    requires i <= m < |log| && log[i].key == log[m].key
    requires lo < Time(log[i], clock) && Time(log[m], clock) <= lo + WINDOW_MS - lag
    ensures MemberOf(log[i]) in Scores(After(log, m), log[m])
  {
    WindowSurvives(log, lag, lo, clock, i, m);
    Retained(log, i, m + 1);
  }

  /** However the clocks lag within `lag`, any half-open window of 60 s - `lag` admits at most 200. */
  lemma RateBound(log: seq<Request>, lag: nat, key: string, lo: int, clock: Clock)
    requires lag <= WINDOW_MS
    requires Clocked(log, lag) && FreshMembers(log)
    ensures |InWindow(log, key, lo, WINDOW_MS - lag, clock)| <= RATE_LIMIT_REQUESTS
  {
    var s := InWindow(log, key, lo, WINDOW_MS - lag, clock);
    if s == {} {
    } else {
      var m := MaximumOf(s);
      var scores := Scores(After(log, m), log[m]);
      forall i | i in s ensures MemberOf(log[i]) in scores {
        InWindowIsCounted(log, lag, lo, clock, i, m);
      }
      CountMembers(log, key, s, scores.Keys);
      assert |scores.Keys| == |scores|;
    }
  }

  /** 200 requests at one instant, stamped `lag` late, then one more as soon as it prunes them all. */
  function BurstThenOne(lag: nat): seq<Request>
    requires lag <= WINDOW_MS
  {
    seq(201, i requires 0 <= i < 201 =>
      if i < 200 then Request("k", WINDOW_MS - lag, i, WINDOW_MS)
      else Request("k", 2 * WINDOW_MS - lag, i, 2 * WINDOW_MS - lag))
  }

  lemma {:induction false} AtMostOneEntryPerRequest(log: seq<Request>, n: nat, key: string)
    requires n <= |log|
    ensures key in After(log, n) ==> |After(log, n)[key].scores| <= n
  {
    if n == 0 {
    } else {
      AtMostOneEntryPerRequest(log, n - 1, key);
      AtMostOneMore(After(log, n - 1), log[n - 1]);
    }
  }

  lemma ScoresSize(store: Store, r: Request)
    ensures |Scores(store, r)| == if MemberOf(r) in Kept(store, r) then |Kept(store, r)| else |Kept(store, r)| + 1
  {
    UpdateSize(Kept(store, r), MemberOf(r), r.stamp);
  }

  lemma AtMostOneMore(store: Store, r: Request)
    ensures |Scores(store, r)| <= |Live(store, r.key, r.at)| + 1
  {
    SubmapSize(Kept(store, r), Live(store, r.key, r.at));
    ScoresSize(store, r);
  }

  /** When pruning empties the set, the request is alone in it. */
  lemma AloneIfAllPruned(store: Store, r: Request)
    requires forall m :: m in Live(store, r.key, r.at) ==> Live(store, r.key, r.at)[m] <= r.stamp - WINDOW_MS
    ensures |Scores(store, r)| == 1
  {
    assert Kept(store, r) == map[];
    assert Scores(store, r) == map[MemberOf(r) := r.stamp];
  }

  lemma BurstIsAdmitted(lag: nat, i: nat)
    requires lag < WINDOW_MS && i < 201
    ensures Admitted(BurstThenOne(lag), i)
  {
    var log := BurstThenOne(lag);
    var r := log[i];
    if i < 200 {
      AtMostOneEntryPerRequest(log, i + 1, "k");
    } else {
      Provenance(log, i, "k");
      AloneIfAllPruned(After(log, i), r);
    }
  }

  lemma BurstIsALegalRun(lag: nat)
    requires lag < WINDOW_MS
    ensures Clocked(BurstThenOne(lag), lag) && FreshMembers(BurstThenOne(lag))
  {
    var log := BurstThenOne(lag);
    forall i | 0 <= i < |log| ensures log[i].nonce == i {
    }
  }

  /** The window in RateBound cannot be widened by a single millisecond. */
  lemma RateBoundIsTight(lag: nat)
    requires lag < WINDOW_MS
    ensures Clocked(BurstThenOne(lag), lag) && FreshMembers(BurstThenOne(lag))
    ensures |InWindow(BurstThenOne(lag), "k", WINDOW_MS - 1, WINDOW_MS - lag + 1, RedisClock)|
         == RATE_LIMIT_REQUESTS + 1
  {
    BurstIsALegalRun(lag);
    var log := BurstThenOne(lag);
    var s := InWindow(log, "k", WINDOW_MS - 1, WINDOW_MS - lag + 1, RedisClock);
    forall i: nat | i < 201 ensures i in s {
      BurstIsAdmitted(lag, i);
    }
    assert s == Below(201);
  }

  ghost function Below(n: nat): (s: set<nat>)
    ensures |s| == n && forall i: nat :: i in s <==> i < n
  {
    if n == 0 then {} else Below(n - 1) + {n - 1}
  }

  // ---- The trimmed set against the full log ----

  /** The full log, admitted and rejected alike, restricted to the last window before request `i`. */
  ghost function Recent(log: seq<Request>, i: nat): set<nat>
    requires i < |log|
  {
    set j: nat | j < i && log[j].key == log[i].key && log[j].stamp + WINDOW_MS > log[i].stamp
  }

  lemma RecentAreKept(log: seq<Request>, i: nat, j: nat)
    requires i < |log| && Clocked(log, 0) && j in Recent(log, i)
    ensures MemberOf(log[j]) in Kept(After(log, i), log[i])
  {
    assert Survives(log, j, i) by {
      forall h | j < h < i && log[h].key == log[j].key
        ensures log[h].stamp < log[j].stamp + WINDOW_MS && log[j].at <= log[h].at < log[j].at + WINDOW_MS
      {
        assert log[h].at <= log[i].at;
      }
    }
    Retained(log, j, i);
  }

  lemma KeptAreRecent(log: seq<Request>, i: nat, m: Member)
    requires i < |log|
    requires m in Kept(After(log, i), log[i])
    ensures exists j :: j in Recent(log, i) && MemberOf(log[j]) == m
  {
    Provenance(log, i, log[i].key);
    var j: nat :| j < i && log[j].key == log[i].key && MemberOf(log[j]) == m
        && After(log, i)[log[i].key].scores[m] == log[j].stamp;
    assert j in Recent(log, i);
  }

  lemma KeptCountsRecent(log: seq<Request>, i: nat)
    requires i < |log| && Clocked(log, 0) && FreshMembers(log)
    ensures |Kept(After(log, i), log[i])| == |Recent(log, i)|
  {
    var kept := Kept(After(log, i), log[i]).Keys;
    forall j | j in Recent(log, i) ensures MemberOf(log[j]) in kept {
      RecentAreKept(log, i, j);
    }
    forall m | m in kept ensures exists j :: j in Recent(log, i) && MemberOf(log[j]) == m {
      KeptAreRecent(log, i, m);
    }
    CountMembers(log, log[i].key, Recent(log, i), kept);
    assert |kept| == |Kept(After(log, i), log[i])|;
  }

  /** A request's member is not in the set before it adds it. */
  lemma OwnMemberIsNew(log: seq<Request>, i: nat)
    requires i < |log| && FreshMembers(log)
    ensures MemberOf(log[i]) !in Kept(After(log, i), log[i])
  {
    assert forall j :: j in Recent(log, i) ==> MemberOf(log[j]) != MemberOf(log[i]);
    if MemberOf(log[i]) in Kept(After(log, i), log[i]) {
      KeptAreRecent(log, i, MemberOf(log[i]));
      assert false;
    }
  }

  /** On one shared clock every decision is the decision the unbounded log would give. */
  lemma TrimmedSetRefinesLog(log: seq<Request>, i: nat)
    requires i < |log| && Clocked(log, 0) && FreshMembers(log)
    ensures |Scores(After(log, i), log[i])| == |Recent(log, i)| + 1
    ensures Admitted(log, i) <==> |Recent(log, i)| < RATE_LIMIT_REQUESTS
  {
    KeptCountsRecent(log, i);
    OwnMemberIsNew(log, i);
    ScoresSize(After(log, i), log[i]);
  }

  /** On one shared clock EXPIRE never drops an entry that pruning would have kept. */
  lemma ExpiryDropsNothingPruningKeeps(log: seq<Request>, i: nat)
    requires i < |log| && Clocked(log, 0) && log[i].key in After(log, i)
    ensures Pruned(After(log, i)[log[i].key].scores, log[i].stamp - WINDOW_MS)
         == Kept(After(log, i), log[i])
  {
    var key := log[i].key;
    var z := After(log, i)[key];
    Provenance(log, i, key);
    if log[i].at >= z.expiresAt {
      forall m | m in z.scores ensures z.scores[m] <= log[i].stamp - WINDOW_MS {
        var j: nat :| j < i && log[j].key == key && MemberOf(log[j]) == m && z.scores[m] == log[j].stamp;
        if log[j].stamp > log[i].stamp - WINDOW_MS {
          RecentAreKept(log, i, j);
        }
      }
    }
  }

  /** Whatever the clocks of the application servers say, 60 s of silence on a key admits the next request. */
  lemma SilenceAdmits(log: seq<Request>, i: nat)
    requires i < |log|
    requires forall j :: 0 <= j < i && log[j].key == log[i].key ==> log[j].at + WINDOW_MS <= log[i].at
    ensures Admitted(log, i)
  {
    if log[i].key in After(log, i) {
      Provenance(log, i, log[i].key);
    }
    AloneIfAllPruned(After(log, i), log[i]);
  }

  /** The requests of one key, in order. */
  function Project(log: seq<Request>, n: nat, key: string): seq<Request>
    requires n <= |log|
  {
    if n == 0 then []
    else Project(log, n - 1, key) + (if log[n - 1].key == key then [log[n - 1]] else [])
  }

  predicate SameAt(s: Store, t: Store, key: string) {
    (key in s <==> key in t) && (key in s ==> s[key] == t[key])
  }

  lemma StepAtKey(s: Store, t: Store, r: Request, key: string)
    requires SameAt(s, t, key)
    ensures r.key == key ==> SameAt(Step(s, r), Step(t, r), key) && (Admits(s, r) <==> Admits(t, r))
    ensures r.key != key ==> SameAt(Step(s, r), t, key)
  {
    if r.key == key {
      assert Live(s, key, r.at) == Live(t, key, r.at);
    }
  }

  /** The decisions on one key are the ones a limiter serving that key alone would make. */
  lemma {:induction false} KeysAreIndependent(log: seq<Request>, n: nat, key: string)
    requires n <= |log|
    ensures var alone := Project(log, n, key);
            && SameAt(After(log, n), After(alone, |alone|), key)
            && (n < |log| && log[n].key == key ==> (Admitted(log, n) <==> Admits(After(alone, |alone|), log[n])))
  {
    var alone := Project(log, n, key);
    if n == 0 {
    } else {
      KeysAreIndependent(log, n - 1, key);
      var before := Project(log, n - 1, key);
      StepAtKey(After(log, n - 1), After(before, |before|), log[n - 1], key);
      if log[n - 1].key == key {
        AfterIgnoresTheFuture(before, [log[n - 1]], |before|);
      } else {
        assert alone == before;
      }
    }
    if n < |log| && log[n].key == key {
      StepAtKey(After(log, n), After(alone, |alone|), log[n], key);
    }
  }
}

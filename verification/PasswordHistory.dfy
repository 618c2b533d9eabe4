/** Changing and resetting a password, and what the truncated history still knows. */
module PasswordHistory {
  import opened Common
  import opened PasswordPolicy

  const KEPT_AT_LEAST := 10

  /** One accepted change: the replaced hash and the history count in force. */
  datatype Replacement = Replacement(hash: Hash, count: int)

  function Kept(count: int): nat {
    Max(count, KEPT_AT_LEAST)
  }

  /** The stored list after the first `n` replacements, truncated at each. */
  function Stored(log: seq<Replacement>): seq<Hash> {
    if log == [] then []
    else
      var last := log[|log| - 1];
      LastN(Stored(log[..|log| - 1]) + [last.hash], Kept(last.count))
  }

  /** Every replaced hash, oldest first. */
  function Full(log: seq<Replacement>): seq<Hash> {
    if log == [] then [] else Full(log[..|log| - 1]) + [log[|log| - 1].hash]
  }

  // ---- The operations ----

  datatype Outcome =
    | Updated
    | Rejected(error: PolicyError)
    | WrongCurrent
    | ReusedPassword
    | BadStoredHash

  class User {
    var hash: Option<Hash>
    var history: seq<Hash>
    ghost var log: seq<Replacement>

    ghost predicate Valid()
      reads this
    {
      history == Stored(log)
    }

    constructor (hash: Option<Hash>)
      ensures Valid() && this.hash == hash && log == []
    {
      this.hash := hash;
      history := [];
      log := [];
    }

    /** Saves the old hash, truncates the list, and stores the new hash. */
    method Replace(password: string, salt: int, count: int)
      requires Valid()
      modifies this
      ensures Valid() && hash == Some(Hash(password, salt))
      ensures log == if old(hash).Some? then old(log) + [Replacement(old(hash).value, count)] else old(log)
    {
      if hash.Some? {
        history := history + [hash.value];
        if |history| > Max(count, 10) {
          history := history[|history| - Max(count, 10)..];
        }
        ghost var more := log + [Replacement(hash.value, count)];
        assert more[..|more| - 1] == log;
        log := more;
      }
      hash := Some(Hash(password, salt));
    }

    /** `current` is empty when the caller supplied none. */
    method ChangePassword(a: Alphabet, settings: seq<Setting>, floor: seq<Setting>, current: string, password: string,
                          salt: int)
      returns (outcome: Outcome)
      requires Valid()
      modifies this
      ensures Valid()
      ensures var policy := MergedBy(Effective(settings), floor);
              outcome == (
                if Validate(a, password, policy).Some? then Rejected(Validate(a, password, policy).value)
                else if old(hash).Some? && current != "" && old(hash) == Some(Malformed) then BadStoredHash
                else if old(hash).Some? && current != "" && !Matches(current, old(hash).value) then WrongCurrent
                else if Reused(password, Stored(old(log)), policy.historyCount) then ReusedPassword
                else Updated)
      ensures outcome.Updated? ==>
                && hash == Some(Hash(password, salt))
                && log == if old(hash).Some?
                          then old(log)
                              + [Replacement(old(hash).value, MergedBy(Effective(settings), floor).historyCount)]
                          else old(log)
      ensures !outcome.Updated? ==> hash == old(hash) && history == old(history) && log == old(log)
      // an accepted password meets every demand, and is strong when the change was forced
      ensures outcome.Updated? ==> Meets(a, password, MergedBy(Effective(settings), floor))
      ensures outcome.Updated? && floor == FORCED_ROTATION_POLICY ==> Strong(a, password)
    {
      var policy := MergePolicyFloor(settings, floor);
      var error := Validate(a, password, policy);
      if error.Some? {
        return Rejected(error.value);
      }
      if hash.Some? && current != "" {
        if hash.value.Malformed? {
          return BadStoredHash;
        }
        if !Matches(current, hash.value) {
          return WrongCurrent;
        }
      }
      if policy.historyCount > 0 {
        var reused := CheckPasswordHistory(password, history, policy.historyCount);
        if reused {
          return ReusedPassword;
        }
      }
      ValidIff(a, password, policy);
      if floor == FORCED_ROTATION_POLICY {
        ForcedFloorIsStrong(a, settings, password);
      }
      Replace(password, salt, policy.historyCount);
      return Updated;
    }
  }

  datatype ResetToken = ResetToken(user: int, expiresAt: int)

  datatype ResetOutcome = InvalidToken | ExpiredToken | UserNotFound | Attempted(outcome: Outcome)

  class ResetDesk {
    var tokens: map<string, ResetToken>
    var users: map<int, User>

    method ConfirmPasswordReset(a: Alphabet, settings: seq<Setting>, token: string, password: string, salt: int,
                                now: int)
      returns (outcome: ResetOutcome)
      requires forall u :: u in users ==> users[u].Valid()
      modifies this`tokens, users.Values
      ensures token !in old(tokens) <==> outcome.InvalidToken?
      ensures outcome.InvalidToken? ==> tokens == old(tokens)
      ensures outcome.ExpiredToken? <==> token in old(tokens) && now > old(tokens)[token].expiresAt
      ensures outcome.UserNotFound? <==>
                token in old(tokens) && now <= old(tokens)[token].expiresAt && old(tokens)[token].user !in users
      ensures outcome.ExpiredToken? || outcome.UserNotFound? ==> tokens == old(tokens) - {token}
      // A rejected password keeps the token; an accepted one consumes it and sweeps out expired ones.
      ensures outcome.Attempted? && !outcome.outcome.Updated? ==> tokens == old(tokens)
      ensures outcome.Attempted? && outcome.outcome.Updated? ==>
                tokens == map t | t in old(tokens) && t != token && now <= old(tokens)[t].expiresAt :: old(tokens)[t]
      ensures outcome.Attempted? ==>
                var user, policy := users[old(tokens)[token].user], Effective(settings);
                && user.Valid()
                && outcome.outcome == (
                     if Validate(a, password, policy).Some? then Rejected(Validate(a, password, policy).value)
                     else if Reused(password, Stored(old(user.log)), policy.historyCount) then ReusedPassword
                     else Updated)
                && (outcome.outcome.Updated? ==> user.hash == Some(Hash(password, salt)) && Meets(a, password, policy))
                && user.log == (if outcome.outcome.Updated? && old(user.hash).Some?
                                then old(user.log) + [Replacement(old(user.hash).value, policy.historyCount)]
                                else old(user.log))
      ensures forall u :: u in users
                && (token !in old(tokens) || old(tokens)[token].user !in users
                    || users[u] != users[old(tokens)[token].user])
                ==> unchanged(users[u])
    {
      if token !in tokens {
        return InvalidToken;
      }
      var data := tokens[token];
      if now > data.expiresAt {
        tokens := tokens - {token};
        return ExpiredToken;
      }
      if data.user !in users {
        tokens := tokens - {token};
        return UserNotFound;
      }
      var user := users[data.user];
      outcome := Attempted(Updated);
      var policy := Effective(settings);
      var error := Validate(a, password, policy);
      if error.Some? {
        return Attempted(Rejected(error.value));
      }
      if policy.historyCount > 0 {
        var reused := CheckPasswordHistory(password, user.history, policy.historyCount);
        if reused {
          return Attempted(ReusedPassword);
        }
      }
      ValidIff(a, password, policy);
      user.Replace(password, salt, policy.historyCount);
      tokens := tokens - {token};
      tokens := tokens - set t | t in tokens.Keys && now > tokens[t].expiresAt;
      return Attempted(Updated);
    }
  }

  // ---- Truncation against the unbounded history ----

  /** Appending to the last `k` and cutting to `n` keeps the newest of the whole. */
  lemma CutAfterAppend(s: seq<Hash>, k: nat, h: Hash, n: nat)
    requires k <= |s|
    ensures LastN(LastN(s, k) + [h], n) == LastN(s + [h], Min(k + 1, n))
  {
  }

  /** The stored list is always the newest part of the full one. */
  lemma {:induction false} StoredIsRecent(log: seq<Replacement>)
    ensures |Stored(log)| <= |Full(log)| == |log|
    ensures Stored(log) == LastN(Full(log), |Stored(log)|)
  {
    if log == [] {
    } else {
      var front, last := log[..|log| - 1], log[|log| - 1];
      StoredIsRecent(front);
      CutAfterAppend(Full(front), |Stored(front)|, last.hash, Kept(last.count));
    }
  }

  /** What the changes after change `i` leave room for: its own list kept `Kept` entries, and every
      later change added one. */
  ghost predicate Remembers(log: seq<Replacement>, w: int) {
    forall i :: 0 <= i < |log| ==> w <= Kept(log[i].count) + |log| - 1 - i
  }

  lemma RemembersStep(front: seq<Replacement>, last: Replacement, w: int)
    ensures Remembers(front + [last], w) <==> Remembers(front, w - 1) && w <= Kept(last.count)
  {
    var log := front + [last];
    assert log[|front|] == last;
    assert forall i :: 0 <= i < |front| ==> log[i] == front[i];
  }

  /** The list is at least `w` long exactly when every change, together with those after it, kept
      that many: after a raised count the list grows back one entry a change. */
  lemma {:induction false} StoredReaches(log: seq<Replacement>, w: nat)
    requires w <= |log|
    ensures |Stored(log)| >= w <==> Remembers(log, w)
  {
    if log == [] || w == 0 {
      assert forall i :: 0 <= i < |log| ==> 0 <= Kept(log[i].count) + |log| - 1 - i;
    } else {
      var front, last := log[..|log| - 1], log[|log| - 1];
      assert log == front + [last];
      StoredReaches(front, w - 1);
      StoredLength(front, last);
      RemembersStep(front, last, w);
    }
  }

  lemma StoredLength(front: seq<Replacement>, last: Replacement)
    ensures |Stored(front + [last])| == Min(|Stored(front)| + 1, Kept(last.count))
  {
    assert (front + [last])[..|front|] == front;
  }

  lemma LastOfLast(s: seq<Hash>, k: nat, q: nat)
    ensures q <= k ==> LastN(LastN(s, k), q) == LastN(s, q)
  {
  }

  /** Truncation hides nothing from a window of `q`, whatever the counts of the earlier changes,
      exactly when each of them kept enough for it. */
  lemma {:induction false} WindowSurvivesIff(log: seq<Replacement>, q: nat)
    ensures LastN(Stored(log), q) == LastN(Full(log), q) <==> Remembers(log, Min(q, |log|))
  {
    StoredIsRecent(log);
    StoredReaches(log, Min(q, |log|));
    if |Stored(log)| >= Min(q, |log|) {
      if q <= |Stored(log)| {
        LastOfLast(Full(log), |Stored(log)|, q);
      } else {
        assert Stored(log) == Full(log);
      }
    }
  }

  /** Then the reuse check on the stored list is the check on everything ever replaced. */
  lemma {:induction false} TruncationIsInvisible(log: seq<Replacement>, q: int, password: string)
    requires q > 0 ==> Remembers(log, Min(q, |log|))
    ensures Reused(password, Stored(log), q) <==> Reused(password, Full(log), q)
  {
    if q > 0 {
      WindowSurvivesIff(log, q);
    }
  }

  /** A fixed history count, counts that only fall, and any counts up to 10 all keep enough. */
  lemma SteadyCountsRemember(log: seq<Replacement>, q: int)
    requires forall i :: 0 <= i < |log| ==> q <= Kept(log[i].count)
    ensures Remembers(log, Min(q, |log|))
  {
  }

  /** Under one fixed history count the stored list is exactly the last max(count, 10) replaced hashes. */
  lemma {:induction false} FixedCountKeepsExactly(log: seq<Replacement>, count: int)
    requires forall i :: 0 <= i < |log| ==> log[i].count == count
    ensures Stored(log) == LastN(Full(log), if count > 10 then count else 10)
  {
    if log == [] {
    } else {
      var front := log[..|log| - 1];
      FixedCountKeepsExactly(front, count);
      var k, full, h := Kept(count), Full(front), log[|log| - 1].hash;
      assert LastN(LastN(full, k) + [h], k) == LastN(full + [h], k);
    }
  }

  lemma {:induction false} FullAt(log: seq<Replacement>, i: nat)
    requires i < |log|
    ensures |Full(log)| == |log| && Full(log)[i] == log[i].hash
  {
    StoredIsRecent(log);
    if i == |log| - 1 {
      StoredIsRecent(log[..i]);
    } else {
      FullAt(log[..|log| - 1], i);
      StoredIsRecent(log[..|log| - 1]);
    }
  }

  /** Every replaced hash is readable and no two are of one password. */
  ghost predicate DistinctPasswords(log: seq<Replacement>) {
    && (forall i :: 0 <= i < |log| ==> log[i].hash.Hash?)
    && (forall i, j :: 0 <= i < j < |log| ==> log[i].hash.password != log[j].hash.password)
  }

  /** Where a change kept too little, the newest dropped password inside the window is one the
      full history knows and the stored list does not. */
  lemma ForgottenPassword(log: seq<Replacement>, q: nat) returns (password: string)
    requires DistinctPasswords(log) && !Remembers(log, Min(q, |log|))
    ensures Reused(password, Full(log), q) && !Reused(password, Stored(log), q)
  {
    StoredIsRecent(log);
    StoredReaches(log, Min(q, |log|));
    var dropped := |log| - 1 - |Stored(log)|;
    password := log[dropped].hash.password;
    FullAt(log, dropped);
    var window := LastN(Full(log), q);
    assert |window| == Min(q, |log|) > |Stored(log)|;
    assert window[|window| - 1 - |Stored(log)|] == log[dropped].hash;
    assert log[dropped].hash in window && Matches(password, log[dropped].hash);
    forall h | h in LastN(Stored(log), q) ensures !Matches(password, h) {
      var j :| 0 <= j < |Stored(log)| && Stored(log)[j] == h;
      FullAt(log, |log| - |Stored(log)| + j);
    }
  }

  /** The exact extent of the promise that truncation does not weaken the reuse check: over a
      history of different passwords, stored and full history refuse the same passwords if and
      only if no change kept too little for the window now asked for. */
  lemma ReuseCheckIsExactIff(log: seq<Replacement>, q: int)
    requires DistinctPasswords(log)
    ensures (forall password :: Reused(password, Stored(log), q) <==> Reused(password, Full(log), q))
       <==> (q > 0 ==> Remembers(log, Min(q, |log|)))
  {
    if q > 0 && !Remembers(log, Min(q, |log|)) {
      var password := ForgottenPassword(log, q);
    } else {
      forall password ensures Reused(password, Stored(log), q) <==> Reused(password, Full(log), q) {
        TruncationIsInvisible(log, q, password);
      }
    }
  }

  /** So raising the count past what changes under `h` kept loses exactly when there were more
      changes than that. */
  lemma RaisedCountForgets(log: seq<Replacement>, h: int, q: int)
    requires DistinctPasswords(log) && forall i :: 0 <= i < |log| ==> log[i].count == h
    ensures (exists password :: Reused(password, Full(log), q) && !Reused(password, Stored(log), q))
       <==> q > h && q > 10 && |log| > h && |log| > 10
  {
    if Min(q, |log|) > Kept(h) {
      assert log[|log| - 1].count == h;
      assert !Remembers(log, Min(q, |log|));
      var password := ForgottenPassword(log, q);
    } else {
      assert q > 0 ==> Remembers(log, Min(q, |log|));
      forall password ensures Reused(password, Stored(log), q) <==> Reused(password, Full(log), q) {
        TruncationIsInvisible(log, q, password);
      }
    }
  }
}

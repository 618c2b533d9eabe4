/** Credential rows, their encryption, and the single-transaction key rotation. */
module KeyRotation {
  import opened Common

  type Key = int

  /** Decrypted bytes: either they decode as UTF-8 text or they do not. */
  datatype Plain = Utf8(text: string) | NotUtf8(bytes: seq<int>)

  /** An ideal cipher: a token opens under the key that sealed it and under no other. */
  datatype Token = Sealed(key: Key, plain: Plain, nonce: int) | Junk(text: string)

  function Decrypt(k: Key, t: Token): Option<Plain> {
    if t.Sealed? && t.key == k then Some(t.plain) else None
  }

  function DecryptText(k: Key, t: Token): Option<string> {
    match Decrypt(k, t)
    case Some(Utf8(text)) => Some(text)
    case _ => None
  }

  datatype Json = Str(token: Token) | NotStr

  datatype Entry = Entry(name: string, json: Json)

  /** The column's text: unparsable, not an object, or an object's fields in order. */
  datatype Stored = NotJson | NotObject | Object(fields: seq<Entry>)

  datatype Row = Row(id: int, tenant: int, credentials: Option<Stored>)

  datatype Failure = Failure(id: int, tenant: int, name: string)

  datatype PlainField = PlainField(name: string, text: string)

  // ---- What a key makes of a row ----

  /** verify only decrypts; pre-flight also decodes the bytes as text. */
  datatype Depth = DecryptOnly | DecryptAndDecode

  predicate Opens(k: Key, depth: Depth, j: Json) {
    j.Str? && (if depth == DecryptOnly then Decrypt(k, j.token).Some? else DecryptText(k, j.token).Some?)
  }

  function FieldFailures(k: Key, depth: Depth, row: Row, fields: seq<Entry>): seq<Failure> {
    if fields == [] then []
    else
      var last := fields[|fields| - 1];
      FieldFailures(k, depth, row, fields[..|fields| - 1])
      + (if Opens(k, depth, last.json) then [] else [Failure(row.id, row.tenant, last.name)])
  }

  function RowFailures(k: Key, depth: Depth, row: Row): seq<Failure> {
    match row.credentials
    case None => []
    case Some(NotJson) => [Failure(row.id, row.tenant, "<json_parse>")]
    case Some(NotObject) => [Failure(row.id, row.tenant, "<not_object>")]
    case Some(Object(fields)) => FieldFailures(k, depth, row, fields)
  }

  function Failures(k: Key, depth: Depth, rows: seq<Row>): seq<Failure> {
    if rows == [] then []
    else Failures(k, depth, rows[..|rows| - 1]) + RowFailures(k, depth, rows[|rows| - 1])
  }

  /** The decoded plaintexts of the fields that open, in order. */
  function Plains(k: Key, fields: seq<Entry>): seq<PlainField> {
    if fields == [] then []
    else
      var last := fields[|fields| - 1];
      Plains(k, fields[..|fields| - 1])
      + (if Opens(k, DecryptAndDecode, last.json)
         then [PlainField(last.name, DecryptText(k, last.json.token).value)] else [])
  }

  function RowPlains(k: Key, row: Row): seq<PlainField> {
    if row.credentials.Some? && row.credentials.value.Object? then Plains(k, row.credentials.value.fields) else []
  }

  // ---- Re-encryption ----

  /** Whatever Fernet returned when asked to seal this field of this connector. */
  type Cipher = (int, string, string) -> Token

  function SealAll(cipher: Cipher, id: int, plains: seq<PlainField>): seq<Entry> {
    seq(|plains|, i requires 0 <= i < |plains| =>
      Entry(plains[i].name, Str(cipher(id, plains[i].name, plains[i].text))))
  }

  function Reencrypted(k: Key, cipher: Cipher, row: Row): Row {
    if row.credentials.None? then row
    else row.(credentials := Some(Object(SealAll(cipher, row.id, RowPlains(k, row)))))
  }

  function ReencryptedAll(k: Key, cipher: Cipher, rows: seq<Row>): seq<Row> {
    seq(|rows|, i requires 0 <= i < |rows| => Reencrypted(k, cipher, rows[i]))
  }

  // ---- Counts the caller is told ----

  function LoadedTenants(rows: seq<Row>): set<int> {
    set r | r in rows && r.credentials.Some? :: r.tenant
  }

  /** Rows that carry at least one re-encryptable field. */
  function RotatedCount(k: Key, rows: seq<Row>): nat {
    if rows == [] then 0
    else RotatedCount(k, rows[..|rows| - 1]) + (if RowPlains(k, rows[|rows| - 1]) != [] then 1 else 0)
  }

  /** Rows with credentials, all of whose fields decrypt. */
  function OkCount(k: Key, rows: seq<Row>): nat {
    if rows == [] then 0
    else
      var last := rows[|rows| - 1];
      OkCount(k, rows[..|rows| - 1])
      + (if last.credentials.Some? && RowFailures(k, DecryptOnly, last) == [] then 1 else 0)
  }

  function LoadedCount(rows: seq<Row>): nat {
    if rows == [] then 0
    else LoadedCount(rows[..|rows| - 1]) + (if rows[|rows| - 1].credentials.Some? then 1 else 0)
  }

  datatype AuditRow = KeyRotated(tenant: int, rowCount: nat, tenantCount: nat)

  datatype Phase = Preflight | PostVerify

  datatype Outcome =
    | InvalidKey
    | Raised                                    // any unexpected exception, propagated after rollback
    | Aborted(failures: seq<Failure>, phase: Phase)
    | Done(rotated: nat, tenants: nat, dryRun: bool)

  /** What a rotation that meets no unexpected exception returns. */
  function Expected(rows: seq<Row>, oldKey: Key, newKey: Key, cipher: Cipher, dryRun: bool): Outcome {
    var before := Failures(oldKey, DecryptAndDecode, rows);
    var after := Failures(newKey, DecryptOnly, ReencryptedAll(oldKey, cipher, rows));
    if before != [] then Aborted(before, Preflight)
    else if dryRun then Done(RotatedCount(oldKey, rows), |LoadedTenants(rows)|, true)
    else if after != [] then Aborted(after, PostVerify)
    else Done(RotatedCount(oldKey, rows), |LoadedTenants(rows)|, false)
  }

  predicate Writes(outcome: Outcome) {
    outcome.Done? && !outcome.dryRun
  }

  ghost predicate DistinctIds(rows: seq<Row>) {
    forall i, j :: 0 <= i < |rows| && 0 <= j < |rows| && rows[i].id == rows[j].id ==> i == j
  }

  /** One database session: the committed tables and the session's uncommitted view of them. */
  class Session {
    var rows: seq<Row>
    var audit: seq<AuditRow>
    var working: seq<Row>
    var added: seq<AuditRow>
    var tick: nat             // effects attempted so far

    ghost predicate Clean()
      reads this
    {
      working == rows && added == []
    }

    method Rollback()
      modifies this`working, this`added
      ensures Clean()
    {
      working := rows;
      added := [];
    }

    /** Each effect is one tick; the environment decides at which ticks it raises. */
    method Effect(fails: nat -> bool) returns (ok: bool)
      modifies this`tick
      ensures tick == old(tick) + 1 && (ok <==> !fails(old(tick)))
    {
      ok := !fails(tick);
      tick := tick + 1;
    }

    /** The nested pre-flight loops: failures, and the decoded plaintexts by connector id. */
    method CheckAndDecode(k: Key, fails: nat -> bool)
      returns (ok: bool, failures: seq<Failure>, decoded: map<int, seq<PlainField>>)
      requires DistinctIds(working)
      modifies this`tick
      ensures !ok ==> exists n :: fails(n)
      ensures ok ==> failures == Failures(k, DecryptAndDecode, working)
      ensures ok ==> forall r :: r in working && r.credentials.Some? && r.credentials.value.Object? ==>
                r.id in decoded && decoded[r.id] == RowPlains(k, r)
      ensures ok ==> forall r :: r in working && !(r.credentials.Some? && r.credentials.value.Object?) ==>
                r.id !in decoded
    {
      ok, failures, decoded := true, [], map[];
      for n := 0 to |working|
        invariant failures == Failures(k, DecryptAndDecode, working[..n])
        invariant forall i :: 0 <= i < |working| ==>
                    (working[i].id in decoded
                     <==> i < n && working[i].credentials.Some? && working[i].credentials.value.Object?)
        invariant forall i :: 0 <= i < n && working[i].id in decoded ==>
                    decoded[working[i].id] == RowPlains(k, working[i])
      {
        var row := working[n];
        assert working[..n + 1][..n] == working[..n];
        if row.credentials.Some? {
          match row.credentials.value
          case NotJson =>
            failures := failures + [Failure(row.id, row.tenant, "<json_parse>")];
          case NotObject =>
            failures := failures + [Failure(row.id, row.tenant, "<not_object>")];
          case Object(fields) =>
            var fieldFailures, plains;
            ok, fieldFailures, plains := DecodeFields(k, row, fields, fails);
            if !ok {
              return;
            }
            failures := failures + fieldFailures;
            decoded := decoded[row.id := plains];
        }
      }
      assert working[..|working|] == working;
    }

    method DecodeFields(k: Key, row: Row, fields: seq<Entry>, fails: nat -> bool)
      returns (ok: bool, failures: seq<Failure>, plains: seq<PlainField>)
      modifies this`tick
      ensures !ok ==> exists n :: fails(n)
      ensures ok ==> failures == FieldFailures(k, DecryptAndDecode, row, fields) && plains == Plains(k, fields)
    {
      ok, failures, plains := true, [], [];
      for i := 0 to |fields|
        invariant failures == FieldFailures(k, DecryptAndDecode, row, fields[..i])
        invariant plains == Plains(k, fields[..i])
      {
        var field := fields[i];
        assert fields[..i + 1][..i] == fields[..i];
        if !field.json.Str? {
          failures := failures + [Failure(row.id, row.tenant, field.name)];
        } else {
          ok := Effect(fails);
          if !ok {
            return;
          }
          match DecryptText(k, field.json.token)
          case Some(text) =>
            plains := plains + [PlainField(field.name, text)];
          case None =>
            failures := failures + [Failure(row.id, row.tenant, field.name)];
        }
      }
      assert fields[..|fields|] == fields;
    }

    /** Overwrites the credentials of every loaded row with freshly sealed fields. */
    method Reencrypt(k: Key, cipher: Cipher, decoded: map<int, seq<PlainField>>, fails: nat -> bool) returns (ok: bool)
      requires forall r :: r in working && r.credentials.Some? ==> r.id in decoded && decoded[r.id] == RowPlains(k, r)
      modifies this`working, this`tick
      ensures !ok ==> exists n :: fails(n)
      ensures ok ==> working == ReencryptedAll(k, cipher, old(working))
    {
      ok := true;
      for n := 0 to |working|
        invariant |working| == |old(working)|
        invariant forall i :: 0 <= i < |working| ==>
                    working[i] == if i < n then Reencrypted(k, cipher, old(working)[i]) else old(working)[i]
      {
        var row := working[n];
        assert row == old(working)[n];
        if row.credentials.Some? {
          ok := Effect(fails);
          if !ok {
            return;
          }
          var plains := decoded[row.id];
          working := working[n := row.(credentials := Some(Object(SealAll(cipher, row.id, plains))))];
        }
      }
    }

    /** Decrypts every freshly sealed field once more. */
    method CheckAll(k: Key, fails: nat -> bool) returns (ok: bool, failures: seq<Failure>)
      modifies this`tick
      ensures !ok ==> exists n :: fails(n)
      ensures ok ==> failures == Failures(k, DecryptOnly, working)
    {
      ok, failures := true, [];
      for n := 0 to |working|
        invariant failures == Failures(k, DecryptOnly, working[..n])
      {
        assert working[..n + 1][..n] == working[..n];
        ok := Effect(fails);
        if !ok {
          return;
        }
        failures := failures + RowFailures(k, DecryptOnly, working[n]);
      }
      assert working[..|working|] == working;
    }

    /** The audit row joins the re-encrypted rows, and one commit publishes both. */
    method AuditAndCommit(ghost oldKey: Key, ghost cipher: Cipher, rotated: nat, tenants: nat, writeAudit: bool,
                          fails: nat -> bool)
      returns (ok: bool)
      requires working == ReencryptedAll(oldKey, cipher, rows) && added == []
      requires rotated == RotatedCount(oldKey, rows) && tenants == |LoadedTenants(rows)|
      modifies this
      ensures !ok ==> (exists n :: fails(n)) && rows == old(rows) && audit == old(audit)
      ensures ok ==> Clean() && rows == old(working) && audit == old(audit) + AuditFor(old(rows), oldKey, writeAudit)
    {
      if writeAudit && rotated > 0 {
        RotatedMeansLoaded(oldKey, rows);
        FirstLoadedKept(oldKey, cipher, rows);
        var first := FirstLoaded(working);
        added := added + [KeyRotated(first.value.tenant, rotated, tenants)];
      }
      ok := Effect(fails);                            // the one commit
      if !ok {
        return;
      }
      rows := working;
      audit := audit + added;
      added := [];
    }

    /** From a clean pre-flight on: re-encrypt, check, audit and commit. */
    method Rewrite(oldKey: Key, newKey: Key, cipher: Cipher, decoded: map<int, seq<PlainField>>, rotated: nat,
                   tenants: nat,
                   writeAudit: bool, fails: nat -> bool)
      returns (outcome: Outcome)
      requires Clean() && Failures(oldKey, DecryptAndDecode, rows) == []
      requires forall r :: r in rows && r.credentials.Some? ==> r.id in decoded && decoded[r.id] == RowPlains(oldKey, r)
      requires rotated == RotatedCount(oldKey, rows) && tenants == |LoadedTenants(rows)|
      modifies this
      ensures outcome.Raised? ==> exists n :: fails(n)
      ensures outcome.Raised? || outcome == Expected(old(rows), oldKey, newKey, cipher, false)
      ensures !Writes(outcome) ==> rows == old(rows) && audit == old(audit)
      ensures !Writes(outcome) && !outcome.Raised? ==> Clean()
      ensures Writes(outcome) ==>
                && Clean() && rows == ReencryptedAll(oldKey, cipher, old(rows))
                && audit == old(audit) + AuditFor(old(rows), oldKey, writeAudit)
    {
      var ok := Reencrypt(oldKey, cipher, decoded, fails);
      if !ok { return Raised; }
      var failures;
      ok, failures := CheckAll(newKey, fails);
      if !ok { return Raised; }
      if failures != [] {
        Rollback();
        return Aborted(failures, PostVerify);
      }

      ok := AuditAndCommit(oldKey, cipher, rotated, tenants, writeAudit, fails);
      if !ok { return Raised; }
      return Done(rotated, tenants, false);
    }

    /** The body of the transaction, up to and including the commit. */
    method Attempt(oldKey: Key, newKey: Key, cipher: Cipher, dryRun: bool, writeAudit: bool, fails: nat -> bool)
      returns (outcome: Outcome)
      requires Clean() && DistinctIds(rows)
      modifies this
      ensures outcome.Raised? ==> exists n :: fails(n)
      ensures outcome.Raised? || outcome == Expected(old(rows), oldKey, newKey, cipher, dryRun)
      ensures !Writes(outcome) ==> rows == old(rows) && audit == old(audit)
      ensures !Writes(outcome) && !outcome.Raised? ==> Clean()
      ensures Writes(outcome) ==>
                && Clean() && rows == ReencryptedAll(oldKey, cipher, old(rows))
                && audit == old(audit) + AuditFor(old(rows), oldKey, writeAudit)
    {
      var ok := Effect(fails);                        // load the rows
      if !ok { return Raised; }
      ok := Effect(fails);                            // count the tenants
      if !ok { return Raised; }
      var tenants := |LoadedTenants(working)|;

      var failures, decoded;
      ok, failures, decoded := CheckAndDecode(oldKey, fails);
      if !ok { return Raised; }
      if failures != [] {
        Rollback();
        return Aborted(failures, Preflight);
      }
      DecodedIsComplete(oldKey, decoded, working);
      var rotated := CountRotated(decoded);
      if dryRun {
        Rollback();
        return Done(rotated, tenants, true);
      }

      outcome := Rewrite(oldKey, newKey, cipher, decoded, rotated, tenants, writeAudit, fails);
    }

    function CountRotated(decoded: map<int, seq<PlainField>>): nat
      reads this
    {
      CountNonEmpty(decoded, working)
    }

    /** Rotation as the caller sees it: whatever happens, the session is left clean. */
    method Rotate(oldKey: Option<Key>, newKey: Option<Key>, cipher: Cipher, dryRun: bool, writeAudit: bool,
                  fails: nat -> bool)
      returns (outcome: Outcome)
      requires Clean() && DistinctIds(rows)
      modifies this
      ensures Clean()
      ensures outcome.InvalidKey? <==> oldKey.None? || newKey.None?
      ensures outcome.Raised? ==> exists n :: fails(n)
      ensures outcome.InvalidKey? || outcome.Raised?
              || outcome == Expected(old(rows), oldKey.value, newKey.value, cipher, dryRun)
      ensures !Writes(outcome) ==> rows == old(rows) && audit == old(audit)
      ensures Writes(outcome) ==>
                && rows == ReencryptedAll(oldKey.value, cipher, old(rows))
                && audit == old(audit) + AuditFor(old(rows), oldKey.value, writeAudit)
    {
      if oldKey.None? || newKey.None? {
        return InvalidKey;
      }
      outcome := Attempt(oldKey.value, newKey.value, cipher, dryRun, writeAudit, fails);
      if outcome.Raised? {
        Rollback();
      }
    }

    /** Read-only check of every row under one key. */
    method Verify(k: Key) returns (ok: nat, failing: nat, failures: seq<Failure>)
      ensures failures == Failures(k, DecryptOnly, rows)
      ensures ok == OkCount(k, rows) && ok + failing == LoadedCount(rows)
    {
      ok, failing, failures := 0, 0, [];
      for n := 0 to |rows|
        invariant failures == Failures(k, DecryptOnly, rows[..n])
        invariant ok == OkCount(k, rows[..n]) && ok + failing == LoadedCount(rows[..n])
      {
        var row := rows[n];
        assert rows[..n + 1][..n] == rows[..n];
        if row.credentials.Some? {
          match row.credentials.value
          case NotJson =>
            failing := failing + 1;
            failures := failures + [Failure(row.id, row.tenant, "<json_parse>")];
          case NotObject =>
            failing := failing + 1;
            failures := failures + [Failure(row.id, row.tenant, "<not_object>")];
          case Object(fields) =>
            var rowOk := true;
            ghost var start := failures;
            for i := 0 to |fields|
              invariant failures == start + FieldFailures(k, DecryptOnly, row, fields[..i])
              invariant rowOk <==> FieldFailures(k, DecryptOnly, row, fields[..i]) == []
            {
              assert fields[..i + 1][..i] == fields[..i];
              if !Opens(k, DecryptOnly, fields[i].json) {
                rowOk := false;
                failures := failures + [Failure(row.id, row.tenant, fields[i].name)];
              }
            }
            assert fields[..|fields|] == fields;
            if rowOk {
              ok := ok + 1;
            } else {
              failing := failing + 1;
            }
        }
      }
      assert rows[..|rows|] == rows;
    }
  }

  function CountNonEmpty(decoded: map<int, seq<PlainField>>, rows: seq<Row>): nat {
    if rows == [] then 0
    else
      var last := rows[|rows| - 1];
      CountNonEmpty(decoded, rows[..|rows| - 1]) + (if last.id in decoded && decoded[last.id] != [] then 1 else 0)
  }

  function FirstLoaded(rows: seq<Row>): Option<Row> {
    if rows == [] then None
    else if rows[0].credentials.Some? then Some(rows[0])
    else FirstLoaded(rows[1..])
  }

  /** The audit row of a committed rotation, written when some row was actually re-encrypted. */
  function AuditFor(rows: seq<Row>, k: Key, writeAudit: bool): seq<AuditRow> {
    if writeAudit && RotatedCount(k, rows) > 0 && FirstLoaded(rows).Some?
    then [KeyRotated(FirstLoaded(rows).value.tenant, RotatedCount(k, rows), |LoadedTenants(rows)|)]
    else []
  }

  // ---- Bookkeeping lemmas ----

  lemma {:induction false} NoFailuresMeansObjects(k: Key, depth: Depth, rows: seq<Row>)
    requires Failures(k, depth, rows) == []
    ensures forall r :: r in rows ==> RowFailures(k, depth, r) == []
    ensures forall r :: r in rows && r.credentials.Some? ==> r.credentials.value.Object?
  {
    if rows == [] {
    } else {
      var front, last := rows[..|rows| - 1], rows[|rows| - 1];
      NoFailuresMeansObjects(k, depth, front);
      assert RowFailures(k, depth, last) == [];
      forall r | r in rows ensures r == last || r in front {
        assert rows == front + [last];
      }
    }
  }

  /** After a clean pre-flight the decoded map holds every loaded row. */
  lemma DecodedIsComplete(k: Key, decoded: map<int, seq<PlainField>>, rows: seq<Row>)
    requires Failures(k, DecryptAndDecode, rows) == []
    requires forall r :: r in rows && r.credentials.Some? && r.credentials.value.Object? ==>
               r.id in decoded && decoded[r.id] == RowPlains(k, r)
    requires forall r :: r in rows && !(r.credentials.Some? && r.credentials.value.Object?) ==> r.id !in decoded
    ensures forall r :: r in rows && r.credentials.Some? ==> r.id in decoded && decoded[r.id] == RowPlains(k, r)
    ensures CountNonEmpty(decoded, rows) == RotatedCount(k, rows)
  {
    NoFailuresMeansObjects(k, DecryptAndDecode, rows);
    CountIsRotatedCount(k, decoded, rows);
  }

  lemma {:induction false} CountIsRotatedCount(k: Key, decoded: map<int, seq<PlainField>>, rows: seq<Row>)
    requires forall r :: r in rows ==> if r.credentials.Some? && r.credentials.value.Object?
                                       then r.id in decoded && decoded[r.id] == RowPlains(k, r) else r.id !in decoded
    ensures CountNonEmpty(decoded, rows) == RotatedCount(k, rows)
  {
    if rows == [] {
    } else {
      assert rows[|rows| - 1] in rows;
      CountIsRotatedCount(k, decoded, rows[..|rows| - 1]);
    }
  }

  lemma {:induction false} RotatedMeansLoaded(k: Key, rows: seq<Row>)
    requires RotatedCount(k, rows) > 0
    ensures FirstLoaded(rows).Some?
  {
    if FirstLoaded(rows).None? {
      NoneLoaded(rows);
      NothingToRotate(k, rows);
    }
  }

  lemma {:induction false} NoneLoaded(rows: seq<Row>)
    requires FirstLoaded(rows).None?
    ensures forall r :: r in rows ==> r.credentials.None?
  {
    if rows == [] {
    } else {
      NoneLoaded(rows[1..]);
    }
  }

  lemma {:induction false} NothingToRotate(k: Key, rows: seq<Row>)
    requires forall r :: r in rows ==> r.credentials.None?
    ensures RotatedCount(k, rows) == 0
  {
    if rows == [] {
    } else {
      assert rows[|rows| - 1] in rows;
      NothingToRotate(k, rows[..|rows| - 1]);
    }
  }

  lemma {:induction false} FirstLoadedKept(k: Key, cipher: Cipher, rows: seq<Row>)
    ensures FirstLoaded(rows).Some? <==> FirstLoaded(ReencryptedAll(k, cipher, rows)).Some?
    ensures FirstLoaded(rows).Some? ==>
              FirstLoaded(ReencryptedAll(k, cipher, rows)).value.tenant == FirstLoaded(rows).value.tenant
  {
    if rows == [] {
    } else {
      assert ReencryptedAll(k, cipher, rows)[1..] == ReencryptedAll(k, cipher, rows[1..]);
      FirstLoadedKept(k, cipher, rows[1..]);
    }
  }
}

/** What a rotation preserves, whatever the table, the failure point and the cipher's behaviour. */
module KeyRotationProofs {
  import opened Common
  import opened KeyRotation

  /** The cipher gives back what it sealed. */
  ghost predicate Honest(cipher: Cipher, k: Key) {
    forall id, name, text :: DecryptText(k, cipher(id, name, text)) == Some(text)
  }

  predicate HasFields(row: Row) {
    row.credentials.Some? && row.credentials.value.Object?
  }

  function FieldsOf(row: Row): seq<Entry> {
    if HasFields(row) then row.credentials.value.fields else []
  }

  // ---- Rows that pass pre-flight ----

  lemma {:induction false} PlainsComplete(k: Key, row: Row, fields: seq<Entry>)
    requires FieldFailures(k, DecryptAndDecode, row, fields) == []
    ensures |Plains(k, fields)| == |fields|
    ensures forall i :: 0 <= i < |fields| ==>
              && fields[i].json.Str?
              && DecryptText(k, fields[i].json.token) == Some(Plains(k, fields)[i].text)
              && Plains(k, fields)[i].name == fields[i].name
  {
    if fields == [] {
    } else {
      PlainsComplete(k, row, fields[..|fields| - 1]);
    }
  }

  lemma FailureFreeRow(k: Key, depth: Depth, rows: seq<Row>, i: nat)
    requires i < |rows| && Failures(k, depth, rows) == []
    ensures RowFailures(k, depth, rows[i]) == []
    ensures rows[i].credentials.Some? ==> HasFields(rows[i])
    ensures FieldFailures(k, depth, rows[i], FieldsOf(rows[i])) == []
  {
    NoFailuresMeansObjects(k, depth, rows);
    assert rows[i] in rows;
  }

  /** Same connectors in the same order, same NULLs, same field names in the same order. */
  ghost predicate SameShape(row: Row, row': Row) {
    && row'.id == row.id && row'.tenant == row.tenant
    && (row.credentials.None? ==> row' == row)
    && (row.credentials.Some? ==> HasFields(row) && HasFields(row'))
    && |FieldsOf(row')| == |FieldsOf(row)|
    && (forall j :: 0 <= j < |FieldsOf(row)| ==> FieldsOf(row')[j].name == FieldsOf(row)[j].name)
  }

  /** Each field opens under `k'` to the text it opened to under `k`. */
  ghost predicate SamePlaintexts(k: Key, row: Row, k': Key, row': Row)
    requires SameShape(row, row')
  {
    forall j :: 0 <= j < |FieldsOf(row)| ==>
      && FieldsOf(row)[j].json.Str? && FieldsOf(row')[j].json.Str?
      && DecryptText(k, FieldsOf(row)[j].json.token).Some?
      && DecryptText(k', FieldsOf(row')[j].json.token) == DecryptText(k, FieldsOf(row)[j].json.token)
  }

  /** The tokens the cipher actually produced for this row open to what was sealed. */
  ghost predicate FaithfulOn(cipher: Cipher, k: Key, k': Key, row: Row) {
    forall p :: p in RowPlains(k, row) ==> DecryptText(k', cipher(row.id, p.name, p.text)) == Some(p.text)
  }

  /** A committed rotation, under any cipher at all: every row keeps its exact shape and every
      field opens under the new key; the plaintexts survive exactly where the cipher was faithful. */
  lemma CommittedRotation(rows: seq<Row>, oldKey: Key, newKey: Key, cipher: Cipher, i: nat)
    requires Writes(Expected(rows, oldKey, newKey, cipher, false)) && i < |rows|
    ensures var row' := ReencryptedAll(oldKey, cipher, rows)[i];
            && SameShape(rows[i], row')
            && RowFailures(newKey, DecryptOnly, row') == []
            && (SamePlaintexts(oldKey, rows[i], newKey, row') <==> FaithfulOn(cipher, oldKey, newKey, rows[i]))
  {
    var row, rows' := rows[i], ReencryptedAll(oldKey, cipher, rows);
    FailureFreeRow(oldKey, DecryptAndDecode, rows, i);
    FailureFreeRow(newKey, DecryptOnly, rows', i);
    PlainsComplete(oldKey, row, FieldsOf(row));
    var plains := RowPlains(oldKey, row);
    forall j | 0 <= j < |FieldsOf(row)|
      ensures FieldsOf(rows'[i])[j] == Entry(plains[j].name, Str(cipher(row.id, plains[j].name, plains[j].text)))
      ensures plains[j] in plains
    {
    }
  }

  lemma {:induction false} SealedFieldsOpen(cipher: Cipher, k: Key, depth: Depth, row: Row, plains: seq<PlainField>)
    requires Honest(cipher, k)
    ensures FieldFailures(k, depth, row, SealAll(cipher, row.id, plains)) == []
    ensures Plains(k, SealAll(cipher, row.id, plains)) == plains
  {
    var fields := SealAll(cipher, row.id, plains);
    if plains == [] {
      assert fields == [];
    } else {
      var front, last := plains[..|plains| - 1], plains[|plains| - 1];
      SealedFieldsOpen(cipher, k, depth, row, front);
      assert fields[..|fields| - 1] == SealAll(cipher, row.id, front);
      assert fields[|fields| - 1] == Entry(last.name, Str(cipher(row.id, last.name, last.text)));
      assert DecryptText(k, cipher(row.id, last.name, last.text)) == Some(last.text);
      assert plains == front + [last];
    }
  }

  lemma {:induction false} HonestTableOpens(cipher: Cipher, oldKey: Key, newKey: Key, depth: Depth, rows: seq<Row>)
    requires Honest(cipher, newKey)
    ensures Failures(newKey, depth, ReencryptedAll(oldKey, cipher, rows)) == []
  {
    if rows == [] {
    } else {
      var row, front := rows[|rows| - 1], rows[..|rows| - 1];
      assert ReencryptedAll(oldKey, cipher, rows)[..|rows| - 1] == ReencryptedAll(oldKey, cipher, front);
      HonestTableOpens(cipher, oldKey, newKey, depth, front);
      SealedFieldsOpen(cipher, newKey, depth, Reencrypted(oldKey, cipher, row), RowPlains(oldKey, row));
    }
  }

  /** With a working cipher the post-verify abort never happens, so a table that passes
      pre-flight is rotated, and every plaintext survives. */
  lemma HonestRotationSucceeds(rows: seq<Row>, oldKey: Key, newKey: Key, cipher: Cipher)
    requires Honest(cipher, newKey)
    ensures Writes(Expected(rows, oldKey, newKey, cipher, false)) <==> Failures(oldKey, DecryptAndDecode, rows) == []
    ensures Writes(Expected(rows, oldKey, newKey, cipher, false)) ==>
              forall i :: 0 <= i < |rows| ==>
                && SameShape(rows[i], ReencryptedAll(oldKey, cipher, rows)[i])
                && SamePlaintexts(oldKey, rows[i], newKey, ReencryptedAll(oldKey, cipher, rows)[i])
  {
    HonestTableOpens(cipher, oldKey, newKey, DecryptOnly, rows);
    if Writes(Expected(rows, oldKey, newKey, cipher, false)) {
      forall i | 0 <= i < |rows|
        ensures SameShape(rows[i], ReencryptedAll(oldKey, cipher, rows)[i])
             && SamePlaintexts(oldKey, rows[i], newKey, ReencryptedAll(oldKey, cipher, rows)[i])
      {
        CommittedRotation(rows, oldKey, newKey, cipher, i);
      }
    }
  }

  // ---- What the caller is told ----

  /** Every field of a loaded row is a token sealed under `k`. */
  ghost predicate AllUnder(k: Key, row: Row) {
    && HasFields(row)
    && forall j :: 0 <= j < |FieldsOf(row)| ==>
         FieldsOf(row)[j].json.Str? && FieldsOf(row)[j].json.token.Sealed? && FieldsOf(row)[j].json.token.key == k
  }

  lemma {:induction false} NoFieldFailuresIff(k: Key, row: Row, fields: seq<Entry>)
    ensures FieldFailures(k, DecryptOnly, row, fields) == [] <==>
              forall j :: 0 <= j < |fields| ==>
                fields[j].json.Str? && fields[j].json.token.Sealed? && fields[j].json.token.key == k
  {
    if fields == [] {
    } else {
      NoFieldFailuresIff(k, row, fields[..|fields| - 1]);
    }
  }

  lemma OkRowIff(k: Key, row: Row)
    ensures row.credentials.Some? && RowFailures(k, DecryptOnly, row) == [] <==> AllUnder(k, row)
  {
    NoFieldFailuresIff(k, row, FieldsOf(row));
  }

  /** verify's counts: the loaded rows all of whose fields are sealed under the key, and all loaded
      rows. */
  lemma {:induction false} VerifyCounts(k: Key, rows: seq<Row>)
    ensures OkCount(k, rows) == CountUpTo(|rows|, i => 0 <= i < |rows| && AllUnder(k, rows[i]))
    ensures LoadedCount(rows) == CountUpTo(|rows|, i => 0 <= i < |rows| && rows[i].credentials.Some?)
  {
    var ok, loaded := i => 0 <= i < |rows| && AllUnder(k, rows[i]), i => 0 <= i < |rows| && rows[i].credentials.Some?;
    if rows == [] {
      CountUpToNext(0, ok);
      CountUpToNext(0, loaded);
    } else {
      var n, front := |rows| - 1, rows[..|rows| - 1];
      VerifyCounts(k, front);
      OkRowIff(k, rows[n]);
      CountUpToNext(n, ok);
      CountUpToNext(n, loaded);
      CountUpToSame(n, ok, i => 0 <= i < n && AllUnder(k, front[i]));
      CountUpToSame(n, loaded, i => 0 <= i < n && front[i].credentials.Some?);
    }
  }

  lemma {:induction false} RotatedCountIs(k: Key, rows: seq<Row>)
    requires Failures(k, DecryptAndDecode, rows) == []
    ensures RotatedCount(k, rows) == CountUpTo(|rows|, i => 0 <= i < |rows| && FieldsOf(rows[i]) != [])
  {
    var p := i => 0 <= i < |rows| && FieldsOf(rows[i]) != [];
    if rows == [] {
      CountUpToNext(0, p);
    } else {
      var n, front := |rows| - 1, rows[..|rows| - 1];
      FailureFreeRow(k, DecryptAndDecode, rows, n);
      PlainsComplete(k, rows[n], FieldsOf(rows[n]));
      RotatedCountIs(k, front);
      CountUpToNext(n, p);
      CountUpToSame(n, p, i => 0 <= i < n && FieldsOf(front[i]) != []);
    }
  }

  /** A rotation that ends well reports the rows with at least one field and the tenants with any
      loaded row; it writes exactly when it was not a dry run. */
  lemma DoneReports(rows: seq<Row>, oldKey: Key, newKey: Key, cipher: Cipher, dryRun: bool)
    requires Expected(rows, oldKey, newKey, cipher, dryRun).Done?
    ensures var outcome := Expected(rows, oldKey, newKey, cipher, dryRun);
            && outcome.rotated == CountUpTo(|rows|, i => 0 <= i < |rows| && FieldsOf(rows[i]) != [])
            && outcome.tenants == |LoadedTenants(rows)| && outcome.dryRun == dryRun
            && (Writes(outcome) <==> !dryRun)
    ensures forall t :: t in LoadedTenants(rows) <==>
              exists i :: 0 <= i < |rows| && rows[i].credentials.Some? && rows[i].tenant == t
  {
    RotatedCountIs(oldKey, rows);
    forall t | t in LoadedTenants(rows)
      ensures exists i :: 0 <= i < |rows| && rows[i].credentials.Some? && rows[i].tenant == t
    {
      var r :| r in rows && r.credentials.Some? && r.tenant == t;
      var i :| 0 <= i < |rows| && rows[i] == r;
    }
    forall i | 0 <= i < |rows| && rows[i].credentials.Some? ensures rows[i].tenant in LoadedTenants(rows) {
      assert rows[i] in rows;
    }
  }

  /** The audit row is there when it was asked for and some row has a field. It names the tenant of
      the first loaded row and both counts. */
  lemma AuditRowIs(rows: seq<Row>, k: Key, writeAudit: bool, i: nat)
    requires Failures(k, DecryptAndDecode, rows) == []
    requires i < |rows| && rows[i].credentials.Some? && forall j :: 0 <= j < i ==> rows[j].credentials.None?
    ensures var count := CountUpTo(|rows|, n => 0 <= n < |rows| && FieldsOf(rows[n]) != []);
            AuditFor(rows, k, writeAudit)
            == if writeAudit && count > 0 then [KeyRotated(rows[i].tenant, count, |LoadedTenants(rows)|)] else []
  {
    RotatedCountIs(k, rows);
    FirstLoadedAt(rows, i);
  }

  lemma {:induction false} FirstLoadedAt(rows: seq<Row>, i: nat)
    requires i < |rows| && rows[i].credentials.Some? && forall j :: 0 <= j < i ==> rows[j].credentials.None?
    ensures FirstLoaded(rows) == Some(rows[i])
  {
    if i == 0 {
    } else {
      FirstLoadedAt(rows[1..], i - 1);
    }
  }

  // ---- Readers ----

  function ToMap(plains: seq<PlainField>): map<string, string> {
    if plains == [] then map[]
    else ToMap(plains[..|plains| - 1])[plains[|plains| - 1].name := plains[|plains| - 1].text]
  }

  /** Every field by its name, a later one replacing an earlier one of the same name. */
  lemma {:induction false} ToMapIs(plains: seq<PlainField>, name: string)
    ensures name in ToMap(plains) <==> exists i :: 0 <= i < |plains| && plains[i].name == name
    ensures forall i :: 0 <= i < |plains| && plains[i].name == name
                        && (forall j :: i < j < |plains| ==> plains[j].name != name) ==>
              ToMap(plains)[name] == plains[i].text
  {
    if plains == [] {
    } else {
      var front, n := plains[..|plains| - 1], |plains| - 1;
      ToMapIs(front, name);
      assert forall i :: 0 <= i < n ==> front[i] == plains[i];
      if plains[n].name != name && name in ToMap(front) {
        var i :| 0 <= i < |front| && front[i].name == name;
        assert plains[i].name == name;
      }
    }
  }

  /** What a connector sync gets: all the row's secrets, or nothing if any part of it fails. */
  function Credentials(k: Key, row: Row): map<string, string> {
    if HasFields(row) && RowFailures(k, DecryptAndDecode, row) == [] then ToMap(RowPlains(k, row)) else map[]
  }

  /** A backend restarted with the new key reads from every row exactly what it read before. */
  lemma ReadersSeeNoDifference(rows: seq<Row>, oldKey: Key, newKey: Key, cipher: Cipher, i: nat)
    requires Honest(cipher, newKey) && i < |rows|
    requires Writes(Expected(rows, oldKey, newKey, cipher, false))
    ensures Credentials(newKey, ReencryptedAll(oldKey, cipher, rows)[i]) == Credentials(oldKey, rows[i])
  {
    FailureFreeRow(oldKey, DecryptAndDecode, rows, i);
    SealedFieldsOpen(cipher, newKey, DecryptAndDecode, Reencrypted(oldKey, cipher, rows[i]),
                     RowPlains(oldKey, rows[i]));
  }

  /** What create_connector and update_connector store reads back as what was submitted. */
  lemma WritersRoundTrip(k: Key, cipher: Cipher, id: int, tenant: int, submitted: seq<PlainField>)
    requires Honest(cipher, k)
    ensures Credentials(k, Row(id, tenant, Some(Object(SealAll(cipher, id, submitted))))) == ToMap(submitted)
  {
    var row := Row(id, tenant, Some(Object(SealAll(cipher, id, submitted))));
    SealedFieldsOpen(cipher, k, DecryptAndDecode, row, submitted);
  }

  // ---- Rotating there and back ----

  lemma {:induction false} SamePlainsSameCount(k: Key, rows: seq<Row>, k': Key, rows': seq<Row>)
    requires |rows| == |rows'|
    requires forall i :: 0 <= i < |rows| ==> RowPlains(k, rows[i]) == RowPlains(k', rows'[i])
    ensures RotatedCount(k, rows) == RotatedCount(k', rows')
  {
    if rows == [] {
    } else {
      SamePlainsSameCount(k, rows[..|rows| - 1], k', rows'[..|rows| - 1]);
    }
  }

  lemma RotatedPlains(oldKey: Key, newKey: Key, cipher: Cipher, row: Row)
    requires Honest(cipher, newKey)
    ensures RowPlains(newKey, Reencrypted(oldKey, cipher, row)) == RowPlains(oldKey, row)
  {
    SealedFieldsOpen(cipher, newKey, DecryptAndDecode, row, RowPlains(oldKey, row));
  }

  /** k1 to k2 and back to k1: the way back cannot fail, touches the same rows, and every
      row's plaintexts under k1 are the original ones. */
  lemma ThereAndBack(rows: seq<Row>, k1: Key, k2: Key, there: Cipher, back: Cipher)
    requires Honest(there, k2) && Honest(back, k1)
    requires Writes(Expected(rows, k1, k2, there, false))
    ensures var rows' := ReencryptedAll(k1, there, rows);
            var rows'' := ReencryptedAll(k2, back, rows');
            && Expected(rows', k2, k1, back, false).Done?
            && Expected(rows', k2, k1, back, false).rotated == Expected(rows, k1, k2, there, false).rotated
            && Failures(k1, DecryptAndDecode, rows'') == []
            && forall i :: 0 <= i < |rows| ==> RowPlains(k1, rows''[i]) == RowPlains(k1, rows[i])
  {
    var rows' := ReencryptedAll(k1, there, rows);
    var rows'' := ReencryptedAll(k2, back, rows');
    HonestTableOpens(there, k1, k2, DecryptAndDecode, rows);
    HonestTableOpens(back, k2, k1, DecryptOnly, rows');
    HonestTableOpens(back, k2, k1, DecryptAndDecode, rows');
    forall i | 0 <= i < |rows|
      ensures RowPlains(k2, rows'[i]) == RowPlains(k1, rows[i]) && RowPlains(k1, rows''[i]) == RowPlains(k1, rows[i])
    {
      RotatedPlains(k1, k2, there, rows[i]);
      RotatedPlains(k2, k1, back, rows'[i]);
    }
    SamePlainsSameCount(k1, rows, k2, rows');
  }

  // ---- verify against pre-flight ----

  /** Fields that decrypt to bytes which are not text. */
  function Undecodable(k: Key, fields: seq<Entry>): nat {
    if fields == [] then 0
    else
      var last := fields[|fields| - 1];
      Undecodable(k, fields[..|fields| - 1])
      + (if Opens(k, DecryptOnly, last.json) && !Opens(k, DecryptAndDecode, last.json) then 1 else 0)
  }

  function UndecodableAll(k: Key, rows: seq<Row>): nat {
    if rows == [] then 0 else UndecodableAll(k, rows[..|rows| - 1]) + Undecodable(k, FieldsOf(rows[|rows| - 1]))
  }

  lemma {:induction false} FieldFailuresCompare(k: Key, row: Row, fields: seq<Entry>)
    ensures |FieldFailures(k, DecryptAndDecode, row, fields)|
         == |FieldFailures(k, DecryptOnly, row, fields)| + Undecodable(k, fields)
    ensures Undecodable(k, fields) == 0 ==>
              FieldFailures(k, DecryptAndDecode, row, fields) == FieldFailures(k, DecryptOnly, row, fields)
    ensures forall f :: f in FieldFailures(k, DecryptOnly, row, fields) ==>
              f in FieldFailures(k, DecryptAndDecode, row, fields)
  {
    if fields == [] {
    } else {
      FieldFailuresCompare(k, row, fields[..|fields| - 1]);
    }
  }

  lemma RowFailuresCompare(k: Key, row: Row)
    ensures |RowFailures(k, DecryptAndDecode, row)|
         == |RowFailures(k, DecryptOnly, row)| + Undecodable(k, FieldsOf(row))
    ensures Undecodable(k, FieldsOf(row)) == 0 ==>
              RowFailures(k, DecryptAndDecode, row) == RowFailures(k, DecryptOnly, row)
    ensures forall f :: f in RowFailures(k, DecryptOnly, row) ==> f in RowFailures(k, DecryptAndDecode, row)
  {
    FieldFailuresCompare(k, row, FieldsOf(row));
  }

  /** Everything verify reports, pre-flight reports; they report the same exactly when no field
      decrypts to bytes that are not text. */
  lemma {:induction false} VerifyAgainstPreflight(k: Key, rows: seq<Row>)
    ensures forall f :: f in Failures(k, DecryptOnly, rows) ==> f in Failures(k, DecryptAndDecode, rows)
    ensures |Failures(k, DecryptAndDecode, rows)| == |Failures(k, DecryptOnly, rows)| + UndecodableAll(k, rows)
    ensures Failures(k, DecryptAndDecode, rows) == Failures(k, DecryptOnly, rows) <==> UndecodableAll(k, rows) == 0
  {
    if rows == [] {
    } else {
      var front, last := rows[..|rows| - 1], rows[|rows| - 1];
      VerifyAgainstPreflight(k, front);
      RowFailuresCompare(k, last);
    }
  }

  lemma {:induction false} OkRows(k: Key, rows: seq<Row>)
    requires Failures(k, DecryptOnly, rows) == []
    ensures OkCount(k, rows) == LoadedCount(rows)
  {
    if rows == [] {
    } else {
      OkRows(k, rows[..|rows| - 1]);
    }
  }

  /** After a committed rotation, verify under the new key counts every row ok. */
  lemma VerifyPassesAfterwards(rows: seq<Row>, oldKey: Key, newKey: Key, cipher: Cipher)
    requires Writes(Expected(rows, oldKey, newKey, cipher, false))
    ensures var rows' := ReencryptedAll(oldKey, cipher, rows);
            Failures(newKey, DecryptOnly, rows') == [] && OkCount(newKey, rows') == LoadedCount(rows')
  {
    OkRows(newKey, ReencryptedAll(oldKey, cipher, rows));
  }

  /** A table where even one field is not under the old key, such as a row a not yet restarted
      backend wrote after an earlier rotation, aborts in pre-flight. */
  lemma MixedKeysAbort(rows: seq<Row>, oldKey: Key, newKey: Key, cipher: Cipher, dryRun: bool, i: nat, j: nat)
    requires i < |rows| && j < |FieldsOf(rows[i])|
    requires var json := FieldsOf(rows[i])[j].json; json.Str? && json.token.Sealed? && json.token.key != oldKey
    ensures var outcome := Expected(rows, oldKey, newKey, cipher, dryRun);
            outcome.Aborted? && outcome.phase == Preflight
            && Failure(rows[i].id, rows[i].tenant, FieldsOf(rows[i])[j].name) in outcome.failures
  {
    FieldFailureListed(oldKey, rows[i], FieldsOf(rows[i]), j);
    RowFailureListed(oldKey, rows, i, Failure(rows[i].id, rows[i].tenant, FieldsOf(rows[i])[j].name));
  }

  lemma {:induction false} FieldFailureListed(k: Key, row: Row, fields: seq<Entry>, j: nat)
    requires j < |fields| && !Opens(k, DecryptAndDecode, fields[j].json)
    ensures Failure(row.id, row.tenant, fields[j].name) in FieldFailures(k, DecryptAndDecode, row, fields)
  {
    if j < |fields| - 1 {
      FieldFailureListed(k, row, fields[..|fields| - 1], j);
    }
  }

  lemma {:induction false} RowFailureListed(k: Key, rows: seq<Row>, i: nat, f: Failure)
    requires i < |rows| && f in RowFailures(k, DecryptAndDecode, rows[i])
    ensures f in Failures(k, DecryptAndDecode, rows)
  {
    if i < |rows| - 1 {
      RowFailureListed(k, rows[..|rows| - 1], i, f);
    }
  }
}

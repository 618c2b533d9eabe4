/** A rotation while backends still running with the old key go on storing credentials: rows are
    loaded without a lock, so a write may commit between the load and the rotation's own commit. */
module KeyRotationRace {
  import opened Common
  import opened KeyRotation
  import opened KeyRotationProofs

  type Table = map<int, Row>

  function TableOf(rows: seq<Row>): Table {
    if rows == [] then map[] else TableOf(rows[..|rows| - 1])[rows[|rows| - 1].id := rows[|rows| - 1]]
  }

  /** A connector created, or updated with new credentials. */
  datatype Write = Write(id: int, tenant: int, submitted: seq<PlainField>)

  function Written(backend: Cipher, w: Write): Row {
    Row(w.id, w.tenant, Some(Object(SealAll(backend, w.id, w.submitted))))
  }

  function AfterWrites(backend: Cipher, t: Table, writes: seq<Write>): Table {
    if writes == [] then t
    else
      var last := writes[|writes| - 1];
      AfterWrites(backend, t, writes[..|writes| - 1])[last.id := Written(backend, last)]
  }

  /** The last write to a row, if there was one. */
  function LastWrite(writes: seq<Write>, id: int): (w: seq<Write>)
    ensures |w| <= 1 && forall i :: 0 <= i < |w| ==> w[i].id == id
  {
    if writes == [] then []
    else if writes[|writes| - 1].id == id then [writes[|writes| - 1]]
    else LastWrite(writes[..|writes| - 1], id)
  }

  /** The session writes back the rows whose column its re-encryption changed, and no others. */
  predicate Overwrites(oldKey: Key, cipher: Cipher, atLoad: Table, id: int) {
    id in atLoad && Reencrypted(oldKey, cipher, atLoad[id]) != atLoad[id]
  }

  /** The table the commit leaves of the one it meets. */
  function Commit(oldKey: Key, cipher: Cipher, atLoad: Table, met: Table): Table {
    map id | id in met ::
      if Overwrites(oldKey, cipher, atLoad, id)
      then met[id].(credentials := Reencrypted(oldKey, cipher, atLoad[id]).credentials)
      else met[id]
  }

  /** Without any write in between the commit is the rotation of every row. */
  lemma {:induction false} CommitAlone(rows: seq<Row>, oldKey: Key, cipher: Cipher)
    ensures TableOf(ReencryptedAll(oldKey, cipher, rows)) == Commit(oldKey, cipher, TableOf(rows), TableOf(rows))
  {
    if rows == [] {
    } else {
      var front, last, all := rows[..|rows| - 1], rows[|rows| - 1], ReencryptedAll(oldKey, cipher, rows);
      CommitAlone(front, oldKey, cipher);
      assert all[..|all| - 1] == ReencryptedAll(oldKey, cipher, front);
      assert all[|all| - 1] == Reencrypted(oldKey, cipher, last);
    }
  }

  /** The commit changes one column: every row met stays, with its tenant. */
  lemma CommitTouchesOneColumn(oldKey: Key, cipher: Cipher, atLoad: Table, met: Table, id: int)
    requires id in met
    ensures Commit(oldKey, cipher, atLoad, met).Keys == met.Keys
    ensures var row := Commit(oldKey, cipher, atLoad, met)[id]; row.id == met[id].id && row.tenant == met[id].tenant
    ensures id !in atLoad ==> Commit(oldKey, cipher, atLoad, met)[id] == met[id]
  {
  }

  // ---- The table met at commit ----

  lemma {:induction false} MetRow(backend: Cipher, t: Table, writes: seq<Write>, id: int)
    ensures var met, last := AfterWrites(backend, t, writes), LastWrite(writes, id);
            if last != [] then id in met && met[id] == Written(backend, last[0])
            else (id in met <==> id in t) && (id in t ==> met[id] == t[id])
  {
    if writes == [] {
    } else {
      MetRow(backend, t, writes[..|writes| - 1], id);
    }
  }

  lemma {:induction false} TableRow(rows: seq<Row>, id: int) returns (i: nat)
    requires id in TableOf(rows)
    ensures i < |rows| && TableOf(rows)[id] == rows[i] && rows[i].id == id
  {
    var last := rows[|rows| - 1];
    if last.id == id {
      i := |rows| - 1;
    } else {
      i := TableRow(rows[..|rows| - 1], id);
    }
  }

  // ---- One row ----

  /** Sealed under the old key, read under the new one: nothing. */
  lemma {:induction false} ForeignFieldsFail(backend: Cipher, oldKey: Key, newKey: Key, depth: Depth, row: Row,
                                             submitted: seq<PlainField>)
    requires Honest(backend, oldKey) && oldKey != newKey
    ensures FieldFailures(newKey, depth, row, SealAll(backend, row.id, submitted)) == [] <==> submitted == []
  {
    var fields := SealAll(backend, row.id, submitted);
    if submitted == [] {
      assert fields == [];
    } else {
      var last := submitted[|submitted| - 1];
      assert DecryptText(oldKey, backend(row.id, last.name, last.text)) == Some(last.text);
      assert fields[|fields| - 1] == Entry(last.name, Str(backend(row.id, last.name, last.text)));
    }
  }

  /** A row that passed pre-flight, as the rotation leaves it, opens under the new key and reads as
      it did before, whether the session had to write it back or not. */
  lemma LoadedRowReads(rows: seq<Row>, i: nat, oldKey: Key, newKey: Key, cipher: Cipher, row': Row)
    requires Honest(cipher, newKey) && i < |rows| && Failures(oldKey, DecryptAndDecode, rows) == []
    requires row'.id == rows[i].id && row'.credentials == Reencrypted(oldKey, cipher, rows[i]).credentials
    ensures RowFailures(newKey, DecryptOnly, row') == []
    ensures Credentials(newKey, row') == Credentials(oldKey, rows[i])
  {
    FailureFreeRow(oldKey, DecryptAndDecode, rows, i);
    var plains := RowPlains(oldKey, rows[i]);
    SealedFieldsOpen(cipher, newKey, DecryptAndDecode, row', plains);
    SealedFieldsOpen(cipher, newKey, DecryptOnly, row', plains);
  }

  /** A row written meanwhile that the session does not overwrite stays under the old key. */
  lemma WrittenRowReads(backend: Cipher, oldKey: Key, newKey: Key, w: Write)
    requires Honest(backend, oldKey) && oldKey != newKey
    ensures Credentials(oldKey, Written(backend, w)) == ToMap(w.submitted)
    ensures Credentials(newKey, Written(backend, w)) == map[]
    ensures RowFailures(newKey, DecryptOnly, Written(backend, w)) == [] <==> w.submitted == []
  {
    var row := Written(backend, w);
    WritersRoundTrip(oldKey, backend, w.id, w.tenant, w.submitted);
    ForeignFieldsFail(backend, oldKey, newKey, DecryptAndDecode, row, w.submitted);
    ForeignFieldsFail(backend, oldKey, newKey, DecryptOnly, row, w.submitted);
    if w.submitted == [] {
      assert SealAll(backend, w.id, w.submitted) == [];
    }
  }

  /** Both ciphers do their job, and the table at load passed pre-flight. */
  ghost predicate Rotating(rows: seq<Row>, oldKey: Key, newKey: Key, cipher: Cipher, backend: Cipher) {
    && oldKey != newKey && Honest(cipher, newKey) && Honest(backend, oldKey)
    && Failures(oldKey, DecryptAndDecode, rows) == []
  }

  /** What a reader with the new key finds in a row after the commit: where the session wrote, what
      was there at load; elsewhere what it met, which the new key opens only if nobody wrote it. */
  lemma RowAfterRace(rows: seq<Row>, oldKey: Key, newKey: Key, cipher: Cipher, backend: Cipher, writes: seq<Write>,
                     id: int)
    requires Rotating(rows, oldKey, newKey, cipher, backend)
    requires id in AfterWrites(backend, TableOf(rows), writes)
    ensures var t, met, last := TableOf(rows), AfterWrites(backend, TableOf(rows), writes), LastWrite(writes, id);
            var row := Commit(oldKey, cipher, t, met)[id];
            && (last == [] ==> id in t)
            && Credentials(oldKey, met[id])
               == (if last != [] then ToMap(last[0].submitted) else Credentials(oldKey, t[id]))
            && Credentials(newKey, row)
               == (if Overwrites(oldKey, cipher, t, id) || last == [] then Credentials(oldKey, t[id]) else map[])
            && (RowFailures(newKey, DecryptOnly, row) != [] <==>
                  !Overwrites(oldKey, cipher, t, id) && last != [] && last[0].submitted != [])
  {
    var t, met, last := TableOf(rows), AfterWrites(backend, TableOf(rows), writes), LastWrite(writes, id);
    var row := Commit(oldKey, cipher, t, met)[id];
    MetRow(backend, t, writes, id);
    if last != [] {
      WrittenRowReads(backend, oldKey, newKey, last[0]);
    }
    if Overwrites(oldKey, cipher, t, id) || last == [] {
      var i := TableRow(rows, id);
      LoadedRowReads(rows, i, oldKey, newKey, cipher, row);
    }
  }

  // ---- The whole table ----

  /** A write the rotation does not falsify: it submitted what was there at load anyway, or nothing
      to a row the session leaves alone. */
  predicate Harmless(rows: seq<Row>, oldKey: Key, cipher: Cipher, w: Write) {
    ToMap(w.submitted)
    == if Overwrites(oldKey, cipher, TableOf(rows), w.id) then Credentials(oldKey, TableOf(rows)[w.id]) else map[]
  }

  /** A reader with the new key gets from row `id` what was submitted to it last. */
  predicate KeepsNewest(rows: seq<Row>, oldKey: Key, newKey: Key, cipher: Cipher, met: Table, id: int) {
    id in met ==> Credentials(newKey, Commit(oldKey, cipher, TableOf(rows), met)[id]) == Credentials(oldKey, met[id])
  }

  predicate LastIsHarmless(rows: seq<Row>, oldKey: Key, cipher: Cipher, writes: seq<Write>, id: int) {
    LastWrite(writes, id) != [] ==> Harmless(rows, oldKey, cipher, LastWrite(writes, id)[0])
  }

  lemma RowKeepsNewestIff(rows: seq<Row>, oldKey: Key, newKey: Key, cipher: Cipher, backend: Cipher, writes: seq<Write>,
                          id: int)
    requires Rotating(rows, oldKey, newKey, cipher, backend)
    ensures KeepsNewest(rows, oldKey, newKey, cipher, AfterWrites(backend, TableOf(rows), writes), id)
       <==> LastIsHarmless(rows, oldKey, cipher, writes, id)
  {
    MetRow(backend, TableOf(rows), writes, id);
    if id in AfterWrites(backend, TableOf(rows), writes) {
      RowAfterRace(rows, oldKey, newKey, cipher, backend, writes, id);
    }
  }

  /** After the commit every reader with the new key gets the newest submitted credentials if and
      only if the last concurrent write to each row was harmless. */
  lemma NewestCredentialsSurviveIff(rows: seq<Row>, oldKey: Key, newKey: Key, cipher: Cipher, backend: Cipher,
                                    writes: seq<Write>)
    requires Rotating(rows, oldKey, newKey, cipher, backend)
    ensures (forall id :: KeepsNewest(rows, oldKey, newKey, cipher, AfterWrites(backend, TableOf(rows), writes), id))
       <==> (forall id :: LastIsHarmless(rows, oldKey, cipher, writes, id))
  {
    var met := AfterWrites(backend, TableOf(rows), writes);
    if forall id :: LastIsHarmless(rows, oldKey, cipher, writes, id) {
      forall id ensures KeepsNewest(rows, oldKey, newKey, cipher, met, id) {
        RowKeepsNewestIff(rows, oldKey, newKey, cipher, backend, writes, id);
      }
    } else {
      var id :| !LastIsHarmless(rows, oldKey, cipher, writes, id);
      RowKeepsNewestIff(rows, oldKey, newKey, cipher, backend, writes, id);
      assert !KeepsNewest(rows, oldKey, newKey, cipher, met, id);
    }
  }

  /** The rows left under the old key are exactly those that got credentials meanwhile and that the
      session did not write: connectors created after the load, or without credentials at it. */
  lemma LeftUnderOldKeyIff(rows: seq<Row>, oldKey: Key, newKey: Key, cipher: Cipher, backend: Cipher,
                           writes: seq<Write>, id: int)
    requires Rotating(rows, oldKey, newKey, cipher, backend)
    requires id in AfterWrites(backend, TableOf(rows), writes)
    ensures var t := TableOf(rows);
            var committed := Commit(oldKey, cipher, t, AfterWrites(backend, t, writes));
            && (RowFailures(newKey, DecryptOnly, committed[id]) != [] <==>
                  LastWrite(writes, id) != [] && LastWrite(writes, id)[0].submitted != [] &&
                  !Overwrites(oldKey, cipher, t, id))
            && (Overwrites(oldKey, cipher, t, id) <==> id in t && FieldsOf(t[id]) != [])
  {
    RowAfterRace(rows, oldKey, newKey, cipher, backend, writes, id);
    if id in TableOf(rows) {
      var i := TableRow(rows, id);
      OverwritesRowsWithFields(rows, i, oldKey, newKey, cipher);
    }
  }

  /** Re-encryption changes exactly the rows that hold some field. */
  lemma OverwritesRowsWithFields(rows: seq<Row>, i: nat, oldKey: Key, newKey: Key, cipher: Cipher)
    requires oldKey != newKey && Honest(cipher, newKey) && i < |rows| && Failures(oldKey, DecryptAndDecode, rows) == []
    ensures Reencrypted(oldKey, cipher, rows[i]) != rows[i] <==> FieldsOf(rows[i]) != []
  {
    FailureFreeRow(oldKey, DecryptAndDecode, rows, i);
    var row, fields, plains := rows[i], FieldsOf(rows[i]), RowPlains(oldKey, rows[i]);
    PlainsComplete(oldKey, row, fields);
    if fields != [] {
      var sealed := SealAll(cipher, row.id, plains);
      assert sealed[0] == Entry(plains[0].name, Str(cipher(row.id, plains[0].name, plains[0].text)));
      assert DecryptText(newKey, cipher(row.id, plains[0].name, plains[0].text)) == Some(plains[0].text);
      assert DecryptText(oldKey, fields[0].json.token).Some?;
      assert sealed[0] != fields[0];
    } else if HasFields(row) {
      assert SealAll(cipher, row.id, plains) == [];
    }
  }
}

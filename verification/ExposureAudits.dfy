/** Which audit rows the exposure operations leave: one for each asset whose values moved. */
module ExposureAudits {
  import opened Common
  import opened ExposureModel
  import opened ExposureAsset
  import opened ExposureDiffs
  import opened ExposureCatalog
  import opened ExposureWorld

  /** Some field's value is another. */
  ghost predicate Moves(before: Slots, after: Slots) {
    exists f :: before.Get(f).value != after.Get(f).value
  }

  /** An exact diff is empty exactly when nothing moved. */
  lemma EmptyIffStill(before: Slots, after: Slots, changes: seq<Change>)
    requires ExactDiff(before, after, changes)
    ensures changes == [] <==> !Moves(before, after)
  {
    if changes != [] {
      assert changes[0] in changes;
      assert before.Get(changes[0].field).value != after.Get(changes[0].field).value;
    }
  }

  /** `row` records what moved on asset `a`, field by field. */
  ghost predicate Records(row: AuditRow, t: TenantId, a: AssetId, before: Slots, after: Slots) {
    row.Inferred? && row.tenant == t && row.asset == a && ExactDiff(before, after, row.changes)
  }

  ghost predicate MovesIn(rows: map<AssetId, Row>, c: Catalog, a: AssetId) {
    a in rows && Moves(rows[a].slots, ApplyFull(rows[a], OverridesOf(c, a)).slots)
  }

  lemma AuditAtIs(t: TenantId, rows: map<AssetId, Row>, c: Catalog, a: AssetId)
    requires a in rows
    ensures MovesIn(rows, c, a) ==>
              && |AuditAt(t, rows, c, a)| == 1
              && Records(AuditAt(t, rows, c, a)[0], t, a, rows[a].slots, ApplyFull(rows[a], OverridesOf(c, a)).slots)
    ensures !MovesIn(rows, c, a) ==> AuditAt(t, rows, c, a) == []
  {
    var winners := OverridesOf(c, a);
    FullChangesAreExact(rows[a], winners);
    EmptyIffStill(rows[a].slots, ApplyFull(rows[a], winners).slots, FullChanges(rows[a], winners));
  }

  ghost predicate RecordedAt(audit: seq<AuditRow>, k: int, t: TenantId, rows: map<AssetId, Row>, c: Catalog,
                             a: AssetId) {
    && 0 <= k < |audit| && a in rows
    && Records(audit[k], t, a, rows[a].slots, ApplyFull(rows[a], OverridesOf(c, a)).slots)
  }

  ghost predicate Recorded(audit: seq<AuditRow>, t: TenantId, rows: map<AssetId, Row>, c: Catalog, a: AssetId) {
    exists k :: RecordedAt(audit, k, t, rows, c, a)
  }

  lemma RecordedStays(audit: seq<AuditRow>, more: seq<AuditRow>, t: TenantId, rows: map<AssetId, Row>, c: Catalog,
                      a: AssetId)
    requires Recorded(audit, t, rows, c, a)
    ensures Recorded(audit + more, t, rows, c, a)
  {
    var k :| RecordedAt(audit, k, t, rows, c, a);
    assert (audit + more)[k] == audit[k];
    assert RecordedAt(audit + more, k, t, rows, c, a);
  }

  lemma RecordedNow(audit: seq<AuditRow>, t: TenantId, rows: map<AssetId, Row>, c: Catalog, a: AssetId)
    requires MovesIn(rows, c, a)
    ensures Recorded(audit + AuditAt(t, rows, c, a), t, rows, c, a)
  {
    AuditAtIs(t, rows, c, a);
    var all := audit + AuditAt(t, rows, c, a);
    assert all[|audit|] == AuditAt(t, rows, c, a)[0];
    assert RecordedAt(all, |audit|, t, rows, c, a);
  }

  /** A recompute audits every listed asset whose values move. */
  lemma {:induction false} MovedAreRecorded(t: TenantId, rows: map<AssetId, Row>, c: Catalog, order: seq<AssetId>,
                                            a: AssetId)
    requires a in order && MovesIn(rows, c, a)
    ensures Recorded(RecomputeAudit(t, rows, c, order), t, rows, c, a)
  {
    var front, last := order[..|order| - 1], order[|order| - 1];
    if a == last {
      RecordedNow(RecomputeAudit(t, rows, c, front), t, rows, c, a);
    } else {
      MovedAreRecorded(t, rows, c, front, a);
      RecordedStays(RecomputeAudit(t, rows, c, front), AuditAt(t, rows, c, last), t, rows, c, a);
    }
  }

  /** And nothing else: every row it leaves records a listed asset that moved. */
  lemma {:induction false} RecordedHaveMoved(t: TenantId, rows: map<AssetId, Row>, c: Catalog, order: seq<AssetId>,
                                             k: nat)
    requires forall i :: 0 <= i < |order| ==> order[i] in rows
    requires k < |RecomputeAudit(t, rows, c, order)|
    ensures var audit := RecomputeAudit(t, rows, c, order);
            && audit[k].Inferred? && audit[k].asset in order && MovesIn(rows, c, audit[k].asset)
            && RecordedAt(audit, k, t, rows, c, audit[k].asset)
  {
    var front, last := order[..|order| - 1], order[|order| - 1];
    var earlier := RecomputeAudit(t, rows, c, front);
    if k < |earlier| {
      RecordedHaveMoved(t, rows, c, front, k);
      assert RecomputeAudit(t, rows, c, order)[k] == earlier[k];
    } else {
      AuditAtIs(t, rows, c, last);
      assert RecomputeAudit(t, rows, c, order)[k] == AuditAt(t, rows, c, last)[k - |earlier|];
    }
  }

  /** So the number a recompute returns is that of the listed assets whose values moved. */
  lemma {:induction false} RecomputeCounts(t: TenantId, rows: map<AssetId, Row>, c: Catalog, order: seq<AssetId>)
    requires forall i :: 0 <= i < |order| ==> order[i] in rows
    ensures |RecomputeAudit(t, rows, c, order)|
         == CountUpTo(|order|, i => 0 <= i < |order| && MovesIn(rows, c, order[i]))
  {
    var p := i => 0 <= i < |order| && MovesIn(rows, c, order[i]);
    if order == [] {
      CountUpToNext(0, p);
    } else {
      var n, front := |order| - 1, order[..|order| - 1];
      RecomputeCounts(t, rows, c, front);
      AuditAtIs(t, rows, c, order[n]);
      CountUpToNext(n, p);
      CountUpToSame(n, p, i => 0 <= i < n && MovesIn(rows, c, front[i]));
    }
  }

  /** A sync adds one row recording what it moved, or none when nothing did. */
  lemma SyncAuditIs(w: World, t: TenantId, a: AssetId, inputs: Inputs)
    requires a in w.assets ==> w.assets[a].tenant == t
    ensures var fresh' := Slots(Slot(Text("MEDIUM"), Auto), Slot(Text("INTERNAL"), Auto), Slot(Flag(false), Auto));
            var before := if a in w.assets then w.assets[a].slots else fresh';
            var w' := SyncWorld(w, t, a, inputs);
            && a in w'.assets
            && if Moves(before, w'.assets[a].slots)
               then |w'.audit| == |w.audit| + 1 && w.audit <= w'.audit &&
                    Records(w'.audit[|w.audit|], t, a, before, w'.assets[a].slots)
               else w'.audit == w.audit
  {
    var row := (if a in w.assets then w.assets[a] else Row(t, inputs, DEFAULT_SLOTS)).(inputs := inputs);
    CheapChangesAreExact(row);
    EmptyIffStill(row.slots, ApplyCheap(row).slots, CheapChanges(row));
  }

  /** Joining or leaving a group re-derives the asset and records what that moved, in the same way. */
  lemma ReapplyAuditIs(w: World, a: AssetId)
    requires a in w.assets
    ensures var before, w' := w.assets[a].slots, Reapply(w, a);
            && a in w'.assets
            && if Moves(before, w'.assets[a].slots)
               then |w'.audit| == |w.audit| + 1 && w.audit <= w'.audit &&
                    Records(w'.audit[|w.audit|], w.assets[a].tenant, a, before, w'.assets[a].slots)
               else w'.audit == w.audit
  {
    AuditAtIs(w.assets[a].tenant, w.assets, w.catalog, a);
  }

  /** The two override requests each leave one row, with the old and the new value. */
  lemma OverrideAuditsAre(w: World, t: TenantId, g: GroupId, a: AssetId, f: Field, raw: string, now: nat)
    requires ValidOverride(f, raw)
    ensures g in w.catalog.groups && w.catalog.groups[g] == t ==>
              SetGroupWorld(w, t, g, f, raw, now).audit
              == w.audit + [GroupOverrideSet(t, g, f, if (g, f) in w.catalog.overrides
                                                      then Some(w.catalog.overrides[(g, f)].value) else None, raw)]
    ensures a in w.assets && w.assets[a].tenant == t ==>
              SetAssetWorld(w, t, a, f, raw).audit
              == w.audit + [AssetOverrideSet(t, a, f, w.assets[a].slots.Get(f).value, Cast(f, raw))]
    ensures !(g in w.catalog.groups && w.catalog.groups[g] == t) ==> SetGroupWorld(w, t, g, f, raw, now) == w
    ensures !(a in w.assets && w.assets[a].tenant == t) ==> SetAssetWorld(w, t, a, f, raw) == w
  {
  }
}

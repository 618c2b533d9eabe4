/** The entry points as they run: asset rows updated in place, tables as fields of one session. */
module ExposureService {
  import opened Common
  import opened ExposureModel
  import opened ExposureAsset
  import opened ExposureCatalog
  import opened ExposureWorld

  class Session {
    var assets: map<AssetId, Asset>
    var catalog: Catalog
    var audit: seq<AuditRow>

    ghost predicate Valid()
      reads this`assets, this`catalog, assets.Values
    {
      && (forall a :: a in assets ==> assets[a].Valid())
      && (forall a, b :: a in assets && b in assets && assets[a] == assets[b] ==> a == b)
      && TiesAgree(catalog)
    }

    ghost function Rows(): map<AssetId, Row>
      requires Valid()
      reads this`assets, this`catalog, assets.Values
    {
      map a | a in assets :: assets[a].AsRow()
    }

    ghost function AsWorld(): World
      requires Valid()
      reads this, assets.Values
    {
      World(Rows(), catalog, audit)
    }

    /** Writing one row object changes one row. */
    twostate lemma OneRowChanged(a: AssetId)
      requires old(Valid()) && assets == old(assets) && a in assets && assets[a].Valid() && TiesAgree(catalog)
      requires forall b :: b in assets && b != a ==> unchanged(assets[b])
      ensures Valid() && Rows() == old(Rows())[a := assets[a].AsRow()]
    {
      forall b | b in assets && b != a ensures assets[b].AsRow() == old(assets[b].AsRow()) {
        assert unchanged(assets[b]);
      }
      assert Rows().Keys == old(Rows()).Keys + {a};
    }

    constructor ()
      ensures Valid() && AsWorld() == World(map[], Catalog(map[], {}, map[]), [])
    {
      assets := map[];
      catalog := Catalog(map[], {}, map[]);
      audit := [];
    }

    // ---- Queries: rows come back in whatever order ----

    method JoinRows(a: AssetId) returns (rows: seq<OverrideRow>)
      ensures IsJoin(catalog, a, rows)
    {
      rows := [];
      var todo := set k | k in catalog.overrides.Keys && (k.0, a) in catalog.members;
      while todo != {}
        invariant forall k :: k in todo ==> k in catalog.overrides && (k.0, a) in catalog.members
        invariant forall r :: r in rows ==> Offers(catalog, a, r.field, r.group)
                                            && catalog.overrides[(r.group, r.field)] == Override(r.value, r.updatedAt)
        invariant forall f, g :: Offers(catalog, a, f, g) && (g, f) !in todo ==>
                    OverrideRow(f, catalog.overrides[(g, f)].value, g, catalog.overrides[(g, f)].updatedAt) in rows
        decreases todo
      {
        var k := Choose(todo);
        var o := catalog.overrides[k];
        rows := rows + [OverrideRow(k.1, o.value, k.0, o.updatedAt)];
        todo := todo - {k};
      }
    }

    method Winners(a: AssetId) returns (winners: map<Field, string>)
      requires TiesAgree(catalog)
      ensures winners == OverridesOf(catalog, a)
    {
      var rows := JoinRows(a);
      var best := ResolveGroupOverrides(rows);
      LoopResolves(catalog, a, rows, best);
      winners := ValuesOf(best);
    }

    method ListAssets(t: TenantId, chosen: set<AssetId>) returns (order: seq<AssetId>)
      requires Valid()
      ensures NoDuplicates(order)
      ensures forall i :: 0 <= i < |order| ==> order[i] in chosen && OwnsAsset(Rows(), t, order[i])
      ensures forall a :: a in chosen && OwnsAsset(Rows(), t, a) ==> a in order
    {
      order := [];
      var todo := set a | a in assets.Keys && a in chosen && assets[a].tenant == t;
      ghost var all := todo;
      while todo != {}
        invariant NoDuplicates(order)
        invariant forall i :: 0 <= i < |order| ==> order[i] in all && order[i] !in todo
        invariant forall a :: a in all <==> a in order || a in todo
        decreases todo
      {
        var a := Choose(todo);
        order := order + [a];
        todo := todo - {a};
      }
    }

    // ---- The in-place re-derivation of one asset ----

    method ApplyPrecedence(a: AssetId) returns (changes: seq<Change>)
      requires Valid() && a in assets
      modifies assets[a]
      ensures Valid()
      ensures Rows() == old(Rows())[a := ApplyFull(old(Rows())[a], OverridesOf(catalog, a))]
      ensures changes == FullChanges(old(Rows())[a], OverridesOf(catalog, a))
    {
      var winners := Winners(a);
      changes := assets[a].ApplyPrecedence(winners);
      OneRowChanged(a);
    }

    method AuditChanges(t: TenantId, a: AssetId, changes: seq<Change>)
      modifies this`audit
      ensures audit == old(audit) + AuditOf(t, a, changes)
    {
      if changes != [] {
        audit := audit + [Inferred(t, a, changes)];
      }
    }

    method ReapplyOne(a: AssetId)
      requires Valid() && a in assets
      modifies this`audit, assets[a]
      ensures Valid() && AsWorld() == Reapply(old(AsWorld()), a)
    {
      ghost var w := AsWorld();
      var changes := ApplyPrecedence(a);
      AuditChanges(assets[a].tenant, a, changes);
      ReapplyIs(w, a, Rows(), audit);
    }

    // ---- Entry points ----

    /** The connector inserts the row, or writes the inputs of the one it found. */
    method WriteInputs(t: TenantId, a: AssetId, inputs: Inputs)
      requires Valid() && (a in assets ==> assets[a].tenant == t)
      modifies this`assets, assets.Values
      ensures Valid()
      ensures a in assets && (a in old(assets) ==> assets[a] == old(assets[a]))
              && (a !in old(assets) ==> fresh(assets[a]))
      ensures var row := if a in old(assets) then old(Rows())[a] else Row(t, inputs, DEFAULT_SLOTS);
              Rows() == old(Rows())[a := row.(inputs := inputs)]
    {
      if a !in assets {
        var asset := new Asset(t, inputs);
        assets := assets[a := asset];
      } else {
        assets[a].inputs := inputs;
        OneRowChanged(a);
      }
    }

    method ApplyInference(a: AssetId) returns (changes: seq<Change>)
      requires Valid() && a in assets
      modifies assets[a]
      ensures Valid()
      ensures Rows() == old(Rows())[a := ApplyCheap(old(Rows())[a])]
      ensures changes == CheapChanges(old(Rows())[a])
    {
      changes := assets[a].ApplyInference();
      OneRowChanged(a);
    }

    method InferOne(t: TenantId, a: AssetId)
      requires Valid() && a in assets
      modifies this`audit, assets[a]
      ensures Valid()
      ensures Rows() == old(Rows())[a := ApplyCheap(old(Rows())[a])]
      ensures audit == old(audit) + AuditOf(t, a, CheapChanges(old(Rows())[a]))
    {
      var changes := ApplyInference(a);
      AuditChanges(t, a, changes);
    }

    method Sync(t: TenantId, a: AssetId, inputs: Inputs)
      requires Valid() && (a in assets ==> assets[a].tenant == t)
      modifies this`assets, this`audit, assets.Values
      ensures Valid() && AsWorld() == SyncWorld(old(AsWorld()), t, a, inputs)
    {
      ghost var w := AsWorld();
      WriteInputs(t, a, inputs);
      ghost var row := Rows()[a];
      InferOne(t, a);
      SyncIs(w, t, a, inputs, row, Rows(), audit);
    }

    method DeleteGroup(t: TenantId, g: GroupId) returns (found: bool)
      requires Valid()
      modifies this`catalog
      ensures Valid() && AsWorld() == Step(old(AsWorld()), Op.DeleteGroup(t, g))
      ensures found <==> OwnsGroup(old(catalog), t, g)
    {
      if !OwnsGroup(catalog, t, g) {
        return false;
      }
      catalog := DeleteFrom(catalog, g);
      return true;
    }

    method AddMember(t: TenantId, g: GroupId, a: AssetId) returns (found: bool)
      requires Valid()
      modifies this`catalog, this`audit, assets.Values
      ensures Valid() && AsWorld() == Step(old(AsWorld()), Op.AddMember(t, g, a))
      ensures found <==> OwnsGroup(old(catalog), t, g) && OwnsAsset(old(Rows()), t, a)
    {
      if !OwnsGroup(catalog, t, g) {
        return false;
      }
      if a !in assets || assets[a].tenant != t {
        return false;
      }
      if (g, a) !in catalog.members {
        catalog := catalog.(members := catalog.members + {(g, a)});
      }
      assert catalog == old(catalog).(members := old(catalog).members + {(g, a)});
      assert Rows() == old(Rows());
      ReapplyOne(a);
      return true;
    }

    method RemoveMember(t: TenantId, g: GroupId, a: AssetId) returns (found: bool)
      requires Valid()
      modifies this`catalog, this`audit, assets.Values
      ensures Valid() && AsWorld() == Step(old(AsWorld()), Op.RemoveMember(t, g, a))
      ensures found <==> OwnsGroup(old(catalog), t, g) && (g, a) in old(catalog).members
    {
      if !OwnsGroup(catalog, t, g) {
        return false;
      }
      if (g, a) !in catalog.members {
        return false;
      }
      catalog := catalog.(members := catalog.members - {(g, a)});
      if a in assets && assets[a].tenant == t {
        assert Rows() == old(Rows());
        ReapplyOne(a);
      }
      return true;
    }

    /** Re-derive the tenant's assets among `chosen`, one after the other. */
    method ReapplyMembers(t: TenantId, chosen: set<AssetId>)
      requires Valid()
      modifies assets.Values
      ensures Valid() && Rows() == ReapplyAll(old(Rows()), catalog, t, chosen)
    {
      var members := ListAssets(t, chosen);
      ghost var before := Rows();
      for i := 0 to |members|
        invariant Valid()
        invariant Rows() == Visited(before, catalog, members, i)
      {
        assert OwnsAsset(before, t, members[i]);
        var _ := ApplyPrecedence(members[i]);
        VisitedStep(before, catalog, members, i);
      }
      VisitedAll(before, catalog, t, members, chosen);
    }

    method UpsertAndReapply(t: TenantId, g: GroupId, f: Field, raw: string, now: nat)
      requires Valid()
      requires SettledStamp(catalog, g, f, raw, now)
      modifies this`catalog, assets.Values
      ensures Valid() && catalog == Upsert(old(catalog), g, f, raw, now)
      ensures Rows() == ReapplyAll(old(Rows()), catalog, t, MembersOf(catalog, g))
    {
      catalog := Upsert(catalog, g, f, raw, now);
      assert Rows() == old(Rows());
      ReapplyMembers(t, MembersOf(catalog, g));
    }

    method SetGroupOverride(t: TenantId, g: GroupId, f: Field, raw: string, now: nat) returns (found: bool)
      requires Valid() && ValidOverride(f, raw)
      requires SettledStamp(catalog, g, f, raw, now)
      modifies this`catalog, this`audit, assets.Values
      ensures Valid() && AsWorld() == SetGroupWorld(old(AsWorld()), t, g, f, raw, now)
      ensures found <==> OwnsGroup(old(catalog), t, g)
    {
      if !OwnsGroup(catalog, t, g) {
        return false;
      }
      ghost var w := AsWorld();
      var oldRaw := RawAt(catalog, g, f);
      UpsertAndReapply(t, g, f, raw, now);
      audit := audit + [GroupOverrideSet(t, g, f, oldRaw, raw)];
      SetGroupIs(w, t, g, f, raw, now, Rows());
      return true;
    }

    method SetAssetOverride(t: TenantId, a: AssetId, f: Field, raw: string) returns (found: bool)
      requires Valid() && ValidOverride(f, raw)
      modifies this`audit, assets.Values
      ensures Valid() && AsWorld() == SetAssetWorld(old(AsWorld()), t, a, f, raw)
      ensures found <==> OwnsAsset(old(Rows()), t, a)
    {
      if a !in assets || assets[a].tenant != t {
        return false;
      }
      var oldValue := assets[a].value[f];
      assets[a].Pin(f, Cast(f, raw));
      OneRowChanged(a);
      assert assets[a].AsRow().slots == PinSlots(old(Rows())[a].slots, f, Cast(f, raw));
      audit := audit + [AssetOverrideSet(t, a, f, oldValue, Cast(f, raw))];
      return true;
    }

    /** One asset of a recompute: re-derive it, and add an audit row if it changed. */
    method RecomputeOne(t: TenantId, a: AssetId) returns (added: seq<AuditRow>)
      requires Valid() && a in assets
      modifies assets[a]
      ensures Valid()
      ensures Rows() == old(Rows())[a := ApplyFull(old(Rows())[a], OverridesOf(catalog, a))]
      ensures added == AuditAt(t, old(Rows()), catalog, a)
    {
      var changes := ApplyPrecedence(a);
      added := if changes != [] then [Inferred(t, a, changes)] else [];
    }

    /** Re-derive the listed assets; `pending` are the audit rows added to the session on the way. */
    method RecomputeListed(t: TenantId, listing: seq<AssetId>) returns (updated: nat, pending: seq<AuditRow>)
      requires Valid() && Lists'(listing, Rows())
      modifies assets.Values
      ensures Valid() && Rows() == Visited(old(Rows()), catalog, listing, |listing|)
      ensures pending == RecomputeAudit(t, old(Rows()), catalog, listing)
      ensures updated == |pending|
    {
      ghost var before := Rows();
      updated, pending := 0, [];
      for i := 0 to |listing|
        invariant Valid()
        invariant Rows() == Visited(before, catalog, listing, i)
        invariant pending == RecomputeAudit(t, before, catalog, listing[..i])
        invariant updated == |pending|
      {
        assert listing[i] in before;
        VisitedStep(before, catalog, listing, i);
        AuditStep(t, before, catalog, listing, i);
        var added := RecomputeOne(t, listing[i]);
        updated := updated + |added|;
        pending := pending + added;
      }
      assert listing[..|listing|] == listing;
    }

    /** List the tenant's assets and re-derive them all. */
    method RecomputeRows(t: TenantId) returns (updated: nat, pending: seq<AuditRow>, ghost order: seq<AssetId>)
      requires Valid()
      modifies assets.Values
      ensures Valid() && Lists(old(AsWorld()), t, order)
      ensures Rows() == Visited(old(Rows()), catalog, order, |order|)
      ensures pending == RecomputeAudit(t, old(Rows()), catalog, order)
      ensures updated == |pending|
    {
      var listing := ListAssets(t, assets.Keys);
      order := listing;
      updated, pending := RecomputeListed(t, listing);
    }

    /** `order` is the listing the query returned; `updated` counts the audited assets. */
    method Recompute(t: TenantId) returns (updated: nat, ghost order: seq<AssetId>)
      requires Valid()
      modifies this`audit, assets.Values
      ensures Valid() && Lists(old(AsWorld()), t, order)
      ensures AsWorld() == RecomputeWorld(old(AsWorld()), t, order)
      ensures updated == |audit| - |old(audit)|
    {
      ghost var w := AsWorld();
      var pending;
      updated, pending, order := RecomputeRows(t);
      audit := audit + pending;
      RecomputeIs(w, t, order, Rows(), pending);
    }
  }

  // ---- Reading the final fields as the step's result ----

  lemma SyncIs(w: World, t: TenantId, a: AssetId, inputs: Inputs, row: Row, rows: map<AssetId, Row>,
               audit: seq<AuditRow>)
    requires a in w.assets ==> w.assets[a].tenant == t
    requires row == (if a in w.assets then w.assets[a] else Row(t, inputs, DEFAULT_SLOTS)).(inputs := inputs)
    requires rows == w.assets[a := ApplyCheap(row)]
    requires audit == w.audit + AuditOf(t, a, CheapChanges(row))
    ensures World(rows, w.catalog, audit) == SyncWorld(w, t, a, inputs)
  {
  }

  lemma ReapplyIs(w: World, a: AssetId, rows: map<AssetId, Row>, audit: seq<AuditRow>)
    requires a in w.assets
    requires rows == w.assets[a := ApplyFull(w.assets[a], OverridesOf(w.catalog, a))]
    requires audit == w.audit + AuditOf(w.assets[a].tenant, a, FullChanges(w.assets[a], OverridesOf(w.catalog, a)))
    ensures World(rows, w.catalog, audit) == Reapply(w, a)
  {
  }

  lemma SetGroupIs(w: World, t: TenantId, g: GroupId, f: Field, raw: string, now: nat, rows: map<AssetId, Row>)
    requires ValidOverride(f, raw) && OwnsGroup(w.catalog, t, g)
    requires var c := Upsert(w.catalog, g, f, raw, now); rows == ReapplyAll(w.assets, c, t, MembersOf(c, g))
    ensures World(rows, Upsert(w.catalog, g, f, raw, now),
                  w.audit + [GroupOverrideSet(t, g, f, RawAt(w.catalog, g, f), raw)])
         == SetGroupWorld(w, t, g, f, raw, now)
  {
  }

  lemma RecomputeIs(w: World, t: TenantId, order: seq<AssetId>, rows: map<AssetId, Row>, pending: seq<AuditRow>)
    requires Lists(w, t, order)
    requires rows == Visited(w.assets, w.catalog, order, |order|)
    requires pending == RecomputeAudit(t, w.assets, w.catalog, order)
    ensures World(rows, w.catalog, w.audit + pending) == RecomputeWorld(w, t, order)
  {
    VisitedAll(w.assets, w.catalog, t, order, w.assets.Keys);
  }

  ghost predicate Lists'(order: seq<AssetId>, rows: map<AssetId, Row>) {
    NoDuplicates(order) && forall i :: 0 <= i < |order| ==> order[i] in rows
  }

  /** The rows once the first `n` assets of `order` have been re-derived. */
  ghost function Visited(rows: map<AssetId, Row>, c: Catalog, order: seq<AssetId>, n: nat): map<AssetId, Row>
    requires n <= |order|
  {
    map a | a in rows :: if a in order[..n] then ApplyFull(rows[a], OverridesOf(c, a)) else rows[a]
  }

  lemma VisitedStep(rows: map<AssetId, Row>, c: Catalog, order: seq<AssetId>, n: nat)
    requires n < |order| && NoDuplicates(order) && order[n] in rows
    ensures Visited(rows, c, order, n)[order[n]] == rows[order[n]]
    ensures Visited(rows, c, order, n + 1)
         == Visited(rows, c, order, n)[order[n] := ApplyFull(rows[order[n]], OverridesOf(c, order[n]))]
  {
    assert order[..n + 1] == order[..n] + [order[n]];
  }

  lemma AuditStep(t: TenantId, rows: map<AssetId, Row>, c: Catalog, order: seq<AssetId>, n: nat)
    requires n < |order| && NoDuplicates(order) && order[n] in rows
    ensures RecomputeAudit(t, rows, c, order[..n + 1])
         == RecomputeAudit(t, rows, c, order[..n]) + AuditAt(t, Visited(rows, c, order, n), c, order[n])
  {
    assert order[..n + 1][..n] == order[..n];
    VisitedStep(rows, c, order, n);
  }

  lemma VisitedAll(rows: map<AssetId, Row>, c: Catalog, t: TenantId, order: seq<AssetId>, chosen: set<AssetId>)
    requires forall i :: 0 <= i < |order| ==> order[i] in chosen && OwnsAsset(rows, t, order[i])
    requires forall a :: a in chosen && OwnsAsset(rows, t, a) ==> a in order
    ensures Visited(rows, c, order, |order|) == ReapplyAll(rows, c, t, chosen)
  {
    assert order[..|order|] == order;
  }
}

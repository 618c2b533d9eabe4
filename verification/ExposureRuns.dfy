/** Theorems about whole runs of the exposure-context entry points. */
module ExposureRuns {
  import opened Common
  import opened ExposureModel
  import opened ExposureAsset
  import opened ExposureDiffs
  import opened ExposureCatalog
  import opened ExposureWorld

  // ---- Each operation keeps the invariant ----

  lemma SyncKeeps(s: State, op: Op)
    requires op.Sync? && Inv(s) && Possible(s.world, op)
    ensures Inv(Next(s, op))
  {
    var s' := Next(s, op);
    forall b | b in s'.world.assets && b != op.asset ensures RowOk(s', b) {
      Untouched(s, s', b);
    }
    if op.asset in s.world.assets {
      SyncKeepsOldRow(s, op);
    } else {
      SyncMakesNewRow(s, op);
    }
  }

  /** A row that was there follows the rule with its new inputs, if it did with the old ones. */
  lemma SyncKeepsOldRow(s: State, op: Op)
    requires op.Sync? && Inv(s) && Possible(s.world, op) && op.asset in s.world.assets
    ensures RowOk(Next(s, op), op.asset)
  {
    var s', a := Next(s, op), op.asset;
    var old', row' := s.world.assets[a], s'.world.assets[a];
    assert RowOk(s, a);
    forall f
      ensures Legal(f, row'.slots.Get(f).value)
      ensures row'.slots.Get(f).source == old'.slots.Get(f).source
      ensures row'.slots.Get(f).source != Auto ==> row'.slots.Get(f) == old'.slots.Get(f)
    {
      WritesAreLegal(op.inputs, f, "");
      assert row'.slots.Get(f) == CheapSlot(old'.(inputs := op.inputs), f);
    }
    forall f | a !in s'.stale ensures FollowsRule(s'.world, s'.pins, a, f) {
      assert FollowsRule(s.world, s.pins, a, f);
      assert row'.slots.Get(f) == CheapSlot(old'.(inputs := op.inputs), f);
    }
  }

  /** A new row is in no group and has no override of its own. */
  lemma SyncMakesNewRow(s: State, op: Op)
    requires op.Sync? && Inv(s) && Possible(s.world, op) && op.asset !in s.world.assets
    ensures RowOk(Next(s, op), op.asset)
  {
    var s', a := Next(s, op), op.asset;
    var row' := s'.world.assets[a];
    forall f
      ensures row'.slots.Get(f) == Slot(Infer(op.inputs, f), Auto) && Legal(f, row'.slots.Get(f).value)
    {
      WritesAreLegal(op.inputs, f, "");
      assert DEFAULT_SLOTS.Get(f).source == Auto;
    }
    assert forall f :: f !in OverridesOf(s.world.catalog, a);
  }

  lemma CreateGroupKeeps(s: State, op: Op)
    requires op.CreateGroup? && Inv(s) && Possible(s.world, op)
    ensures Inv(Next(s, op))
  {
    var s' := Next(s, op);
    forall b | b in s'.world.assets ensures RowOk(s', b) {
      Untouched(s, s', b);
    }
  }

  lemma DeleteGroupKeeps(s: State, op: Op)
    requires op.DeleteGroup? && Inv(s) && Possible(s.world, op)
    ensures Inv(Next(s, op))
  {
    var s' := Next(s, op);
    forall b | b in s'.world.assets ensures RowOk(s', b) {
      if (op.group, b) in s.world.catalog.members && OwnsGroup(s.world.catalog, op.tenant, op.group) {
        assert b in MembersOf(s.world.catalog, op.group);
      }
      Untouched(s, s', b);
    }
  }

  lemma AddMemberKeepsRow(s: State, op: Op, b: AssetId)
    requires op.AddMember? && Inv(s) && Possible(s.world, op)
    requires OwnsGroup(s.world.catalog, op.tenant, op.group) && OwnsAsset(s.world.assets, op.tenant, op.asset)
    requires b in s.world.assets && WellFormed(Next(s, op).world)
    ensures RowOk(Next(s, op), b)
  {
    var s' := Next(s, op);
    if b == op.asset {
      assert RowOk(s, b);
      FullPathRestores(s'.world, s'.pins, b, s.world.assets[b]);
    } else {
      Untouched(s, s', b);
    }
  }

  lemma AddMemberKeeps(s: State, op: Op)
    requires op.AddMember? && Inv(s) && Possible(s.world, op)
    ensures Inv(Next(s, op))
  {
    var s' := Next(s, op);
    if OwnsGroup(s.world.catalog, op.tenant, op.group) && OwnsAsset(s.world.assets, op.tenant, op.asset) {
      assert WellFormed(s'.world);
      forall b | b in s'.world.assets ensures RowOk(s', b) {
        AddMemberKeepsRow(s, op, b);
      }
    }
  }

  lemma RemoveMemberKeeps(s: State, op: Op)
    requires op.RemoveMember? && Inv(s) && Possible(s.world, op)
    ensures Inv(Next(s, op))
  {
    var s' := Next(s, op);
    if OwnsGroup(s.world.catalog, op.tenant, op.group) && (op.group, op.asset) in s.world.catalog.members {
      forall b | b in s'.world.assets && b != op.asset ensures RowOk(s', b) {
        Untouched(s, s', b);
      }
      assert RowOk(s, op.asset);
      FullPathRestores(s'.world, s'.pins, op.asset, s.world.assets[op.asset]);
    }
  }

  lemma UpsertKeepsTiesAgreeing(c: Catalog, g: GroupId, f: Field, raw: string, now: nat)
    requires TiesAgree(c)
    requires SettledStamp(c, g, f, raw, now)
    ensures TiesAgree(Upsert(c, g, f, raw, now))
  {
  }

  lemma UpsertKeepsWellFormed(s: State, op: Op)
    requires op.SetGroupOverride? && WellFormed(s.world) && Possible(s.world, op)
    ensures WellFormed(Next(s, op).world)
  {
    UpsertKeepsTiesAgreeing(s.world.catalog, op.group, op.field, op.raw, op.now);
  }

  lemma SetGroupOverrideKeepsRow(s: State, op: Op, b: AssetId)
    requires op.SetGroupOverride? && Inv(s) && Possible(s.world, op)
    requires WellFormed(Next(s, op).world)
    requires b in s.world.assets
    ensures RowOk(Next(s, op), b)
  {
    var s', c := Next(s, op), s.world.catalog;
    if ValidOverride(op.field, op.raw) && OwnsGroup(c, op.tenant, op.group) && (op.group, b) in c.members {
      assert b in MembersOf(c, op.group);
      assert RowOk(s, b);
      FullPathRestores(s'.world, s'.pins, b, s.world.assets[b]);
    } else {
      assert SameOffers(c, s'.world.catalog, b);
      Untouched(s, s', b);
    }
  }

  lemma SetGroupOverrideKeeps(s: State, op: Op)
    requires op.SetGroupOverride? && Inv(s) && Possible(s.world, op)
    ensures Inv(Next(s, op))
  {
    UpsertKeepsWellFormed(s, op);
    forall b | b in Next(s, op).world.assets ensures RowOk(Next(s, op), b) {
      SetGroupOverrideKeepsRow(s, op, b);
    }
  }

  lemma SetAssetOverrideKeeps(s: State, op: Op)
    requires op.SetAssetOverride? && Inv(s) && Possible(s.world, op)
    ensures Inv(Next(s, op))
  {
    var s', a := Next(s, op), op.asset;
    if Pins(s.world, op.tenant, a, op.field, op.raw) {
      forall b | b in s'.world.assets && b != a ensures RowOk(s', b) {
        Untouched(s, s', b);
      }
      assert RowOk(s, a);
      var v := Cast(op.field, op.raw);
      WritesAreLegal(s.world.assets[a].inputs, op.field, op.raw);
      forall f
        ensures s'.world.assets[a].slots.Get(f)
             == if f == op.field then Slot(v, AssetOverride) else s.world.assets[a].slots.Get(f)
      {
      }
      assert LegalRow(s'.world.assets[a]) && PinsMatch(s'.world.assets[a], s'.pins, a);
      forall f | a !in s'.stale ensures FollowsRule(s'.world, s'.pins, a, f) {
        assert FollowsRule(s.world, s.pins, a, f);
      }
    }
  }

  lemma RecomputeKeepsRow(s: State, op: Op, b: AssetId)
    requires op.Recompute? && Inv(s) && Possible(s.world, op)
    requires b in s.world.assets && WellFormed(Next(s, op).world)
    ensures RowOk(Next(s, op), b)
  {
    var s' := Next(s, op);
    if s.world.assets[b].tenant == op.tenant {
      assert RowOk(s, b);
      FullPathRestores(s'.world, s'.pins, b, s.world.assets[b]);
    } else {
      Untouched(s, s', b);
    }
  }

  lemma RecomputeKeeps(s: State, op: Op)
    requires op.Recompute? && Inv(s) && Possible(s.world, op)
    ensures Inv(Next(s, op))
  {
    var s' := Next(s, op);
    assert WellFormed(s'.world);
    forall b | b in s'.world.assets ensures RowOk(s', b) {
      RecomputeKeepsRow(s, op, b);
    }
  }

  lemma StepKeeps(s: State, op: Op)
    requires Inv(s) && Possible(s.world, op)
    ensures Inv(Next(s, op))
  {
    match op
    case Sync(_, _, _) => SyncKeeps(s, op);
    case CreateGroup(_, _) => CreateGroupKeeps(s, op);
    case DeleteGroup(_, _) => DeleteGroupKeeps(s, op);
    case AddMember(_, _, _) => AddMemberKeeps(s, op);
    case RemoveMember(_, _, _) => RemoveMemberKeeps(s, op);
    case SetGroupOverride(_, _, _, _, _) => SetGroupOverrideKeeps(s, op);
    case SetAssetOverride(_, _, _, _) => SetAssetOverrideKeeps(s, op);
    case Recompute(_, _) => RecomputeKeeps(s, op);
  }

  // ---- Runs ----

  const EMPTY: State := State(World(map[], Catalog(map[], {}, map[]), []), map[], {})

  /** The state after the first `n` operations, each possible when it happens. */
  ghost predicate IsRun(s: State, ops: seq<Op>)
    decreases |ops|
  {
    ops == [] || (Possible(s.world, ops[0]) && IsRun(Next(s, ops[0]), ops[1..]))
  }

  ghost function Run(s: State, ops: seq<Op>): State
    requires IsRun(s, ops)
    decreases |ops|
  {
    if ops == [] then s else Run(Next(s, ops[0]), ops[1..])
  }

  lemma {:induction false} RunKeeps(s: State, ops: seq<Op>)
    requires Inv(s) && IsRun(s, ops)
    ensures Inv(Run(s, ops))
    decreases |ops|
  {
    if ops == [] {
    } else {
      StepKeeps(s, ops[0]);
      RunKeeps(Next(s, ops[0]), ops[1..]);
    }
  }

  /** After any run from an empty database, every exposure field of every asset holds a legal
      value, and value and source equal the pure rule over the run's history, except on assets
      a deleted group left behind. */
  lemma RunsAreCoherent(ops: seq<Op>, a: AssetId, f: Field)
    requires IsRun(EMPTY, ops)
    requires a in Run(EMPTY, ops).world.assets
    ensures var s := Run(EMPTY, ops);
            && Legal(f, s.world.assets[a].slots.Get(f).value)
            && (a !in s.stale ==> FollowsRule(s.world, s.pins, a, f))
  {
    RunKeeps(EMPTY, ops);
    assert RowOk(Run(EMPTY, ops), a);
  }

  lemma {:induction false} OnlyDeletionsLeaveStaleAssets(s: State, ops: seq<Op>)
    requires IsRun(s, ops) && s.stale == {}
    requires forall op :: op in ops ==> !op.DeleteGroup?
    ensures Run(s, ops).stale == {}
    decreases |ops|
  {
    if ops == [] {
    } else {
      assert ops[0] in ops;
      assert forall op :: op in ops[1..] ==> op in ops;
      OnlyDeletionsLeaveStaleAssets(Next(s, ops[0]), ops[1..]);
    }
  }

  lemma {:induction false} PinsLast(s: State, ops: seq<Op>, a: AssetId, f: Field)
    requires IsRun(s, ops) && (a, f) in s.pins
    requires forall op :: op in ops ==> !(op.SetAssetOverride? && op.asset == a && op.field == f)
    ensures (a, f) in Run(s, ops).pins && Run(s, ops).pins[(a, f)] == s.pins[(a, f)]
    decreases |ops|
  {
    if ops == [] {
    } else {
      assert ops[0] in ops;
      assert forall op :: op in ops[1..] ==> op in ops;
      PinsLast(Next(s, ops[0]), ops[1..], a, f);
    }
  }

  /** Once a field carries an asset override, nothing but another asset override of that
      field ever changes it: stale or not, whatever happens to groups, inputs or recomputes. */
  lemma AssetOverrideIsPermanent(s: State, ops: seq<Op>, a: AssetId, f: Field)
    requires Inv(s) && IsRun(s, ops)
    requires a in s.world.assets && s.world.assets[a].slots.Get(f).source == AssetOverride
    requires forall op :: op in ops ==> !(op.SetAssetOverride? && op.asset == a && op.field == f)
    ensures a in Run(s, ops).world.assets
    ensures Run(s, ops).world.assets[a].slots.Get(f) == s.world.assets[a].slots.Get(f)
  {
    assert RowOk(s, a);
    PinsLast(s, ops, a, f);
    RunKeeps(s, ops);
    assert RowOk(Run(s, ops), a);
  }

  // ---- Tenants ----

  lemma StepStaysInTenant(s: State, op: Op, b: AssetId)
    requires Inv(s) && Possible(s.world, op)
    requires b in s.world.assets && s.world.assets[b].tenant != op.tenant
    ensures b in Next(s, op).world.assets && Next(s, op).world.assets[b] == s.world.assets[b]
    ensures b in s.stale <==> b in Next(s, op).stale
  {
    if op.DeleteGroup? && (op.group, b) in s.world.catalog.members {
      assert s.world.assets[b].tenant == s.world.catalog.groups[op.group];
    }
    if op.SetGroupOverride? && (op.group, b) in s.world.catalog.members {
      assert s.world.assets[b].tenant == s.world.catalog.groups[op.group];
    }
  }

  /** Override resolution has no tenant filter, yet a run of one tenant's operations never
      changes another tenant's asset, nor what the rule says about it. */
  lemma {:induction false} TenantsAreIsolated(s: State, ops: seq<Op>, t: TenantId, b: AssetId)
    requires Inv(s) && IsRun(s, ops)
    requires forall op :: op in ops ==> op.tenant == t
    requires b in s.world.assets && s.world.assets[b].tenant != t
    ensures b in Run(s, ops).world.assets && Run(s, ops).world.assets[b] == s.world.assets[b]
    ensures b in s.stale <==> b in Run(s, ops).stale
    decreases |ops|
  {
    if ops == [] {
    } else {
      assert ops[0] in ops;
      assert forall op :: op in ops[1..] ==> op in ops;
      StepKeeps(s, ops[0]);
      StepStaysInTenant(s, ops[0], b);
      TenantsAreIsolated(Next(s, ops[0]), ops[1..], t, b);
    }
  }

  // ---- The sync path, recomputes and deletions ----

  /** On a coherent asset, whatever its inputs become, the sync path that never looks at
      groups writes the same row and reports the same changes as the full path. */
  lemma SyncAgreesWithFullPath(s: State, a: AssetId, inputs: Inputs)
    requires Inv(s) && a in s.world.assets && a !in s.stale
    ensures var row := s.world.assets[a].(inputs := inputs);
            var winners := OverridesOf(s.world.catalog, a);
            ApplyCheap(row) == ApplyFull(row, winners) && CheapChanges(row) == FullChanges(row, winners)
  {
    var row, winners := s.world.assets[a].(inputs := inputs), OverridesOf(s.world.catalog, a);
    assert RowOk(s, a);
    forall f | row.slots.Get(f).source != AssetOverride
      ensures if f in winners then row.slots.Get(f) == Slot(Cast(f, winners[f]), GroupOverride)
              else row.slots.Get(f).source == Auto
    {
      assert FollowsRule(s.world, s.pins, a, f);
    }
    CheapPathRefinesFullPath(row, winners);
    CheapPathReportsFullChanges(row, winners);
  }

  lemma {:induction false} NoFurtherAudit(t: TenantId, rows: map<AssetId, Row>, c: Catalog, order: seq<AssetId>)
    requires forall i :: 0 <= i < |order| ==> AuditAt(t, rows, c, order[i]) == []
    ensures RecomputeAudit(t, rows, c, order) == []
  {
    if order == [] {
    } else {
      NoFurtherAudit(t, rows, c, order[..|order| - 1]);
    }
  }

  lemma ReapplyAllTwice(assets: map<AssetId, Row>, c: Catalog, t: TenantId, chosen: set<AssetId>)
    ensures ReapplyAll(ReapplyAll(assets, c, t, chosen), c, t, chosen) == ReapplyAll(assets, c, t, chosen)
  {
    var once := ReapplyAll(assets, c, t, chosen);
    forall a | a in once ensures ReapplyAll(once, c, t, chosen)[a] == once[a] {
      FullIsIdempotent(assets[a], OverridesOf(c, a));
    }
  }

  lemma NothingLeftToChange(w: World, t: TenantId, order: seq<AssetId>, a: AssetId)
    requires Lists(w, t, order) && OwnsAsset(w.assets, t, a)
    ensures AuditAt(t, RecomputeWorld(w, t, order).assets, w.catalog, a) == []
  {
    FullIsIdempotent(w.assets[a], OverridesOf(w.catalog, a));
  }

  /** Two recomputes in a row are one: the second changes no row and writes no audit row,
      whatever order the database lists the assets in. */
  lemma RecomputeIsIdempotent(w: World, t: TenantId, order: seq<AssetId>, again: seq<AssetId>)
    requires Lists(w, t, order) && Lists(RecomputeWorld(w, t, order), t, again)
    ensures RecomputeWorld(RecomputeWorld(w, t, order), t, again) == RecomputeWorld(w, t, order)
  {
    var w' := RecomputeWorld(w, t, order);
    forall i | 0 <= i < |again| ensures AuditAt(t, w'.assets, w'.catalog, again[i]) == [] {
      assert OwnsAsset(w.assets, t, again[i]);
      NothingLeftToChange(w, t, order, again[i]);
    }
    NoFurtherAudit(t, w'.assets, w'.catalog, again);
    ReapplyAllTwice(w.assets, w.catalog, t, w.assets.Keys);
    assert w'.assets.Keys == w.assets.Keys;
  }

  lemma NewestDecides(c: Catalog, a: AssetId, f: Field, g: GroupId)
    requires TiesAgree(c) && IsNewest(c, a, f, g)
    ensures Lookup(OverridesOf(c, a), f) == Some(c.overrides[(g, f)].value)
  {
    var winners := OverridesOf(c, a);
    assert f in winners;
    var h :| IsNewest(c, a, f, h) && winners[f] == c.overrides[(h, f)].value;
    assert c.overrides[(h, f)].updatedAt == c.overrides[(g, f)].updatedAt;
  }

  /** What an accepted group override does to a member's field. The stored stamp is the write's own,
      or the old one when the value did not change. A field of the asset's own stays as it was.
      Any other shows what the newest overrides now say: the written value if every other group's
      stamp is older, and some other group's value if any is later. */
  lemma GroupWriteDecides(s: State, op: Op, a: AssetId)
    requires op.SetGroupOverride? && Inv(s) && Possible(s.world, op)
    requires ValidOverride(op.field, op.raw) && OwnsGroup(s.world.catalog, op.tenant, op.group)
    requires (op.group, a) in s.world.catalog.members
    ensures var c, c', g, f := s.world.catalog, Next(s, op).world.catalog, op.group, op.field;
            c' == (if RawAt(c, g, f) == Some(op.raw) then c
                   else c.(overrides := c.overrides[(g, f) := Override(op.raw, op.now)]))
    ensures a in Next(s, op).world.assets
    ensures var c', g, f := Next(s, op).world.catalog, op.group, op.field;
            var slot := Next(s, op).world.assets[a].slots.Get(f);
            && ((a, f) in s.pins ==> slot == s.world.assets[a].slots.Get(f))
            && ((a, f) !in s.pins ==>
                  && (exists h :: IsNewest(c', a, f, h))
                  && (forall h :: IsNewest(c', a, f, h) ==>
                        slot == Slot(Cast(f, c'.overrides[(h, f)].value), GroupOverride))
                  && (OthersOlder(c', a, f, g) ==> slot == Slot(Cast(f, op.raw), GroupOverride))
                  && (SomeOtherLater(c', a, f, g) ==> forall h :: IsNewest(c', a, f, h) ==> h != g))
  {
    StepKeeps(s, op);
    var s', f := Next(s, op), op.field;
    var c' := s'.world.catalog;
    assert op.group in c'.groups && Offers(c', a, f, op.group);
    assert a in MembersOf(s.world.catalog, op.group);
    assert RowOk(s', a) && RowOk(s, a) && FollowsRule(s'.world, s'.pins, a, f);
    NewestExists(c', a, f);
    forall h | IsNewest(c', a, f, h) ensures Lookup(OverridesOf(c', a), f) == Some(c'.overrides[(h, f)].value) {
      NewestDecides(c', a, f, h);
    }
    if OthersOlder(c', a, f, op.group) {
      assert IsNewest(c', a, f, op.group);
    }
  }

  ghost predicate OthersOlder(c: Catalog, a: AssetId, f: Field, g: GroupId)
    requires (g, f) in c.overrides
  {
    forall h :: h != g && Offers(c, a, f, h) ==> c.overrides[(h, f)].updatedAt < c.overrides[(g, f)].updatedAt
  }

  ghost predicate SomeOtherLater(c: Catalog, a: AssetId, f: Field, g: GroupId)
    requires (g, f) in c.overrides
  {
    exists h :: h != g && Offers(c, a, f, h) && c.overrides[(h, f)].updatedAt > c.overrides[(g, f)].updatedAt
  }

  /** Asset 100 in two groups of one tenant that both override `f`. */
  function TwoGroups(f: Field, one: Override, two: Override): Catalog {
    Catalog(map[1 := 1, 2 := 1], {(1, 100), (2, 100)}, map[(1, f) := one, (2, f) := two])
  }

  lemma LaterOfTwoWins(f: Field, one: Override, two: Override)
    requires one.updatedAt != two.updatedAt
    ensures Lookup(OverridesOf(TwoGroups(f, one, two), 100), f)
         == Some(if one.updatedAt > two.updatedAt then one.value else two.value)
  {
    var c := TwoGroups(f, one, two);
    assert forall h :: Offers(c, 100, f, h) <==> h == 1 || h == 2;
    var g := if one.updatedAt > two.updatedAt then 1 else 2;
    assert IsNewest(c, 100, f, g);
    NewestDecides(c, 100, f, g);
  }

  /** A slow write with an old stamp can even take the field away from its own group: with group 1
      at `high` (instant 10) and group 2 at `low` (instant 5), writing `medium` to group 1 with
      stamp 3 leaves the member at `low`. */
  lemma OldStampCanDemote(f: Field, low: string, medium: string, high: string)
    requires medium != high
    ensures var c := TwoGroups(f, Override(high, 10), Override(low, 5));
            && SettledStamp(c, 1, f, medium, 3)
            && Lookup(OverridesOf(c, 100), f) == Some(high)
            && Lookup(OverridesOf(Upsert(c, 1, f, medium, 3), 100), f) == Some(low)
  {
    LaterOfTwoWins(f, Override(high, 10), Override(low, 5));
    LaterOfTwoWins(f, Override(medium, 3), Override(low, 5));
    WriteToFirst(f, Override(high, 10), Override(low, 5), medium, 3);
  }

  lemma WriteToFirst(f: Field, one: Override, two: Override, raw: string, now: nat)
    requires one.value != raw && two.updatedAt != now
    ensures Upsert(TwoGroups(f, one, two), 1, f, raw, now) == TwoGroups(f, Override(raw, now), two)
    ensures SettledStamp(TwoGroups(f, one, two), 1, f, raw, now)
  {
    var c := TwoGroups(f, one, two);
    assert c.overrides[(1, f) := Override(raw, now)] == TwoGroups(f, Override(raw, now), two).overrides;
  }

  // ---- What a recompute leaves alone ----

  /** The full path leaves every field that is not AUTO alone if and only if each GROUP_OVERRIDE
      field shows what a group now says. */
  lemma FullPathSparesOthersIff(row: Row, winners: map<Field, string>)
    ensures (forall f :: row.slots.Get(f).source != Auto ==> ApplyFull(row, winners).slots.Get(f) == row.slots.Get(f))
       <==> (forall f :: row.slots.Get(f).source == GroupOverride ==>
               f in winners && row.slots.Get(f).value == Cast(f, winners[f]))
  {
    forall f ensures ApplyFull(row, winners).slots.Get(f) == FullSlot(row, winners, f) {
    }
  }

  /** A GROUP_OVERRIDE field no group backs any more is inferred again and turned AUTO. */
  lemma OrphanedFieldIsInferred(row: Row, winners: map<Field, string>, f: Field)
    requires row.slots.Get(f).source == GroupOverride && f !in winners
    ensures ApplyFull(row, winners).slots.Get(f) == Slot(Infer(row.inputs, f), Auto) != row.slots.Get(f)
  {
    assert ApplyFull(row, winners).slots.Get(f) == FullSlot(row, winners, f);
  }

  /** In every reachable state a recompute changes stale assets only. */
  lemma RecomputeTouchesOnlyStale(s: State, t: TenantId, order: seq<AssetId>, a: AssetId)
    requires Inv(s) && Lists(s.world, t, order) && a in s.world.assets && a !in s.stale
    ensures a in RecomputeWorld(s.world, t, order).assets
    ensures RecomputeWorld(s.world, t, order).assets[a] == s.world.assets[a]
  {
    var row, winners := s.world.assets[a], OverridesOf(s.world.catalog, a);
    assert RowOk(s, a);
    forall f ensures FullSlot(row, winners, f) == row.slots.Get(f) {
      assert FollowsRule(s.world, s.pins, a, f);
    }
    assert ApplyFull(row, winners).slots == row.slots;
  }

  lemma LosingGroupsDoNotMatter(c: Catalog, a: AssetId, f: Field, g: GroupId)
    requires TiesAgree(c) && TiesAgree(DeleteFrom(c, g)) && !IsNewest(c, a, f, g)
    ensures Lookup(OverridesOf(DeleteFrom(c, g), a), f) == Lookup(OverridesOf(c, a), f)
  {
    var c' := DeleteFrom(c, g);
    forall h ensures Offers(c', a, f, h) <==> h != g && Offers(c, a, f, h) {
    }
    if f in OverridesOf(c, a) {
      var h :| IsNewest(c, a, f, h) && OverridesOf(c, a)[f] == c.overrides[(h, f)].value;
      assert c'.overrides[(h, f)] == c.overrides[(h, f)];
      assert IsNewest(c', a, f, h);
      NewestDecides(c', a, f, h);
    } else {
      assert f !in OverridesOf(c', a);
    }
  }

  /** A deletion leaves field `f` of a coherent asset wrong exactly when the deleted group was
      the one driving it and no remaining group says the same. */
  lemma DeletionLeavesStale(s: State, t: TenantId, g: GroupId, a: AssetId, f: Field)
    requires Inv(s) && OwnsGroup(s.world.catalog, t, g)
    requires a in s.world.assets && a !in s.stale
    ensures var s' := Next(s, DeleteGroup(t, g));
            var c, left := s.world.catalog, OverridesOf(s'.world.catalog, a);
            FollowsRule(s'.world, s'.pins, a, f) <==>
              || (a, f) in s.pins
              || !IsNewest(c, a, f, g)
              || (f in left && Cast(f, left[f]) == Cast(f, c.overrides[(g, f)].value))
  {
    StepKeeps(s, DeleteGroup(t, g));
    assert RowOk(s, a) && FollowsRule(s.world, s.pins, a, f);
    if IsNewest(s.world.catalog, a, f, g) {
      NewestDecides(s.world.catalog, a, f, g);
    } else {
      LosingGroupsDoNotMatter(s.world.catalog, a, f, g);
    }
  }
}

/** Every entry point that maintains exposure context, as one state machine, and what its runs keep. */
module ExposureWorld {
  import opened Common
  import opened ExposureModel
  import opened ExposureAsset
  import opened ExposureDiffs
  import opened ExposureCatalog

  datatype AuditRow =
    | Inferred(tenant: TenantId, asset: AssetId, changes: seq<Change>)
    | GroupOverrideSet(tenant: TenantId, group: GroupId, field: Field, oldRaw: Option<string>, newRaw: string)
    | AssetOverrideSet(tenant: TenantId, asset: AssetId, field: Field, was: Value, now: Value)

  datatype World = World(assets: map<AssetId, Row>, catalog: Catalog, audit: seq<AuditRow>)

  datatype Op =
    | Sync(tenant: TenantId, asset: AssetId, inputs: Inputs)
    | CreateGroup(tenant: TenantId, group: GroupId)
    | DeleteGroup(tenant: TenantId, group: GroupId)
    | AddMember(tenant: TenantId, group: GroupId, asset: AssetId)
    | RemoveMember(tenant: TenantId, group: GroupId, asset: AssetId)
    | SetGroupOverride(tenant: TenantId, group: GroupId, field: Field, raw: string, now: nat)
    | SetAssetOverride(tenant: TenantId, asset: AssetId, field: Field, raw: string)
    | Recompute(tenant: TenantId, order: seq<AssetId>)

  predicate OwnsGroup(c: Catalog, t: TenantId, g: GroupId) {
    g in c.groups && c.groups[g] == t
  }

  predicate OwnsAsset(assets: map<AssetId, Row>, t: TenantId, a: AssetId) {
    a in assets && assets[a].tenant == t
  }

  // ---- The operations ----

  function AuditOf(t: TenantId, a: AssetId, changes: seq<Change>): seq<AuditRow> {
    if changes == [] then [] else [Inferred(t, a, changes)]
  }

  /** Re-derive one asset through the full path and audit what changed. */
  ghost function Reapply(w: World, a: AssetId): World
    requires a in w.assets
  {
    var row, winners := w.assets[a], OverridesOf(w.catalog, a);
    w.(assets := w.assets[a := ApplyFull(row, winners)],
       audit := w.audit + AuditOf(row.tenant, a, FullChanges(row, winners)))
  }

  /** Re-derive the chosen assets of tenant `t` through the full path. */
  ghost function ReapplyAll(assets: map<AssetId, Row>, c: Catalog, t: TenantId, chosen: set<AssetId>)
    : map<AssetId, Row>
  {
    map a | a in assets ::
      if a in chosen && assets[a].tenant == t then ApplyFull(assets[a], OverridesOf(c, a)) else assets[a]
  }

  function MembersOf(c: Catalog, g: GroupId): set<AssetId> {
    set m | m in c.members && m.0 == g :: m.1
  }

  /** Connector sync: the inputs are written, then the group-unaware path runs. */
  function SyncWorld(w: World, t: TenantId, a: AssetId, inputs: Inputs): World {
    if a in w.assets && w.assets[a].tenant != t then w
    else
      var row := (if a in w.assets then w.assets[a] else Row(t, inputs, DEFAULT_SLOTS)).(inputs := inputs);
      w.(assets := w.assets[a := ApplyCheap(row)], audit := w.audit + AuditOf(t, a, CheapChanges(row)))
  }

  function DeleteFrom(c: Catalog, g: GroupId): Catalog {
    Catalog(c.groups - {g},
            set m | m in c.members && m.0 != g,
            map k | k in c.overrides && k.0 != g :: c.overrides[k])
  }

  /** The upsert keeps the old timestamp when the value did not change. */
  function Upsert(c: Catalog, g: GroupId, f: Field, raw: string, now: nat): Catalog {
    if (g, f) in c.overrides && c.overrides[(g, f)].value == raw then c
    else c.(overrides := c.overrides[(g, f) := Override(raw, now)])
  }

  function RawAt(c: Catalog, g: GroupId, f: Field): Option<string> {
    if (g, f) in c.overrides then Some(c.overrides[(g, f)].value) else None
  }

  ghost function SetGroupWorld(w: World, t: TenantId, g: GroupId, f: Field, raw: string, now: nat): World {
    if !ValidOverride(f, raw) || !OwnsGroup(w.catalog, t, g) then w
    else
      var c := Upsert(w.catalog, g, f, raw, now);
      World(ReapplyAll(w.assets, c, t, MembersOf(c, g)), c,
            w.audit + [GroupOverrideSet(t, g, f, RawAt(w.catalog, g, f), raw)])
  }

  function PinSlots(s: Slots, f: Field, v: Value): Slots {
    match f
    case BusinessCriticality => s.(criticality := Slot(v, AssetOverride))
    case DataSensitivity => s.(sensitivity := Slot(v, AssetOverride))
    case InternetFacing => s.(facing := Slot(v, AssetOverride))
  }

  predicate Pins(w: World, t: TenantId, a: AssetId, f: Field, raw: string) {
    ValidOverride(f, raw) && OwnsAsset(w.assets, t, a)
  }

  function SetAssetWorld(w: World, t: TenantId, a: AssetId, f: Field, raw: string): World {
    if !Pins(w, t, a, f, raw) then w
    else
      var row := w.assets[a];
      w.(assets := w.assets[a := row.(slots := PinSlots(row.slots, f, Cast(f, raw)))],
         audit := w.audit + [AssetOverrideSet(t, a, f, row.slots.Get(f).value, Cast(f, raw))])
  }

  /** The audit row re-deriving asset `a` would write, if anything changes. */
  ghost function AuditAt(t: TenantId, rows: map<AssetId, Row>, c: Catalog, a: AssetId): seq<AuditRow> {
    if a in rows then AuditOf(t, a, FullChanges(rows[a], OverridesOf(c, a))) else []
  }

  /** The audit rows a recompute writes while visiting `order`. */
  ghost function RecomputeAudit(t: TenantId, rows: map<AssetId, Row>, c: Catalog, order: seq<AssetId>): seq<AuditRow> {
    if order == [] then []
    else RecomputeAudit(t, rows, c, order[..|order| - 1]) + AuditAt(t, rows, c, order[|order| - 1])
  }

  /** `order` lists the tenant's assets, each once, as the query happened to return them. */
  ghost predicate Lists(w: World, t: TenantId, order: seq<AssetId>) {
    && NoDuplicates(order)
    && (forall i :: 0 <= i < |order| ==> OwnsAsset(w.assets, t, order[i]))
    && (forall a :: OwnsAsset(w.assets, t, a) ==> a in order)
  }

  ghost function RecomputeWorld(w: World, t: TenantId, order: seq<AssetId>): World
    requires Lists(w, t, order)
  {
    w.(assets := ReapplyAll(w.assets, w.catalog, t, w.assets.Keys),
       audit := w.audit + RecomputeAudit(t, w.assets, w.catalog, order))
  }

  /** No other group set the field to another value at the very same instant. */
  ghost predicate SettledStamp(c: Catalog, g: GroupId, f: Field, raw: string, now: nat) {
    forall h :: h != g && (h, f) in c.overrides && c.overrides[(h, f)].updatedAt == now ==>
      c.overrides[(h, f)].value == raw
  }

  /** What the environment provides: fresh group ids, tenant-scoped asset lookup, complete listings,
      and settled stamps. A stamp is the transaction's start time, so a slow write may well be older
      than what is stored. */
  ghost predicate Possible(w: World, op: Op) {
    match op
    case Sync(t, a, _) => a in w.assets ==> w.assets[a].tenant == t
    case CreateGroup(_, g) => g !in w.catalog.groups
    case SetGroupOverride(_, g, f, raw, now) => SettledStamp(w.catalog, g, f, raw, now)
    case Recompute(t, order) => Lists(w, t, order)
    case _ => true
  }

  ghost function Step(w: World, op: Op): World
    requires Possible(w, op)
  {
    match op
    case Sync(t, a, inputs) => SyncWorld(w, t, a, inputs)
    case CreateGroup(t, g) => w.(catalog := w.catalog.(groups := w.catalog.groups[g := t]))
    case DeleteGroup(t, g) =>
      if OwnsGroup(w.catalog, t, g) then w.(catalog := DeleteFrom(w.catalog, g)) else w
    case AddMember(t, g, a) =>
      if OwnsGroup(w.catalog, t, g) && OwnsAsset(w.assets, t, a)
      then Reapply(w.(catalog := w.catalog.(members := w.catalog.members + {(g, a)})), a)
      else w
    case RemoveMember(t, g, a) =>
      if OwnsGroup(w.catalog, t, g) && (g, a) in w.catalog.members then
        var w' := w.(catalog := w.catalog.(members := w.catalog.members - {(g, a)}));
        if OwnsAsset(w.assets, t, a) then Reapply(w', a) else w'
      else w
    case SetGroupOverride(t, g, f, raw, now) => SetGroupWorld(w, t, g, f, raw, now)
    case SetAssetOverride(t, a, f, raw) => SetAssetWorld(w, t, a, f, raw)
    case Recompute(t, order) => RecomputeWorld(w, t, order)
  }

  // ---- The pure rule the stored columns must agree with ----

  type PinMap = map<(AssetId, Field), Value>

  /** The history that matters: each field's last accepted asset override. */
  function PinsAfter(w: World, pins: PinMap, op: Op): PinMap {
    if op.SetAssetOverride? && Pins(w, op.tenant, op.asset, op.field, op.raw)
    then pins[(op.asset, op.field) := Cast(op.field, op.raw)]
    else pins
  }

  /** Asset override, else newest group override, else inference. */
  function Rule(pin: Option<Value>, group: Option<string>, f: Field, inputs: Inputs): Slot {
    if pin.Some? then Slot(pin.value, AssetOverride)
    else if group.Some? then Slot(Cast(f, group.value), GroupOverride)
    else Slot(Infer(inputs, f), Auto)
  }

  function Lookup<K, V>(m: map<K, V>, k: K): Option<V> {
    if k in m then Some(m[k]) else None
  }

  ghost predicate FollowsRule(w: World, pins: PinMap, a: AssetId, f: Field)
    requires a in w.assets
  {
    w.assets[a].slots.Get(f)
    == Rule(Lookup(pins, (a, f)), Lookup(OverridesOf(w.catalog, a), f), f, w.assets[a].inputs)
  }

  ghost predicate Coherent(w: World, pins: PinMap, a: AssetId)
    requires a in w.assets
  {
    forall f :: FollowsRule(w, pins, a, f)
  }

  /** Assets a deleted group may have left behind, until they are next re-derived. */
  ghost function StaleAfter(w: World, stale: set<AssetId>, op: Op): set<AssetId> {
    match op
    case DeleteGroup(t, g) => if OwnsGroup(w.catalog, t, g) then stale + MembersOf(w.catalog, g) else stale
    case AddMember(t, g, a) =>
      if OwnsGroup(w.catalog, t, g) && OwnsAsset(w.assets, t, a) then stale - {a} else stale
    case RemoveMember(t, g, a) =>
      if OwnsGroup(w.catalog, t, g) && (g, a) in w.catalog.members then stale - {a} else stale
    case SetGroupOverride(t, g, f, raw, _) =>
      if ValidOverride(f, raw) && OwnsGroup(w.catalog, t, g) then stale - MembersOf(w.catalog, g) else stale
    case Recompute(t, _) => set a | a in stale && !OwnsAsset(w.assets, t, a)
    case _ => stale
  }

  datatype State = State(world: World, pins: PinMap, stale: set<AssetId>)

  ghost function Next(s: State, op: Op): State
    requires Possible(s.world, op)
  {
    State(Step(s.world, op), PinsAfter(s.world, s.pins, op), StaleAfter(s.world, s.stale, op))
  }

  // ---- The invariant, row by row ----

  ghost predicate LegalRow(row: Row) {
    forall f :: Legal(f, row.slots.Get(f).value)
  }

  ghost predicate PinsMatch(row: Row, pins: PinMap, a: AssetId) {
    forall f :: && (row.slots.Get(f).source == AssetOverride <==> (a, f) in pins)
                && ((a, f) in pins ==> row.slots.Get(f).value == pins[(a, f)])
  }

  ghost predicate WellFormed(w: World) {
    && (forall g, a :: (g, a) in w.catalog.members ==>
          a in w.assets && g in w.catalog.groups && w.assets[a].tenant == w.catalog.groups[g])
    && (forall g, f :: (g, f) in w.catalog.overrides ==>
          g in w.catalog.groups && ValidOverride(f, w.catalog.overrides[(g, f)].value))
    && TiesAgree(w.catalog)
  }

  ghost predicate Inv(s: State) {
    && WellFormed(s.world)
    && (forall a, f :: (a, f) in s.pins ==> a in s.world.assets)
    && (forall a :: a in s.world.assets ==> RowOk(s, a))
  }

  ghost predicate RowOk(s: State, a: AssetId)
    requires a in s.world.assets
  {
    && LegalRow(s.world.assets[a])
    && PinsMatch(s.world.assets[a], s.pins, a)
    && (a !in s.stale ==> Coherent(s.world, s.pins, a))
  }

  /** The full path makes any row follow the rule. */
  lemma FullPathRestores(w: World, pins: PinMap, a: AssetId, row: Row)
    requires WellFormed(w) && a in w.assets
    requires LegalRow(row) && PinsMatch(row, pins, a)
    requires w.assets[a] == ApplyFull(row, OverridesOf(w.catalog, a))
    ensures LegalRow(w.assets[a]) && PinsMatch(w.assets[a], pins, a) && Coherent(w, pins, a)
  {
    var winners := OverridesOf(w.catalog, a);
    forall f
      ensures FollowsRule(w, pins, a, f) && Legal(f, w.assets[a].slots.Get(f).value)
      ensures w.assets[a].slots.Get(f).source == AssetOverride <==> row.slots.Get(f).source == AssetOverride
    {
      assert w.assets[a].slots.Get(f) == FullSlot(row, winners, f);
      FullSlotFollowsRule(row, winners, f, Lookup(pins, (a, f)));
    }
  }

  /** One field of the full path is the rule, over whatever the field's asset override is. */
  lemma FullSlotFollowsRule(row: Row, winners: map<Field, string>, f: Field, pin: Option<Value>)
    requires Legal(f, row.slots.Get(f).value) && (f in winners ==> ValidOverride(f, winners[f]))
    requires row.slots.Get(f).source == AssetOverride <==> pin.Some?
    requires pin.Some? ==> row.slots.Get(f).value == pin.value
    ensures FullSlot(row, winners, f) == Rule(pin, Lookup(winners, f), f, row.inputs)
    ensures Legal(f, FullSlot(row, winners, f).value)
    ensures FullSlot(row, winners, f).source == AssetOverride <==> row.slots.Get(f).source == AssetOverride
  {
    WritesAreLegal(row.inputs, f, if f in winners then winners[f] else "");
  }

  /** A row nothing touched keeps following the rule as long as the catalog says the same about it. */
  lemma Untouched(s: State, s': State, a: AssetId)
    requires Inv(s) && WellFormed(s'.world)
    requires a in s.world.assets && a in s'.world.assets && s'.world.assets[a] == s.world.assets[a]
    requires forall f :: Lookup(s.pins, (a, f)) == Lookup(s'.pins, (a, f))
    requires a in s.stale ==> a in s'.stale
    requires a in s'.stale || SameOffers(s.world.catalog, s'.world.catalog, a)
    ensures RowOk(s', a)
  {
    assert RowOk(s, a);
    forall f ensures (a, f) in s.pins <==> (a, f) in s'.pins {
      assert Lookup(s.pins, (a, f)) == Lookup(s'.pins, (a, f));
    }
    forall f | (a, f) in s.pins ensures s.pins[(a, f)] == s'.pins[(a, f)] {
      assert Lookup(s.pins, (a, f)) == Lookup(s'.pins, (a, f));
    }
    if a !in s'.stale {
      SameOffersSameOverrides(s.world.catalog, s'.world.catalog, a);
      forall f ensures FollowsRule(s'.world, s'.pins, a, f) {
        assert FollowsRule(s.world, s.pins, a, f);
      }
    }
  }
}

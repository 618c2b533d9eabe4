/** What the change lists promise, and when the group-unaware path is enough. */
module ExposureDiffs {
  import opened ExposureModel
  import opened ExposureAsset

  /** `changes` names every field whose value moved exactly once, with the value before and after. */
  ghost predicate ExactDiff(before: Slots, after: Slots, changes: seq<Change>) {
    && (forall c :: c in changes ==>
          c.was == before.Get(c.field).value && c.now == after.Get(c.field).value && c.was != c.now)
    && (forall f :: before.Get(f).value != after.Get(f).value ==> exists c :: c in changes && c.field == f)
    && DistinctFields(changes)
  }

  ghost predicate DistinctFields(changes: seq<Change>) {
    forall i, j :: 0 <= i < j < |changes| ==> changes[i].field != changes[j].field
  }

  function Values(slots: Slots): map<Field, Value> {
    map f: Field :: slots.Get(f).value
  }

  function Replay(values: map<Field, Value>, changes: seq<Change>): map<Field, Value> {
    if changes == [] then values
    else Replay(values, changes[..|changes| - 1])[changes[|changes| - 1].field := changes[|changes| - 1].now]
  }

  lemma {:induction false} ReplayAt(values: map<Field, Value>, changes: seq<Change>, f: Field)
    requires f in values
    requires DistinctFields(changes)
    ensures f in Replay(values, changes)
    ensures forall c :: c in changes && c.field == f ==> Replay(values, changes)[f] == c.now
    ensures (forall c :: c in changes ==> c.field != f) ==> Replay(values, changes)[f] == values[f]
  {
    if changes == [] {
    } else {
      var front, last := changes[..|changes| - 1], changes[|changes| - 1];
      ReplayAt(values, front, f);
      assert changes == front + [last];
    }
  }

  /** An exact diff replayed on the old values gives the new ones. */
  lemma ExactDiffReplays(before: Slots, after: Slots, changes: seq<Change>)
    requires ExactDiff(before, after, changes)
    ensures Replay(Values(before), changes) == Values(after)
  {
    ReplayKeys(Values(before), changes);
    forall f: Field ensures Replay(Values(before), changes)[f] == Values(after)[f] {
      ReplayAt(Values(before), changes, f);
    }
  }

  lemma {:induction false} ReplayKeys(values: map<Field, Value>, changes: seq<Change>)
    requires forall f: Field :: f in values
    ensures forall f: Field :: f in Replay(values, changes)
  {
    if changes == [] {
    } else {
      ReplayKeys(values, changes[..|changes| - 1]);
    }
  }

  lemma {:induction false} DiffContents(before: Slots, after: Slots, chosen: set<Field>, n: nat)
    requires n <= |EXPOSURE_FIELDS|
    ensures forall c :: c in Diff(before, after, chosen, n) <==>
              Done(c.field, n) && c.field in chosen && c.was != c.now
              && c.was == before.Get(c.field).value && c.now == after.Get(c.field).value
    ensures DistinctFields(Diff(before, after, chosen, n))
  {
    if n == 0 {
    } else {
      DiffContents(before, after, chosen, n - 1);
      DoneStep(n - 1);
      var front, f := Diff(before, after, chosen, n - 1), EXPOSURE_FIELDS[n - 1];
      var last := if f in chosen then DiffAt(before, after, f) else [];
      assert Diff(before, after, chosen, n) == front + last;
      forall c | c in front ensures c.field != f {
      }
      AppendKeepsFieldsDistinct(front, last, f);
    }
  }

  lemma AppendKeepsFieldsDistinct(front: seq<Change>, last: seq<Change>, f: Field)
    requires DistinctFields(front)
    requires forall c :: c in front ==> c.field != f
    requires |last| <= 1 && forall c :: c in last ==> c.field == f
    ensures DistinctFields(front + last)
  {
    forall i, j | 0 <= i < j < |front + last| ensures (front + last)[i].field != (front + last)[j].field {
      assert front[i] in front;
      if j >= |front| {
        assert last[j - |front|] in last;
      }
    }
  }

  lemma PartitionIsExact(before: Slots, after: Slots, first: set<Field>)
    ensures ExactDiff(before, after, Diff(before, after, first, |EXPOSURE_FIELDS|)
                                     + Diff(before, after, ALL_FIELDS - first, |EXPOSURE_FIELDS|))
  {
    var n := |EXPOSURE_FIELDS|;
    var d, e := Diff(before, after, first, n), Diff(before, after, ALL_FIELDS - first, n);
    DiffContents(before, after, first, n);
    DiffContents(before, after, ALL_FIELDS - first, n);
    forall f | before.Get(f).value != after.Get(f).value
      ensures exists c: Change :: c in d + e && c.field == f
    {
      var c := Change(f, before.Get(f).value, after.Get(f).value);
      assert c in d || c in e;
    }
    assert forall c :: c in d ==> c.field in first;
    assert forall c :: c in e ==> c.field !in first;
  }

  lemma FullChangesAreExact(row: Row, overrides: map<Field, string>)
    ensures ExactDiff(row.slots, ApplyFull(row, overrides).slots, FullChanges(row, overrides))
  {
    PartitionIsExact(row.slots, ApplyFull(row, overrides).slots, overrides.Keys);
  }

  lemma CheapChangesAreExact(row: Row)
    ensures ExactDiff(row.slots, ApplyCheap(row).slots, CheapChanges(row))
  {
    var before, after := row.slots, ApplyCheap(row).slots;
    PartitionIsExact(before, after, ALL_FIELDS);
    NoChangeNoDiff(before, after, ALL_FIELDS - ALL_FIELDS, |EXPOSURE_FIELDS|);
    assert CheapChanges(row) + [] == CheapChanges(row);
  }

  /** A second application of the full path writes nothing and reports nothing. */
  lemma FullIsIdempotent(row: Row, overrides: map<Field, string>)
    ensures ApplyFull(ApplyFull(row, overrides), overrides) == ApplyFull(row, overrides)
    ensures FullChanges(ApplyFull(row, overrides), overrides) == []
  {
    var next := ApplyFull(row, overrides);
    NoChangeNoDiff(next.slots, next.slots, overrides.Keys, |EXPOSURE_FIELDS|);
    NoChangeNoDiff(next.slots, next.slots, ALL_FIELDS - overrides.Keys, |EXPOSURE_FIELDS|);
  }

  /** Every field that is not the asset's own override already shows what its groups say. */
  ghost predicate GroupFieldsCurrent(row: Row, overrides: map<Field, string>) {
    forall f :: row.slots.Get(f).source != AssetOverride ==>
      if f in overrides then row.slots.Get(f) == Slot(Cast(f, overrides[f]), GroupOverride)
      else row.slots.Get(f).source == Auto
  }

  /** The group-unaware sync path gives the row of the group-aware one exactly when the
      row's group-driven fields are current. */
  lemma CheapPathRefinesFullPath(row: Row, overrides: map<Field, string>)
    ensures ApplyCheap(row) == ApplyFull(row, overrides) <==> GroupFieldsCurrent(row, overrides)
  {
    var cheap, full := ApplyCheap(row).slots, ApplyFull(row, overrides).slots;
    assert cheap == full <==> forall f :: cheap.Get(f) == full.Get(f) by {
      assert cheap == Slots(cheap.Get(BusinessCriticality), cheap.Get(DataSensitivity), cheap.Get(InternetFacing));
      assert full == Slots(full.Get(BusinessCriticality), full.Get(DataSensitivity), full.Get(InternetFacing));
    }
    forall f ensures cheap.Get(f) == CheapSlot(row, f) && full.Get(f) == FullSlot(row, overrides, f) {
    }
  }

  /** ... and then it reports the same changes, whatever the inputs have become. */
  lemma CheapPathReportsFullChanges(row: Row, overrides: map<Field, string>)
    requires GroupFieldsCurrent(row, overrides)
    ensures CheapChanges(row) == FullChanges(row, overrides)
  {
    CheapPathRefinesFullPath(row, overrides);
    var before, after := row.slots, ApplyCheap(row).slots;
    NoChangeNoDiff(before, after, overrides.Keys, |EXPOSURE_FIELDS|);
    RestIsAll(before, after, overrides.Keys, |EXPOSURE_FIELDS|);
  }

  lemma {:induction false} NoChangeNoDiff(before: Slots, after: Slots, chosen: set<Field>, n: nat)
    requires n <= |EXPOSURE_FIELDS|
    requires forall f :: f in chosen ==> before.Get(f).value == after.Get(f).value
    ensures Diff(before, after, chosen, n) == []
  {
    if n == 0 {
    } else {
      NoChangeNoDiff(before, after, chosen, n - 1);
    }
  }

  lemma {:induction false} RestIsAll(before: Slots, after: Slots, still: set<Field>, n: nat)
    requires n <= |EXPOSURE_FIELDS|
    requires forall f :: f in still ==> before.Get(f).value == after.Get(f).value
    ensures Diff(before, after, ALL_FIELDS - still, n) == Diff(before, after, ALL_FIELDS, n)
  {
    if n == 0 {
    } else {
      RestIsAll(before, after, still, n - 1);
    }
  }
}

/** The asset row as the session holds it, updated in place. */
module ExposureAsset {
  import opened Common
  import opened ExposureModel

  class Asset {
    const tenant: int
    var inputs: Inputs
    var value: map<Field, Value>
    var source: map<Field, Source>

    ghost predicate Valid()
      reads this
    {
      forall f: Field :: f in value && f in source
    }

    ghost function SlotOf(f: Field): Slot
      requires Valid()
      reads this
    {
      Slot(value[f], source[f])
    }

    ghost function AsRow(): (row: Row)
      requires Valid()
      reads this
      ensures forall f :: row.slots.Get(f) == SlotOf(f)
    {
      Row(tenant, inputs, Slots(SlotOf(BusinessCriticality), SlotOf(DataSensitivity), SlotOf(InternetFacing)))
    }

    /** A row just inserted by a connector, with the column defaults. */
    constructor (tenant: int, inputs: Inputs)
      ensures Valid()
      ensures AsRow() == Row(tenant, inputs, DEFAULT_SLOTS)
    {
      this.tenant := tenant;
      this.inputs := inputs;
      value := map f: Field :: DEFAULT_SLOTS.Get(f).value;
      source := map f: Field :: DEFAULT_SLOTS.Get(f).source;
    }

    /** Sets one field's value and records the change, unless it already has that value. */
    method WriteIfChanged(f: Field, newValue: Value) returns (recorded: seq<Change>)
      requires Valid()
      modifies this`value
      ensures value == old(value)[f := newValue]
      ensures recorded == ChangeTo(f, old(value[f]), newValue)
    {
      recorded := [];
      var oldValue := value[f];
      if oldValue != newValue {
        value := value[f := newValue];
        recorded := [Change(f, oldValue, newValue)];
      }
    }

    method ApplyInference() returns (changes: seq<Change>)
      requires Valid()
      modifies this
      ensures Valid() && AsRow() == ApplyCheap(old(AsRow()))
      ensures changes == CheapChanges(old(AsRow()))
    {
      ghost var before := AsRow();
      ghost var after := ApplyCheap(before);
      changes := [];
      for i := 0 to |EXPOSURE_FIELDS|
        invariant Valid() && inputs == before.inputs
        invariant forall f :: Slot(value[f], source[f]) == (if Done(f, i) then after else before).slots.Get(f)
        invariant changes == Diff(before.slots, after.slots, ALL_FIELDS, i)
      {
        var f := EXPOSURE_FIELDS[i];
        DoneStep(i);
        assert Slot(value[f], source[f]) == before.slots.Get(f);
        if source[f] == Auto {
          var recorded := WriteIfChanged(f, Infer(inputs, f));
          changes := changes + recorded;
        }
      }
    }

    /** One turn of the first loop: apply the group override of `f`, or leave `f` to inference. */
    method VisitGroupOverride(f: Field, overrides: map<Field, string>) returns (recorded: seq<Change>, left: seq<Field>)
      requires Valid()
      modifies this
      ensures Valid() && inputs == old(inputs)
      ensures forall g :: SlotOf(g) == if g == f && f in overrides
                                       then FullSlot(old(AsRow()), overrides, f) else old(SlotOf(g))
      ensures recorded == if f in overrides then ChangeTo(f, old(value[f]), value[f]) else []
      ensures left == if source[f] != AssetOverride && f !in overrides then [f] else []
    {
      recorded, left := [], [];
      var current := source[f];
      if current != AssetOverride {
        if f in overrides {
          recorded := WriteIfChanged(f, Cast(f, overrides[f]));
          if current != GroupOverride {
            source := source[f := GroupOverride];
          }
        } else {
          left := [f];
        }
      }
    }

    /** One turn of the second loop: infer `f`, which reverts to AUTO if a group had set it. */
    method VisitInferred(f: Field) returns (recorded: seq<Change>)
      requires Valid() && source[f] != AssetOverride
      modifies this
      ensures Valid() && inputs == old(inputs)
      ensures forall g :: SlotOf(g) == if g == f then Slot(Infer(inputs, f), Auto) else old(SlotOf(g))
      ensures recorded == ChangeTo(f, old(value[f]), value[f])
    {
      var current := source[f];
      recorded := WriteIfChanged(f, Infer(inputs, f));
      if current != Auto {
        source := source[f := Auto];
      }
    }

    /** The second loop. */
    method InferAll(fields: seq<Field>) returns (changes: seq<Change>)
      requires Valid() && NoDuplicates(fields)
      requires forall f :: f in fields ==> source[f] != AssetOverride
      modifies this
      ensures Valid() && inputs == old(inputs)
      ensures forall f :: SlotOf(f) == if f in fields then Slot(Infer(inputs, f), Auto) else old(SlotOf(f))
      ensures changes == InferredChanges(old(AsRow()), fields, |fields|)
    {
      changes := [];
      for i := 0 to |fields|
        invariant Valid() && inputs == old(inputs)
        invariant forall f :: SlotOf(f) == if f in fields[..i] then Slot(Infer(inputs, f), Auto) else old(SlotOf(f))
        invariant changes == InferredChanges(old(AsRow()), fields, i)
      {
        assert fields[i] !in fields[..i];
        var recorded := VisitInferred(fields[i]);
        changes := changes + recorded;
      }
    }

    /** The first loop. */
    method ApplyGroupOverrides(overrides: map<Field, string>) returns (changes: seq<Change>, forAuto: seq<Field>)
      requires Valid()
      modifies this
      ensures Valid() && inputs == old(inputs)
      ensures forall f :: SlotOf(f) == if f in overrides then FullSlot(old(AsRow()), overrides, f) else old(SlotOf(f))
      ensures forAuto == AutoFields(old(AsRow()), overrides, |EXPOSURE_FIELDS|)
      ensures changes == Diff(old(AsRow()).slots, ApplyFull(old(AsRow()), overrides).slots, overrides.Keys,
                              |EXPOSURE_FIELDS|)
    {
      ghost var before := AsRow();
      forAuto, changes := [], [];
      for i := 0 to |EXPOSURE_FIELDS|
        invariant Valid() && inputs == before.inputs
        invariant forall f :: SlotOf(f) == if Done(f, i) && f in overrides
                                           then FullSlot(before, overrides, f) else before.slots.Get(f)
        invariant forAuto == AutoFields(before, overrides, i)
        invariant changes == Diff(before.slots, ApplyFull(before, overrides).slots, overrides.Keys, i)
      {
        var f := EXPOSURE_FIELDS[i];
        DoneStep(i);
        var recorded, left := VisitGroupOverride(f, overrides);
        changes := changes + recorded;
        forAuto := forAuto + left;
      }
    }

    method ApplyPrecedence(overrides: map<Field, string>) returns (changes: seq<Change>)
      requires Valid()
      modifies this
      ensures Valid() && AsRow() == ApplyFull(old(AsRow()), overrides)
      ensures changes == FullChanges(old(AsRow()), overrides)
    {
      ghost var before := AsRow();
      var forAuto;
      changes, forAuto := ApplyGroupOverrides(overrides);
      AutoFieldsAre(before, overrides, |EXPOSURE_FIELDS|);
      AutoDiffs(before, overrides, |EXPOSURE_FIELDS|);
      InferredChangesDependOnTheFields(before, AsRow(), forAuto, |forAuto|);
      var recorded := InferAll(forAuto);
      changes := changes + recorded;
    }

    /** An admin's per-asset override of one field. */
    method Pin(f: Field, v: Value)
      requires Valid()
      modifies this
      ensures Valid() && inputs == old(inputs)
      ensures forall g :: SlotOf(g) == if g == f then Slot(v, AssetOverride) else old(SlotOf(g))
    {
      value := value[f := v];
      source := source[f := AssetOverride];
    }
  }

  const DEFAULT_SLOTS: Slots := Slots(Slot(Text("MEDIUM"), Auto), Slot(Text("INTERNAL"), Auto), Slot(Flag(false), Auto))

  // ---- Bookkeeping of the loops ----

  /** `f` is among the first `n` exposure fields. */
  predicate Done(f: Field, n: nat) {
    match f
    case BusinessCriticality => n > 0
    case DataSensitivity => n > 1
    case InternetFacing => n > 2
  }

  lemma DoneStep(i: nat)
    requires i < |EXPOSURE_FIELDS|
    ensures !Done(EXPOSURE_FIELDS[i], i)
    ensures forall g :: Done(g, i + 1) <==> Done(g, i) || g == EXPOSURE_FIELDS[i]
  {
    forall g ensures Done(g, i + 1) <==> Done(g, i) || g == EXPOSURE_FIELDS[i] {
      assert i == 0 || i == 1 || i == 2;
    }
  }

  /** The fields left to inference among the first `n`, in order. */
  function AutoFields(row: Row, overrides: map<Field, string>, n: nat): seq<Field>
    requires n <= |EXPOSURE_FIELDS|
  {
    if n == 0 then []
    else
      var f := EXPOSURE_FIELDS[n - 1];
      AutoFields(row, overrides, n - 1)
      + (if row.slots.Get(f).source != AssetOverride && f !in overrides then [f] else [])
  }

  function InferredChanges(row: Row, fields: seq<Field>, n: nat): seq<Change>
    requires n <= |fields|
  {
    if n == 0 then []
    else
      var f := fields[n - 1];
      InferredChanges(row, fields, n - 1) + ChangeTo(f, row.slots.Get(f).value, Infer(row.inputs, f))
  }

  lemma {:induction false} InferredChangesDependOnTheFields(row: Row, row': Row, fields: seq<Field>, n: nat)
    requires n <= |fields| && row.inputs == row'.inputs
    requires forall f :: f in fields ==> row.slots.Get(f) == row'.slots.Get(f)
    ensures InferredChanges(row, fields, n) == InferredChanges(row', fields, n)
  {
    if n == 0 {
    } else {
      InferredChangesDependOnTheFields(row, row', fields, n - 1);
    }
  }

  lemma {:induction false} InferredChangesPrefix(row: Row, fields: seq<Field>, more: seq<Field>, n: nat)
    requires n <= |fields|
    ensures InferredChanges(row, fields + more, n) == InferredChanges(row, fields, n)
  {
    if n == 0 {
    } else {
      InferredChangesPrefix(row, fields, more, n - 1);
    }
  }

  lemma {:induction false} AutoFieldsAre(row: Row, overrides: map<Field, string>, n: nat)
    requires n <= |EXPOSURE_FIELDS|
    ensures forall f :: f in AutoFields(row, overrides, n)
                        <==> Done(f, n) && row.slots.Get(f).source != AssetOverride && f !in overrides
    ensures NoDuplicates(AutoFields(row, overrides, n))
  {
    if n == 0 {
    } else {
      AutoFieldsAre(row, overrides, n - 1);
      DoneStep(n - 1);
    }
  }

  /** One more field left to inference adds its own change. */
  lemma InferredChangesNext(row: Row, auto: seq<Field>, f: Field)
    ensures InferredChanges(row, auto + [f], |auto| + 1)
         == InferredChanges(row, auto, |auto|) + ChangeTo(f, row.slots.Get(f).value, Infer(row.inputs, f))
  {
    var more := auto + [f];
    assert more[|more| - 1] == f;
    InferredChangesPrefix(row, auto, [f], |auto|);
    assert InferredChanges(row, more, |more|)
        == InferredChanges(row, more, |auto|) + ChangeTo(f, row.slots.Get(f).value, Infer(row.inputs, f));
  }

  lemma {:induction false} AutoDiffs(row: Row, overrides: map<Field, string>, n: nat)
    requires n <= |EXPOSURE_FIELDS|
    ensures var auto := AutoFields(row, overrides, n);
            InferredChanges(row, auto, |auto|)
            == Diff(row.slots, ApplyFull(row, overrides).slots, ALL_FIELDS - overrides.Keys, n)
  {
    if n == 0 {
    } else {
      var auto, f := AutoFields(row, overrides, n - 1), EXPOSURE_FIELDS[n - 1];
      AutoDiffs(row, overrides, n - 1);
      if f in overrides {
        assert AutoFields(row, overrides, n) == auto;
      } else if row.slots.Get(f).source == AssetOverride {
        AutoDiffAt(row, overrides, f);
        assert AutoFields(row, overrides, n) == auto;
      } else {
        AutoDiffAt(row, overrides, f);
        assert AutoFields(row, overrides, n) == auto + [f];
        InferredChangesNext(row, auto, f);
      }
    }
  }

  /** What the full path records for one field without a group override. */
  lemma AutoDiffAt(row: Row, overrides: map<Field, string>, f: Field)
    requires f !in overrides
    ensures f in ALL_FIELDS - overrides.Keys
    ensures DiffAt(row.slots, ApplyFull(row, overrides).slots, f)
         == if row.slots.Get(f).source != AssetOverride
            then ChangeTo(f, row.slots.Get(f).value, Infer(row.inputs, f)) else []
  {
    assert ApplyFull(row, overrides).slots.Get(f) == FullSlot(row, overrides, f);
  }
}

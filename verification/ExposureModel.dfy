/** One asset's exposure context: three fields, each with the source that last set it. */
module ExposureModel {
  import opened Common

  datatype Field = BusinessCriticality | DataSensitivity | InternetFacing

  const EXPOSURE_FIELDS: seq<Field> := [BusinessCriticality, DataSensitivity, InternetFacing]

  datatype Source = Auto | GroupOverride | AssetOverride

  datatype Value = Text(text: string) | Flag(flag: bool)

  datatype Slot = Slot(value: Value, source: Source)

  datatype Slots = Slots(criticality: Slot, sensitivity: Slot, facing: Slot) {
    function Get(f: Field): Slot {
      match f
      case BusinessCriticality => criticality
      case DataSensitivity => sensitivity
      case InternetFacing => facing
    }
  }

  /** The columns inference reads. `jobTitle` is mdm_details["humaans_job_title"]. */
  datatype Inputs = Inputs(
    tags: seq<string>,
    department: Option<string>,
    jobTitle: Option<string>,
    externalIp: Option<string>,
    detected: Option<bool>)

  datatype Row = Row(tenant: int, inputs: Inputs, slots: Slots)

  datatype Change = Change(field: Field, was: Value, now: Value)

  // ---- Inference ----

  function LowerChar(c: char): char {
    if 'A' <= c <= 'Z' then c - 'A' + 'a' else c
  }

  function Lower(s: string): string {
    seq(|s|, i requires 0 <= i < |s| => LowerChar(s[i]))
  }

  predicate IsSpace(c: char) {
    c == ' ' || c == '\t' || c == '\n' || c == '\r'
  }

  function Strip(s: string): string
    decreases |s|
  {
    if s != "" && IsSpace(s[0]) then Strip(s[1..])
    else if s != "" && IsSpace(s[|s| - 1]) then Strip(s[..|s| - 1])
    else s
  }

  predicate Contains(s: string, part: string) {
    exists i :: 0 <= i <= |s| - |part| && part <= s[i..]
  }

  predicate ContainsAny(s: string, parts: seq<string>) {
    exists p :: p in parts && Contains(s, p)
  }

  predicate HasTag(tags: seq<string>, wanted: set<string>) {
    exists t :: t in tags && Lower(t) in wanted
  }

  const CRITICAL_TITLES := ["ceo", "cto", "ciso", "cfo", "coo", "chief"]
  const HIGH_TITLES := ["vp", "vice president", "director", "head of"]
  const CRITICAL_DEPARTMENTS := {"finance", "legal", "security", "executive"}
  const HIGH_DEPARTMENTS := {"hr", "human resources", "it", "engineering"}
  const LOW_DEPARTMENTS := {"dev", "development", "qa", "test", "sandbox"}
  const CRITICAL_TAGS := {"pci", "tier-1"}
  const RESTRICTED_TAGS := {"pii", "phi", "restricted"}
  const CONFIDENTIAL_TAGS := {"pci", "confidential"}
  const CONFIDENTIAL_DEPARTMENTS := {"finance", "legal"}
  const PUBLIC_TAGS := {"public", "www"}
  const PUBLIC_DEPARTMENTS := {"marketing"}

  function InferCriticality(i: Inputs): string {
    var title := Lower(i.jobTitle.GetOr(""));
    var department := Lower(Strip(i.department.GetOr("")));
    if ContainsAny(title, CRITICAL_TITLES) || department in CRITICAL_DEPARTMENTS || HasTag(i.tags, CRITICAL_TAGS)
        then "CRITICAL"
    else if ContainsAny(title, HIGH_TITLES) || department in HIGH_DEPARTMENTS then "HIGH"
    else if department in LOW_DEPARTMENTS then "LOW"
    else "MEDIUM"
  }

  function InferSensitivity(i: Inputs): string {
    var department := Lower(Strip(i.department.GetOr("")));
    if HasTag(i.tags, RESTRICTED_TAGS) then "RESTRICTED"
    else if HasTag(i.tags, CONFIDENTIAL_TAGS) || department in CONFIDENTIAL_DEPARTMENTS then "CONFIDENTIAL"
    else if HasTag(i.tags, PUBLIC_TAGS) || department in PUBLIC_DEPARTMENTS then "PUBLIC"
    else "INTERNAL"
  }

  function InferFacing(i: Inputs): bool {
    if i.detected.Some? then i.detected.value
    else HasTag(i.tags, {"internet-facing"}) || i.externalIp.Some?
  }

  function Infer(i: Inputs, f: Field): Value {
    match f
    case BusinessCriticality => Text(InferCriticality(i))
    case DataSensitivity => Text(InferSensitivity(i))
    case InternetFacing => Flag(InferFacing(i))
  }

  // ---- Override values ----

  const CRITICALITIES := {"LOW", "MEDIUM", "HIGH", "CRITICAL"}
  const SENSITIVITIES := {"PUBLIC", "INTERNAL", "CONFIDENTIAL", "RESTRICTED"}

  /** The request validator: an enum member, or "true"/"false" for internet_facing. */
  predicate ValidOverride(f: Field, raw: string) {
    match f
    case BusinessCriticality => raw in CRITICALITIES
    case DataSensitivity => raw in SENSITIVITIES
    case InternetFacing => Lower(Strip(raw)) in {"true", "false"}
  }

  function Cast(f: Field, raw: string): Value {
    if f == InternetFacing then Flag(Lower(Strip(raw)) == "true") else Text(raw)
  }

  /** What the column of `f` may hold. */
  predicate Legal(f: Field, v: Value) {
    match f
    case BusinessCriticality => v.Text? && v.text in CRITICALITIES
    case DataSensitivity => v.Text? && v.text in SENSITIVITIES
    case InternetFacing => v.Flag?
  }

  lemma WritesAreLegal(i: Inputs, f: Field, raw: string)
    ensures Legal(f, Infer(i, f))
    ensures ValidOverride(f, raw) ==> Legal(f, Cast(f, raw))
  {
    match f
    case BusinessCriticality =>
      assert InferCriticality(i) in CRITICALITIES;
    case DataSensitivity =>
      assert InferSensitivity(i) in SENSITIVITIES;
    case InternetFacing =>
  }

  // ---- The two ways of re-deriving a row ----

  /** The group-unaware path: only fields still AUTO are inferred again. */
  function CheapSlot(row: Row, f: Field): Slot {
    var s := row.slots.Get(f);
    if s.source != Auto then s else Slot(Infer(row.inputs, f), Auto)
  }

  /** The full path: asset override, else the given group override, else inference. */
  function FullSlot(row: Row, overrides: map<Field, string>, f: Field): Slot {
    var s := row.slots.Get(f);
    if s.source == AssetOverride then s
    else if f in overrides then Slot(Cast(f, overrides[f]), GroupOverride)
    else Slot(Infer(row.inputs, f), Auto)
  }

  function ApplyCheap(row: Row): Row {
    row.(slots := Slots(CheapSlot(row, BusinessCriticality), CheapSlot(row, DataSensitivity),
                        CheapSlot(row, InternetFacing)))
  }

  function ApplyFull(row: Row, overrides: map<Field, string>): Row {
    row.(slots := Slots(FullSlot(row, overrides, BusinessCriticality),
                        FullSlot(row, overrides, DataSensitivity),
                        FullSlot(row, overrides, InternetFacing)))
  }

  /** Whatever the inputs and whatever validated overrides apply, both paths leave legal rows. */
  lemma PathsStayLegal(row: Row, overrides: map<Field, string>)
    requires forall f :: Legal(f, row.slots.Get(f).value)
    requires forall f :: f in overrides ==> ValidOverride(f, overrides[f])
    ensures forall f :: Legal(f, ApplyCheap(row).slots.Get(f).value)
    ensures forall f :: Legal(f, ApplyFull(row, overrides).slots.Get(f).value)
  {
    forall f
      ensures Legal(f, ApplyCheap(row).slots.Get(f).value) && Legal(f, ApplyFull(row, overrides).slots.Get(f).value)
    {
      WritesAreLegal(row.inputs, f, if f in overrides then overrides[f] else "");
      assert ApplyCheap(row).slots.Get(f) == CheapSlot(row, f);
      assert ApplyFull(row, overrides).slots.Get(f) == FullSlot(row, overrides, f);
    }
  }

  function ChangeTo(f: Field, was: Value, now: Value): seq<Change> {
    if was != now then [Change(f, was, now)] else []
  }

  /** The change record of one field, if its value moved. */
  function DiffAt(before: Slots, after: Slots, f: Field): seq<Change> {
    ChangeTo(f, before.Get(f).value, after.Get(f).value)
  }

  /** The change records of the first `n` exposure fields, among those in `chosen`. */
  function Diff(before: Slots, after: Slots, chosen: set<Field>, n: nat): seq<Change>
    requires n <= |EXPOSURE_FIELDS|
  {
    if n == 0 then []
    else
      var f := EXPOSURE_FIELDS[n - 1];
      Diff(before, after, chosen, n - 1) + (if f in chosen then DiffAt(before, after, f) else [])
  }

  const ALL_FIELDS: set<Field> := {BusinessCriticality, DataSensitivity, InternetFacing}

  function CheapChanges(row: Row): seq<Change> {
    Diff(row.slots, ApplyCheap(row).slots, ALL_FIELDS, |EXPOSURE_FIELDS|)
  }

  /** Group-driven changes are recorded before inferred ones. */
  function FullChanges(row: Row, overrides: map<Field, string>): seq<Change> {
    var next := ApplyFull(row, overrides).slots;
    Diff(row.slots, next, overrides.Keys, |EXPOSURE_FIELDS|)
    + Diff(row.slots, next, ALL_FIELDS - overrides.Keys, |EXPOSURE_FIELDS|)
  }
}

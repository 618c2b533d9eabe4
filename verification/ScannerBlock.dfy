/** The tagged block scanner data travels in, and reading it back out for the cache key. */
module ScannerBlock {
  import opened Common

  const CLOSE := "</scanner_data>"

  function Opening(source: string): string {
    "<scanner_data source=\"" + source + "\">"
  }

  function Wrap(source: string, body: string): string {
    Opening(source) + body + CLOSE
  }

  /** text.index(c): the first position at or after `from`, or None where Python raises. */
  function IndexFrom(text: string, c: char, from: nat): (at: Option<nat>)
    requires from <= |text|
    ensures at.Some? ==> from <= at.value < |text| && text[at.value] == c
    ensures forall i :: from <= i < |text| && text[i] == c ==> at.Some? && at.value <= i
    decreases |text| - from
  {
    if from == |text| then None
    else if text[from] == c then Some(from)
    else IndexFrom(text, c, from + 1)
  }

  /** text.rindex(part): the last position at or before `upTo`. */
  function LastIndexTo(text: string, part: string, upTo: nat): (at: Option<nat>)
    requires upTo <= |text|
    ensures at.Some? ==> at.value <= upTo && part <= text[at.value..]
    ensures forall i :: 0 <= i <= upTo && part <= text[i..] ==> at.Some? && i <= at.value
  {
    if part <= text[upTo..] then Some(upTo)
    else if upTo == 0 then None
    else LastIndexTo(text, part, upTo - 1)
  }

  /** Everything between the first '>' and the last closing tag. */
  function Extract(text: string): Option<string> {
    var open := IndexFrom(text, '>', 0);
    var close := LastIndexTo(text, CLOSE, |text|);
    if open.None? || close.None? then None
    else if open.value + 1 > close.value then Some("")
    else Some(text[open.value + 1..close.value])
  }

  /** The last closing tag of a block is its own, however many the body contains. */
  lemma OwnClosingTag(front: string)
    ensures LastIndexTo(front + CLOSE, CLOSE, |front + CLOSE|) == Some(|front|)
  {
    var text := front + CLOSE;
    assert text[|front|..] == CLOSE;
    assert forall i :: 0 <= i <= |text| && CLOSE <= text[i..] ==> i <= |front|;
  }

  /** The first '>' ends the opening tag exactly when the source has none. */
  lemma OpeningEnds(source: string, rest: string)
    ensures var open := IndexFrom(Opening(source) + rest, '>', 0);
            open.Some? && if '>' in source then open.value < |Opening(source)| - 1
                          else open.value == |Opening(source)| - 1
  {
    var open, text := Opening(source), Opening(source) + rest;
    var prefix := |"<scanner_data source=\""|;
    assert open[|open| - 1] == '>' && text[|open| - 1] == '>';
    if '>' in source {
      var i :| 0 <= i < |source| && source[i] == '>';
      assert text[prefix + i] == open[prefix + i] == '>';
    } else {
      forall i | 0 <= i < |open| - 1 ensures text[i] != '>' {
        if prefix <= i < prefix + |source| {
          assert text[i] == source[i - prefix];
        } else {
          assert text[i] == open[i];
        }
      }
    }
  }

  /** Extraction gives back exactly the body, whatever closing tags the body contains, for
      exactly the source attributes without '>'. */
  lemma UnwrapIsInverse(source: string, body: string)
    ensures Extract(Wrap(source, body)) == Some(body) <==> '>' !in source
  {
    var text, front := Wrap(source, body), Opening(source) + body;
    assert text == front + CLOSE == Opening(source) + (body + CLOSE);
    OwnClosingTag(front);
    OpeningEnds(source, body + CLOSE);
    var open := IndexFrom(text, '>', 0).value;
    assert Extract(text) == Some(text[open + 1..|front|]);
    if '>' in source {
      assert |text[open + 1..|front|]| > |body|;
    } else {
      assert text[open + 1..|front|] == body;
    }
  }

  // ---- The allowlisted view of a record ----

  /** `Raw` is any non-string value, by the text str() or isoformat() gives for it. */
  datatype Value = Null | Text(text: string) | Raw(shown: string)

  datatype Kind = AsIs | FreeText | Dated

  const VULN_FIELDS: seq<(string, Kind)> := [
    ("cve_id", AsIs), ("vulnerability_name", FreeText), ("cvss_v3_score", AsIs), ("cvss_v3_vector", AsIs),
    ("severity", AsIs), ("cisa_kev", AsIs), ("exploit_available", AsIs), ("asset_hostname", AsIs),
    ("source", AsIs), ("affected_product", AsIs), ("affected_version", AsIs), ("fixed_version", AsIs),
    ("remediation_info", FreeText), ("status", AsIs), ("first_detected_at", Dated), ("last_seen_at", Dated)]

  const MAX_FIELD_CHARS := 4000
  const TRUNCATION_MARKER := " [...truncated]"

  type Record = map<string, Value>

  function GetField(r: Record, name: string): Value {
    if name in r then r[name] else Null
  }

  function Shown(v: Value): string {
    match v
    case Null => ""
    case Text(s) => s
    case Raw(s) => s
  }

  function TruncateText(s: string): string {
    if |s| <= MAX_FIELD_CHARS then s else s[..MAX_FIELD_CHARS] + TRUNCATION_MARKER
  }

  function Allowed(v: Value, kind: Kind): Value {
    match kind
    case AsIs => v
    case FreeText => if v.Null? then Null else Text(TruncateText(Shown(v)))
    case Dated => if v.Null? then Null else Text(Shown(v))
  }

  function View(r: Record): seq<(string, Value)> {
    seq(|VULN_FIELDS|, i requires 0 <= i < |VULN_FIELDS| =>
      (VULN_FIELDS[i].0, Allowed(GetField(r, VULN_FIELDS[i].0), VULN_FIELDS[i].1)))
  }

  const VIEW_NAMES := [
    "cve_id", "vulnerability_name", "cvss_v3_score", "cvss_v3_vector", "severity", "cisa_kev", "exploit_available",
    "asset_hostname", "source", "affected_product", "affected_version", "fixed_version", "remediation_info", "status",
    "first_detected_at", "last_seen_at"]

  /** A free text of at most 4000 characters goes out as it is, a longer one cut there and marked. */
  ghost predicate Cut(v: Value, out: Value) {
    match v
    case Null => out == Null
    case Text(s) => out == Text(if |s| <= 4000 then s else s[..4000] + " [...truncated]")
    case Raw(s) => out == Text(if |s| <= 4000 then s else s[..4000] + " [...truncated]")
  }

  /** A date goes out as its text. */
  ghost predicate Printed(v: Value, out: Value) {
    match v
    case Null => out == Null
    case Text(s) => out == Text(s)
    case Raw(s) => out == Text(s)
  }

  /** The view, field by field: the sixteen allowlisted names and no other, the name and the
      remediation text cut, the two dates printed, everything else as it is. */
  lemma ViewIs(r: Record)
    ensures |View(r)| == 16
    ensures forall i :: 0 <= i < 16 ==>
              var v := if VIEW_NAMES[i] in r then r[VIEW_NAMES[i]] else Null;
              && View(r)[i].0 == VIEW_NAMES[i]
              && (if i == 1 || i == 12 then Cut(v, View(r)[i].1)
                  else if i == 14 || i == 15 then Printed(v, View(r)[i].1)
                  else View(r)[i].1 == v)
  {
  }

  /** The connector's own provenance tag, which labels the block. */
  function SourceOf(r: Record): string {
    var s := Shown(GetField(r, "source"));
    if s == "" then "unknown" else s
  }

  /** The block is labelled with the record's source, or `unknown` when that is missing or empty. */
  lemma SourceIs(r: Record)
    ensures "source" !in r || r["source"] == Null ==> SourceOf(r) == "unknown"
    ensures forall s :: "source" in r && (r["source"] == Text(s) || r["source"] == Raw(s)) ==>
              SourceOf(r) == if s == "" then "unknown" else s
  {
  }

  function BlockOf(dumps: seq<(string, Value)> -> string, r: Record): string {
    Wrap(SourceOf(r), dumps(View(r)))
  }

  /** Parsing undoes encoding. */
  ghost predicate IsJson(dumps: seq<(string, Value)> -> string, loads: string -> seq<(string, Value)>) {
    forall v :: loads(dumps(v)) == v
  }

  lemma ViewDecidesSource(r: Record, r': Record)
    requires View(r) == View(r')
    ensures SourceOf(r) == SourceOf(r')
  {
    assert VULN_FIELDS[8] == ("source", AsIs);
    assert View(r)[8] == ("source", GetField(r, "source"));
    assert View(r')[8] == ("source", GetField(r', "source"));
  }

  /** What is hashed for the cache key is exactly the view that was put in the prompt. */
  lemma HashInputIsTheView(dumps: seq<(string, Value)> -> string, loads: string -> seq<(string, Value)>, r: Record)
    requires IsJson(dumps, loads) && '>' !in SourceOf(r)
    ensures Extract(BlockOf(dumps, r)).Some? && loads(Extract(BlockOf(dumps, r)).value) == View(r)
  {
    UnwrapIsInverse(SourceOf(r), dumps(View(r)));
  }

  /** Two records produce the same block exactly when they agree on the allowlisted view; no
      other column can reach the prompt or force a fresh explanation. */
  lemma SameBlockIffSameView(dumps: seq<(string, Value)> -> string, loads: string -> seq<(string, Value)>, r: Record,
                             r': Record)
    requires IsJson(dumps, loads) && '>' !in SourceOf(r) && '>' !in SourceOf(r')
    ensures BlockOf(dumps, r) == BlockOf(dumps, r') <==> View(r) == View(r')
  {
    HashInputIsTheView(dumps, loads, r);
    HashInputIsTheView(dumps, loads, r');
    if View(r) == View(r') {
      ViewDecidesSource(r, r');
    }
  }

  lemma AgreeingRecordsSameView(r: Record, r': Record)
    requires forall i :: 0 <= i < |VULN_FIELDS| ==> GetField(r, VULN_FIELDS[i].0) == GetField(r', VULN_FIELDS[i].0)
    ensures View(r) == View(r') && SourceOf(r) == SourceOf(r')
  {
    assert VULN_FIELDS[8] == ("source", AsIs);
  }

  /** Truncation merges two texts exactly when both are over the budget with the same first 4000 characters. */
  lemma TruncationMergesExactly(s: string, t: string)
    ensures TruncateText(s) == TruncateText(t) <==>
              s == t || (|s| > MAX_FIELD_CHARS && |t| > MAX_FIELD_CHARS && s[..MAX_FIELD_CHARS] == t[..MAX_FIELD_CHARS])
  {
    if |s| > MAX_FIELD_CHARS && |t| > MAX_FIELD_CHARS {
      assert TruncateText(s)[..MAX_FIELD_CHARS] == s[..MAX_FIELD_CHARS];
      assert TruncateText(t)[..MAX_FIELD_CHARS] == t[..MAX_FIELD_CHARS];
    }
  }
}

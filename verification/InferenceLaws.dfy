/** What inference reads off an asset's columns, stated on the texts themselves. */
module InferenceLaws {
  import opened Common
  import opened ExposureModel
  import opened ExposureAsset
  import opened ExposureCatalog
  import opened ExposureWorld

  // ---- Texts up to letter case and surrounding blanks ----

  /** `s` is `word`, which is in lower case, in any letter case. */
  ghost predicate AnyCase(s: string, word: string) {
    && |s| == |word|
    && forall i :: 0 <= i < |word| ==> s[i] == word[i] || ('a' <= word[i] <= 'z' && s[i] == word[i] - 'a' + 'A')
  }

  ghost predicate Blank(c: char) {
    c in {' ', '\t', '\n', '\r'}
  }

  ghost predicate PaddedAt(s: string, word: string, i: int, j: int) {
    && 0 <= i <= j <= |s| && AnyCase(s[i..j], word)
    && (forall k :: 0 <= k < i || j <= k < |s| ==> Blank(s[k]))
  }

  /** `s` is `word` in any letter case, with any blanks around it. */
  ghost predicate Padded(s: string, word: string) {
    exists i, j :: PaddedAt(s, word, i, j)
  }

  ghost predicate MentionsAt(s: string, word: string, i: int) {
    0 <= i <= |s| - |word| && AnyCase(s[i..i + |word|], word)
  }

  /** `word` stands somewhere inside `s`, in any letter case. */
  ghost predicate Mentions(s: string, word: string) {
    exists i :: MentionsAt(s, word, i)
  }

  /** A non-empty text in lower case with no blank at either end. */
  ghost predicate IsWord(word: string) {
    && word != "" && !Blank(word[0]) && !Blank(word[|word| - 1])
    && forall i :: 0 <= i < |word| ==> !('A' <= word[i] <= 'Z')
  }

  lemma LowerIsAnyCase(s: string, word: string)
    requires forall i :: 0 <= i < |word| ==> !('A' <= word[i] <= 'Z')
    ensures Lower(s) == word <==> AnyCase(s, word)
  {
    if AnyCase(s, word) {
      assert forall i :: 0 <= i < |word| ==> LowerChar(s[i]) == word[i];
    } else if |s| == |word| {
      var i :| 0 <= i < |word| && !(s[i] == word[i] || ('a' <= word[i] <= 'z' && s[i] == word[i] - 'a' + 'A'));
      assert Lower(s)[i] == LowerChar(s[i]) != word[i];
    }
  }

  /** Stripping cuts away blanks only, and all of them at the two ends. */
  lemma {:induction false} StripCuts(s: string) returns (i: nat, j: nat)
    ensures i <= j <= |s| && Strip(s) == s[i..j]
    ensures forall k :: 0 <= k < i || j <= k < |s| ==> Blank(s[k])
    ensures i < j ==> !Blank(s[i]) && !Blank(s[j - 1])
    decreases |s|
  {
    if s != "" && IsSpace(s[0]) {
      i, j := StripCuts(s[1..]);
      i, j := i + 1, j + 1;
    } else if s != "" && IsSpace(s[|s| - 1]) {
      i, j := StripCuts(s[..|s| - 1]);
    } else {
      i, j := 0, |s|;
    }
  }

  lemma StripIsPadded(s: string, word: string)
    requires IsWord(word)
    ensures Lower(Strip(s)) == word <==> Padded(s, word)
  {
    var i, j := StripCuts(s);
    LowerIsAnyCase(Strip(s), word);
    if AnyCase(Strip(s), word) {
      assert PaddedAt(s, word, i, j);
    }
    if Padded(s, word) {
      var i', j' :| PaddedAt(s, word, i', j');
      assert s[i'..j'][0] == s[i'] && s[i'..j'][|word| - 1] == s[j' - 1];
      assert !Blank(s[i']) && !Blank(s[j' - 1]);
      assert i <= i' && j' <= j;
      assert i == i' && j == j';
    }
  }

  lemma SubstringAt(s: string, word: string, i: nat)
    requires IsWord(word) && i + |word| <= |s|
    ensures word <= Lower(s)[i..] <==> MentionsAt(s, word, i)
  {
    var low, part := Lower(s), s[i..i + |word|];
    LowerIsAnyCase(part, word);
    assert low[i..][..|word|] == low[i..i + |word|];
    assert Lower(part) == low[i..i + |word|];
  }

  lemma ContainsIsMentions(s: string, word: string)
    requires IsWord(word)
    ensures Contains(Lower(s), word) <==> Mentions(s, word)
  {
    forall i: nat | i + |word| <= |s| ensures word <= Lower(s)[i..] <==> MentionsAt(s, word, i) {
      SubstringAt(s, word, i);
    }
    if Contains(Lower(s), word) {
      var i :| 0 <= i <= |Lower(s)| - |word| && word <= Lower(s)[i..];
      assert MentionsAt(s, word, i);
    }
    if Mentions(s, word) {
      var i :| MentionsAt(s, word, i);
      assert word <= Lower(s)[i..];
    }
  }

  // ---- Signals ----

  ghost predicate Tagged(i: Inputs, word: string) {
    exists k :: 0 <= k < |i.tags| && AnyCase(i.tags[k], word)
  }

  ghost predicate Department(i: Inputs, word: string) {
    i.department.Some? && Padded(i.department.value, word)
  }

  ghost predicate Titled(i: Inputs, word: string) {
    i.jobTitle.Some? && Mentions(i.jobTitle.value, word)
  }

  lemma TaggedIs(i: Inputs, wanted: set<string>)
    requires forall w :: w in wanted ==> IsWord(w)
    ensures HasTag(i.tags, wanted) <==> exists w :: w in wanted && Tagged(i, w)
  {
    if HasTag(i.tags, wanted) {
      var t :| t in i.tags && Lower(t) in wanted;
      var k :| 0 <= k < |i.tags| && i.tags[k] == t;
      LowerIsAnyCase(t, Lower(t));
      assert Tagged(i, Lower(t));
    }
    if w :| w in wanted && Tagged(i, w) {
      var k :| 0 <= k < |i.tags| && AnyCase(i.tags[k], w);
      LowerIsAnyCase(i.tags[k], w);
      assert i.tags[k] in i.tags && Lower(i.tags[k]) in wanted;
    }
  }

  lemma DepartmentIs(i: Inputs, word: string)
    requires IsWord(word)
    ensures Lower(Strip(i.department.GetOr(""))) == word <==> Department(i, word)
  {
    StripIsPadded(i.department.GetOr(""), word);
    if i.department.None? {
      assert Strip("") == "" && Lower("") == "";
    }
  }

  lemma DepartmentIn(i: Inputs, wanted: set<string>)
    requires forall w :: w in wanted ==> IsWord(w)
    ensures Lower(Strip(i.department.GetOr(""))) in wanted <==> exists w :: w in wanted && Department(i, w)
  {
    forall w | w in wanted ensures Lower(Strip(i.department.GetOr(""))) == w <==> Department(i, w) {
      DepartmentIs(i, w);
    }
  }

  lemma TitledIs(i: Inputs, words: seq<string>)
    requires forall k :: 0 <= k < |words| ==> IsWord(words[k])
    ensures ContainsAny(Lower(i.jobTitle.GetOr("")), words) <==> exists k :: 0 <= k < |words| && Titled(i, words[k])
  {
    var title := i.jobTitle.GetOr("");
    forall k | 0 <= k < |words| ensures Contains(Lower(title), words[k]) <==> Titled(i, words[k]) {
      ContainsIsMentions(title, words[k]);
    }
    if ContainsAny(Lower(title), words) {
      var p :| p in words && Contains(Lower(title), p);
      var k :| 0 <= k < |words| && words[k] == p;
    }
    if k :| 0 <= k < |words| && Titled(i, words[k]) {
      assert words[k] in words && Contains(Lower(title), words[k]);
    }
  }

  ghost predicate CriticalTag(i: Inputs) {
    Tagged(i, "pci") || Tagged(i, "tier-1")
  }

  ghost predicate CriticalDepartment(i: Inputs) {
    Department(i, "finance") || Department(i, "legal") || Department(i, "security") || Department(i, "executive")
  }

  ghost predicate CriticalTitle(i: Inputs) {
    || Titled(i, "ceo") || Titled(i, "cto") || Titled(i, "ciso") || Titled(i, "cfo") || Titled(i, "coo")
    || Titled(i, "chief")
  }

  ghost predicate CriticalSignal(i: Inputs) {
    CriticalTag(i) || CriticalDepartment(i) || CriticalTitle(i)
  }

  ghost predicate HighDepartment(i: Inputs) {
    Department(i, "hr") || Department(i, "human resources") || Department(i, "it") || Department(i, "engineering")
  }

  ghost predicate HighTitle(i: Inputs) {
    Titled(i, "vp") || Titled(i, "vice president") || Titled(i, "director") || Titled(i, "head of")
  }

  ghost predicate HighSignal(i: Inputs) {
    HighDepartment(i) || HighTitle(i)
  }

  ghost predicate LowSignal(i: Inputs) {
    || Department(i, "dev") || Department(i, "development") || Department(i, "qa") || Department(i, "test")
    || Department(i, "sandbox")
  }

  lemma CriticalTagIs(i: Inputs)
    ensures CriticalTag(i) <==> HasTag(i.tags, CRITICAL_TAGS)
  {
    TaggedIs(i, CRITICAL_TAGS);
  }

  lemma CriticalDepartmentIs(i: Inputs)
    ensures CriticalDepartment(i) <==> Lower(Strip(i.department.GetOr(""))) in CRITICAL_DEPARTMENTS
  {
    DepartmentIn(i, CRITICAL_DEPARTMENTS);
  }

  lemma CriticalTitleIs(i: Inputs)
    ensures CriticalTitle(i) <==> ContainsAny(Lower(i.jobTitle.GetOr("")), CRITICAL_TITLES)
  {
    TitledIs(i, CRITICAL_TITLES);
    var t := CRITICAL_TITLES;
    assert t[0] == "ceo" && t[1] == "cto" && t[2] == "ciso" && t[3] == "cfo" && t[4] == "coo" && t[5] == "chief";
  }

  lemma HighDepartmentIs(i: Inputs)
    ensures HighDepartment(i) <==> Lower(Strip(i.department.GetOr(""))) in HIGH_DEPARTMENTS
  {
    DepartmentIn(i, HIGH_DEPARTMENTS);
  }

  lemma HighTitleIs(i: Inputs)
    ensures HighTitle(i) <==> ContainsAny(Lower(i.jobTitle.GetOr("")), HIGH_TITLES)
  {
    TitledIs(i, HIGH_TITLES);
    var t := HIGH_TITLES;
    assert t[0] == "vp" && t[1] == "vice president" && t[2] == "director" && t[3] == "head of";
  }

  lemma LowSignalIs(i: Inputs)
    ensures LowSignal(i) <==> Lower(Strip(i.department.GetOr(""))) in LOW_DEPARTMENTS
  {
    DepartmentIn(i, LOW_DEPARTMENTS);
  }

  // ---- The laws ----

  /** Criticality, in the order of its signals: a critical one decides whatever else holds. */
  lemma CriticalityLaw(i: Inputs)
    ensures Infer(i, BusinessCriticality)
         == Text(if CriticalSignal(i) then "CRITICAL" else if HighSignal(i) then "HIGH"
                 else if LowSignal(i) then "LOW" else "MEDIUM")
  {
    CriticalTagIs(i);
    CriticalDepartmentIs(i);
    CriticalTitleIs(i);
    HighDepartmentIs(i);
    HighTitleIs(i);
    LowSignalIs(i);
  }

  ghost predicate RestrictedSignal(i: Inputs) {
    Tagged(i, "pii") || Tagged(i, "phi") || Tagged(i, "restricted")
  }

  ghost predicate ConfidentialSignal(i: Inputs) {
    Tagged(i, "pci") || Tagged(i, "confidential") || Department(i, "finance") || Department(i, "legal")
  }

  ghost predicate PublicSignal(i: Inputs) {
    Tagged(i, "public") || Tagged(i, "www") || Department(i, "marketing")
  }

  lemma RestrictedSignalIs(i: Inputs)
    ensures RestrictedSignal(i) <==> HasTag(i.tags, RESTRICTED_TAGS)
  {
    TaggedIs(i, RESTRICTED_TAGS);
  }

  lemma ConfidentialSignalIs(i: Inputs)
    ensures ConfidentialSignal(i) <==>
              HasTag(i.tags, CONFIDENTIAL_TAGS) || Lower(Strip(i.department.GetOr(""))) in CONFIDENTIAL_DEPARTMENTS
  {
    TaggedIs(i, CONFIDENTIAL_TAGS);
    DepartmentIn(i, CONFIDENTIAL_DEPARTMENTS);
  }

  lemma PublicSignalIs(i: Inputs)
    ensures PublicSignal(i) <==>
              HasTag(i.tags, PUBLIC_TAGS) || Lower(Strip(i.department.GetOr(""))) in PUBLIC_DEPARTMENTS
  {
    TaggedIs(i, PUBLIC_TAGS);
    DepartmentIn(i, PUBLIC_DEPARTMENTS);
  }

  /** Sensitivity, in its own order. */
  lemma SensitivityLaw(i: Inputs)
    ensures Infer(i, DataSensitivity)
         == Text(if RestrictedSignal(i) then "RESTRICTED" else if ConfidentialSignal(i) then "CONFIDENTIAL"
                 else if PublicSignal(i) then "PUBLIC" else "INTERNAL")
  {
    RestrictedSignalIs(i);
    ConfidentialSignalIs(i);
    PublicSignalIs(i);
  }

  /** A connector's own signal decides alone; without one the tag or any external address does. */
  lemma FacingLaw(i: Inputs)
    ensures Infer(i, InternetFacing)
         == Flag(if i.detected.Some? then i.detected == Some(true)
                 else Tagged(i, "internet-facing") || i.externalIp.Some?)
  {
    TaggedIs(i, {"internet-facing"});
  }

  /** What may be submitted as an override, and what it becomes. */
  lemma OverrideLaw(raw: string)
    ensures ValidOverride(InternetFacing, raw) <==> Padded(raw, "true") || Padded(raw, "false")
    ensures Cast(InternetFacing, raw) == Flag(Padded(raw, "true"))
    ensures ValidOverride(BusinessCriticality, raw)
         <==> raw == "LOW" || raw == "MEDIUM" || raw == "HIGH" || raw == "CRITICAL"
    ensures ValidOverride(DataSensitivity, raw) <==>
              raw == "PUBLIC" || raw == "INTERNAL" || raw == "CONFIDENTIAL" || raw == "RESTRICTED"
    ensures Cast(BusinessCriticality, raw) == Cast(DataSensitivity, raw) == Text(raw)
  {
    StripIsPadded(raw, "true");
    StripIsPadded(raw, "false");
  }

  /** After a connector sync every field still on AUTO shows what the new columns say. */
  lemma SyncedFieldsFollowTheLaws(w: World, t: TenantId, a: AssetId, i: Inputs)
    requires a in w.assets ==> w.assets[a].tenant == t
    ensures a in SyncWorld(w, t, a, i).assets
    ensures var s := SyncWorld(w, t, a, i).assets[a].slots;
            && (s.criticality.source == Auto ==>
                  s.criticality.value == Text(if CriticalSignal(i) then "CRITICAL" else if HighSignal(i) then "HIGH"
                                              else if LowSignal(i) then "LOW" else "MEDIUM"))
            && (s.sensitivity.source == Auto ==>
                  s.sensitivity.value == Text(if RestrictedSignal(i) then "RESTRICTED"
                                              else if ConfidentialSignal(i) then "CONFIDENTIAL"
                                              else if PublicSignal(i) then "PUBLIC" else "INTERNAL"))
            && (s.facing.source == Auto ==>
                  s.facing.value == Flag(if i.detected.Some? then i.detected == Some(true)
                                         else Tagged(i, "internet-facing") || i.externalIp.Some?))
            && (a !in w.assets ==> s.criticality.source == s.sensitivity.source == s.facing.source == Auto)
  {
    CriticalityLaw(i);
    SensitivityLaw(i);
    FacingLaw(i);
  }
}

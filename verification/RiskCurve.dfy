/** The asset risk score: a weighted sum of open findings put through a piecewise curve. */
module RiskCurve {
  import opened Common
  import opened Powers

  const KNEE_RAW: nat := 120
  const KNEE_SCORE: nat := 45
  const MAX_RAW: nat := 1500
  const RISK_SCORE_TIER_CRITICAL: nat := 80

  /** The curve's value for `raw`, rounded half to even, is at least `n`. Both sides are exact:
      45 * (raw/120)^0.7 against n - 1/2 below the knee, and
      45 + 55 * ln(raw - 119) / ln(1381) against n - 1/2 above it. */
  predicate Reaches(raw: nat, n: nat) {
    if n == 0 then true
    else if raw == 0 then false
    else if raw <= KNEE_RAW then
      AtLeast(Pow(2 * KNEE_SCORE, 10) * Pow(raw, 7), Pow(2 * n - 1, 10) * Pow(KNEE_RAW, 7), n)
    else if 2 * n <= 2 * KNEE_SCORE then true
    else
      AtLeast(Pow(raw - KNEE_RAW + 1, 110), Pow(MAX_RAW - KNEE_RAW + 1, 2 * n - 2 * KNEE_SCORE - 1), n)
  }

  /** Above the rounding boundary, or on it when `n` is even. */
  predicate AtLeast(value: nat, boundary: nat, n: nat) {
    value > boundary || (value == boundary && n % 2 == 0)
  }

  function Highest(raw: nat, n: nat): nat {
    if n == 0 || Reaches(raw, n) then n else Highest(raw, n - 1)
  }

  /** _normalize_raw_score on the raw sums that occur: non-negative integers. */
  function Normalize(raw: nat): nat {
    Highest(raw, 100)
  }

  // ---- Order ----

  lemma LowerIsEasier(raw: nat, m: nat, n: nat)
    requires m <= n && Reaches(raw, n)
    ensures Reaches(raw, m)
  {
    if 0 < m < n {
      if raw <= KNEE_RAW {
        PowStrict(2 * m - 1, 2 * n - 1, 10);
        PowPositive(KNEE_RAW, 7);
        assert Pow(2 * m - 1, 10) * Pow(KNEE_RAW, 7) < Pow(2 * n - 1, 10) * Pow(KNEE_RAW, 7);
      } else if m > KNEE_SCORE {
        ExponentStrict(MAX_RAW - KNEE_RAW + 1, 2 * m - 2 * KNEE_SCORE - 1, 2 * n - 2 * KNEE_SCORE - 1);
      }
    }
  }

  lemma {:induction false} HighestIs(raw: nat, n: nat, m: nat)
    requires m <= n
    ensures Highest(raw, n) <= n
    ensures m <= Highest(raw, n) <==> Reaches(raw, m)
  {
    if n > 0 && !Reaches(raw, n) {
      if m < n {
        HighestIs(raw, n - 1, m);
      } else {
        HighestIs(raw, n - 1, 0);
      }
    } else if Reaches(raw, n) {
      LowerIsEasier(raw, m, n);
    }
  }

  /** At or below the knee the curve stays at or below 45. */
  lemma BelowTheKnee(raw: nat, n: nat)
    requires raw <= KNEE_RAW && n > KNEE_SCORE
    ensures !Reaches(raw, n)
  {
    if raw == 0 {
    } else {
      PowMonotone(raw, KNEE_RAW, 7);
      PowStrict(2 * KNEE_SCORE, 2 * n - 1, 10);
      PowPositive(KNEE_RAW, 7);
      var b := Pow(2 * KNEE_SCORE, 10);
      MulMonotone(b, b, Pow(raw, 7), Pow(KNEE_RAW, 7));
      assert b * Pow(KNEE_RAW, 7) < Pow(2 * n - 1, 10) * Pow(KNEE_RAW, 7);
    }
  }

  lemma MulStrict(c: nat, x: nat, y: nat)
    requires c > 0 && x < y
    ensures c * x < c * y
  {
  }

  lemma MoreRawReachesMoreBelow(raw: nat, raw': nat, n: nat)
    requires 0 < raw < raw' <= KNEE_RAW && n > 0 && Reaches(raw, n)
    ensures Reaches(raw', n)
  {
    PowStrict(raw, raw', 7);
    PowPositive(2 * KNEE_SCORE, 10);
    MulStrict(Pow(2 * KNEE_SCORE, 10), Pow(raw, 7), Pow(raw', 7));
  }

  lemma MoreRawReachesMore(raw: nat, raw': nat, n: nat)
    requires raw <= raw' && Reaches(raw, n)
    ensures Reaches(raw', n)
  {
    if n > 0 && raw < raw' {
      if raw' <= KNEE_RAW {
        MoreRawReachesMoreBelow(raw, raw', n);
      } else if n > KNEE_SCORE {
        if raw <= KNEE_RAW {
          BelowTheKnee(raw, n);
        }
        PowStrict(raw - KNEE_RAW + 1, raw' - KNEE_RAW + 1, 110);
      }
    }
  }

  /** The curve never falls, across the knee included. */
  lemma NormalizeIsMonotone(raw: nat, raw': nat)
    requires raw <= raw'
    ensures Normalize(raw) <= Normalize(raw') <= 100
  {
    var n := Normalize(raw);
    HighestIs(raw, 100, 0);
    HighestIs(raw, 100, n);
    MoreRawReachesMore(raw, raw', n);
    HighestIs(raw', 100, n);
    HighestIs(raw', 100, 0);
  }

  // ---- Landmarks ----

  /** The knee in both directions: exactly the raw sums up to 120 score 45 or less. */
  lemma KneeIsSharp(raw: nat)
    ensures Normalize(raw) <= 45 <==> raw <= 120
  {
    HighestIs(raw, 100, KNEE_SCORE + 1);
    if raw <= KNEE_RAW {
      BelowTheKnee(raw, KNEE_SCORE + 1);
    } else {
      PowMonotone(2, raw - KNEE_RAW + 1, 110);
      ExponentMonotone(2, 11, 110);
      assert Pow(2, 11) == 2048 by { PowAdd(2, 5, 6); assert Pow(2, 5) == 32; assert Pow(2, 6) == 64; }
      assert Pow(1381, 1) == 1381;
    }
  }

  /** From 1500 on the score is 100. */
  lemma SaturatesAtMax(raw: nat)
    requires raw >= 1500
    ensures Normalize(raw) == 100
  {
    ExponentStrict(1381, 109, 110);
    PowMonotone(1381, raw - KNEE_RAW + 1, 110);
    HighestIs(raw, 100, 100);
  }

  lemma SmallPowers()
    ensures Pow(121, 20) > Pow(1381, 13)
    ensures Pow(121, 10) > Pow(1381, 6)
  {
    assert Pow(121, 5) == 25937424601 by { assert Pow(121, 3) == 1771561; assert Pow(121, 4) == 214358881; }
    PowAdd(121, 5, 5);
    PowAdd(121, 10, 10);
    assert Pow(1381, 3) == 2633789341;
    PowAdd(1381, 3, 3);
    PowAdd(1381, 6, 6);
    assert Pow(1381, 13) == 1381 * Pow(1381, 12);
  }

  lemma PowersAt240()
    ensures Pow(121, 110) > Pow(1381, 71)
  {
    SmallPowers();
    PowPow(121, 20, 5);
    PowPow(1381, 13, 5);
    PowMonotone(Pow(1381, 13), Pow(121, 20), 5);
    PowAdd(121, 100, 10);
    PowAdd(1381, 65, 6);
    PowPositive(1381, 65);
    ProductsCompare(Pow(1381, 65), Pow(121, 100), Pow(1381, 6), Pow(121, 10));
  }

  lemma ProductsCompare(y: nat, x: nat, b: nat, a: nat)
    requires 0 < y <= x && b < a
    ensures y * b < x * a
  {
    MulMonotone(y, x, a, a);
    assert y * b < y * a;
  }

  /** One exploitable KEV critical alone is worth 240, and 240 already scores 81. */
  lemma At240(raw: nat)
    requires raw >= 240
    ensures Normalize(raw) >= 81
  {
    PowersAt240();
    PowMonotone(121, raw - KNEE_RAW + 1, 110);
    HighestIs(raw, 100, 81);
  }

  // ---- Findings ----

  datatype Severity = Critical | High | Medium | Low | Info

  datatype Finding = Finding(tenant: int, asset: Option<int>, severity: Severity, exploit: bool, kev: bool, open: bool)

  function SeverityWeight(s: Severity): nat {
    match s
    case Critical => 40
    case High => 20
    case Medium => 5
    case Low => 1
    case Info => 0
  }

  function Weight(f: Finding): nat {
    SeverityWeight(f.severity) * (if f.exploit then 2 else 1) * (if f.kev then 3 else 1)
  }

  /** What one finding adds to the raw sum of asset `a`. */
  function Contribution(f: Finding, tenant: int, a: int): nat {
    if f.tenant == tenant && f.open && f.asset == Some(a) then Weight(f) else 0
  }

  function RawScore(findings: seq<Finding>, tenant: int, a: int): nat {
    if findings == [] then 0
    else RawScore(findings[..|findings| - 1], tenant, a) + Contribution(findings[|findings| - 1], tenant, a)
  }

  function Score(findings: seq<Finding>, tenant: int, a: int): nat {
    Normalize(RawScore(findings, tenant, a))
  }

  lemma {:induction false} RawScoreIsPointwise(findings: seq<Finding>, findings': seq<Finding>, tenant: int, a: int)
    requires |findings| == |findings'|
    requires forall i :: 0 <= i < |findings| ==>
               Contribution(findings[i], tenant, a) <= Contribution(findings'[i], tenant, a)
    ensures RawScore(findings, tenant, a) <= RawScore(findings', tenant, a)
  {
    if findings == [] {
    } else {
      RawScoreIsPointwise(findings[..|findings| - 1], findings'[..|findings| - 1], tenant, a);
    }
  }

  lemma AddingAFindingNeverLowers(findings: seq<Finding>, f: Finding, tenant: int, a: int)
    ensures Score(findings + [f], tenant, a) >= Score(findings, tenant, a)
  {
    assert (findings + [f])[..|findings|] == findings;
    NormalizeIsMonotone(RawScore(findings, tenant, a), RawScore(findings + [f], tenant, a));
  }

  // ---- The raw sum over whole tables ----

  /** The open findings of the asset with the given severity and flags. */
  function Count(findings: seq<Finding>, tenant: int, a: int, s: Severity, exploit: bool, kev: bool): nat {
    if findings == [] then 0
    else
      var last := findings[|findings| - 1];
      Count(findings[..|findings| - 1], tenant, a, s, exploit, kev)
      + (if last == Finding(tenant, Some(a), s, exploit, kev, true) then 1 else 0)
  }

  /** They weigh twice with an exploit, three times if known exploited, six times with both. */
  function Weighed(findings: seq<Finding>, tenant: int, a: int, s: Severity): nat {
    Count(findings, tenant, a, s, false, false) + 2 * Count(findings, tenant, a, s, true, false)
    + 3 * Count(findings, tenant, a, s, false, true) + 6 * Count(findings, tenant, a, s, true, true)
  }

  lemma WeighedNext(front: seq<Finding>, last: Finding, tenant: int, a: int, s: Severity)
    ensures Weighed(front + [last], tenant, a, s) == Weighed(front, tenant, a, s) + Share(last, tenant, a, s)
  {
    assert (front + [last])[..|front|] == front;
  }

  /** What one finding adds to its severity's weight. */
  function Share(f: Finding, tenant: int, a: int, s: Severity): nat {
    if f.tenant != tenant || !f.open || f.asset != Some(a) || f.severity != s then 0
    else if f.exploit && f.kev then 6
    else if f.kev then 3
    else if f.exploit then 2
    else 1
  }

  /** For any table: 40 for every open CRITICAL finding of the asset, 20 for HIGH, 5 for MEDIUM, 1 for
      LOW and nothing for INFO, each multiplied for its flags; no other finding counts. */
  lemma {:induction false} RawScoreIs(findings: seq<Finding>, tenant: int, a: int)
    ensures RawScore(findings, tenant, a)
         == 40 * Weighed(findings, tenant, a, Critical) + 20 * Weighed(findings, tenant, a, High)
            + 5 * Weighed(findings, tenant, a, Medium) + Weighed(findings, tenant, a, Low)
  {
    if findings == [] {
    } else {
      var front, last := findings[..|findings| - 1], findings[|findings| - 1];
      RawScoreIs(front, tenant, a);
      assert findings == front + [last];
      WeighedNext(front, last, tenant, a, Critical);
      WeighedNext(front, last, tenant, a, High);
      WeighedNext(front, last, tenant, a, Medium);
      WeighedNext(front, last, tenant, a, Low);
      ContributionIs(last, tenant, a);
    }
  }

  lemma ContributionIs(f: Finding, tenant: int, a: int)
    ensures Contribution(f, tenant, a)
         == 40 * Share(f, tenant, a, Critical) + 20 * Share(f, tenant, a, High) + 5 * Share(f, tenant, a, Medium)
            + Share(f, tenant, a, Low)
  {
    match f.severity
    case Critical =>
    case High =>
    case Medium =>
    case Low =>
    case Info =>
  }

  /** CRITICAL, HIGH, MEDIUM, LOW, INFO, the most severe first. */
  const SEVERITIES := [Critical, High, Medium, Low, Info]

  ghost predicate NotMilder(s: Severity, t: Severity) {
    exists i, j :: 0 <= i <= j < |SEVERITIES| && SEVERITIES[i] == s && SEVERITIES[j] == t
  }

  ghost predicate AtLeastAsSevere(f': Finding, f: Finding) {
    && f'.tenant == f.tenant && f'.asset == f.asset && (f.open ==> f'.open)
    && NotMilder(f'.severity, f.severity)
    && (f.exploit ==> f'.exploit) && (f.kev ==> f'.kev)
  }

  lemma SeverityOrder(s: Severity, t: Severity)
    requires NotMilder(s, t)
    ensures SeverityWeight(s) >= SeverityWeight(t)
  {
    var i, j :| 0 <= i <= j < |SEVERITIES| && SEVERITIES[i] == s && SEVERITIES[j] == t;
    assert SEVERITIES[0] == Critical && SEVERITIES[1] == High && SEVERITIES[2] == Medium;
    assert SEVERITIES[3] == Low && SEVERITIES[4] == Info;
  }

  /** Raising a severity, setting exploit or KEV, or reopening never lowers any asset's score;
      read backwards, closing a finding or clearing a flag never raises one. */
  lemma WorseFindingNeverLowers(findings: seq<Finding>, i: nat, f': Finding, tenant: int, a: int)
    requires i < |findings| && AtLeastAsSevere(f', findings[i])
    ensures Score(findings[i := f'], tenant, a) >= Score(findings, tenant, a)
  {
    var f := findings[i];
    var w, w' := SeverityWeight(f.severity), SeverityWeight(f'.severity);
    SeverityOrder(f'.severity, f.severity);
    assert Weight(f) <= Weight(f') by {
      MulMonotone(w, w', if f.exploit then 2 else 1, if f'.exploit then 2 else 1);
      MulMonotone(w * (if f.exploit then 2 else 1), w' * (if f'.exploit then 2 else 1),
                  if f.kev then 3 else 1, if f'.kev then 3 else 1);
    }
    RawScoreIsPointwise(findings, findings[i := f'], tenant, a);
    NormalizeIsMonotone(RawScore(findings, tenant, a), RawScore(findings[i := f'], tenant, a));
  }

  lemma {:induction false} RawScoreCoversEach(findings: seq<Finding>, i: nat, tenant: int, a: int)
    requires i < |findings|
    ensures RawScore(findings, tenant, a) >= Contribution(findings[i], tenant, a)
  {
    if i < |findings| - 1 {
      RawScoreCoversEach(findings[..|findings| - 1], i, tenant, a);
    }
  }

  /** Any asset with an open, exploitable, known-exploited critical finding is in the critical tier. */
  lemma ExploitedCriticalIsCritical(findings: seq<Finding>, i: nat, tenant: int, a: int)
    requires i < |findings|
    requires findings[i] == Finding(tenant, Some(a), Critical, true, true, true)
    ensures Score(findings, tenant, a) >= 81 > RISK_SCORE_TIER_CRITICAL
  {
    RawScoreCoversEach(findings, i, tenant, a);
    At240(RawScore(findings, tenant, a));
  }

  /** Low-severity volume alone: the score stays within 45 for up to 120 plain LOW findings and no further. */
  lemma {:induction false} LowVolume(n: nat, tenant: int, a: int)
    ensures var findings := seq(n, _ => Finding(tenant, Some(a), Low, false, false, true));
            RawScore(findings, tenant, a) == n && (Score(findings, tenant, a) <= 45 <==> n <= 120)
  {
    var findings := seq(n, _ => Finding(tenant, Some(a), Low, false, false, true));
    if n == 0 {
    } else {
      LowVolume(n - 1, tenant, a);
      assert findings[..n - 1] == seq(n - 1, _ => Finding(tenant, Some(a), Low, false, false, true));
    }
    KneeIsSharp(n);
  }

  /** The stored scores, rewritten one asset at a time. */
  class RiskTable {
    var tenantOf: map<int, int>
    var riskScore: map<int, nat>

    /** `order` is the tenant's assets as the query returned them. */
    method ComputeRiskScores(tenant: int, findings: seq<Finding>, order: seq<int>) returns (updated: nat)
      requires NoDuplicates(order)
      requires forall i :: 0 <= i < |order| ==> order[i] in tenantOf && tenantOf[order[i]] == tenant
      requires forall a :: a in tenantOf && tenantOf[a] == tenant ==> a in order
      modifies this`riskScore
      ensures updated == |order|
      ensures forall a :: a in tenantOf && tenantOf[a] == tenant ==>
                a in riskScore && riskScore[a] == Score(findings, tenant, a)
      ensures forall a :: !(a in tenantOf && tenantOf[a] == tenant) ==>
                (a in riskScore <==> a in old(riskScore)) && (a in riskScore ==> riskScore[a] == old(riskScore)[a])
    {
      updated := 0;
      for i := 0 to |order|
        invariant updated == i
        invariant forall j :: 0 <= j < i ==>
                    order[j] in riskScore && riskScore[order[j]] == Score(findings, tenant, order[j])
        invariant forall a :: !(a in tenantOf && tenantOf[a] == tenant) ==>
                    (a in riskScore <==> a in old(riskScore)) && (a in riskScore ==> riskScore[a] == old(riskScore)[a])
      {
        var a := order[i];
        var raw := RawScore(findings, tenant, a);
        riskScore := riskScore[a := Normalize(raw)];
        updated := updated + 1;
      }
    }
  }
}

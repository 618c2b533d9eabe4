/** Token prices, the pre-submission estimate of a batch, and the monthly budget. Money is in
    micro-dollars: tokens times dollars per million tokens. */
module BatchCost {
  import opened Common

  const MAX_TOKENS: nat := 1024

  datatype Rates = Rates(input: real, output: real)

  function RatesOf(model: string): (r: Rates)
    ensures r.input >= 0.0 && r.output >= 0.0
  {
    if model == "claude-sonnet-5" then Rates(3.0, 15.0)
    else if model == "claude-opus-5" then Rates(5.0, 25.0)
    else if model == "claude-haiku-4-5" then Rates(0.8, 4.0)
    else Rates(3.0, 15.0)
  }

  /** Python's round(x, 6) on dollars: to whole micro-dollars, ties to even. */
  function RoundHalfEven(x: real): (n: int)
    ensures x - 0.5 <= n as real <= x + 0.5
    ensures n as real == x - 0.5 || n as real == x + 0.5 ==> n % 2 == 0
  {
    var f := x.Floor;
    if x - f as real < 0.5 then f
    else if x - f as real > 0.5 then f + 1
    else if f % 2 == 0 then f else f + 1
  }

  function ExactCost(r: Rates, input: nat, output: nat): real {
    input as real * r.input + output as real * r.output
  }

  /** The cost of one interactive call. */
  function EstimateCost(model: string, input: nat, output: nat): int {
    RoundHalfEven(ExactCost(RatesOf(model), input, output))
  }

  function Total(counts: seq<nat>): nat {
    if counts == [] then 0 else Total(counts[..|counts| - 1]) + counts[|counts| - 1]
  }

  /** Half price for counted inputs plus worst-case outputs. */
  function BatchEstimate(model: string, counted: seq<nat>): int {
    RoundHalfEven(ExactCost(RatesOf(model), Total(counted), |counted| * MAX_TOKENS) * 0.5)
  }

  /** `counted` is what the provider's token counter answers for each request. */
  method EstimateBatchCost(model: string, counted: seq<nat>) returns (estimate: int)
    ensures estimate == BatchEstimate(model, counted)
  {
    var rates := RatesOf(model);
    var totalInput := 0;
    for i := 0 to |counted|
      invariant totalInput == Total(counted[..i])
    {
      assert counted[..i + 1][..i] == counted[..i];
      totalInput := totalInput + counted[i];
    }
    assert counted[..|counted|] == counted;
    var worstOutput := |counted| * MAX_TOKENS;
    estimate := RoundHalfEven(ExactCost(rates, totalInput, worstOutput) * 0.5);
  }

  // ---- The prices themselves ----

  /** `n` is `x` rounded to a whole micro-dollar. */
  ghost predicate Near(n: int, x: real) {
    x - 0.5 <= n as real <= x + 0.5
  }

  lemma WholeStaysWhole(n: int)
    ensures RoundHalfEven(n as real) == n
  {
  }

  /** Whole dollar rates give whole micro-dollars: 3 a token in and 15 out for Sonnet and for every
      model not listed, 5 and 25 for Opus. Haiku's 0.80 and 4 are rounded. */
  lemma Prices(model: string, input: nat, output: nat)
    ensures model == "claude-opus-5" ==> EstimateCost(model, input, output) == 5 * input + 25 * output
    ensures model == "claude-haiku-4-5" ==>
              Near(EstimateCost(model, input, output), 0.8 * input as real + 4.0 * output as real)
    ensures model != "claude-opus-5" && model != "claude-haiku-4-5" ==>
              EstimateCost(model, input, output) == 3 * input + 15 * output
  {
    WholeStaysWhole(5 * input + 25 * output);
    WholeStaysWhole(3 * input + 15 * output);
    assert input as real * 5.0 + output as real * 25.0 == (5 * input + 25 * output) as real;
    assert input as real * 3.0 + output as real * 15.0 == (3 * input + 15 * output) as real;
  }

  /** The estimate, from both sides: half of what the counted inputs and 1024 outputs a request cost. */
  lemma EstimateIs(model: string, counted: seq<nat>)
    ensures var input, output := Total(counted) as real, (1024 * |counted|) as real;
            && (model == "claude-opus-5" ==> Near(BatchEstimate(model, counted), (5.0 * input + 25.0 * output) / 2.0))
            && (model == "claude-haiku-4-5" ==> Near(BatchEstimate(model, counted), (0.8 * input + 4.0 * output) / 2.0))
            && (model != "claude-opus-5" && model != "claude-haiku-4-5" ==>
                  Near(BatchEstimate(model, counted), (3.0 * input + 15.0 * output) / 2.0))
  {
  }

  lemma TotalAdds(counted: seq<nat>, n: nat)
    ensures Total([]) == 0 && Total(counted + [n]) == Total(counted) + n
  {
    assert (counted + [n])[..|counted|] == counted;
  }

  /** An accepted answer costs something unless it used no token at all. */
  lemma PricesArePositive(model: string, input: nat, output: nat)
    ensures EstimateCost(model, input, output) >= 0
    ensures output > 0 || input > 1 || (input > 0 && model != "claude-haiku-4-5") ==>
              EstimateCost(model, input, output) > 0
  {
    Prices(model, input, output);
    if model == "claude-haiku-4-5" && (output > 0 || input > 1) {
      assert 0.8 * input as real + 4.0 * output as real > 0.5;
    }
  }

  // ---- What a batch is finally audited at ----

  /** What came back for one custom id. */
  datatype Result = Result(id: string, ok: bool, input: nat, output: nat)

  /** The audited cost of one item: half price, and nothing unless it was accepted. */
  function ItemCost(model: string, r: Result): real {
    if r.ok then EstimateCost(model, r.input, r.output) as real * 0.5 else 0.0
  }

  function AuditedCost(model: string, results: seq<Result>): real {
    if results == [] then 0.0
    else AuditedCost(model, results[..|results| - 1]) + ItemCost(model, results[|results| - 1])
  }

  ghost predicate AnswersRequest(r: Result, ids: seq<string>, counted: seq<nat>, k: int)
    requires |ids| == |counted|
  {
    0 <= k < |ids| && ids[k] == r.id && r.input <= counted[k] && r.output <= MAX_TOKENS
  }

  /** The results answer requests by id, each at most once, in whatever order they come and
      possibly not all of them; no input is larger than counted, no output above the ceiling. */
  ghost predicate WithinCounts(results: seq<Result>, ids: seq<string>, counted: seq<nat>) {
    && |ids| == |counted|
    && (forall i, j :: 0 <= i < j < |results| ==> results[i].id != results[j].id)
    && (forall i :: 0 <= i < |results| ==> Answers(results[i], ids, counted))
  }

  ghost predicate Answers(r: Result, ids: seq<string>, counted: seq<nat>)
    requires |ids| == |counted|
  {
    exists k :: AnswersRequest(r, ids, counted, k)
  }

  lemma CostMonotone(r: Rates, input: nat, output: nat, input': nat, output': nat)
    requires r.input >= 0.0 && r.output >= 0.0
    requires input <= input' && output <= output'
    ensures 0.0 <= ExactCost(r, input, output) <= ExactCost(r, input', output')
  {
    assert (input' - input) as real * r.input >= 0.0;
    assert (output' - output) as real * r.output >= 0.0;
    assert input as real * r.input >= 0.0 && output as real * r.output >= 0.0;
  }

  lemma CostAdds(r: Rates, a: nat, b: nat, n: nat)
    ensures ExactCost(r, a + b, (n + 1) * MAX_TOKENS) == ExactCost(r, a, n * MAX_TOKENS) + ExactCost(r, b, MAX_TOKENS)
  {
    assert (a + b) as real * r.input == a as real * r.input + b as real * r.input;
    assert ((n + 1) * MAX_TOKENS) as real == (n * MAX_TOKENS) as real + MAX_TOKENS as real;
    assert ((n * MAX_TOKENS) as real + MAX_TOKENS as real) * r.output
        == (n * MAX_TOKENS) as real * r.output + MAX_TOKENS as real * r.output;
  }

  function Without<T>(s: seq<T>, at: nat): seq<T>
    requires at < |s|
  {
    s[..at] + s[at + 1..]
  }

  /** The order of the results does not matter: any one of them can be accounted for last. */
  lemma {:induction false} AnyResultLast(model: string, results: seq<Result>, at: nat)
    requires at < |results|
    ensures AuditedCost(model, results) == AuditedCost(model, Without(results, at)) + ItemCost(model, results[at])
  {
    var front, last := results[..|results| - 1], results[|results| - 1];
    if at == |results| - 1 {
      assert Without(results, at) == front;
    } else {
      AnyResultLast(model, front, at);
      var rest := Without(results, at);
      assert rest[..|rest| - 1] == Without(front, at) && rest[|rest| - 1] == last;
    }
  }

  lemma AnswersEarlier(r: Result, ids: seq<string>, counted: seq<nat>)
    requires |ids| == |counted| && ids != [] && Answers(r, ids, counted) && r.id != ids[|ids| - 1]
    ensures Answers(r, ids[..|ids| - 1], counted[..|ids| - 1])
  {
    var k :| AnswersRequest(r, ids, counted, k);
    assert AnswersRequest(r, ids[..|ids| - 1], counted[..|ids| - 1], k);
  }

  /** Removing the last request and its result, if it has one, leaves results for the others. */
  lemma RestWithinCounts(results: seq<Result>, ids: seq<string>, counted: seq<nat>, at: nat)
    requires WithinCounts(results, ids, counted) && at < |results| && ids != [] && results[at].id == ids[|ids| - 1]
    ensures WithinCounts(Without(results, at), ids[..|ids| - 1], counted[..|ids| - 1])
  {
    var rest := Without(results, at);
    forall i | 0 <= i < |rest| ensures Answers(rest[i], ids[..|ids| - 1], counted[..|ids| - 1]) {
      var j := if i < at then i else i + 1;
      assert rest[i] == results[j];
      AnswersEarlier(results[j], ids, counted);
    }
  }

  lemma AllWithinCounts(results: seq<Result>, ids: seq<string>, counted: seq<nat>)
    requires WithinCounts(results, ids, counted) && ids != []
    requires forall i :: 0 <= i < |results| ==> results[i].id != ids[|ids| - 1]
    ensures WithinCounts(results, ids[..|ids| - 1], counted[..|ids| - 1])
  {
    forall i | 0 <= i < |results| ensures Answers(results[i], ids[..|ids| - 1], counted[..|ids| - 1]) {
      AnswersEarlier(results[i], ids, counted);
    }
  }

  ghost predicate DistinctIds(ids: seq<string>) {
    forall i, j :: 0 <= i < j < |ids| ==> ids[i] != ids[j]
  }

  lemma {:induction false} AuditedWithinExact(model: string, results: seq<Result>, ids: seq<string>, counted: seq<nat>)
    requires WithinCounts(results, ids, counted) && DistinctIds(ids)
    ensures AuditedCost(model, results)
         <= ExactCost(RatesOf(model), Total(counted), |counted| * MAX_TOKENS) * 0.5 + |counted| as real * 0.25
    decreases |ids|
  {
    var rates := RatesOf(model);
    if ids == [] {
      assert forall i :: 0 <= i < |results| ==> Answers(results[i], ids, counted);
      assert forall r :: !Answers(r, ids, counted);
      assert results == [];
      CostMonotone(rates, 0, 0, 0, 0);
    } else {
      var n := |ids| - 1;
      CostAdds(rates, Total(counted[..n]), counted[n], n);
      CostMonotone(rates, 0, 0, counted[n], MAX_TOKENS);
      if at: nat :| at < |results| && results[at].id == ids[n] {
        RestWithinCounts(results, ids, counted, at);
        AuditedWithinExact(model, Without(results, at), ids[..n], counted[..n]);
        AnyResultLast(model, results, at);
        var k :| AnswersRequest(results[at], ids, counted, k);
        assert k == n;
        CostMonotone(rates, results[at].input, results[at].output, counted[n], MAX_TOKENS);
      } else {
        AllWithinCounts(results, ids, counted);
        AuditedWithinExact(model, results, ids[..n], counted[..n]);
      }
    }
  }

  /** However the batch turns out, what it is audited at exceeds its estimate by at most a
      quarter micro-dollar per item plus half a micro-dollar, all of it rounding. */
  lemma BatchNeverOutrunsEstimate(model: string, results: seq<Result>, ids: seq<string>, counted: seq<nat>)
    requires WithinCounts(results, ids, counted) && DistinctIds(ids)
    ensures AuditedCost(model, results) <= BatchEstimate(model, counted) as real + (|counted| + 2) as real / 4.0
  {
    AuditedWithinExact(model, results, ids, counted);
  }

  // ---- The monthly budget ----

  /** An audit row; `ai` when its action starts with "ai.", `cost` absent when none was recorded. */
  datatype AuditRow = AuditRow(tenant: string, ai: bool, at: int, cost: Option<real>)

  function SpendOf(row: AuditRow, tenant: string, monthStart: int): real {
    if row.tenant == tenant && row.ai && row.at >= monthStart then row.cost.GetOr(0.0) else 0.0
  }

  function MonthSpend(rows: seq<AuditRow>, tenant: string, monthStart: int): real {
    if rows == [] then 0.0
    else MonthSpend(rows[..|rows| - 1], tenant, monthStart) + SpendOf(rows[|rows| - 1], tenant, monthStart)
  }

  /** A row counts in full for its own tenant's AI calls of the month, and for nothing else. */
  lemma OneMoreRow(rows: seq<AuditRow>, row: AuditRow, tenant: string, monthStart: int)
    ensures MonthSpend([], tenant, monthStart) == 0.0
    ensures row.tenant == tenant && row.ai && row.at >= monthStart && row.cost.Some? ==>
              MonthSpend(rows + [row], tenant, monthStart) == MonthSpend(rows, tenant, monthStart) + row.cost.value
    ensures row.tenant != tenant || !row.ai || row.at < monthStart || row.cost.None? ==>
              MonthSpend(rows + [row], tenant, monthStart) == MonthSpend(rows, tenant, monthStart)
  {
    assert (rows + [row])[..|rows|] == rows;
  }

  /** The cap is reached exactly when the spend, with the estimate for a batch, is not below it;
      without a cap it never is. */
  lemma CapsAre(rows: seq<AuditRow>, tenant: string, monthStart: int, cap: Option<real>, estimate: int)
    ensures cap == None ==>
              CheckTenantBudget(rows, tenant, monthStart, cap)
                  && !WouldExceedBudget(rows, tenant, monthStart, cap, estimate)
    ensures forall c :: cap == Some(c) ==>
              && (CheckTenantBudget(rows, tenant, monthStart, cap) <==> MonthSpend(rows, tenant, monthStart) < c)
              && (WouldExceedBudget(rows, tenant, monthStart, cap, estimate) <==>
                    MonthSpend(rows, tenant, monthStart) + estimate as real >= c)
  {
  }

  predicate CheckTenantBudget(rows: seq<AuditRow>, tenant: string, monthStart: int, cap: Option<real>) {
    cap.None? || MonthSpend(rows, tenant, monthStart) < cap.value
  }

  predicate WouldExceedBudget(rows: seq<AuditRow>, tenant: string, monthStart: int, cap: Option<real>, estimate: int) {
    cap.Some? && MonthSpend(rows, tenant, monthStart) + estimate as real >= cap.value
  }

  lemma {:induction false} SpendAppends(rows: seq<AuditRow>, more: seq<AuditRow>, tenant: string, monthStart: int)
    ensures MonthSpend(rows + more, tenant, monthStart)
         == MonthSpend(rows, tenant, monthStart) + MonthSpend(more, tenant, monthStart)
  {
    if more == [] {
      assert rows + more == rows;
    } else {
      assert (rows + more)[..|rows + more| - 1] == rows + more[..|more| - 1];
      SpendAppends(rows, more[..|more| - 1], tenant, monthStart);
    }
  }

  /** `more` holds one row of this tenant per result, in the order the results came, among rows
      that spend nothing of this tenant's. */
  ghost predicate AuditsBatch(more: seq<AuditRow>, tenant: string, monthStart: int, model: string,
                              results: seq<Result>) {
    if more == [] then results == []
    else
      var row, front := more[|more| - 1], more[..|more| - 1];
      || (SpendOf(row, tenant, monthStart) == 0.0 && AuditsBatch(front, tenant, monthStart, model, results))
      || (results != [] && row.tenant == tenant && row.cost == Some(ItemCost(model, results[|results| - 1]))
          && AuditsBatch(front, tenant, monthStart, model, results[..|results| - 1]))
  }

  lemma {:induction false} BatchSpend(more: seq<AuditRow>, tenant: string, monthStart: int, model: string,
                                      results: seq<Result>)
    requires AuditsBatch(more, tenant, monthStart, model, results)
    requires forall i :: 0 <= i < |results| ==> ItemCost(model, results[i]) >= 0.0
    ensures MonthSpend(more, tenant, monthStart) <= AuditedCost(model, results)
  {
    if more == [] {
    } else {
      var row, front := more[|more| - 1], more[..|more| - 1];
      if SpendOf(row, tenant, monthStart) == 0.0 && AuditsBatch(front, tenant, monthStart, model, results) {
        BatchSpend(front, tenant, monthStart, model, results);
      } else {
        BatchSpend(front, tenant, monthStart, model, results[..|results| - 1]);
      }
    }
  }

  lemma ItemCostsNothingNegative(model: string, r: Result)
    ensures ItemCost(model, r) >= 0.0
  {
    CostMonotone(RatesOf(model), 0, 0, r.input, r.output);
  }

  /** A batch that passed the fail-closed check, with every item audited once and no other
      spending by the tenant, keeps the month below the cap plus the rounding of the estimate. */
  lemma SubmittedBatchStaysUnderCap(rows: seq<AuditRow>, more: seq<AuditRow>, tenant: string, monthStart: int,
                                    cap: real,
                                    model: string, ids: seq<string>, counted: seq<nat>, results: seq<Result>)
    requires !WouldExceedBudget(rows, tenant, monthStart, Some(cap), BatchEstimate(model, counted))
    requires WithinCounts(results, ids, counted) && DistinctIds(ids)
    requires AuditsBatch(more, tenant, monthStart, model, results)
    ensures MonthSpend(rows + more, tenant, monthStart) < cap + (|counted| + 2) as real / 4.0
  {
    SpendAppends(rows, more, tenant, monthStart);
    forall i | 0 <= i < |results| ensures ItemCost(model, results[i]) >= 0.0 {
      ItemCostsNothingNegative(model, results[i]);
    }
    BatchSpend(more, tenant, monthStart, model, results);
    BatchNeverOutrunsEstimate(model, results, ids, counted);
  }
}

/** What one finished batch asks the poller to do: for every result line at most one cache
    write and one audit row, in that order. */
module BatchWork {
  import opened Common
  import opened AnswerGates
  import BatchCost
  import CacheKey
  import Engine = ExplainEngine

  datatype LineResult = Succeeded(text: string, input: nat, output: nat) | Errored | Canceled | Expired | Unrecognised

  datatype Line = Line(customId: string, result: LineResult)

  /** The durable row: tenant, and the model, prompt version and hashes frozen at submission. */
  datatype Job = Job(tenant: string, model: string, promptVersion: string, hashes: map<string, string>)

  datatype Status = Ok | ValidationFailed | InjectionFlagged | BatchErrored | BatchCanceled | BatchExpired

  /** An audit row; the cost is in micro-dollars. */
  datatype Row = Row(tenant: string, model: string, resource: string, status: Status, input: nat, output: nat,
                     cost: real)

  datatype Act = Put(key: string, payload: Candidate) | Log(row: Row)

  const RESOURCE_TYPE := "prioritization"

  function KeyFor(job: Job, customId: string): string
    requires customId in job.hashes
  {
    CacheKey.BuildCacheKey(job.tenant, RESOURCE_TYPE, customId, job.hashes[customId], job.model, job.promptVersion)
  }

  // ---- The single-pass gate ----

  datatype Judgement = Accepted(payload: Candidate) | Rejected(status: Status)

  function Judge(g: Gates, text: string): Judgement {
    match g.parse(text)
    case None => Rejected(ValidationFailed)
    case Some(c) =>
      if !BusinessRulesHold(g, c) || !c.grounded then Rejected(ValidationFailed)
      else if g.leaks(c) then Rejected(InjectionFlagged)
      else Accepted(c)
  }

  /** The interactive engine's status for the same outcome. */
  function Interactive(j: Judgement): Engine.Status {
    match j
    case Accepted(_) => Engine.AuditOk
    case Rejected(InjectionFlagged) => Engine.AuditInjectionFlagged
    case Rejected(_) => Engine.AuditValidationFailed
  }

  /** A batch item is judged exactly as the interactive engine judges a final attempt of a view
      without a denylist: same status, and the same payload when there is one. */
  lemma BatchJudgesLikeFinalAttempt(env: Engine.Env, n: nat)
    requires env.reply(n).Message? && forall c :: env.gates.dangerous(c).None?
    ensures var v, j := Engine.VerdictOf(env, n), Judge(env.gates, env.reply(n).text);
            && Interactive(j) == Engine.StatusOf(v, true)
            && (forall c :: v == Engine.Good(c) <==> j == Accepted(c))
            && (j.Accepted? ==> Engine.Passes(env.gates, j.payload))
  {
  }

  // ---- The work of a line and of a job ----

  function LogOf(job: Job, line: Line, status: Status, input: nat, output: nat, cost: real): Act {
    Log(Row(job.tenant, job.model, line.customId, status, input, output, cost))
  }

  /** Half the interactive price. */
  function HalfPrice(model: string, input: nat, output: nat): real {
    BatchCost.EstimateCost(model, input, output) as real * 0.5
  }

  function LineActs(g: Gates, job: Job, line: Line): seq<Act> {
    if line.customId !in job.hashes then []
    else match line.result
      case Succeeded(text, input, output) => (
        match Judge(g, text)
        case Accepted(c) =>
          [Put(KeyFor(job, line.customId), c), LogOf(job, line, Ok, input, output, HalfPrice(job.model, input, output))]
        case Rejected(status) => [LogOf(job, line, status, input, output, 0.0)])
      case Errored => [LogOf(job, line, BatchErrored, 0, 0, 0.0)]
      case Canceled => [LogOf(job, line, BatchCanceled, 0, 0, 0.0)]
      case Expired => [LogOf(job, line, BatchExpired, 0, 0, 0.0)]
      case Unrecognised => []
  }

  function JobActs(g: Gates, job: Job, lines: seq<Line>): seq<Act> {
    if lines == [] then []
    else JobActs(g, job, lines[..|lines| - 1]) + LineActs(g, job, lines[|lines| - 1])
  }

  lemma JobActsNext(g: Gates, job: Job, lines: seq<Line>, n: nat)
    requires n < |lines|
    ensures JobActs(g, job, lines[..n + 1]) == JobActs(g, job, lines[..n]) + LineActs(g, job, lines[n])
  {
    assert lines[..n + 1][..n] == lines[..n];
  }

  /** The work of the first lines comes first. */
  lemma {:induction false} JobActsPrefix(g: Gates, job: Job, lines: seq<Line>, n: nat)
    requires n <= |lines|
    ensures JobActs(g, job, lines[..n]) <= JobActs(g, job, lines)
    decreases |lines| - n
  {
    if n < |lines| {
      JobActsNext(g, job, lines, n);
      JobActsPrefix(g, job, lines, n + 1);
    } else {
      assert lines[..n] == lines;
    }
  }

  /** Line `n`'s own work sits right after the work of the lines before it. */
  lemma LineActsAt(g: Gates, job: Job, lines: seq<Line>, n: nat)
    requires n < |lines|
    ensures var before, own, all := |JobActs(g, job, lines[..n])|, LineActs(g, job, lines[n]), JobActs(g, job, lines);
            && before + |own| == |JobActs(g, job, lines[..n + 1])| <= |all|
            && forall i :: before <= i < before + |own| ==> all[i] == own[i - before]
  {
    JobActsNext(g, job, lines, n);
    JobActsPrefix(g, job, lines, n + 1);
    InPrefix(JobActs(g, job, lines[..n]), LineActs(g, job, lines[n]), JobActs(g, job, lines));
  }

  lemma InPrefix<T>(before: seq<T>, own: seq<T>, all: seq<T>)
    requires before + own <= all
    ensures |before| + |own| <= |all|
    ensures forall i :: |before| <= i < |before| + |own| ==> all[i] == own[i - |before|]
  {
    forall i | |before| <= i < |before| + |own| ensures all[i] == own[i - |before|] {
      assert (before + own)[i] == all[i];
    }
  }

  /** Every act of a job is the act of one of its lines. */
  lemma {:induction false} ActComesFromLine(g: Gates, job: Job, lines: seq<Line>, i: nat) returns (n: nat)
    requires i < |JobActs(g, job, lines)|
    ensures n < |lines| && JobActs(g, job, lines)[i] in LineActs(g, job, lines[n])
  {
    var front := lines[..|lines| - 1];
    if i < |JobActs(g, job, front)| {
      n := ActComesFromLine(g, job, front, i);
      assert front[n] == lines[n];
    } else {
      n := |lines| - 1;
    }
  }

  ghost predicate Recognised(job: Job, line: Line) {
    line.customId in job.hashes && !line.result.Unrecognised?
  }

  /** The audit row a recognised line gets: it is about that line's finding. */
  lemma LastActIsLog(g: Gates, job: Job, line: Line)
    requires Recognised(job, line)
    ensures var own := LineActs(g, job, line);
            && own != [] && own[|own| - 1].Log?
            && own[|own| - 1].row.resource == line.customId && own[|own| - 1].row.tenant == job.tenant
  {
  }

  /** Where line `n`'s audit row sits in the job's work: the last of its own acts. */
  function AuditPlace(g: Gates, job: Job, lines: seq<Line>, n: nat): int
    requires n < |lines|
  {
    |JobActs(g, job, lines[..n + 1])| - 1
  }

  /** Every line with a known hash and a recognised type has an audit row at its own place. */
  lemma RecognisedLineIsLogged(g: Gates, job: Job, lines: seq<Line>, n: nat)
    requires n < |lines| && Recognised(job, lines[n])
    ensures var i, all := AuditPlace(g, job, lines, n), JobActs(g, job, lines);
            && |JobActs(g, job, lines[..n])| <= i < |all|
            && all[i].Log? && all[i].row.resource == lines[n].customId && all[i].row.tenant == job.tenant
  {
    LineActsAt(g, job, lines, n);
    LastActIsLog(g, job, lines[n]);
    var own := LineActs(g, job, lines[n]);
    var i := AuditPlace(g, job, lines, n);
    assert i == |JobActs(g, job, lines[..n])| + |own| - 1;
    assert JobActs(g, job, lines)[i] == own[|own| - 1];
  }

  /** No two lines share a place, whatever their custom ids. */
  lemma PlacesAreOwn(g: Gates, job: Job, lines: seq<Line>, m: nat, n: nat)
    requires m < n < |lines| && Recognised(job, lines[n])
    ensures AuditPlace(g, job, lines, m) < AuditPlace(g, job, lines, n)
  {
    RecognisedLineIsLogged(g, job, lines, n);
    JobActsPrefix(g, job, lines[..n], m + 1);
    assert lines[..n][..m + 1] == lines[..m + 1];
  }

  // ---- What a line's audit row says ----

  /** The row of a line, status by status: one row a recognised line, at its tenant's and finding's
      name, with the answer's tokens, and the model's half price if it was accepted. */
  lemma LineRowSays(g: Gates, job: Job, line: Line, row: Row)
    requires Log(row) in LineActs(g, job, line)
    ensures Recognised(job, line) && row.tenant == job.tenant && row.model == job.model && row.resource == line.customId
    ensures match line.result
            case Succeeded(text, input, output) =>
              && row.input == input && row.output == output
              && (match g.parse(text)
                  case None => row.status == ValidationFailed
                  case Some(c) =>
                    && (!BusinessRulesHold(g, c) || !c.grounded ==> row.status == ValidationFailed)
                    && (BusinessRulesHold(g, c) && c.grounded && g.leaks(c) ==> row.status == InjectionFlagged)
                    && (BusinessRulesHold(g, c) && c.grounded && !g.leaks(c) ==> row.status == Ok))
              && row.cost == (if row.status == Ok then BatchCost.EstimateCost(job.model, input, output) as real / 2.0
                              else 0.0)
            case Errored => row.status == BatchErrored && row.input == row.output == 0 && row.cost == 0.0
            case Canceled => row.status == BatchCanceled && row.input == row.output == 0 && row.cost == 0.0
            case Expired => row.status == BatchExpired && row.input == row.output == 0 && row.cost == 0.0
            case Unrecognised => false
  {
  }

  /** An accepted answer's row in figures: half of 3 and 15 micro-dollars a token for Sonnet, half of
      5 and 25 for Opus, and never nothing for an answer with any output. */
  lemma AcceptedRowPrice(g: Gates, job: Job, line: Line, row: Row)
    requires Log(row) in LineActs(g, job, line) && row.status == Ok
    ensures line.result.Succeeded?
    ensures job.model == "claude-sonnet-5" ==> row.cost == (3 * row.input + 15 * row.output) as real / 2.0
    ensures job.model == "claude-opus-5" ==> row.cost == (5 * row.input + 25 * row.output) as real / 2.0
    ensures row.output > 0 ==> row.cost > 0.0
  {
    LineRowSays(g, job, line, row);
    BatchCost.Prices(job.model, row.input, row.output);
    BatchCost.PricesArePositive(job.model, row.input, row.output);
  }

  ghost predicate AcceptedAs(g: Gates, job: Job, line: Line, key: string, c: Candidate) {
    && line.customId in job.hashes && key == KeyFor(job, line.customId)
    && line.result.Succeeded? && Judge(g, line.result.text) == Accepted(c)
  }

  /** An accepted line is a cache write among the job's acts, and every cache write is one. */
  lemma AcceptedLineIsPut(g: Gates, job: Job, lines: seq<Line>, n: nat, key: string, c: Candidate) returns (i: nat)
    requires n < |lines| && AcceptedAs(g, job, lines[n], key, c)
    ensures i < |JobActs(g, job, lines)| && JobActs(g, job, lines)[i] == Put(key, c)
  {
    LineActsAt(g, job, lines, n);
    i := |JobActs(g, job, lines[..n])|;
    assert JobActs(g, job, lines)[i] == LineActs(g, job, lines[n])[0];
  }

  lemma PutComesFromLine(g: Gates, job: Job, lines: seq<Line>, i: nat, key: string, c: Candidate) returns (n: nat)
    requires i < |JobActs(g, job, lines)| && JobActs(g, job, lines)[i] == Put(key, c)
    ensures n < |lines| && AcceptedAs(g, job, lines[n], key, c)
  {
    n := ActComesFromLine(g, job, lines, i);
  }
}

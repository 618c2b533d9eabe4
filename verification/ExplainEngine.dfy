/** The validate-before-emit engine: buffer the model's answer, validate it, then replay it.
    Every effect is an entry of a trace, and the environment decides at which entries an
    unexpected exception strikes or the client goes away. */
module ExplainEngine {
  import opened Common
  import opened BatchCost
  import opened AnswerGates

  // ---- The gates together ----

  /** Everything a payload has to pass before anyone sees it. */
  predicate Passes(g: Gates, c: Candidate) {
    BusinessRulesHold(g, c) && c.grounded && !g.leaks(c) && g.dangerous(c).None?
  }

  // ---- Effects ----

  datatype Turn = UserTurn(text: string) | AssistantTurn(text: string) | CorrectiveTurn

  datatype ErrorKind = Busy | GroundedFalse | BudgetExceeded | Unsafe(pattern: string) | Unknown

  datatype Event = NoKey | ErrorEvent(kind: ErrorKind) | SummaryDelta(text: string) | DoneEvent(payload: Candidate)

  datatype Status =
    | AuditOk | AuditGroundedRetry | AuditValidationFailed | AuditInjectionFlagged
    | AuditRateLimited | AuditBudgetExceeded | AuditUnsafeDenylisted | AuditUnknown

  datatype Effect =
    | ReadConfig | ReadKey | ReadSpend | NotifyAdmins | BuildPrompt
    | Emit(event: Event)
    | Dispatch(turns: seq<Turn>)
    | Audit(status: Status, cost: Option<int>)
    | SetCached(payload: Candidate)
    | AcquireGuard
    | ReleaseGuard
    | Fault(of: Effect)       // the effect raised an unexpected exception instead of happening
    | Cancelled(of: Effect)   // the request was cancelled while awaiting the effect
    | Abort                   // the client closed the stream right after the preceding event

  type Trace = seq<Effect>

  /** The provider's answer to a dispatch. */
  datatype Reply = Throttled | Message(text: string, input: nat, output: nat)

  datatype Env = Env(
    model: string,
    hasKey: bool,
    tenant: string,
    ledger: seq<AuditRow>,      // the audit log the budget check reads
    monthStart: int,
    cap: Option<real>,
    guardFree: bool,
    prompt: string,
    reply: nat -> Reply,        // by attempt
    gates: Gates,
    fails: nat -> bool,         // by position in the trace
    cancels: nat -> bool,
    aborts: nat -> bool)

  predicate WithinBudget(env: Env) {
    CheckTenantBudget(env.ledger, env.tenant, env.monthStart, env.cap)
  }

  // ---- Replay ----

  const CHUNK: nat := 80

  function ChunkForReplay(text: string): (chunks: seq<string>)
    ensures forall i :: 0 <= i < |chunks| ==> 0 < |chunks[i]| <= 80
    ensures forall i :: 0 <= i < |chunks| - 1 ==> |chunks[i]| == 80
    ensures Concat(chunks) == text
    decreases |text|
  {
    if text == "" then []
    else if |text| <= CHUNK then
      ConcatOne([], text);
      [text]
    else
      var chunks := [text[..CHUNK]] + ChunkForReplay(text[CHUNK..]);
      ConcatFirst(text[..CHUNK], ChunkForReplay(text[CHUNK..]));
      assert text[..CHUNK] + text[CHUNK..] == text;
      chunks
  }

  function Concat(chunks: seq<string>): string {
    if chunks == [] then "" else Concat(chunks[..|chunks| - 1]) + chunks[|chunks| - 1]
  }

  lemma ConcatOne(chunks: seq<string>, last: string)
    ensures Concat(chunks + [last]) == Concat(chunks) + last
  {
    assert (chunks + [last])[..|chunks|] == chunks;
  }

  lemma {:induction false} ConcatFirst(first: string, chunks: seq<string>)
    ensures Concat([first] + chunks) == first + Concat(chunks)
  {
    if chunks == [] {
      assert [first] + chunks == [] + [first];
      ConcatOne([], first);
    } else {
      var front, last := chunks[..|chunks| - 1], chunks[|chunks| - 1];
      ConcatFirst(first, front);
      assert [first] + chunks == ([first] + front) + [last];
      ConcatOne([first] + front, last);
    }
  }

  /** The retry's conversation: the original turns, the rejected answer, the correction. */
  function AppendCorrectiveTurn(turns: seq<Turn>, rejected: string): seq<Turn> {
    turns + [AssistantTurn(rejected), CorrectiveTurn]
  }

  // ---- A monitor reading the trace ----

  datatype GuardState = NotTaken | Held | Released

  /** What matters of a trace so far. `fine` turns false at the first effect that breaks the
      validate-before-emit discipline and stays false. */
  datatype Watch = Watch(
    fine: bool,
    dispatches: nat,
    statuses: seq<Status>,
    terminals: nat,
    cached: Option<Candidate>,
    auditedOk: bool,
    deltas: string,
    guard: GuardState,
    last: Option<Event>,
    notified: bool,
    faults: nat,
    aborted: bool) {

    /** Nothing has gone wrong so far. */
    predicate Smooth() {
      faults == 0 && !aborted
    }
  }

  const START := Watch(true, 0, [], 0, None, false, "", NotTaken, None, false, 0, false)

  /** The conversation attempt `n` must send. */
  function TurnsFor(env: Env, n: nat): seq<Turn> {
    if n == 0 then [UserTurn(env.prompt)]
    else if env.reply(0).Message? then AppendCorrectiveTurn([UserTurn(env.prompt)], env.reply(0).text)
    else []
  }

  /** `c` is what the model's latest answer parsed to. */
  predicate FromLatestReply(env: Env, w: Watch, c: Candidate) {
    && w.dispatches > 0
    && env.reply(w.dispatches - 1).Message?
    && env.gates.parse(env.reply(w.dispatches - 1).text) == Some(c)
  }

  /** Only an accepted answer is charged, and at the price of its own tokens. */
  predicate Charged(env: Env, w: Watch, status: Status, cost: Option<int>) {
    if status.AuditOk? then
      && w.dispatches > 0 && env.reply(w.dispatches - 1).Message?
      && cost == Some(CostOf(env, w.dispatches - 1))
    else cost.GetOr(0) == 0
  }

  function CostOf(env: Env, n: nat): int
    requires env.reply(n).Message?
  {
    EstimateCost(env.model, env.reply(n).input, env.reply(n).output)
  }

  function Next(env: Env, w: Watch, e: Effect): Watch {
    match e
    case Dispatch(turns) =>
      w.(fine := w.fine && w.Smooth() && w.guard == Held && w.dispatches < 2 && w.terminals == 0 && w.cached.None?
                 && env.hasKey && WithinBudget(env) && turns == TurnsFor(env, w.dispatches)
                 && (w.dispatches > 0 ==> Retries(VerdictOf(env, 0))),
         dispatches := w.dispatches + 1)
    case SetCached(c) =>
      w.(fine := w.fine && w.Smooth() && w.cached.None? && w.terminals == 0 && Passes(env.gates, c)
                 && FromLatestReply(env, w, c),
         cached := Some(c))
    case Audit(status, cost) =>
      w.(fine := w.fine && w.terminals == 0 && (status.AuditOk? ==> w.cached.Some? && !w.auditedOk)
                 && Charged(env, w, status, cost) && !w.aborted && (status.AuditUnknown? <==> w.faults > 0),
         statuses := w.statuses + [status], auditedOk := w.auditedOk || status.AuditOk?)
    case Emit(event) => NextEvent(w, event)
    case AcquireGuard => w.(fine := w.fine && w.Smooth() && w.guard == NotTaken, guard := Held)
    case ReleaseGuard => w.(fine := w.fine && w.guard == Held, guard := Released)
    case NotifyAdmins => w.(fine := w.fine && w.Smooth(), notified := true)
    case Fault(_) => w.(faults := w.faults + 1)
    case Cancelled(_) => w.(aborted := true)
    case Abort => w.(aborted := true)
    case _ => w
  }

  /** After an exception only the `unknown` error is sent, after a client abort nothing. */
  function NextEvent(w: Watch, event: Event): Watch {
    var open := w.fine && w.terminals == 0 && !w.aborted && (event == ErrorEvent(Unknown) <==> w.faults > 0);
    match event
    case SummaryDelta(text) =>
      w.(fine := open && w.cached.Some? && w.auditedOk, deltas := w.deltas + text, last := Some(event))
    case DoneEvent(c) =>
      w.(fine := open && w.cached == Some(c) && w.auditedOk && w.deltas == c.summary,
         terminals := w.terminals + 1, last := Some(event))
    case _ => w.(fine := open, terminals := w.terminals + 1, last := Some(event))
  }

  function Watching(env: Env, trace: Trace): Watch {
    if trace == [] then START else Next(env, Watching(env, trace[..|trace| - 1]), trace[|trace| - 1])
  }

  lemma WatchNext(env: Env, trace: Trace, e: Effect)
    ensures Watching(env, trace + [e]) == Next(env, Watching(env, trace), e)
  {
    assert (trace + [e])[..|trace|] == trace;
  }

  // ---- What an undisturbed run must report ----

  datatype Verdict = WasThrottled | Invalid | NotGrounded | Leaks | IsUnsafe(pattern: string) | Good(payload: Candidate)

  function VerdictOf(env: Env, n: nat): Verdict {
    match env.reply(n)
    case Throttled => WasThrottled
    case Message(text, _, _) =>
      match env.gates.parse(text)
      case None => Invalid
      case Some(c) =>
        if !BusinessRulesHold(env.gates, c) then Invalid
        else if !c.grounded then NotGrounded
        else if env.gates.leaks(c) then Leaks
        else if env.gates.dangerous(c).Some? then IsUnsafe(env.gates.dangerous(c).value)
        else Good(c)
  }

  predicate Retries(v: Verdict) {
    v.Invalid? || v.NotGrounded?
  }

  /** The attempt whose verdict decides the run. */
  function DecidingAttempt(env: Env): nat {
    if Retries(VerdictOf(env, 0)) then 1 else 0
  }

  function FinalEvent(env: Env): Event {
    if !env.hasKey then NoKey
    else if !WithinBudget(env) then ErrorEvent(BudgetExceeded)
    else if !env.guardFree then ErrorEvent(Busy)
    else EventOf(VerdictOf(env, DecidingAttempt(env)))
  }

  function EventOf(v: Verdict): Event {
    match v
    case WasThrottled => ErrorEvent(Busy)
    case IsUnsafe(pattern) => ErrorEvent(Unsafe(pattern))
    case Good(c) => DoneEvent(c)
    case _ => ErrorEvent(GroundedFalse)
  }

  function StatusOf(v: Verdict, final: bool): Status {
    match v
    case WasThrottled => AuditRateLimited
    case Invalid => AuditValidationFailed
    case NotGrounded => if final then AuditValidationFailed else AuditGroundedRetry
    case Leaks => AuditInjectionFlagged
    case IsUnsafe(_) => AuditUnsafeDenylisted
    case Good(_) => AuditOk
  }

  function StatusesFrom(env: Env): seq<Status> {
    if !env.hasKey then []
    else if !WithinBudget(env) then [AuditBudgetExceeded]
    else if !env.guardFree then []
    else if Retries(VerdictOf(env, 0)) then [StatusOf(VerdictOf(env, 0), false), StatusOf(VerdictOf(env, 1), true)]
    else [StatusOf(VerdictOf(env, 0), false)]
  }

  /** The audit statuses of a trace, in order. */
  function Statuses(trace: Trace): seq<Status> {
    if trace == [] then []
    else Statuses(trace[..|trace| - 1])
         + (if trace[|trace| - 1].Audit? then [trace[|trace| - 1].status] else [])
  }

  function LastEvent(trace: Trace): Option<Event> {
    if trace == [] then None
    else if trace[|trace| - 1].Emit? then Some(trace[|trace| - 1].event)
    else LastEvent(trace[..|trace| - 1])
  }

  // ---- The engine ----

  datatype Exit = Finished | Raised | ClientGone

  /** What an attempt at an effect leaves in the trace. */
  function Attempted(e: Effect, out: Exit): Effect {
    match out
    case Finished => e
    case Raised => Fault(e)
    case ClientGone => Cancelled(e)
  }

  /** Try one effect: it happens, or it raises, or the request is cancelled while awaiting it. */
  method Perform(env: Env, trace: Trace, e: Effect) returns (trace': Trace, out: Exit)
    ensures trace' == trace + [Attempted(e, out)]
    ensures Watching(env, trace') == Next(env, Watching(env, trace), Attempted(e, out))
  {
    out := if env.fails(|trace|) then Raised else if env.cancels(|trace|) then ClientGone else Finished;
    trace' := trace + [Attempted(e, out)];
    WatchNext(env, trace, Attempted(e, out));
  }

  /** Send one event; the client may close the stream once it has it. */
  method Yield(env: Env, trace: Trace, event: Event) returns (trace': Trace, ok: bool)
    ensures ok ==> trace' == trace + [Emit(event)]
    ensures ok ==> Watching(env, trace') == Next(env, Watching(env, trace), Emit(event))
    ensures !ok ==> Watching(env, trace') == Next(env, Next(env, Watching(env, trace), Emit(event)), Abort)
  {
    trace' := trace + [Emit(event)];
    WatchNext(env, trace, Emit(event));
    ok := !env.aborts(|trace'|);
    if !ok {
      WatchNext(env, trace', Abort);
      trace' := trace' + [Abort];
    }
  }

  /** How a way out behaves from `trace` on: undisturbed it audits `status` and sends `event` as
      its one terminal event; an exception leaves the stream open. */
  ghost predicate Ended(env: Env, trace: Trace, trace': Trace, exit: Exit, status: Status, event: Event) {
    var w, w' := Watching(env, trace), Watching(env, trace');
    && w'.fine && SameCall(w, w')
    && (match exit
        case Finished =>
          && w'.faults == 0 && !w'.aborted && w'.terminals == 1
          && w'.statuses == w.statuses + [status] && w'.last == Some(event)
        case Raised => w'.terminals == 0 && w'.faults == 1 && !w'.aborted
        case ClientGone => w'.aborted && w'.faults == 0)
  }

  /** Nothing but answering happened between the two. */
  ghost predicate SameCall(w: Watch, w': Watch) {
    w'.guard == w.guard && w'.dispatches == w.dispatches && w'.notified == w.notified
  }

  ghost predicate Quiet(w: Watch) {
    w.fine && w.terminals == 0 && w.faults == 0 && !w.aborted
  }

  /** The one terminal event of a refusal. */
  method SendError(env: Env, trace: Trace, kind: ErrorKind) returns (trace': Trace, exit: Exit)
    requires var w := Watching(env, trace);
             w.fine && w.terminals == 0 && !w.aborted && (kind.Unknown? <==> w.faults > 0)
    ensures var w, w' := Watching(env, trace), Watching(env, trace');
            w' == w.(terminals := 1, last := Some(ErrorEvent(kind)), aborted := exit.ClientGone?) && !exit.Raised?
  {
    var ok;
    trace', ok := Yield(env, trace, ErrorEvent(kind));
    exit := if ok then Finished else ClientGone;
  }

  /** Audit a refusal and send its error: the terminal path of every gate. */
  method Refuse(env: Env, trace: Trace, status: Status, cost: Option<int>, kind: ErrorKind)
    returns (trace': Trace, exit: Exit)
    requires !status.AuditOk? && !status.AuditUnknown? && !kind.Unknown? && cost.GetOr(0) == 0
             && Quiet(Watching(env, trace))
    ensures Ended(env, trace, trace', exit, status, ErrorEvent(kind))
  {
    trace', exit := Perform(env, trace, Audit(status, cost));
    if exit.Finished? {
      trace', exit := SendError(env, trace', kind);
    }
  }

  /** `trace` continues a run watched as `ready` by having replayed `text`. */
  ghost predicate Replaying(env: Env, trace: Trace, ready: Watch, text: string) {
    Watching(env, trace) == ready.(deltas := text, last := Watching(env, trace).last)
  }

  ghost predicate ReadyToReplay(ready: Watch, c: Candidate) {
    Quiet(ready) && ready.cached == Some(c) && ready.auditedOk && ready.deltas == ""
  }

  method ReplayPiece(env: Env, trace: Trace, ghost ready: Watch, ghost text: string, piece: string)
    returns (trace': Trace, ok: bool)
    requires Quiet(ready) && ready.cached.Some? && ready.auditedOk && Replaying(env, trace, ready, text)
    ensures ok ==> Replaying(env, trace', ready, text + piece)
    ensures !ok ==> Gone(ready, Watching(env, trace'))
  {
    trace', ok := Yield(env, trace, SummaryDelta(piece));
  }

  ghost predicate Gone(w: Watch, w': Watch) {
    w'.fine && SameCall(w, w') && w'.faults == 0 && w'.aborted
  }

  /** Replay a validated, cached and audited summary piece by piece. */
  method Replay(env: Env, trace: Trace, c: Candidate) returns (trace': Trace, ok: bool)
    requires ReadyToReplay(Watching(env, trace), c)
    ensures ok ==> Replaying(env, trace', Watching(env, trace), c.summary)
    ensures !ok ==> Gone(Watching(env, trace), Watching(env, trace'))
  {
    trace', ok := trace, true;
    var chunks := ChunkForReplay(c.summary);
    ghost var ready := Watching(env, trace);
    for i := 0 to |chunks|
      invariant ok && Replaying(env, trace', ready, Concat(chunks[..i]))
    {
      assert chunks[..i + 1] == chunks[..i] + [chunks[i]];
      ConcatOne(chunks[..i], chunks[i]);
      trace', ok := ReplayPiece(env, trace', ready, Concat(chunks[..i]), chunks[i]);
      if !ok {
        return;
      }
    }
    assert chunks[..|chunks|] == chunks;
  }

  ghost predicate ReadyToStore(env: Env, w: Watch, c: Candidate) {
    && Passes(env.gates, c) && FromLatestReply(env, w, c)
    && Quiet(w) && w.cached.None? && !w.auditedOk && w.deltas == ""
  }

  /** Cache a payload and audit it `ok`. */
  method Store(env: Env, trace: Trace, n: nat, c: Candidate) returns (trace': Trace, out: Exit)
    requires ReadyToStore(env, Watching(env, trace), c) && Watching(env, trace).dispatches == n + 1
    ensures out.Finished? ==>
              var w, w' := Watching(env, trace), Watching(env, trace');
              ReadyToReplay(w', c) && SameCall(w, w') && w'.statuses == w.statuses + [AuditOk]
    ensures !out.Finished? ==> Ended(env, trace, trace', out, AuditOk, DoneEvent(c))
  {
    trace', out := Perform(env, trace, SetCached(c));
    if out.Finished? {
      var cost := EstimateCost(env.model, env.reply(n).input, env.reply(n).output);
      trace', out := Perform(env, trace', Audit(AuditOk, Some(cost)));
    }
  }

  /** Replay, then the one `done` event. */
  method ReplayAndFinish(env: Env, trace: Trace, c: Candidate) returns (trace': Trace, exit: Exit)
    requires ReadyToReplay(Watching(env, trace), c)
    ensures var w, w' := Watching(env, trace), Watching(env, trace');
            && w'.fine && SameCall(w, w') && w'.faults == 0 && !exit.Raised? && (exit.ClientGone? <==> w'.aborted)
            && (exit.Finished? ==> w'.terminals == 1 && w'.statuses == w.statuses && w'.last == Some(DoneEvent(c)))
  {
    var ok;
    trace', ok := Replay(env, trace, c);
    if !ok {
      return trace', ClientGone;
    }
    trace', ok := Yield(env, trace', DoneEvent(c));
    exit := if ok then Finished else ClientGone;
  }

  /** The success path: cache, audit, and only then replay. */
  method Publish(env: Env, trace: Trace, n: nat, c: Candidate) returns (trace': Trace, exit: Exit)
    requires ReadyToStore(env, Watching(env, trace), c) && Watching(env, trace).dispatches == n + 1
    ensures Ended(env, trace, trace', exit, AuditOk, DoneEvent(c))
  {
    trace', exit := Store(env, trace, n, c);
    if !exit.Finished? {
      return;
    }
    trace', exit := ReplayAndFinish(env, trace', c);
  }

  /** The guard is held and `n` answers were rejected and audited. */
  ghost predicate Before(env: Env, trace: Trace, n: nat) {
    && Watching(env, trace) == START.(guard := Held, dispatches := n,
                                       statuses := if n == 0 then [] else [StatusOf(VerdictOf(env, 0), false)])
    && (n > 0 ==> Retries(VerdictOf(env, 0)))
  }

  /** Attempt `n` was dispatched and is neither audited nor answered yet. */
  ghost predicate Dispatched(env: Env, trace: Trace, n: nat) {
    && Watching(env, trace) == START.(guard := Held, dispatches := n + 1,
                                       statuses := if n == 0 then [] else [StatusOf(VerdictOf(env, 0), false)])
    && (n > 0 ==> Retries(VerdictOf(env, 0)))
  }

  /** The attempts are over: a finished one audited and answered exactly what it deserves. */
  ghost predicate Over(env: Env, trace: Trace, exit: Exit) {
    var w := Watching(env, trace);
    && w.fine && w.guard == Held
    && (match exit
        case Finished =>
          && w.faults == 0 && !w.aborted && w.terminals == 1 && |w.statuses| == w.dispatches
          && w.statuses == StatusesFrom(env) && w.last == Some(FinalEvent(env)) && !w.notified
        case Raised => w.terminals == 0 && w.faults == 1 && !w.aborted
        case ClientGone => w.aborted && w.faults == 0)
  }

  /** A way out after attempt `n` with the status and event of a verdict that ends the run. */
  lemma EndedIsOver(env: Env, trace: Trace, trace': Trace, exit: Exit, n: nat, v: Verdict)
    requires env.hasKey && WithinBudget(env) && env.guardFree
    requires n < 2 && Dispatched(env, trace, n) && v == VerdictOf(env, n)
    requires n == 0 ==> !Retries(v)
    requires Ended(env, trace, trace', exit, StatusOf(v, n == 1), EventOf(v))
    ensures Over(env, trace', exit)
  {
  }

  /** Refuse for good after attempt `n`, for the reason its verdict gives. */
  method RefuseFor(env: Env, trace: Trace, n: nat, ghost v: Verdict, status: Status, cost: Option<int>, kind: ErrorKind)
    returns (trace': Trace, exit: Exit)
    requires env.hasKey && WithinBudget(env) && env.guardFree
    requires n < 2 && Dispatched(env, trace, n) && v == VerdictOf(env, n) && !v.Good?
    requires n == 0 ==> !Retries(v)
    requires status == StatusOf(v, n == 1) && ErrorEvent(kind) == EventOf(v) && cost.GetOr(0) == 0
    ensures Over(env, trace', exit)
  {
    trace', exit := Refuse(env, trace, status, cost, kind);
    EndedIsOver(env, trace, trace', exit, n, v);
  }

  /** Accept the answer to attempt `n`. */
  method Accept(env: Env, trace: Trace, n: nat, c: Candidate) returns (trace': Trace, exit: Exit)
    requires env.hasKey && WithinBudget(env) && env.guardFree
    requires n < 2 && Dispatched(env, trace, n) && VerdictOf(env, n) == Good(c)
    requires Passes(env.gates, c) && FromLatestReply(env, Watching(env, trace), c)
    ensures Over(env, trace', exit)
  {
    trace', exit := Publish(env, trace, n, c);
    EndedIsOver(env, trace, trace', exit, n, Good(c));
  }

  /** An answer that may be retried once: audit it, and give up if this was the retry. */
  method RejectOrRetry(env: Env, trace: Trace, n: nat, status: Status) returns (trace': Trace, again: bool, exit: Exit)
    requires env.hasKey && WithinBudget(env) && env.guardFree
    requires n < 2 && Dispatched(env, trace, n)
    requires Retries(VerdictOf(env, n)) && status == StatusOf(VerdictOf(env, n), n == 1)
    ensures if again then n == 0 && Before(env, trace', 1) else Over(env, trace', exit)
  {
    if n == 1 {
      again := false;
      trace', exit := RefuseFor(env, trace, n, VerdictOf(env, n), status, None, GroundedFalse);
      return;
    }
    trace', exit := Perform(env, trace, Audit(status, None));
    again := exit.Finished?;
  }

  /** A grounded answer within the business rules: only the last two gates are left. */
  ghost predicate WellFounded(env: Env, n: nat, c: Candidate) {
    && env.reply(n).Message? && env.gates.parse(env.reply(n).text) == Some(c)
    && BusinessRulesHold(env.gates, c) && c.grounded
  }

  lemma WellFoundedVerdict(env: Env, n: nat, c: Candidate)
    requires WellFounded(env, n, c)
    ensures VerdictOf(env, n) == if env.gates.leaks(c) then Leaks
                                 else if env.gates.dangerous(c).Some? then IsUnsafe(env.gates.dangerous(c).value)
                                 else Good(c)
    ensures VerdictOf(env, n).Good? ==> Passes(env.gates, c)
  {
  }

  method Clear(env: Env, trace: Trace, n: nat, c: Candidate) returns (trace': Trace, exit: Exit)
    requires env.hasKey && WithinBudget(env) && env.guardFree
    requires n < 2 && Dispatched(env, trace, n) && WellFounded(env, n, c)
    ensures Over(env, trace', exit)
  {
    WellFoundedVerdict(env, n, c);
    if env.gates.leaks(c) {
      trace', exit := RefuseFor(env, trace, n, Leaks, AuditInjectionFlagged, None, GroundedFalse);
      return;
    }
    var matched := env.gates.dangerous(c);
    if matched.Some? {
      trace', exit := RefuseFor(env, trace, n, IsUnsafe(matched.value), AuditUnsafeDenylisted, None,
                                Unsafe(matched.value));
      return;
    }
    trace', exit := Accept(env, trace, n, c);
  }

  /** The gates, in order, on the answer to attempt `n`. */
  method Judge(env: Env, trace: Trace, n: nat) returns (trace': Trace, again: bool, exit: Exit)
    requires env.hasKey && WithinBudget(env) && env.guardFree
    requires n < 2 && Dispatched(env, trace, n) && env.reply(n).Message?
    ensures if again then n == 0 && Before(env, trace', 1) else Over(env, trace', exit)
  {
    var parsed := env.gates.parse(env.reply(n).text);
    if parsed.None? || !BusinessRulesHold(env.gates, parsed.value) {
      trace', again, exit := RejectOrRetry(env, trace, n, AuditValidationFailed);
      return;
    }
    var c := parsed.value;
    if !c.grounded {
      trace', again, exit := RejectOrRetry(env, trace, n, if n == 1 then AuditValidationFailed else AuditGroundedRetry);
      return;
    }
    again := false;
    trace', exit := Clear(env, trace, n, c);
  }

  /** The attempt loop inside the try block, run while this call holds the guard. */
  method Attempts(env: Env, trace: Trace) returns (trace': Trace, exit: Exit)
    requires env.hasKey && WithinBudget(env) && env.guardFree
    requires Before(env, trace, 0)
    ensures Over(env, trace', exit)
  {
    trace' := trace;
    var turns := [UserTurn(env.prompt)];
    var again;
    for attempt := 0 to 2
      invariant attempt <= 1 && Before(env, trace', attempt) && turns == TurnsFor(env, attempt)
    {
      trace', exit := Perform(env, trace', Dispatch(turns));
      if !exit.Finished? {
        return;
      }
      if env.reply(attempt).Throttled? {
        trace', exit := RefuseFor(env, trace', attempt, WasThrottled, AuditRateLimited, Some(0), Busy);
        return;
      }
      trace', again, exit := Judge(env, trace', attempt);
      if !again {
        return;
      }
      turns := AppendCorrectiveTurn(turns, env.reply(attempt).text);
    }
    assert false;
  }

  /** What the except clause does with an unexpected exception. */
  method ReportUnknown(env: Env, trace: Trace) returns (trace': Trace, exit: Exit)
    requires var w := Watching(env, trace); w.fine && w.terminals == 0 && w.faults > 0 && !w.aborted
    ensures var w, w' := Watching(env, trace), Watching(env, trace');
            && w'.fine && w'.guard == w.guard && w'.faults > 0
            && (exit == Finished ==> w'.terminals == 1 && !w'.aborted && w'.last == Some(ErrorEvent(Unknown)))
  {
    trace', exit := Perform(env, trace, Audit(AuditUnknown, Some(0)));
    if exit.Finished? {
      trace', exit := SendError(env, trace', Unknown);
    }
  }

  /** What every call keeps, however it ends. */
  ghost predicate Promised(env: Env, trace: Trace, exit: Exit) {
    var w := Watching(env, trace);
    && Settled(env, w, exit)
    // the guard is taken only by a call that may dispatch, and given back on every way out: it
    // stays only when the release itself raised or was cancelled
    && (w.guard != NotTaken ==> env.hasKey && WithinBudget(env) && env.guardFree)
    && (w.guard == Held ==> exit != Finished && trace != [] && trace[|trace| - 1] == Attempted(ReleaseGuard, exit))
  }

  ghost predicate Settled(env: Env, w: Watch, exit: Exit) {
    // validate before emit, at every step
    && w.fine
    // a generator that finishes has sent exactly one terminal event
    && (exit == Finished ==> w.terminals == 1 && !w.aborted)
    && (exit == Finished && w.faults > 0 ==> w.last == Some(ErrorEvent(Unknown)))
    // an undisturbed call finishes, with the verdict and the audit trail the answers deserve
    && (w.Smooth() ==>
          && exit == Finished
          && w.statuses == StatusesFrom(env)
          && |w.statuses| == w.dispatches + (if env.hasKey && !WithinBudget(env) then 1 else 0)
          && w.notified == (env.hasKey && !WithinBudget(env))
          && w.last == Some(FinalEvent(env)))
  }

  /** The finally clause. */
  method Close(env: Env, trace: Trace, exit: Exit) returns (trace': Trace, exit': Exit)
    requires env.hasKey && WithinBudget(env) && env.guardFree
    requires Watching(env, trace).guard == Held && Settled(env, Watching(env, trace), exit)
    ensures Promised(env, trace', exit')
  {
    trace', exit' := Perform(env, trace, ReleaseGuard);
    if exit'.Finished? {
      exit' := exit;
    }
  }

  /** try / except / finally around the attempts, entered with the guard held. */
  method Guarded(env: Env, trace: Trace) returns (trace': Trace, exit: Exit)
    requires env.hasKey && WithinBudget(env) && env.guardFree
    requires Before(env, trace, 0)
    ensures Promised(env, trace', exit)
  {
    trace', exit := Perform(env, trace, BuildPrompt);
    if exit.Finished? {
      trace', exit := Attempts(env, trace');
    }
    if exit.Raised? {   // a cancellation is no Exception and skips this
      trace', exit := ReportUnknown(env, trace');
    }
    trace', exit := Close(env, trace', exit);
  }

  /** The budget refusal, before any dispatch. */
  method RefuseOverBudget(env: Env, trace: Trace) returns (trace': Trace, exit: Exit)
    requires env.hasKey && !WithinBudget(env)
    requires Watching(env, trace) == START
    ensures Promised(env, trace', exit)
  {
    trace', exit := Perform(env, trace, NotifyAdmins);
    if exit.Finished? {
      trace', exit := Refuse(env, trace', AuditBudgetExceeded, Some(0), BudgetExceeded);
    }
  }

  /** End a call that never got to dispatch, with nothing audited. */
  method TurnAway(env: Env, trace: Trace, event: Event) returns (trace': Trace, exit: Exit)
    requires Watching(env, trace) == START && StatusesFrom(env) == []
    requires event == FinalEvent(env) && (event.NoKey? || event == ErrorEvent(Busy))
             && (env.hasKey ==> WithinBudget(env))
    ensures Promised(env, trace', exit)
  {
    var ok;
    trace', ok := Yield(env, trace, event);
    exit := if ok then Finished else ClientGone;
  }

  /** Read what decides whether to dispatch at all. */
  method Lookup(env: Env, trace: Trace, e: Effect) returns (trace': Trace, out: Exit)
    requires e.ReadConfig? || e.ReadKey? || e.ReadSpend?
    requires Watching(env, trace) == START
    ensures out.Finished? ==> Watching(env, trace') == START
    ensures !out.Finished? ==> Promised(env, trace', out)
  {
    trace', out := Perform(env, trace, e);
  }

  /** The whole call; `exit` is how the generator ended. */
  method RunExplain(env: Env) returns (trace: Trace, exit: Exit)
    ensures Promised(env, trace, exit)
  {
    trace, exit := Lookup(env, [], ReadConfig);
    if !exit.Finished? {
      return;
    }
    trace, exit := Lookup(env, trace, ReadKey);
    if !exit.Finished? {
      return;
    }
    if !env.hasKey {
      trace, exit := TurnAway(env, trace, NoKey);
      return;
    }
    trace, exit := Lookup(env, trace, ReadSpend);
    if !exit.Finished? {
      return;
    }
    if !WithinBudget(env) {
      trace, exit := RefuseOverBudget(env, trace);
      return;
    }
    if !env.guardFree {
      trace, exit := TurnAway(env, trace, ErrorEvent(Busy));
      return;
    }
    trace, exit := Perform(env, trace, AcquireGuard);
    if !exit.Finished? {
      return;
    }
    trace, exit := Guarded(env, trace);
  }
}

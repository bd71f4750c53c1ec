/**
 The session recovery protocol of the API client (src/o2gateway/o2/api.py), as a step machine over any
 number of tasks. A step runs from one await to the next; what the provider, the browser login and the
 clock do is in the step.
 */
module Session {
  import opened Wrappers
  import opened Integers

  datatype Session = Session(key: string, createdAt: nat, bundle: string)

  /** Two sessions are the same generation when the client cannot tell them apart after a rejection. */
  datatype Generation = Generation(key: string, createdAt: nat)

  function GenerationOf(x: Session): Generation {
    Generation(x.key, x.createdAt)
  }

  datatype Settings = Settings(retrySeconds: int, maxRetrySeconds: int, hasBrowser: bool)

  /** Who asked for a recovery attempt: a caller of `recover_expired_session`, on behalf of a request or
      not, or a task whose request was rejected. */
  datatype Source = FromRetry(thenSend: bool) | FromRejection

  datatype Stage = Oauth | Browser

  datatype Outcome = Answered | Missing | Expired | Recovered | NotRecovered

  datatype Phase =
    | Idle
    | Sending(session: Session, again: bool)
    | WaitRetry(thenSend: bool)
    | WaitReject(failed: Session, bundle: string)
    | Attempt(current: Session, source: Source, stage: Stage, start: int)
    | Done(outcome: Outcome)

  datatype Waiter = Away | Blocked | Woken

  /** The client's fields, the tasks, and what happened so far: the markings delivered, the generations
      recovered, and since when and with which retries the failure count has been running. */
  datatype State = State(
    stored: Option<Session>,
    expiredKey: Option<string>,
    expiredAt: Option<nat>,
    event: bool,
    failures: nat,
    nextAttempt: int,
    lock: Option<nat>,
    tasks: map<nat, Phase>,
    waiter: Waiter,
    now: int,
    stamp: nat,
    markings: nat,
    delivered: seq<nat>,
    recovered: seq<Generation>,
    clearedAt: int,
    starts: seq<int>,
    failedRetries: seq<int>)

  datatype Step =
    | Request(task: nat)
    | Recover(task: nat)
    | Respond(task: nat, accepted: bool, bundle: string)
    | Acquire(task: nat)
    | AttemptAnswer(task: nat, renewed: Option<(string, string)>)
    | Login(key: string, bundle: string)
    | Logout
    | ProbeOk
    | ProbeFailed
    | Tick(seconds: nat)
    | WaiterCalls
    | WaiterRuns
    | StatusRead

  function PhaseOf(s: State, t: nat): Phase {
    if t in s.tasks then s.tasks[t] else Idle
  }

  function Put(s: State, t: nat, p: Phase): State {
    s.(tasks := s.tasks[t := p])
  }

  // ------------------------------------------------------------------ backoff

  function Pow2(n: nat): nat {
    if n == 0 then 1 else 2 * Pow2(n - 1)
  }

  function BaseDelay(c: Settings): int {
    Max(60, c.retrySeconds)
  }

  function MaxDelay(c: Settings): int {
    Max(BaseDelay(c), c.maxRetrySeconds)
  }

  /** The wait after the `n`-th failure in a row, as `_schedule_recovery_retry` computes it. */
  function Delay(c: Settings, n: nat): int
    requires n > 0
  {
    Min(MaxDelay(c), BaseDelay(c) * Pow2(Min(n - 1, 6)))
  }

  /** The waits after the first `n` failures together. */
  function SumDelays(c: Settings, n: nat): int {
    if n == 0 then 0 else SumDelays(c, n - 1) + Delay(c, n)
  }

  lemma {:induction false} Pow2Grows(a: nat, b: nat)
    requires a <= b
    ensures 1 <= Pow2(a) <= Pow2(b)
    decreases b
  {
    if a < b {
      Pow2Grows(a, b - 1);
    } else if b > 0 {
      Pow2Grows(a - 1, b - 1);
    }
  }

  /** Delays lie between the base and the cap, and never decrease. */
  lemma DelaysGrow(c: Settings, m: nat, n: nat)
    requires 0 < m <= n
    ensures BaseDelay(c) <= Delay(c, m) <= Delay(c, n) <= MaxDelay(c)
  {
    var a, b := Min(m - 1, 6), Min(n - 1, 6);
    Pow2Grows(a, b);
    Scaled(BaseDelay(c), 1, Pow2(a));
    Scaled(BaseDelay(c), Pow2(a), Pow2(b));
  }

  lemma Scaled(base: int, x: int, y: int)
    requires base >= 0 && x <= y
    ensures base * x <= base * y
  {
  }

  // ------------------------------------------------------------------ the client's own operations

  /** `_clear_session_expiry` */
  function Clear(s: State): State {
    s.(expiredKey := None, expiredAt := None, event := false, failures := 0, nextAttempt := 0,
       clearedAt := s.now, starts := [], failedRetries := [])
  }

  /** `session_expired_at` forgets a marking that is not about the stored session. */
  function ForgetStale(s: State): State {
    if s.expiredKey.Some? && s.expiredKey.value != StoredKey(s) then Clear(s) else s
  }

  function StoredKey(s: State): string {
    if s.stored.Some? then s.stored.value.key else ""
  }

  /** `_mark_session_expired`; setting the event wakes a blocked waiter. */
  function Mark(s: State): State {
    if s.expiredKey == Some(StoredKey(s)) && s.expiredAt.Some? then
      s
    else
      s.(expiredKey := Some(StoredKey(s)), expiredAt := Some(s.markings), markings := s.markings + 1,
         event := true, waiter := if s.waiter == Blocked then Woken else s.waiter)
  }

  predicate Authenticated(x: Option<Session>) {
    x.Some? && x.value.key != ""
  }

  /** `_require_session` fails fast: the stored session is the one that was rejected. */
  predicate Flagged(s: State) {
    Authenticated(s.stored) && s.expiredKey == Some(s.stored.value.key)
  }

  /** `_require_session` and, when it returns a session, the request sent with it. */
  function Send(s: State, t: nat, again: bool): State {
    if !Authenticated(s.stored) then Put(s, t, Done(Missing))
    else if Flagged(s) then Put(s, t, Done(Expired))
    else
      var s1 := if s.expiredKey.Some? then Clear(s) else s;
      Put(s1, t, Sending(s.stored.value, again))
  }

  /** `recover_expired_session` up to the lock. */
  function EnterRetry(s: State, t: nat, thenSend: bool): State {
    if s.now < s.nextAttempt then Put(s, t, Done(if thenSend then Expired else NotRecovered))
    else Put(s, t, WaitRetry(thenSend))
  }

  /** `_schedule_recovery_retry` */
  function Schedule(c: Settings, s: State): State {
    s.(failures := s.failures + 1, nextAttempt := s.now + Delay(c, s.failures + 1))
  }

  /** The start of `_attempt_session_recovery`, up to its first await. */
  function Begin(c: Settings, s: State, t: nat, current: Session, source: Source): State {
    var s1 := if source.FromRetry? then s.(starts := s.starts + [s.now]) else s;
    if current.bundle != "" then Put(s1.(lock := Some(t)), t, Attempt(current, source, Oauth, s.now))
    else if c.hasBrowser then Put(s1.(lock := Some(t)), t, Attempt(current, source, Browser, s.now))
    else Fail(c, s1, t, source)
  }

  /** An attempt that has exhausted its means. A rejected request is then reported and marks the session. */
  function Fail(c: Settings, s: State, t: nat, source: Source): State {
    var s1 := Schedule(c, s).(lock := None);
    match source
    case FromRetry(thenSend) =>
      Put(s1.(failedRetries := s.failedRetries + [s.now]), t, Done(if thenSend then Expired else NotRecovered))
    case FromRejection => Put(Mark(s1), t, Done(Expired))
  }

  /** An attempt that stored a new session. */
  function Succeed(s: State, t: nat, current: Session, source: Source, key: string, bundle: string): State {
    var s1 := Clear(s).(stored := Some(Session(key, s.stamp, bundle)), stamp := s.stamp + 1, lock := None,
                        recovered := s.recovered + [GenerationOf(current)]);
    match source
    case FromRetry(thenSend) => if thenSend then Send(s1, t, false) else Put(s1, t, Done(Recovered))
    case FromRejection => Send(s1, t, true)
  }

  /** `recover_expired_session` inside the lock, up to its first await. */
  function EnterRetryLocked(c: Settings, s: State, t: nat, thenSend: bool): State {
    var failed := Put(s, t, Done(if thenSend then Expired else NotRecovered));
    if s.now < s.nextAttempt then failed
    else if !Authenticated(s.stored) then failed
    else if s.expiredKey != Some(s.stored.value.key) then
      if thenSend then Send(Clear(s), t, false) else Put(Clear(s), t, Done(Recovered))
    else Begin(c, s, t, s.stored.value, FromRetry(thenSend))
  }

  /** `_recover_session` inside the lock, up to its first await. */
  function EnterRejectionLocked(c: Settings, s: State, t: nat, failed: Session, bundle: string): State {
    if !Authenticated(s.stored) then Put(Mark(s), t, Done(Expired))
    else if GenerationOf(s.stored.value) != GenerationOf(failed) then Send(s, t, true)
    else
      var current := if bundle != "" && s.stored.value.bundle == failed.bundle
                     then s.stored.value.(bundle := bundle) else s.stored.value;
      Begin(c, s.(stored := Some(current)), t, current, FromRejection)
  }

  // ------------------------------------------------------------------ the step machine

  predicate Free(p: Phase) {
    p.Idle? || p.Done?
  }

  predicate Enabled(s: State, step: Step) {
    match step
    case Request(t) => Free(PhaseOf(s, t))
    case Recover(t) => Free(PhaseOf(s, t))
    case Respond(t, _, _) => PhaseOf(s, t).Sending?
    case Acquire(t) => s.lock.None? && (PhaseOf(s, t).WaitRetry? || PhaseOf(s, t).WaitReject?)
    case AttemptAnswer(t, renewed) =>
      PhaseOf(s, t).Attempt? && (renewed.Some? ==> renewed.value.0 != "" && renewed.value.1 != "")
    case WaiterCalls => s.waiter == Away
    case WaiterRuns => s.waiter == Woken
    case _ => true
  }

  function Apply(c: Settings, s: State, step: Step): State
    requires Enabled(s, step)
  {
    match step
    case Request(t) => if Flagged(s) then EnterRetry(s, t, true) else Send(s, t, false)
    case Recover(t) => EnterRetry(s, t, false)
    case Respond(t, accepted, bundle) =>
      var p := PhaseOf(s, t);
      if accepted then Put(s, t, Done(Answered))
      else if p.again then Put(Mark(s), t, Done(Expired))
      else Put(s, t, WaitReject(p.session, bundle))
    case Acquire(t) =>
      (match PhaseOf(s, t)
       case WaitRetry(thenSend) => EnterRetryLocked(c, s, t, thenSend)
       case WaitReject(failed, bundle) => EnterRejectionLocked(c, s, t, failed, bundle)
       case _ => s)
    case AttemptAnswer(t, renewed) =>
      var p := PhaseOf(s, t);
      if renewed.Some? then Succeed(s, t, p.current, p.source, renewed.value.0, renewed.value.1)
      else if p.stage == Oauth && c.hasBrowser then Put(s, t, p.(stage := Browser))
      else Fail(c, s, t, p.source)
    case Login(key, bundle) => s.(stored := Some(Session(key, s.stamp, bundle)), stamp := s.stamp + 1)
    case Logout => s.(stored := None)
    case ProbeOk => Clear(s)
    case ProbeFailed => Mark(s)
    case Tick(seconds) => s.(now := s.now + seconds)
    case WaiterCalls => s.(waiter := if s.event then Woken else Blocked)
    case WaiterRuns =>
      if s.expiredKey.Some? && s.expiredKey.value == StoredKey(s) && s.expiredAt.Some? then
        s.(event := false, waiter := Away, delivered := s.delivered + [s.expiredAt.value])
      else
        ForgetStale(s).(event := false, waiter := Blocked)
    case StatusRead => ForgetStale(s)
  }

  /** Where a run of enabled steps leads; disabled steps are skipped. */
  function Run(c: Settings, s: State, steps: seq<Step>): State
    decreases |steps|
  {
    if steps == [] then
      s
    else
      var before := Run(c, s, steps[..|steps| - 1]);
      var step := steps[|steps| - 1];
      if Enabled(before, step) then Apply(c, before, step) else before
  }

  predicate Initial(s: State) {
    && (s.stored.Some? ==> s.stored.value.createdAt < s.stamp)
    && s.expiredKey.None? && s.expiredAt.None? && !s.event && s.failures == 0 && s.nextAttempt == 0
    && s.lock.None? && s.tasks == map[] && s.waiter == Away && s.now >= 0 && s.clearedAt == s.now
    && s.markings == 0 && s.delivered == [] && s.recovered == [] && s.starts == [] && s.failedRetries == []
  }
}

/**
 What every run of the session recovery protocol keeps.
 */
module SessionProofs {
  import opened Wrappers
  import opened Session

  // ------------------------------------------------------------------ one attempt at a time

  /** The lock is held exactly by the task whose attempt is in progress. */
  ghost predicate LockInv(s: State) {
    forall t: nat :: PhaseOf(s, t).Attempt? <==> s.lock == Some(t)
  }

  lemma LockKeptBySend(s: State, t: nat, again: bool)
    requires LockInv(s) && !PhaseOf(s, t).Attempt?
    ensures LockInv(Send(s, t, again))
  {
  }

  lemma LockKeptByBegin(c: Settings, s: State, t: nat, current: Session, source: Source)
    requires LockInv(s) && s.lock.None?
    ensures LockInv(Begin(c, s, t, current, source))
  {
  }

  lemma LockKeptByAnswer(c: Settings, s: State, t: nat, renewed: Option<(string, string)>)
    requires LockInv(s) && Enabled(s, AttemptAnswer(t, renewed))
    ensures LockInv(Apply(c, s, AttemptAnswer(t, renewed)))
  {
  }

  lemma LockKeptByAcquire(c: Settings, s: State, t: nat)
    requires LockInv(s) && Enabled(s, Acquire(t))
    ensures LockInv(Apply(c, s, Acquire(t)))
  {
    hide Begin;
    match PhaseOf(s, t)
    case WaitRetry(thenSend) =>
      if Authenticated(s.stored) {
        LockKeptByBegin(c, s, t, s.stored.value, FromRetry(thenSend));
      }
    case WaitReject(failed, bundle) =>
      if Authenticated(s.stored) {
        var current := if bundle != "" && s.stored.value.bundle == failed.bundle
                       then s.stored.value.(bundle := bundle) else s.stored.value;
        LockKeptByBegin(c, s.(stored := Some(current)), t, current, FromRejection);
      }
  }

  lemma LockKept(c: Settings, s: State, step: Step)
    requires LockInv(s) && Enabled(s, step)
    ensures LockInv(Apply(c, s, step))
  {
    hide Begin, Fail, Succeed, EnterRetryLocked, EnterRejectionLocked, Send;
    match step
    case Request(t) => LockKeptBySend(s, t, false);
    case Acquire(t) => LockKeptByAcquire(c, s, t);
    case AttemptAnswer(t, renewed) => LockKeptByAnswer(c, s, t, renewed);
    case _ =>
  }

  // ------------------------------------------------------------------ one success per generation

  ghost predicate Older(s: State, g: Generation) {
    g.createdAt < s.stamp
  }

  /** A recovered generation is neither stored nor being recovered any more, and was recovered once. */
  ghost predicate GenerationInv(s: State) {
    && (s.stored.Some? ==> Older(s, GenerationOf(s.stored.value)) && GenerationOf(s.stored.value) !in s.recovered)
    && (forall g :: g in s.recovered ==> Older(s, g))
    && (forall t: nat :: PhaseOf(s, t).Attempt? ==>
          Older(s, GenerationOf(PhaseOf(s, t).current)) && GenerationOf(PhaseOf(s, t).current) !in s.recovered)
    && (forall i, j :: 0 <= i < j < |s.recovered| ==> s.recovered[i] != s.recovered[j])
  }

  /** Nothing that `GenerationInv` looks at changed, except phases that are no attempts. */
  ghost predicate SameGenerations(s: State, s': State) {
    && s'.recovered == s.recovered && s'.stamp == s.stamp
    && (s'.stored == s.stored || (s'.stored.Some? && s.stored.Some?
          && GenerationOf(s'.stored.value) == GenerationOf(s.stored.value)) || s'.stored.None?)
    && (forall t: nat :: PhaseOf(s', t).Attempt? ==>
          || (PhaseOf(s, t).Attempt? && GenerationOf(PhaseOf(s', t).current) == GenerationOf(PhaseOf(s, t).current))
          || (s.stored.Some? && GenerationOf(PhaseOf(s', t).current) == GenerationOf(s.stored.value)))
  }

  lemma SameGenerationsKeep(s: State, s': State)
    requires GenerationInv(s) && SameGenerations(s, s')
    ensures GenerationInv(s')
  {
  }

  lemma BeginSameGenerations(c: Settings, s: State, t: nat, current: Session, source: Source)
    requires s.stored.Some? && GenerationOf(current) == GenerationOf(s.stored.value)
    ensures SameGenerations(s, Begin(c, s, t, current, source))
  {
    hide Fail, SameGenerations;
    var s1 := if source.FromRetry? then s.(starts := s.starts + [s.now]) else s;
    FailSameGenerations(c, s, s1, t, source);
    BegunSameGenerations(s, s1.(lock := Some(t)), t, Attempt(current, source, Oauth, s.now));
    BegunSameGenerations(s, s1.(lock := Some(t)), t, Attempt(current, source, Browser, s.now));
  }

  lemma BegunSameGenerations(s: State, s1: State, t: nat, p: Phase)
    requires s1.recovered == s.recovered && s1.stamp == s.stamp && s1.stored == s.stored && s1.tasks == s.tasks
    requires s.stored.Some? && p.Attempt? && GenerationOf(p.current) == GenerationOf(s.stored.value)
    ensures SameGenerations(s, Put(s1, t, p))
  {
  }

  lemma FailSameGenerations(c: Settings, s: State, s1: State, t: nat, source: Source)
    requires s1.recovered == s.recovered && s1.stamp == s.stamp && s1.stored == s.stored && s1.tasks == s.tasks
    ensures SameGenerations(s, Fail(c, s1, t, source))
  {
  }

  lemma SendSameGenerations(s: State, t: nat, again: bool)
    ensures SameGenerations(s, Send(s, t, again))
  {
  }

  lemma AcquireSameGenerations(c: Settings, s: State, t: nat)
    requires Enabled(s, Acquire(t))
    ensures SameGenerations(s, Apply(c, s, Acquire(t)))
  {
    hide Begin, Send;
    match PhaseOf(s, t)
    case WaitRetry(thenSend) =>
      SendSameGenerations(Clear(s), t, false);
      if Authenticated(s.stored) {
        BeginSameGenerations(c, s, t, s.stored.value, FromRetry(thenSend));
      }
    case WaitReject(failed, bundle) =>
      SendSameGenerations(s, t, true);
      if Authenticated(s.stored) {
        var current := if bundle != "" && s.stored.value.bundle == failed.bundle
                       then s.stored.value.(bundle := bundle) else s.stored.value;
        BeginSameGenerations(c, s.(stored := Some(current)), t, current, FromRejection);
      }
  }

  lemma FreshKeeps(s: State, key: string, bundle: string)
    requires GenerationInv(s)
    ensures GenerationInv(s.(stored := Some(Session(key, s.stamp, bundle)), stamp := s.stamp + 1))
  {
    var s' := s.(stored := Some(Session(key, s.stamp, bundle)), stamp := s.stamp + 1);
    assert forall u: nat :: PhaseOf(s', u) == PhaseOf(s, u);
  }

  lemma GenerationKeptBySuccess(s: State, t: nat, key: string, bundle: string)
    requires LockInv(s) && GenerationInv(s) && PhaseOf(s, t).Attempt?
    ensures GenerationInv(Succeed(s, t, PhaseOf(s, t).current, PhaseOf(s, t).source, key, bundle))
  {
    hide GenerationInv, Succeed, LockInv;
    var p := PhaseOf(s, t);
    var s' := Succeed(s, t, p.current, p.source, key, bundle);
    SucceedEndsAttempts(s, t, p.current, p.source, key, bundle);
    GenerationAdded(s, s', t);
  }

  lemma SucceedEndsAttempts(s: State, t: nat, current: Session, source: Source, key: string, bundle: string)
    requires LockInv(s) && PhaseOf(s, t).Attempt?
    ensures var s' := Succeed(s, t, current, source, key, bundle);
      && (forall u: nat :: !PhaseOf(s', u).Attempt?)
      && s'.recovered == s.recovered + [GenerationOf(current)] && s'.stamp == s.stamp + 1
      && s'.stored.Some? && s'.stored.value.createdAt == s.stamp
  {
    var s' := Succeed(s, t, current, source, key, bundle);
    forall u: nat ensures !PhaseOf(s', u).Attempt? {
      assert PhaseOf(s, u).Attempt? ==> u == t;
      assert u != t ==> PhaseOf(s', u) == PhaseOf(s, u);
    }
  }

  lemma GenerationAdded(s: State, s': State, t: nat)
    requires GenerationInv(s) && PhaseOf(s, t).Attempt?
    requires forall u: nat :: !PhaseOf(s', u).Attempt?
    requires s'.recovered == s.recovered + [GenerationOf(PhaseOf(s, t).current)] && s'.stamp == s.stamp + 1
    requires s'.stored.Some? && s'.stored.value.createdAt == s.stamp
    ensures GenerationInv(s')
  {
  }

  lemma GenerationKept(c: Settings, s: State, step: Step)
    requires LockInv(s) && GenerationInv(s) && Enabled(s, step)
    ensures GenerationInv(Apply(c, s, step))
  {
    hide Begin, Fail, Succeed, EnterRetryLocked, EnterRejectionLocked, Send, Mark, Clear, ForgetStale, GenerationInv, SameGenerations;
    match step
    case AttemptAnswer(t, Some(parts)) => GenerationKeptBySuccess(s, t, parts.0, parts.1);
    case Login(key, bundle) => FreshKeeps(s, key, bundle);
    case _ =>
      StepSameGenerations(c, s, step);
      SameGenerationsKeep(s, Apply(c, s, step));
  }

  /** Only a login and a successful attempt store another generation. */
  lemma StepSameGenerations(c: Settings, s: State, step: Step)
    requires Enabled(s, step) && !step.Login? && !(step.AttemptAnswer? && step.renewed.Some?)
    ensures SameGenerations(s, Apply(c, s, step))
  {
    hide Begin, Fail, Succeed, EnterRetryLocked, EnterRejectionLocked, Send, SameGenerations;
    match step
    case Request(t) =>
      SendSameGenerations(s, t, false);
      PutSameGenerations(s, s, t, EnterRetry(s, t, true).tasks[t]);
    case Recover(t) => PutSameGenerations(s, s, t, EnterRetry(s, t, false).tasks[t]);
    case Respond(t, _, _) =>
      var s' := Apply(c, s, step);
      PutSameGenerations(s, s'.(tasks := s.tasks), t, s'.tasks[t]);
    case Acquire(t) => AcquireSameGenerations(c, s, t);
    case AttemptAnswer(t, _) =>
      FailSameGenerations(c, s, s, t, PhaseOf(s, t).source);
      PutSameGenerations(s, s, t, PhaseOf(s, t).(stage := Browser));
    case Login(_, _) =>
    case _ => StillSameGenerations(s, Apply(c, s, step));
  }

  lemma PutSameGenerations(s: State, s1: State, t: nat, p: Phase)
    requires s1.recovered == s.recovered && s1.stamp == s.stamp && s1.stored == s.stored && s1.tasks == s.tasks
    requires p.Attempt? ==> PhaseOf(s, t).Attempt? && p.current == PhaseOf(s, t).current
    ensures SameGenerations(s, Put(s1, t, p))
  {
  }

  lemma StillSameGenerations(s: State, s': State)
    requires s'.recovered == s.recovered && s'.stamp == s.stamp && s'.tasks == s.tasks
    requires s'.stored == s.stored || s'.stored.None?
    ensures SameGenerations(s, s')
  {
  }

  // ------------------------------------------------------------------ markings and their delivery

  /** The event is set exactly while a marking is in force and undelivered; markings are delivered in order,
      each at most once; and the waiter never sleeps through one. */
  ghost predicate EventInv(s: State) {
    && (s.expiredKey.Some? <==> s.expiredAt.Some?)
    && (s.expiredAt.Some? ==> s.expiredAt.value == s.markings - 1)
    && (s.event <==> s.expiredAt.Some? && s.expiredAt.value !in s.delivered)
    && (forall m :: m in s.delivered ==> m < s.markings)
    && (forall i, j :: 0 <= i < j < |s.delivered| ==> s.delivered[i] < s.delivered[j])
    && (s.waiter == Blocked ==> !s.event)
    && (s.waiter == Woken ==> s.event || s.expiredKey.None?)
  }

  lemma EventKeptByMark(s: State)
    requires EventInv(s)
    ensures EventInv(Mark(s))
  {
  }

  lemma EventKeptByDelivery(s: State)
    requires EventInv(s) && s.waiter == Woken
    ensures EventInv(Apply(Settings(0, 0, false), s, WaiterRuns))
  {
    if s.expiredAt.Some? && s.event {
      forall i | 0 <= i < |s.delivered| ensures s.delivered[i] < s.expiredAt.value {
        assert s.delivered[i] in s.delivered;
      }
    }
  }

  lemma EventKeptBySend(s: State, t: nat, again: bool)
    requires EventInv(s)
    ensures EventInv(Send(s, t, again))
  {
  }

  lemma EventKeptByFail(c: Settings, s: State, t: nat, source: Source)
    requires EventInv(s)
    ensures EventInv(Fail(c, s, t, source))
  {
    hide Mark;
    EventKeptByMark(Schedule(c, s).(lock := None));
  }

  lemma EventKeptByBegin(c: Settings, s: State, t: nat, current: Session, source: Source)
    requires EventInv(s)
    ensures EventInv(Begin(c, s, t, current, source))
  {
    hide Fail;
    EventKeptByFail(c, if source.FromRetry? then s.(starts := s.starts + [s.now]) else s, t, source);
  }

  lemma EventKeptByAcquire(c: Settings, s: State, t: nat)
    requires EventInv(s) && Enabled(s, Acquire(t))
    ensures EventInv(Apply(c, s, Acquire(t)))
  {
    hide Mark, Begin, Send;
    EventKeptByMark(s);
    match PhaseOf(s, t)
    case WaitRetry(thenSend) =>
      EventKeptBySend(Clear(s), t, false);
      if Authenticated(s.stored) {
        EventKeptByBegin(c, s, t, s.stored.value, FromRetry(thenSend));
      }
    case WaitReject(failed, bundle) =>
      EventKeptBySend(s, t, true);
      if Authenticated(s.stored) {
        var current := if bundle != "" && s.stored.value.bundle == failed.bundle
                       then s.stored.value.(bundle := bundle) else s.stored.value;
        EventKeptByBegin(c, s.(stored := Some(current)), t, current, FromRejection);
      }
  }

  lemma EventKeptByAnswer(c: Settings, s: State, t: nat, renewed: Option<(string, string)>)
    requires EventInv(s) && Enabled(s, AttemptAnswer(t, renewed))
    ensures EventInv(Apply(c, s, AttemptAnswer(t, renewed)))
  {
    hide Fail;
    EventKeptByFail(c, s, t, PhaseOf(s, t).source);
  }

  lemma EventKept(c: Settings, s: State, step: Step)
    requires EventInv(s) && Enabled(s, step)
    ensures EventInv(Apply(c, s, step))
  {
    hide Mark, Send, Begin, Fail, Succeed, EnterRetryLocked, EnterRejectionLocked;
    match step
    case Request(t) => EventKeptBySend(s, t, false);
    case Respond(_, _, _) => EventKeptByMark(s);
    case Acquire(t) => EventKeptByAcquire(c, s, t);
    case AttemptAnswer(t, renewed) => EventKeptByAnswer(c, s, t, renewed);
    case ProbeFailed => EventKeptByMark(s);
    case WaiterRuns => EventKeptByDelivery(s);
    case _ =>
  }

  // ------------------------------------------------------------------ backoff

  ghost predicate RetryInProgress(s: State) {
    s.lock.Some? && PhaseOf(s, s.lock.value).Attempt? && PhaseOf(s, s.lock.value).source.FromRetry?
  }

  /** Since the last clear: the failed retries, and how early the next one may come. */
  ghost predicate FailuresSpaced(c: Settings, s: State) {
    && s.clearedAt <= s.now
    && s.failures >= |s.failedRetries|
    && (forall i :: 0 <= i < |s.failedRetries| ==> s.clearedAt + SumDelays(c, i) <= s.failedRetries[i] <= s.now)
    && (s.failedRetries != [] ==> s.nextAttempt >= s.clearedAt + SumDelays(c, |s.failedRetries|))
    && (RetryInProgress(s) ==>
          var start := PhaseOf(s, s.lock.value).start;
          start <= s.now && (s.failedRetries != [] ==> start >= s.nextAttempt))
  }

  /** Since the last clear: the starts of the retries, at least a backoff delay apart. */
  ghost predicate StartsSpaced(c: Settings, s: State) {
    && (forall i :: 0 <= i < |s.starts| ==> s.starts[i] <= s.now)
    && (forall i: nat :: i + 1 < |s.starts| ==> s.starts[i + 1] >= s.starts[i] + Delay(c, i + 1))
    && (s.starts != [] && !RetryInProgress(s) ==>
          && s.failures >= |s.starts|
          && s.nextAttempt >= s.starts[|s.starts| - 1] + Delay(c, |s.starts|))
    && (RetryInProgress(s) ==> s.failures + 1 >= |s.starts|)
  }

  ghost predicate BackoffInv(c: Settings, s: State) {
    FailuresSpaced(c, s) && StartsSpaced(c, s)
  }

  /** Nothing the backoff looks at changed, except that time passed or an attempt ended without counting. */
  ghost predicate SameBackoff(s: State, s': State) {
    && s'.clearedAt == s.clearedAt && s'.now >= s.now && s'.failures == s.failures && s'.nextAttempt == s.nextAttempt
    && s'.starts == s.starts && s'.failedRetries == s.failedRetries && s'.lock == s.lock
    && (RetryInProgress(s') <==> RetryInProgress(s))
    && (RetryInProgress(s) ==> PhaseOf(s', s.lock.value).start == PhaseOf(s, s.lock.value).start)
  }

  lemma SameBackoffKeeps(c: Settings, s: State, s': State)
    requires BackoffInv(c, s) && SameBackoff(s, s')
    ensures BackoffInv(c, s')
  {
  }

  /** A cleared state satisfies everything, whatever attempt may still be in progress. */
  lemma ClearedBackoff(c: Settings, s: State)
    requires s.clearedAt == s.now && s.failures == 0 && s.nextAttempt == 0 && s.starts == [] && s.failedRetries == []
    requires RetryInProgress(s) ==> PhaseOf(s, s.lock.value).start <= s.now
    ensures BackoffInv(c, s)
  {
  }

  /** The starts so far are spaced, and all but at most one of them have failed. */
  ghost predicate StartsCounted(c: Settings, s: State) {
    && (forall i :: 0 <= i < |s.starts| ==> s.starts[i] <= s.now)
    && (forall i: nat :: i + 1 < |s.starts| ==> s.starts[i + 1] >= s.starts[i] + Delay(c, i + 1))
    && s.failures + 1 >= |s.starts|
  }

  ghost predicate FailuresCounted(c: Settings, s: State) {
    && s.clearedAt <= s.now
    && s.failures >= |s.failedRetries|
    && (forall i :: 0 <= i < |s.failedRetries| ==> s.clearedAt + SumDelays(c, i) <= s.failedRetries[i] <= s.now)
    && (s.failedRetries != [] ==> s.nextAttempt >= s.clearedAt + SumDelays(c, |s.failedRetries|))
  }

  lemma StartsAfterFail(c: Settings, s: State)
    requires StartsCounted(c, s) && s.starts != []
    ensures s.now + Delay(c, s.failures + 1) >= s.starts[|s.starts| - 1] + Delay(c, |s.starts|)
  {
    DelaysGrow(c, |s.starts|, s.failures + 1);
  }

  /** A retry that fails comes no earlier than the delays before it allow. */
  lemma RetryFailed(c: Settings, s: State, t: nat, thenSend: bool)
    requires FailuresCounted(c, s) && StartsCounted(c, s)
    requires s.failedRetries != [] ==> s.now >= s.nextAttempt
    ensures BackoffInv(c, Fail(c, s, t, FromRetry(thenSend)))
  {
    RetryFailedLate(c, s, t, thenSend);
    hide FailuresSpaced, FailuresCounted, Delay, SumDelays;
    if s.starts != [] {
      StartsAfterFail(c, s);
    }
  }

  lemma RetryFailedLate(c: Settings, s: State, t: nat, thenSend: bool)
    requires FailuresCounted(c, s)
    requires s.failedRetries != [] ==> s.now >= s.nextAttempt
    ensures FailuresSpaced(c, Fail(c, s, t, FromRetry(thenSend)))
  {
    var s', n := Fail(c, s, t, FromRetry(thenSend)), |s.failedRetries|;
    DelaysGrow(c, n + 1, s.failures + 1);
    SumDelaysStep(c, n + 1);
    hide Delay;
    forall i | 0 <= i <= n ensures s.clearedAt + SumDelays(c, i) <= s'.failedRetries[i] <= s.now {
      assert i < n ==> s'.failedRetries[i] == s.failedRetries[i];
    }
  }

  /** A failure that is no retry may only push the next retry further away. */
  lemma ScheduledBackoff(c: Settings, s: State)
    requires FailuresCounted(c, s) && StartsCounted(c, s)
    ensures BackoffInv(c, Schedule(c, s).(lock := None))
  {
    hide SumDelays, Delay;
    ScheduledAfterFailures(c, s);
    if s.starts != [] {
      StartsAfterFail(c, s);
    }
  }

  lemma ScheduledAfterFailures(c: Settings, s: State)
    requires FailuresCounted(c, s)
    ensures s.failedRetries != [] ==> s.now + Delay(c, s.failures + 1) >= s.clearedAt + SumDelays(c, |s.failedRetries|)
  {
    var k := |s.failedRetries|;
    if k > 0 {
      DelaysGrow(c, k, s.failures + 1);
      SumDelaysStep(c, k);
      assert s.failedRetries[k - 1] >= s.clearedAt + SumDelays(c, k - 1);
    }
  }

  lemma SumDelaysStep(c: Settings, k: nat)
    requires k > 0
    ensures SumDelays(c, k) == SumDelays(c, k - 1) + Delay(c, k)
  {
  }

  lemma RejectionFailed(c: Settings, s: State, t: nat)
    requires FailuresCounted(c, s) && StartsCounted(c, s)
    ensures BackoffInv(c, Fail(c, s, t, FromRejection))
  {
    hide BackoffInv, FailuresCounted, StartsCounted, Schedule;
    var s1 := Schedule(c, s).(lock := None);
    ScheduledBackoff(c, s);
    assert SameBackoff(s1, Fail(c, s, t, FromRejection));
    SameBackoffKeeps(c, s1, Fail(c, s, t, FromRejection));
  }

  lemma BackoffCounts(c: Settings, s: State)
    requires BackoffInv(c, s)
    ensures FailuresCounted(c, s) && StartsCounted(c, s)
  {
  }

  lemma RetryBegun(c: Settings, s: State, t: nat, current: Session, thenSend: bool, stage: Stage)
    requires BackoffInv(c, s) && s.lock.None? && s.now >= s.nextAttempt
    ensures BackoffInv(c, Put(s.(starts := s.starts + [s.now], lock := Some(t)), t,
                              Attempt(current, FromRetry(thenSend), stage, s.now)))
  {
  }

  lemma RecoveryBegun(c: Settings, s: State, t: nat, current: Session, stage: Stage)
    requires BackoffInv(c, s) && s.lock.None?
    ensures BackoffInv(c, Put(s.(lock := Some(t)), t, Attempt(current, FromRejection, stage, s.now)))
  {
  }

  /** A retry begins only once the backoff has run out. */
  lemma BackoffKeptByBegin(c: Settings, s: State, t: nat, current: Session, source: Source)
    requires BackoffInv(c, s) && s.lock.None? && (source.FromRetry? ==> s.now >= s.nextAttempt)
    ensures BackoffInv(c, Begin(c, s, t, current, source))
  {
    hide Fail, FailuresSpaced, StartsSpaced;
    BackoffCounts(c, s);
    var stage := if current.bundle != "" then Oauth else Browser;
    if source.FromRetry? {
      var s1 := s.(starts := s.starts + [s.now]);
      StartCounted(c, s);
      RetryFailed(c, s1, t, source.thenSend);
      RetryBegun(c, s, t, current, source.thenSend, stage);
    } else {
      RejectionFailed(c, s, t);
      RecoveryBegun(c, s, t, current, stage);
    }
  }

  lemma StartCounted(c: Settings, s: State)
    requires BackoffInv(c, s) && s.lock.None? && s.now >= s.nextAttempt
    ensures FailuresCounted(c, s.(starts := s.starts + [s.now])) && StartsCounted(c, s.(starts := s.starts + [s.now]))
  {
  }

  lemma SendBackoff(s: State, t: nat, again: bool)
    requires LockInv(s) && !PhaseOf(s, t).Attempt?
    ensures SameBackoff(s, Send(s, t, again)) || (SameBackoff(Clear(s), Send(s, t, again)))
  {
  }

  lemma BackoffKeptByClear(c: Settings, s: State)
    requires BackoffInv(c, s)
    ensures BackoffInv(c, Clear(s))
  {
    ClearedBackoff(c, Clear(s));
  }

  lemma BackoffKeptBySend(c: Settings, s: State, t: nat, again: bool)
    requires LockInv(s) && BackoffInv(c, s) && !PhaseOf(s, t).Attempt?
    ensures BackoffInv(c, Send(s, t, again))
  {
    hide BackoffInv, LockInv, Send, SameBackoff;
    SendBackoff(s, t, again);
    BackoffKeptByClear(c, s);
    if SameBackoff(s, Send(s, t, again)) {
      SameBackoffKeeps(c, s, Send(s, t, again));
    } else {
      SameBackoffKeeps(c, Clear(s), Send(s, t, again));
    }
  }

  lemma BackoffKeptByAcquire(c: Settings, s: State, t: nat)
    requires LockInv(s) && BackoffInv(c, s) && Enabled(s, Acquire(t))
    ensures BackoffInv(c, Apply(c, s, Acquire(t)))
  {
    hide Begin, Send, BackoffInv;
    BackoffKeptByClear(c, s);
    match PhaseOf(s, t)
    case WaitRetry(thenSend) =>
      BackoffKeptBySend(c, Clear(s), t, false);
      SameBackoffKeeps(c, Clear(s), Put(Clear(s), t, Done(Recovered)));
      if s.now >= s.nextAttempt && Authenticated(s.stored) && s.expiredKey == Some(s.stored.value.key) {
        BackoffKeptByBegin(c, s, t, s.stored.value, FromRetry(thenSend));
      } else {
        SameBackoffKeeps(c, s, Put(s, t, Done(if thenSend then Expired else NotRecovered)));
      }
    case WaitReject(failed, bundle) =>
      BackoffKeptBySend(c, s, t, true);
      if Authenticated(s.stored) {
        var current := if bundle != "" && s.stored.value.bundle == failed.bundle
                       then s.stored.value.(bundle := bundle) else s.stored.value;
        var s1 := s.(stored := Some(current));
        SameBackoffKeeps(c, s, s1);
        BackoffKeptByBegin(c, s1, t, current, FromRejection);
      } else {
        SameBackoffKeeps(c, s, Put(Mark(s), t, Done(Expired)));
      }
  }

  lemma BackoffKeptByAnswer(c: Settings, s: State, t: nat, renewed: Option<(string, string)>)
    requires LockInv(s) && BackoffInv(c, s) && Enabled(s, AttemptAnswer(t, renewed))
    ensures BackoffInv(c, Apply(c, s, AttemptAnswer(t, renewed)))
  {
    hide Fail, Succeed;
    BackoffCounts(c, s);
    var p := PhaseOf(s, t);
    assert s.lock == Some(t);
    if renewed.Some? {
      SuccessClears(c, s, t, renewed.value.0, renewed.value.1);
    } else if p.stage == Oauth && c.hasBrowser {
      SameBackoffKeeps(c, s, Put(s, t, p.(stage := Browser)));
    } else if p.source.FromRetry? {
      RetryFailed(c, s, t, p.source.thenSend);
    } else {
      RejectionFailed(c, s, t);
    }
  }

  lemma SuccessClears(c: Settings, s: State, t: nat, key: string, bundle: string)
    requires LockInv(s) && PhaseOf(s, t).Attempt?
    ensures BackoffInv(c, Succeed(s, t, PhaseOf(s, t).current, PhaseOf(s, t).source, key, bundle))
  {
    hide BackoffInv;
    ClearedBackoff(c, Succeed(s, t, PhaseOf(s, t).current, PhaseOf(s, t).source, key, bundle));
  }

  lemma BackoffKept(c: Settings, s: State, step: Step)
    requires LockInv(s) && BackoffInv(c, s) && Enabled(s, step)
    ensures BackoffInv(c, Apply(c, s, step))
  {
    hide BackoffInv, SameBackoff, Send, Begin, Fail, Succeed, EnterRetryLocked, EnterRejectionLocked, Mark, Clear;
    match step
    case Request(t) =>
      BackoffKeptBySend(c, s, t, false);
      RetryEnteredSame(s, t);
      SameBackoffKeeps(c, s, EnterRetry(s, t, true));
    case Acquire(t) => BackoffKeptByAcquire(c, s, t);
    case AttemptAnswer(t, renewed) => BackoffKeptByAnswer(c, s, t, renewed);
    case ProbeOk => BackoffKeptByClear(c, s);
    case WaiterRuns => BackoffKeptByWaiter(c, s);
    case StatusRead => BackoffKeptByClear(c, s);
    case _ =>
      OtherSameBackoff(c, s, step);
      SameBackoffKeeps(c, s, Apply(c, s, step));
  }

  lemma BackoffKeptByWaiter(c: Settings, s: State)
    requires BackoffInv(c, s) && s.waiter == Woken
    ensures BackoffInv(c, Apply(c, s, WaiterRuns))
  {
    hide BackoffInv;
    BackoffKeptByClear(c, s);
    if s.expiredKey.Some? && s.expiredKey.value != StoredKey(s) {
      SameBackoffKeeps(c, Clear(s), Apply(c, s, WaiterRuns));
    } else {
      SameBackoffKeeps(c, s, Apply(c, s, WaiterRuns));
    }
  }

  lemma RetryEnteredSame(s: State, t: nat)
    requires LockInv(s) && !PhaseOf(s, t).Attempt?
    ensures SameBackoff(s, EnterRetry(s, t, true))
  {
  }

  lemma OtherSameBackoff(c: Settings, s: State, step: Step)
    requires LockInv(s) && Enabled(s, step)
    requires match step case Recover(_) => true case Respond(_, _, _) => true case Login(_, _) => true case Logout => true
             case ProbeFailed => true case Tick(_) => true case WaiterCalls => true case _ => false
    ensures SameBackoff(s, Apply(c, s, step))
  {
    hide Begin, Fail, Succeed, Send, EnterRetryLocked, EnterRejectionLocked;
  }

  // ------------------------------------------------------------------ theorems about every run

  ghost predicate Inv(c: Settings, s: State) {
    LockInv(s) && GenerationInv(s) && EventInv(s) && BackoffInv(c, s)
  }

  lemma {:induction false} RunKeeps(c: Settings, s: State, steps: seq<Step>)
    requires Initial(s)
    ensures Inv(c, Run(c, s, steps))
    decreases |steps|
  {
    hide Apply, Enabled;
    if steps == [] {
      ClearedBackoff(c, s);
    } else {
      RunKeeps(c, s, steps[..|steps| - 1]);
      var before, step := Run(c, s, steps[..|steps| - 1]), steps[|steps| - 1];
      if Enabled(before, step) {
        LockKept(c, before, step);
        GenerationKept(c, before, step);
        EventKept(c, before, step);
        BackoffKept(c, before, step);
      }
    }
  }

  /** In every run, at most one task has a recovery attempt in progress. */
  lemma SingleFlight(c: Settings, s: State, steps: seq<Step>, t: nat, u: nat)
    requires Initial(s)
    requires PhaseOf(Run(c, s, steps), t).Attempt? && PhaseOf(Run(c, s, steps), u).Attempt?
    ensures t == u
  {
    hide GenerationInv, EventInv, BackoffInv;
    RunKeeps(c, s, steps);
  }

  lemma RecoveredGrows(c: Settings, s: State, step: Step)
    requires Enabled(s, step)
    ensures s.recovered <= Apply(c, s, step).recovered
  {
    hide Begin, Fail, Succeed, Send, Mark, Clear, ForgetStale, EnterRetryLocked, EnterRejectionLocked, SameGenerations;
    if step.AttemptAnswer? && step.renewed.Some? {
      SuccessRecovers(s, step.task, PhaseOf(s, step.task).current, PhaseOf(s, step.task).source, step.renewed.value.0, step.renewed.value.1);
    } else if !step.Login? {
      StepSameGenerations(c, s, step);
      SameRecovered(s, Apply(c, s, step));
    }
  }

  lemma SameRecovered(s: State, s': State)
    requires SameGenerations(s, s')
    ensures s'.recovered == s.recovered
  {
  }

  lemma SuccessRecovers(s: State, t: nat, current: Session, source: Source, key: string, bundle: string)
    ensures Succeed(s, t, current, source, key, bundle).recovered == s.recovered + [GenerationOf(current)]
  {
  }

  /** In every run, once an attempt has recovered a generation, no attempt for it starts again, and it is not
      recovered twice. */
  lemma RecoveredOnce(c: Settings, s: State, steps: seq<Step>, step: Step, t: nat)
    requires Initial(s) && Enabled(Run(c, s, steps), step)
    ensures var before, after := Run(c, s, steps), Apply(c, Run(c, s, steps), step);
      && (PhaseOf(after, t).Attempt? ==> GenerationOf(PhaseOf(after, t).current) !in before.recovered)
      && (forall i, j :: 0 <= i < j < |after.recovered| ==> after.recovered[i] != after.recovered[j])
  {
    RunKeeps(c, s, steps);
    GenerationKept(c, Run(c, s, steps), step);
    RecoveredGrows(c, Run(c, s, steps), step);
  }

  /** A task rejected with a generation that has been recovered meanwhile goes straight on to send again. */
  lemma RejectedJoins(c: Settings, s: State, steps: seq<Step>, t: nat)
    requires Initial(s)
    requires var s1 := Run(c, s, steps);
      && s1.lock.None? && PhaseOf(s1, t).WaitReject? && Authenticated(s1.stored)
      && GenerationOf(PhaseOf(s1, t).failed) in s1.recovered
    ensures Apply(c, Run(c, s, steps), Acquire(t)) == Send(Run(c, s, steps), t, true)
  {
    hide LockInv, EventInv, BackoffInv;
    RunKeeps(c, s, steps);
  }

  /** In every run the markings are delivered in order, none twice; while one is in force and undelivered the
      event is set and the waiter is not asleep. */
  lemma DeliveredOnce(c: Settings, s: State, steps: seq<Step>)
    requires Initial(s)
    ensures var s1 := Run(c, s, steps);
      && (forall i, j :: 0 <= i < j < |s1.delivered| ==> s1.delivered[i] < s1.delivered[j] < s1.markings)
      && (s1.event <==> s1.expiredAt.Some? && s1.expiredAt.value !in s1.delivered)
      && (s1.expiredAt.Some? && s1.expiredAt.value !in s1.delivered ==> s1.waiter != Blocked)
  {
    hide LockInv, GenerationInv, BackoffInv;
    RunKeeps(c, s, steps);
    var s1 := Run(c, s, steps);
    forall j | 0 <= j < |s1.delivered| ensures s1.delivered[j] < s1.markings {
      assert s1.delivered[j] in s1.delivered;
    }
  }

  /** The waiter, when it runs, delivers exactly a marking that is in force: undelivered, and of the session
      that is still stored. */
  lemma WaiterDelivers(c: Settings, s: State, steps: seq<Step>)
    requires Initial(s) && Run(c, s, steps).waiter == Woken
    ensures var before, after := Run(c, s, steps), Apply(c, Run(c, s, steps), WaiterRuns);
      var inForce := before.expiredAt.Some? && before.expiredAt.value !in before.delivered
                     && before.expiredKey == Some(StoredKey(before));
      after.delivered == if inForce then before.delivered + [before.expiredAt.value] else before.delivered
  {
    hide LockInv, GenerationInv, BackoffInv;
    RunKeeps(c, s, steps);
  }

  /** A task put into `Sending` sends the stored session, which is then not flagged. */
  ghost predicate SendsStored(s: State, t: nat) {
    PhaseOf(s, t).Sending? ==> s.stored == Some(PhaseOf(s, t).session) && s.expiredKey.None?
  }

  lemma SendSendsStored(s: State, t: nat, again: bool)
    ensures SendsStored(Send(s, t, again), t) && !PhaseOf(Send(s, t, again), t).Attempt?
    ensures forall u: nat :: u != t ==> PhaseOf(Send(s, t, again), u) == PhaseOf(s, u)
  {
  }

  lemma BeginSendsNothing(c: Settings, s: State, t: nat, current: Session, source: Source)
    ensures SendsStored(Begin(c, s, t, current, source), t)
    ensures PhaseOf(Begin(c, s, t, current, source), t).Attempt? ==> PhaseOf(Begin(c, s, t, current, source), t).source == source
    ensures forall u: nat :: u != t ==> PhaseOf(Begin(c, s, t, current, source), u) == PhaseOf(s, u)
  {
  }

  lemma FailSendsNothing(c: Settings, s: State, t: nat, source: Source)
    ensures SendsStored(Fail(c, s, t, source), t) && !PhaseOf(Fail(c, s, t, source), t).Attempt?
    ensures forall u: nat :: u != t ==> PhaseOf(Fail(c, s, t, source), u) == PhaseOf(s, u)
  {
  }

  lemma SucceedSendsStored(s: State, t: nat, current: Session, source: Source, key: string, bundle: string)
    ensures SendsStored(Succeed(s, t, current, source, key, bundle), t)
    ensures !PhaseOf(Succeed(s, t, current, source, key, bundle), t).Attempt?
    ensures forall u: nat :: u != t ==> PhaseOf(Succeed(s, t, current, source, key, bundle), u) == PhaseOf(s, u)
  {
  }

  lemma AcquireSendsStored(c: Settings, s: State, t: nat, u: nat)
    requires Enabled(s, Acquire(u))
    ensures t == u ==> SendsStored(Apply(c, s, Acquire(u)), t)
    ensures t != u ==> PhaseOf(Apply(c, s, Acquire(u)), t) == PhaseOf(s, t)
  {
    hide Send, Begin;
    match PhaseOf(s, u)
    case WaitRetry(thenSend) =>
      SendSendsStored(Clear(s), u, false);
      if Authenticated(s.stored) {
        BeginSendsNothing(c, s, u, s.stored.value, FromRetry(thenSend));
      }
    case WaitReject(failed, bundle) =>
      SendSendsStored(s, u, true);
      if Authenticated(s.stored) {
        var current := if bundle != "" && s.stored.value.bundle == failed.bundle
                       then s.stored.value.(bundle := bundle) else s.stored.value;
        BeginSendsNothing(c, s.(stored := Some(current)), u, current, FromRejection);
      }
  }

  /** A request only goes out with the stored session, and never while that session is flagged expired: in
      any state at all, whichever step sends it. */
  lemma NoFlaggedSend(c: Settings, s: State, step: Step, t: nat)
    requires Enabled(s, step)
    requires PhaseOf(Apply(c, s, step), t).Sending? && PhaseOf(Apply(c, s, step), t) != PhaseOf(s, t)
    ensures var after := Apply(c, s, step);
      && after.stored == Some(PhaseOf(after, t).session)
      && after.expiredKey.None? && !Flagged(after)
  {
    hide Send, Begin, Fail, Succeed, EnterRetryLocked, EnterRejectionLocked;
    match step
    case Request(u) => SendSendsStored(s, u, false);
    case Acquire(u) => AcquireSendsStored(c, s, t, u);
    case AttemptAnswer(u, renewed) =>
      var p := PhaseOf(s, u);
      FailSendsNothing(c, s, u, p.source);
      if renewed.Some? {
        SucceedSendsStored(s, u, p.current, p.source, renewed.value.0, renewed.value.1);
      }
    case _ =>
  }

  /** Only the lock turns a waiting task into an attempting one, and for a retry only after the backoff. */
  lemma AcquireStartsRetry(c: Settings, s: State, t: nat, u: nat)
    requires Enabled(s, Acquire(u)) && !PhaseOf(s, t).Attempt?
    requires PhaseOf(Apply(c, s, Acquire(u)), t).Attempt? && PhaseOf(Apply(c, s, Acquire(u)), t).source.FromRetry?
    ensures t == u && s.now >= s.nextAttempt
  {
    hide Send, Begin;
    AcquireSendsStored(c, s, t, u);
    match PhaseOf(s, u)
    case WaitRetry(thenSend) => SendSendsStored(Clear(s), u, false);
    case WaitReject(failed, bundle) =>
      SendSendsStored(s, u, true);
      if Authenticated(s.stored) {
        var current := if bundle != "" && s.stored.value.bundle == failed.bundle
                       then s.stored.value.(bundle := bundle) else s.stored.value;
        BeginSendsNothing(c, s.(stored := Some(current)), u, current, FromRejection);
      }
  }

  /** However many tasks want to recover an expired session, a retry starts only when the backoff has run out,
      also for those that were already waiting for the lock. */
  lemma NoRetryInsideWindow(c: Settings, s: State, step: Step, t: nat)
    requires Enabled(s, step) && !PhaseOf(s, t).Attempt?
    requires PhaseOf(Apply(c, s, step), t).Attempt? && PhaseOf(Apply(c, s, step), t).source.FromRetry?
    ensures step == Acquire(t) && s.now >= s.nextAttempt && s.lock.None?
  {
    hide Send, Begin, Fail, Succeed, EnterRetryLocked, EnterRejectionLocked;
    match step
    case Request(u) => SendSendsStored(s, u, false);
    case Acquire(u) => AcquireStartsRetry(c, s, t, u);
    case AttemptAnswer(u, renewed) =>
      var p := PhaseOf(s, u);
      FailSendsNothing(c, s, u, p.source);
      if renewed.Some? {
        SucceedSendsStored(s, u, p.current, p.source, renewed.value.0, renewed.value.1);
      }
    case _ =>
  }

  /** In every run: since the last clear, retries start at least one backoff delay apart, and the n-th failed
      one comes no earlier than the delays of all failures before it. */
  lemma RetriesSpaced(c: Settings, s: State, steps: seq<Step>)
    requires Initial(s)
    ensures var s1 := Run(c, s, steps);
      && (forall i: nat :: i + 1 < |s1.starts| ==> s1.starts[i + 1] >= s1.starts[i] + Delay(c, i + 1))
      && (forall n :: 0 <= n < |s1.failedRetries| ==> s1.failedRetries[n] >= s1.clearedAt + SumDelays(c, n))
  {
    hide LockInv, GenerationInv, EventInv;
    RunKeeps(c, s, steps);
  }
}

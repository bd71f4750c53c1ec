/**
 What each step of the session recovery protocol brings about, in sessions, markings and times
 (src/o2gateway/o2/api.py:80-131, 520-560, 630-723, 801-819).
 */
module SessionEffects {
  import opened Wrappers
  import opened Session
  import opened SessionProofs

  // ------------------------------------------------------------------ delays

  /** The first delay is the configured one, but at least a minute; each of the next six is twice the one before, up to
      the cap; after that they stay. */
  lemma DelaysDouble(c: Settings, n: nat)
    requires n > 0
    ensures var base := if c.retrySeconds > 60 then c.retrySeconds else 60;
      var cap := if c.maxRetrySeconds > base then c.maxRetrySeconds else base;
      && Delay(c, 1) == base
      && (n < 7 ==> Delay(c, n + 1) == if 2 * Delay(c, n) < cap then 2 * Delay(c, n) else cap)
      && (n >= 7 ==> Delay(c, n + 1) == Delay(c, n))
  {
    if n < 7 {
      Twice(BaseDelay(c), Pow2(n - 1), Pow2(n));
      Pow2Grows(0, n - 1);
      Scaled(BaseDelay(c), 1, Pow2(n - 1));
    }
  }

  lemma Twice(base: int, p: int, q: int)
    requires q == 2 * p
    ensures base * q == 2 * (base * p)
  {
  }

  // ------------------------------------------------------------------ states, as they look from outside

  predicate HasSession(s: State) {
    s.stored.Some? && s.stored.value.key != ""
  }

  /** The stored session is the one that is marked as expired. */
  predicate StoredIsMarked(s: State) {
    HasSession(s) && s.expiredKey.Some? && s.expiredKey.value == s.stored.value.key
  }

  /** No marking, and nothing counted. */
  predicate Calm(s: State) {
    s.expiredKey.None? && s.expiredAt.None? && !s.event && s.failures == 0 && s.nextAttempt == 0
  }

  predicate Ended(s: State, t: nat, outcome: Outcome) {
    t in s.tasks && s.tasks[t] == Done(outcome)
  }

  /** Of the client and the other tasks nothing changed. */
  predicate OnlyTask(s: State, s': State, t: nat) {
    s' == s.(tasks := s.tasks[t := PhaseOf(s', t)])
  }

  /** Task `t` sends the stored session, and any marking, which was about another one, is gone. */
  predicate Sends(s: State, s': State, t: nat, again: bool) {
    && s.stored.Some? && t in s'.tasks && s'.tasks[t] == Sending(s.stored.value, again) && s'.stored == s.stored
    && (if s.expiredKey.Some? then Calm(s') else OnlyTask(s, s', t))
  }

  // ------------------------------------------------------------------ requests

  /** A request is sent with a stored session that is not marked; with a marked one it fails fast, unless the backoff has
      run out and it may try a recovery first. */
  lemma Requests(c: Settings, s: State, t: nat)
    requires Enabled(s, Request(t))
    ensures var s' := Apply(c, s, Request(t));
      && (!HasSession(s) ==> OnlyTask(s, s', t) && Ended(s', t, Missing))
      && (HasSession(s) && !StoredIsMarked(s) ==> Sends(s, s', t, false))
      && (StoredIsMarked(s) && s.now < s.nextAttempt ==> OnlyTask(s, s', t) && Ended(s', t, Expired))
      && (StoredIsMarked(s) && s.now >= s.nextAttempt ==> OnlyTask(s, s', t) && PhaseOf(s', t) == WaitRetry(true))
  {
  }

  lemma Recovers(c: Settings, s: State, t: nat)
    requires Enabled(s, Recover(t))
    ensures var s' := Apply(c, s, Recover(t));
      && OnlyTask(s, s', t)
      && (s.now < s.nextAttempt ==> Ended(s', t, NotRecovered)) && (s.now >= s.nextAttempt ==> PhaseOf(s', t) == WaitRetry(false))
  {
  }

  /** An accepted request ends well; one rejected for the first time waits for its turn to recover, one rejected again
      ends as expired. */
  lemma Responds(c: Settings, s: State, t: nat, accepted: bool, bundle: string)
    requires Enabled(s, Respond(t, accepted, bundle))
    ensures var p, s' := PhaseOf(s, t), Apply(c, s, Respond(t, accepted, bundle));
      && (accepted ==> OnlyTask(s, s', t) && Ended(s', t, Answered))
      && (!accepted && !p.again ==> OnlyTask(s, s', t) && PhaseOf(s', t) == WaitReject(p.session, bundle))
      && (!accepted && p.again ==> Ended(s', t, Expired) && s'.stored == s.stored && s'.lock == s.lock)
  {
  }

  // ------------------------------------------------------------------ inside the lock

  /** How an attempt for `current` begins: with its bundle, or else in the browser; with neither it has failed. */
  predicate Begins(c: Settings, s: State, s': State, t: nat, current: Session, source: Source) {
    && s'.stored == s.stored
    && (if current.bundle != "" then
          s'.lock == Some(t) && PhaseOf(s', t) == Attempt(current, source, Oauth, s.now)
        else if c.hasBrowser then
          s'.lock == Some(t) && PhaseOf(s', t) == Attempt(current, source, Browser, s.now)
        else
          Fails(c, s, s', t, source))
  }

  /** How an attempt ends that has failed: counted, the lock free, and the next one not before the delay is over. */
  predicate Fails(c: Settings, s: State, s': State, t: nat, source: Source) {
    && s'.stored == s.stored && s'.lock.None? && s'.failures == s.failures + 1
    && s'.nextAttempt == s.now + Delay(c, s.failures + 1)
    && Ended(s', t, if source.FromRetry? && !source.thenSend then NotRecovered else Expired)
  }

  lemma AttemptBegins(c: Settings, s: State, t: nat, current: Session, source: Source)
    ensures Begins(c, s, Begin(c, s, t, current, source), t, current, source)
  {
    hide Delay;
  }

  /** A task that waited to retry: it gives up while the backoff runs or without a session; a session that is no longer
      the marked one is used; and otherwise an attempt begins. */
  lemma RetryEnters(c: Settings, s: State, t: nat)
    requires Enabled(s, Acquire(t)) && PhaseOf(s, t).WaitRetry?
    ensures var thenSend, s' := PhaseOf(s, t).thenSend, Apply(c, s, Acquire(t));
      && (s.now < s.nextAttempt || !HasSession(s) ==>
            OnlyTask(s, s', t) && Ended(s', t, if thenSend then Expired else NotRecovered))
      && (s.now >= s.nextAttempt && HasSession(s) && !StoredIsMarked(s) ==>
            Calm(s') && s'.stored == s.stored
            && (if thenSend then PhaseOf(s', t) == Sending(s.stored.value, false) else Ended(s', t, Recovered)))
      && (s.now >= s.nextAttempt && StoredIsMarked(s) ==>
            Begins(c, s, s', t, s.stored.value, FromRetry(thenSend)) && s'.starts == s.starts + [s.now])
  {
    hide Delay, Begin;
    if StoredIsMarked(s) {
      AttemptBegins(c, s, t, s.stored.value, FromRetry(PhaseOf(s, t).thenSend));
      StartIsCounted(c, s, t, s.stored.value, PhaseOf(s, t).thenSend);
    }
  }

  lemma StartIsCounted(c: Settings, s: State, t: nat, current: Session, thenSend: bool)
    ensures Begin(c, s, t, current, FromRetry(thenSend)).starts == s.starts + [s.now]
  {
  }

  /** The session an attempt for a rejected request works with: the stored one, with the bundle the rejection brought if
      nobody has replaced it meanwhile. */
  function WorkedWith(s: State, failed: Session, bundle: string): Session
    requires s.stored.Some?
  {
    if bundle != "" && s.stored.value.bundle == failed.bundle then Session(s.stored.value.key, s.stored.value.createdAt, bundle)
    else s.stored.value
  }

  predicate SameSession(a: Session, b: Session) {
    a.key == b.key && a.createdAt == b.createdAt
  }

  /** A task that waited with a rejected request: with another session stored by now it just sends again; with the
      rejected one an attempt begins. */
  lemma RejectionEnters(c: Settings, s: State, t: nat)
    requires Enabled(s, Acquire(t)) && PhaseOf(s, t).WaitReject? && HasSession(s)
    ensures var p, s' := PhaseOf(s, t), Apply(c, s, Acquire(t));
      && (!SameSession(s.stored.value, p.failed) && !StoredIsMarked(s) ==> Sends(s, s', t, true))
      && (!SameSession(s.stored.value, p.failed) && StoredIsMarked(s) ==> OnlyTask(s, s', t) && Ended(s', t, Expired))
      && (SameSession(s.stored.value, p.failed) ==>
            var current := WorkedWith(s, p.failed, p.bundle);
            Begins(c, s.(stored := Some(current)), s', t, current, FromRejection))
  {
    hide Delay, Begin;
    var p := PhaseOf(s, t);
    if SameSession(s.stored.value, p.failed) {
      var current := WorkedWith(s, p.failed, p.bundle);
      AttemptBegins(c, s.(stored := Some(current)), t, current, FromRejection);
    }
  }

  /** An attempt that is answered: a new session is stored, the marking is gone, and the task goes on with it; a failed
      one goes on in the browser if it has not been there yet and there is one, and has failed otherwise. */
  lemma AttemptEnds(c: Settings, s: State, t: nat, renewed: Option<(string, string)>)
    requires Enabled(s, AttemptAnswer(t, renewed))
    ensures var p, s' := PhaseOf(s, t), Apply(c, s, AttemptAnswer(t, renewed));
      && (renewed.Some? ==>
            var renewal := Session(renewed.value.0, s.stamp, renewed.value.1);
            && Calm(s') && s'.stored == Some(renewal) && s'.lock.None?
            && s'.recovered == s.recovered + [Generation(p.current.key, p.current.createdAt)]
            && (if p.source.FromRetry? && !p.source.thenSend then Ended(s', t, Recovered)
                else PhaseOf(s', t) == Sending(renewal, p.source.FromRejection?)))
      && (renewed.None? && p.stage.Oauth? && c.hasBrowser ==>
            OnlyTask(s, s', t) && PhaseOf(s', t) == Attempt(p.current, p.source, Browser, p.start))
      && (renewed.None? && (p.stage.Browser? || !c.hasBrowser) ==> Fails(c, s, s', t, p.source))
  {
    hide Delay;
  }

  // ------------------------------------------------------------------ logins, probes and status

  /** A login stores its session, a logout removes it, a successful probe ends every marking, and reading the status ends
      one that is about another session; each leaves everything else. */
  lemma ClientSteps(c: Settings, s: State, key: string, bundle: string)
    ensures Apply(c, s, Login(key, bundle)) == s.(stored := Some(Session(key, s.stamp, bundle)), stamp := s.stamp + 1)
    ensures Apply(c, s, Logout) == s.(stored := None)
    ensures Calm(Apply(c, s, ProbeOk)) && Apply(c, s, ProbeOk).stored == s.stored && Apply(c, s, ProbeOk).tasks == s.tasks
    ensures var s', key := Apply(c, s, StatusRead), if s.stored.Some? then s.stored.value.key else "";
      && s'.stored == s.stored && s'.tasks == s.tasks
      && (if s.expiredKey.Some? && s.expiredKey.value != key then Calm(s') else s' == s)
  {
  }

  // ------------------------------------------------------------------ markings

  /** The step ends a request as rejected, or a probe found the session rejected: the second rejection of a request, a
      rejected request that finds no session, one whose session has no means to recover, the last failure of its attempt,
      and a failed probe. */
  predicate EndsRejected(c: Settings, s: State, step: Step) {
    match step
    case ProbeFailed => true
    case Respond(t, accepted, _) => PhaseOf(s, t).Sending? && !accepted && PhaseOf(s, t).again
    case Acquire(t) =>
      && PhaseOf(s, t).WaitReject?
      && (!HasSession(s)
          || (SameSession(s.stored.value, PhaseOf(s, t).failed) && !c.hasBrowser
              && WorkedWith(s, PhaseOf(s, t).failed, PhaseOf(s, t).bundle).bundle == ""))
    case AttemptAnswer(t, renewed) =>
      && PhaseOf(s, t).Attempt? && renewed.None? && PhaseOf(s, t).source.FromRejection?
      && (PhaseOf(s, t).stage.Browser? || !c.hasBrowser)
    case _ => false
  }

  /** The stored session is marked afterwards. A marking of it that was there stays; otherwise there is a new one, the
      event is set, and a sleeping waiter is woken. */
  predicate IsMarked(s: State, s': State) {
    var key := if s.stored.Some? then s.stored.value.key else "";
    && s'.expiredKey == Some(key) && s'.expiredAt.Some?
    && (if s.expiredKey == Some(key) && s.expiredAt.Some? then
          s'.expiredAt == s.expiredAt && s'.markings == s.markings && s'.event == s.event && s'.waiter == s.waiter
        else
          && s'.expiredAt == Some(s.markings) && s'.markings == s.markings + 1 && s'.event
          && s'.waiter == if s.waiter == Blocked then Woken else s.waiter)
  }

  predicate SameKey(s: State, s': State) {
    (if s.stored.Some? then s.stored.value.key else "") == (if s'.stored.Some? then s'.stored.value.key else "")
  }

  /** Marked in this way, and nothing delivered yet. */
  predicate Marks(s: State, s': State) {
    IsMarked(s, s') && SameKey(s, s') && s'.delivered == s.delivered
  }

  /** Every such end marks the stored session. */
  lemma RejectionIsMarked(c: Settings, s: State, step: Step)
    requires Enabled(s, step) && EndsRejected(c, s, step)
    ensures Marks(s, Apply(c, s, step))
  {
    hide Mark, Fail, EnterRejectionLocked, Marks;
    MarkMarks(s);
    match step
    case Respond(t, _, _) => PutMarks(s, Mark(s), t, Done(Expired));
    case Acquire(t) => NoMeansMarks(c, s, t, PhaseOf(s, t).failed, PhaseOf(s, t).bundle);
    case AttemptAnswer(t, _) => FailMarks(c, s, s, t);
    case _ =>
  }

  lemma MarkMarks(s: State)
    ensures Marks(s, Mark(s))
  {
  }

  lemma PutMarks(s: State, s': State, t: nat, p: Phase)
    requires Marks(s, s')
    ensures Marks(s, Put(s', t, p))
  {
  }

  lemma FailMarks(c: Settings, s: State, s1: State, t: nat)
    requires SameKey(s, s1) && s1 == s.(stored := s1.stored)
    ensures Marks(s, Fail(c, s1, t, FromRejection))
  {
    hide Delay, Mark;
    MarkMarks(Schedule(c, s1).(lock := None));
  }

  lemma NoMeansMarks(c: Settings, s: State, t: nat, failed: Session, bundle: string)
    requires HasSession(s) ==>
      SameSession(s.stored.value, failed) && !c.hasBrowser && WorkedWith(s, failed, bundle).bundle == ""
    ensures Marks(s, EnterRejectionLocked(c, s, t, failed, bundle))
  {
    hide Mark, Fail, Marks;
    MarkMarks(s);
    if HasSession(s) {
      FailMarks(c, s, s.(stored := Some(WorkedWith(s, failed, bundle))), t);
    } else {
      PutMarks(s, Mark(s), t, Done(Expired));
    }
  }

  /** Main result on markings: in every run, when the stored session turns out rejected, the waiter learns of it. The
      marking has been delivered, or is when the waiter next runs, which nothing but a call of it is missing for. */
  lemma RejectionReachesWaiter(c: Settings, s: State, steps: seq<Step>, step: Step)
    requires Initial(s) && Enabled(Run(c, s, steps), step) && EndsRejected(c, Run(c, s, steps), step)
    ensures var after := Apply(c, Run(c, s, steps), step);
      && after.expiredAt.Some?
      && var m := after.expiredAt.value;
      && (after.waiter == Blocked ==> m in after.delivered)
      && (after.waiter == Woken ==> m in Apply(c, after, WaiterRuns).delivered)
      && (after.waiter == Away ==>
            m in after.delivered
            || (Apply(c, after, WaiterCalls).waiter == Woken && m in Apply(c, Apply(c, after, WaiterCalls), WaiterRuns).delivered))
  {
    var before := Run(c, s, steps);
    RunKeeps(c, s, steps);
    RejectionIsMarked(c, before, step);
    EventKept(c, before, step);
    hide LockInv, GenerationInv, BackoffInv, EndsRejected;
    MarkedIsDelivered(c, Apply(c, before, step));
  }

  /** A marking of the stored session is delivered by the next run of the waiter, if it has not been. */
  lemma MarkedIsDelivered(c: Settings, s: State)
    requires EventInv(s) && s.expiredAt.Some?
    requires s.expiredKey == Some(if s.stored.Some? then s.stored.value.key else "")
    ensures var m := s.expiredAt.value;
      && (s.waiter == Blocked ==> m in s.delivered)
      && (s.waiter == Woken ==> m in Apply(c, s, WaiterRuns).delivered)
      && (s.waiter == Away ==>
            m in s.delivered
            || (Apply(c, s, WaiterCalls).waiter == Woken && m in Apply(c, Apply(c, s, WaiterCalls), WaiterRuns).delivered))
  {
  }

  /** In every run, a marking that is still in force when the waiter runs has been delivered by then. */
  lemma InForceIsDelivered(c: Settings, s: State, steps: seq<Step>)
    requires Initial(s) && Run(c, s, steps).waiter == Woken && Run(c, s, steps).expiredAt.Some?
    requires var s1 := Run(c, s, steps); s1.expiredKey == Some(if s1.stored.Some? then s1.stored.value.key else "")
    ensures Run(c, s, steps).expiredAt.value in Run(c, s, steps + [WaiterRuns]).delivered
  {
    RunKeeps(c, s, steps);
    hide LockInv, GenerationInv, BackoffInv;
    MarkedIsDelivered(c, Run(c, s, steps));
    assert (steps + [WaiterRuns])[..|steps|] == steps;
  }

  /** While the stored session is marked no request goes out with it: it fails fast, or waits to recover. */
  lemma MarkedIsNotSent(c: Settings, s: State, t: nat)
    requires Enabled(s, Request(t)) && StoredIsMarked(s)
    ensures !PhaseOf(Apply(c, s, Request(t)), t).Sending?
  {
    Requests(c, s, t);
  }
}

/**
 Concurrent `create_folder` calls for one path (src/o2gateway/o2/store.py:144-170), as a step machine that
 runs from one await to the next. Any number of tasks call; meanwhile the folder may be listed and read.
 No upload, delete or move touches the path, and a listing shows nothing at the path that does not exist.
 */
module FolderCreation {
  import opened Wrappers

  datatype Outcome = Created | AlreadyExists | ParentMissing | Failed

  /** A call waits for the path's lock, looks up the parent, and asks the provider; `Answering` is the time
      between the provider's creating the folder and its answer. */
  datatype Phase =
    | Idle
    | WaitingForLock
    | LookingUpParent
    | Asking
    | Answering(id: string)
    | Done(outcome: Outcome)

  /** `known` is what memory has at the path; `created` are the provider's folders there, in order; `lost`
      counts calls that were told of a failure although their folder had been created. */
  datatype State = State(
    lock: Option<nat>,
    tasks: map<nat, Phase>,
    known: Option<string>,
    created: seq<string>,
    successes: nat,
    lost: nat)

  datatype ParentLookup = IsFolder | NoFolder | LookupFailed

  datatype Step =
    | Call(task: nat)
    | EnterLock(task: nat)
    | ParentResolved(task: nat, result: ParentLookup)
    | ProviderCreates(task: nat, id: string)
    | ProviderRefuses(task: nat)
    | AnswerArrives(task: nat)
    | AnswerLost(task: nat)
    | ListingShows(id: string)

  function PhaseOf(s: State, t: nat): Phase {
    if t in s.tasks then s.tasks[t] else Idle
  }

  function Put(s: State, t: nat, p: Phase): State {
    s.(tasks := s.tasks[t := p])
  }

  /** A call ends, and with it the locked section. */
  function Finish(s: State, t: nat, outcome: Outcome): State {
    Put(s.(lock := None), t, Done(outcome))
  }

  predicate Enabled(s: State, step: Step) {
    match step
    case Call(t) => PhaseOf(s, t).Idle? || PhaseOf(s, t).Done?
    case EnterLock(t) => PhaseOf(s, t).WaitingForLock? && s.lock.None?
    case ParentResolved(t, _) => PhaseOf(s, t).LookingUpParent?
    case ProviderCreates(t, id) => PhaseOf(s, t).Asking? && id !in s.created
    case ProviderRefuses(t) => PhaseOf(s, t).Asking?
    case AnswerArrives(t) => PhaseOf(s, t).Answering?
    case AnswerLost(t) => PhaseOf(s, t).Answering?
    case ListingShows(id) => id in s.created
  }

  function Apply(s: State, step: Step): State
    requires Enabled(s, step)
  {
    match step
    case Call(t) => Put(s, t, WaitingForLock)
    case EnterLock(t) => Put(s.(lock := Some(t)), t, LookingUpParent)
    case ParentResolved(t, result) =>
      (match result
       case LookupFailed => Finish(s, t, Failed)
       case NoFolder => Finish(s, t, ParentMissing)
       case IsFolder => if s.known.Some? then Finish(s, t, Outcome.AlreadyExists) else Put(s, t, Asking))
    case ProviderCreates(t, id) => Put(s.(created := s.created + [id]), t, Answering(id))
    case ProviderRefuses(t) => Finish(s, t, Failed)
    case AnswerArrives(t) =>
      Finish(s.(known := Some(PhaseOf(s, t).id), successes := s.successes + 1), t, Created)
    case AnswerLost(t) => Finish(s.(lost := s.lost + 1), t, Failed)
    case ListingShows(id) => s.(known := Some(id))
  }

  /** Where a run leads; steps that are not enabled are skipped. */
  function Run(s: State, steps: seq<Step>): State
    decreases |steps|
  {
    if steps == [] then
      s
    else
      var before := Run(s, steps[..|steps| - 1]);
      var step := steps[|steps| - 1];
      if Enabled(before, step) then Apply(before, step) else before
  }

  const START: State := State(None, map[], None, [], 0, 0)

  /** `_mkcol`: the WebDAV status of a call, 405 as in section 9.3.1 of RFC 4918. */
  function MkcolStatus(outcome: Outcome): nat {
    match outcome
    case Created => 201
    case AlreadyExists => 405
    case ParentMissing => 404
    case Failed => 502
  }

  // ------------------------------------------------------------------ what every run keeps

  predicate Inside(p: Phase) {
    p.LookingUpParent? || p.Asking? || p.Answering?
  }

  predicate AnswerPending(s: State) {
    s.lock.Some? && PhaseOf(s, s.lock.value).Answering?
  }

  /** The lock is held exactly by the call inside the locked section. */
  ghost predicate LockHeld(s: State) {
    forall t: nat :: Inside(PhaseOf(s, t)) <==> s.lock == Some(t)
  }

  predicate Asks(s: State) {
    s.lock.Some? && (PhaseOf(s, s.lock.value).Asking? || PhaseOf(s, s.lock.value).Answering?)
  }

  predicate Counted(s: State) {
    && |s.created| == s.lost + s.successes + (if AnswerPending(s) then 1 else 0)
    && (s.successes > 0 ==> s.known.Some?)
    && s.successes <= 1
    && (Asks(s) ==> s.successes == 0)
    && (s.known.Some? ==> s.known.value in s.created)
    && (AnswerPending(s) ==> PhaseOf(s, s.lock.value).id in s.created)
  }

  ghost predicate Inv(s: State) {
    LockHeld(s) && Counted(s)
  }

  lemma LockStays(s: State, step: Step)
    requires LockHeld(s) && Enabled(s, step)
    ensures LockHeld(Apply(s, step))
  {
  }

  /** The step is one of the call that holds the lock, or changes no phase inside the locked section. */
  lemma CountStays(s: State, step: Step)
    requires LockHeld(s) && Counted(s) && Enabled(s, step)
    ensures Counted(Apply(s, step))
  {
    match step
    case Call(t) => assert s.lock != Some(t);
    case EnterLock(t) =>
    case ListingShows(_) =>
    case ParentResolved(t, _) => assert s.lock == Some(t);
    case ProviderCreates(t, _) => assert s.lock == Some(t);
    case ProviderRefuses(t) => assert s.lock == Some(t);
    case AnswerArrives(t) => assert s.lock == Some(t);
    case AnswerLost(t) => assert s.lock == Some(t);
  }

  lemma StepKeeps(s: State, step: Step)
    requires Inv(s) && Enabled(s, step)
    ensures Inv(Apply(s, step))
  {
    hide LockHeld, Counted, Apply;
    LockStays(s, step);
    CountStays(s, step);
  }

  lemma {:induction false} RunKeeps(steps: seq<Step>)
    ensures Inv(Run(START, steps))
    decreases |steps|
  {
    if steps != [] {
      RunKeeps(steps[..|steps| - 1]);
      var before, step := Run(START, steps[..|steps| - 1]), steps[|steps| - 1];
      if Enabled(before, step) {
        StepKeeps(before, step);
      }
    }
  }

  // ------------------------------------------------------------------ what each step brings about

  ghost predicate Ended(s: State, s': State, t: nat, status: nat) {
    && s'.lock.None? && t in s'.tasks && s'.tasks[t].Done? && MkcolStatus(s'.tasks[t].outcome) == status
    && s'.created == s.created && (forall u: nat :: u != t ==> PhaseOf(s', u) == PhaseOf(s, u))
  }

  /** What a call that has its parent looked up does next: 502 when the lookup failed, 404 when there is no such folder,
      405 when the path is known already, and only otherwise it asks the provider. None of this creates a folder. */
  lemma ParentDecides(s: State, t: nat, result: ParentLookup)
    requires Enabled(s, ParentResolved(t, result))
    ensures var s' := Apply(s, ParentResolved(t, result));
      && s'.known == s.known
      && (result == LookupFailed ==> Ended(s, s', t, 502))
      && (result == NoFolder ==> Ended(s, s', t, 404))
      && (result == IsFolder && s.known.Some? ==> Ended(s, s', t, 405))
      && (result == IsFolder && s.known.None? ==>
            PhaseOf(s', t) == Asking && s'.lock == s.lock && s'.created == s.created)
  {
  }

  /** How a call ends that has asked the provider: with 201 and the new folder known when the answer arrives, whatever
      the folder was before; with 502 when the provider refuses, or when its answer is lost. Memory then knows what it
      knew, although in the last case the folder is there. */
  lemma AnswerDecides(s: State, t: nat, id: string)
    requires PhaseOf(s, t) == Asking && id !in s.created
    ensures var refused := Apply(s, ProviderRefuses(t));
      Ended(s, refused, t, 502) && refused.known == s.known
    ensures var made := Apply(s, ProviderCreates(t, id));
      && made.created == s.created + [id] && made.known == s.known && made.lock == s.lock
      && Enabled(made, AnswerArrives(t)) && Enabled(made, AnswerLost(t))
      && var told, lost := Apply(made, AnswerArrives(t)), Apply(made, AnswerLost(t));
      && Ended(made, told, t, 201) && told.known == Some(id) && told.successes == s.successes + 1
      && Ended(made, lost, t, 502) && lost.known == s.known && lost.lost == s.lost + 1
  {
  }

  // ------------------------------------------------------------------ theorems about every run

  /** However the calls interleave, the provider holds exactly one folder for each success, for each call whose answer
      was lost after its folder had been created, and for an answer still on its way. It holds at most one exactly when
      these are at most one together; so without lost answers it always does. */
  lemma AtMostOneFolder(steps: seq<Step>)
    ensures var s := Run(START, steps);
      && |s.created| == s.lost + s.successes + (if AnswerPending(s) then 1 else 0)
      && (|s.created| <= 1 <==> s.lost + s.successes + (if AnswerPending(s) then 1 else 0) <= 1)
      && (s.lost == 0 ==> |s.created| <= 1)
      && |s.created| <= s.lost + 1
  {
    RunKeeps(steps);
  }

  lemma OneMore(s: State, steps: seq<Step>, step: Step)
    requires Enabled(Run(s, steps), step)
    ensures Run(s, steps + [step]) == Apply(Run(s, steps), step)
  {
    assert (steps + [step])[..|steps|] == steps;
  }

  /** A whole call by one task that finds nobody in its way: the folder is created, and the answer arrives or is lost. */
  function CallBy(t: nat, id: string, answer: Step): seq<Step> {
    [Call(t)] + [EnterLock(t)] + [ParentResolved(t, IsFolder)] + [ProviderCreates(t, id)] + [answer]
  }

  lemma CalledAlone(steps: seq<Step>, t: nat, id: string, answer: Step)
    requires var s := Run(START, steps); s.lock.None? && s.known.None? && id !in s.created && Enabled(s, Call(t))
    requires answer == AnswerArrives(t) || answer == AnswerLost(t)
    ensures var s, s' := Run(START, steps), Run(START, steps + CallBy(t, id, answer));
      && s'.created == s.created + [id] && s'.lock.None? && Enabled(s', Call(t))
      && (answer.AnswerLost? ==> s'.known.None? && s'.successes == s.successes)
      && (answer.AnswerArrives? ==> s'.successes == s.successes + 1)
  {
    var asked := [Call(t)] + [EnterLock(t)] + [ParentResolved(t, IsFolder)];
    AskedAlone(steps, t);
    var s := Run(START, steps + asked);
    OneMore(START, steps + asked, ProviderCreates(t, id));
    OneMore(START, steps + asked + [ProviderCreates(t, id)], answer);
    assert steps + asked + [ProviderCreates(t, id)] + [answer] == steps + CallBy(t, id, answer);
  }

  lemma AskedAlone(steps: seq<Step>, t: nat)
    requires var s := Run(START, steps); s.lock.None? && s.known.None? && Enabled(s, Call(t))
    ensures var s, s' := Run(START, steps), Run(START, steps + ([Call(t)] + [EnterLock(t)] + [ParentResolved(t, IsFolder)]));
      s' == s.(tasks := s'.tasks, lock := Some(t)) && PhaseOf(s', t) == Asking
  {
    var a, b := steps + [Call(t)], steps + [Call(t)] + [EnterLock(t)];
    OneMore(START, steps, Call(t));
    OneMore(START, a, EnterLock(t));
    OneMore(START, b, ParentResolved(t, IsFolder));
    assert b + [ParentResolved(t, IsFolder)] == steps + ([Call(t)] + [EnterLock(t)] + [ParentResolved(t, IsFolder)]);
  }

  /** A lost answer leaves a second folder: the first call is told of a failure although folder 1 was created, and the
      next call creates folder 2. */
  lemma LostAnswerLeavesTwo()
    ensures var s := Run(START, CallBy(0, "1", AnswerLost(0)) + CallBy(0, "2", AnswerArrives(0)));
      s.created == ["1", "2"] && s.successes == 1
  {
    hide CallBy;
    CalledAlone([], 0, "1", AnswerLost(0));
    assert [] + CallBy(0, "1", AnswerLost(0)) == CallBy(0, "1", AnswerLost(0));
    CalledAlone(CallBy(0, "1", AnswerLost(0)), 0, "2", AnswerArrives(0));
  }

  /** At most one call succeeds; when no answer was lost and none is outstanding, exactly as many succeeded as
      folders were created, so one if the provider created any. */
  lemma ExactlyOneSucceeds(steps: seq<Step>)
    ensures var s := Run(START, steps);
      && s.successes <= 1
      && (s.lost == 0 && !AnswerPending(s) ==> (s.successes == 1 <==> s.created != []))
  {
    RunKeeps(steps);
  }

  /** After a success, or once a listing has shown the folder, memory never loses it again. */
  lemma {:induction false} KnownStays(s: State, steps: seq<Step>)
    requires s.known.Some?
    ensures Run(s, steps).known.Some?
    decreases |steps|
  {
    if steps != [] {
      KnownStays(s, steps[..|steps| - 1]);
    }
  }

  /** A call that enters the lock after another has succeeded is turned away with 405, and asks the provider
      for nothing, whatever happens between its entering and its parent being found. */
  lemma LatecomersTurnedAway(before: seq<Step>, after: seq<Step>, t: nat)
    requires Run(START, before).successes == 1
    requires PhaseOf(Run(Run(START, before), after), t).LookingUpParent?
    ensures var s := Run(Run(START, before), after);
      var s' := Apply(s, ParentResolved(t, IsFolder));
      && PhaseOf(s', t) == Done(Outcome.AlreadyExists) && MkcolStatus(PhaseOf(s', t).outcome) == 405
      && s'.created == s.created
  {
    RunKeeps(before);
    KnownStays(Run(START, before), after);
  }
}

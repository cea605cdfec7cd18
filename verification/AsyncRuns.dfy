/**
 * What the protocol of AsyncProtocol guarantees, and when: exactly one start
 * pending per slot, no lost start, and the starts that leave a slot stuck.
 */
module AsyncRuns {
  import opened AsyncProtocol

  // ----- What may disturb a slot -----

  /** Thread t is inside an accepted `hid_bpf_async_delayed_call` for slot k. */
  predicate LaunchingFor(w: World, t: nat, k: nat) {
    t in w.threads && w.threads[t].Launching? && w.threads[t].key == k
  }

  predicate KernelSucceeds(step: Step) {
    match step
    case Launch(_, ok) => ok
    case TimerFires(_, ok) => ok
    case CallbackGetsContext(_, ok) => ok
    case _ => true
  }

  /** The step's kernel call is made for slot k. */
  predicate CallsFor(w: World, step: Step, k: nat) {
    match step
    case Launch(t, _) => LaunchingFor(w, t, k)
    case TimerFires(key, _) => key == k
    case CallbackGetsContext(key, _) => key == k
    case _ => false
  }

  /** Slot k's kernel call succeeds, if the step makes one. */
  predicate SucceedsFor(w: World, step: Step, k: nat) {
    CallsFor(w, step, k) ==> KernelSucceeds(step)
  }

  /** The step is a start of slot k that is accepted. */
  predicate StartAccepted(w: World, step: Step, k: nat) {
    step.DelayedCall? && step.thread !in w.threads && step.slot == k && Startable(w.slots, k)
  }

  /** The step does not start slot k while k's callback runs. */
  predicate NoOverlap(w: World, step: Step, k: nat) {
    StartAccepted(w, step, k) ==> w.slots[k].state != Running
  }

  ghost predicate SucceedingRun(w: World, steps: seq<Step>, k: nat)
    decreases |steps|
  {
    steps == [] || (SucceedsFor(w, steps[0], k) && SucceedingRun(Apply(w, steps[0]), steps[1..], k))
  }

  ghost predicate NoOverlapRun(w: World, steps: seq<Step>, k: nat)
    decreases |steps|
  {
    steps == [] || (NoOverlap(w, steps[0], k) && NoOverlapRun(Apply(w, steps[0]), steps[1..], k))
  }

  // ----- One slot on a run without overlap -----

  /** An accepted start of slot k is on its way to its callback. */
  predicate Pending(w: World, k: nat)
    requires k < |w.slots|
  {
    var s := w.slots[k];
    LaunchingFor(w, s.history.owner, k) || s.timerArmed || s.queued || s.callback.Entered?
  }

  predicate Occupied(s: Slot) {
    s.state == Starting || s.state == Running
  }

  predicate Quiet(s: Slot) {
    !s.timerArmed && !s.queued && s.callback == NoCallback
  }

  /** The launching thread owns the latest start, and nothing else is pending. */
  predicate LauncherTracked(s: Slot, t: nat, pc: Pc)
    requires pc.Launching?
  {
    && t == s.history.owner && s.state == Starting && Quiet(s)
    && pc.hid == s.history.cause && (pc.start != StoreHid ==> s.hid == s.history.cause)
  }

  /** Timer, queued work and callback exclude each other and belong to the latest start. */
  predicate SlotTracked(s: Slot) {
    && (s.timerArmed ==> s.state == Starting && !s.queued && s.callback == NoCallback && s.hid == s.history.cause)
    && (s.queued ==> s.state == Starting && s.callback == NoCallback && s.hid == s.history.cause)
    && (s.callback.Entered? ==> s.state == Starting && s.callback.hid == s.history.cause)
    && (s.callback.InBody? ==> s.state == Running && s.callback.hid == s.history.cause)
    && (s.state == Running ==> s.callback.InBody?)
  }

  ghost predicate Tracked(w: World, k: nat) {
    && k < |w.slots| && SlotTracked(w.slots[k])
    && (forall t :: LaunchingFor(w, t, k) ==> LauncherTracked(w.slots[k], t, w.threads[t]))
  }

  lemma StepTracked(w: World, step: Step, k: nat)
    requires Safe(w) && Tracked(w, k) && NoOverlap(w, step, k)
    ensures Tracked(Apply(w, step), k)
  {
    match step
    case GetCtx(t) =>
    case Scan(t) =>
      if t in w.threads && w.threads[t].Scanning? { ScanTracked(w, t, k); }
    case Prepare(t, ok) =>
      if t in w.threads && w.threads[t].Preparing? { PrepareTracked(w, t, ok, k); }
    case DelayedCall(t, key, hid, delayed, setCallback) =>
      if t !in w.threads { CallTracked(w, t, key, hid, delayed, setCallback, k); }
    case Launch(t, ok) =>
      if t in w.threads && w.threads[t].Launching? { LaunchTracked(w, t, ok, k); }
    case _ => AsyncStepTracked(w, step, k);
  }

  /** A thread that was not launching slot k and is not now says nothing about it. */
  lemma SlotAndThreadsKept(w: World, w': World, k: nat)
    requires Tracked(w, k) && |w'.slots| == |w.slots| && w'.slots[k] == w.slots[k]
    requires forall t :: LaunchingFor(w', t, k) ==> LaunchingFor(w, t, k) && w'.threads[t] == w.threads[t]
    requires forall t :: LaunchingFor(w, t, k) ==> LaunchingFor(w', t, k)
    ensures Tracked(w', k)
  {}

  lemma ScanTracked(w: World, t: nat, k: nat)
    requires Safe(w) && Tracked(w, k) && t in w.threads && w.threads[t].Scanning?
    ensures Tracked(ScanStep(w, t, w.threads[t].next), k)
  {
    var w' := ScanStep(w, t, w.threads[t].next);
    assert forall u :: LaunchingFor(w', u, k) <==> LaunchingFor(w, u, k);
  }

  lemma PrepareTracked(w: World, t: nat, ok: bool, k: nat)
    requires Safe(w) && Tracked(w, k) && t in w.threads && w.threads[t].Preparing?
    ensures Tracked(PrepareStep(w, t, w.threads[t].key, w.threads[t].init, ok), k)
  {
    var w' := PrepareStep(w, t, w.threads[t].key, w.threads[t].init, ok);
    assert ThreadSafe(w, t);
    assert forall u :: LaunchingFor(w', u, k) <==> LaunchingFor(w, u, k);
  }

  lemma CallTracked(w: World, t: nat, key: int, hid: nat, delayed: bool, setCallback: bool, k: nat)
    requires Safe(w) && Tracked(w, k) && t !in w.threads
    requires NoOverlap(w, DelayedCall(t, key, hid, delayed, setCallback), k)
    ensures Tracked(CallStep(w, t, key, hid, delayed, setCallback), k)
  {
    var w' := CallStep(w, t, key, hid, delayed, setCallback);
    if key != k || !Startable(w.slots, key) {
      SlotAndThreadsKept(w, w', k);
    } else {
      assert forall u :: LaunchingFor(w', u, k) ==> u == t;
    }
  }

  lemma LaunchTracked(w: World, t: nat, ok: bool, k: nat)
    requires Safe(w) && Tracked(w, k) && t in w.threads && w.threads[t].Launching?
    ensures Tracked(LaunchStep(w, t, w.threads[t], ok), k)
  {
    assert ThreadSafe(w, t);
    if w.threads[t].key != k {
      SlotAndThreadsKept(w, LaunchStep(w, t, w.threads[t], ok), k);
    } else {
      OwnLaunchTracked(w, t, ok, k);
    }
  }

  /** A launching thread is the slot's only one. */
  lemma OwnLaunchTracked(w: World, t: nat, ok: bool, k: nat)
    requires Tracked(w, k) && LaunchingFor(w, t, k)
    ensures Tracked(LaunchStep(w, t, w.threads[t], ok), k)
  {
    var w' := LaunchStep(w, t, w.threads[t], ok);
    assert forall u :: LaunchingFor(w, u, k) ==> u == t;
    assert forall u :: LaunchingFor(w', u, k) ==> u == t;
  }

  lemma AsyncStepTracked(w: World, step: Step, k: nat)
    requires Safe(w) && Tracked(w, k)
    requires step.TimerFires? || step.CallbackEnters? || step.CallbackGetsContext? || step.CallbackEnds?
    ensures Tracked(Apply(w, step), k)
  {
    var w' := Apply(w, step);
    if step.key != k {
      SlotAndThreadsKept(w, w', k);
    }
  }

  // ----- Counting over a run -----

  /** The step begins slot k's callback. */
  predicate CallbackBegins(w: World, step: Step, k: nat) {
    step == CallbackGetsContext(k, true) && k < |w.slots| && w.slots[k].callback.Entered?
  }

  /** The step completes slot k's callback. */
  predicate CallbackCompletes(w: World, step: Step, k: nat) {
    step == CallbackEnds(k) && k < |w.slots| && w.slots[k].callback.InBody?
  }

  function AcceptedStarts(w: World, steps: seq<Step>, k: nat): nat
    decreases |steps|
  {
    if steps == [] then 0
    else (if StartAccepted(w, steps[0], k) then 1 else 0) + AcceptedStarts(Apply(w, steps[0]), steps[1..], k)
  }

  function CompletedCallbacks(w: World, steps: seq<Step>, k: nat): nat
    decreases |steps|
  {
    if steps == [] then 0
    else (if CallbackCompletes(w, steps[0], k) then 1 else 0) + CompletedCallbacks(Apply(w, steps[0]), steps[1..], k)
  }

  function Outstanding(w: World, k: nat): nat
    requires k < |w.slots|
  {
    if Occupied(w.slots[k]) then 1 else 0
  }

  lemma StepBalanced(w: World, step: Step, k: nat)
    requires Safe(w) && Tracked(w, k) && NoOverlap(w, step, k)
    ensures var w' := Apply(w, step);
            && |w'.slots| == |w.slots|
            && Outstanding(w', k) + (if CallbackCompletes(w, step, k) then 1 else 0)
               == Outstanding(w, k) + (if StartAccepted(w, step, k) then 1 else 0)
  {
    if step.Prepare? && step.thread in w.threads { assert ThreadSafe(w, step.thread); }
  }

  lemma {:induction false} RunTracked(w: World, steps: seq<Step>, k: nat)
    requires Safe(w) && Tracked(w, k) && NoOverlapRun(w, steps, k)
    ensures var w' := Run(w, steps);
            && Safe(w') && Tracked(w', k) && |w'.slots| == |w.slots|
            && AcceptedStarts(w, steps, k) + Outstanding(w, k)
               == CompletedCallbacks(w, steps, k) + Outstanding(w', k)
    decreases |steps|
  {
    hide Apply, Safe, Tracked, NoOverlap, Outstanding, StartAccepted, CallbackCompletes;
    assert k < |w.slots| by { TrackedSlot(w, k); }
    if steps != [] {
      StepSafe(w, steps[0]);
      StepTracked(w, steps[0], k);
      StepBalanced(w, steps[0], k);
      RunTracked(Apply(w, steps[0]), steps[1..], k);
    }
  }

  lemma TrackedSlot(w: World, k: nat)
    requires Tracked(w, k)
    ensures k < |w.slots|
  {}

  lemma InitialTracked(maxCtx: nat, k: nat)
    requires k < maxCtx
    ensures Safe(Initial(maxCtx)) && Tracked(Initial(maxCtx), k)
  {}

  /** STARTING means that a start is pending. */
  predicate StartPending(w: World, k: nat) {
    k < |w.slots| && (w.slots[k].state == Starting ==> Pending(w, k))
  }

  lemma StepPending(w: World, step: Step, k: nat)
    requires Safe(w) && Tracked(w, k) && StartPending(w, k) && NoOverlap(w, step, k) && SucceedsFor(w, step, k)
    ensures StartPending(Apply(w, step), k)
  {
    if step.Prepare? && step.thread in w.threads { assert ThreadSafe(w, step.thread); }
    if step.Launch? && LaunchingFor(w, step.thread, k) { assert w.slots[k].history.owner == step.thread; }
  }

  lemma {:induction false} RunPending(w: World, steps: seq<Step>, k: nat)
    requires Safe(w) && Tracked(w, k) && StartPending(w, k)
    requires NoOverlapRun(w, steps, k) && SucceedingRun(w, steps, k)
    ensures StartPending(Run(w, steps), k)
    decreases |steps|
  {
    hide Apply, Safe, Tracked, StartPending, NoOverlap, SucceedsFor;
    if steps != [] {
      StepSafe(w, steps[0]);
      StepTracked(w, steps[0], k);
      StepPending(w, steps[0], k);
      RunPending(Apply(w, steps[0]), steps[1..], k);
    }
  }

  /**
   * Whatever the other slots do and whatever the kernel returns, on every run that
   * does not start slot k during k's callback: accepted starts less completed
   * callbacks is 1 while k is STARTING or RUNNING and 0 otherwise, and the
   * callback uses the device id of the start that caused it. When the calls made
   * for k succeed, STARTING holds exactly while that start is pending.
   */
  lemma OneStartOutstanding(maxCtx: nat, steps: seq<Step>, k: nat)
    requires k < maxCtx && NoOverlapRun(Initial(maxCtx), steps, k)
    ensures var w := Run(Initial(maxCtx), steps);
            && |w.slots| == maxCtx
            && AcceptedStarts(Initial(maxCtx), steps, k)
               == CompletedCallbacks(Initial(maxCtx), steps, k) + (if Occupied(w.slots[k]) then 1 else 0)
            && (Pending(w, k) ==> w.slots[k].state == Starting)
            && (SucceedingRun(Initial(maxCtx), steps, k) ==> (w.slots[k].state == Starting <==> Pending(w, k)))
            && (w.slots[k].state == Running <==> w.slots[k].callback.InBody?)
            && (w.slots[k].callback != NoCallback ==> w.slots[k].callback.hid == w.slots[k].history.cause)
  {
    hide Run, NoOverlapRun, SucceedingRun, AcceptedStarts, CompletedCallbacks, Safe;
    InitialTracked(maxCtx, k);
    RunTracked(Initial(maxCtx), steps, k);
    if SucceedingRun(Initial(maxCtx), steps, k) {
      RunPending(Initial(maxCtx), steps, k);
    }
  }

  /** Slot k never has two outstanding starts in the first i steps. */
  ghost predicate AtMostOne(w: World, steps: seq<Step>, i: nat, k: nat)
    requires i <= |steps| && k < |w.slots|
  {
    AcceptedStarts(w, steps[..i], k) + Outstanding(w, k) <= CompletedCallbacks(w, steps[..i], k) + 1
  }

  lemma AtMostOneShifts(w: World, steps: seq<Step>, i: nat, k: nat)
    requires 0 < i <= |steps| && k < |w.slots| && Safe(w) && Tracked(w, k) && NoOverlap(w, steps[0], k)
    ensures k < |Apply(w, steps[0]).slots|
    ensures AtMostOne(w, steps, i, k) <==> AtMostOne(Apply(w, steps[0]), steps[1..], i - 1, k)
  {
    hide Safe, Tracked, Apply, NoOverlap, Outstanding;
    StepBalanced(w, steps[0], k);
    assert steps[..i][1..] == steps[1..][..i - 1];
  }

  lemma OverlapCounts(w: World, steps: seq<Step>, k: nat)
    requires steps != [] && k < |w.slots| && Tracked(w, k) && !NoOverlap(w, steps[0], k)
    ensures !AtMostOne(w, steps, 1, k)
  {
    assert steps[..1] == [steps[0]] && [steps[0]][1..] == [];
    var w' := Apply(w, steps[0]);
    assert AcceptedStarts(w', [], k) == 0 && CompletedCallbacks(w', [], k) == 0;
    assert AcceptedStarts(w, [steps[0]], k) == 1 && CompletedCallbacks(w, [steps[0]], k) == 0;
  }

  /**
   * The condition is exact, for each slot and every run, whatever the kernel returns
   * and the other slots do: slot k never has two outstanding starts if and only if
   * none is accepted while its callback runs.
   */
  lemma {:induction false} OneOutstandingIff(w: World, steps: seq<Step>, k: nat)
    requires Safe(w) && Tracked(w, k)
    ensures k < |w.slots|
    ensures NoOverlapRun(w, steps, k) <==> forall i :: 0 <= i <= |steps| ==> AtMostOne(w, steps, i, k)
    decreases |steps|
  {
    hide Safe, Tracked, Apply, NoOverlap, AtMostOne;
    TrackedSlot(w, k);
    NothingAccepted(w, steps, k);
    if steps == [] {
    } else if !NoOverlap(w, steps[0], k) {
      OverlapCounts(w, steps, k);
    } else {
      var w' := Apply(w, steps[0]);
      StepSafe(w, steps[0]);
      StepTracked(w, steps[0], k);
      OneOutstandingIff(w', steps[1..], k);
      forall i | 0 < i <= |steps|
        ensures AtMostOne(w, steps, i, k) <==> AtMostOne(w', steps[1..], i - 1, k)
      {
        AtMostOneShifts(w, steps, i, k);
      }
      if forall i :: 0 <= i <= |steps| ==> AtMostOne(w, steps, i, k) {
        forall j | 0 <= j <= |steps[1..]| ensures AtMostOne(w', steps[1..], j, k) {
          assert AtMostOne(w, steps, j + 1, k);
        }
      }
    }
  }

  lemma NothingAccepted(w: World, steps: seq<Step>, k: nat)
    requires k < |w.slots|
    ensures AtMostOne(w, steps, 0, k)
  {
    assert steps[..0] == [];
  }

  ghost predicate NoCallbackBegins(w: World, steps: seq<Step>, k: nat)
    decreases |steps|
  {
    steps == [] || (!CallbackBegins(w, steps[0], k) && NoCallbackBegins(Apply(w, steps[0]), steps[1..], k))
  }

  lemma StepInWindow(w: World, step: Step, k: nat)
    requires Safe(w) && Tracked(w, k)
    requires w.slots[k].state == Starting && !CallbackBegins(w, step, k)
    ensures NoOverlap(w, step, k)
    ensures var w' := Apply(w, step);
            && |w'.slots| == |w.slots| && w'.slots[k].state == Starting
            && w'.slots[k].history.cause == w.slots[k].history.cause
  {
    if step.Prepare? && step.thread in w.threads { assert ThreadSafe(w, step.thread); }
  }

  /**
   * From acceptance until the callback begins, whatever else happens and whatever
   * the kernel returns, the slot stays STARTING for the same start, and every
   * other start of it, by any thread, changes nothing.
   */
  lemma {:induction false} RejectedUntilCallback(w: World, steps: seq<Step>, k: nat)
    requires Safe(w) && Tracked(w, k)
    requires w.slots[k].state == Starting && NoCallbackBegins(w, steps, k)
    ensures var w' := Run(w, steps);
            && |w'.slots| == |w.slots| && w'.slots[k].state == Starting
            && w'.slots[k].history.cause == w.slots[k].history.cause
            && forall t, hid, delayed, setCallback ::
                 !StartAccepted(w', DelayedCall(t, k, hid, delayed, setCallback), k)
                 && Apply(w', DelayedCall(t, k, hid, delayed, setCallback)) == w'
    decreases |steps|
  {
    hide Safe, Tracked, NoOverlap, CallbackBegins;
    if steps != [] {
      StepInWindow(w, steps[0], k);
      StepSafe(w, steps[0]);
      StepTracked(w, steps[0], k);
      RejectedUntilCallback(Apply(w, steps[0]), steps[1..], k);
    }
  }

  // ----- No lost start -----

  /** Some thread, the timer or the queue will still enter slot k's callback. */
  ghost predicate Coming(w: World, k: nat)
    requires k < |w.slots|
  {
    (exists t :: LaunchingFor(w, t, k)) || w.slots[k].timerArmed || w.slots[k].queued
  }

  ghost predicate Live(w: World, k: nat) {
    && k < |w.slots|
    && (w.slots[k].history.due ==> Coming(w, k))
    && (w.slots[k].state == Starting ==> Coming(w, k) || w.slots[k].callback != NoCallback)
  }

  lemma StepLive(w: World, step: Step, k: nat)
    requires Safe(w) && Live(w, k) && SucceedsFor(w, step, k)
    ensures Live(Apply(w, step), k)
  {
    if step.Launch? {
      LaunchLive(w, step, k);
    } else {
      StillComing(w, step, k);
      if StartAccepted(w, step, k) {
        assert LaunchingFor(Apply(w, step), step.thread, k);
      }
    }
  }

  /** Only its own steps end a launch. */
  lemma StillComing(w: World, step: Step, k: nat)
    requires k < |w.slots| && !step.Launch?
    ensures forall t :: LaunchingFor(w, t, k) ==> LaunchingFor(Apply(w, step), t, k)
  {}

  lemma LaunchLive(w: World, step: Step, k: nat)
    requires Safe(w) && Live(w, k) && SucceedsFor(w, step, k) && step.Launch?
    ensures Live(Apply(w, step), k)
  {
    var w' := Apply(w, step);
    if t :| LaunchingFor(w, t, k) {
      assert LaunchingFor(w', t, k) || w'.slots[k].timerArmed || w'.slots[k].queued;
    }
  }

  /**
   * As long as the kernel calls made for slot k succeed, even when starts are
   * accepted while its callback runs, a start that no callback has served yet is
   * still coming.
   */
  lemma {:induction false} NoLostStart(w: World, steps: seq<Step>, k: nat)
    requires Safe(w) && Live(w, k) && SucceedingRun(w, steps, k)
    ensures Live(Run(w, steps), k)
    decreases |steps|
  {
    hide Safe, Live, Apply, SucceedsFor;
    if steps != [] {
      StepSafe(w, steps[0]);
      StepLive(w, steps[0], k);
      NoLostStart(Apply(w, steps[0]), steps[1..], k);
    }
  }

  // ----- Stuck slots -----

  /** STARTING with nobody left to change it */
  ghost predicate Stuck(w: World, k: nat) {
    && k < |w.slots| && w.slots[k].state == Starting && Quiet(w.slots[k])
    && forall t :: !LaunchingFor(w, t, k)
  }

  lemma StepStuck(w: World, step: Step, k: nat)
    requires Safe(w) && Stuck(w, k)
    ensures Stuck(Apply(w, step), k) && Apply(w, step).slots[k] == w.slots[k]
  {
    var w' := Apply(w, step);
    if step.Prepare? && step.thread in w.threads { assert ThreadSafe(w, step.thread); }
    if step.Launch? { assert !LaunchingFor(w, step.thread, k); }
    forall t ensures !LaunchingFor(w', t, k) {
      assert !LaunchingFor(w, t, k);
    }
  }

  lemma {:induction false} StuckForever(w: World, steps: seq<Step>, k: nat)
    requires Safe(w) && Stuck(w, k)
    ensures Stuck(Run(w, steps), k) && Run(w, steps).slots[k] == w.slots[k]
    decreases |steps|
  {
    hide Safe, Stuck, Apply;
    if steps != [] {
      StepSafe(w, steps[0]);
      StepStuck(w, steps[0], k);
      StuckForever(Apply(w, steps[0]), steps[1..], k);
    } else {
      StuckSlot(w, k);
    }
  }

  lemma StuckSlot(w: World, k: nat)
    requires Stuck(w, k)
    ensures k < |w.slots|
  {}

  /** How far slot k is from a step that takes it out of STARTING */
  function Distance(w: World, t: nat, k: nat): nat
    requires k < |w.slots|
  {
    var s := w.slots[k];
    if s.callback != NoCallback then 0
    else if s.queued then 1
    else if s.timerArmed then 2
    else if !LaunchingFor(w, t, k) then 8
    else match w.threads[t].start
      case StartTimer => 3
      case StartWq => 3
      case SetTimerCallback => 4
      case SetWqCallback => 5
      case StoreHid => 6
  }

  /** The next step towards leaving STARTING */
  function Onwards(w: World, t: nat, k: nat): Step
    requires k < |w.slots|
  {
    var s := w.slots[k];
    if s.callback.InBody? then CallbackEnds(k)
    else if s.callback.Entered? then CallbackGetsContext(k, true)
    else if s.queued then CallbackEnters(k)
    else if s.timerArmed then TimerFires(k, true)
    else Launch(t, true)
  }

  /** Unless it is stuck, the protocol can go on: this many steps take the slot out of STARTING. */
  lemma {:induction false} WayOut(w: World, t: nat, k: nat) returns (steps: seq<Step>)
    requires Safe(w) && k < |w.slots| && w.slots[k].state == Starting
    requires LaunchingFor(w, t, k) || !Quiet(w.slots[k])
    ensures k < |Run(w, steps).slots| && Run(w, steps).slots[k].state != Starting
    decreases Distance(w, t, k)
  {
    hide Safe, Run;
    var step := Onwards(w, t, k);
    var w' := Apply(w, step);
    StepSafe(w, step);
    RunOne(w, step);
    steps := [step];
    if w'.slots[k].state == Starting {
      var rest := WayOut(w', t, k);
      RunAppend(w, [step], rest);
      steps := [step] + rest;
    }
  }

  lemma RunOne(w: World, step: Step)
    ensures Run(w, [step]) == Apply(w, step)
  {
    hide Apply;
    assert [step][1..] == [];
    assert Run(Apply(w, step), []) == Apply(w, step);
  }

  /** A slot stays STARTING whatever happens exactly when it is stuck. */
  lemma StuckIff(w: World, k: nat)
    requires Safe(w) && k < |w.slots| && w.slots[k].state == Starting
    ensures Stuck(w, k) <==>
              forall steps :: |Run(w, steps).slots| > k && Run(w, steps).slots[k].state == Starting
  {
    if Stuck(w, k) {
      forall steps ensures |Run(w, steps).slots| > k && Run(w, steps).slots[k].state == Starting {
        StuckForever(w, steps, k);
      }
    } else {
      var t :| LaunchingFor(w, t, k) || !Quiet(w.slots[k]);
      var steps := WayOut(w, t, k);
      assert Run(w, steps).slots[k].state != Starting;
    }
  }

  /**
   * After a run without overlap, any failure between acceptance and the callback
   * leaves the slot stuck: a failing kernel call of the launching thread, of
   * the timer, or an unavailable context.
   */
  lemma FailureSticks(w: World, step: Step, k: nat)
    requires Safe(w) && Tracked(w, k)
    requires || (step.Launch? && !step.ok && LaunchingFor(w, step.thread, k)
                 && w.threads[step.thread].start != StoreHid)
             || (step == TimerFires(k, false) && w.slots[k].timerArmed)
             || (step == CallbackGetsContext(k, false) && w.slots[k].callback.Entered?)
    ensures Stuck(Apply(w, step), k)
  {
    var w' := Apply(w, step);
    forall t ensures !LaunchingFor(w', t, k) {
      if LaunchingFor(w', t, k) {
        assert LaunchingFor(w, t, k);
      }
    }
  }

  // ----- Abandoned slots -----

  /** INITIALIZING, and the thread that claimed the slot has given up */
  ghost predicate Abandoned(w: World, k: nat) {
    k < |w.slots| && w.slots[k].state == Initializing && forall t :: !PreparingFor(w, t, k)
  }

  predicate PreparingFor(w: World, t: nat, k: nat) {
    t in w.threads && w.threads[t].Preparing? && w.threads[t].key == k
  }

  lemma StepAbandoned(w: World, step: Step, k: nat)
    requires Safe(w) && Abandoned(w, k)
    ensures Abandoned(Apply(w, step), k) && Apply(w, step).slots[k] == w.slots[k]
  {
    var w' := Apply(w, step);
    if step.Launch? && step.thread in w.threads { assert ThreadSafe(w, step.thread); }
    if step.Prepare? { assert !PreparingFor(w, step.thread, k); }
    forall t ensures !PreparingFor(w', t, k) {
      assert !PreparingFor(w, t, k);
    }
  }

  lemma {:induction false} AbandonedForever(w: World, steps: seq<Step>, k: nat)
    requires Safe(w) && Abandoned(w, k)
    ensures Abandoned(Run(w, steps), k) && Run(w, steps).slots[k] == w.slots[k]
    decreases |steps|
  {
    hide Safe, Apply, Abandoned;
    if steps == [] {
      AbandonedSlot(w, k);
    } else {
      StepSafe(w, steps[0]);
      StepAbandoned(w, steps[0], k);
      AbandonedForever(Apply(w, steps[0]), steps[1..], k);
    }
  }

  lemma AbandonedSlot(w: World, k: nat)
    requires Abandoned(w, k)
    ensures k < |w.slots|
  {}

  function StepsLeft(init: InitStage): nat {
    match init
    case TimerInit => 3
    case TimerCallback => 2
    case WqInit => 1
    case Publish => 0
  }

  /** A thread that is still preparing its slot can finish. */
  lemma {:induction false} PrepareOn(w: World, t: nat, k: nat) returns (steps: seq<Step>)
    requires Safe(w) && PreparingFor(w, t, k)
    ensures k < |Run(w, steps).slots| && Run(w, steps).slots[k].state != Initializing
    decreases StepsLeft(w.threads[t].init)
  {
    hide Safe, Run;
    PreparedSlot(w, t);
    var step := Prepare(t, true);
    RunOne(w, step);
    steps := [step];
    if w.threads[t].init != Publish {
      StepSafe(w, step);
      var rest := PrepareOn(Apply(w, step), t, k);
      RunAppend(w, [step], rest);
      steps := [step] + rest;
    }
  }

  lemma PreparedSlot(w: World, t: nat)
    requires Safe(w) && t in w.threads && w.threads[t].Preparing?
    ensures w.threads[t].key < |w.slots| && w.slots[w.threads[t].key].state == Initializing
  {
    assert ThreadSafe(w, t);
  }

  /** A slot stays INITIALIZING whatever happens exactly when it is abandoned. */
  lemma AbandonedIff(w: World, k: nat)
    requires Safe(w) && k < |w.slots| && w.slots[k].state == Initializing
    ensures Abandoned(w, k) <==>
              forall steps :: |Run(w, steps).slots| > k && Run(w, steps).slots[k].state == Initializing
  {
    hide Safe, Run;
    if Abandoned(w, k) {
      forall steps ensures |Run(w, steps).slots| > k && Run(w, steps).slots[k].state == Initializing {
        AbandonedForever(w, steps, k);
      }
    } else {
      var t :| PreparingFor(w, t, k);
      var steps := PrepareOn(w, t, k);
      assert Run(w, steps).slots[k].state != Initializing;
    }
  }

  /** Every failing kernel call of `hid_bpf_async_get_ctx` abandons the slot it claimed. */
  lemma FailureAbandons(w: World, t: nat, k: nat)
    requires Safe(w) && PreparingFor(w, t, k) && w.threads[t].init != Publish
    ensures Abandoned(Apply(w, Prepare(t, false)), k)
  {
    var w' := Apply(w, Prepare(t, false));
    assert ThreadSafe(w, t);
    assert forall u :: u in w'.threads ==> u != t && u in w.threads && w'.threads[u] == w.threads[u];
    assert forall u :: PreparingFor(w', u, k) ==> PreparingFor(w, u, k);
  }

  /** Each abandoned slot is a key less for ever. */
  lemma {:induction false} FewerKeys(w: World, abandoned: seq<nat>, steps: seq<Step>)
    requires Safe(w)
    requires forall i :: 0 <= i < |abandoned| ==> Abandoned(w, abandoned[i])
    requires forall i, j :: 0 <= i < j < |abandoned| ==> abandoned[i] != abandoned[j]
    ensures |Run(w, steps).returned| + |abandoned| <= |w.slots|
  {
    hide Run;
    var w' := Run(w, steps);
    RunSafe(w, steps);
    forall i | 0 <= i < |abandoned| ensures abandoned[i] < |w'.slots| && !Ready(w', abandoned[i]) {
      AbandonedForever(w, steps, abandoned[i]);
    }
    Pigeonhole(w'.returned + abandoned, |w.slots|);
  }
}

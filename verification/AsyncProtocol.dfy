/**
 * The asynchronous call protocol of src/bpf/hid_bpf_async.h as a transition
 * system. Threads, timers and work items interleave; one step is one section
 * under the slot's lock or one kernel call or unlocked write between them.
 */
module AsyncProtocol {
  datatype SlotState = Unset | Initializing | Initialized | Starting | Running

  /** A work item's callback: it has read the device's id, then it holds a context. */
  datatype Callback = NoCallback | Entered(hid: nat) | InBody(hid: nat)

  /**
   * What happened to a slot so far; no code reads it. `cause` and `owner` are the
   * device id and the thread of the latest accepted start, and `due` says that
   * no callback was entered since.
   */
  datatype History = History(cause: nat, owner: nat, due: bool)

  datatype Slot = Slot(
    state: SlotState, hid: nat, timerArmed: bool, queued: bool, callback: Callback, history: History)

  datatype InitStage = TimerInit | TimerCallback | WqInit | Publish
  datatype StartStage = StoreHid | SetWqCallback | SetTimerCallback | StartTimer | StartWq

  /** Where a thread is inside `hid_bpf_async_get_ctx` or `hid_bpf_async_delayed_call` */
  datatype Pc =
    | Scanning(next: nat)
    | Preparing(key: nat, init: InitStage)
    | Launching(key: nat, hid: nat, delayed: bool, setCallback: bool, start: StartStage)

  /** Threads outside both functions are absent from `threads`; `returned` lists the keys handed out. */
  datatype World = World(slots: seq<Slot>, threads: map<nat, Pc>, returned: seq<nat>)

  /** `ok` says whether the kernel call of the step succeeds. */
  datatype Step =
    | GetCtx(thread: nat)
    | Scan(thread: nat)
    | Prepare(thread: nat, ok: bool)
    | DelayedCall(thread: nat, slot: int, hid: nat, delayed: bool, setCallback: bool)
    | Launch(thread: nat, ok: bool)
    | TimerFires(key: nat, ok: bool)
    | CallbackEnters(key: nat)
    | CallbackGetsContext(key: nat, ok: bool)
    | CallbackEnds(key: nat)

  function InitialSlot(): Slot {
    Slot(Unset, 0, false, false, NoCallback, History(0, 0, false))
  }

  function Initial(maxCtx: nat): World {
    World(seq(maxCtx, _ => InitialSlot()), map[], [])
  }

  function SetSlot(w: World, k: nat, s: Slot): World
    requires k < |w.slots|
  {
    w.(slots := w.slots[k := s])
  }

  function SetThread(w: World, t: nat, pc: Pc): World {
    w.(threads := w.threads[t := pc])
  }

  function Leave(w: World, t: nat): World {
    w.(threads := w.threads - {t})
  }

  /** One turn of the loop of `hid_bpf_async_find_empty_key`, under the slot's lock */
  function ScanStep(w: World, t: nat, i: nat): World {
    if i >= |w.slots| then Leave(w, t)
    else if w.slots[i].state == Unset then
      SetThread(SetSlot(w, i, w.slots[i].(state := Initializing)), t, Preparing(i, TimerInit))
    else SetThread(w, t, Scanning(i + 1))
  }

  function PrepareStep(w: World, t: nat, key: nat, init: InitStage, ok: bool): World {
    match init
    case TimerInit => if ok then SetThread(w, t, Preparing(key, TimerCallback)) else Leave(w, t)
    case TimerCallback => if ok then SetThread(w, t, Preparing(key, WqInit)) else Leave(w, t)
    case WqInit => if ok then SetThread(w, t, Preparing(key, Publish)) else Leave(w, t)
    case Publish =>
      if key >= |w.slots| then w
      else Leave(SetSlot(w, key, w.slots[key].(state := Initialized)), t).(returned := w.returned + [key])
  }

  /** Whether `hid_bpf_async_delayed_call` gets past its guard */
  predicate Startable(slots: seq<Slot>, key: int) {
    0 <= key < |slots| && (slots[key].state == Initialized || slots[key].state == Running)
  }

  /** The section under the lock: a rejected call returns -EINVAL. */
  function CallStep(w: World, t: nat, key: int, hid: nat, delayed: bool, setCallback: bool): World {
    if !Startable(w.slots, key) then w
    else
      var s := w.slots[key];
      SetThread(SetSlot(w, key, s.(state := Starting, history := History(hid, t, true))), t,
                Launching(key, hid, delayed, setCallback, StoreHid))
  }

  function LaunchStep(w: World, t: nat, pc: Pc, ok: bool): World
    requires pc.Launching?
  {
    var key := pc.key;
    var afterCallback := if pc.delayed then SetTimerCallback else StartWq;
    if key >= |w.slots| then w
    else
      match pc.start
      case StoreHid =>
        SetThread(SetSlot(w, key, w.slots[key].(hid := pc.hid)), t,
                  pc.(start := if pc.setCallback then SetWqCallback else afterCallback))
      case SetWqCallback => if ok then SetThread(w, t, pc.(start := afterCallback)) else Leave(w, t)
      case SetTimerCallback => if ok then SetThread(w, t, pc.(start := StartTimer)) else Leave(w, t)
      case StartTimer => Leave(if ok then SetSlot(w, key, w.slots[key].(timerArmed := true)) else w, t)
      case StartWq => Leave(if ok then SetSlot(w, key, w.slots[key].(queued := true)) else w, t)
  }

  /** The work item leaves the queue and its callback reads the device's id. */
  function EnterCallback(s: Slot): Slot {
    s.(queued := false, callback := Entered(s.hid), history := s.history.(due := false))
  }

  /** A step that is not enabled changes nothing. */
  function Apply(w: World, step: Step): World {
    match step
    case GetCtx(t) => if t in w.threads then w else SetThread(w, t, Scanning(0))
    case Scan(t) =>
      if t in w.threads && w.threads[t].Scanning? then ScanStep(w, t, w.threads[t].next) else w
    case Prepare(t, ok) =>
      if t in w.threads && w.threads[t].Preparing?
      then PrepareStep(w, t, w.threads[t].key, w.threads[t].init, ok) else w
    case DelayedCall(t, key, hid, delayed, setCallback) =>
      if t in w.threads then w else CallStep(w, t, key, hid, delayed, setCallback)
    case Launch(t, ok) =>
      if t in w.threads && w.threads[t].Launching? then LaunchStep(w, t, w.threads[t], ok) else w
    case TimerFires(k, ok) =>
      if k < |w.slots| && w.slots[k].timerArmed
      then SetSlot(w, k, w.slots[k].(timerArmed := false, queued := w.slots[k].queued || ok)) else w
    case CallbackEnters(k) =>
      if k < |w.slots| && w.slots[k].queued && w.slots[k].callback == NoCallback
      then SetSlot(w, k, EnterCallback(w.slots[k])) else w
    case CallbackGetsContext(k, ok) =>
      if k < |w.slots| && w.slots[k].callback.Entered? then
        SetSlot(w, k, if ok then w.slots[k].(state := Running, callback := InBody(w.slots[k].callback.hid))
                      else w.slots[k].(callback := NoCallback))
      else w
    case CallbackEnds(k) =>
      if k < |w.slots| && w.slots[k].callback.InBody? then
        SetSlot(w, k, w.slots[k].(state := Initialized, callback := NoCallback))
      else w
  }

  function Run(w: World, steps: seq<Step>): World
    decreases |steps|
  {
    if steps == [] then w else Run(Apply(w, steps[0]), steps[1..])
  }

  lemma {:induction false} RunAppend(w: World, a: seq<Step>, b: seq<Step>)
    ensures Run(w, a + b) == Run(Run(w, a), b)
    decreases |a|
  {
    if a == [] {
      assert a + b == b;
    } else {
      assert (a + b)[1..] == a[1..] + b;
      RunAppend(Apply(w, a[0]), a[1..], b);
    }
  }

  // ----- Every run: claims -----

  /** UNSET, INITIALIZING, then forever one of the other three */
  function Rank(s: SlotState): nat {
    match s
    case Unset => 0
    case Initializing => 1
    case _ => 2
  }

  /** The slot is taken: initialisation has finished. */
  predicate Ready(w: World, k: nat) {
    k < |w.slots| && Rank(w.slots[k].state) == 2
  }

  ghost predicate ThreadSafe(w: World, t: nat)
    requires t in w.threads
  {
    match w.threads[t]
    case Scanning(_) => true
    case Preparing(k, _) =>
      && k < |w.slots| && w.slots[k].state == Initializing
      && forall u :: u in w.threads && w.threads[u].Preparing? && w.threads[u].key == k ==> u == t
    case Launching(k, _, _, _, _) => Ready(w, k)
  }

  predicate SlotSafe(s: Slot) {
    s.timerArmed || s.queued || s.callback != NoCallback ==> Rank(s.state) == 2
  }

  ghost predicate KeysSafe(w: World) {
    && (forall i :: 0 <= i < |w.returned| ==> Ready(w, w.returned[i]))
    && (forall i, j :: 0 <= i < j < |w.returned| ==> w.returned[i] != w.returned[j])
  }

  /** What every step keeps, whatever the kernel calls return */
  ghost predicate Safe(w: World) {
    && (forall t :: t in w.threads ==> ThreadSafe(w, t))
    && (forall k :: 0 <= k < |w.slots| ==> SlotSafe(w.slots[k]))
    && KeysSafe(w)
  }

  /** No slot steps back towards UNSET. */
  ghost predicate Advances(w: World, w': World) {
    && |w'.slots| == |w.slots|
    && (forall k :: 0 <= k < |w.slots| ==> Rank(w.slots[k].state) <= Rank(w'.slots[k].state))
    && w.returned <= w'.returned
  }

  lemma StepSafe(w: World, step: Step)
    requires Safe(w)
    ensures Safe(Apply(w, step)) && Advances(w, Apply(w, step))
  {
    match step
    case GetCtx(t) =>
    case Scan(t) =>
      if t in w.threads && w.threads[t].Scanning? { ScanSafe(w, t); }
    case Prepare(t, ok) =>
      if t in w.threads && w.threads[t].Preparing? { PrepareSafe(w, t, ok); }
    case DelayedCall(t, key, hid, delayed, setCallback) =>
      if t !in w.threads { CallSafe(w, t, key, hid, delayed, setCallback); }
    case Launch(t, ok) =>
      if t in w.threads && w.threads[t].Launching? { LaunchSafe(w, t, ok); }
    case _ => AsyncStepSafe(w, step);
  }

  lemma ScanSafe(w: World, t: nat)
    requires Safe(w) && t in w.threads && w.threads[t].Scanning?
    ensures var w' := ScanStep(w, t, w.threads[t].next); Safe(w') && Advances(w, w')
  {}

  lemma PrepareSafe(w: World, t: nat, ok: bool)
    requires Safe(w) && t in w.threads && w.threads[t].Preparing?
    ensures var w' := PrepareStep(w, t, w.threads[t].key, w.threads[t].init, ok); Safe(w') && Advances(w, w')
  {
    var w' := PrepareStep(w, t, w.threads[t].key, w.threads[t].init, ok);
    if w.threads[t].init == Publish {
      PublishSafe(w, t, ok);
    } else {
      assert forall u :: u in w'.threads ==> u in w.threads && ThreadSafe(w, u) && ThreadSafe(w', u);
    }
  }

  lemma PublishSafe(w: World, t: nat, ok: bool)
    requires Safe(w) && t in w.threads && w.threads[t].Preparing?
    ensures var w' := PrepareStep(w, t, w.threads[t].key, Publish, ok); Safe(w') && Advances(w, w')
  {
    var w' := PrepareStep(w, t, w.threads[t].key, Publish, ok);
    assert forall u :: u in w'.threads ==> u in w.threads && ThreadSafe(w, u) && ThreadSafe(w', u);
    assert KeysSafe(w');
  }

  lemma CallSafe(w: World, t: nat, key: int, hid: nat, delayed: bool, setCallback: bool)
    requires Safe(w) && t !in w.threads
    ensures var w' := CallStep(w, t, key, hid, delayed, setCallback); Safe(w') && Advances(w, w')
  {}

  /** The invariant looks at states only, apart from who prepares which slot. */
  lemma SameStatesSafe(w: World, w': World)
    requires Safe(w) && w'.returned == w.returned && |w'.slots| == |w.slots|
    requires forall k :: 0 <= k < |w.slots| ==> w'.slots[k].state == w.slots[k].state && SlotSafe(w'.slots[k])
    requires forall t :: t in w'.threads ==> t in w.threads
    requires forall t :: t in w'.threads ==>
               w'.threads[t] == w.threads[t] || (w'.threads[t].Launching? && Ready(w, w'.threads[t].key))
    ensures Safe(w') && Advances(w, w')
  {
    forall t | t in w'.threads
      ensures ThreadSafe(w', t)
    {
      assert ThreadSafe(w, t);
    }
  }

  lemma LaunchSafe(w: World, t: nat, ok: bool)
    requires Safe(w) && t in w.threads && w.threads[t].Launching?
    ensures var w' := LaunchStep(w, t, w.threads[t], ok); Safe(w') && Advances(w, w')
  {
    assert ThreadSafe(w, t);
    SameStatesSafe(w, LaunchStep(w, t, w.threads[t], ok));
  }

  lemma AsyncStepSafe(w: World, step: Step)
    requires Safe(w)
    requires step.TimerFires? || step.CallbackEnters? || step.CallbackGetsContext? || step.CallbackEnds?
    ensures Safe(Apply(w, step)) && Advances(w, Apply(w, step))
  {}

  lemma {:induction false} RunSafe(w: World, steps: seq<Step>)
    requires Safe(w)
    ensures Safe(Run(w, steps)) && Advances(w, Run(w, steps))
    decreases |steps|
  {
    hide Apply, Safe;
    if steps != [] {
      StepSafe(w, steps[0]);
      RunSafe(Apply(w, steps[0]), steps[1..]);
    }
  }

  /** The keys below n */
  function Below(n: nat): (r: set<nat>)
    ensures |r| == n && forall k: nat :: k in r <==> k < n
  {
    if n == 0 then {} else Below(n - 1) + {n - 1}
  }

  function Elements(keys: seq<nat>): (r: set<nat>)
    ensures forall k :: k in r <==> k in keys
  {
    if keys == [] then {}
    else
      var n := |keys| - 1;
      assert keys == keys[..n] + [keys[n]];
      Elements(keys[..n]) + {keys[n]}
  }

  lemma {:induction false} DistinctCount(keys: seq<nat>)
    requires forall i, j :: 0 <= i < j < |keys| ==> keys[i] != keys[j]
    ensures |Elements(keys)| == |keys|
  {
    hide Elements;
    if keys == [] {
      assert Elements(keys) == {};
    } else {
      var n := |keys| - 1;
      DistinctCount(keys[..n]);
      ElementsLast(keys);
      assert keys[n] !in keys[..n];
    }
  }

  lemma ElementsLast(keys: seq<nat>)
    requires keys != []
    ensures Elements(keys) == Elements(keys[..|keys| - 1]) + {keys[|keys| - 1]}
  {
  }

  /** Keys that differ and stay below n number at most n. */
  lemma Pigeonhole(keys: seq<nat>, n: nat)
    requires forall i :: 0 <= i < |keys| ==> keys[i] < n
    requires forall i, j :: 0 <= i < j < |keys| ==> keys[i] != keys[j]
    ensures |keys| <= n
  {
    DistinctCount(keys);
    assert forall k :: k in Elements(keys) ==> k in Below(n);
    SubsetSize(Elements(keys), Below(n));
  }

  lemma {:induction false} SubsetSize(a: set<nat>, b: set<nat>)
    requires a <= b
    ensures |a| <= |b|
    decreases a
  {
    if a != {} {
      var x :| x in a;
      SubsetSize(a - {x}, b - {x});
    }
  }

  lemma InitialSafe(maxCtx: nat)
    ensures Safe(Initial(maxCtx))
  {}

  /**
   * Over every interleaving of allocations, starts, timers and callbacks, with
   * kernel calls failing at will: no key is handed out twice, at most maxCtx
   * are, and only slots that finished initialisation have timers, work or callbacks.
   */
  lemma KeysAreUnique(maxCtx: nat, steps: seq<Step>)
    ensures var w := Run(Initial(maxCtx), steps);
            && |w.slots| == maxCtx
            && |w.returned| <= maxCtx
            && (forall i :: 0 <= i < |w.returned| ==> Ready(w, w.returned[i]))
            && (forall i, j :: 0 <= i < j < |w.returned| ==> w.returned[i] != w.returned[j])
            && (forall k :: 0 <= k < maxCtx ==> SlotSafe(w.slots[k]))
  {
    hide Run;
    InitialSafe(maxCtx);
    RunSafe(Initial(maxCtx), steps);
    Pigeonhole(Run(Initial(maxCtx), steps).returned, maxCtx);
  }

  /** A slot passes UNSET and INITIALIZING at most once: once left, a state never comes back. */
  lemma LifeCycle(maxCtx: nat, before: seq<Step>, after: seq<Step>, k: nat)
    requires k < maxCtx
    ensures var w, w' := Run(Initial(maxCtx), before), Run(Initial(maxCtx), before + after);
            && |w.slots| == maxCtx == |w'.slots|
            && (w.slots[k].state != Unset ==> w'.slots[k].state != Unset)
            && (Ready(w, k) ==> Ready(w', k))
            && w.returned <= w'.returned
  {
    hide Run, Safe;
    InitialSafe(maxCtx);
    RunSafe(Initial(maxCtx), before);
    RunAppend(Initial(maxCtx), before, after);
    RunSafe(Run(Initial(maxCtx), before), after);
  }
}

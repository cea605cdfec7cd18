/**
 * The functions of src/bpf/hid_bpf_async.h as they update the shared map when
 * nothing interrupts them, and why each is a run of one thread of AsyncProtocol.
 */
module AsyncSlots {
  import opened AsyncProtocol

  const EINVAL := 22

  /** The lowest slot still unset, or the number of slots */
  function FirstUnset(slots: seq<Slot>): (k: nat)
    ensures k <= |slots| && (k < |slots| ==> slots[k].state == Unset)
    ensures forall i :: 0 <= i < k ==> slots[i].state != Unset
  {
    if slots == [] || slots[0].state == Unset then 0 else 1 + FirstUnset(slots[1..])
  }

  /** The map, and what the caller gets */
  datatype Result = Result(slots: seq<Slot>, returned: int)

  /** What bpf_timer_init, bpf_timer_set_callback and bpf_wq_init return: 0 or an error */
  datatype InitResults = InitResults(timerInit: int, timerSetCallback: int, wqInit: int) {
    function Error(): int {
      if timerInit != 0 then timerInit else if timerSetCallback != 0 then timerSetCallback else wqInit
    }
  }

  /** What bpf_wq_set_callback, bpf_timer_set_callback, bpf_timer_start and bpf_wq_start return */
  datatype LaunchResults = LaunchResults(wqSetCallback: int, timerSetCallback: int, timerStart: int, wqStart: int) {
    function Error(delayed: bool, setCallback: bool): int {
      if setCallback && wqSetCallback != 0 then wqSetCallback
      else if !delayed then wqStart
      else if timerSetCallback != 0 then timerSetCallback
      else timerStart
    }
  }

  /** A caller's arguments; `thread` only identifies it. */
  datatype Start = Start(thread: nat, hid: nat, milliseconds: nat, setCallback: bool)

  /** A call as a callback's body may make it: to start a slot, or to claim one */
  datatype Call =
    | StartSlot(start: Start, key: int, results: LaunchResults)
    | ClaimSlot(thread: nat, initResults: InitResults)

  function GetCtxResult(slots: seq<Slot>, results: InitResults): Result {
    var k := FirstUnset(slots);
    if k == |slots| then Result(slots, -EINVAL)
    else if results.Error() != 0 then Result(slots[k := slots[k].(state := Initializing)], results.Error())
    else Result(slots[k := slots[k].(state := Initialized)], k)
  }

  function DelayedCallResult(slots: seq<Slot>, start: Start, key: int, results: LaunchResults): Result {
    if !Startable(slots, key) then Result(slots, -EINVAL)
    else
      var err := results.Error(start.milliseconds != 0, start.setCallback);
      var s := slots[key].(state := Starting, hid := start.hid, history := History(start.hid, start.thread, true));
      var armed := if start.milliseconds != 0 then s.(timerArmed := true) else s.(queued := true);
      Result(slots[key := if err != 0 then s else armed], err)
  }

  function CallResult(slots: seq<Slot>, call: Call): Result {
    match call
    case StartSlot(start, key, results) => DelayedCallResult(slots, start, key, results)
    case ClaimSlot(_, results) => GetCtxResult(slots, results)
  }

  class SlotMap {
    const slots: array<Slot>

    constructor (maxCtx: nat)
      ensures fresh(slots) && slots[..] == Initial(maxCtx).slots
    {
      slots := new Slot[maxCtx](_ => InitialSlot());
    }

    /** `hid_bpf_async_find_empty_key` */
    method FindEmptyKey() returns (key: int)
      modifies slots
      ensures var k := FirstUnset(old(slots[..]));
              && key == (if k < slots.Length then k else -EINVAL)
              && slots[..] == if k < slots.Length then old(slots[..])[k := old(slots[k]).(state := Initializing)]
                              else old(slots[..])
    {
      for i := 0 to slots.Length
        invariant slots[..] == old(slots[..])
        invariant forall j :: 0 <= j < i ==> slots[j].state != Unset
      {
        if slots[i].state == Unset {
          slots[i] := slots[i].(state := Initializing);
          return i;
        }
      }
      return -EINVAL;
    }

    /** `hid_bpf_async_get_ctx` */
    method GetCtx(results: InitResults) returns (key: int)
      modifies slots
      ensures Result(slots[..], key) == GetCtxResult(old(slots[..]), results)
    {
      key := FindEmptyKey();
      if key < 0 { return key; }
      if results.timerInit != 0 { return results.timerInit; }
      if results.timerSetCallback != 0 { return results.timerSetCallback; }
      if results.wqInit != 0 { return results.wqInit; }
      slots[key] := slots[key].(state := Initialized);
    }

    /** `hid_bpf_async_delayed_call` */
    method DelayedCall(start: Start, key: int, results: LaunchResults) returns (err: int)
      modifies slots
      ensures Result(slots[..], err) == DelayedCallResult(old(slots[..]), start, key, results)
    {
      if key < 0 || key >= slots.Length { return -EINVAL; }
      if slots[key].state != Initialized && slots[key].state != Running { return -EINVAL; }
      slots[key] := slots[key].(state := Starting, history := History(start.hid, start.thread, true));

      slots[key] := slots[key].(hid := start.hid);

      if start.setCallback {
        if results.wqSetCallback != 0 { return results.wqSetCallback; }
      }
      if start.milliseconds != 0 {
        if results.timerSetCallback != 0 { return results.timerSetCallback; }
        if results.timerStart != 0 { return results.timerStart; }
        slots[key] := slots[key].(timerArmed := true);
        return 0;
      }
      if results.wqStart == 0 {
        slots[key] := slots[key].(queued := true);
      }
      return results.wqStart;
    }

    /** `__start_wq_timer_cb`, run by the expired timer */
    method StartWqTimerCb(key: nat, wqStart: int)
      requires key < slots.Length && slots[key].timerArmed
      modifies slots
      ensures slots[..] == Apply(World(old(slots[..]), map[], []), TimerFires(key, wqStart == 0)).slots
    {
      slots[key] := slots[key].(timerArmed := false);
      if wqStart == 0 {
        slots[key] := slots[key].(queued := true);
      }
    }

    method MakeCall(call: Call) returns (returned: int)
      modifies slots
      ensures Result(slots[..], returned) == CallResult(old(slots[..]), call)
    {
      match call
      case StartSlot(start, key, results) => returned := DelayedCall(start, key, results);
      case ClaimSlot(_, results) => returned := GetCtx(results);
    }

    /**
     * The function HID_BPF_ASYNC_CB wraps around a callback whose body claims and
     * starts any slots, its own among them, any number of times. `context` says
     * whether hid_bpf_allocate_context succeeds.
     */
    method RunCallback(key: nat, context: bool, body: seq<Call>)
      requires key < slots.Length && slots[key].queued && slots[key].callback == NoCallback
      modifies slots
      ensures slots[..]
           == Run(World(old(slots[..]), map[], []), CallbackSteps(slots.Length, key, context, body)).slots
    {
      hide BodySteps, CallResult;
      ghost var w0 := World(slots[..], map[], []);
      CallbackRun(w0, key, context, body);
      slots[key] := EnterCallback(slots[key]);
      ghost var w1 := Apply(w0, CallbackEnters(key));
      assert slots[..] == w1.slots;
      if !context {
        slots[key] := slots[key].(callback := NoCallback);
        assert slots[..] == Apply(w1, CallbackGetsContext(key, false)).slots;
        return;
      }
      slots[key] := slots[key].(state := Running, callback := InBody(slots[key].callback.hid));
      ghost var w := Apply(w1, CallbackGetsContext(key, true));
      ghost var w2 := w;
      assert slots[..] == w2.slots;
      NoBody(w2);
      for i := 0 to |body|
        invariant w == Run(w2, BodySteps(slots.Length, body[..i]))
        invariant w.threads == map[] && w.slots == slots[..]
        invariant slots[key].callback.InBody?
      {
        OneMoreCall(w2, w, body, i);
        KeepsCallback(slots[..], body[i], key);
        var _ := MakeCall(body[i]);
        w := AfterCall(w, body[i]);
      }
      assert body[..|body|] == body;
      slots[key] := slots[key].(state := Initialized, callback := NoCallback);
      assert slots[..] == Apply(w, CallbackEnds(key)).slots;
    }
  }

  // ----- Uninterrupted calls as runs -----

  function Repeat(step: Step, n: nat): seq<Step> {
    if n == 0 then [] else [step] + Repeat(step, n - 1)
  }

  /** A thread that takes enough turns; the ones it does not need change nothing. */
  function GetCtxSteps(maxCtx: nat, t: nat, results: InitResults): seq<Step> {
    [GetCtx(t)] + Repeat(Scan(t), maxCtx + 1)
    + [Prepare(t, results.timerInit == 0), Prepare(t, results.timerSetCallback == 0), Prepare(t, results.wqInit == 0),
       Prepare(t, true)]
  }

  function LaunchSteps(start: Start, key: int, results: LaunchResults): seq<Step> {
    [Step.DelayedCall(start.thread, key, start.hid, start.milliseconds != 0, start.setCallback),
     Launch(start.thread, true)]
    + SetCallbackSteps(start, results) + ArmSteps(start, results)
  }

  function CallSteps(maxCtx: nat, call: Call): seq<Step> {
    match call
    case StartSlot(start, key, results) => LaunchSteps(start, key, results)
    case ClaimSlot(thread, results) => GetCtxSteps(maxCtx, thread, results)
  }

  /** The calls a callback makes, one after the other */
  function BodySteps(maxCtx: nat, body: seq<Call>): seq<Step> {
    if body == [] then []
    else
      var n := |body| - 1;
      BodySteps(maxCtx, body[..n]) + CallSteps(maxCtx, body[n])
  }

  function CallbackSteps(maxCtx: nat, key: nat, context: bool, body: seq<Call>): seq<Step> {
    [CallbackEnters(key), CallbackGetsContext(key, context)]
    + if context then BodySteps(maxCtx, body) + [CallbackEnds(key)] else []
  }

  lemma {:induction false} ScanRun(w: World, t: nat, i: nat, n: nat)
    requires t in w.threads && w.threads[t] == Scanning(i) && i <= FirstUnset(w.slots)
    requires n == |w.slots| + 1 - i
    ensures var k := FirstUnset(w.slots);
            Run(w, Repeat(Scan(t), n))
            == if k == |w.slots| then Leave(w, t)
               else SetThread(SetSlot(w, k, w.slots[k].(state := Initializing)), t, Preparing(k, TimerInit))
    decreases n
  {
    var w' := Apply(w, Scan(t));
    var k := FirstUnset(w.slots);
    assert Repeat(Scan(t), n)[1..] == Repeat(Scan(t), n - 1);
    if i == |w.slots| {
      assert Run(w', []) == w';
    } else if i == k {
      NoMoreScans(w', t, n - 1);
    } else {
      ScanRun(w', t, i + 1, n - 1);
      assert w'.threads - {t} == w.threads - {t};
    }
  }

  lemma {:induction false} NoMoreScans(w: World, t: nat, n: nat)
    requires !(t in w.threads && w.threads[t].Scanning?)
    ensures Run(w, Repeat(Scan(t), n)) == w
  {
    if n > 0 {
      assert Repeat(Scan(t), n)[1..] == Repeat(Scan(t), n - 1);
      NoMoreScans(w, t, n - 1);
    }
  }

  lemma RunFour(w: World, a: Step, b: Step, c: Step, d: Step)
    ensures Run(w, [a, b, c, d]) == Apply(Apply(Apply(Apply(w, a), b), c), d)
  {
    hide Apply;
    RunThree(Apply(w, a), b, c, d);
    assert [a, b, c, d][1..] == [b, c, d];
  }

  lemma RunThree(w: World, a: Step, b: Step, c: Step)
    ensures Run(w, [a, b, c]) == Apply(Apply(Apply(w, a), b), c)
  {
    hide Apply;
    RunTwo(Apply(w, a), b, c);
    assert [a, b, c][1..] == [b, c];
  }

  lemma RunTwo(w: World, a: Step, b: Step)
    ensures Run(w, [a, b]) == Apply(Apply(w, a), b)
    ensures Run(w, [b]) == Apply(w, b)
    ensures Run(w, []) == w
  {
    hide Apply;
    assert [a, b][1..] == [b] && [b][1..] == [];
    assert Run(Apply(w, b), []) == Apply(w, b);
    assert Run(Apply(Apply(w, a), b), []) == Apply(Apply(w, a), b);
  }

  function NextStage(init: InitStage): InitStage {
    match init
    case TimerInit => TimerCallback
    case TimerCallback => WqInit
    case _ => Publish
  }

  /** The outcome of one call of an initialising thread */
  lemma PrepareOne(w: World, t: nat, k: nat, init: InitStage, ok: bool)
    requires init != Publish
    ensures var at := SetThread(w, t, Preparing(k, init));
            Apply(at, Prepare(t, ok)) == if ok then SetThread(w, t, Preparing(k, NextStage(init))) else Leave(w, t)
  {
    var at := SetThread(w, t, Preparing(k, init));
    assert at.threads - {t} == w.threads - {t};
    assert at.threads[t := Preparing(k, NextStage(init))] == w.threads[t := Preparing(k, NextStage(init))];
  }

  lemma PublishOne(w: World, t: nat, k: nat)
    requires k < |w.slots|
    ensures Apply(SetThread(w, t, Preparing(k, Publish)), Prepare(t, true))
         == Leave(SetSlot(w, k, w.slots[k].(state := Initialized)), t).(returned := w.returned + [k])
  {
    assert w.threads[t := Preparing(k, Publish)] - {t} == w.threads - {t};
  }

  /** A thread that has returned prepares no more. */
  lemma NoMorePrepares(w: World, t: nat, ok: bool)
    requires t !in w.threads
    ensures Apply(w, Prepare(t, ok)) == w
  {
  }

  /** What is left of a thread's initialisation */
  lemma PrepareRun(w: World, t: nat, k: nat, results: InitResults)
    requires t in w.threads && w.threads[t] == Preparing(k, TimerInit) && k < |w.slots|
    ensures var steps := [Prepare(t, results.timerInit == 0), Prepare(t, results.timerSetCallback == 0),
                          Prepare(t, results.wqInit == 0), Prepare(t, true)];
            Run(w, steps)
            == if results.Error() != 0 then Leave(w, t)
               else Leave(SetSlot(w, k, w.slots[k].(state := Initialized)), t).(returned := w.returned + [k])
  {
    hide Apply, Run, SetSlot;
    RunFour(w, Prepare(t, results.timerInit == 0), Prepare(t, results.timerSetCallback == 0),
            Prepare(t, results.wqInit == 0), Prepare(t, true));
    assert SetThread(w, t, Preparing(k, TimerInit)).threads == w.threads;
    PrepareOne(w, t, k, TimerInit, results.timerInit == 0);
    PrepareOne(w, t, k, TimerCallback, results.timerSetCallback == 0);
    PrepareOne(w, t, k, WqInit, results.wqInit == 0);
    PublishOne(w, t, k);
    NoMorePrepares(Leave(w, t), t, results.timerSetCallback == 0);
    NoMorePrepares(Leave(w, t), t, results.wqInit == 0);
    NoMorePrepares(Leave(w, t), t, true);
  }

  /** A call of `hid_bpf_async_get_ctx` is the run of its steps, in any world. */
  lemma GetCtxIsRun(w: World, t: nat, results: InitResults)
    requires t !in w.threads
    ensures var r := GetCtxResult(w.slots, results);
            Run(w, GetCtxSteps(|w.slots|, t, results))
            == World(r.slots, w.threads,
                     if FirstUnset(w.slots) < |w.slots| && results.Error() == 0 then w.returned + [r.returned]
                     else w.returned)
  {
    hide Apply, Run, Repeat, FirstUnset;
    var k := FirstUnset(w.slots);
    var scans := Repeat(Scan(t), |w.slots| + 1);
    var prepares := [Prepare(t, results.timerInit == 0), Prepare(t, results.timerSetCallback == 0),
                     Prepare(t, results.wqInit == 0), Prepare(t, true)];
    var w1 := SetThread(w, t, Scanning(0));
    BeginGetCtx(w, t);
    RunAppend(w, [GetCtx(t)], scans);
    RunAppend(w, [GetCtx(t)] + scans, prepares);
    ScanRun(w1, t, 0, |w.slots| + 1);
    var w2 := Run(w1, scans);
    assert w1.threads - {t} == w.threads;
    if k == |w.slots| {
      NothingToPrepare(w2, t, results);
    } else {
      PrepareRun(w2, t, k, results);
      assert w2.threads - {t} == w.threads;
    }
  }

  lemma BeginGetCtx(w: World, t: nat)
    requires t !in w.threads
    ensures Run(w, [GetCtx(t)]) == SetThread(w, t, Scanning(0))
  {
    RunTwo(w, GetCtx(t), GetCtx(t));
  }

  lemma NothingToPrepare(w: World, t: nat, results: InitResults)
    requires t !in w.threads
    ensures Run(w, [Prepare(t, results.timerInit == 0), Prepare(t, results.timerSetCallback == 0),
                    Prepare(t, results.wqInit == 0), Prepare(t, true)]) == w
  {
    RunFour(w, Prepare(t, results.timerInit == 0), Prepare(t, results.timerSetCallback == 0),
            Prepare(t, results.wqInit == 0), Prepare(t, true));
  }

  function ArmSteps(start: Start, results: LaunchResults): seq<Step> {
    var t := start.thread;
    if start.milliseconds != 0 then [Launch(t, results.timerSetCallback == 0), Launch(t, results.timerStart == 0)]
    else [Launch(t, results.wqStart == 0)]
  }

  function SetCallbackSteps(start: Start, results: LaunchResults): seq<Step> {
    if start.setCallback then [Launch(start.thread, results.wqSetCallback == 0)] else []
  }

  function Stage(start: Start, key: nat, stage: StartStage): Pc {
    Launching(key, start.hid, start.milliseconds != 0, start.setCallback, stage)
  }

  function AfterCallback(start: Start): StartStage {
    if start.milliseconds != 0 then SetTimerCallback else StartWq
  }

  function AfterStore(start: Start): StartStage {
    if start.setCallback then SetWqCallback else AfterCallback(start)
  }

  lemma ArmRun(w: World, start: Start, key: nat, results: LaunchResults)
    requires start.thread in w.threads && w.threads[start.thread] == Stage(start, key, AfterCallback(start))
    requires key < |w.slots|
    ensures var s, delayed := w.slots[key], start.milliseconds != 0;
            Run(w, ArmSteps(start, results))
            == Leave(if results.Error(delayed, false) != 0 then w
                     else SetSlot(w, key, if delayed then s.(timerArmed := true) else s.(queued := true)), start.thread)
  {
    hide Run;
    var t := start.thread;
    RunTwo(w, Launch(t, results.timerSetCallback == 0), Launch(t, results.timerStart == 0));
    RunTwo(w, Launch(t, true), Launch(t, results.wqStart == 0));
    assert w.threads[t := Stage(start, key, StartTimer)] - {t} == w.threads - {t};
  }

  lemma IdleRun(w: World, start: Start, results: LaunchResults)
    requires start.thread !in w.threads
    ensures Run(w, ArmSteps(start, results)) == w && Run(w, SetCallbackSteps(start, results)) == w
  {
    hide Run;
    var t := start.thread;
    RunTwo(w, Launch(t, results.timerSetCallback == 0), Launch(t, results.timerStart == 0));
    RunTwo(w, Launch(t, true), Launch(t, results.wqStart == 0));
    RunTwo(w, Launch(t, true), Launch(t, results.wqSetCallback == 0));
  }

  lemma SetCallbackRun(w: World, start: Start, key: nat, results: LaunchResults)
    requires start.thread in w.threads && key < |w.slots|
    requires w.threads[start.thread] == Stage(start, key, AfterStore(start))
    ensures Run(w, SetCallbackSteps(start, results))
         == if start.setCallback && results.wqSetCallback != 0 then Leave(w, start.thread)
            else SetThread(w, start.thread, Stage(start, key, AfterCallback(start)))
  {
    hide Run;
    RunTwo(w, Launch(start.thread, true), Launch(start.thread, results.wqSetCallback == 0));
    assert w.threads[start.thread := w.threads[start.thread]] == w.threads;
  }

  /** The first two steps: the section under the lock, then the device id. */
  lemma AcceptRun(w: World, start: Start, key: int)
    requires start.thread !in w.threads
    ensures var call := Step.DelayedCall(start.thread, key, start.hid, start.milliseconds != 0, start.setCallback);
            Run(w, [call, Launch(start.thread, true)])
            == if !Startable(w.slots, key) then w
               else SetThread(
                      SetSlot(w, key, w.slots[key].(state := Starting, hid := start.hid,
                                                    history := History(start.hid, start.thread, true))),
                      start.thread, Stage(start, key, AfterStore(start)))
  {
    hide Run;
    var call := Step.DelayedCall(start.thread, key, start.hid, start.milliseconds != 0, start.setCallback);
    RunTwo(w, call, Launch(start.thread, true));
    var w1 := Apply(w, call);
    if Startable(w.slots, key) {
      var pc := Stage(start, key, AfterStore(start));
      assert w1.threads[start.thread := pc] == w.threads[start.thread := pc];
    }
  }

  /** So is a call of `hid_bpf_async_delayed_call`. */
  lemma DelayedCallIsRun(w: World, start: Start, key: int, results: LaunchResults)
    requires start.thread !in w.threads
    ensures Run(w, LaunchSteps(start, key, results))
         == w.(slots := DelayedCallResult(w.slots, start, key, results).slots)
  {
    hide Run, Apply;
    var t := start.thread;
    var call := Step.DelayedCall(t, key, start.hid, start.milliseconds != 0, start.setCallback);
    var first, callback, arm := [call, Launch(t, true)], SetCallbackSteps(start, results), ArmSteps(start, results);
    RunAppend(w, first, callback);
    RunAppend(w, first + callback, arm);
    AcceptRun(w, start, key);
    var w1 := Run(w, first);
    var w2 := Run(w1, callback);
    if !Startable(w.slots, key) {
      IdleRun(w, start, results);
    } else {
      SetCallbackRun(w1, start, key, results);
      assert w1.threads - {t} == w.threads;
      if start.setCallback && results.wqSetCallback != 0 {
        IdleRun(w2, start, results);
      } else {
        ArmRun(w2, start, key, results);
        assert w2.threads - {t} == w.threads;
      }
    }
  }

  /** A world after an uninterrupted call */
  function AfterCall(w: World, call: Call): World {
    var r := CallResult(w.slots, call);
    World(r.slots, w.threads,
          if call.ClaimSlot? && FirstUnset(w.slots) < |w.slots| && call.initResults.Error() == 0
          then w.returned + [r.returned] else w.returned)
  }

  lemma NoBody(w: World)
    ensures Run(w, BodySteps(|w.slots|, [])) == w
  {}

  lemma CallIsRun(w: World, call: Call)
    requires w.threads == map[]
    ensures Run(w, CallSteps(|w.slots|, call)) == AfterCall(w, call)
  {
    hide Run, LaunchSteps, GetCtxSteps, DelayedCallResult, GetCtxResult;
    match call
    case StartSlot(start, key, results) => DelayedCallIsRun(w, start, key, results);
    case ClaimSlot(thread, results) => GetCtxIsRun(w, thread, results);
  }

  lemma OneMoreCall(w0: World, w: World, body: seq<Call>, i: nat)
    requires i < |body| && w.threads == map[] && w == Run(w0, BodySteps(|w.slots|, body[..i]))
    ensures Run(w0, BodySteps(|w.slots|, body[..i + 1])) == AfterCall(w, body[i])
  {
    hide Run, CallSteps, AfterCall;
    assert body[..i + 1][..i] == body[..i];
    RunAppend(w0, BodySteps(|w.slots|, body[..i]), CallSteps(|w.slots|, body[i]));
    CallIsRun(w, body[i]);
  }

  lemma CallbackRun(w: World, key: nat, context: bool, body: seq<Call>)
    ensures var w2 := Apply(Apply(w, CallbackEnters(key)), CallbackGetsContext(key, context));
            Run(w, CallbackSteps(|w.slots|, key, context, body))
            == if context then Apply(Run(w2, BodySteps(|w.slots|, body)), CallbackEnds(key)) else w2
  {
    hide Run, Apply, BodySteps;
    RunTwo(w, CallbackEnters(key), CallbackGetsContext(key, context));
    var w2 := Apply(Apply(w, CallbackEnters(key)), CallbackGetsContext(key, context));
    var first, end := [CallbackEnters(key), CallbackGetsContext(key, context)], [CallbackEnds(key)];
    var calls := BodySteps(|w.slots|, body);
    if context {
      assert CallbackSteps(|w.slots|, key, context, body) == first + (calls + end);
      RunAppend(w, first, calls + end);
      RunAppend(w2, calls, end);
      RunTwo(Run(w2, calls), CallbackEnds(key), CallbackEnds(key));
    } else {
      assert first + [] == first;
    }
  }

  lemma KeepsCallback(slots: seq<Slot>, call: Call, key: nat)
    requires key < |slots|
    ensures var r := CallResult(slots, call).slots;
            |r| == |slots| && r[key].callback == slots[key].callback
  {}
}

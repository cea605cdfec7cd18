/**
 * A run in which every kernel call succeeds and a slot still gets two starts at
 * once: the second is accepted while the first one's callback runs.
 */
module AsyncOverlap {
  import opened AsyncProtocol
  import opened AsyncRuns
  import opened AsyncSlots

  lemma {:induction false} NoOverlapSuffix(w: World, a: seq<Step>, b: seq<Step>, k: nat)
    requires NoOverlapRun(w, a + b, k)
    ensures NoOverlapRun(Run(w, a), b, k)
    decreases |a|
  {
    if a == [] {
      assert a + b == b;
    } else {
      assert (a + b)[1..] == a[1..] + b;
      NoOverlapSuffix(Apply(w, a[0]), a[1..], b, k);
    }
  }

  /** Thread 0 claims slot 0 and starts it at once; then its callback begins. */
  function UntilRunning(): seq<Step> {
    GetCtxSteps(1, 0, InitResults(0, 0, 0))
    + LaunchSteps(Start(0, 7, 0, false), 0, LaunchResults(0, 0, 0, 0))
    + [CallbackEnters(0), CallbackGetsContext(0, true)]
  }

  /** Thread 1 starts it again meanwhile. */
  function OverlappingStart(): Step {
    Step.DelayedCall(1, 0, 9, false, false)
  }

  lemma RunningAfterwards()
    ensures var w := Run(Initial(1), UntilRunning());
            |w.slots| == 1 && w.slots[0].state == Running && w.threads == map[]
  {
    hide Run, GetCtxSteps, LaunchSteps;
    var init, start, ok := InitResults(0, 0, 0), Start(0, 7, 0, false), LaunchResults(0, 0, 0, 0);
    var a, b := GetCtxSteps(1, 0, init), LaunchSteps(start, 0, ok);
    var c := [CallbackEnters(0), CallbackGetsContext(0, true)];
    RunAppend(Initial(1), a, b);
    RunAppend(Initial(1), a + b, c);
    GetCtxIsRun(Initial(1), 0, init);
    var w1 := Run(Initial(1), a);
    assert FirstUnset(Initial(1).slots) == 0;
    assert w1.slots[0].state == Initialized && w1.threads == map[];
    DelayedCallIsRun(w1, start, 0, ok);
    RunTwo(Run(w1, b), CallbackEnters(0), CallbackGetsContext(0, true));
  }

  lemma StepsSucceed()
    ensures forall s :: s in UntilRunning() + [OverlappingStart()] ==> KernelSucceeds(s)
  {
    ScansSucceed(2);
  }

  lemma {:induction false} ScansSucceed(n: nat)
    ensures forall s :: s in Repeat(Scan(0), n) ==> KernelSucceeds(s)
  {
    if n > 0 { ScansSucceed(n - 1); }
  }

  /** So success of the kernel calls alone does not keep starts apart. */
  lemma OverlapHappens()
    ensures var steps := UntilRunning() + [OverlappingStart()];
            && (forall i :: 0 <= i < |steps| ==> KernelSucceeds(steps[i]))
            && exists i: nat :: i <= |steps| && !AtMostOne(Initial(1), steps, i, 0)
  {
    hide Run, NoOverlapRun, AtMostOne, UntilRunning, Safe, Tracked;
    var steps := UntilRunning() + [OverlappingStart()];
    StepsSucceed();
    RunningAfterwards();
    var w := Run(Initial(1), UntilRunning());
    Overlaps(w);
    if NoOverlapRun(Initial(1), steps, 0) {
      NoOverlapSuffix(Initial(1), UntilRunning(), [OverlappingStart()], 0);
      assert false;
    }
    InitialTracked(1, 0);
    OneOutstandingIff(Initial(1), steps, 0);
  }

  lemma Overlaps(w: World)
    requires |w.slots| == 1 && w.slots[0].state == Running && w.threads == map[]
    ensures !NoOverlapRun(w, [OverlappingStart()], 0)
  {}
}

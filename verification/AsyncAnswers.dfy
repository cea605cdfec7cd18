/**
 * What callers of src/bpf/hid_bpf_async.h are told: each answer in terms of the
 * map before the call, the results of the kernel calls, and the map afterwards.
 */
module AsyncAnswers {
  import opened AsyncProtocol
  import opened AsyncRuns
  import opened AsyncSlots

  /** The answer of a chain of kernel calls that ends at the first that fails */
  ghost predicate FirstFailure(calls: seq<int>, answer: int) {
    exists i :: 0 <= i < |calls| && answer == calls[i] != 0 && forall j :: 0 <= j < i ==> calls[j] == 0
  }

  /** The slot of a refused start: there is none, or its state allows no start. */
  predicate Refuses(slots: seq<Slot>, key: int) {
    key < 0 || key >= |slots| || slots[key].state in {Unset, Initializing, Starting}
  }

  /** The kernel calls of an accepted start, in order, as far as none fails */
  function StartCalls(start: Start, results: LaunchResults): seq<int> {
    (if start.setCallback then [results.wqSetCallback] else [])
    + (if start.milliseconds > 0 then [results.timerSetCallback, results.timerStart] else [results.wqStart])
  }

  /**
   * A refused start answers -22 and changes nothing. Any other one is STARTING
   * afterwards, for the caller's device; it answers 0 exactly when all its
   * kernel calls did, and then its timer is armed or, without a delay, its work
   * is queued; else it answers the first failure and arms nothing.
   */
  lemma StartAnswers(slots: seq<Slot>, start: Start, key: int, results: LaunchResults)
    ensures var r, calls := DelayedCallResult(slots, start, key, results), StartCalls(start, results);
            if Refuses(slots, key) then r.returned == -22 && r.slots == slots
            else
              && |r.slots| == |slots| && (forall k :: 0 <= k < |slots| && k != key ==> r.slots[k] == slots[k])
              && r.slots[key].state == Starting && r.slots[key].hid == start.hid
              && r.slots[key].callback == slots[key].callback
              && (r.returned == 0 <==> forall i :: 0 <= i < |calls| ==> calls[i] == 0)
              && (r.returned != 0 ==> FirstFailure(calls, r.returned))
              && r.slots[key].timerArmed == (slots[key].timerArmed || (r.returned == 0 && start.milliseconds > 0))
              && r.slots[key].queued == (slots[key].queued || (r.returned == 0 && start.milliseconds == 0))
  {
    var r, calls := DelayedCallResult(slots, start, key, results), StartCalls(start, results);
    if !Refuses(slots, key) && r.returned != 0 {
      var i := if start.setCallback && results.wqSetCallback != 0 then 0
               else |calls| - (if start.milliseconds > 0 && results.timerSetCallback != 0 then 2 else 1);
      assert calls[i] == r.returned;
      assert forall j :: 0 <= j < i ==> calls[j] == 0;
    }
  }

  /** Between an accepted start and its callback every start of the slot is answered -22, whatever else happens. */
  lemma EveryOtherStartIsToldSo(
    w: World, steps: seq<Step>, k: nat, start: Start, results: LaunchResults)
    requires Safe(w) && Tracked(w, k)
    requires w.slots[k].state == Starting && NoCallbackBegins(w, steps, k)
    ensures var slots := Run(w, steps).slots; DelayedCallResult(slots, start, k, results) == Result(slots, -22)
  {
    hide Run, Safe, Tracked, NoCallbackBegins;
    RejectedUntilCallback(w, steps, k);
    StartAnswers(Run(w, steps).slots, start, k, results);
  }

  /**
   * A full map answers -22 and stays as it is. Otherwise the lowest unset slot is
   * claimed: when its three kernel calls succeed it is INITIALIZED and its
   * key is the answer, else it stays INITIALIZING and the answer is the first failure.
   */
  lemma ClaimAnswers(slots: seq<Slot>, results: InitResults)
    ensures var r, calls := GetCtxResult(slots, results), [results.timerInit, results.timerSetCallback, results.wqInit];
            if forall k :: 0 <= k < |slots| ==> slots[k].state != Unset then r == Result(slots, -22)
            else
              exists k :: 0 <= k < |slots| && slots[k].state == Unset
                && (forall j :: 0 <= j < k ==> slots[j].state != Unset)
                && |r.slots| == |slots| && (forall j :: 0 <= j < |slots| && j != k ==> r.slots[j] == slots[j])
                && if forall i :: 0 <= i < 3 ==> calls[i] == 0
                   then r.returned == k && r.slots[k] == slots[k].(state := Initialized)
                   else FirstFailure(calls, r.returned) && r.slots[k] == slots[k].(state := Initializing)
  {
    var r, calls := GetCtxResult(slots, results), [results.timerInit, results.timerSetCallback, results.wqInit];
    var k := FirstUnset(slots);
    if k < |slots| && results.Error() != 0 {
      var i := if results.timerInit != 0 then 0 else if results.timerSetCallback != 0 then 1 else 2;
      assert calls[i] == r.returned != 0;
      assert forall j :: 0 <= j < i ==> calls[j] == 0;
    } else {
      assert results.Error() == 0 ==> calls[0] == 0 && calls[1] == 0 && calls[2] == 0;
    }
  }
}

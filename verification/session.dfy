/**
 * The adjustment session manager as a sequential state machine. The
 * asynchronous render is split into a start step (`ApplyAdjust`) and a
 * completion step (`Complete`) whose bridge outcome is an input.
 */
module Session {
  import opened Wrappers
  import Params

  /** A bitmap as a value: copying it yields an equal value. */
  datatype Bitmap = Bitmap(width: nat, height: nat, pixels: seq<int>)

  /** What the native bridge did with the work copy it was handed. */
  datatype BridgeOutcome =
    | Changed(result: Bitmap)   // returned true; the work copy now holds `result`
    | Unchanged                 // returned false
    | Threw                     // raised an exception

  /** The stored job handle. */
  datatype Job =
    | NoJob
    | Running(work: Bitmap)     // launched on a private copy of the original
    | Cancelled                 // cancelled by `Release` before it finished
    | Finished

  datatype Manager = Manager(
    original: Option<Bitmap>,
    preview: Option<Bitmap>,
    isProcessing: bool,
    job: Job,
    params: Params.AdjustParams)

  /** What an outside observer can see a step do. */
  datatype Event =
    | Launched(work: Bitmap)    // a render job was started on `work`
    | Updated(bitmap: Bitmap)   // the `onUpdated` callback ran with `bitmap`
    | PoolReleased              // the bridge's resource pool was released

  datatype Step = Step(next: Manager, events: seq<Event>)

  const Initial: Manager := Manager(None, None, false, NoJob, Params.Default)

  /** Only a job that was launched, and not yet seen to finish, keeps the manager busy. */
  predicate Inv(m: Manager) {
    (m.job.Running? || m.job.Cancelled?) ==> m.isProcessing
  }

  /** Stores the original and a copy of it as the preview; no render is started. */
  function SetOriginalBitmap(m: Manager, b: Bitmap): (r: Manager)
    ensures r.original == Some(b) && r.preview == Some(b)
    ensures r.isProcessing == m.isProcessing && r.job == m.job && r.params == m.params
  {
    m.(original := Some(b), preview := Some(b))
  }

  /**
   * The start step of a render. With no original, or while a render is in
   * progress, the request is dropped without any effect. Otherwise the
   * manager becomes busy and launches a job on a copy of the original; the
   * previous job, which cancellation would target, is never still running.
   */
  function ApplyAdjust(m: Manager): (r: Step)
    ensures m.original.None? ==> r == Step(m, [])
    ensures m.isProcessing ==> r == Step(m, [])
    ensures m.original.Some? && !m.isProcessing ==>
      && r.next == m.(isProcessing := true, job := Running(m.original.value))
      && r.events == [Launched(m.original.value)]
  {
    match m.original
    case None => Step(m, [])
    case Some(base) =>
      if m.isProcessing then Step(m, [])
      else Step(m.(isProcessing := true, job := Running(base)), [Launched(base)])
  }

  /**
   * The completion step of the launched job, given what the bridge did. Only
   * a running job whose bridge reported a change replaces the preview and
   * calls back; every completion clears the busy flag. A job cancelled by
   * `Release` that still ran its body publishes nothing (its switch to the
   * main thread is cancelled) but clears the flag in its `finally` block.
   */
  function Complete(m: Manager, outcome: BridgeOutcome): (r: Step)
    ensures r.next.original == m.original && r.next.params == m.params
    ensures m.job.Running? || m.job.Cancelled? ==> !r.next.isProcessing && r.next.job == Finished
    ensures m.job.Running? && outcome.Changed? ==>
      r.next.preview == Some(outcome.result) && r.events == [Updated(outcome.result)]
    ensures !(m.job.Running? && outcome.Changed?) ==> r.next.preview == m.preview && r.events == []
    ensures !(m.job.Running? || m.job.Cancelled?) ==> r == Step(m, [])
  {
    match m.job
    case Running(_) =>
      var done := m.(isProcessing := false, job := Finished);
      (match outcome
       case Changed(res) => Step(done.(preview := Some(res)), [Updated(res)])
       case Unchanged => Step(done, [])
       case Threw => Step(done, []))
    case Cancelled => Step(m.(isProcessing := false, job := Finished), [])
    case _ => Step(m, [])
  }

  /**
   * A job cancelled before its body was ever scheduled never runs, so its
   * `finally` block does not clear the busy flag either.
   */
  function DropCancelled(m: Manager): (r: Manager)
    ensures m.job.Cancelled? ==> r.job == Finished && r.isProcessing == m.isProcessing
    ensures !m.job.Cancelled? ==> r == m
    ensures r.original == m.original && r.preview == m.preview && r.params == m.params
  {
    if m.job.Cancelled? then m.(job := Finished) else m
  }

  /** Frees both bitmaps, cancels a running job and releases the bridge's pool. */
  function Release(m: Manager): (r: Step)
    ensures r.next.original.None? && r.next.preview.None?
    ensures !r.next.job.Running?
    ensures m.job.Running? ==> r.next.job == Cancelled
    ensures !m.job.Running? ==> r.next.job == m.job
    ensures r.next.isProcessing == m.isProcessing && r.next.params == m.params
    ensures r.events == [PoolReleased]
  {
    var job := if m.job.Running? then Cancelled else m.job;
    Step(m.(original := None, preview := None, job := job), [PoolReleased])
  }

  /** Releasing twice leaves the same state as releasing once. */
  lemma ReleaseIdempotent(m: Manager)
    ensures Release(Release(m).next).next == Release(m).next
  {
  }

  /** An apply request after release does nothing until a new original is set. */
  lemma ApplyAfterReleaseIsNoOp(m: Manager)
    ensures ApplyAdjust(Release(m).next) == Step(Release(m).next, [])
  {
  }

  /** Every operation the session offers, with the bridge and scheduler choices as inputs. */
  datatype Action =
    | SetOriginal(b: Bitmap)
    | Mutate(p: Params.AdjustParams)
    | Apply
    | Finish(outcome: BridgeOutcome)
    | Drop
    | ReleaseAction

  function Do(m: Manager, a: Action): Step {
    match a
    case SetOriginal(b) => Step(SetOriginalBitmap(m, b), [])
    case Mutate(p) => Step(m.(params := p), [])
    case Apply => ApplyAdjust(m)
    case Finish(o) => Complete(m, o)
    case Drop => Step(DropCancelled(m), [])
    case ReleaseAction => Release(m)
  }

  function Run(m: Manager, actions: seq<Action>): Step
    decreases |actions|
  {
    if |actions| == 0 then Step(m, [])
    else
      var first := Do(m, actions[0]);
      var rest := Run(first.next, actions[1..]);
      Step(rest.next, first.events + rest.events)
  }

  /** Each action keeps the busy flag set while a launched job may still finish. */
  lemma DoPreservesInv(m: Manager, a: Action)
    requires Inv(m)
    ensures Inv(Do(m, a).next)
  {
  }

  /**
   * Single flight: whenever an apply request launches a job, no earlier job
   * is still running, so the cancellation of the previous job never hits a
   * live render.
   */
  lemma LaunchOnlyWhenIdle(m: Manager)
    requires Inv(m)
    requires ApplyAdjust(m).events != []
    ensures !m.job.Running? && !m.job.Cancelled?
  {
  }

  function CountUpdated(es: seq<Event>): nat {
    if |es| == 0 then 0 else (if es[0].Updated? then 1 else 0) + CountUpdated(es[1..])
  }

  function CountLaunched(es: seq<Event>): nat {
    if |es| == 0 then 0 else (if es[0].Launched? then 1 else 0) + CountLaunched(es[1..])
  }

  lemma {:induction false} CountsAppend(a: seq<Event>, b: seq<Event>)
    ensures CountUpdated(a + b) == CountUpdated(a) + CountUpdated(b)
    ensures CountLaunched(a + b) == CountLaunched(a) + CountLaunched(b)
    decreases |a|
  {
    if |a| > 0 {
      assert (a + b)[0] == a[0] && (a + b)[1..] == a[1..] + b;
      CountsAppend(a[1..], b);
    } else {
      assert a + b == b;
    }
  }

  function Pending(m: Manager): nat {
    if m.job.Running? then 1 else 0
  }

  /**
   * Over any sequence of actions, each launched job calls `onUpdated` at most
   * once: the callbacks never outnumber the launches (plus the one job that
   * may already be running at the start).
   */
  lemma {:induction false} CallbacksNeverExceedLaunches(m: Manager, actions: seq<Action>)
    ensures var r := Run(m, actions);
      CountUpdated(r.events) + Pending(r.next) <= CountLaunched(r.events) + Pending(m)
    decreases |actions|
  {
    if |actions| > 0 {
      var first := Do(m, actions[0]);
      var rest := Run(first.next, actions[1..]);
      CallbacksNeverExceedLaunches(first.next, actions[1..]);
      CountsAppend(first.events, rest.events);
      assert CountUpdated(first.events) + Pending(first.next) <= CountLaunched(first.events) + Pending(m) by {
        match actions[0]
        case Apply =>
          if first.events != [] {
            assert first.events == [Launched(m.original.value)];
            assert CountLaunched(first.events) == 1 && CountUpdated(first.events) == 0;
          }
        case Finish(o) =>
          if first.events != [] {
            assert first.events == [Updated(o.result)];
            assert CountUpdated(first.events) == 1 && CountLaunched(first.events) == 0;
          }
        case ReleaseAction =>
          assert CountUpdated(first.events) == 0 && CountLaunched(first.events) == 0;
        case _ =>
      }
    }
  }

  /** No action except setting a new original or releasing ever changes the original. */
  lemma {:induction false} RendersNeverTouchOriginal(m: Manager, actions: seq<Action>)
    requires forall i :: 0 <= i < |actions| ==> !actions[i].SetOriginal? && !actions[i].ReleaseAction?
    ensures Run(m, actions).next.original == m.original
    decreases |actions|
  {
    if |actions| > 0 {
      RendersNeverTouchOriginal(Do(m, actions[0]).next, actions[1..]);
    }
  }

  /** From the initial state, every reachable state keeps the invariant. */
  lemma {:induction false} RunPreservesInv(m: Manager, actions: seq<Action>)
    requires Inv(m)
    ensures Inv(Run(m, actions).next)
    decreases |actions|
  {
    if |actions| > 0 {
      DoPreservesInv(m, actions[0]);
      RunPreservesInv(Do(m, actions[0]).next, actions[1..]);
    }
  }

  /**
   * While a render is in flight, further apply requests are dropped: two
   * applies followed by a completion launch exactly one job and call back at
   * most once.
   */
  lemma SecondApplyDropped(m: Manager, o: BridgeOutcome)
    requires m.original.Some? && !m.isProcessing
    ensures var r := Run(m, [Apply, Apply, Finish(o)]);
      && CountLaunched(r.events) == 1
      && CountUpdated(r.events) == (if o.Changed? then 1 else 0)
      && !r.next.isProcessing
  {
    var acts := [Apply, Apply, Finish(o)];
    var s1 := ApplyAdjust(m);
    var s2 := ApplyAdjust(s1.next);
    var s3 := Complete(s2.next, o);
    assert s2 == Step(s1.next, []);
    assert acts[1..] == [Apply, Finish(o)] && acts[1..][1..] == [Finish(o)] && acts[1..][1..][1..] == [];
    assert [Finish(o)][1..] == [];
    assert Do(s2.next, Finish(o)) == s3;
    assert Run(s3.next, []) == Step(s3.next, []);
    var r3 := Run(s2.next, [Finish(o)]);
    assert r3 == Step(s3.next, s3.events + []);
    var r2 := Run(s1.next, [Apply, Finish(o)]);
    assert r2 == Step(s3.next, s2.events + r3.events);
    var r := Run(m, acts);
    assert r == Step(s3.next, s1.events + r2.events);
    assert r.events == [Launched(m.original.value)] + s3.events;
    CountsAppend([Launched(m.original.value)], s3.events);
    if o.Changed? {
      assert s3.events == [Updated(o.result)];
      assert CountUpdated(s3.events) == 1 && CountLaunched(s3.events) == 0;
    } else {
      assert s3.events == [];
    }
  }

  /**
   * Busy with no job left that could ever clear the flag: the state a manager
   * reaches when its job was cancelled before its body ran.
   */
  predicate StuckBusy(m: Manager) {
    m.isProcessing && (m.job.NoJob? || m.job.Finished?)
  }

  /** Once stuck busy, no sequence of actions launches a render again, and the manager stays stuck. */
  lemma {:induction false} StuckBusyIsPermanent(m: Manager, actions: seq<Action>)
    requires StuckBusy(m)
    ensures StuckBusy(Run(m, actions).next)
    ensures CountLaunched(Run(m, actions).events) == 0
    decreases |actions|
  {
    if |actions| > 0 {
      var first := Do(m, actions[0]);
      assert StuckBusy(first.next) && CountLaunched(first.events) == 0 by {
        match actions[0]
        case ReleaseAction =>
          assert first.events == [PoolReleased];
        case _ =>
          assert first.events == [];
      }
      StuckBusyIsPermanent(first.next, actions[1..]);
      CountsAppend(first.events, Run(first.next, actions[1..]).events);
    }
  }

  /**
   * Releasing while a render is running, when the cancelled job never gets
   * to run its body, leaves the busy flag set for good: a new original can
   * be set, but no later apply request launches a render.
   */
  lemma ReleaseDuringRenderBlocksLaterApplies(m: Manager, later: seq<Action>)
    requires m.isProcessing && m.job.Running?
    ensures CountLaunched(Run(m, [ReleaseAction, Drop] + later).events) == 0
  {
    var acts := [ReleaseAction, Drop] + later;
    var r1 := Release(m);
    var m2 := DropCancelled(r1.next);
    assert StuckBusy(m2);
    StuckBusyIsPermanent(m2, later);
    assert acts[1..] == [Drop] + later && acts[1..][1..] == later;
    var rest := Run(m2, later);
    assert Run(r1.next, acts[1..]) == Step(rest.next, [] + rest.events);
    assert Run(m, acts) == Step(rest.next, r1.events + ([] + rest.events));
    CountsAppend(r1.events, [] + rest.events);
    assert [] + rest.events == rest.events;
  }

  /** The concrete case: release, then a new original and an apply request, launches nothing. */
  lemma ReleaseThenNewOriginalStaysIdle(m: Manager, b: Bitmap)
    requires m.isProcessing && m.job.Running?
    ensures var r := Run(m, [ReleaseAction, Drop, SetOriginal(b), Apply]);
      && CountLaunched(r.events) == 0
      && r.next.original == Some(b)
      && r.next.isProcessing
  {
    var later := [SetOriginal(b), Apply];
    assert [ReleaseAction, Drop] + later == [ReleaseAction, Drop, SetOriginal(b), Apply];
    ReleaseDuringRenderBlocksLaterApplies(m, later);
    var m2 := DropCancelled(Release(m).next);
    var m3 := SetOriginalBitmap(m2, b);
    assert ApplyAdjust(m3) == Step(m3, []);
    assert later[1..] == [Apply] && [Apply][1..] == [];
    assert Run(m3, [Apply]) == Step(m3, []);
    assert Run(m2, later) == Step(m3, []);
    StuckBusyIsPermanent(m2, later);
  }
}

/** `retro_run` as the sequence of observable events of one displayed frame:
    lock the video state, poll input, fetch the multiplier, hand the first
    logic tick's video to the render thread, run the logic ticks, and
    refresh the frontend's video under the lock. */
module Scheduler {
  import opened Common
  import opened AvInfo
  import opened Environment
  import opened FrameMult

  datatype Event =
    | Lock                    // VIDEO_LOCK.lock_noguard()
    | Unlock                  // VIDEO_LOCK.unlock_noguard()
    | PollInput               // the frontend's input poll callback
    | Env(call: EnvCall)      // an environment call made by get_frame_mult
    | SnapshotVideo           // the core's snapshot_video()
    | RenderVideo             // the core's render_video()
    | SignalRenderer          // VIDEO_WAIT signalled to the render thread
    | CoreRun                 // the core's core_run(): one logic tick
    | VideoRefresh(width: u32, height: u32, pitch: u32)
    | Abort                   // a panic: the process aborts

  /** The environment calls as events, in order. */
  function EnvEvents(calls: seq<EnvCall>): (es: seq<Event>)
    ensures |es| == |calls|
    ensures forall i :: 0 <= i < |es| ==> es[i] == Env(calls[i])
  {
    if |calls| == 0 then [] else [Env(calls[0])] + EnvEvents(calls[1..])
  }

  /** What the first loop iteration does before its tick: snapshot and
      render the video, release the lock and wake the render thread. */
  const HANDOFF: seq<Event> := [SnapshotVideo, RenderVideo, Unlock, SignalRenderer]

  /** The events of iterations `0 .. k - 1` of the loop: the handoff once,
      then one tick per iteration. */
  function Ticks(k: nat): seq<Event>
  {
    if k == 0 then [] else HANDOFF + Repeat(CoreRun, k)
  }

  /** The refresh call: the screen size and the pitch. */
  function RefreshOf(c: CoreConfig): Event
  {
    VideoRefresh(c.screenWidth, c.screenHeight, Pitch(c))
  }

  /** The refresh of the frontend's video from the frame buffer, under the
      lock. */
  function Refresh(c: CoreConfig): seq<Event>
  {
    [Lock, RefreshOf(c), Unlock]
  }

  /** The events after the multiplier `m` is known: the loop, then the
      refresh. */
  function FrameEvents(c: CoreConfig, m: nat): seq<Event>
  {
    Ticks(m) + Refresh(c)
  }

  datatype RunStep = RunStep(state: MultState, events: seq<Event>)

  /** One `retro_run`. The multiplier is fetched once, after the input poll;
      a panic inside `get_frame_mult` or a `None` it returns aborts. */
  function RetroRun(c: CoreConfig, st: MultState, changed: bool, selected: string): (r: RunStep)
    ensures r.state == GetFrameMult(c, st, changed, selected).state
    ensures |r.events| >= 2 && r.events[..2] == [Lock, PollInput]
    ensures Abort in r.events <==> !(GetFrameMult(c, st, changed, selected).outcome.Returned? && r.state.cached.Some?)
  {
    var fm := GetFrameMult(c, st, changed, selected);
    var prefix := Head(fm.calls);
    assert Abort !in prefix;
    match fm.outcome
    case Panicked => RunStep(fm.state, prefix + [Abort])
    case Returned(None) => RunStep(fm.state, prefix + [Abort])
    case Returned(Some(m)) =>
      FrameNeverAborts(c, m);
      RunStep(fm.state, prefix + FrameEvents(c, m))
  }

  /** The loop of `retro_run` as the source writes it: the handoff inside
      the first iteration, then the tick. */
  method RunFrame(c: CoreConfig, m: nat) returns (events: seq<Event>)
    ensures events == FrameEvents(c, m)
  {
    events := [];
    var i := 0;
    while i < m
      invariant 0 <= i <= m
      invariant events == Ticks(i)
    {
      if i == 0 {
        events := events + HANDOFF;
      } else {
        RepeatSnoc(CoreRun, i);
      }
      events := events + [CoreRun];
      i := i + 1;
    }
    events := events + [Lock, RefreshOf(c), Unlock];
  }

  // ---------------------------------------------------------------------
  // The video lock
  // ---------------------------------------------------------------------

  /** Whether the lock is held after the events, starting from `held`, or
      `None` if a lock is taken while held (the non-recursive mutex
      deadlocks) or released while free. */
  function LockAfter(t: seq<Event>, held: bool): Option<bool>
  {
    if |t| == 0 then Some(held)
    else match t[0]
      case Lock => if held then None else LockAfter(t[1..], true)
      case Unlock => if held then LockAfter(t[1..], false) else None
      case _ => LockAfter(t[1..], held)
  }

  /** The lock is used correctly and is free at the end. */
  predicate LockBalanced(t: seq<Event>)
  {
    LockAfter(t, false) == Some(false)
  }

  lemma {:induction false} LockAfterConcat(a: seq<Event>, b: seq<Event>, held: bool)
    ensures LockAfter(a + b, held)
         == match LockAfter(a, held) case None => None case Some(h) => LockAfter(b, h)
  {
    if |a| > 0 {
      assert (a + b)[1..] == a[1..] + b;
      assert (a + b)[0] == a[0];
      match a[0]
      case Lock => LockAfterConcat(a[1..], b, true);
      case Unlock => LockAfterConcat(a[1..], b, false);
      case _ => LockAfterConcat(a[1..], b, held);
    } else {
      assert a + b == b;
    }
  }

  /** Events other than `Lock` and `Unlock` leave the lock as it is. */
  lemma {:induction false} LockAfterNeutral(t: seq<Event>, held: bool)
    requires Lock !in t && Unlock !in t
    ensures LockAfter(t, held) == Some(held)
  {
    if |t| > 0 {
      assert t[0] != Lock && t[0] != Unlock;
      LockAfterNeutral(t[1..], held);
    }
  }

  // ---------------------------------------------------------------------
  // Properties of a frame
  // ---------------------------------------------------------------------

  /** What the loop does: `k` ticks, with the video snapshotted and
      rendered and the render thread signalled once if there is a tick at
      all, and nothing else. */
  lemma TicksFacts(k: nat)
    ensures multiset(Ticks(k))[CoreRun] == k
    ensures multiset(Ticks(k))[SnapshotVideo] == multiset(Ticks(k))[RenderVideo] == if k == 0 then 0 else 1
    ensures multiset(Ticks(k))[SignalRenderer] == if k == 0 then 0 else 1
  {
    RepeatCount(CoreRun, k, CoreRun);
    RepeatCount(CoreRun, k, SnapshotVideo);
    RepeatCount(CoreRun, k, RenderVideo);
    RepeatCount(CoreRun, k, SignalRenderer);
  }

  /** The loop does nothing but the handoff and ticks. */
  lemma TicksOnly(k: nat, e: Event)
    requires e !in HANDOFF && e != CoreRun
    ensures e !in Ticks(k)
  {
  }

  /** The lock, held when the loop starts, is released by its first
      iteration and not touched again. */
  lemma TicksLock(k: nat)
    ensures LockAfter(Ticks(k), true) == Some(k == 0)
    ensures Lock !in Ticks(k)
  {
    TicksOnly(k, Lock);
    if k > 0 {
      LockAfterConcat(HANDOFF, Repeat(CoreRun, k), true);
      assert LockAfter(HANDOFF, true) == Some(false);
      LockAfterNeutral(Repeat(CoreRun, k), false);
    }
  }

  /** Within the loop, the snapshot comes before the render and before the
      render thread's signal, and the render and the signal come before
      every tick. */
  lemma TicksOrder(k: nat)
    ensures Precedes(Ticks(k), SnapshotVideo, RenderVideo)
    ensures Precedes(Ticks(k), RenderVideo, CoreRun)
    ensures Precedes(Ticks(k), SnapshotVideo, SignalRenderer)
    ensures Precedes(Ticks(k), SignalRenderer, CoreRun)
  {
    if k >= 1 {
      var ticks := Repeat(CoreRun, k);
      assert Ticks(k) == [SnapshotVideo] + ([RenderVideo, Unlock, SignalRenderer] + ticks);
      PrecedesAcross([SnapshotVideo], [RenderVideo, Unlock, SignalRenderer] + ticks, SnapshotVideo, RenderVideo);
      PrecedesAcross([SnapshotVideo], [RenderVideo, Unlock, SignalRenderer] + ticks, SnapshotVideo, SignalRenderer);
      PrecedesAcross(HANDOFF, ticks, RenderVideo, CoreRun);
      PrecedesAcross(HANDOFF, ticks, SignalRenderer, CoreRun);
    }
  }

  /** The frame never aborts. */
  lemma FrameNeverAborts(c: CoreConfig, m: nat)
    ensures Abort !in FrameEvents(c, m)
  {
    TicksOnly(m, Abort);
  }

  /** The part of a frame before the multiplier is known. */
  function Head(calls: seq<EnvCall>): seq<Event>
  {
    [Lock, PollInput] + EnvEvents(calls)
  }

  /** The head takes the lock and polls input once, and does nothing else
      but environment calls. */
  lemma HeadFacts(calls: seq<EnvCall>)
    ensures multiset(Head(calls))[PollInput] == 1
    ensures LockAfter(Head(calls), false) == Some(true)
  {
    var env := EnvEvents(calls);
    assert PollInput !in env;
    LockAfterConcat([Lock, PollInput], env, false);
    LockAfterNeutral(env, true);
  }

  /** Any event that is not an environment call, the lock or the poll is
      absent from the head. */
  lemma HeadOnly(calls: seq<EnvCall>, e: Event)
    requires !e.Env? && e != Lock && e != PollInput
    ensures e !in Head(calls)
  {
    assert e !in EnvEvents(calls);
  }

  /** How often `e` occurs in a frame, part by part. */
  lemma FrameCount(c: CoreConfig, head: seq<Event>, m: nat, e: Event)
    ensures multiset(head + FrameEvents(c, m))[e]
         == multiset(head)[e] + multiset(Ticks(m))[e] + multiset(Refresh(c))[e]
  {
    assert multiset(FrameEvents(c, m)) == multiset(Ticks(m)) + multiset(Refresh(c));
  }

  /** Once the multiplier is known, a frame polls the input once. */
  lemma FramePollsOnce(c: CoreConfig, calls: seq<EnvCall>, m: nat)
    ensures multiset(Head(calls) + FrameEvents(c, m))[PollInput] == 1
  {
    HeadFacts(calls);
    TicksOnly(m, PollInput);
    FrameCount(c, Head(calls), m, PollInput);
  }

  /** With `m >= 1`, a frame snapshots and renders the video once each. */
  lemma FrameRendersOnce(c: CoreConfig, calls: seq<EnvCall>, m: nat)
    requires m >= 1
    ensures multiset(Head(calls) + FrameEvents(c, m))[SnapshotVideo] == 1
    ensures multiset(Head(calls) + FrameEvents(c, m))[RenderVideo] == 1
  {
    TicksFacts(m);
    HeadOnly(calls, SnapshotVideo);
    HeadOnly(calls, RenderVideo);
    FrameCount(c, Head(calls), m, SnapshotVideo);
    FrameCount(c, Head(calls), m, RenderVideo);
  }

  /** With `m >= 1`, a frame wakes the render thread once. */
  lemma FrameSignalsOnce(c: CoreConfig, calls: seq<EnvCall>, m: nat)
    requires m >= 1
    ensures multiset(Head(calls) + FrameEvents(c, m))[SignalRenderer] == 1
  {
    TicksFacts(m);
    HeadOnly(calls, SignalRenderer);
    FrameCount(c, Head(calls), m, SignalRenderer);
  }

  /** A frame wakes the render thread after the snapshot is published and
      before the first tick. */
  lemma FrameSignalOrder(c: CoreConfig, calls: seq<EnvCall>, m: nat)
    ensures var t := Head(calls) + FrameEvents(c, m);
      Precedes(t, SnapshotVideo, SignalRenderer) && Precedes(t, SignalRenderer, CoreRun)
  {
    var head, ticks, tail := Head(calls), Ticks(m), Refresh(c);
    TicksOrder(m);
    HeadOnly(calls, SnapshotVideo);
    HeadOnly(calls, SignalRenderer);
    HeadOnly(calls, CoreRun);
    assert head + FrameEvents(c, m) == head + ticks + tail;
    PrecedesInside(head, ticks, tail, SnapshotVideo, SignalRenderer);
    PrecedesInside(head, ticks, tail, SignalRenderer, CoreRun);
  }

  /** A frame runs exactly `m` logic ticks. */
  lemma FrameTicks(c: CoreConfig, calls: seq<EnvCall>, m: nat)
    ensures multiset(Head(calls) + FrameEvents(c, m))[CoreRun] == m
  {
    TicksFacts(m);
    HeadOnly(calls, CoreRun);
    FrameCount(c, Head(calls), m, CoreRun);
  }

  /** A frame refreshes the frontend's video once, with the screen size and
      the pitch. */
  lemma FrameRefreshesOnce(c: CoreConfig, calls: seq<EnvCall>, m: nat)
    ensures multiset(Head(calls) + FrameEvents(c, m))[RefreshOf(c)] == 1
  {
    var head, r := Head(calls), RefreshOf(c);
    HeadOnly(calls, r);
    RefreshedOnce(head, m, r);
    FrameSplit(c, head, m);
  }

  /** A frame is its head, the loop and the refresh. */
  lemma FrameSplit(c: CoreConfig, head: seq<Event>, m: nat)
    ensures head + FrameEvents(c, m) == head + Ticks(m) + [Lock, RefreshOf(c), Unlock]
  {
  }

  /** A refresh event absent from the head and the loop occurs once. */
  lemma RefreshedOnce(head: seq<Event>, m: nat, r: Event)
    requires r.VideoRefresh? && r !in head
    ensures multiset(head + Ticks(m) + [Lock, r, Unlock])[r] == 1
  {
    TicksOnly(m, r);
    assert multiset(head + Ticks(m) + [Lock, r, Unlock])
        == multiset(head) + multiset(Ticks(m)) + multiset{Lock, r, Unlock};
  }

  /** The order within a frame: input before the ticks, the video snapshot
      before its render, the render before the ticks, and the ticks before
      the refresh. */
  lemma FrameOrder(c: CoreConfig, calls: seq<EnvCall>, m: nat)
    ensures var t := Head(calls) + FrameEvents(c, m);
      var refresh := RefreshOf(c);
      Precedes(t, PollInput, CoreRun) &&
      Precedes(t, SnapshotVideo, RenderVideo) &&
      Precedes(t, RenderVideo, CoreRun) &&
      Precedes(t, CoreRun, refresh)
  {
    var refresh := RefreshOf(c);
    var head, ticks, tail := Head(calls), Ticks(m), Refresh(c);
    HeadOnly(calls, SnapshotVideo);
    HeadOnly(calls, RenderVideo);
    HeadOnly(calls, CoreRun);
    TicksOnly(m, PollInput);
    TicksOnly(m, refresh);
    TicksOrder(m);
    assert head + FrameEvents(c, m) == head + (ticks + tail);
    PrecedesAcross(head, ticks + tail, PollInput, CoreRun);
    PrecedesInside(head, ticks, tail, SnapshotVideo, RenderVideo);
    PrecedesInside(head, ticks, tail, RenderVideo, CoreRun);
    assert head + FrameEvents(c, m) == (head + ticks) + tail;
    PrecedesAcross(head + ticks, tail, CoreRun, refresh);
  }

  /** Order inside the middle part survives surrounding it with parts that
      hold neither event. */
  lemma PrecedesInside<T>(x: seq<T>, y: seq<T>, z: seq<T>, a: T, b: T)
    requires Precedes(y, a, b)
    requires a !in x && b !in x && a !in z && b !in z
    ensures Precedes(x + y + z, a, b)
  {
    var t := x + y + z;
    forall i, j | 0 <= i < |t| && 0 <= j < |t| && t[i] == a && t[j] == b
      ensures i < j
    {
      assert |x| <= i < |x| + |y| && |x| <= j < |x| + |y|;
      assert y[i - |x|] == a && y[j - |x|] == b;
    }
  }

  /** Because `m >= 1`, the lock taken before the poll is released in the
      first iteration, before it is taken again around the refresh, and it
      is free when the frame ends. */
  lemma FrameLockBalanced(c: CoreConfig, calls: seq<EnvCall>, m: nat)
    requires m >= 1
    ensures LockBalanced(Head(calls) + FrameEvents(c, m))
  {
    var head, ticks, tail := Head(calls), Ticks(m), Refresh(c);
    HeadFacts(calls);
    TicksLock(m);
    assert head + FrameEvents(c, m) == (head + ticks) + tail;
    LockAfterConcat(head, ticks, false);
    LockAfterConcat(head + ticks, tail, false);
    RefreshLock(c);
  }

  /** The refresh takes the lock and releases it: it needs the lock free. */
  lemma RefreshLock(c: CoreConfig)
    ensures LockAfter(Refresh(c), false) == Some(false)
    ensures LockAfter(Refresh(c), true) == None
  {
    var t := Refresh(c);
    assert t[1..] == [RefreshOf(c), Unlock];
    assert t[1..][1..] == [Unlock];
    assert LockAfter([Unlock], true) == Some(false);
    assert LockAfter(t[1..], true) == LockAfter([Unlock], true);
  }

  /** With a zero multiplier the loop would not run, and the lock taken
      before the poll would be taken again before the refresh: the frame
      deadlocks. */
  lemma ZeroMultDeadlocks(c: CoreConfig, calls: seq<EnvCall>)
    ensures !LockBalanced(Head(calls) + FrameEvents(c, 0))
  {
    assert FrameEvents(c, 0) == Refresh(c);
    HeadFacts(calls);
    RefreshLock(c);
    LockAfterConcat(Head(calls), Refresh(c), false);
  }

  /** Every `retro_run` from a state satisfying the cache invariant that does
      not abort runs a well-formed frame with the multiplier it fetched. */
  lemma RetroRunFrame(c: CoreConfig, st: MultState, changed: bool, selected: string)
    requires Inv(st)
    requires Abort !in RetroRun(c, st, changed, selected).events
    ensures var r := RetroRun(c, st, changed, selected);
      var m := r.state.cached.value;
      var refresh := RefreshOf(c);
      r.state.cached.Some? && m >= 1 &&
      multiset(r.events)[PollInput] == 1 && multiset(r.events)[SnapshotVideo] == 1 &&
      multiset(r.events)[SignalRenderer] == 1 &&
      Precedes(r.events, SnapshotVideo, SignalRenderer) && Precedes(r.events, SignalRenderer, CoreRun) &&
      multiset(r.events)[CoreRun] == m && multiset(r.events)[refresh] == 1 &&
      Precedes(r.events, RenderVideo, CoreRun) && Precedes(r.events, CoreRun, refresh) &&
      LockBalanced(r.events)
  {
    var fm := GetFrameMult(c, st, changed, selected);
    GetFrameMultKeepsInv(c, st, changed, selected);
    match fm.outcome
    case Returned(Some(m)) =>
      FramePollsOnce(c, fm.calls, m);
      FrameRendersOnce(c, fm.calls, m);
      FrameSignalsOnce(c, fm.calls, m);
      FrameSignalOrder(c, fm.calls, m);
      FrameTicks(c, fm.calls, m);
      FrameRefreshesOnce(c, fm.calls, m);
      FrameOrder(c, fm.calls, m);
      FrameLockBalanced(c, fm.calls, m);
      assert Head(fm.calls) + FrameEvents(c, m) == RetroRun(c, st, changed, selected).events;
  }
}

/** `get_frame_mult`: the cached logic-ticks-per-frame multiplier, re-read
    from the frontend's `refresh_rate` variable on the first call and
    whenever the frontend reports changed variables, and
    `retro_get_system_av_info`, its first caller. */
module FrameMult {
  import opened Common
  import opened LibretroApi
  import opened RefreshOptions
  import opened AvInfo
  import opened Environment

  /** The two statics of `get_frame_mult`. */
  datatype MultState = MultState(firstTime: bool, cached: Option<nat>)

  /** Their initial values: a first call is pending and the cache holds 1. */
  const INITIAL_MULT_STATE: MultState := MultState(true, Some(1))

  datatype MultOutcome =
    | Returned(mult: Option<nat>)
      /** `cached_frame_mult.unwrap()` on `None` while pushing AV info. */
    | Panicked

  /** The state after a call, the environment calls it made in order, and
      what it returned. */
  datatype MultStep = MultStep(state: MultState, calls: seq<EnvCall>, outcome: MultOutcome)

  /** One call of `get_frame_mult`. The frontend's answers are inputs:
      `changed` is its GET_VARIABLE_UPDATE flag (nonzero) and `selected` the
      value it reports for `refresh_rate`.

      The variable is read on the first call and on every reported change.
      The cache takes the value read. AV info is pushed only when the
      frontend reported a change and the value read differs from the old
      cache; if that value is `None`, unwrapping it panics. */
  function GetFrameMult(c: CoreConfig, st: MultState, changed: bool, selected: string): (r: MultStep)
    ensures |r.calls| >= 1 && r.calls[0] == QueryVariableUpdate
    ensures GetVariable(FRAME_RATE_KEY) in r.calls <==> st.firstTime || changed
    ensures !st.firstTime && !changed ==> r == MultStep(st, [QueryVariableUpdate], Returned(st.cached))
    ensures st.firstTime || changed ==> r.state == MultState(false, Lookup(c.logicRate, selected))
    ensures r.outcome.Panicked?
        <==> changed && Lookup(c.logicRate, selected) != st.cached && Lookup(c.logicRate, selected).None?
    ensures PushesAvInfo(r.calls)
        <==> changed && Lookup(c.logicRate, selected) != st.cached && Lookup(c.logicRate, selected).Some?
    ensures PushesAvInfo(r.calls) ==>
      r.calls[|r.calls| - 1] == PushAvInfo(SetSystemAvInfo(c, Lookup(c.logicRate, selected).value))
    ensures r.outcome.Returned? ==> r.outcome.mult == r.state.cached
    ensures st.firstTime || changed ==>
      var current := Lookup(c.logicRate, selected);
      r.calls == [QueryVariableUpdate, GetVariable(FRAME_RATE_KEY)] +
        if changed && current != st.cached && current.Some?
        then [PushAvInfo(SetSystemAvInfo(c, current.value))] else []
  {
    var query := [QueryVariableUpdate];
    if !(st.firstTime || changed) then
      MultStep(st, query, Returned(st.cached))
    else
      var current := Lookup(c.logicRate, selected);
      var calls := query + [GetVariable(FRAME_RATE_KEY)];
      // An unchanged value clears the change flag; a different one
      // replaces the cache, so the cache equals `current` either way.
      var change := changed && current != st.cached;
      var next := MultState(false, current);
      if !change then
        assert !PushesAvInfo(calls);
        MultStep(next, calls, Returned(current))
      else if current.None? then
        assert !PushesAvInfo(calls);
        MultStep(next, calls, Panicked)
      else
        var pushed := calls + [PushAvInfo(SetSystemAvInfo(c, current.value))];
        assert pushed[2].PushAvInfo?;
        MultStep(next, pushed, Returned(current))
  }

  /** The cache never holds a zero multiplier. */
  predicate Inv(st: MultState)
  {
    st.cached.Some? ==> st.cached.value >= 1
  }

  lemma InitialInv()
    ensures Inv(INITIAL_MULT_STATE) && INITIAL_MULT_STATE.firstTime
  {
  }

  /** Every call keeps the invariant, so a multiplier it returns is at
      least 1. */
  lemma GetFrameMultKeepsInv(c: CoreConfig, st: MultState, changed: bool, selected: string)
    requires Inv(st)
    ensures Inv(GetFrameMult(c, st, changed, selected).state)
    ensures var r := GetFrameMult(c, st, changed, selected);
      r.outcome.Returned? && r.outcome.mult.Some? ==> r.outcome.mult.value >= 1
  {
  }

  /** After any call that did not panic, the cache is settled: a following
      call without a reported change makes only the update query and
      returns the same value, whatever the variable now says. */
  lemma QuietCallIsStable(c: CoreConfig, st: MultState, changed: bool, selected: string, later: string)
    requires GetFrameMult(c, st, changed, selected).outcome.Returned?
    ensures var r := GetFrameMult(c, st, changed, selected);
      GetFrameMult(c, r.state, false, later) == MultStep(r.state, [QueryVariableUpdate], r.outcome)
  {
  }

  /** The very first call reads the variable even without a reported
      change, but it never pushes AV info: the frontend has not been told a
      rate yet, and `retro_get_system_av_info` reports it. */
  lemma FirstCallNeverPushes(c: CoreConfig, selected: string)
    ensures var r := GetFrameMult(c, INITIAL_MULT_STATE, false, selected);
      !PushesAvInfo(r.calls) && r.outcome == Returned(Lookup(c.logicRate, selected))
  {
  }

  /** A reported change that selects the multiplier already cached is
      absorbed: no push, same result. */
  lemma SameValueNoPush(c: CoreConfig, st: MultState, selected: string)
    requires !st.firstTime && Lookup(c.logicRate, selected) == st.cached
    ensures var r := GetFrameMult(c, st, true, selected);
      !PushesAvInfo(r.calls) && r.state == st && r.outcome == Returned(st.cached)
  {
  }

  // ---------------------------------------------------------------------
  // retro_get_system_av_info
  // ---------------------------------------------------------------------

  datatype PanicReason =
      /** A panic inside `get_frame_mult`. */
    | UnwrapNone
      /** `get_frame_mult` returned `None`: "Core option error". */
    | CoreOptionError

  datatype AvOutcome = Reported(info: SystemAvInfo) | Aborted(reason: PanicReason)

  datatype AvStep = AvStep(state: MultState, calls: seq<EnvCall>, outcome: AvOutcome)

  /** `retro_get_system_av_info`: fetch the multiplier, report the screen
      with the rate it gives, and request the core's pixel format. A missing
      multiplier aborts. */
  function GetSystemAvInfo(c: CoreConfig, st: MultState, changed: bool, selected: string): (r: AvStep)
    ensures r.state == GetFrameMult(c, st, changed, selected).state
    ensures r.outcome.Reported? <==> r.state.cached.Some? && !GetFrameMult(c, st, changed, selected).outcome.Panicked?
    ensures r.outcome.Reported? ==>
      r.outcome.info == SetSystemAvInfo(c, r.state.cached.value) &&
      |r.calls| >= 2 && r.calls[|r.calls| - 1] == SetPixelFormat(PixelFormat(c))
    ensures r.outcome.Aborted? ==>
      r.outcome.reason == if GetFrameMult(c, st, changed, selected).outcome.Panicked? then UnwrapNone else CoreOptionError
  {
    var m := GetFrameMult(c, st, changed, selected);
    match m.outcome
    case Panicked => AvStep(m.state, m.calls, Aborted(UnwrapNone))
    case Returned(None) => AvStep(m.state, m.calls, Aborted(CoreOptionError))
    case Returned(Some(mult)) =>
      AvStep(m.state, m.calls + [SetPixelFormat(PixelFormat(c))], Reported(SetSystemAvInfo(c, mult)))
  }

  /** The first AV info request reports the display rate the frontend has
      selected, provided the selection is one the profile offers. Any other
      selection aborts: with "Core option error" when no change was
      reported, and in the `unwrap` of the push when one was. */
  lemma FirstReportIsSelectedRate(c: CoreConfig, changed: bool, selected: string)
    ensures var r := GetSystemAvInfo(c, INITIAL_MULT_STATE, changed, selected);
      (r.outcome.Reported? <==> selected in AdvertisedRates(c.logicRate)) &&
      (r.outcome.Reported? ==> r.outcome.info.timing.frameMult >= 1 &&
                               LabelTenths(selected) == Some(FpsTenths(r.outcome.info.timing))) &&
      (r.outcome.Aborted? ==> r.outcome.reason == if changed then UnwrapNone else CoreOptionError)
  {
    var r := GetSystemAvInfo(c, INITIAL_MULT_STATE, changed, selected);
    if r.outcome.Reported? {
      ReportedRateIsSelected(c, selected);
    }
  }

  // ---------------------------------------------------------------------
  // A session of calls
  // ---------------------------------------------------------------------

  /** The high profile: the first call selects "60" (12 ticks per frame,
      not pushed), a change to "120" pushes 6 ticks, a change to "24" pushes
      30, and a change to a value the profile does not offer panics. */
  lemma HighProfileSession(c: CoreConfig)
    requires c.logicRate == LogicRate720
    ensures var r1 := GetFrameMult(c, INITIAL_MULT_STATE, false, "60");
      var r2 := GetFrameMult(c, r1.state, true, "120");
      var r3 := GetFrameMult(c, r2.state, true, "24");
      var r4 := GetFrameMult(c, r3.state, true, "1000");
      r1.outcome == Returned(Some(12)) && !PushesAvInfo(r1.calls) &&
      r2.outcome == Returned(Some(6)) && r2.calls[2] == PushAvInfo(SetSystemAvInfo(c, 6)) &&
      r3.outcome == Returned(Some(30)) && r3.calls[2] == PushAvInfo(SetSystemAvInfo(c, 30)) &&
      r4.outcome == Panicked
  {
  }

  /** In the low profile the first selection "60" matches the initial cache
      of 1, so even a reported change pushes nothing. */
  lemma LowProfileFirstCall(c: CoreConfig)
    requires c.logicRate == LogicRate60
    ensures var r := GetFrameMult(c, INITIAL_MULT_STATE, true, "60");
      r.outcome == Returned(Some(1)) && !PushesAvInfo(r.calls)
  {
  }
}

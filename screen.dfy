/**
 * The screen-brightness script: five command-line arguments (channel, start
 * brightness, start time, end brightness, end time) become a transition between two
 * brightness states.
 */
module ScreenBrightness {
  import opened Wrappers
  import opened Decimal
  import opened States
  import opened Commands

  /** What the script reaches before polling: a transition to run, or an exception. */
  datatype Launch =
    | Starts(fromState: State, fromTime: int, toState: State, toTime: int)
    | Fails(error: string)

  /** A time argument as `TimeArgument().convert` leaves it: an instant or `None`, unless it raised. */
  datatype TimeValue = At(at: int) | NoTime | TimeRaises(error: string)

  function TimeOf(token: string, now: Clock): (t: TimeValue)
    ensures t.At? <==> ConvertTime(token, now).Converts?
    ensures t.NoTime? <==> ConvertTime(token, now).NoMatch?
  {
    match ConvertTime(token, now)
    case Converts(v) => if v.TimeArg? then At(v.at) else NoTime
    case NoMatch => NoTime
    case Raises(e) => TimeRaises(e)
  }

  /**
   * `main()` up to `trans.run()`: unpacking the arguments fails with fewer than five;
   * the four conversions run left to right, and the first that raises ends the script;
   * a time that converts to `None` reaches `run`, whose subtraction of the two times
   * raises.
   */
  function Start(args: seq<string>, now: Clock): (r: Launch)
    ensures r.Starts? ==> r.fromState.BrightnessState? && r.toState.BrightnessState?
    ensures r.Starts? ==> |args| >= 5
    ensures r.Starts? ==> ParseInt(args[1]) == Some(r.fromState.level) && ParseInt(args[3]) == Some(r.toState.level)
    ensures r.Starts? ==> TimeOf(args[2], now) == At(r.fromTime) && TimeOf(args[4], now) == At(r.toTime)
    ensures (|args| >= 5 && ParseInt(args[1]).Some? && ParseInt(args[3]).Some? &&
             TimeOf(args[2], now).At? && TimeOf(args[4], now).At?) ==> r.Starts?
  {
    if |args| < 5 then Fails("not enough values to unpack (expected 5)")
    else
      var fromLevel := ParseInt(args[1]);
      if fromLevel.None? then Fails("invalid literal for int() with base 10")
      else
        var fromTime := TimeOf(args[2], now);
        if fromTime.TimeRaises? then Fails(fromTime.error)
        else
          var toLevel := ParseInt(args[3]);
          if toLevel.None? then Fails("invalid literal for int() with base 10")
          else
            var toTime := TimeOf(args[4], now);
            if toTime.TimeRaises? then Fails(toTime.error)
            else if fromTime.NoTime? || toTime.NoTime? then Fails("unsupported operand type(s) for -")
            else Starts(BrightnessState(fromLevel.value), fromTime.at, BrightnessState(toLevel.value), toTime.at)
  }

  /**
   * Brightness levels and timestamps written out in decimal start the transition
   * between exactly those levels and instants, whatever the channel and any further
   * arguments.
   */
  lemma {:induction false} StartReadsBack(channel: string, from: int, fromTime: nat, to: int, toTime: nat,
                                          extra: seq<string>, now: Clock)
    ensures Start([channel, ShowInt(from), Show(fromTime), ShowInt(to), Show(toTime)] + extra, now) ==
      Starts(BrightnessState(from), fromTime * MicrosPerSecond, BrightnessState(to), toTime * MicrosPerSecond)
  {
    var args := [channel, ShowInt(from), Show(fromTime), ShowInt(to), Show(toTime)] + extra;
    assert args[1] == ShowInt(from) && args[2] == Show(fromTime);
    assert args[3] == ShowInt(to) && args[4] == Show(toTime);
    TimeOfShow(fromTime, now);
    TimeOfShow(toTime, now);
  }

  /**
   * A time argument that converts to `None` does not stop the script at once: the
   * transition is built and its first subtraction raises.
   */
  lemma UnconvertibleTimeFails(args: seq<string>, now: Clock)
    requires |args| >= 5 && ParseInt(args[1]).Some? && ParseInt(args[3]).Some?
    requires !ConvertTime(args[2], now).Raises? && !ConvertTime(args[4], now).Raises?
    requires ConvertTime(args[2], now).NoMatch? || ConvertTime(args[4], now).NoMatch?
    ensures Start(args, now) == Fails("unsupported operand type(s) for -")
  {
  }

  /**
   * The two states of a started script are brightness states, so the transition can
   * blend them: a blend is the brightness state of the blended levels, which lies
   * between the two given levels.
   */
  lemma StartedStatesBlend(args: seq<string>, now: Clock, w: real)
    requires Start(args, now).Starts?
    ensures var r := Start(args, now);
      SameKind(r.fromState, r.toState) && r.fromState.BrightnessState? &&
      Avg(r.fromState, r.toState, w) == BrightnessState(Blend(r.fromState.level, r.toState.level, w)) &&
      (0.0 <= w <= 1.0 ==>
         Min(r.fromState.level, r.toState.level) <= Avg(r.fromState, r.toState, w).level
                                                  <= Max(r.fromState.level, r.toState.level)) &&
      (w == 1.0 ==> Avg(r.fromState, r.toState, w) == r.fromState) &&
      (w == 0.0 ==> Avg(r.fromState, r.toState, w) == r.toState)
  {
  }
}

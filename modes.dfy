/**
 * The modes a command applies to a bulb, and the calls each one makes on it.
 */
module Modes {
  import opened Bulb
  import opened States

  /** `WhiteMode`: a colour temperature and a brightness. */
  datatype WhiteMode = WhiteMode(temperature: int, brightness: int)

  datatype Mode =
    | SetWhite(white: WhiteMode)
    | WhiteBetween(from: WhiteMode, to: WhiteMode, percents: int)
    | SetState(on: bool)
    | ToggleMode
    | InfoMode
    | BrightnessInfoMode
    | ColorMode(red: int, green: int, blue: int, level: int)
    | TransitionMode(fromMode: WhiteMode, fromTime: int, toMode: WhiteMode, toTime: int)

  /** `WhiteMode.to_state`: the mode's values as a state bound to `bulb`. */
  function ToState(m: WhiteMode, bulb: Provider): (s: State)
    ensures s.WhiteState? && s.bulb == bulb
  {
    WhiteState(m.temperature, m.brightness, bulb)
  }

  /**
   * The state of a white mode carries the mode's values unchanged: applying it makes
   * the same call as applying the mode, whatever bulb it is bound to.
   */
  lemma ToStateKeepsValues(m: WhiteMode, bulb: Provider, other: Provider)
    ensures Apply(SetWhite(m), bulb) == Calls([StateCall(ToState(m, bulb))])
    ensures Same(ToState(m, bulb), ToState(m, other))
  {
  }

  /** `WhiteState.apply`: the white call on the bound bulb. */
  function StateCall(s: State): Call
    requires s.WhiteState?
  {
    WhiteWarm(s.temperature, s.brightness)
  }

  /** The weight of the start mode for a progress given in percent. */
  function PercentWeight(percents: int): real {
    1.0 - percents as real / 100.0
  }

  /**
   * What `apply` does to a bulb: a fixed sequence of calls, in order, or for a
   * transition mode a transition between the two modes' states that is then run.
   */
  datatype Effect =
    | Calls(calls: seq<Call>)
    | RunTransition(fromState: State, fromTime: int, toState: State, toTime: int)

  function Apply(m: Mode, bulb: Provider): (e: Effect)
    ensures e.RunTransition? <==> m.TransitionMode?
    ensures e.Calls? ==> 1 <= |e.calls| <= 2 && forall c :: c in e.calls ==> OpOf(c) in Needs(m)
    ensures e.RunTransition? ==>
      e.fromState.WhiteState? && e.toState.WhiteState? && e.fromState.bulb == bulb && e.toState.bulb == bulb
    ensures m.TransitionMode? ==>
      e == RunTransition(ToState(m.fromMode, bulb), m.fromTime, ToState(m.toMode, bulb), m.toTime)
  {
    match m
    case SetWhite(w) => Calls([WhiteWarm(w.temperature, w.brightness)])
    case WhiteBetween(from, to, p) =>
      Calls([StateCall(Avg(ToState(from, bulb), ToState(to, bulb), PercentWeight(p)))])
    case SetState(on) => Calls(if on then [TurnOn] else [TurnOff])
    case ToggleMode => Calls([Toggle])
    case InfoMode => Calls([PrintInfo])
    case BrightnessInfoMode => Calls([ReadBrightness])
    case ColorMode(r, g, b, level) => Calls([TurnOn, SetColor(r, g, b, level)])
    case TransitionMode(fromMode, fromTime, toMode, toTime) =>
      RunTransition(ToState(fromMode, bulb), fromTime, ToState(toMode, bulb), toTime)
  }

  /**
   * The operations a mode needs from the bulb it is applied to, as the parameter
   * types of the `apply` methods declare them. The table is read off those
   * declarations, so `Apply` keeping within it is a consistency check; what matters
   * is that a driver offers these operations, which `Setup.RootSupported` and
   * `Commands.ResolvedCommandSupported` establish.
   */
  function Needs(m: Mode): set<Op> {
    match m
    case SetWhite(_) => {WhiteWarmOp}
    case WhiteBetween(_, _, _) => {WhiteWarmOp}
    case SetState(on) => {if on then TurnOnOp else TurnOffOp}
    case ToggleMode => {ToggleOp}
    case InfoMode => {PrintInfoOp}
    case BrightnessInfoMode => {BrightnessOp}
    case ColorMode(_, _, _, _) => {TurnOnOp, ColorOp}
    case TransitionMode(_, _, _, _) => {WhiteWarmOp}
  }

  /**
   * Every call `apply` makes is one the mode declares it needs; a transition applies
   * white states bound to the bulb, whose apply is a white call.
   */
  lemma {:induction false} ApplyStaysWithinNeeds(m: Mode, bulb: Provider)
    ensures Apply(m, bulb).Calls? ==> forall c :: c in Apply(m, bulb).calls ==> OpOf(c) in Needs(m)
    ensures Apply(m, bulb).RunTransition? <==> m.TransitionMode?
    ensures Apply(m, bulb).RunTransition? ==>
      var e := Apply(m, bulb);
      e.fromState.WhiteState? && e.toState.WhiteState? && e.fromState.bulb == bulb && e.toState.bulb == bulb &&
      OpOf(StateCall(e.fromState)) in Needs(m) && OpOf(StateCall(e.toState)) in Needs(m)
    ensures m.TransitionMode? ==>
      Apply(m, bulb) == RunTransition(ToState(m.fromMode, bulb), m.fromTime, ToState(m.toMode, bulb), m.toTime)
  {
    match m
    case WhiteBetween(from, to, p) =>
      var s := Avg(ToState(from, bulb), ToState(to, bulb), PercentWeight(p));
      assert Apply(m, bulb).calls == [StateCall(s)];
    case _ =>
  }

  /**
   * `WhiteBetweenMode` at 0 percent applies exactly the start mode, at 100 percent
   * exactly the end mode, and in between values within the two.
   */
  lemma {:induction false} BetweenEndpoints(from: WhiteMode, to: WhiteMode, p: int, bulb: Provider)
    ensures Apply(WhiteBetween(from, to, 0), bulb) == Calls([WhiteWarm(from.temperature, from.brightness)])
    ensures Apply(WhiteBetween(from, to, 100), bulb) == Calls([WhiteWarm(to.temperature, to.brightness)])
    ensures 0 <= p <= 100 ==>
      var c := Apply(WhiteBetween(from, to, p), bulb).calls[0];
      Min(from.temperature, to.temperature) <= c.temperature <= Max(from.temperature, to.temperature) &&
      Min(from.brightness, to.brightness) <= c.brightness <= Max(from.brightness, to.brightness)
  {
    assert PercentWeight(0) == 1.0;
    assert PercentWeight(100) == 0.0;
    if 0 <= p <= 100 {
      assert 0.0 <= PercentWeight(p) <= 1.0;
    }
  }

  /** `StateMode(True)` only turns on, `StateMode(False)` only turns off; colour turns on first. */
  lemma CallOrder(on: bool, r: int, g: int, b: int, level: int, bulb: Provider)
    ensures Apply(SetState(true), bulb).calls == [TurnOn]
    ensures Apply(SetState(false), bulb).calls == [TurnOff]
    ensures Apply(ColorMode(r, g, b, level), bulb).calls == [TurnOn, SetColor(r, g, b, level)]
  {
  }
}

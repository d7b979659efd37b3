/**
 * The transition scheduler: it drives a state from `fromState` at `fromTime` to
 * `toState` at `toTime`, ticking once per clock reading, re-applying a blended state
 * only when it differs from the last one applied, and surviving failed applies.
 *
 * Instants are integers (microseconds since the epoch); the wall clock is the
 * sequence of readings `run` takes, and whether an `apply` raises is an oracle
 * indexed by tick number.
 */
module Transitions {
  import opened Wrappers
  import opened States

  /** How `run` ends. `Polling`: the readings ran out while it was still polling. */
  datatype Ending = Converged | Backwards | ClockBehind | DivisionByZero | Polling

  /** The progress values `run` ticks at, in order, and how it ends. */
  datatype Schedule = Schedule(ticks: seq<real>, ending: Ending)

  /** The share of the interval elapsed at `now`. */
  function Progress(now: int, fromTime: int, toTime: int): real
    requires fromTime != toTime
  {
    (now - fromTime) as real / (toTime - fromTime) as real
  }

  /**
   * The polling loop of `run` over the clock readings it takes: the progress division
   * raises when the interval is empty, a negative progress raises, a progress of 1 or
   * more ticks at exactly 1 and stops, and anything else ticks and polls again.
   */
  function Poll(fromTime: int, toTime: int, readings: seq<int>): (s: Schedule)
    requires fromTime <= toTime
    ensures |s.ticks| <= |readings|
    ensures forall i :: 0 <= i < |s.ticks| ==> 0.0 <= s.ticks[i] <= 1.0
    ensures forall i :: 0 <= i < |s.ticks| - 1 ==> s.ticks[i] < 1.0
    ensures s.ending == Converged <==> s.ticks != [] && s.ticks[|s.ticks| - 1] == 1.0
    ensures s.ending == Polling ==> |s.ticks| == |readings|
    ensures s.ending != Backwards
    ensures s.ending == ClockBehind ==>
      fromTime < toTime && |s.ticks| < |readings| && Progress(readings[|s.ticks|], fromTime, toTime) < 0.0
    ensures s.ending == Converged ==>
      fromTime < toTime && Progress(readings[|s.ticks| - 1], fromTime, toTime) >= 1.0
    ensures s.ending == DivisionByZero <==> fromTime == toTime && readings != []
    decreases |readings|
  {
    if readings == [] then Schedule([], Polling)
    else if fromTime == toTime then Schedule([], DivisionByZero)
    else
      var progress := Progress(readings[0], fromTime, toTime);
      if progress < 0.0 then Schedule([], ClockBehind)
      else if progress >= 1.0 then Schedule([1.0], Converged)
      else
        var rest := Poll(fromTime, toTime, readings[1..]);
        Schedule([progress] + rest.ticks, rest.ending)
  }

  /**
   * Each tick of a polling run is the progress at the reading taken for it, except the
   * final tick of a converged run, which is exactly 1 instead.
   */
  lemma {:induction false} PollFollowsReadings(fromTime: int, toTime: int, readings: seq<int>)
    requires fromTime < toTime
    ensures var s := Poll(fromTime, toTime, readings);
      forall i :: 0 <= i < |s.ticks| - 1 ==> s.ticks[i] == Progress(readings[i], fromTime, toTime)
    ensures var s := Poll(fromTime, toTime, readings);
      s.ending != Converged ==> forall i :: 0 <= i < |s.ticks| ==> s.ticks[i] == Progress(readings[i], fromTime, toTime)
    decreases |readings|
  {
    if readings != [] {
      var progress := Progress(readings[0], fromTime, toTime);
      if 0.0 <= progress < 1.0 {
        var rest := Poll(fromTime, toTime, readings[1..]);
        PollFollowsReadings(fromTime, toTime, readings[1..]);
        assert forall i :: 0 < i < |readings| ==> readings[1..][i - 1] == readings[i];
      }
    }
  }

  /** `run`: an interval that ends before it starts ticks once at progress 0 and stops. */
  function Plan(fromTime: int, toTime: int, readings: seq<int>): (r: Schedule)
    ensures r.ending == Backwards <==> toTime < fromTime
    ensures r.ending == Backwards ==> r.ticks == [0.0]
    ensures forall i :: 0 <= i < |r.ticks| ==> 0.0 <= r.ticks[i] <= 1.0
    ensures |r.ticks| <= |readings| || r.ending == Backwards
  {
    if toTime < fromTime then Schedule([0.0], Backwards) else Poll(fromTime, toTime, readings)
  }

  /** One call of `apply` on a blended state, and whether it returned normally. */
  datatype Attempt = Attempt(state: State, applied: bool)

  /** The endpoints and the last-applied marker are states of one kind. */
  predicate Consistent(from: State, to: State, last: Option<State>) {
    SameKind(from, to) && (last.Some? ==> SameKind(last.value, from))
  }

  /**
   * `__tick(progress)`: blend with weight `1 - progress` for the start state; apply the
   * blend only when nothing was applied yet or it differs from the last applied state;
   * move the marker only when the apply did not raise.
   */
  function Step(from: State, to: State, last: Option<State>, log: seq<Attempt>, progress: real, ok: bool)
    : (r: (Option<State>, seq<Attempt>))
    requires Consistent(from, to, last)
    ensures Consistent(from, to, r.0)
  {
    var s := Avg(from, to, 1.0 - progress);
    if last.None? || !Same(last.value, s) then
      (if ok then Some(s) else last, log + [Attempt(s, ok)])
    else
      (last, log)
  }

  /** The ticks of a schedule in order; tick `k` applies successfully when `applies(k)`. */
  function Replay(from: State, to: State, last: Option<State>, log: seq<Attempt>,
                  ticks: seq<real>, applies: nat -> bool, k: nat): (r: (Option<State>, seq<Attempt>))
    requires Consistent(from, to, last)
    ensures Consistent(from, to, r.0)
    decreases |ticks|
  {
    if ticks == [] then (last, log)
    else
      var next := Step(from, to, last, log, ticks[0], applies(k));
      Replay(from, to, next.0, next.1, ticks[1..], applies, k + 1)
  }

  /** The state of the most recent apply that did not raise. */
  function LastSuccess(log: seq<Attempt>): Option<State> {
    if log == [] then None
    else if log[|log| - 1].applied then Some(log[|log| - 1].state)
    else LastSuccess(log[..|log| - 1])
  }

  /** A tick keeps the marker equal to the state of the last apply that did not raise. */
  lemma StepKeepsMarker(from: State, to: State, last: Option<State>, log: seq<Attempt>, progress: real, ok: bool)
    requires Consistent(from, to, last) && last == LastSuccess(log)
    ensures var r := Step(from, to, last, log, progress, ok);
      r.0 == LastSuccess(r.1) && |r.1| <= |log| + 1 && r.1[..|log|] == log
    ensures var s := Avg(from, to, 1.0 - progress);
      var r := Step(from, to, last, log, progress, ok);
      (r.1 == log <==> last.Some? && Same(last.value, s)) &&
      (r.1 != log ==> r.1 == log + [Attempt(s, ok)]) &&
      r.0 == (if ok && r.1 != log then Some(s) else last)
  {
    var r := Step(from, to, last, log, progress, ok);
    if r.1 != log {
      assert r.1[..|log|] == log;
    }
  }

  /**
   * A tick whose apply raises leaves the marker where it was, so the next tick at the
   * same progress tries the same state again.
   */
  lemma {:induction false} FailedApplyIsRetried(from: State, to: State, last: Option<State>, log: seq<Attempt>,
                                                progress: real, ok: bool)
    requires Consistent(from, to, last)
    ensures var s := Avg(from, to, 1.0 - progress);
      var r := Step(from, to, last, log, progress, false);
      r.0 == last &&
      (r.1 != log ==> r.1 == log + [Attempt(s, false)] &&
                      Step(from, to, r.0, r.1, progress, ok) == (if ok then Some(s) else last, r.1 + [Attempt(s, ok)]))
  {
  }

  /** Replaying one more tick is one more `Step`. */
  lemma {:induction false} ReplaySnoc(from: State, to: State, last: Option<State>, log: seq<Attempt>,
                                      ticks: seq<real>, p: real, applies: nat -> bool, k: nat)
    requires Consistent(from, to, last)
    ensures var r := Replay(from, to, last, log, ticks, applies, k);
      Replay(from, to, last, log, ticks + [p], applies, k) == Step(from, to, r.0, r.1, p, applies(k + |ticks|))
    decreases |ticks|
  {
    if ticks != [] {
      var next := Step(from, to, last, log, ticks[0], applies(k));
      assert (ticks + [p])[1..] == ticks[1..] + [p];
      ReplaySnoc(from, to, next.0, next.1, ticks[1..], p, applies, k + 1);
    }
  }

  /**
   * Every state a run blends lies, field by field, between the start and the end
   * state.
   */
  lemma TargetsBetween(from: State, to: State, fromTime: int, toTime: int, readings: seq<int>, i: nat)
    requires SameKind(from, to)
    requires i < |Plan(fromTime, toTime, readings).ticks|
    ensures Between(Avg(from, to, 1.0 - Plan(fromTime, toTime, readings).ticks[i]), from, to)
  {
  }

  /**
   * An interval that ends before it starts: one tick, at progress 0, whose state is the
   * start state, and no clock reading is taken.
   */
  lemma BackwardsAppliesStart(from: State, to: State, fromTime: int, toTime: int, readings: seq<int>)
    requires SameKind(from, to) && toTime < fromTime
    ensures Plan(fromTime, toTime, readings) == Plan(fromTime, toTime, [])
    ensures Plan(fromTime, toTime, readings) == Schedule([0.0], Backwards)
    ensures Same(Avg(from, to, 1.0 - 0.0), from)
  {
  }

  /** An empty interval raises on the first reading, before any tick. */
  lemma EmptyIntervalRaises(fromTime: int, readings: seq<int>)
    requires readings != []
    ensures Plan(fromTime, fromTime, readings) == Schedule([], DivisionByZero)
  {
  }

  /** A reading before the start raises; a reading at or past the end converges at once. */
  lemma FirstReading(fromTime: int, toTime: int, readings: seq<int>)
    requires fromTime < toTime && readings != []
    ensures readings[0] < fromTime ==> Plan(fromTime, toTime, readings) == Schedule([], ClockBehind)
    ensures toTime <= readings[0] ==> Plan(fromTime, toTime, readings) == Schedule([1.0], Converged)
  {
    var p := Progress(readings[0], fromTime, toTime);
    var span := (toTime - fromTime) as real;
    assert p * span == (readings[0] - fromTime) as real;
    if readings[0] < fromTime {
      assert p < 0.0;
    }
    if toTime <= readings[0] {
      assert p >= 1.0;
    }
  }

  /**
   * A converged run whose last apply does not raise ends with the end state as the
   * last applied one: either it was already applied, or the final tick applies it.
   */
  lemma {:induction false} ConvergedEndsAtTarget(from: State, to: State, last: Option<State>, log: seq<Attempt>,
                                                 fromTime: int, toTime: int, readings: seq<int>, applies: nat -> bool)
    requires Consistent(from, to, last)
    requires Plan(fromTime, toTime, readings).ending == Converged
    requires applies(|Plan(fromTime, toTime, readings).ticks| - 1)
    ensures var r := Replay(from, to, last, log, Plan(fromTime, toTime, readings).ticks, applies, 0);
      r.0.Some? && SameKind(r.0.value, to) && Same(r.0.value, to)
  {
    var ticks := Plan(fromTime, toTime, readings).ticks;
    var n := |ticks| - 1;
    assert ticks == ticks[..n] + [1.0];
    ReplaySnoc(from, to, last, log, ticks[..n], 1.0, applies, 0);
    var before := Replay(from, to, last, log, ticks[..n], applies, 0);
    FinalStep(from, to, before.0, before.1, applies(n));
  }

  /** A final tick whose apply does not raise leaves the end state as the last applied one. */
  lemma FinalStep(from: State, to: State, last: Option<State>, log: seq<Attempt>, ok: bool)
    requires Consistent(from, to, last) && ok
    ensures var r := Step(from, to, last, log, 1.0, ok);
      r.0.Some? && SameKind(r.0.value, to) && Same(r.0.value, to)
  {
    var s := Avg(from, to, 1.0 - 1.0);
    if last.Some? && Same(last.value, s) {
      SameIsEquivalence(last.value, s, to);
    }
  }

  /** One reading of the polling loop: what `Poll` does with the first reading. */
  lemma PollFirst(fromTime: int, toTime: int, readings: seq<int>)
    requires fromTime < toTime && readings != []
    ensures var p := Progress(readings[0], fromTime, toTime);
      var rest := Poll(fromTime, toTime, readings[1..]);
      Poll(fromTime, toTime, readings) ==
        if p < 0.0 then Schedule([], ClockBehind)
        else if p >= 1.0 then Schedule([1.0], Converged)
        else Schedule([p] + rest.ticks, rest.ending)
  {
  }

  /** The polling loop from reading `i` on: what it does with that reading, then the rest. */
  lemma PollAt(fromTime: int, toTime: int, readings: seq<int>, i: nat)
    requires fromTime < toTime && i < |readings|
    ensures var p := Progress(readings[i], fromTime, toTime);
      var rest := Poll(fromTime, toTime, readings[i + 1..]);
      Poll(fromTime, toTime, readings[i..]) ==
        if p < 0.0 then Schedule([], ClockBehind)
        else if p >= 1.0 then Schedule([1.0], Converged)
        else Schedule([p] + rest.ticks, rest.ending)
  {
    assert readings[i..][0] == readings[i] && readings[i..][1..] == readings[i + 1..];
    PollFirst(fromTime, toTime, readings[i..]);
  }

  /** Replaying a first tick is one `Step`, then the rest. */
  lemma ReplayCons(from: State, to: State, last: Option<State>, log: seq<Attempt>,
                   p: real, ticks: seq<real>, applies: nat -> bool, k: nat)
    requires Consistent(from, to, last)
    ensures var next := Step(from, to, last, log, p, applies(k));
      Replay(from, to, last, log, [p] + ticks, applies, k) == Replay(from, to, next.0, next.1, ticks, applies, k + 1)
  {
    assert ([p] + ticks)[1..] == ticks;
  }

  class Transition {
    const fromState: State
    const fromTime: int
    const toState: State
    const toTime: int
    /** `__state`: the last state applied without raising. */
    var last: Option<State>
    /** Every apply this transition made, in order, and whether it returned normally. */
    ghost var attempts: seq<Attempt>

    ghost predicate Valid()
      reads this
    {
      Consistent(fromState, toState, last) && last == LastSuccess(attempts)
    }

    constructor (fromState: State, fromTime: int, toState: State, toTime: int)
      requires SameKind(fromState, toState)
      ensures Valid()
      ensures this.fromState == fromState && this.fromTime == fromTime
      ensures this.toState == toState && this.toTime == toTime
      ensures last == None && attempts == []
    {
      this.fromState := fromState;
      this.fromTime := fromTime;
      this.toState := toState;
      this.toTime := toTime;
      last := None;
      attempts := [];
    }

    /** `__tick`; `applies` says whether the state's `apply` returns normally. */
    method Tick(progress: real, applies: bool)
      requires Valid()
      modifies this
      ensures Valid()
      ensures (last, attempts) == Step(fromState, toState, old(last), old(attempts), progress, applies)
    {
      StepKeepsMarker(fromState, toState, last, attempts, progress, applies);
      var state := Avg(fromState, toState, 1.0 - progress);
      if last.None? || !Same(last.value, state) {
        attempts := attempts + [Attempt(state, applies)];
        if !applies {
          return;
        }
        last := Some(state);
      }
    }

    /** `run`, over the clock readings it takes; `applies(k)` is the outcome of tick `k`'s apply. */
    method Run(readings: seq<int>, applies: nat -> bool) returns (ending: Ending)
      requires Valid()
      modifies this
      ensures Valid()
      ensures ending == Plan(fromTime, toTime, readings).ending
      ensures (last, attempts) ==
              Replay(fromState, toState, old(last), old(attempts), Plan(fromTime, toTime, readings).ticks, applies, 0)
    {
      var interval := toTime - fromTime;
      if interval < 0 {
        Tick(0.0, applies(0));
        return Backwards;
      }
      ghost var plan := Plan(fromTime, toTime, readings);
      assert plan == Poll(fromTime, toTime, readings[0..]) by {
        assert readings[0..] == readings;
      }
      var i := 0;
      while i < |readings|
        invariant 0 <= i <= |readings|
        invariant Valid()
        invariant plan.ending == Poll(fromTime, toTime, readings[i..]).ending
        invariant Replay(fromState, toState, old(last), old(attempts), plan.ticks, applies, 0)
               == Replay(fromState, toState, last, attempts, Poll(fromTime, toTime, readings[i..]).ticks, applies, i)
      {
        var now := readings[i];
        if interval == 0 {
          return DivisionByZero;
        }
        PollAt(fromTime, toTime, readings, i);
        var progress := (now - fromTime) as real / interval as real;
        assert progress == Progress(now, fromTime, toTime);
        if progress < 0.0 {
          return ClockBehind;
        }
        ghost var rest := Poll(fromTime, toTime, readings[i + 1..]);
        if progress >= 1.0 {
          ReplayCons(fromState, toState, last, attempts, 1.0, [], applies, i);
          Tick(1.0, applies(i));
          return Converged;
        }
        ReplayCons(fromState, toState, last, attempts, progress, rest.ticks, applies, i);
        Tick(progress, applies(i));
        i := i + 1;
      }
      return Polling;
    }
  }
}

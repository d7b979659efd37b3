/**
 * The caching decorator around a `BrightBulb`: it remembers the last on/off state and
 * the last brightness it set or read, and does not forward `turn_on`, `turn_off` or
 * `white` when the cached value already matches.
 *
 * The wrapped bulb is represented by the calls it receives; whether each call raises
 * is an input of the method that forwards it.
 */
module Cache {
  import opened Wrappers
  import opened Bulb

  /** How a forwarded call ended: normally, with a brightness reading, or by raising. */
  datatype Reply = Done | Reading(value: int) | Raised

  /** A call the wrapped bulb received and how it ended. */
  datatype Delivery = Delivery(call: Call, reply: Reply)

  /** The on/off state a delivery leaves on the bulb, if it is a completed switch. */
  function SwitchOf(d: Delivery): Option<bool> {
    if d.reply == Raised then None
    else if d.call == TurnOn then Some(true)
    else if d.call == TurnOff then Some(false)
    else None
  }

  /** The brightness a delivery sets or reads, if it is a completed `white` or `brightness()`. */
  function LevelOf(d: Delivery): Option<int> {
    match d
    case Delivery(White(level), reply) => if reply == Raised then None else Some(level)
    case Delivery(ReadBrightness, Reading(level)) => Some(level)
    case _ => None
  }

  /**
   * The on/off state of the last `turn_on` or `turn_off` the wrapped bulb completed
   * without raising; `None` if there was none.
   */
  function LastSwitch(log: seq<Delivery>): (r: Option<bool>)
    ensures r.None? <==> forall i :: 0 <= i < |log| ==> SwitchOf(log[i]).None?
  {
    if log == [] then None
    else
      var rest := log[..|log| - 1];
      assert forall i :: 0 <= i < |rest| ==> rest[i] == log[i];
      if SwitchOf(log[|log| - 1]).Some? then SwitchOf(log[|log| - 1]) else LastSwitch(rest)
  }

  /** What `LastSwitch` returns was left by a delivery after which no other switch completed. */
  lemma {:induction false} LastSwitchIsLatest(log: seq<Delivery>)
    ensures LastSwitch(log).Some? ==>
      exists i :: 0 <= i < |log| && SwitchOf(log[i]) == LastSwitch(log) &&
        (forall j :: i < j < |log| ==> SwitchOf(log[j]).None?)
  {
    if log != [] && SwitchOf(log[|log| - 1]).None? {
      var rest := log[..|log| - 1];
      LastSwitchIsLatest(rest);
      if LastSwitch(rest).Some? {
        var i :| 0 <= i < |rest| && SwitchOf(rest[i]) == LastSwitch(rest) &&
                 (forall j :: i < j < |rest| ==> SwitchOf(rest[j]).None?);
        assert forall j :: i < j < |rest| ==> rest[j] == log[j];
        assert SwitchOf(log[i]) == LastSwitch(log);
      }
    }
  }

  /**
   * The brightness the wrapped bulb was last set to or read at, by a `white` or a
   * `brightness()` call that did not raise; `None` if there was none.
   */
  function LastLevel(log: seq<Delivery>): (r: Option<int>)
    ensures r.None? <==> forall i :: 0 <= i < |log| ==> LevelOf(log[i]).None?
  {
    if log == [] then None
    else
      var rest := log[..|log| - 1];
      assert forall i :: 0 <= i < |rest| ==> rest[i] == log[i];
      if LevelOf(log[|log| - 1]).Some? then LevelOf(log[|log| - 1]) else LastLevel(rest)
  }

  /** What `LastLevel` returns was left by a delivery after which no other level was set or read. */
  lemma {:induction false} LastLevelIsLatest(log: seq<Delivery>)
    ensures LastLevel(log).Some? ==>
      exists i :: 0 <= i < |log| && LevelOf(log[i]) == LastLevel(log) &&
        (forall j :: i < j < |log| ==> LevelOf(log[j]).None?)
  {
    if log != [] && LevelOf(log[|log| - 1]).None? {
      var rest := log[..|log| - 1];
      LastLevelIsLatest(rest);
      if LastLevel(rest).Some? {
        var i :| 0 <= i < |rest| && LevelOf(rest[i]) == LastLevel(rest) &&
                 (forall j :: i < j < |rest| ==> LevelOf(rest[j]).None?);
        assert forall j :: i < j < |rest| ==> rest[j] == log[j];
        assert LevelOf(log[i]) == LastLevel(log);
      }
    }
  }

  /** A `toggle` or `print_info` does not change what the on/off cache reflects: it goes stale. */
  lemma {:induction false} ToggleLeavesSwitchCache(log: seq<Delivery>, reply: Reply)
    ensures LastSwitch(log + [Delivery(Toggle, reply)]) == LastSwitch(log)
    ensures LastSwitch(log + [Delivery(PrintInfo, reply)]) == LastSwitch(log)
  {
    assert (log + [Delivery(Toggle, reply)])[..|log|] == log;
    assert (log + [Delivery(PrintInfo, reply)])[..|log|] == log;
  }

  /** One more delivery updates what each cache should hold only if it is a completed switch or level. */
  lemma {:induction false} Appended(log: seq<Delivery>, d: Delivery)
    ensures LastSwitch(log + [d]) == if SwitchOf(d).Some? then SwitchOf(d) else LastSwitch(log)
    ensures LastLevel(log + [d]) == if LevelOf(d).Some? then LevelOf(d) else LastLevel(log)
  {
    assert (log + [d])[..|log|] == log;
  }

  class CachedBrightBulb {
    /** `__state`: the cached on/off state. */
    var switchCache: Option<bool>
    /** `__brightness`: the cached brightness. */
    var brightnessCache: Option<int>
    /** The calls the wrapped bulb received through this wrapper, in order. */
    ghost var received: seq<Delivery>

    /** Each cache holds what the last successful write (or read) left on the wrapped bulb. */
    ghost predicate Valid()
      reads this
    {
      switchCache == LastSwitch(received) &&
      brightnessCache == LastLevel(received)
    }

    constructor ()
      ensures Valid()
      ensures switchCache == None && brightnessCache == None && received == []
    {
      switchCache := None;
      brightnessCache := None;
      received := [];
    }

    /** Forwards `turn_on` unless the bulb is cached as on; `raises`: the wrapped call raises. */
    method TurnOn(raises: bool) returns (ok: bool)
      requires Valid()
      modifies this
      ensures Valid()
      ensures brightnessCache == old(brightnessCache)
      ensures old(switchCache) == Some(true) ==> ok && received == old(received) && switchCache == Some(true)
      ensures old(switchCache) != Some(true) ==>
        received == old(received) + [Delivery(Call.TurnOn, if raises then Raised else Done)] &&
        ok == !raises &&
        switchCache == (if raises then old(switchCache) else Some(true))
    {
      ok := true;
      if switchCache != Some(true) {
        Appended(received, Delivery(Call.TurnOn, if raises then Raised else Done));
        received := received + [Delivery(Call.TurnOn, if raises then Raised else Done)];
        if raises {
          ok := false;
          return;
        }
        switchCache := Some(true);
      }
    }

    /** Forwards `turn_off` unless the bulb is cached as off. */
    method TurnOff(raises: bool) returns (ok: bool)
      requires Valid()
      modifies this
      ensures Valid()
      ensures brightnessCache == old(brightnessCache)
      ensures old(switchCache) == Some(false) ==> ok && received == old(received) && switchCache == Some(false)
      ensures old(switchCache) != Some(false) ==>
        received == old(received) + [Delivery(Call.TurnOff, if raises then Raised else Done)] &&
        ok == !raises &&
        switchCache == (if raises then old(switchCache) else Some(false))
    {
      ok := true;
      if switchCache != Some(false) {
        Appended(received, Delivery(Call.TurnOff, if raises then Raised else Done));
        received := received + [Delivery(Call.TurnOff, if raises then Raised else Done)];
        if raises {
          ok := false;
          return;
        }
        switchCache := Some(false);
      }
    }

    /** Always forwards `toggle`; neither cache changes. */
    method Toggle(raises: bool) returns (ok: bool)
      requires Valid()
      modifies this
      ensures Valid()
      ensures switchCache == old(switchCache) && brightnessCache == old(brightnessCache)
      ensures received == old(received) + [Delivery(Call.Toggle, if raises then Raised else Done)]
      ensures ok == !raises
    {
      ToggleLeavesSwitchCache(received, if raises then Raised else Done);
      received := received + [Delivery(Call.Toggle, if raises then Raised else Done)];
      assert received[..|received| - 1] == old(received);
      ok := !raises;
    }

    /** Always forwards `print_info`; neither cache changes. */
    method PrintInfo(raises: bool) returns (ok: bool)
      requires Valid()
      modifies this
      ensures Valid()
      ensures switchCache == old(switchCache) && brightnessCache == old(brightnessCache)
      ensures received == old(received) + [Delivery(Call.PrintInfo, if raises then Raised else Done)]
      ensures ok == !raises
    {
      ToggleLeavesSwitchCache(received, if raises then Raised else Done);
      received := received + [Delivery(Call.PrintInfo, if raises then Raised else Done)];
      assert received[..|received| - 1] == old(received);
      ok := !raises;
    }

    /** Forwards `white(level)` unless `level` is the cached brightness. */
    method White(level: int, raises: bool) returns (ok: bool)
      requires Valid()
      modifies this
      ensures Valid()
      ensures switchCache == old(switchCache)
      ensures old(brightnessCache) == Some(level) ==> ok && received == old(received) && brightnessCache == Some(level)
      ensures old(brightnessCache) != Some(level) ==>
        received == old(received) + [Delivery(Call.White(level), if raises then Raised else Done)] &&
        ok == !raises &&
        brightnessCache == (if raises then old(brightnessCache) else Some(level))
    {
      ok := true;
      if brightnessCache != Some(level) {
        Appended(received, Delivery(Call.White(level), if raises then Raised else Done));
        received := received + [Delivery(Call.White(level), if raises then Raised else Done)];
        if raises {
          ok := false;
          return;
        }
        brightnessCache := Some(level);
      }
    }

    /**
     * `brightness()`: the cached value when there is one; otherwise the wrapped bulb is
     * read (`reading`, `None` when it raises) and a successful reading is cached.
     */
    method Brightness(reading: Option<int>) returns (r: Option<int>)
      requires Valid()
      modifies this
      ensures Valid()
      ensures switchCache == old(switchCache)
      ensures old(brightnessCache).Some? ==> r == old(brightnessCache) && received == old(received) &&
                                             brightnessCache == old(brightnessCache)
      ensures old(brightnessCache).None? ==>
        received == old(received) + [Delivery(ReadBrightness, if reading.Some? then Reading(reading.value) else Raised)] &&
        r == reading && brightnessCache == reading
    {
      if brightnessCache.None? {
        Appended(received, Delivery(ReadBrightness, if reading.Some? then Reading(reading.value) else Raised));
        received := received + [Delivery(ReadBrightness, if reading.Some? then Reading(reading.value) else Raised)];
        brightnessCache := reading;
      }
      r := brightnessCache;
    }
  }

  /** Two `turn_on`s in a row reach the wrapped bulb once; `white` then `brightness()` reads nothing. */
  method RepeatedWritesAreSuppressed() returns (bulb: CachedBrightBulb)
    ensures |bulb.received| == 2
    ensures bulb.received == [Delivery(Call.TurnOn, Done), Delivery(Call.White(40), Done)]
  {
    bulb := new CachedBrightBulb();
    var ok := bulb.TurnOn(false);
    assert bulb.switchCache == Some(true) && bulb.received == [Delivery(Call.TurnOn, Done)];
    ok := bulb.TurnOn(false);
    ok := bulb.White(40, false);
    assert bulb.brightnessCache == Some(40);
    ok := bulb.White(40, false);
    assert bulb.received == [Delivery(Call.TurnOn, Done)] + [Delivery(Call.White(40), Done)];
    var level := bulb.Brightness(Some(7));
    assert level == Some(40);
  }
}

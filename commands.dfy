/**
 * The command resolution tree: a list of command-line tokens is walked through
 * terminal nodes, named-children nodes and positional-argument nodes, and yields a
 * runnable command, the list of valid continuations, or an error.
 *
 * `datetime.now()` is the `Clock` reading passed in; instants are integers counting
 * microseconds since the epoch.
 */
module Commands {
  import opened Wrappers
  import opened Decimal
  import Dict
  import opened Bulb
  import opened Modes

  /** A reading of the local clock: today's midnight as an instant, and the time of day. */
  datatype Clock = Clock(midnight: int, hour: int, minute: int, second: int, microsecond: int)

  predicate ValidClock(c: Clock) {
    0 <= c.hour < 24 && 0 <= c.minute < 60 && 0 <= c.second < 60 && 0 <= c.microsecond < MicrosPerSecond
  }

  const MicrosPerSecond: int := 1_000_000

  /** A converted argument: a white mode, an instant, or a percentage. */
  datatype ArgValue = WhiteArg(mode: WhiteMode) | TimeArg(at: int) | PercentArg(percents: int)

  /** The outcome of `convert`: a value, `None`, or an exception. */
  datatype Conversion = Converts(value: ArgValue) | NoMatch | Raises(error: string)

  /** `ArgumentSelect` over white modes, `TimeArgument`, `PercentsArgument`. */
  datatype Argument = Select(choices: Dict.Dict<WhiteMode>) | Time | Percents

  /** The kind of value each argument converts to. */
  predicate Produces(a: Argument, v: ArgValue) {
    match a
    case Select(_) => v.WhiteArg?
    case Time => v.TimeArg?
    case Percents => v.PercentArg?
  }

  /** `HH:MM`: the shape `^(\d{2}):(\d{2})$` matches. */
  predicate IsHourMinute(t: string) {
    |t| == 5 && IsDigits(t[..2]) && t[2] == ':' && IsDigits(t[3..])
  }

  /** `HH:MM:SS`: the shape `^(\d{2}):(\d{2}):(\d{2})$` matches. */
  predicate IsHourMinuteSecond(t: string) {
    |t| == 8 && IsDigits(t[..2]) && t[2] == ':' && IsDigits(t[3..5]) && t[5] == ':' && IsDigits(t[6..])
  }

  /** Today at the given hour and minute, second 0, keeping the clock's microsecond. */
  function TodayAt(now: Clock, hour: int, minute: int): int {
    now.midnight + (hour * 3600 + minute * 60) * MicrosPerSecond + now.microsecond
  }

  /**
   * `TimeArgument.convert`: all digits is a Unix timestamp; `HH:MM` is today at that
   * time, where `datetime.replace` rejects an hour above 23 or a minute above 59;
   * `HH:MM:SS` passes the seconds as a string, which `replace` rejects; anything else
   * is `None`.
   */
  function ConvertTime(token: string, now: Clock): (r: Conversion)
    ensures r.Converts? ==> r.value.TimeArg?
    ensures var t := BeforeLineEnd(token);
      (r.NoMatch? <==> !IsDigits(t) && !IsHourMinute(t) && !IsHourMinuteSecond(t)) &&
      (r.Raises? ==> IsHourMinute(t) || IsHourMinuteSecond(t)) &&
      (IsHourMinuteSecond(t) ==> r.Raises?)
    ensures IsDigits(BeforeLineEnd(token)) ==> r == Converts(TimeArg(Value(BeforeLineEnd(token)) * MicrosPerSecond))
    ensures IsHourMinute(BeforeLineEnd(token)) && r.Converts? && ValidClock(now) ==>
      now.midnight <= r.value.at < now.midnight + 24 * 3600 * MicrosPerSecond
  {
    var t := BeforeLineEnd(token);
    if IsDigits(t) then Converts(TimeArg(Value(t) * MicrosPerSecond))
    else if IsHourMinute(t) then
      var hour := Value(t[..2]);
      var minute := Value(t[3..]);
      if hour > 23 then Raises("hour must be in 0..23")
      else if minute > 59 then Raises("minute must be in 0..59")
      else Converts(TimeArg(TodayAt(now, hour, minute)))
    else if IsHourMinuteSecond(t) then Raises("'str' object cannot be interpreted as an integer")
    else NoMatch
  }

  /** `PercentsArgument.convert`: digits only (no sign), with a value of at most 100. */
  function ConvertPercents(token: string): (r: Conversion)
    ensures !r.Raises?
    ensures r.Converts? ==> r.value.PercentArg? && 0 <= r.value.percents <= 100
    ensures r.Converts? <==> IsDigits(BeforeLineEnd(token)) && Value(BeforeLineEnd(token)) <= 100
    ensures r.Converts? ==> r.value.percents == Value(BeforeLineEnd(token))
  {
    var t := BeforeLineEnd(token);
    if IsDigits(t) && Value(t) <= 100 then Converts(PercentArg(Value(t))) else NoMatch
  }

  /** `Argument.convert`. */
  function Convert(a: Argument, token: string, now: Clock): (r: Conversion)
    ensures r.Converts? ==> Produces(a, r.value)
    ensures a.Select? ==> !r.Raises? && (r.Converts? <==> token in Dict.Keys(a.choices))
    ensures a.Select? ==> forall i :: 0 <= i < |a.choices| && a.choices[i].0 == token && token !in Dict.Keys(a.choices[..i])
                                    ==> r == Converts(WhiteArg(a.choices[i].1))
  {
    match a
    case Select(choices) =>
      (match Dict.Get(choices, token)
       case Some(m) => Converts(WhiteArg(m))
       case None => NoMatch)
    case Time => ConvertTime(token, now)
    case Percents => ConvertPercents(token)
  }

  /** `Argument.options`: the tokens offered at this position. */
  function Offers(a: Argument, now: Clock): (r: seq<string>)
    requires ValidClock(now)
    ensures a.Select? ==> |r| == |a.choices| && forall k :: 0 <= k < |r| ==> r[k] == a.choices[k].0
    ensures a.Time? ==> |r| == 1 && IsHourMinute(r[0])
    ensures a.Percents? ==> |r| == 3 && forall k :: 0 <= k < |r| ==> IsDigits(r[k]) && Value(r[k]) <= 100
  {
    match a
    case Select(choices) => Dict.Keys(choices)
    case Time => [Pad2(now.hour) + ":" + Pad2(now.minute)]
    case Percents => ["25", "50", "75"]
  }

  /**
   * Every token an argument offers is one it accepts: a key selects the mode stored
   * under it, the time offered is the current minute of today, and a percentage
   * offered is its own value.
   */
  lemma {:induction false} OffersAreAccepted(a: Argument, now: Clock, k: nat)
    requires ValidClock(now) && k < |Offers(a, now)|
    ensures Convert(a, Offers(a, now)[k], now).Converts?
    ensures a.Select? && Dict.DistinctKeys(a.choices) ==>
      Convert(a, Offers(a, now)[k], now) == Converts(WhiteArg(a.choices[k].1))
    ensures a.Time? ==> Convert(a, Offers(a, now)[k], now) == Converts(TimeArg(TodayAt(now, now.hour, now.minute)))
    ensures a.Percents? ==> Convert(a, Offers(a, now)[k], now) == Converts(PercentArg(Value(Offers(a, now)[k])))
  {
    match a
    case Select(choices) =>
      SelectOfferAccepted(choices, k);
    case Time =>
      TimeOfferAccepted(now);
    case Percents =>
      PercentOffersAccepted();
  }

  /** Every key a selection offers selects a mode, the one stored under it when keys are distinct. */
  lemma SelectOfferAccepted(choices: Dict.Dict<WhiteMode>, k: nat)
    requires k < |Dict.Keys(choices)|
    ensures Dict.Get(choices, Dict.Keys(choices)[k]).Some?
    ensures Dict.DistinctKeys(choices) ==> Dict.Get(choices, choices[k].0) == Some(choices[k].1)
  {
    assert Dict.Keys(choices)[k] in Dict.Keys(choices);
    if Dict.DistinctKeys(choices) {
      var before := Dict.Keys(choices[..k]);
      assert forall j :: 0 <= j < k ==> before[j] == choices[j].0 != choices[k].0;
      assert choices[k].0 !in before;
    }
  }

  /** The time offer, the current minute as HH:MM, converts to today at that minute. */
  lemma TimeOfferAccepted(now: Clock)
    requires ValidClock(now)
    ensures ConvertTime(Pad2(now.hour) + ":" + Pad2(now.minute), now) ==
      Converts(TimeArg(TodayAt(now, now.hour, now.minute)))
  {
    var h, m := Pad2(now.hour), Pad2(now.minute);
    var o := h + ":" + m;
    assert o[..2] == h && o[3..] == m && o[2] == ':';
    assert BeforeLineEnd(o) == o;
    assert !IsDigits(o) by { assert !IsDigit(o[2]); }
  }

  /** The percent offers 25, 50 and 75 convert. */
  lemma PercentOffersAccepted()
    ensures ConvertPercents("25") == Converts(PercentArg(25))
    ensures ConvertPercents("50") == Converts(PercentArg(50))
    ensures ConvertPercents("75") == Converts(PercentArg(75))
  {
    PercentsOfShow(25);
    PercentsOfShow(50);
    PercentsOfShow(75);
    assert Show(25) == "25" && Show(50) == "50" && Show(75) == "75";
  }

  lemma {:induction false} PercentsOfShow(n: nat)
    ensures ConvertPercents(Show(n)) == if n <= 100 then Converts(PercentArg(n)) else NoMatch
  {
    assert BeforeLineEnd(Show(n)) == Show(n) by {
      assert IsDigit(Show(n)[|Show(n)| - 1]);
    }
  }

  /** A timestamp written out in decimal converts to that instant. */
  lemma {:induction false} TimeOfShow(n: nat, now: Clock)
    ensures ConvertTime(Show(n), now) == Converts(TimeArg(n * MicrosPerSecond))
  {
    assert BeforeLineEnd(Show(n)) == Show(n) by {
      assert IsDigit(Show(n)[|Show(n)| - 1]);
    }
  }

  /**
   * The shapes of a time token: `HH:MM` is today at that time unless the hour is above
   * 23 or the minute above 59, which raise (the hour checked first); `HH:MM:SS` always
   * raises; a one-digit hour matches no shape.
   */
  lemma {:induction false} TimeShapes(h: nat, m: nat, sec: nat, now: Clock)
    requires h < 100 && m < 100 && sec < 100
    ensures ConvertTime(Pad2(h) + ":" + Pad2(m), now) ==
      if h > 23 then Raises("hour must be in 0..23")
      else if m > 59 then Raises("minute must be in 0..59")
      else Converts(TimeArg(TodayAt(now, h, m)))
    ensures ConvertTime(Pad2(h) + ":" + Pad2(m) + ":" + Pad2(sec), now).Raises?
    ensures ConvertTime("7:30", now) == NoMatch
  {
    HourMinuteJoined(Pad2(h), Pad2(m));
    SecondsJoined(Pad2(h), Pad2(m), Pad2(sec));
    var short := "7:30";
    assert !IsDigit(short[1]);
  }

  /** Two digit pairs joined by a colon have the `HH:MM` shape and nothing else. */
  lemma HourMinuteJoined(hh: string, mm: string)
    requires |hh| == 2 && |mm| == 2 && IsDigits(hh) && IsDigits(mm)
    ensures var t := hh + ":" + mm;
      BeforeLineEnd(t) == t && !IsDigits(t) && IsHourMinute(t) && t[..2] == hh && t[3..] == mm
  {
    var t := hh + ":" + mm;
    assert t[..2] == hh && t[3..] == mm && t[2] == ':';
    assert !IsDigits(t) by { assert !IsDigit(t[2]); }
  }

  /** Three digit pairs joined by colons have the `HH:MM:SS` shape only. */
  lemma SecondsJoined(hh: string, mm: string, ss: string)
    requires |hh| == 2 && |mm| == 2 && |ss| == 2 && IsDigits(hh) && IsDigits(mm) && IsDigits(ss)
    ensures var t := hh + ":" + mm + ":" + ss;
      BeforeLineEnd(t) == t && !IsDigits(t) && !IsHourMinute(t) && IsHourMinuteSecond(t)
  {
    var t := hh + ":" + mm + ":" + ss;
    assert t[..2] == hh && t[3..5] == mm && t[6..] == ss && t[2] == ':' && t[5] == ':';
    assert !IsDigits(t) by { assert !IsDigit(t[2]); }
  }

  /** Percentages: leading zeros are accepted and 0 is a value like any other. */
  lemma PercentExamples()
    ensures ConvertPercents("007") == Converts(PercentArg(7))
    ensures ConvertPercents("0") == Converts(PercentArg(0))
  {
    assert "007"[..2] == "00" && "00"[..1] == "0" && "0"[..0] == "";
    assert Value("007") == 7;
  }

  /** One final newline is allowed after the digits; a sign, 101 and the empty token are not. */
  lemma PercentEdgeExamples()
    ensures ConvertPercents("100\n") == Converts(PercentArg(100))
    ensures ConvertPercents("+5") == NoMatch && ConvertPercents("101") == NoMatch && ConvertPercents("") == NoMatch
  {
    assert !IsDigit("+5"[0]);
    assert BeforeLineEnd("100\n") == "100";
    ValueHundreds();
  }

  lemma ValueHundreds()
    ensures Value("100") == 100 && Value("101") == 101
  {
    assert "100"[..2] == "10" && "10"[..1] == "1" && "1"[..0] == "";
    assert "101"[..2] == "10";
  }

  /** Converting positional arguments: the values, the options of a position, or an exception. */
  datatype Collected = Converted(values: seq<ArgValue>) | Offer(options: seq<string>) | Fail(error: string)

  /** Each token converts to a value at its position. */
  predicate AllConvert(specs: seq<Argument>, tokens: seq<string>, now: Clock)
    requires |tokens| <= |specs|
  {
    forall i :: 0 <= i < |tokens| ==> Convert(specs[i], tokens[i], now).Converts?
  }

  /**
   * The tokens converted in order, stopping at the first that converts to `None`
   * (that position's options) or raises.
   */
  function ConvertPrefix(specs: seq<Argument>, tokens: seq<string>, now: Clock): (r: Collected)
    requires |tokens| <= |specs| && ValidClock(now)
    ensures r.Converted? <==> AllConvert(specs, tokens, now)
    ensures r.Converted? ==> (|r.values| == |tokens| &&
      forall i :: 0 <= i < |tokens| ==> Convert(specs[i], tokens[i], now) == Converts(r.values[i]))
    decreases |tokens|
  {
    if tokens == [] then Converted([])
    else
      var n := |tokens| - 1;
      PrefixStep(specs, tokens, now);
      match ConvertPrefix(specs, tokens[..n], now)
      case Converted(values) =>
        (match Convert(specs[n], tokens[n], now)
         case Converts(v) => Converted(values + [v])
         case NoMatch => Offer(Offers(specs[n], now))
         case Raises(e) => Fail(e))
      case stopped => stopped
  }

  /** All tokens convert when those before the last do and the last does too. */
  lemma PrefixStep(specs: seq<Argument>, tokens: seq<string>, now: Clock)
    requires 0 < |tokens| <= |specs|
    ensures forall i :: 0 <= i < |tokens| - 1 ==> tokens[..|tokens| - 1][i] == tokens[i]
    ensures AllConvert(specs, tokens, now) <==>
      AllConvert(specs, tokens[..|tokens| - 1], now) && Convert(specs[|tokens| - 1], tokens[|tokens| - 1], now).Converts?
  {
  }

  /**
   * `ArgumentsCommander.get` before the command is built: too many tokens offer
   * nothing; a token that does not convert offers its position's options; too few
   * tokens offer the options of the first missing position.
   */
  function Collect(specs: seq<Argument>, tokens: seq<string>, now: Clock): (r: Collected)
    requires ValidClock(now)
    ensures r.Converted? <==>
      |tokens| == |specs| && forall i :: 0 <= i < |tokens| ==> Convert(specs[i], tokens[i], now).Converts?
    ensures r.Converted? ==> (|r.values| == |specs| &&
      forall i :: 0 <= i < |specs| ==> Convert(specs[i], tokens[i], now) == Converts(r.values[i]) &&
                                       Produces(specs[i], r.values[i]))
    ensures |tokens| > |specs| ==> r == Offer([])
    ensures |tokens| < |specs| && (forall i :: 0 <= i < |tokens| ==> Convert(specs[i], tokens[i], now).Converts?) ==>
      r == Offer(Offers(specs[|tokens|], now))
  {
    if |tokens| > |specs| then Offer([])
    else
      match ConvertPrefix(specs, tokens, now)
      case Converted(values) =>
        if |values| < |specs| then Offer(Offers(specs[|values|], now)) else Converted(values)
      case stopped => stopped
  }

  /** Conversion that stopped before the last token stays stopped there. */
  lemma StoppedPrefix(specs: seq<Argument>, tokens: seq<string>, now: Clock)
    requires 0 < |tokens| <= |specs| && ValidClock(now)
    requires !ConvertPrefix(specs, tokens[..|tokens| - 1], now).Converted?
    ensures ConvertPrefix(specs, tokens, now) == ConvertPrefix(specs, tokens[..|tokens| - 1], now)
  {
  }

  /** Once conversion has stopped on a prefix, the tokens after it change nothing. */
  lemma {:induction false} StopPersists(specs: seq<Argument>, tokens: seq<string>, now: Clock, j: nat)
    requires j <= |tokens| <= |specs| && ValidClock(now)
    requires !ConvertPrefix(specs, tokens[..j], now).Converted?
    ensures ConvertPrefix(specs, tokens, now) == ConvertPrefix(specs, tokens[..j], now)
    decreases |tokens|
  {
    if j < |tokens| {
      var prefix := tokens[..|tokens| - 1];
      assert prefix[..j] == tokens[..j];
      StopPersists(specs, prefix, now, j);
      var stopped := ConvertPrefix(specs, prefix, now);
      assert !stopped.Converted?;
      StoppedPrefix(specs, tokens, now);
    } else {
      assert tokens[..j] == tokens;
    }
  }

  /**
   * The first token that converts to `None` decides the result, whatever follows it;
   * a falsy value such as percentage 0 is not `None` and does not stop conversion.
   */
  lemma {:induction false} FirstFailureDecides(specs: seq<Argument>, tokens: seq<string>, now: Clock, i: nat)
    requires i < |tokens| <= |specs| && ValidClock(now)
    requires forall j :: 0 <= j < i ==> Convert(specs[j], tokens[j], now).Converts?
    requires !Convert(specs[i], tokens[i], now).Converts?
    ensures Collect(specs, tokens, now) ==
      if Convert(specs[i], tokens[i], now).NoMatch? then Offer(Offers(specs[i], now))
      else Fail(Convert(specs[i], tokens[i], now).error)
  {
    var prefix := tokens[..i + 1];
    assert prefix[..i] == tokens[..i];
    assert forall j :: 0 <= j < i ==> tokens[..i][j] == tokens[j];
    assert ConvertPrefix(specs, tokens[..i], now).Converted?;
    StopPersists(specs, tokens, now, i + 1);
  }

  /** `ArgumentsCommander.get`, lines converting the tokens one by one and appending each value. */
  method CollectArguments(specs: seq<Argument>, tokens: seq<string>, now: Clock) returns (r: Collected)
    requires ValidClock(now)
    ensures r == Collect(specs, tokens, now)
  {
    if |tokens| > |specs| {
      return Offer([]);
    }
    var arguments: seq<ArgValue> := [];
    for i := 0 to |tokens|
      invariant ConvertPrefix(specs, tokens[..i], now) == Converted(arguments)
    {
      var argument := Convert(specs[i], tokens[i], now);
      assert tokens[..i + 1][..i] == tokens[..i];
      match argument
      case NoMatch =>
        StopPersists(specs, tokens, now, i + 1);
        return Offer(Offers(specs[i], now));
      case Raises(e) =>
        StopPersists(specs, tokens, now, i + 1);
        return Fail(e);
      case Converts(v) =>
        arguments := arguments + [v];
    }
    assert tokens[..|tokens|] == tokens;
    if |arguments| < |specs| {
      return Offer(Offers(specs[|arguments|], now));
    }
    return Converted(arguments);
  }

  /** `TransitionCommander` and `WhiteBetweenCommander`. */
  datatype ArgsKind = TransitionArgs | BetweenArgs

  /** The argument list each subclass passes to `ArgumentsCommander.__init__`. */
  function Specs(kind: ArgsKind, modes: Dict.Dict<WhiteMode>): seq<Argument> {
    match kind
    case TransitionArgs => [Select(modes), Time, Select(modes), Time]
    case BetweenArgs => [Select(modes), Select(modes), Percents]
  }

  /** The converted values have the types `get_mode` unpacks. */
  predicate Fits(kind: ArgsKind, values: seq<ArgValue>) {
    match kind
    case TransitionArgs =>
      |values| == 4 && values[0].WhiteArg? && values[1].TimeArg? && values[2].WhiteArg? && values[3].TimeArg?
    case BetweenArgs =>
      |values| == 3 && values[0].WhiteArg? && values[1].WhiteArg? && values[2].PercentArg?
  }

  /** `get_mode`: `TransitionMode(*arguments)` or `WhiteBetweenMode(*arguments)`. */
  function GetMode(kind: ArgsKind, values: seq<ArgValue>): Mode
    requires Fits(kind, values)
  {
    match kind
    case TransitionArgs => TransitionMode(values[0].mode, values[1].at, values[2].mode, values[3].at)
    case BetweenArgs => WhiteBetween(values[0].mode, values[1].mode, values[2].percents)
  }

  /** A runnable command: one mode on one bulb, or several commands run side by side. */
  datatype Command = BulbCommand(bulb: Provider, mode: Mode) | MultiCommand(commands: seq<Command>)

  /** A node of the resolution tree. */
  datatype Commander =
    | Single(command: Command)
    | List(children: Dict.Dict<Commander>)
    | Arguments(bulbs: seq<Provider>, kind: ArgsKind, modes: Dict.Dict<WhiteMode>)

  /**
   * What `get` returns or raises: a command to run, an `OptionsCommand` listing, the
   * "Unknown option(s)" exception carrying the leftover tokens, or an exception a
   * conversion raised.
   */
  datatype Resolution = Cmd(command: Command) | Options(options: seq<string>) | Unknown(leftover: seq<string>) | Raised(error: string)

  /** The text of the "Unknown option(s)" exception. */
  function UnknownMessage(leftover: seq<string>): string {
    "Unknown option(s): " + Join(leftover, " ")
  }

  /** One `BulbCommand` per bulb, in the bulbs' order, all with the same mode. */
  function PerBulb(bulbs: seq<Provider>, mode: Mode): (commands: seq<Command>)
    ensures |commands| == |bulbs|
    ensures forall j :: 0 <= j < |bulbs| ==> commands[j] == BulbCommand(bulbs[j], mode)
  {
    seq(|bulbs|, j requires 0 <= j < |bulbs| => BulbCommand(bulbs[j], mode))
  }

  /** `Commander.get`. */
  function Resolve(node: Commander, tokens: seq<string>, now: Clock): (r: Resolution)
    requires ValidClock(now)
    ensures r.Unknown? ==> 0 < |r.leftover| <= |tokens| && r.leftover == tokens[|tokens| - |r.leftover|..]
    ensures node.Arguments? ==> !r.Unknown?
    decreases node
  {
    match node
    case Single(command) =>
      if tokens == [] then Cmd(command)
      else if tokens == ["help"] then Options([])
      else Unknown(tokens)
    case List(children) =>
      if |tokens| > 0 && Dict.Find(children, tokens[0]).Some? then
        var i := Dict.Find(children, tokens[0]).value;
        var r := Resolve(children[i].1, tokens[1..], now);
        assert r.Unknown? ==> tokens[1..][|tokens| - 1 - |r.leftover|..] == tokens[|tokens| - |r.leftover|..];
        r
      else
        Options(Dict.Keys(children))
    case Arguments(bulbs, kind, modes) =>
      ResolveArguments(bulbs, kind, modes, tokens, now)
  }

  /** `ArgumentsCommander.get`: the command for every bulb, the options, or the raised exception. */
  function ResolveArguments(bulbs: seq<Provider>, kind: ArgsKind, modes: Dict.Dict<WhiteMode>,
                            tokens: seq<string>, now: Clock): (r: Resolution)
    requires ValidClock(now)
    ensures !r.Unknown?
    ensures |tokens| > |Specs(kind, modes)| ==> r == Options([])
    ensures r.Cmd? <==> (|tokens| == |Specs(kind, modes)| &&
      forall i :: 0 <= i < |tokens| ==> Convert(Specs(kind, modes)[i], tokens[i], now).Converts?)
    ensures r.Cmd? ==> (r.command.MultiCommand? && |r.command.commands| == |bulbs| &&
      forall j :: 0 <= j < |bulbs| ==> r.command.commands[j].BulbCommand? && r.command.commands[j].bulb == bulbs[j])
  {
    match Collect(Specs(kind, modes), tokens, now)
    case Converted(values) =>
      assert Fits(kind, values);
      Cmd(MultiCommand(PerBulb(bulbs, GetMode(kind, values))))
    case Offer(options) => Options(options)
    case Fail(error) => Raised(error)
  }

  /**
   * A terminal node: no tokens give its command, exactly `help` an empty listing, and
   * anything else the "Unknown option(s)" exception naming all the tokens.
   */
  lemma SingleResolves(command: Command, tokens: seq<string>, now: Clock)
    requires ValidClock(now)
    ensures tokens == [] ==> Resolve(Single(command), tokens, now) == Cmd(command)
    ensures tokens == ["help"] ==> Resolve(Single(command), tokens, now) == Options([])
    ensures tokens != [] && tokens != ["help"] ==> Resolve(Single(command), tokens, now) == Unknown(tokens)
    ensures |tokens| == 1 ==> UnknownMessage(tokens) == "Unknown option(s): " + tokens[0]
  {
  }

  /**
   * A named-children node: a first token that is a key descends into that child with
   * the remaining tokens; no token or an unknown one lists the keys in insertion order.
   */
  lemma ListResolves(children: Dict.Dict<Commander>, tokens: seq<string>, now: Clock)
    requires ValidClock(now)
    ensures |tokens| > 0 && tokens[0] in Dict.Keys(children) ==>
      Dict.Get(children, tokens[0]).Some? &&
      Resolve(List(children), tokens, now) == Resolve(Dict.Get(children, tokens[0]).value, tokens[1..], now)
    ensures tokens == [] || tokens[0] !in Dict.Keys(children) ==>
      Resolve(List(children), tokens, now) == Options(Dict.Keys(children))
  {
  }

  /**
   * A positional-argument node: a command is one `BulbCommand` per bulb in order, each
   * with the mode built from the converted values; too few tokens that all convert
   * offer the options of the first missing position.
   */
  lemma {:induction false} ArgumentsResolve(bulbs: seq<Provider>, kind: ArgsKind, modes: Dict.Dict<WhiteMode>,
                                            tokens: seq<string>, now: Clock)
    requires ValidClock(now)
    ensures var specs := Specs(kind, modes);
      var r := Resolve(Arguments(bulbs, kind, modes), tokens, now);
      (|tokens| < |specs| && (forall i :: 0 <= i < |tokens| ==> Convert(specs[i], tokens[i], now).Converts?) ==>
         r == Options(Offers(specs[|tokens|], now))) &&
      (r.Cmd? ==> exists values :: (Fits(kind, values) &&
         (forall i :: 0 <= i < |specs| ==> Convert(specs[i], tokens[i], now) == Converts(values[i])) &&
         r == Cmd(MultiCommand(PerBulb(bulbs, GetMode(kind, values))))))
  {
    var specs := Specs(kind, modes);
    var c := Collect(specs, tokens, now);
    if c.Converted? {
      var values := c.values;
      assert Fits(kind, values);
      assert Resolve(Arguments(bulbs, kind, modes), tokens, now) == Cmd(MultiCommand(PerBulb(bulbs, GetMode(kind, values))));
    }
  }

  /**
   * Tokens past a command: after tokens that resolve to a command, `help` gives an
   * empty listing and any other extra tokens either the "Unknown option(s)" exception
   * naming exactly them (below a terminal) or an empty listing (below positional
   * arguments).
   */
  lemma {:induction false} ExtraTokensAfterCommand(node: Commander, prefix: seq<string>, extra: seq<string>, now: Clock)
    requires ValidClock(now)
    requires Resolve(node, prefix, now).Cmd? && extra != []
    ensures var r := Resolve(node, prefix + extra, now);
      r == Options([]) || r == Unknown(extra)
    ensures extra == ["help"] ==> Resolve(node, prefix + extra, now) == Options([])
    decreases node
  {
    match node
    case Single(_) =>
      assert prefix == [];
      assert prefix + extra == extra;
    case List(children) =>
      CmdFromChild(children, prefix, now);
      var i := Dict.Find(children, prefix[0]).value;
      DescendAppend(children, prefix, extra, now);
      ExtraTokensAfterCommand(children[i].1, prefix[1..], extra, now);
    case Arguments(bulbs, kind, modes) =>
      ExtraArguments(bulbs, kind, modes, prefix, extra, now);
  }

  /** Tokens after a complete argument list make the node offer nothing. */
  lemma ExtraArguments(bulbs: seq<Provider>, kind: ArgsKind, modes: Dict.Dict<WhiteMode>,
                       prefix: seq<string>, extra: seq<string>, now: Clock)
    requires ValidClock(now) && extra != []
    requires ResolveArguments(bulbs, kind, modes, prefix, now).Cmd?
    ensures ResolveArguments(bulbs, kind, modes, prefix + extra, now) == Options([])
  {
    var specs := Specs(kind, modes);
    assert Collect(specs, prefix, now).Converted?;
    assert |prefix + extra| > |specs|;
  }

  /** A named-children node raises "Unknown option(s)" only from inside the child its first token names. */
  lemma UnknownFromChild(children: Dict.Dict<Commander>, tokens: seq<string>, now: Clock)
    requires ValidClock(now)
    requires Resolve(List(children), tokens, now).Unknown?
    ensures |tokens| > 0 && Dict.Find(children, tokens[0]).Some?
    ensures Resolve(List(children), tokens, now) ==
      Resolve(children[Dict.Find(children, tokens[0]).value].1, tokens[1..], now)
  {
  }

  /** A command found below a named-children node comes from the child its first token names. */
  lemma CmdFromChild(children: Dict.Dict<Commander>, tokens: seq<string>, now: Clock)
    requires ValidClock(now)
    requires Resolve(List(children), tokens, now).Cmd?
    ensures |tokens| > 0 && Dict.Find(children, tokens[0]).Some?
    ensures Resolve(List(children), tokens, now) ==
      Resolve(children[Dict.Find(children, tokens[0]).value].1, tokens[1..], now)
  {
  }

  /** Tokens appended after a first token that names a child go on to that child. */
  lemma DescendAppend(children: Dict.Dict<Commander>, tokens: seq<string>, extra: seq<string>, now: Clock)
    requires ValidClock(now)
    requires |tokens| > 0 && Dict.Find(children, tokens[0]).Some?
    ensures Resolve(List(children), tokens + extra, now) ==
      Resolve(children[Dict.Find(children, tokens[0]).value].1, tokens[1..] + extra, now)
  {
    assert (tokens + extra)[0] == tokens[0] && (tokens + extra)[1..] == tokens[1..] + extra;
  }

  /** Tokens that lead into a child resolve there as they do in the child. */
  lemma DescendPrefix(children: Dict.Dict<Commander>, tokens: seq<string>, j: nat, now: Clock)
    requires ValidClock(now)
    requires j < |tokens| && Dict.Find(children, tokens[0]).Some?
    ensures Resolve(List(children), tokens[..j + 1], now) ==
      Resolve(children[Dict.Find(children, tokens[0]).value].1, tokens[1..][..j], now)
  {
    var prefix := tokens[..j + 1];
    assert prefix[0] == tokens[0] && prefix[1..] == tokens[1..][..j];
  }

  /**
   * The "Unknown option(s)" exception arises only after a proper prefix of the tokens
   * resolved to a command, and names exactly the tokens after it.
   */
  lemma {:induction false} UnknownMeansExtraTokens(node: Commander, tokens: seq<string>, now: Clock)
    requires ValidClock(now)
    requires Resolve(node, tokens, now).Unknown?
    ensures var rest := Resolve(node, tokens, now).leftover;
      0 < |rest| <= |tokens| && tokens[|tokens| - |rest|..] == rest &&
      Resolve(node, tokens[..|tokens| - |rest|], now).Cmd?
    decreases node
  {
    match node
    case Single(_) =>
      assert tokens[..0] == [];
    case List(children) =>
      UnknownFromChild(children, tokens, now);
      var i := Dict.Find(children, tokens[0]).value;
      var child := children[i].1;
      UnknownMeansExtraTokens(child, tokens[1..], now);
      var j := |tokens| - 1 - |Resolve(child, tokens[1..], now).leftover|;
      DescendPrefix(children, tokens, j, now);
    case Arguments(_, _, _) =>
  }

  /** Every mode a command applies needs only operations its bulb's driver offers. */
  predicate CommandSupported(c: Command)
    decreases c
  {
    match c
    case BulbCommand(bulb, mode) => forall op :: op in Needs(mode) ==> Supports(bulb.driver, op)
    case MultiCommand(commands) => forall i :: 0 <= i < |commands| ==> CommandSupported(commands[i])
  }

  /**
   * Every command a node can produce is supported: the commands of its terminal nodes
   * are, and the bulbs under a positional-argument node take white calls.
   */
  predicate NodeSupported(node: Commander)
    decreases node
  {
    match node
    case Single(command) => CommandSupported(command)
    case List(children) => forall i :: 0 <= i < |children| ==> NodeSupported(children[i].1)
    case Arguments(bulbs, _, _) => forall i :: 0 <= i < |bulbs| ==> Supports(bulbs[i].driver, WhiteWarmOp)
  }

  /** The modes positional arguments build need only white calls. */
  lemma GetModeNeeds(kind: ArgsKind, values: seq<ArgValue>)
    requires Fits(kind, values)
    ensures Needs(GetMode(kind, values)) == {WhiteWarmOp}
  {
  }

  /**
   * Type safety of the tree: in a node whose commands are all supported, whatever
   * command the tokens resolve to only makes calls its bulbs offer.
   */
  lemma {:induction false} ResolvedCommandSupported(node: Commander, tokens: seq<string>, now: Clock)
    requires ValidClock(now) && NodeSupported(node)
    requires Resolve(node, tokens, now).Cmd?
    ensures CommandSupported(Resolve(node, tokens, now).command)
    decreases node
  {
    match node
    case Single(_) =>
    case List(children) =>
      var i := Dict.Find(children, tokens[0]).value;
      ResolvedCommandSupported(children[i].1, tokens[1..], now);
    case Arguments(bulbs, kind, modes) =>
      var values := Collect(Specs(kind, modes), tokens, now).values;
      assert Fits(kind, values);
      GetModeNeeds(kind, values);
      var commands := PerBulb(bulbs, GetMode(kind, values));
      assert forall j :: 0 <= j < |commands| ==> CommandSupported(commands[j]);
  }
}

# A verified model of the bulb-control command line

This project models the logic of a small command-line tool that controls two smart
bulbs: a Yeelight desk lamp ("table") and a WiZ bulb ("corridor"). The tool reads a
list of words such as `table on`, `between day night 50` or
`transition day 07:00 night 23:00`. It walks them through a tree of commanders and
gets either a command to run, a listing of the words that may come next, or an
"Unknown option(s)" error. Running a command applies a *mode* to one or more bulbs.
A *transition* blends two bulb states over a time interval and re-applies the blend
as the clock advances. A caching decorator keeps repeated writes from reaching a bulb.
A second script, `screen-brightness.py`, reuses the transition scheduler for a
monitor's brightness.

Modules (one file each):

- `Wrappers`: the `Option` type.
- `Decimal`: the parts of Python's `int()`, `str()`, `"%02d"` and of the pattern `^\d+$` that the tool relies on.
- `Dict`: insertion-ordered Python dictionaries with string keys, including `{**a, **b}` and `|=`.
- `Bulb` (`bulb.py`):
  - the capability interfaces and the calls a bulb accepts;
  - the three drivers and the named bulb handles;
  - `to_rgb`;
  - the decisions of the Bluetooth Yeelight driver.
- `States` (`transition.py`, `main.py`, `screen-brightness.py`):
  - the weighted blend `_value`;
  - the white and brightness states, with their equality and `avg`.
- `Transitions` (`transition.py`): the scheduler, as a class whose `Tick` and `Run` methods update its last-applied marker. Both are proved against pure functions (`Step`, `Replay`, `Plan`).
- `Cache` (`cache.py`): `CachedBrightBulb`, as a class with its two cache fields and the log of calls the wrapped bulb received.
- `Modes` (`main.py`): the modes and the ordered calls each one makes on a bulb.
- `Commands` (`command.py`, duplicated in `main.py`):
  - argument conversion;
  - the conversion loop of `ArgumentsCommander.get`, as a method proved against a function;
  - the resolution of a word list through the commander tree.
- `Setup` (`main.py`): the command tree that `main()` builds, as a function of its two bulb handles, and the proof that every command it can produce is supported by the driver of its bulb.
- `Scenarios`: concrete command lines resolved through that tree. Each one holds whatever the two bulb handles are.
- `ScreenBrightness` (`screen-brightness.py`): how the script turns its arguments into a transition.

Time is a whole number of microseconds since the epoch. A clock reading is passed in
as a `Clock` value: the instant of today's midnight and the current hour, minute,
second and microsecond. Weights are exact reals. Whether a bulb call raises is an
input of the method that makes it. The wall-clock readings a transition polls are a
sequence, and the success of each apply is a function of the tick number.

The proofs by induction over the commander tree are `Commands.UnknownMeansExtraTokens`,
`Commands.ExtraTokensAfterCommand` and `Commands.ResolvedCommandSupported`. Lemmas such
as `Commands.SingleResolves`, `Commands.ListResolves`, `Commands.ArgumentsResolve` and
`Modes.CallOrder` state the promised behaviour of one branch of resolution or of
`apply` each.

## Model

| member | source | states |
|---|---|---|
| Decimal.Show | command.py:90-91 | writing a natural number in decimal gives a digit string that `int()` reads back as that number, with no leading zero except the single digit "0" |
| Decimal.ShowInt | bulb.py:72 | `str(i)` of any integer reads back through `int()` as `i`, and is canonical: digits without a leading zero for `i >= 0`, and otherwise "-" followed by such digits |
| Decimal.Pad2 | command.py:85 | `"%02d"` of a number below 100 is two digits with that value |
| Decimal.BeforeLineEnd | command.py:75-79 | what `$` lets `re.match` see: the token without its final newline when it ends in one, and the token itself otherwise |
| Dict.Find | command.py:125 | `k in d`: the first position holding `k`, or `None` exactly when `k` is not a key |
| Dict.Get | command.py:67 | `d[k] if k in d else None`: a value exactly when `k` is a key, and that value is the one stored at the first (in a dictionary, the only) position holding `k` |
| Dict.Put | main.py:563-566 | assigning a key replaces an existing key's value in place or appends a new key; other keys keep their values; keys stay distinct |
| Dict.MergeDisjoint | main.py:544-549 | merging dictionaries without common keys appends their entries in order |
| Dict.UnpackDisjoint | main.py:569-575 | `{**a, **b}` without common keys is the entries of `a`, then those of `b` |
| Dict.UnpackThreeDisjoint | main.py:569-575 | the same for three unpacked dictionaries |
| Dict.Merge | main.py:562-575 | `d \|= e` or `{**d, **e}`: the result has at least the entries of `d` and at most one more per entry of `e`, and its keys are exactly those of `d` and `e` |
| Dict.GetMerge | main.py:566 | after `d \|= e`, a key has `e`'s value if `e` has it, and otherwise `d`'s |
| Bulb.Interface | bulb.py:21-62 | a bulb interface offers exactly its own operations and those of the interfaces it extends |
| Bulb.ExtendsIsPartialOrder | bulb.py:39-59 | the interface hierarchy is reflexive, antisymmetric and transitive |
| Bulb.InterfaceGrowsWithExtends | bulb.py:39-62 | a derived interface offers everything its base offers |
| Bulb.SameBulb | bulb.py:323-324 | two providers are equal exactly when they differ at most in their factory (their driver) |
| Bulb.SameBulbIsEquivalence | bulb.py:323-324 | `BulbProvider` equality compares names only; it is an equivalence, and two providers with different factories can be equal |
| Bulb.ToRgb | bulb.py:66-70 | green and blue are in 0..255, red·65536 + green·256 + blue is the input, and red is in 0..255 for inputs below 2^24 |
| Bulb.RgbText | bulb.py:65-72 | the text is three canonical decimal integers (each is what `str()` writes for the value `int()` reads back) joined by ", ", with green and blue in 0..255, and red·65536 + green·256 + blue is the input |
| Bulb.ToRgbOfPack | bulb.py:66-70 | unpacking a packed colour gives its three channels back |
| Bulb.RgbTextExample | bulb.py:65-72 | 65536·255 + 256·61 gives the channels 255, 61, 0 and the text "255, 61, 0" |
| Bulb.BtToggleCall | bulb.py:258-262 | the Bluetooth toggle turns off a lamp that reports on and turns on one that reports off |
| Bulb.BtBrightness | bulb.py:267-276 | the reported mode has no value exactly when it is none of Color, White and Flow and `int()` raises on it; a mode `int()` accepts is read as that number |
| Bulb.BtBrightnessReadsBack | bulb.py:267-276 | the modes Color, White and Flow read as 1, 2 and 3, and a mode written as a number reads back as that number |
| States.Truncate | transition.py:25 | `int()` of a real rounds toward zero: the largest integer not above it when non-negative, the smallest not below it when negative |
| States.Blend | transition.py:24-25 | `_value` is `a·w + b·(1-w)` truncated toward zero: within one below it when it is non-negative and within one above it when negative; so exactly `a` at weight 1, exactly `b` at weight 0, and between `a` and `b` for weights in [0, 1] |
| States.MixBetween | transition.py:25 | before truncation, a weighted mix with a weight in [0, 1] lies between its endpoints |
| States.TruncateMonotone | transition.py:25 | truncation toward zero is monotone |
| States.BlendMonotone | transition.py:24-25 | moving the weight toward `a` moves the blend toward `a` |
| States.Same | main.py:341-343 | `__eq__` holds exactly when the two states are identical apart from the bulb a white state is bound to |
| States.SameIsEquivalence | main.py:341-343 | state equality is an equivalence, and white states with equal temperature and brightness are equal whatever bulb they are bound to |
| States.Avg | main.py:348-352 | `avg` keeps the kind of state and `a`'s bulb, equals `a` at weight 1 and `b` at weight 0, and lies field by field between them for weights in [0, 1]; each field is `_value` of that field of `a` and `b` |
| Transitions.Poll | transition.py:48-57 | the polling loop ticks at most once per clock reading, with progress in [0, 1] and below 1 except on the last tick; it converges exactly when the last tick is at 1, and only at a reading whose progress is at least 1; it raises for a negative progress only at a reading after the ticks whose progress is negative; it divides by zero exactly for an empty interval and at least one reading; it polls every reading when it does not stop |
| Transitions.PollFollowsReadings | transition.py:48-56 | each tick is the progress at the reading taken for it, in order, except that the last tick of a converged run is exactly 1 |
| Transitions.Plan | transition.py:43-57 | `run` ends backwards exactly when the interval ends before it starts, and then ticks once at progress 0; every tick is in [0, 1]; otherwise it ticks at most once per reading |
| Transitions.Step | transition.py:59-66 | a tick keeps the marker consistent: it is empty or a state of the transition's kind |
| Transitions.Replay | transition.py:43-66 | a run of ticks keeps the marker consistent |
| Transitions.StepKeepsMarker | transition.py:59-66 | a tick applies the blend, appending one attempt, exactly when nothing was applied yet or the blend differs from the marker; the marker moves to the blend only when that apply does not raise; afterwards the marker is the last successfully applied state |
| Transitions.FailedApplyIsRetried | transition.py:62-66 | an apply that raises leaves the marker unchanged, so the next tick at the same progress applies the same state again |
| Transitions.ReplaySnoc | transition.py:43-66 | running one more tick is a run followed by that tick |
| Transitions.TargetsBetween | transition.py:59-61 | every state a run aims at lies between the start and the end state |
| Transitions.BackwardsAppliesStart | transition.py:44-47 | an interval that ends before it starts gives one tick at progress 0, which is the start state, and reads no clock |
| Transitions.EmptyIntervalRaises | transition.py:44-50 | an empty interval divides by zero before any tick |
| Transitions.FirstReading | transition.py:48-55 | a first reading before the start raises before any tick; one at or after the end gives one tick at progress 1 and stops |
| Transitions.FinalStep | transition.py:53-66 | a tick at progress 1 whose apply does not raise leaves a marker equal to the end state |
| Transitions.ConvergedEndsAtTarget | transition.py:53-66 | a run that converges, with a last apply that succeeds, leaves the end state as the marker |
| Transitions.Transition.constructor | transition.py:32-41 | a new transition holds its endpoints and has applied nothing |
| Transitions.Transition.Tick | transition.py:59-66 | the new marker and apply log are those of `Step` |
| Transitions.Transition.Run | transition.py:43-57 | the run ends as `Plan` says, and the marker and apply log are those of replaying `Plan`'s ticks |
| Cache.LastSwitch | cache.py:11-19 | the on/off state the cache should hold is none exactly when the bulb completed no `turn_on` or `turn_off` |
| Cache.LastSwitchIsLatest | cache.py:11-19 | a cached on/off state is the one left by a completed switch after which no other switch completed |
| Cache.LastLevel | cache.py:27-35 | the brightness the cache should hold is none exactly when no `white` completed and no `brightness()` read succeeded |
| Cache.LastLevelIsLatest | cache.py:27-35 | a cached brightness is the one set or read by a completed call after which no other level was set or read |
| Cache.ToggleLeavesSwitchCache | cache.py:21-25 | `toggle` and `print_info` do not change what the on/off cache should hold, so it can go stale |
| Cache.CachedBrightBulb.constructor | cache.py:6-9 | a new wrapper has both caches empty and has forwarded nothing |
| Cache.CachedBrightBulb.TurnOn | cache.py:11-14 | forwards only when the cached state is not on, caches on only when the call completes, and leaves the brightness cache alone |
| Cache.CachedBrightBulb.TurnOff | cache.py:16-19 | forwards only when the cached state is not off, caches off only when the call completes, and leaves the brightness cache alone |
| Cache.CachedBrightBulb.Toggle | cache.py:21-22 | always forwards and changes neither cache |
| Cache.CachedBrightBulb.PrintInfo | cache.py:24-25 | always forwards and changes neither cache |
| Cache.CachedBrightBulb.White | cache.py:27-30 | forwards only when the level differs from the cached one, and caches it only when the call completes |
| Cache.CachedBrightBulb.Brightness | cache.py:32-35 | queries the bulb only when nothing is cached, and afterwards returns the cached value without querying |
| Cache.RepeatedWritesAreSuppressed | cache.py:11-35 | on a fresh wrapper, `turn_on`, `turn_on`, `white(40)`, `white(40)`, `brightness()` reach the bulb as exactly one `turn_on` and one `white(40)` |
| Modes.ToState | main.py:260-261 | `to_state` gives a white state bound to the given bulb |
| Modes.ToStateKeepsValues | main.py:256-261 | the state of a white mode applies the same call as the mode, and equals it whatever bulb it is bound to |
| Modes.Apply | main.py:245-332 | only a transition mode runs a transition, from the start mode's state at the start time to the end mode's state at the end time, both bound to the bulb; every other mode makes one or two calls, each of an operation the mode declares it needs |
| Modes.ApplyStaysWithinNeeds | main.py:245-332 | every call a mode makes on a bulb is one its `apply` declares it needs; only transition modes run a transition, from the start mode's state and time to the end mode's state and time |
| Modes.BetweenEndpoints | main.py:270-275 | the between mode at 0 percent applies the start mode's values, at 100 percent the end mode's, and in between values within the two |
| Modes.CallOrder | main.py:282-313 | `StateMode(True)` only turns on, `StateMode(False)` only turns off, and a colour mode turns on before setting the colour |
| Commands.ConvertPercents | command.py:89-94 | a percentage never raises; it is accepted exactly when the token (less one final newline) is all digits with a value of at most 100, and then converts to that value |
| Commands.ConvertTime | command.py:74-82 | an all-digit token is that many seconds since the epoch; nothing matches exactly when the token has none of the three shapes; only `HH:MM` and `HH:MM:SS` can raise, and `HH:MM:SS` always does; an `HH:MM` that converts is an instant of today |
| Commands.Convert | command.py:60-97 | every converted value has the type the argument produces; a choice never raises, converts exactly when the token is a key, and converts to the mode stored under that key |
| Commands.Offers | command.py:69-97 | a choice offers its keys in insertion order, a time one `HH:MM` token, a percentage three digit strings of at most 100 |
| Commands.OffersAreAccepted | command.py:64-97 | every option an argument offers converts: a key to the mode stored under it (keys being distinct), the current minute to today at that time, and a percentage offer to its own value |
| Commands.PercentsOfShow | command.py:89-94 | a number written in decimal is accepted as a percentage exactly when it is at most 100 |
| Commands.TimeOfShow | command.py:75-76 | an all-digit token is a Unix timestamp in seconds |
| Commands.TimeShapes | command.py:77-82 | `HH:MM` is today at that time unless the hour is above 23 or the minute above 59, which raise (the hour first); `HH:MM:SS` always raises; `7:30` matches nothing |
| Commands.PercentExamples | command.py:89-94 | leading zeros are accepted, and 0 is a percentage like any other |
| Commands.PercentEdgeExamples | command.py:89-94 | one final newline after the digits is ignored, and a sign, 101 or an empty token is not accepted |
| Commands.ConvertPrefix | command.py:143-149 | the loop's outcome after a prefix of the tokens: all converted exactly when every token converts, with the converted values in order |
| Commands.Collect | command.py:140-153 | all values exactly when the token count matches and every token converts; an empty listing for too many tokens; the options of the first unfilled position for too few |
| Commands.StopPersists | command.py:143-149 | once a token fails to convert, later tokens are not converted and do not change the outcome |
| Commands.FirstFailureDecides | command.py:143-149 | the first token that fails to convert gives that position's options, and a conversion that raises ends the walk with that exception |
| Commands.CollectArguments | command.py:140-153 | the loop that converts the tokens one by one gives exactly the outcome `Collect` specifies |
| Commands.PerBulb | command.py:152-153 | one `BulbCommand` per bulb, in the bulbs' order, all with the same mode |
| Commands.Resolve | command.py:100-153 | "Unknown option(s)" names a non-empty suffix of the tokens, and a positional-argument node never raises it |
| Commands.ResolveArguments | command.py:140-153 | never "Unknown option(s)"; an empty listing for too many tokens; a command exactly when every position is filled by a token that converts, and then one `BulbCommand` per bulb, in the bulbs' order |
| Commands.SingleResolves | command.py:110-116 | a terminal gives its command for no tokens, an empty listing for exactly `help`, and otherwise "Unknown option(s): " with the tokens |
| Commands.ListResolves | command.py:123-127 | a first token that is a key descends into that child with the remaining tokens; no token or an unknown one lists the keys in insertion order |
| Commands.ArgumentsResolve | command.py:140-153 | too few tokens, all converting, give the next position's options; a command is one per bulb with the mode built from the converted values |
| Commands.ExtraTokensAfterCommand | command.py:110-142 | tokens past a resolved command give an empty listing for `help`, and otherwise an empty listing or "Unknown option(s)" naming exactly those tokens |
| Commands.UnknownFromChild | command.py:123-127 | a named-children node raises "Unknown option(s)" only from inside the child its first token names |
| Commands.UnknownMeansExtraTokens | command.py:110-127 | "Unknown option(s)" names exactly the tokens after a proper prefix that resolves to a command |
| Commands.GetModeNeeds | command.py:164-178 | the modes the transition and between commanders build need only the white call |
| Commands.ResolvedCommandSupported | command.py:100-153 | in a tree whose every node is supported by its bulbs, every command a word list resolves to is supported by the drivers of its bulbs |
| Setup.Dynamic | main.py:556-560 | `transition` then `between`, both positional-argument nodes over the given bulbs and the white modes |
| Setup.AsModes | main.py:544-545 | white modes used as modes keep their keys and values, in order |
| Setup.Singles | main.py:562-565 | a bulb's terminal nodes keep the keys of its modes, in order, each running its mode on that bulb |
| Setup.BothSingles | main.py:569-571 | the root's terminal nodes keep the keys of the common modes, each running its mode on the corridor and then the table |
| Setup.CommonModesUnpacked | main.py:544-549 | unpacking the white modes and adding on, off and toggle gives the common modes: the four white modes, then on, off and toggle, all keys distinct |
| Setup.BulbCommands | main.py:562-567 | a bulb's node is a named-children node whose keys are exactly those of its mode tables together with `transition` and `between` |
| Setup.BulbCommandsLayout | main.py:562-567 | a bulb's node holds its modes in table order, then `transition` and `between` |
| Setup.KeyLists | main.py:531-560 | the table's and the corridor's keys are distinct, and are the keys of their mode tables followed by `transition` and `between` |
| Setup.TableLayout | main.py:573 | the table's node lists red, green, blue, the common modes, info, brightness, transition and between |
| Setup.CorridorLayout | main.py:574 | the corridor's node lists the same without the colour modes |
| Setup.RootKeyList | main.py:569-575 | the root's keys are distinct, so no entry of the merged dictionaries overwrites another |
| Setup.Root | main.py:569-575 | the root is its children without any merge overwriting an entry, keyed day, twilight, evening, night, on, off, toggle, transition, between, table, corridor |
| Setup.BulbNodeSupported | main.py:562-567 | a bulb's node is supported when its driver supports all its modes and the white call |
| Setup.RootNodeSupported | main.py:569-575 | the root is supported when both lamps' nodes are and both drivers support the common modes |
| Setup.SharedModesSupported | main.py:544-554 | a driver offering at least the warm-white interface supports the common and the bulb modes and the white call |
| Setup.ColorModesSupported | main.py:538-554 | a colour driver also supports the colour modes |
| Setup.TableSupported | main.py:573 | every command under `table` is supported when the table bulb's driver is a colour one |
| Setup.CorridorSupported | main.py:574 | every command under `corridor` is supported when the corridor bulb's driver offers warm white |
| Setup.RootSupported | main.py:569-575 | with a colour bulb at the table and a warm-white bulb in the corridor, every node of the tree `main()` builds is supported by its bulbs |
| Setup.MainLamps | main.py:528-529 | the Yeelight `main()` uses is a colour bulb, and its WiZ bulb offers warm white |
| Scenarios.Descend | command.py:123-125 | a key of a node with distinct keys leads into its child with the remaining tokens |
| Scenarios.RootListing | main.py:569-577 | with no tokens, or an unknown first token, the root lists day, twilight, evening, night, on, off, toggle, transition, between, table, corridor |
| Scenarios.TableListing | main.py:573 | `table` alone lists red, green, blue, the common modes, info, brightness, transition and between |
| Scenarios.CorridorListing | main.py:574 | `corridor` alone lists the corridor's entries |
| Scenarios.CorridorLacksColours | main.py:573-574 | the corridor offers the table's entries except the colours red, green and blue, which come first at the table |
| Scenarios.TableOn | main.py:573-577 | `table on` is the command turning the table lamp on |
| Scenarios.TableOnExtra | main.py:456-473 | `table on extra` raises "Unknown option(s): extra", and `table on help` gives an empty listing |
| Scenarios.BothDay | main.py:569-571 | `day` sets the day white on the corridor and then the table |
| Scenarios.CorridorHasNoColours | main.py:574 | `corridor red` lists the corridor's entries instead of running anything |
| Scenarios.BetweenArguments | command.py:169-178 | `day night 50` under a between node builds the between mode at 50 percent for each bulb |
| Scenarios.PerTwoBulbs | command.py:152-153 | a command for two bulbs is one `BulbCommand` for each, in order |
| Scenarios.BetweenDayNight | main.py:569-572 | `between day night 50` sets both lamps halfway between the day and the night white |
| Scenarios.TransitionArguments | command.py:156-166 | after a start mode, a transition node offers the current time as the start time |
| Scenarios.TransitionAsksForTime | main.py:573 | `table transition day` offers the current time |
| Scenarios.RootCommandsSupported | main.py:569-577 | with a colour bulb at the table and a warm-white bulb in the corridor, whatever a command line resolves to, the drivers of its bulbs can perform it |
| ScreenBrightness.TimeOf | screen-brightness.py:35-37 | a time argument converts, matches no shape, or raises, exactly as the time conversion does |
| ScreenBrightness.Start | screen-brightness.py:9-37 | five or more arguments whose levels `int()` reads and whose times convert always start a transition; a started transition runs between brightness states holding the two parsed levels and the two converted times |
| ScreenBrightness.StartReadsBack | screen-brightness.py:9-37 | levels and timestamps written in decimal start a transition between exactly those levels and instants |
| ScreenBrightness.UnconvertibleTimeFails | screen-brightness.py:35-38 | a time token that matches no shape reaches the scheduler as `None`, and the subtraction of the times raises |
| ScreenBrightness.StartedStatesBlend | screen-brightness.py:16-30 | the started states are brightness states; a blend of them is the brightness state of `_value` of the two levels, lies between the levels for weights in [0, 1], and is the start state at weight 1 and the end state at weight 0 |

## Left out

- `MultiCommand.run`: the sub-commands run in separate processes, and each one's exception is logged. This is concurrency. The model stops at the list of bulb commands.
- `parallel.py` and its copy in `main.py` are concurrency and are not part of this model.
- `BulbProvider.get` calls its factory on every call and caches nothing. The model gives each provider a fixed `Driver` value, the driver the factory would discover. Discovery itself is I/O.
- Driver I/O is left out: `Yeelight.get`, `Wiz.get`, the subprocess bridges, `wiz.py`, and the Bluetooth command runner. A bulb is modelled by the calls it receives.
- `Wiz.__convert_brightness` uses float division and half-to-even rounding, so it is left out.
- States.Blend: the weight is an exact real, so float rounding at intermediate weights is not modelled. The results at weights 0 and 1 are the same in both.
- `datetime.now`, time zones and daylight-saving changes are left out. The current time is a `Clock` parameter, and a wall-clock time of today is midnight plus hours and minutes. `fromtimestamp`'s range limits are not modelled.
- Commands.ConvertTime and Commands.ConvertPercents: only ASCII digits are accepted. `int()` and `\d` also accept other Unicode digits.
- Decimal.ParseInt accepts an optional sign and ASCII digits. It does not accept the surrounding whitespace or the underscores that `int()` allows.
- Printing is left out: `OptionsCommand.run`, `err.py` and the top-level `try`/`except` in `main.py`. An options listing is modelled as its list of words, and an error as its message.
- `mode.py` defines only an abstract `apply`, and its import is broken. The mode definitions in `main.py` are used instead.
- Modes.Apply gives the calls a mode makes, in order. If one of them raises, the calls after it are not made; this is not modelled.
- Cache.CachedBrightBulb.White: `white` compares levels with `is not`. This is identity, and behaves as equality only for CPython's small cached integers. The model compares values.
- `BrightnessState.apply` runs an external `brightness` program, and `WhiteState.apply` calls the bulb. Both are modelled as the state that gets applied.
- In `main.py`, `BulbProvider` has no name. The model names the two providers "table" and "corridor", like `bulb.py`'s `BulbProvider`.

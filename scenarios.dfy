/**
 * What the command line resolves to in the tree `main()` builds: the listings, the
 * commands, and the errors a few typical token lists produce.
 */
module Scenarios {
  import opened Wrappers
  import opened Decimal
  import Dict
  import opened Bulb
  import opened Modes
  import opened Commands
  import opened Setup

  /** A key of a named-children node with distinct keys leads into its child. */
  lemma Descend(children: Dict.Dict<Commander>, keys: seq<string>, i: nat, tokens: seq<string>, now: Clock)
    requires ValidClock(now)
    requires Dict.Keys(children) == keys && Distinct(keys) && i < |keys|
    requires |tokens| > 0 && tokens[0] == keys[i]
    ensures Resolve(List(children), tokens, now) == Resolve(children[i].1, tokens[1..], now)
  {
    assert forall j :: 0 <= j < |children| ==> keys[j] == children[j].0;
    Dict.FindFirst(children, keys[i], i);
  }

  /** The table lamp's children: its mode nodes, then its dynamic nodes. */
  function TableChildren(table: Provider): Dict.Dict<Commander> {
    Singles(table, ColorModes() + CommonModes() + BulbModes()) + Dynamic([table])
  }

  /** The corridor lamp's children: its mode nodes, then its dynamic nodes. */
  function CorridorChildren(corridor: Provider): Dict.Dict<Commander> {
    Singles(corridor, CommonModes() + BulbModes()) + Dynamic([corridor])
  }

  lemma RootChild(table: Provider, corridor: Provider, i: nat, tokens: seq<string>, now: Clock)
    requires ValidClock(now) && i < |RootKeys()| && |tokens| > 0 && tokens[0] == RootKeys()[i]
    ensures Resolve(Root(table, corridor), tokens, now) == Resolve(RootChildren(table, corridor)[i].1, tokens[1..], now)
  {
    RootKeyList(table, corridor, TableNode(table), CorridorNode(corridor));
    Descend(RootChildren(table, corridor), RootKeys(), i, tokens, now);
  }

  lemma TableChild(table: Provider, i: nat, tokens: seq<string>, now: Clock)
    requires ValidClock(now) && i < |TableKeys()| && |tokens| > 0 && tokens[0] == TableKeys()[i]
    ensures Resolve(TableNode(table), tokens, now) == Resolve(TableChildren(table)[i].1, tokens[1..], now)
  {
    TableLayout(table);
    KeyLists();
    Descend(TableChildren(table), TableKeys(), i, tokens, now);
  }

  lemma CorridorChild(corridor: Provider, i: nat, tokens: seq<string>, now: Clock)
    requires ValidClock(now) && i < |CorridorKeys()| && |tokens| > 0 && tokens[0] == CorridorKeys()[i]
    ensures Resolve(CorridorNode(corridor), tokens, now) == Resolve(CorridorChildren(corridor)[i].1, tokens[1..], now)
  {
    CorridorLayout(corridor);
    KeyLists();
    Descend(CorridorChildren(corridor), CorridorKeys(), i, tokens, now);
  }

  /** Where the root's children sit. */
  lemma RootChildrenAt(table: Provider, corridor: Provider, tableNode: Commander, corridorNode: Commander)
    ensures var children := RootEntries(table, corridor, tableNode, corridorNode);
      children[0].1 == Single(MultiCommand([BulbCommand(corridor, SetWhite(WhiteMode(2700, 100))),
                                            BulbCommand(table, SetWhite(WhiteMode(2700, 100)))])) &&
      children[8].1 == Arguments([corridor, table], BetweenArgs, WhiteModes()) &&
      children[9].1 == tableNode && children[10].1 == corridorNode
  {
  }

  /** Where the table lamp's children sit. */
  lemma TableChildrenAt(table: Provider)
    ensures TableChildren(table)[7].1 == Single(BulbCommand(table, SetState(true)))
    ensures TableChildren(table)[12].1 == Arguments([table], TransitionArgs, WhiteModes())
  {
  }

  /** The two lamps' own nodes close the root's children. */
  lemma LampsAt(table: Provider, corridor: Provider)
    ensures RootChildren(table, corridor)[9].1 == TableNode(table) && RootChildren(table, corridor)[10].1 == CorridorNode(corridor)
  {
    RootChildrenAt(table, corridor, TableNode(table), CorridorNode(corridor));
  }

  /** `table ...` continues in the table lamp's node. */
  lemma IntoTable(table: Provider, corridor: Provider, rest: seq<string>, now: Clock)
    requires ValidClock(now)
    ensures Resolve(Root(table, corridor), ["table"] + rest, now) == Resolve(TableNode(table), rest, now)
  {
    var tokens := ["table"] + rest;
    assert tokens[0] == RootKeys()[9] && tokens[1..] == rest;
    RootChild(table, corridor, 9, tokens, now);
    LampsAt(table, corridor);
  }

  /** `corridor ...` continues in the corridor lamp's node. */
  lemma IntoCorridor(table: Provider, corridor: Provider, rest: seq<string>, now: Clock)
    requires ValidClock(now)
    ensures Resolve(Root(table, corridor), ["corridor"] + rest, now) == Resolve(CorridorNode(corridor), rest, now)
  {
    var tokens := ["corridor"] + rest;
    assert tokens[0] == RootKeys()[10] && tokens[1..] == rest;
    RootChild(table, corridor, 10, tokens, now);
    LampsAt(table, corridor);
  }

  /** `table on ...` continues in the terminal node turning the table lamp on. */
  lemma IntoTableOn(table: Provider, rest: seq<string>, now: Clock)
    requires ValidClock(now)
    ensures Resolve(TableNode(table), ["on"] + rest, now) == Resolve(Single(BulbCommand(table, SetState(true))), rest, now)
  {
    var tokens := ["on"] + rest;
    assert tokens[0] == TableKeys()[7] && tokens[1..] == rest;
    TableChild(table, 7, tokens, now);
    TableChildrenAt(table);
  }

  /** The token lists below, taken apart. */
  lemma TokenLists()
    ensures ["table"] + ["on"] == ["table", "on"] && ["on"] + [] == ["on"]
    ensures ["table"] + ["on", "extra"] == ["table", "on", "extra"] && ["on"] + ["extra"] == ["on", "extra"]
    ensures ["table"] + ["on", "help"] == ["table", "on", "help"] && ["on"] + ["help"] == ["on", "help"]
    ensures ["extra"] != [] && ["extra"] != ["help"] && |["extra"]| == 1 && ["extra"][0] == "extra"
    ensures "Unknown option(s): " + "extra" == "Unknown option(s): extra"
    ensures RootKeys()[0] == "day" && ["day"][0] == "day" && ["day"][1..] == []
    ensures RootKeys()[8] == "between" && ["between", "day", "night", "50"][0] == "between"
    ensures ["between", "day", "night", "50"][1..] == ["day", "night", "50"]
    ensures ["corridor"] + ["red"] == ["corridor", "red"] && "red" !in CorridorKeys()
    ensures ["table"] + ["transition", "day"] == ["table", "transition", "day"]
    ensures TableKeys()[12] == "transition" && ["transition", "day"][0] == "transition"
    ensures ["transition", "day"][1..] == ["day"]
  {
  }

  /** `table on` turns the table lamp on, and nothing else. */
  lemma TableOn(table: Provider, corridor: Provider, now: Clock)
    requires ValidClock(now)
    ensures Resolve(Root(table, corridor), ["table", "on"], now) == Cmd(BulbCommand(table, SetState(true)))
  {
    IntoTable(table, corridor, ["on"], now);
    IntoTableOn(table, [], now);
    SingleResolves(BulbCommand(table, SetState(true)), [], now);
    TokenLists();
  }

  /** `table on extra` raises "Unknown option(s): extra"; `table on help` lists nothing. */
  lemma TableOnExtra(table: Provider, corridor: Provider, now: Clock)
    requires ValidClock(now)
    ensures Resolve(Root(table, corridor), ["table", "on", "extra"], now) == Unknown(["extra"])
    ensures UnknownMessage(["extra"]) == "Unknown option(s): extra"
    ensures Resolve(Root(table, corridor), ["table", "on", "help"], now) == Options([])
  {
    TokenLists();
    IntoTable(table, corridor, ["on", "extra"], now);
    IntoTableOn(table, ["extra"], now);
    SingleResolves(BulbCommand(table, SetState(true)), ["extra"], now);
    IntoTable(table, corridor, ["on", "help"], now);
    IntoTableOn(table, ["help"], now);
    SingleResolves(BulbCommand(table, SetState(true)), ["help"], now);
  }

  /**
   * With no tokens, or a first token that names nothing, the root lists the common
   * modes, the dynamic nodes and the two lamps, in that order.
   */
  lemma RootListing(table: Provider, corridor: Provider, tokens: seq<string>, now: Clock)
    requires ValidClock(now)
    requires tokens == [] || tokens[0] !in RootKeys()
    ensures Resolve(Root(table, corridor), tokens, now) == Options(RootKeys())
  {
    ListResolves(Root(table, corridor).children, tokens, now);
  }

  /** A named-children node with no tokens lists its keys. */
  lemma ListingOf(node: Commander, keys: seq<string>, now: Clock)
    requires ValidClock(now) && node.List? && Dict.Keys(node.children) == keys
    ensures Resolve(node, [], now) == Options(keys)
  {
  }

  /** `table` alone lists the table lamp's entries, colours first. */
  lemma TableListing(table: Provider, corridor: Provider, now: Clock)
    requires ValidClock(now)
    ensures Resolve(Root(table, corridor), ["table"], now) == Options(TableKeys())
  {
    assert ["table"] + [] == ["table"];
    IntoTable(table, corridor, [], now);
    TableLayout(table);
    ListingOf(TableNode(table), TableKeys(), now);
  }

  /** The corridor lamp offers the table lamp's entries except the three colours. */
  lemma CorridorLacksColours()
    ensures TableKeys()[..3] == ["red", "green", "blue"]
    ensures CorridorKeys() == TableKeys()[3..]
  {
  }

  /** `corridor` alone lists the corridor lamp's entries. */
  lemma CorridorListing(table: Provider, corridor: Provider, now: Clock)
    requires ValidClock(now)
    ensures Resolve(Root(table, corridor), ["corridor"], now) == Options(CorridorKeys())
  {
    assert ["corridor"] + [] == ["corridor"];
    IntoCorridor(table, corridor, [], now);
    CorridorLayout(corridor);
    ListingOf(CorridorNode(corridor), CorridorKeys(), now);
  }

  /** `day` sets both lamps to the day white, the corridor first. */
  lemma BothDay(table: Provider, corridor: Provider, now: Clock)
    requires ValidClock(now)
    ensures Resolve(Root(table, corridor), ["day"], now) ==
      Cmd(MultiCommand([BulbCommand(corridor, SetWhite(WhiteMode(2700, 100))),
                        BulbCommand(table, SetWhite(WhiteMode(2700, 100)))]))
  {
    TokenLists();
    RootChild(table, corridor, 0, ["day"], now);
    RootChildrenAt(table, corridor, TableNode(table), CorridorNode(corridor));
    SingleResolves(MultiCommand([BulbCommand(corridor, SetWhite(WhiteMode(2700, 100))),
                                 BulbCommand(table, SetWhite(WhiteMode(2700, 100)))]), [], now);
  }

  /** The corridor lamp has no colour modes: `corridor red` lists what it does offer. */
  lemma CorridorHasNoColours(table: Provider, corridor: Provider, now: Clock)
    requires ValidClock(now)
    ensures Resolve(Root(table, corridor), ["corridor", "red"], now) == Options(CorridorKeys())
  {
    TokenLists();
    IntoCorridor(table, corridor, ["red"], now);
    CorridorLayout(corridor);
    ListResolves(CorridorNode(corridor).children, ["red"], now);
  }

  /** The tokens `day`, `night` and `50`, converted by the between node's arguments. */
  lemma BetweenTokensConvert(now: Clock)
    requires ValidClock(now)
    ensures var specs := Specs(BetweenArgs, WhiteModes());
      |specs| == 3 &&
      Convert(specs[0], "day", now) == Converts(WhiteArg(WhiteMode(2700, 100))) &&
      Convert(specs[1], "night", now) == Converts(WhiteArg(WhiteMode(1700, 1))) &&
      Convert(specs[2], "50", now) == Converts(PercentArg(50))
  {
    PercentsOfShow(50);
    assert Show(50) == "50";
  }

  /** Halfway between the day and the night white, on any bulbs. */
  lemma BetweenArguments(bulbs: seq<Provider>, now: Clock)
    requires ValidClock(now)
    ensures Resolve(Arguments(bulbs, BetweenArgs, WhiteModes()), ["day", "night", "50"], now) ==
      Cmd(MultiCommand(PerBulb(bulbs, WhiteBetween(WhiteMode(2700, 100), WhiteMode(1700, 1), 50))))
  {
    BetweenTokensConvert(now);
  }

  lemma PerTwoBulbs(first: Provider, second: Provider, mode: Mode)
    ensures PerBulb([first, second], mode) == [BulbCommand(first, mode), BulbCommand(second, mode)]
  {
  }

  /** `between day night 50` sets both lamps halfway between the day and night whites. */
  lemma BetweenDayNight(table: Provider, corridor: Provider, now: Clock)
    requires ValidClock(now)
    ensures Resolve(Root(table, corridor), ["between", "day", "night", "50"], now) ==
      Cmd(MultiCommand([BulbCommand(corridor, WhiteBetween(WhiteMode(2700, 100), WhiteMode(1700, 1), 50)),
                        BulbCommand(table, WhiteBetween(WhiteMode(2700, 100), WhiteMode(1700, 1), 50))]))
  {
    TokenLists();
    RootChild(table, corridor, 8, ["between", "day", "night", "50"], now);
    RootChildrenAt(table, corridor, TableNode(table), CorridorNode(corridor));
    BetweenArguments([corridor, table], now);
    PerTwoBulbs(corridor, table, WhiteBetween(WhiteMode(2700, 100), WhiteMode(1700, 1), 50));
  }

  /** After a start mode, a transition asks for the start time and offers the current minute. */
  lemma TransitionArguments(bulbs: seq<Provider>, now: Clock)
    requires ValidClock(now)
    ensures Resolve(Arguments(bulbs, TransitionArgs, WhiteModes()), ["day"], now) ==
      Options([Pad2(now.hour) + ":" + Pad2(now.minute)])
  {
    var specs := Specs(TransitionArgs, WhiteModes());
    assert Convert(specs[0], ["day"][0], now) == Converts(WhiteArg(WhiteMode(2700, 100)));
  }

  /** `table transition day` asks for the start time and offers the current minute. */
  lemma TransitionAsksForTime(table: Provider, corridor: Provider, now: Clock)
    requires ValidClock(now)
    ensures Resolve(Root(table, corridor), ["table", "transition", "day"], now) ==
      Options([Pad2(now.hour) + ":" + Pad2(now.minute)])
  {
    TokenLists();
    IntoTable(table, corridor, ["transition", "day"], now);
    TableChild(table, 12, ["transition", "day"], now);
    TableChildrenAt(table);
    TransitionArguments([table], now);
  }

  /** Whatever the command line resolves to in the tree `main()` builds, its bulbs can perform it. */
  lemma RootCommandsSupported(table: Provider, corridor: Provider, tokens: seq<string>, now: Clock)
    requires CapabilityOf(table.driver) == Color && Extends(CapabilityOf(corridor.driver), BrightWarm)
    requires ValidClock(now) && Resolve(Root(table, corridor), tokens, now).Cmd?
    ensures CommandSupported(Resolve(Root(table, corridor), tokens, now).command)
  {
    RootSupported(table, corridor);
    ResolvedCommandSupported(Root(table, corridor), tokens, now);
  }
}

/**
 * The command tree `main()` builds: the two bulbs, the mode tables, and the nested
 * named-children nodes with the positional-argument nodes below them.
 */
module Setup {
  import opened Wrappers
  import opened Decimal
  import Dict
  import opened Bulb
  import opened Modes
  import opened Commands

  /** The desk lamp `main()` uses: a Yeelight found by discovery on the local network. */
  function Table(): Provider {
    Provider("table", Yeelight)
  }

  /** The corridor lamp `main()` uses: a WiZ bulb addressed by its MAC address. */
  function Corridor(): Provider {
    Provider("corridor", Wiz("d8a0110a1bd4"))
  }

  function WhiteModes(): Dict.Dict<WhiteMode> {
    [("day", WhiteMode(2700, 100)), ("twilight", WhiteMode(2700, 60)),
     ("evening", WhiteMode(2700, 30)), ("night", WhiteMode(1700, 1))]
  }

  function ColorModes(): Dict.Dict<Mode> {
    [("red", ColorMode(255, 61, 0, 1)), ("green", ColorMode(155, 255, 0, 1)), ("blue", ColorMode(0, 254, 255, 1))]
  }

  /** White modes used where any mode may stand. */
  function AsModes(whites: Dict.Dict<WhiteMode>): (d: Dict.Dict<Mode>)
    ensures Dict.Keys(d) == Dict.Keys(whites)
    ensures forall i :: 0 <= i < |d| ==> d[i].1 == SetWhite(whites[i].1)
  {
    seq(|whites|, i requires 0 <= i < |whites| => (whites[i].0, SetWhite(whites[i].1)))
  }

  /** The switching entries of the common modes. */
  function SwitchModes(): Dict.Dict<Mode> {
    [("on", SetState(true)), ("off", SetState(false)), ("toggle", ToggleMode)]
  }

  /** The common modes: the four white modes, then on, off and toggle. */
  function CommonModes(): Dict.Dict<Mode> {
    [("day", SetWhite(WhiteMode(2700, 100))), ("twilight", SetWhite(WhiteMode(2700, 60))),
     ("evening", SetWhite(WhiteMode(2700, 30))), ("night", SetWhite(WhiteMode(1700, 1))),
     ("on", SetState(true)), ("off", SetState(false)), ("toggle", ToggleMode)]
  }

  function BulbModes(): Dict.Dict<Mode> {
    [("info", InfoMode), ("brightness", BrightnessInfoMode)]
  }

  /** `dynamic_commander`: the transition and between nodes over the given bulbs. */
  function Dynamic(bulbs: seq<Provider>): (d: Dict.Dict<Commander>)
    ensures Dict.Keys(d) == ["transition", "between"]
    ensures forall i :: 0 <= i < |d| ==> d[i].1.Arguments? && d[i].1.bulbs == bulbs && d[i].1.modes == WhiteModes()
    ensures d[0].1.kind == TransitionArgs && d[1].1.kind == BetweenArgs
  {
    [("transition", Arguments(bulbs, TransitionArgs, WhiteModes())),
     ("between", Arguments(bulbs, BetweenArgs, WhiteModes()))]
  }

  /** The entries of several dictionaries one after another, as a nested comprehension visits them. */
  function Concat(tables: seq<Dict.Dict<Mode>>): Dict.Dict<Mode> {
    if tables == [] then [] else Concat(tables[..|tables| - 1]) + tables[|tables| - 1]
  }

  /** Each mode as a terminal node running it on one bulb. */
  function Singles(bulb: Provider, modes: Dict.Dict<Mode>): (d: Dict.Dict<Commander>)
    ensures Dict.Keys(d) == Dict.Keys(modes)
    ensures forall i :: 0 <= i < |d| ==> d[i].1 == Single(BulbCommand(bulb, modes[i].1))
  {
    seq(|modes|, i requires 0 <= i < |modes| => (modes[i].0, Single(BulbCommand(bulb, modes[i].1))))
  }

  /** Each mode as a terminal node running it on two bulbs, `first` first. */
  function BothSingles(first: Provider, second: Provider, modes: Dict.Dict<Mode>): (d: Dict.Dict<Commander>)
    ensures Dict.Keys(d) == Dict.Keys(modes)
    ensures forall i :: 0 <= i < |d| ==>
      d[i].1 == Single(MultiCommand([BulbCommand(first, modes[i].1), BulbCommand(second, modes[i].1)]))
  {
    seq(|modes|, i requires 0 <= i < |modes| =>
      (modes[i].0, Single(MultiCommand([BulbCommand(first, modes[i].1), BulbCommand(second, modes[i].1)]))))
  }

  /** `bulb_commands`: the modes of the given tables on one bulb, then its dynamic nodes. */
  function BulbCommands(bulb: Provider, tables: seq<Dict.Dict<Mode>>): (node: Commander)
    ensures node.List?
    ensures forall k :: k in Dict.Keys(node.children) <==>
      k in Dict.Keys(Concat(tables)) || k in ["transition", "between"]
  {
    var singles := Singles(bulb, Concat(tables));
    var dynamic := Dynamic([bulb]);
    MergedKeys(singles, dynamic);
    List(Dict.Merge(Dict.Merge([], singles), dynamic))
  }

  /** The keys of two dictionaries unpacked into one are those of either. */
  lemma MergedKeys<V>(a: Dict.Dict<V>, b: Dict.Dict<V>)
    ensures forall k :: k in Dict.Keys(Dict.Merge(Dict.Merge([], a), b)) <==> k in Dict.Keys(a) || k in Dict.Keys(b)
  {
  }

  /** The table lamp's node: colour, common and bulb modes. */
  function TableNode(table: Provider): Commander {
    BulbCommands(table, [ColorModes(), CommonModes(), BulbModes()])
  }

  /** The corridor lamp's node: common and bulb modes, no colours. */
  function CorridorNode(corridor: Provider): Commander {
    BulbCommands(corridor, [CommonModes(), BulbModes()])
  }

  /**
   * The root of the tree `main()` builds over its two bulb handles: the common modes on
   * both (corridor first), the dynamic nodes over both, and each lamp's own node. No
   * key repeats, so no merge overwrites an entry and the keys keep this order.
   */
  function Root(table: Provider, corridor: Provider): (node: Commander)
    ensures node == List(RootChildren(table, corridor))
    ensures Dict.Keys(node.children) == RootKeys()
  {
    RootKeyList(table, corridor, TableNode(table), CorridorNode(corridor));
    Dict.DistinctFromKeys(RootChildren(table, corridor), RootKeys());
    Dict.UnpackThreeDisjoint(BothSingles(corridor, table, CommonModes()), Dynamic([corridor, table]),
                             [("table", TableNode(table)), ("corridor", CorridorNode(corridor))]);
    List(Dict.Merge(Dict.Merge(Dict.Merge([], BothSingles(corridor, table, CommonModes())), Dynamic([corridor, table])),
                    [("table", TableNode(table)), ("corridor", CorridorNode(corridor))]))
  }

  lemma WhitesAsModes()
    ensures AsModes(WhiteModes()) + SwitchModes() == CommonModes()
  {
  }

  lemma CommonKeysDistinct()
    ensures Dict.DistinctKeys(CommonModes())
  {
    var keys := ["day", "twilight", "evening", "night", "on", "off", "toggle"];
    assert Dict.Keys(CommonModes()) == keys;
    Dict.DistinctFromKeys(CommonModes(), keys);
  }

  /**
   * `{**white_modes, "on": ..., "off": ..., "toggle": ...}` builds the common modes: the
   * white modes as modes, then the three switching entries, with no key repeated.
   */
  lemma CommonModesUnpacked()
    ensures Dict.Merge(Dict.Merge([], AsModes(WhiteModes())), SwitchModes()) == CommonModes()
    ensures Dict.DistinctKeys(CommonModes())
  {
    WhitesAsModes();
    CommonKeysDistinct();
    Dict.UnpackDisjoint(AsModes(WhiteModes()), SwitchModes());
  }

  /** No key repeats in a key list. */
  predicate Distinct(keys: seq<string>) {
    forall i, j :: 0 <= i < j < |keys| ==> keys[i] != keys[j]
  }

  /** A bulb's node holds its modes in table order, then its dynamic nodes. */
  lemma BulbCommandsLayout(bulb: Provider, tables: seq<Dict.Dict<Mode>>, modes: Dict.Dict<Mode>, keys: seq<string>)
    requires Concat(tables) == modes
    requires Dict.Keys(modes) + ["transition", "between"] == keys && Distinct(keys)
    ensures BulbCommands(bulb, tables) == List(Singles(bulb, modes) + Dynamic([bulb]))
    ensures Dict.Keys(BulbCommands(bulb, tables).children) == keys
  {
    var singles := Singles(bulb, modes);
    Dict.KeysAppend(singles, Dynamic([bulb]));
    Dict.DistinctFromKeys(singles + Dynamic([bulb]), keys);
    Dict.UnpackDisjoint(singles, Dynamic([bulb]));
  }

  function TableKeys(): seq<string> {
    ["red", "green", "blue", "day", "twilight", "evening", "night", "on", "off", "toggle",
     "info", "brightness", "transition", "between"]
  }

  function CorridorKeys(): seq<string> {
    ["day", "twilight", "evening", "night", "on", "off", "toggle", "info", "brightness", "transition", "between"]
  }

  lemma KeyLists()
    ensures Distinct(TableKeys()) && Distinct(CorridorKeys())
    ensures Dict.Keys(ColorModes() + CommonModes() + BulbModes()) + ["transition", "between"] == TableKeys()
    ensures Dict.Keys(CommonModes() + BulbModes()) + ["transition", "between"] == CorridorKeys()
  {
  }

  /** A comprehension over three dictionaries visits their entries one after another. */
  lemma ConcatThree(a: Dict.Dict<Mode>, b: Dict.Dict<Mode>, c: Dict.Dict<Mode>)
    ensures Concat([a, b, c]) == a + b + c
  {
    ConcatTwo(a, b);
    assert [a, b, c][..2] == [a, b];
  }

  /** A comprehension over two dictionaries visits their entries one after another. */
  lemma ConcatTwo(a: Dict.Dict<Mode>, b: Dict.Dict<Mode>)
    ensures Concat([a, b]) == a + b
  {
    assert Concat([a]) == a by {
      assert [a][..0] == [] && [] + a == a;
    }
    assert [a, b][..1] == [a];
  }

  lemma TableModes()
    ensures Concat([ColorModes(), CommonModes(), BulbModes()]) == ColorModes() + CommonModes() + BulbModes()
  {
    ConcatThree(ColorModes(), CommonModes(), BulbModes());
  }

  lemma CorridorModes()
    ensures Concat([CommonModes(), BulbModes()]) == CommonModes() + BulbModes()
  {
    ConcatTwo(CommonModes(), BulbModes());
  }

  /** The table lamp's node: colour modes, common modes, bulb modes, then transition and between. */
  lemma TableLayout(table: Provider)
    ensures TableNode(table) == List(Singles(table, ColorModes() + CommonModes() + BulbModes()) + Dynamic([table]))
    ensures Dict.Keys(TableNode(table).children) == TableKeys()
  {
    TableModes();
    KeyLists();
    BulbCommandsLayout(table, [ColorModes(), CommonModes(), BulbModes()],
                       ColorModes() + CommonModes() + BulbModes(), TableKeys());
  }

  /** The corridor lamp's node: common modes, bulb modes, then transition and between. */
  lemma CorridorLayout(corridor: Provider)
    ensures CorridorNode(corridor) == List(Singles(corridor, CommonModes() + BulbModes()) + Dynamic([corridor]))
    ensures Dict.Keys(CorridorNode(corridor).children) == CorridorKeys()
  {
    CorridorModes();
    KeyLists();
    BulbCommandsLayout(corridor, [CommonModes(), BulbModes()], CommonModes() + BulbModes(), CorridorKeys());
  }

  function RootKeys(): seq<string> {
    ["day", "twilight", "evening", "night", "on", "off", "toggle", "transition", "between", "table", "corridor"]
  }

  /** The root's children, with lamp nodes given: the merged dictionaries without the merges. */
  function RootEntries(table: Provider, corridor: Provider, tableNode: Commander, corridorNode: Commander)
    : Dict.Dict<Commander>
  {
    BothSingles(corridor, table, CommonModes()) + Dynamic([corridor, table]) +
    [("table", tableNode), ("corridor", corridorNode)]
  }

  /** The root's children: all keys distinct, so no merge overwrites an entry. */
  function RootChildren(table: Provider, corridor: Provider): Dict.Dict<Commander> {
    RootEntries(table, corridor, TableNode(table), CorridorNode(corridor))
  }

  lemma RootKeyList(table: Provider, corridor: Provider, tableNode: Commander, corridorNode: Commander)
    ensures Distinct(RootKeys())
    ensures Dict.Keys(RootEntries(table, corridor, tableNode, corridorNode)) == RootKeys()
  {
    var singles := BothSingles(corridor, table, CommonModes());
    Dict.KeysAppend(singles, Dynamic([corridor, table]));
    Dict.KeysAppend(singles + Dynamic([corridor, table]), [("table", tableNode), ("corridor", corridorNode)]);
  }

  /** Every mode in the table needs only operations the driver offers. */
  predicate ModesSupported(driver: Driver, modes: Dict.Dict<Mode>) {
    forall i :: 0 <= i < |modes| ==> forall op :: op in Needs(modes[i].1) ==> Supports(driver, op)
  }

  /** Every child of a named-children node is supported. */
  predicate ChildrenSupported(children: Dict.Dict<Commander>) {
    forall i :: 0 <= i < |children| ==> NodeSupported(children[i].1)
  }

  lemma ChildrenSupportedAppend(a: Dict.Dict<Commander>, b: Dict.Dict<Commander>)
    requires ChildrenSupported(a) && ChildrenSupported(b)
    ensures ChildrenSupported(a + b)
  {
    forall i | 0 <= i < |a + b| ensures NodeSupported((a + b)[i].1) {
      if i >= |a| {
        assert (a + b)[i] == b[i - |a|];
      }
    }
  }

  lemma SinglesSupported(bulb: Provider, modes: Dict.Dict<Mode>)
    requires ModesSupported(bulb.driver, modes)
    ensures ChildrenSupported(Singles(bulb, modes))
  {
    var d := Singles(bulb, modes);
    forall i | 0 <= i < |d| ensures NodeSupported(d[i].1) {
      assert d[i].1 == Single(BulbCommand(bulb, modes[i].1));
    }
  }

  lemma BothSinglesSupported(first: Provider, second: Provider, modes: Dict.Dict<Mode>)
    requires ModesSupported(first.driver, modes) && ModesSupported(second.driver, modes)
    ensures ChildrenSupported(BothSingles(first, second, modes))
  {
    var d := BothSingles(first, second, modes);
    forall i | 0 <= i < |d| ensures NodeSupported(d[i].1) {
      var m := modes[i].1;
      assert d[i].1 == Single(MultiCommand([BulbCommand(first, m), BulbCommand(second, m)]));
      assert CommandSupported(BulbCommand(first, m)) && CommandSupported(BulbCommand(second, m));
    }
  }

  lemma DynamicSupported(bulbs: seq<Provider>)
    requires forall i :: 0 <= i < |bulbs| ==> Supports(bulbs[i].driver, WhiteWarmOp)
    ensures ChildrenSupported(Dynamic(bulbs))
  {
  }

  lemma BulbNodeSupported(bulb: Provider, modes: Dict.Dict<Mode>, node: Commander)
    requires ModesSupported(bulb.driver, modes) && Supports(bulb.driver, WhiteWarmOp)
    requires node == List(Singles(bulb, modes) + Dynamic([bulb]))
    ensures NodeSupported(node)
  {
    SinglesSupported(bulb, modes);
    DynamicSupported([bulb]);
    ChildrenSupportedAppend(Singles(bulb, modes), Dynamic([bulb]));
  }

  lemma RootNodeSupported(table: Provider, corridor: Provider, tableNode: Commander, corridorNode: Commander)
    requires NodeSupported(tableNode) && NodeSupported(corridorNode)
    requires ModesSupported(table.driver, CommonModes()) && ModesSupported(corridor.driver, CommonModes())
    requires Supports(table.driver, WhiteWarmOp) && Supports(corridor.driver, WhiteWarmOp)
    ensures NodeSupported(List(RootEntries(table, corridor, tableNode, corridorNode)))
  {
    var singles := BothSingles(corridor, table, CommonModes());
    var lamps := [("table", tableNode), ("corridor", corridorNode)];
    BothSinglesSupported(corridor, table, CommonModes());
    DynamicSupported([corridor, table]);
    assert ChildrenSupported(lamps);
    ChildrenSupportedAppend(singles, Dynamic([corridor, table]));
    ChildrenSupportedAppend(singles + Dynamic([corridor, table]), lamps);
  }

  /** A driver supports the modes of appended tables when it supports those of each. */
  lemma ModesSupportedAppend(driver: Driver, m1: Dict.Dict<Mode>, m2: Dict.Dict<Mode>)
    requires ModesSupported(driver, m1) && ModesSupported(driver, m2)
    ensures ModesSupported(driver, m1 + m2)
  {
    forall i | 0 <= i < |m1 + m2| ensures forall op :: op in Needs((m1 + m2)[i].1) ==> Supports(driver, op) {
      if i < |m1| {
        assert (m1 + m2)[i] == m1[i];
      } else {
        assert (m1 + m2)[i] == m2[i - |m1|];
      }
    }
  }

  /** A warm-white bulb (a WiZ bulb or any colour bulb) supports the common and the bulb modes. */
  lemma SharedModesSupported(driver: Driver)
    requires Extends(CapabilityOf(driver), BrightWarm)
    ensures ModesSupported(driver, CommonModes()) && ModesSupported(driver, BulbModes())
    ensures Supports(driver, WhiteWarmOp)
  {
    InterfaceGrowsWithExtends(CapabilityOf(driver), BrightWarm);
    var ops := Interface(BrightWarm);
    ModesWithin(driver, CommonModes(), ops);
    ModesWithin(driver, BulbModes(), ops);
  }

  /** A driver supports a table of modes whose needs lie within operations it offers. */
  lemma ModesWithin(driver: Driver, modes: Dict.Dict<Mode>, ops: set<Op>)
    requires ops <= Interface(CapabilityOf(driver))
    requires forall i :: 0 <= i < |modes| ==> Needs(modes[i].1) <= ops
    ensures ModesSupported(driver, modes)
  {
  }

  /** A colour bulb supports the colour modes too. */
  lemma ColorModesSupported(driver: Driver)
    requires CapabilityOf(driver) == Color
    ensures ModesSupported(driver, ColorModes() + CommonModes() + BulbModes())
  {
    SharedModesSupported(driver);
    assert ModesSupported(driver, ColorModes());
    ModesSupportedAppend(driver, ColorModes(), CommonModes());
    ModesSupportedAppend(driver, ColorModes() + CommonModes(), BulbModes());
  }

  /** Every command under the table lamp's node is supported by a colour bulb. */
  lemma TableSupported(table: Provider)
    requires CapabilityOf(table.driver) == Color
    ensures NodeSupported(TableNode(table))
  {
    TableLayout(table);
    ColorModesSupported(table.driver);
    SharedModesSupported(table.driver);
    BulbNodeSupported(table, ColorModes() + CommonModes() + BulbModes(), TableNode(table));
  }

  /** Every command under the corridor lamp's node is supported by a warm-white bulb. */
  lemma CorridorSupported(corridor: Provider)
    requires Extends(CapabilityOf(corridor.driver), BrightWarm)
    ensures NodeSupported(CorridorNode(corridor))
  {
    SharedModesSupported(corridor.driver);
    ModesSupportedAppend(corridor.driver, CommonModes(), BulbModes());
    CorridorLayout(corridor);
    BulbNodeSupported(corridor, CommonModes() + BulbModes(), CorridorNode(corridor));
  }

  /**
   * The tree `main()` builds is type-correct: with a colour bulb on the table and a
   * warm-white bulb in the corridor, no token list resolves to a command that applies
   * a mode its bulb cannot perform (the corridor lamp is offered no colours).
   */
  lemma RootSupported(table: Provider, corridor: Provider)
    requires CapabilityOf(table.driver) == Color
    requires Extends(CapabilityOf(corridor.driver), BrightWarm)
    ensures NodeSupported(Root(table, corridor))
  {
    TableSupported(table);
    CorridorSupported(corridor);
    SharedModesSupported(table.driver);
    SharedModesSupported(corridor.driver);
    RootNodeSupported(table, corridor, TableNode(table), CorridorNode(corridor));
  }

  /** The lamps `main()` uses are a colour bulb and a warm-white bulb. */
  lemma MainLamps()
    ensures CapabilityOf(Table().driver) == Color
    ensures Extends(CapabilityOf(Corridor().driver), BrightWarm)
  {
  }
}

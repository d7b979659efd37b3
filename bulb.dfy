/**
 * The device capability model: the capability interfaces a bulb driver implements,
 * the calls a mode can make on a bulb, the named bulb handles, the packed-RGB helper
 * and the decisions the Bluetooth Yeelight driver takes on the state it reads back.
 */
module Bulb {
  import opened Wrappers
  import opened Decimal

  /**
   * The capability interfaces: `SwitchableBulb`, `BrightBulb` and `BrightWarmBulb`
   * (both extending `SwitchableBulb`), and `ColorBulb` (extending `BrightWarmBulb`).
   */
  datatype Capability = Switchable | Bright | BrightWarm | Color

  /** `sub` is the interface `sup` or inherits from it. */
  predicate Extends(sub: Capability, sup: Capability) {
    sub == sup || sup == Switchable || (sub == Color && sup == BrightWarm)
  }

  /** The kinds of call a bulb interface can declare. */
  datatype Op =
    | TurnOnOp | TurnOffOp | ToggleOp | PrintInfoOp
    | WhiteOp          // white(brightness) of BrightBulb
    | WhiteWarmOp      // white(temperature, brightness) of BrightWarmBulb
    | ColorOp
    | BrightnessOp

  /** The operations each interface declares itself (not those it inherits). */
  function Declares(c: Capability): set<Op> {
    match c
    case Switchable => {TurnOnOp, TurnOffOp, ToggleOp, PrintInfoOp}
    case Bright => {WhiteOp, BrightnessOp}
    case BrightWarm => {WhiteWarmOp, BrightnessOp}
    case Color => {ColorOp}
  }

  /** Everything a bulb implementing `c` offers: its own operations and its bases'. */
  function Interface(c: Capability): (ops: set<Op>)
    ensures forall s :: Extends(c, s) ==> Declares(s) <= ops
    ensures forall op :: op in ops ==> exists s :: Extends(c, s) && op in Declares(s)
  {
    match c
    case Switchable => Declares(Switchable)
    case Bright => Declares(Switchable) + Declares(Bright)
    case BrightWarm => Declares(Switchable) + Declares(BrightWarm)
    case Color => Declares(Switchable) + Declares(BrightWarm) + Declares(Color)
  }

  /** Inheritance is a partial order. */
  lemma ExtendsIsPartialOrder(a: Capability, b: Capability, c: Capability)
    ensures Extends(a, a)
    ensures Extends(a, b) && Extends(b, a) ==> a == b
    ensures Extends(a, b) && Extends(b, c) ==> Extends(a, c)
  {
  }

  /** A derived interface offers at least what its base offers. */
  lemma {:induction false} InterfaceGrowsWithExtends(sub: Capability, sup: Capability)
    requires Extends(sub, sup)
    ensures Interface(sup) <= Interface(sub)
  {
    forall op | op in Interface(sup) ensures op in Interface(sub) {
      var s :| Extends(sup, s) && op in Declares(s);
      ExtendsIsPartialOrder(sub, sup, s);
    }
  }

  /** A call as the bulb receives it, with its arguments. */
  datatype Call =
    | TurnOn
    | TurnOff
    | Toggle
    | PrintInfo
    | White(brightness: int)
    | WhiteWarm(temperature: int, brightness: int)
    | SetColor(red: int, green: int, blue: int, level: int)
    | ReadBrightness

  function OpOf(c: Call): Op {
    match c
    case TurnOn => TurnOnOp
    case TurnOff => TurnOffOp
    case Toggle => ToggleOp
    case PrintInfo => PrintInfoOp
    case White(_) => WhiteOp
    case WhiteWarm(_, _) => WhiteWarmOp
    case SetColor(_, _, _, _) => ColorOp
    case ReadBrightness => BrightnessOp
  }

  /**
   * The concrete drivers and what each `get` would discover: a Yeelight on the local
   * network, a WiZ bulb with a given MAC address, a Bluetooth Yeelight with a given MAC.
   */
  datatype Driver = Yeelight | Wiz(mac: string) | YeelightBt(btMac: string)

  /** The interface each driver class declares it implements. */
  function CapabilityOf(d: Driver): Capability {
    match d
    case Yeelight => Color
    case Wiz(_) => BrightWarm
    case YeelightBt(_) => Bright
  }

  predicate Supports(d: Driver, op: Op) {
    op in Interface(CapabilityOf(d))
  }

  /** `BulbProvider`: a name and the driver its factory discovers on every `get`. */
  datatype Provider = Provider(name: string, driver: Driver)

  /** `BulbProvider.__eq__`: two providers are equal when their names are. */
  predicate SameBulb(p: Provider, q: Provider)
    ensures SameBulb(p, q) <==> p.(driver := q.driver) == q
  {
    p.name == q.name
  }

  /** Equality by name is an equivalence that ignores the factory. */
  lemma SameBulbIsEquivalence(p: Provider, q: Provider, r: Provider)
    ensures SameBulb(p, p)
    ensures SameBulb(p, q) <==> SameBulb(q, p)
    ensures SameBulb(p, q) && SameBulb(q, r) ==> SameBulb(p, r)
    ensures p.name == q.name && p.driver != q.driver ==> SameBulb(p, q) && p != q
  {
  }

  /** The three colour channels of a packed RGB value. */
  datatype Rgb = Rgb(red: int, green: int, blue: int)

  /**
   * `ColorBulb.to_rgb` before formatting: base-256 digit extraction. `math.floor`
   * of a division by a power of two is Dafny's `/` for a positive divisor.
   */
  function ToRgb(rgb: int): (c: Rgb)
    ensures 0 <= c.green < 256 && 0 <= c.blue < 256
    ensures c.red * 65536 + c.green * 256 + c.blue == rgb
    ensures 0 <= rgb < 0x100_0000 ==> 0 <= c.red < 256
  {
    var red := rgb / 256 / 256;
    var afterRed := rgb - red * 256 * 256;
    var green := afterRed / 256;
    var blue := afterRed - green * 256;
    Rgb(red, green, blue)
  }

  /** Packing three channels, the inverse of `ToRgb`. */
  function Pack(c: Rgb): int {
    c.red * 65536 + c.green * 256 + c.blue
  }

  /** Unpacking a packed colour gives its channels back. */
  lemma {:induction false} ToRgbOfPack(c: Rgb)
    requires 0 <= c.green < 256 && 0 <= c.blue < 256
    ensures ToRgb(Pack(c)) == c
  {
    var d := ToRgb(Pack(c));
    var x := c.green * 256 + c.blue;
    assert 0 <= x < 65536;
    assert Pack(c) == c.red * 65536 + x;
    assert Pack(c) / 65536 == c.red;
    assert Pack(c) / 256 / 256 == Pack(c) / 65536;
    assert d.red == c.red;
    assert x / 256 == c.green;
  }

  /** `ColorBulb.to_rgb`: the three channels as decimal numbers joined by ", ". */
  function RgbText(rgb: int): (s: string)
    ensures exists red, green, blue ::
              s == red + ", " + green + ", " + blue &&
              Canonical(red) && Canonical(green) && Canonical(blue) &&
              0 <= ParseInt(green).value < 256 && 0 <= ParseInt(blue).value < 256 &&
              ParseInt(red).value * 65536 + ParseInt(green).value * 256 + ParseInt(blue).value == rgb
  {
    var c := ToRgb(rgb);
    var red := ShowInt(c.red);
    var green := ShowInt(c.green);
    var blue := ShowInt(c.blue);
    assert ParseInt(red) == Some(c.red) && ParseInt(green) == Some(c.green) && ParseInt(blue) == Some(c.blue);
    assert Canonical(red) && Canonical(green) && Canonical(blue);
    red + ", " + green + ", " + blue
  }

  /** The text of a packed colour is its three channels in decimal, in order. */
  lemma RgbTextOfPack(c: Rgb)
    requires 0 <= c.green < 256 && 0 <= c.blue < 256
    ensures RgbText(Pack(c)) == ShowInt(c.red) + ", " + ShowInt(c.green) + ", " + ShowInt(c.blue)
  {
    ToRgbOfPack(c);
  }

  /** The channels of the example colour, written in decimal. */
  lemma ChannelTexts()
    ensures ShowInt(255) == "255" && ShowInt(61) == "61" && ShowInt(0) == "0"
  {
    assert Show(25) == "25";
    assert Show(6) == "6";
  }

  /** The example colour's text, channel by channel. */
  lemma ExampleChannels(rgb: int)
    requires rgb == Pack(Rgb(255, 61, 0))
    ensures RgbText(rgb) == ShowInt(255) + ", " + ShowInt(61) + ", " + ShowInt(0)
  {
    RgbTextOfPack(Rgb(255, 61, 0));
  }

  lemma ExampleText(rgb: int)
    requires RgbText(rgb) == ShowInt(255) + ", " + ShowInt(61) + ", " + ShowInt(0)
    ensures RgbText(rgb) == "255, 61, 0"
  {
    ChannelTexts();
    JoinChannels(ShowInt(255), ShowInt(61), ShowInt(0));
  }

  /** The example's three channel texts joined by commas. */
  lemma JoinChannels(red: string, green: string, blue: string)
    requires red == "255" && green == "61" && blue == "0"
    ensures red + ", " + green + ", " + blue == "255, 61, 0"
  {
  }

  /** 65536·255 + 256·61 is the orange of the red mode: "255, 61, 0". */
  lemma RgbTextExample(rgb: int)
    requires rgb == 65536 * 255 + 256 * 61
    ensures ToRgb(rgb) == Rgb(255, 61, 0)
    ensures RgbText(rgb) == "255, 61, 0"
  {
    assert rgb == Pack(Rgb(255, 61, 0));
    ToRgbOfPack(Rgb(255, 61, 0));
    ExampleChannels(rgb);
    ExampleText(rgb);
  }

  /** What a call does to the on/off state a bulb reports. */
  function SwitchEffect(c: Call, isOn: bool): bool {
    match c
    case TurnOn => true
    case TurnOff => false
    case _ => isOn
  }

  /** `YeelightBt.toggle`: the call it makes after reading whether the lamp is on. */
  function BtToggleCall(isOn: bool): (c: Call)
    ensures c == TurnOn || c == TurnOff
    ensures SwitchEffect(c, isOn) == !isOn
  {
    if isOn then TurnOff else TurnOn
  }

  /**
   * `YeelightBt.brightness`: the mode the lamp reports, mapped through the three
   * named modes and otherwise parsed with `int()`; `None` where `int()` raises.
   */
  function BtBrightness(mode: string): (r: Option<int>)
    ensures r.None? <==> ParseInt(mode).None? && mode != "Color" && mode != "White" && mode != "Flow"
    ensures ParseInt(mode).Some? ==> r == ParseInt(mode)
  {
    if mode == "Color" then Some(1)
    else if mode == "White" then Some(2)
    else if mode == "Flow" then Some(3)
    else ParseInt(mode)
  }

  /**
   * The named modes read as 1, 2 and 3, and a reported mode that is a number is read
   * back as that number.
   */
  lemma {:induction false} BtBrightnessReadsBack(i: int)
    ensures BtBrightness("Color") == Some(1)
    ensures BtBrightness("White") == Some(2)
    ensures BtBrightness("Flow") == Some(3)
    ensures BtBrightness(ShowInt(i)) == Some(i)
  {
    var s := ShowInt(i);
    assert ParseInt(s) == Some(i);
    if i < 0 {
      assert s[0] == '-';
    } else {
      assert IsDigit(s[0]);
    }
    assert s != "Color" && s != "White" && s != "Flow" by {
      assert "Color"[0] == 'C' && "White"[0] == 'W' && "Flow"[0] == 'F';
    }
  }
}

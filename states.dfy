/**
 * Interpolable states: the weighted blend of two integers, and the two concrete
 * states a transition drives — a white bulb's temperature and brightness, and a
 * screen's brightness.
 */
module States {
  import opened Bulb

  /** Python's `int(x)` on a number: truncation toward zero. */
  function Truncate(x: real): (n: int)
    ensures 0.0 <= x ==> n as real <= x < n as real + 1.0
    ensures x < 0.0 ==> n as real - 1.0 < x <= n as real
  {
    if x >= 0.0 then x.Floor else -((-x).Floor)
  }

  function Min(a: int, b: int): int { if a <= b then a else b }
  function Max(a: int, b: int): int { if a <= b then b else a }

  /**
   * `State._value`: `a` weighted by `weightA` plus `b` weighted by the rest,
   * truncated toward zero. Weights are exact reals here.
   */
  function Blend(a: int, b: int, weightA: real): (v: int)
    ensures weightA == 1.0 ==> v == a
    ensures weightA == 0.0 ==> v == b
    ensures 0.0 <= weightA <= 1.0 ==> Min(a, b) <= v <= Max(a, b)
    ensures var x := a as real * weightA + b as real * (1.0 - weightA);
      (0.0 <= x ==> v as real <= x < v as real + 1.0) &&
      (x < 0.0 ==> v as real - 1.0 < x <= v as real)
  {
    MixBetween(a, b, weightA);
    Truncate(a as real * weightA + b as real * (1.0 - weightA))
  }

  /** The exact blend lies between its endpoints. */
  lemma MixBetween(a: int, b: int, w: real)
    ensures 0.0 <= w <= 1.0 ==>
      Min(a, b) as real <= a as real * w + b as real * (1.0 - w) <= Max(a, b) as real
  {
    if 0.0 <= w <= 1.0 {
      var x := a as real * w + b as real * (1.0 - w);
      assert x - b as real == (a - b) as real * w;
      assert x - a as real == (b - a) as real * (1.0 - w);
      if a <= b {
        assert (b - a) as real * (1.0 - w) >= 0.0;
        assert (b - a) as real * w >= 0.0;
        assert (a - b) as real * w == -((b - a) as real * w);
      } else {
        assert (a - b) as real * w >= 0.0;
        assert (a - b) as real * (1.0 - w) >= 0.0;
        assert (b - a) as real * (1.0 - w) == -((a - b) as real * (1.0 - w));
      }
    }
  }

  /** Truncation toward zero is monotone. */
  lemma TruncateMonotone(x: real, y: real)
    requires x <= y
    ensures Truncate(x) <= Truncate(y)
  {
  }

  /** The gap between two mixes is the gap between the endpoints times the gap between the weights. */
  lemma MixDifference(a: int, b: int, w1: real, w2: real)
    ensures (a as real * w2 + b as real * (1.0 - w2)) - (a as real * w1 + b as real * (1.0 - w1)) ==
            (a - b) as real * (w2 - w1)
  {
  }

  lemma ProductNonNegative(x: real, y: real)
    requires 0.0 <= x && 0.0 <= y
    ensures 0.0 <= x * y
  {
  }

  /**
   * As the weight of `a` grows the blend moves from `b` toward `a` and never back.
   */
  lemma {:induction false} BlendMonotone(a: int, b: int, w1: real, w2: real)
    requires 0.0 <= w1 <= w2 <= 1.0
    ensures b <= a ==> Blend(a, b, w1) <= Blend(a, b, w2)
    ensures a <= b ==> Blend(a, b, w2) <= Blend(a, b, w1)
  {
    var x1 := a as real * w1 + b as real * (1.0 - w1);
    var x2 := a as real * w2 + b as real * (1.0 - w2);
    MixDifference(a, b, w1, w2);
    if b <= a {
      ProductNonNegative((a - b) as real, w2 - w1);
      TruncateMonotone(x1, x2);
    }
    if a <= b {
      ProductNonNegative((b - a) as real, w2 - w1);
      assert (a - b) as real * (w2 - w1) == -((b - a) as real * (w2 - w1));
      TruncateMonotone(x2, x1);
    }
  }

  /**
   * The states a transition interpolates: `WhiteState` (temperature and brightness,
   * bound to a bulb) and `BrightnessState` (one brightness value).
   */
  datatype State =
    | WhiteState(temperature: int, brightness: int, bulb: Provider)
    | BrightnessState(level: int)

  /** Both states of one kind, as `avg` and `__eq__` expect of their operands. */
  predicate SameKind(a: State, b: State) {
    a.WhiteState? == b.WhiteState?
  }

  /** `__eq__`: the visible fields only, never the bound bulb. */
  predicate Same(a: State, b: State)
    requires SameKind(a, b)
    ensures Same(a, b) <==> if a.WhiteState? then a.(bulb := b.bulb) == b else a == b
  {
    match a
    case WhiteState(t, br, _) => t == b.temperature && br == b.brightness
    case BrightnessState(l) => l == b.level
  }

  /** `Same` is an equivalence, and two white states differing only in their bulb are equal. */
  lemma SameIsEquivalence(a: State, b: State, c: State)
    requires SameKind(a, b) && SameKind(b, c)
    ensures Same(a, a)
    ensures Same(a, b) <==> Same(b, a)
    ensures Same(a, b) && Same(b, c) ==> Same(a, c)
    ensures a.WhiteState? && a.temperature == b.temperature && a.brightness == b.brightness ==> Same(a, b)
  {
  }

  /** Every visible field of `s` lies between those of `a` and `b`. */
  predicate Between(s: State, a: State, b: State)
    requires SameKind(s, a) && SameKind(a, b)
  {
    match s
    case WhiteState(t, br, _) =>
      Min(a.temperature, b.temperature) <= t <= Max(a.temperature, b.temperature) &&
      Min(a.brightness, b.brightness) <= br <= Max(a.brightness, b.brightness)
    case BrightnessState(l) =>
      Min(a.level, b.level) <= l <= Max(a.level, b.level)
  }

  /**
   * `WhiteState.avg` and `BrightnessState.avg`: each visible field blended on its own,
   * keeping `a`'s bulb.
   */
  function Avg(a: State, b: State, weightA: real): (r: State)
    requires SameKind(a, b)
    ensures SameKind(r, a)
    ensures r.WhiteState? ==> r.bulb == a.bulb
    ensures weightA == 1.0 ==> Same(r, a)
    ensures weightA == 0.0 ==> Same(r, b)
    ensures 0.0 <= weightA <= 1.0 ==> Between(r, a, b)
    ensures r.WhiteState? ==>
      r.temperature == Blend(a.temperature, b.temperature, weightA) &&
      r.brightness == Blend(a.brightness, b.brightness, weightA)
    ensures r.BrightnessState? ==> r.level == Blend(a.level, b.level, weightA)
  {
    match a
    case WhiteState(t, br, bulb) =>
      WhiteState(Blend(t, b.temperature, weightA), Blend(br, b.brightness, weightA), bulb)
    case BrightnessState(l) =>
      BrightnessState(Blend(l, b.level, weightA))
  }
}

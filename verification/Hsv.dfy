/** Conversion of colours between red-green-blue and hue-saturation-value. */
module Hsv {
  import opened Reals

  datatype Rgb = Rgb(r: real, g: real, b: real)

  datatype Hsv = Hsv(h: real, s: real, v: real)

  predicate InUnit(x: real) {
    0.0 <= x <= 1.0
  }

  predicate IsRgb(c: Rgb) {
    InUnit(c.r) && InUnit(c.g) && InUnit(c.b)
  }

  predicate IsHsv(c: Hsv) {
    0.0 <= c.h <= 360.0 && InUnit(c.s) && InUnit(c.v)
  }

  function Max3(a: real, b: real, c: real): real {
    if a >= b then (if a >= c then a else c) else (if b >= c then b else c)
  }

  function Min3(a: real, b: real, c: real): real {
    if a <= b then (if a <= c then a else c) else (if b <= c then b else c)
  }

  function Value(c: Rgb): real {
    Max3(c.r, c.g, c.b)
  }

  function Chroma(c: Rgb): real {
    Max3(c.r, c.g, c.b) - Min3(c.r, c.g, c.b)
  }

  /** The position around the hexagon of hues, from 0 up to 6: the distance from
      the nearest primary that dominates the colour. */
  function Sextant(c: Rgb): real
    requires Chroma(c) != 0.0
  {
    if c.r == Value(c) then
      (if c.g >= c.b then (c.g - c.b) / Chroma(c) else 6.0 - (c.b - c.g) / Chroma(c))
    else if c.g == Value(c) then 2.0 + (c.b - c.r) / Chroma(c)
    else 4.0 + (c.r - c.g) / Chroma(c)
  }

  function ToHsv(c: Rgb): Hsv {
    if Chroma(c) == 0.0 || Value(c) <= 0.0 then Hsv(0.0, 0.0, Value(c))
    else Hsv(60.0 * Sextant(c), Chroma(c) / Value(c), Value(c))
  }

  /** How far a channel falls below the value, as a share of the chroma: zero
      within one sextant of its own primary, all of it beyond two. */
  function Fall(k: real): real {
    var r := if k >= 6.0 then k - 6.0 else k;
    Max3(0.0, Min3(r, 4.0 - r, 1.0), 0.0)
  }

  function Channel(c: Hsv, offset: real): real {
    c.v - Product(Product(c.v, c.s), Fall(offset + c.h / 60.0))
  }

  function ToRgb(c: Hsv): Rgb {
    Rgb(Channel(c, 5.0), Channel(c, 3.0), Channel(c, 1.0))
  }

  method RgbToHsv(rgb: array<real>, hsv: array<real>)
    requires rgb.Length == 3 && hsv.Length == 3 && rgb != hsv
    requires IsRgb(Rgb(rgb[0], rgb[1], rgb[2]))
    modifies hsv
    ensures Hsv(hsv[0], hsv[1], hsv[2]) == ToHsv(Rgb(rgb[0], rgb[1], rgb[2]))
  {
    hide Sextant, Max3, Min3;
    ghost var c := Rgb(rgb[0], rgb[1], rgb[2]);
    var maxrgb := Max3(rgb[0], rgb[1], rgb[2]);
    var minrgb := Min3(rgb[0], rgb[1], rgb[2]);
    SaturationZero(c);

    hsv[0] := 0.0;
    hsv[1] := if maxrgb > 0.0 then (maxrgb - minrgb) / maxrgb else 0.0;
    hsv[2] := maxrgb;

    if hsv[1] != 0.0 {
      var rc := (maxrgb - rgb[0]) / (maxrgb - minrgb);
      var gc := (maxrgb - rgb[1]) / (maxrgb - minrgb);
      var bc := (maxrgb - rgb[2]) / (maxrgb - minrgb);
      HueByComplements(c);

      if rgb[0] == maxrgb {
        hsv[0] := bc - gc;
      } else if rgb[1] == maxrgb {
        hsv[0] := 2.0 + rc - bc;
      } else {
        hsv[0] := 4.0 + gc - rc;
      }

      hsv[0] := hsv[0] * 60.0;
      if hsv[0] < 0.0 { hsv[0] := hsv[0] + 360.0; }
    }
  }

  lemma SaturationZero(c: Rgb)
    requires IsRgb(c)
    ensures 0.0 <= Chroma(c) <= Value(c)
    ensures Value(c) > 0.0 ==> (Chroma(c) / Value(c) != 0.0 <==> Chroma(c) != 0.0)
  {
    if Value(c) > 0.0 {
      var q := Chroma(c) / Value(c);
      assert q * Value(c) == Chroma(c);
    }
  }

  /** The hue as the code computes it, from the complements of the channels. */
  function HueOfComplements(c: Rgb, rc: real, gc: real, bc: real): real {
    var x := if c.r == Value(c) then bc - gc else if c.g == Value(c) then 2.0 + rc - bc else 4.0 + gc - rc;
    if x < 0.0 then 6.0 + x else x
  }

  lemma HueByComplements(c: Rgb)
    requires Chroma(c) > 0.0
    ensures var d, m := Chroma(c), Value(c);
      Sextant(c) == HueOfComplements(c, (m - c.r) / d, (m - c.g) / d, (m - c.b) / d)
  {
    var d, m := Chroma(c), Value(c);
    ComplementDifference(m, c.g, c.b, d);
    ComplementDifference(m, c.b, c.r, d);
    ComplementDifference(m, c.r, c.g, d);
    hide Max3, Min3;
    ChannelBounds(c);
  }

  lemma ChannelBounds(c: Rgb)
    ensures -Chroma(c) <= c.g - c.b <= Chroma(c) && -Chroma(c) <= c.b - c.r <= Chroma(c)
         && -Chroma(c) <= c.r - c.g <= Chroma(c)
  {
  }

  lemma ComplementDifference(m: real, x: real, y: real, d: real)
    requires 0.0 < d && -d <= x - y <= d
    ensures (m - y) / d - (m - x) / d == (x - y) / d
    ensures -1.0 <= (x - y) / d <= 1.0
    ensures x < y <==> (x - y) / d < 0.0
    ensures (x - y) / d == -((y - x) / d)
  {
    QuotientBounds(x - y, d);
    QuotientNegated(x - y, y - x, d);
    QuotientDifference(m - y, m - x, x - y, d);
  }

  lemma QuotientDifference(a: real, b: real, c: real, d: real)
    requires d != 0.0 && c == a - b
    ensures a / d - b / d == c / d
  {
    var p, q := a / d, b / d;
    assert p * d == a && q * d == b;
    assert Product(p - q, d) == c;
    QuotientOfProduct(p - q, d);
  }

  lemma QuotientNegated(x: real, y: real, d: real)
    requires d != 0.0 && y == -x
    ensures x / d == -(y / d)
  {
    var q := y / d;
    assert q * d == y;
    assert Product(-q, d) == x;
    QuotientOfProduct(-q, d);
  }

  lemma QuotientBounds(x: real, d: real)
    requires 0.0 < d && -d <= x <= d
    ensures -1.0 <= x / d <= 1.0
    ensures x < 0.0 <==> x / d < 0.0
  {
    var q := x / d;
    assert q * d == x;
    ProductSign(q, d);
    ProductSign(1.0 - q, d);
    ProductSign(q + 1.0, d);
    assert Product(1.0 - q, d) == d - x && Product(q + 1.0, d) == x + d;
  }

  method HsvToRgb(h: real, s: real, v: real, rgb: array<real>)
    requires rgb.Length == 3 && IsHsv(Hsv(h, s, v))
    modifies rgb
    ensures Rgb(rgb[0], rgb[1], rgb[2]) == ToRgb(Hsv(h, s, v))
  {
    hide Channel, Faded;
    ghost var c := Hsv(h, s, v);
    if s == 0.0 {
      rgb[0], rgb[1], rgb[2] := v, v, v;
      GreyChannels(c);
    } else {
      var h' := h;
      if h' >= 360.0 { h' := h' - 360.0; }
      h' := h' / 60.0;
      var i := h'.Floor;
      var f := h' - i as real;
      var p := v * (1.0 - s);
      var q := v * (1.0 - s * f);
      var t := v * (1.0 - s * (1.0 - f));
      FadedValues(v, s, f);
      SextantChannels(c, h', i, f);
      match i
      case 1 => rgb[0], rgb[1], rgb[2] := q, v, p;
      case 2 => rgb[0], rgb[1], rgb[2] := p, v, t;
      case 3 => rgb[0], rgb[1], rgb[2] := p, q, v;
      case 4 => rgb[0], rgb[1], rgb[2] := t, p, v;
      case 5 => rgb[0], rgb[1], rgb[2] := v, p, q;
      case _ => rgb[0], rgb[1], rgb[2] := v, t, p;
    }
  }

  lemma GreyChannels(c: Hsv)
    requires c.s == 0.0
    ensures ToRgb(c) == Rgb(c.v, c.v, c.v)
  {
    hide Fall;
  }

  /** The six cases of the code are the six linear pieces of the channels. */
  lemma SextantChannels(c: Hsv, h: real, i: int, f: real)
    requires IsHsv(c) && h == (if c.h >= 360.0 then c.h - 360.0 else c.h) / 60.0
    requires i == h.Floor && f == h - i as real
    ensures 0 <= i < 6 && 0.0 <= f < 1.0
    ensures var p, q, t := Faded(c.v, c.s, 1.0), Faded(c.v, c.s, f), Faded(c.v, c.s, 1.0 - f);
      ToRgb(c) == (match i
        case 1 => Rgb(q, c.v, p)
        case 2 => Rgb(p, c.v, t)
        case 3 => Rgb(p, q, c.v)
        case 4 => Rgb(t, p, c.v)
        case 5 => Rgb(c.v, p, q)
        case _ => Rgb(c.v, t, p))
  {
    hide Fall, Faded, Product;
    FallPieces(c.h / 60.0, h, i, f);
    FadedByChroma(c.v, c.s, 0.0);
    FadedByChroma(c.v, c.s, 1.0);
    FadedByChroma(c.v, c.s, f);
    FadedByChroma(c.v, c.s, 1.0 - f);
    FadedValues(c.v, c.s, f);
  }

  /** The value less a share `k` of the chroma. */
  function Faded(v: real, s: real, k: real): real {
    v * (1.0 - s * k)
  }

  lemma FadedByChroma(v: real, s: real, k: real)
    ensures v - Product(Product(v, s), k) == Faded(v, s, k)
  {
  }

  lemma FadedValues(v: real, s: real, f: real)
    ensures Faded(v, s, 0.0) == v && Faded(v, s, 1.0) == v * (1.0 - s)
    ensures Faded(v, s, f) == v * (1.0 - s * f) && Faded(v, s, 1.0 - f) == v * (1.0 - s * (1.0 - f))
  {
  }

  lemma FallPieces(x: real, h: real, i: int, f: real)
    requires 0.0 <= x <= 6.0 && h == (if x >= 6.0 then x - 6.0 else x)
    requires i == h.Floor && f == h - i as real
    ensures 0 <= i < 6 && 0.0 <= f < 1.0
    ensures (Fall(5.0 + x), Fall(3.0 + x), Fall(1.0 + x)) == (match i
        case 1 => (f, 0.0, 1.0)
        case 2 => (1.0, 0.0, 1.0 - f)
        case 3 => (1.0, f, 0.0)
        case 4 => (1.0 - f, 1.0, 0.0)
        case 5 => (0.0, 1.0, f)
        case _ => (0.0, 1.0 - f, 1.0))
  {
  }

  lemma SextantRange(c: Rgb)
    requires Chroma(c) > 0.0
    ensures 0.0 <= Sextant(c) < 6.0
  {
    ComplementDifference(Value(c), c.g, c.b, Chroma(c));
    ComplementDifference(Value(c), c.b, c.g, Chroma(c));
    ComplementDifference(Value(c), c.b, c.r, Chroma(c));
    ComplementDifference(Value(c), c.r, c.g, Chroma(c));
  }

  lemma ShareOfChroma(d: real, n: real)
    requires 0.0 < d
    ensures Product(d, 0.0) == 0.0 && Product(d, 1.0) == d
    ensures Product(d, n / d) == n && Product(d, 1.0 - n / d) == d - n && Product(d, 1.0 + n / d) == d + n
  {
    var q := n / d;
    assert q * d == n;
  }

  /** The shares by which the channels fall, one case for each sextant. */
  lemma FallOfSextant(c: Rgb)
    requires Chroma(c) > 0.0
    ensures var x, d := Sextant(c), Chroma(c);
      var u, v, w := (c.g - c.b) / d, (c.b - c.r) / d, (c.r - c.g) / d;
      (Fall(5.0 + x), Fall(3.0 + x), Fall(1.0 + x)) ==
        if c.r == Value(c) then (if c.g >= c.b then (0.0, 1.0 - u, 1.0) else (0.0, 1.0, 1.0 + u))
        else if c.g == Value(c) then (if c.b < c.r then (1.0 + v, 0.0, 1.0) else (1.0, 0.0, 1.0 - v))
        else (if c.r < c.g then (1.0, 1.0 + w, 0.0) else (1.0 - w, 1.0, 0.0))
  {
    var d, m := Chroma(c), Value(c);
    ComplementDifference(m, c.g, c.b, d);
    ComplementDifference(m, c.b, c.r, d);
    ComplementDifference(m, c.r, c.g, d);
  }

  /** Around the hexagon every channel falls by its own distance from the
      value. */
  lemma ChannelsOfSextant(c: Rgb)
    requires Chroma(c) > 0.0
    ensures var x, d, m := Sextant(c), Chroma(c), Value(c);
      && m - Product(d, Fall(5.0 + x)) == c.r
      && m - Product(d, Fall(3.0 + x)) == c.g
      && m - Product(d, Fall(1.0 + x)) == c.b
  {
    hide Fall, Product, Sextant;
    var d := Chroma(c);
    FallOfSextant(c);
    ShareOfChroma(d, c.g - c.b);
    ShareOfChroma(d, c.b - c.r);
    ShareOfChroma(d, c.r - c.g);
  }

  lemma ChannelAt(k: Hsv, offset: real, x: real)
    requires k.h == 60.0 * x
    ensures Channel(k, offset) == k.v - Product(Product(k.v, k.s), Fall(offset + x))
  {
    hide Fall, Product;
    assert offset + k.h / 60.0 == offset + x;
  }

  /** Every colour comes back from its hue, saturation and value, and those are
      in their documented ranges. */
  lemma RgbRoundTrip(c: Rgb)
    requires IsRgb(c)
    ensures var k := ToHsv(c); 0.0 <= k.h < 360.0 && InUnit(k.s) && InUnit(k.v)
    ensures ToRgb(ToHsv(c)) == c
  {
    SaturationZero(c);
    var k := ToHsv(c);
    var d, m := Chroma(c), Value(c);
    if d == 0.0 || m <= 0.0 {
      GreyChannels(k);
    } else {
      hide Max3, Min3, Sextant, Fall, Product, Channel;
      SextantRange(c);
      ChannelsOfSextant(c);
      QuotientBounds(d, m);
      ShareOfChroma(m, d);
      ChannelAt(k, 5.0, Sextant(c));
      ChannelAt(k, 3.0, Sextant(c));
      ChannelAt(k, 1.0, Sextant(c));
    }
  }

  /** The colour on sextant `i` of the hexagon, `part` of the chroma `d` into it. */
  function OnSextant(v: real, d: real, part: real, i: int): Rgb {
    match i
    case 1 => Rgb(v - part, v, v - d)
    case 2 => Rgb(v - d, v, v - (d - part))
    case 3 => Rgb(v - d, v - part, v)
    case 4 => Rgb(v - (d - part), v - d, v)
    case 5 => Rgb(v, v - d, v - part)
    case _ => Rgb(v, v - (d - part), v - d)
  }

  lemma SextantOf(v: real, d: real, f: real, i: int)
    requires 0.0 < d && 0.0 <= f < 1.0 && 0 <= i < 6
    ensures var c := OnSextant(v, d, Product(d, f), i);
      Value(c) == v && Chroma(c) == d && Sextant(c) == i as real + f
  {
    var p := Product(d, f);
    ProductSign(d, f);
    ProductSign(d, 1.0 - f);
    assert Product(d, 1.0 - f) == d - p;
    Quotients(d, f);
    hide Product;
    var c := OnSextant(v, d, p, i);
    assert Value(c) == v && Chroma(c) == d;
    match i
    case 1 =>
    case 2 =>
    case 3 =>
    case 4 =>
    case 5 =>
    case _ =>
  }

  lemma Quotients(d: real, f: real)
    requires 0.0 < d
    ensures Product(d, f) / d == f && (d - Product(d, f)) / d == 1.0 - f && (Product(d, f) - d) / d == f - 1.0
    ensures d / d == 1.0 && -d / d == -1.0
    ensures Product(d, f) == 0.0 ==> f == 0.0
  {
    assert Product(1.0 - f, d) == d - Product(d, f) && Product(f - 1.0, d) == Product(d, f) - d;
    QuotientOfProduct(1.0 - f, d);
    QuotientOfProduct(f - 1.0, d);
  }

  lemma QuotientOfProduct(q: real, d: real)
    requires d != 0.0
    ensures Product(q, d) / d == q
  {
  }

  lemma ChannelsOnSextant(c: Hsv, h: real, i: int, f: real)
    requires IsHsv(c) && c.h < 360.0 && h == c.h / 60.0 && i == h.Floor && f == h - i as real
    ensures 0 <= i < 6 && 0.0 <= f < 1.0
    ensures ToRgb(c) == OnSextant(c.v, Product(c.v, c.s), Product(Product(c.v, c.s), f), i)
  {
    hide Product, Fall;
    FallPieces(h, h, i, f);
    Shares(Product(c.v, c.s), f);
  }

  lemma Shares(d: real, f: real)
    ensures Product(d, 0.0) == 0.0 && Product(d, 1.0) == d && Product(d, 1.0 - f) == d - Product(d, f)
  {
  }

  /** Every hue, saturation and value with some colour in it comes back from its
      red, green and blue. */
  lemma HsvRoundTrip(c: Hsv)
    requires IsHsv(c) && c.h < 360.0 && 0.0 < c.s && 0.0 < c.v
    ensures IsRgb(ToRgb(c)) && ToHsv(ToRgb(c)) == c
  {
    var h := c.h / 60.0;
    var i := h.Floor;
    var f := h - i as real;
    var d := Product(c.v, c.s);
    ChromaShare(c.v, c.s);
    hide Product, Max3, Min3, Sextant, OnSextant, ToRgb, Channel, Fall, Value, Chroma;
    ChannelsOnSextant(c, h, i, f);
    SextantOf(c.v, d, f, i);
    RangeOfChannels(ToRgb(c));
  }

  lemma ChromaShare(v: real, s: real)
    requires 0.0 < v <= 1.0 && 0.0 < s <= 1.0
    ensures 0.0 < Product(v, s) <= v && Product(v, s) / v == s
  {
    ProductSign(v, s);
    ProductSign(v, 1.0 - s);
    assert Product(v, 1.0 - s) == v - Product(v, s);
    assert Product(s, v) == Product(v, s);
    QuotientOfProduct(s, v);
  }

  /** Which channels a hue makes the strongest and the weakest: red at 0, green at 120,
      blue at 240 degrees, with the value as the strongest channel and as much less as
      the saturation says for the weakest. */
  lemma HueRules(c: Hsv)
    requires IsHsv(c) && c.h < 360.0
    ensures var k, low := ToRgb(c), c.v - Product(c.v, c.s);
      && (c.h <= 60.0 || 300.0 <= c.h ==> k.r == c.v)
      && (60.0 <= c.h <= 180.0 ==> k.g == c.v)
      && (180.0 <= c.h <= 300.0 ==> k.b == c.v)
      && (c.h <= 120.0 ==> k.b == low)
      && (120.0 <= c.h <= 240.0 ==> k.r == low)
      && (240.0 <= c.h || c.h == 0.0 ==> k.g == low)
  {
    var h := c.h / 60.0;
    var i := h.Floor;
    var f := h - i as real;
    var d := Product(c.v, c.s);
    hide Product, ToRgb, Channel, Fall;
    ChannelsOnSextant(c, h, i, f);
    Edges(d, f);
  }

  lemma Edges(d: real, f: real)
    ensures f == 0.0 ==> Product(d, f) == 0.0
  {
  }

  /** Those that do not come back are the turns by all of 360 degrees, the grey ones
      with a hue, and the black ones with a saturation. */
  lemma HsvRoundTripExactly(c: Hsv)
    requires IsHsv(c)
    ensures ToHsv(ToRgb(c)) == c <==> (0.0 < c.s && 0.0 < c.v && c.h < 360.0) || (c.s == 0.0 && c.h == 0.0)
  {
    if c.s == 0.0 {
      GreyChannels(c);
    } else if 0.0 < c.v && c.h < 360.0 {
      HsvRoundTrip(c);
    } else {
      ColourOrNone(ToRgb(c));
    }
  }

  lemma ColourOrNone(c: Rgb)
    ensures var k := ToHsv(c); (0.0 < k.v && k.h < 360.0) || k.s == 0.0
  {
    hide Sextant;
    if Chroma(c) > 0.0 && Value(c) > 0.0 {
      SextantRange(c);
    }
  }

  lemma RangeOfChannels(c: Rgb)
    ensures Value(c) - Chroma(c) <= c.r <= Value(c)
    ensures Value(c) - Chroma(c) <= c.g <= Value(c)
    ensures Value(c) - Chroma(c) <= c.b <= Value(c)
  {
  }
}

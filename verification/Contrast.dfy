/**
  Colours as hex text, mixing, and the relative luminance and contrast ratio of WCAG 2.1, over the reals.
  The power 2.4 is any function that is non-negative and whose fifth power is the twelfth power of its
  argument.
  */
module Contrast {
  import opened Text
  import opened Wrappers

  datatype Rgb = Rgb(r: real, g: real, b: real)

  // ----- hex text -----

  function ToLower(c: char): char {
    if 'A' <= c <= 'Z' then ((c as int) - ('A' as int) + ('a' as int)) as char else c
  }

  function LowerAll(s: string): (r: string)
    ensures |r| == |s| && forall i :: 0 <= i < |r| ==> r[i] == ToLower(s[i])
  {
    seq(|s|, i requires 0 <= i < |s| => ToLower(s[i]))
  }

  function NormalizeHex(hex: string): Option<string> {
    var trimmed := Trim(hex);
    var digits := if trimmed != "" && trimmed[0] == '#' then trimmed[1..] else trimmed;
    if |digits| == 3 then
      Some(LowerAll([digits[0], digits[0], digits[1], digits[1], digits[2], digits[2]]))
    else if |digits| == 6 then Some(LowerAll(digits))
    else None
  }

  /** The value of a lower-case hex digit, or 16. */
  function DigitValue(c: char): (n: nat)
    ensures n <= 16
  {
    if '0' <= c <= '9' then c as int - '0' as int
    else if 'a' <= c <= 'f' then c as int - 'a' as int + 10
    else 16
  }

  predicate AllDigits(s: string) {
    forall i :: 0 <= i < |s| ==> DigitValue(s[i]) < 16
  }

  function Pair(s: string, i: nat): nat
    requires i + 1 < |s|
  {
    16 * DigitValue(s[i]) + DigitValue(s[i + 1])
  }

  function ParseHex(hex: string): Option<Rgb> {
    var n := NormalizeHex(hex);
    if n.None? || |n.value| != 6 || !AllDigits(n.value) then None
    else Some(Rgb(Pair(n.value, 0) as real, Pair(n.value, 2) as real, Pair(n.value, 4) as real))
  }

  predicate IsChannel(x: real) {
    0.0 <= x <= 255.0 && x == x.Floor as real
  }

  predicate IsColor(c: Rgb) {
    IsChannel(c.r) && IsChannel(c.g) && IsChannel(c.b)
  }

  lemma ParsedIsColor(hex: string)
    ensures ParseHex(hex).Some? ==> IsColor(ParseHex(hex).value)
  {
    var n := NormalizeHex(hex);
    if ParseHex(hex).Some? {
      assert Pair(n.value, 0) <= 255 && Pair(n.value, 2) <= 255 && Pair(n.value, 4) <= 255;
      assert IsChannel(Pair(n.value, 0) as real) && IsChannel(Pair(n.value, 2) as real);
      assert IsChannel(Pair(n.value, 4) as real);
    }
  }

  /** The value of a hex digit of either case. */
  function HexValue(c: char): Option<nat> {
    if '0' <= c <= '9' then Some(c as int - '0' as int)
    else if 'a' <= c <= 'f' then Some(c as int - 'a' as int + 10)
    else if 'A' <= c <= 'F' then Some(c as int - 'A' as int + 10)
    else None
  }

  predicate IsHex(s: string) {
    forall i :: 0 <= i < |s| ==> HexValue(s[i]).Some?
  }

  lemma HexDigitReads(c: char)
    ensures DigitValue(ToLower(c)) < 16 <==> HexValue(c).Some?
    ensures HexValue(c).Some? ==> DigitValue(ToLower(c)) == HexValue(c).value
  {}

  /**
    A text of six hex digits of either case reads as three channels of two digits each, one of three digits as
    three channels of one digit doubled, after an optional number sign and with white space around it ignored;
    no other text is a colour.
    */
  lemma ParseReads(hex: string, digits: string)
    requires Trim(hex) == "#" + digits || (Trim(hex) == digits && (digits == "" || digits[0] != '#'))
    ensures ParseHex(hex)
            == if |digits| == 6 && IsHex(digits) then
                 Some(Rgb((16 * HexValue(digits[0]).value + HexValue(digits[1]).value) as real,
                          (16 * HexValue(digits[2]).value + HexValue(digits[3]).value) as real,
                          (16 * HexValue(digits[4]).value + HexValue(digits[5]).value) as real))
               else if |digits| == 3 && IsHex(digits) then
                 Some(Rgb((17 * HexValue(digits[0]).value) as real, (17 * HexValue(digits[1]).value) as real,
                          (17 * HexValue(digits[2]).value) as real))
               else None
  {
    var trimmed := Trim(hex);
    assert ("#" + digits)[1..] == digits;
    assert (if trimmed != "" && trimmed[0] == '#' then trimmed[1..] else trimmed) == digits;
    if |digits| == 6 {
      DigitsRead(digits);
    } else if |digits| == 3 {
      var doubled := [digits[0], digits[0], digits[1], digits[1], digits[2], digits[2]];
      DigitsRead(doubled);
      DoubledIsHex(digits, doubled);
    }
  }

  lemma DoubledIsHex(digits: string, doubled: string)
    requires |digits| == 3 && doubled == [digits[0], digits[0], digits[1], digits[1], digits[2], digits[2]]
    ensures IsHex(doubled) <==> IsHex(digits)
  {
    if IsHex(doubled) {
      assert HexValue(doubled[0]).Some? && HexValue(doubled[2]).Some? && HexValue(doubled[4]).Some?;
    }
  }

  lemma DigitsRead(digits: string)
    requires |digits| == 6
    ensures AllDigits(LowerAll(digits)) <==> IsHex(digits)
    ensures IsHex(digits) ==> forall i :: 0 <= i < 6 ==> DigitValue(LowerAll(digits)[i]) == HexValue(digits[i]).value
  {
    forall i | 0 <= i < 6
      ensures DigitValue(LowerAll(digits)[i]) < 16 <==> HexValue(digits[i]).Some?
      ensures HexValue(digits[i]).Some? ==> DigitValue(LowerAll(digits)[i]) == HexValue(digits[i]).value
    {
      HexDigitReads(digits[i]);
    }
  }

  function Clamp(x: int, low: int, high: int): int {
    if x < low then low else if x > high then high else x
  }

  /** `Math.round`: halves go up. */
  function Round(x: real): int {
    (x + 0.5).Floor
  }

  function Digit(n: nat): char
    requires n < 16
  {
    if n < 10 then (n + '0' as int) as char else (n - 10 + 'a' as int) as char
  }

  function Channel(x: real): (n: nat)
    ensures n <= 255
  {
    Clamp(Round(x), 0, 255)
  }

  function ToHex(n: nat): string
    requires n <= 255
  {
    [Digit(n / 16), Digit(n % 16)]
  }

  function RgbToHex(c: Rgb): string {
    "#" + ToHex(Channel(c.r)) + ToHex(Channel(c.g)) + ToHex(Channel(c.b))
  }

  /** A lower-case hex digit. */
  predicate IsDigit(c: char) {
    DigitValue(c) < 16 && ToLower(c) == c && !IsSpace(c) && c != '#'
  }

  lemma DigitRoundTrip(n: nat)
    requires n < 16
    ensures DigitValue(Digit(n)) == n && IsDigit(Digit(n))
  {}

  lemma ToHexRoundTrip(n: nat)
    requires n <= 255
    ensures var h := ToHex(n); IsDigit(h[0]) && IsDigit(h[1]) && Pair(h, 0) == n
  {
    DigitRoundTrip(n / 16);
    DigitRoundTrip(n % 16);
  }

  lemma LowerOfDigits(digits: string)
    requires forall i :: 0 <= i < |digits| ==> IsDigit(digits[i])
    ensures LowerAll(digits) == digits && AllDigits(digits)
  {}

  lemma NormalizeDigits(digits: string)
    requires |digits| == 6 && forall i :: 0 <= i < |digits| ==> IsDigit(digits[i])
    ensures NormalizeHex("#" + digits) == Some(digits) && AllDigits(digits)
  {
    var s := "#" + digits;
    assert s[0] == '#' && s[1..] == digits && s[|s| - 1] == digits[5];
    TrimKeeps(s);
    LowerOfDigits(digits);
  }

  /** Parsing what was written reads the rounded and clamped channels back. */
  lemma ParseOfWritten(c: Rgb)
    ensures ParseHex(RgbToHex(c)) == Some(Rgb(Channel(c.r) as real, Channel(c.g) as real, Channel(c.b) as real))
  {
    var x, y, z := Channel(c.r), Channel(c.g), Channel(c.b);
    var digits := ToHex(x) + ToHex(y) + ToHex(z);
    ToHexRoundTrip(x);
    ToHexRoundTrip(y);
    ToHexRoundTrip(z);
    ThreePairs(ToHex(x), ToHex(y), ToHex(z));
    ParseOfDigits(digits);
    Associates(ToHex(x), ToHex(y), ToHex(z));
  }

  lemma Associates(a: string, b: string, c: string)
    ensures "#" + a + b + c == "#" + (a + b + c)
  {}

  lemma ThreePairs(a: string, b: string, c: string)
    requires |a| == |b| == |c| == 2
    ensures var s := a + b + c;
            && |s| == 6 && Pair(s, 0) == Pair(a, 0) && Pair(s, 2) == Pair(b, 0) && Pair(s, 4) == Pair(c, 0)
            && s == [a[0], a[1], b[0], b[1], c[0], c[1]]
  {}

  lemma ParseOfDigits(digits: string)
    requires |digits| == 6 && forall i :: 0 <= i < |digits| ==> IsDigit(digits[i])
    ensures ParseHex("#" + digits)
            == Some(Rgb(Pair(digits, 0) as real, Pair(digits, 2) as real, Pair(digits, 4) as real))
  {
    NormalizeDigits(digits);
  }

  /** A channel is written as the nearest whole number, a half going up, and no further than its range. */
  lemma ChannelIsNearest(x: real)
    ensures 0.0 <= x <= 255.0 ==> x - 0.5 < Channel(x) as real <= x + 0.5
    ensures (x < 0.0 ==> Channel(x) == 0) && (x > 255.0 ==> Channel(x) == 255)
  {
    var f := (x + 0.5).Floor;
    assert f as real <= x + 0.5 < f as real + 1.0;
  }

  function ClampReal(x: real, low: real, high: real): real {
    if x < low then low else if x > high then high else x
  }

  function Weighted(a: real, v: real, b: real, w: real): real {
    a * v + b * w
  }

  function MixChannel(a: real, b: real, w: real): real {
    Weighted(a, 1.0 - w, b, w)
  }

  function MixHex(a: string, b: string, weight: real): string {
    var x, y := ParseHex(a), ParseHex(b);
    if x.None? || y.None? then a else
    var w := ClampReal(weight, 0.0, 1.0);
    RgbToHex(Mix(x.value, y.value, w))
  }

  lemma ScaleKeepsOrder(a: real, b: real, w: real)
    requires a <= b && w >= 0.0
    ensures a * w <= b * w
  {
    assert 0.0 <= (b - a) * w == b * w - a * w;
  }

  /** A sum weighted by `v` and `w` lies between both numbers, scaled by the whole weight. */
  lemma WeightedBetween(a: real, v: real, b: real, w: real, whole: real)
    requires v >= 0.0 && w >= 0.0 && a <= b && whole == v + w
    ensures a * whole <= Weighted(a, v, b, w) <= b * whole
  {
    ScaleKeepsOrder(a, b, v);
    ScaleKeepsOrder(a, b, w);
    assert a * whole == a * v + a * w;
    assert b * whole == b * v + b * w;
  }

  lemma MixChannelTurns(a: real, b: real, w: real)
    ensures MixChannel(a, b, w) == MixChannel(b, a, 1.0 - w)
  {
    assert 1.0 - (1.0 - w) == w;
  }

  lemma ChannelBetween(x: real, a: real, b: real)
    requires IsChannel(a) && IsChannel(b) && a <= x <= b
    ensures a <= Channel(x) as real <= b
  {
    assert a.Floor <= Round(x) <= b.Floor;
  }

  predicate Between(a: real, m: real, b: real) {
    a <= m <= b || b <= m <= a
  }

  lemma MixChannelBounds(a: real, b: real, w: real)
    requires 0.0 <= w <= 1.0 && IsChannel(a) && IsChannel(b)
    ensures Between(a, Channel(MixChannel(a, b, w)) as real, b)
    ensures w == 0.0 ==> Channel(MixChannel(a, b, w)) as real == a
    ensures w == 1.0 ==> Channel(MixChannel(a, b, w)) as real == b
  {
    var x := MixChannel(a, b, w);
    if a <= b {
      MixChannelRises(a, b, w);
      ChannelBetween(x, a, b);
    } else {
      MixChannelTurns(a, b, w);
      MixChannelRises(b, a, 1.0 - w);
      ChannelBetween(x, b, a);
    }
    MixChannelEnds(a, b);
    if w == 0.0 { ChannelBetween(x, a, a); }
    if w == 1.0 { ChannelBetween(x, b, b); }
  }

  lemma MixChannelEnds(a: real, b: real)
    ensures MixChannel(a, b, 0.0) == a && MixChannel(a, b, 1.0) == b
  {}

  lemma MixChannelRises(a: real, b: real, w: real)
    requires 0.0 <= w <= 1.0 && a <= b
    ensures a <= MixChannel(a, b, w) <= b
  {
    WeightedBetween(a, 1.0 - w, b, w, 1.0);
  }

  function Mix(x: Rgb, y: Rgb, w: real): Rgb {
    Rgb(MixChannel(x.r, y.r, w), MixChannel(x.g, y.g, w), MixChannel(x.b, y.b, w))
  }

  /** A mix of two colours lies between them channel by channel, reaches them at the ends, and is symmetric. */
  lemma MixStaysBetween(a: string, b: string, weight: real)
    requires ParseHex(a).Some? && ParseHex(b).Some?
    ensures var x, y, m := ParseHex(a).value, ParseHex(b).value, ParseHex(MixHex(a, b, weight));
            && m.Some?
            && Between(x.r, m.value.r, y.r) && Between(x.g, m.value.g, y.g) && Between(x.b, m.value.b, y.b)
            && (weight <= 0.0 ==> m.value == x) && (weight >= 1.0 ==> m.value == y)
    ensures MixHex(a, b, weight) == MixHex(b, a, 1.0 - weight)
  {
    var x, y, w := ParseHex(a).value, ParseHex(b).value, ClampReal(weight, 0.0, 1.0);
    ParsedIsColor(a);
    ParsedIsColor(b);
    MixChannelBounds(x.r, y.r, w);
    MixChannelBounds(x.g, y.g, w);
    MixChannelBounds(x.b, y.b, w);
    ParseOfWritten(Mix(x, y, w));
    MixTurns(x, y, w);
    assert ClampReal(1.0 - weight, 0.0, 1.0) == 1.0 - w;
  }

  /** Each channel of a mix is the nearest whole number to the weighted mean. */
  lemma MixIsNearest(a: string, b: string, weight: real, w: real)
    requires ParseHex(a).Some? && ParseHex(b).Some?
    requires w == if weight < 0.0 then 0.0 else if weight > 1.0 then 1.0 else weight
    ensures var x, y, m := ParseHex(a).value, ParseHex(b).value, ParseHex(MixHex(a, b, weight));
            && m.Some?
            && Rounds(Weighted(x.r, 1.0 - w, y.r, w), m.value.r)
            && Rounds(Weighted(x.g, 1.0 - w, y.g, w), m.value.g)
            && Rounds(Weighted(x.b, 1.0 - w, y.b, w), m.value.b)
  {
    var x, y := ParseHex(a).value, ParseHex(b).value;
    ParsedIsColor(a);
    ParsedIsColor(b);
    MixedChannelRounds(x.r, y.r, w);
    MixedChannelRounds(x.g, y.g, w);
    MixedChannelRounds(x.b, y.b, w);
    MixParses(a, b, weight);
  }

  lemma MixParses(a: string, b: string, weight: real)
    requires ParseHex(a).Some? && ParseHex(b).Some?
    ensures var m := Mix(ParseHex(a).value, ParseHex(b).value, ClampReal(weight, 0.0, 1.0));
            ParseHex(MixHex(a, b, weight))
            == Some(Rgb(Channel(m.r) as real, Channel(m.g) as real, Channel(m.b) as real))
  {
    ParseOfWritten(Mix(ParseHex(a).value, ParseHex(b).value, ClampReal(weight, 0.0, 1.0)));
  }

  /** Without two colours there is no mix: the first text stays as it is. */
  lemma MixOfNoColor(a: string, b: string, weight: real)
    ensures ParseHex(a).None? || ParseHex(b).None? ==> MixHex(a, b, weight) == a
  {}

  predicate Rounds(x: real, m: real) {
    x - 0.5 < m <= x + 0.5
  }

  lemma MixedChannelRounds(a: real, b: real, w: real)
    requires 0.0 <= w <= 1.0 && IsChannel(a) && IsChannel(b)
    ensures Rounds(Weighted(a, 1.0 - w, b, w), Channel(MixChannel(a, b, w)) as real)
  {
    if a <= b {
      MixChannelRises(a, b, w);
    } else {
      MixChannelTurns(a, b, w);
      MixChannelRises(b, a, 1.0 - w);
    }
    ChannelIsNearest(MixChannel(a, b, w));
  }

  lemma MixTurns(x: Rgb, y: Rgb, w: real)
    ensures Mix(x, y, w) == Mix(y, x, 1.0 - w)
  {
    MixChannelTurns(x.r, y.r, w);
    MixChannelTurns(x.g, y.g, w);
    MixChannelTurns(x.b, y.b, w);
  }

  // ----- the power 2.4 -----

  type Power = real -> real

  function Times(x: real, n: nat): real {
    if n == 0 then 1.0 else x * Times(x, n - 1)
  }

  /** What makes `pow` the power 12/5: it is non-negative and its fifth power is the twelfth power. */
  ghost predicate IsPower(pow: Power) {
    forall x :: x >= 0.0 ==> pow(x) >= 0.0 && Times(pow(x), 5) == Times(x, 12)
  }

  lemma MulMonotone(a: real, b: real, c: real, d: real)
    requires 0.0 <= a <= b && 0.0 <= c <= d
    ensures 0.0 <= a * c <= b * d
    ensures a < b && 0.0 < d ==> a * c < b * d
  {
    assert a * c <= a * d;
    assert a * d <= b * d;
    assert a < b && 0.0 < d ==> a * d < b * d;
  }

  lemma {:induction false} TimesMonotone(a: real, b: real, n: nat)
    requires 0.0 <= a <= b
    ensures 0.0 <= Times(a, n) <= Times(b, n)
    ensures a < b && n > 0 ==> Times(a, n) < Times(b, n)
    ensures 0.0 < b ==> 0.0 < Times(b, n)
  {
    if n > 0 {
      TimesMonotone(a, b, n - 1);
      MulMonotone(a, b, Times(a, n - 1), Times(b, n - 1));
      if 0.0 < b { MulMonotone(0.0, b, 0.0, Times(b, n - 1)); }
    }
  }

  /** Fifth powers compare as their roots do. */
  lemma FifthReflects(a: real, b: real)
    requires a >= 0.0 && b >= 0.0
    ensures a < b <==> Times(a, 5) < Times(b, 5)
  {
    if a < b { TimesMonotone(a, b, 5); } else { TimesMonotone(b, a, 5); }
  }

  lemma {:induction false} TimesOfSquare(x: real, n: nat)
    ensures Times(x * x, n) == Times(x, 2 * n)
  {
    if n > 0 {
      TimesOfSquare(x, n - 1);
      assert Times(x, 2 * n) == x * (x * Times(x, 2 * n - 2));
      Regroup(x, Times(x, 2 * n - 2));
    }
  }

  lemma Regroup(x: real, t: real)
    ensures x * (x * t) == (x * x) * t
  {}

  /** Below one the power 2.4 is at most the square. */
  lemma PowerAtMostSquare(pow: Power, x: real)
    requires IsPower(pow) && 0.0 <= x <= 1.0
    ensures 0.0 <= pow(x) <= x * x <= 1.0
  {
    var s := x * x;
    MulMonotone(x, 1.0, x, 1.0);
    TimesMonotone(0.0, s, 5);
    TimesOfSquare(x, 6);
    assert Times(x, 12) == s * Times(s, 5);
    MulMonotone(s, 1.0, Times(s, 5), Times(s, 5));
    FifthReflects(s, pow(x));
  }

  // ----- luminance and contrast -----

  function ChannelLuminance(pow: Power, channel: real): real {
    var c := channel / 255.0;
    if c <= 0.03928 then c / 12.92 else pow((c + 0.055) / 1.055)
  }

  function RelativeLuminance(pow: Power, hex: string): real {
    var rgb := ParseHex(hex);
    if rgb.None? then 0.0
    else 0.2126 * ChannelLuminance(pow, rgb.value.r) + 0.7152 * ChannelLuminance(pow, rgb.value.g)
         + 0.0722 * ChannelLuminance(pow, rgb.value.b)
  }

  function Max(a: real, b: real): real {
    if a < b then b else a
  }

  function Min(a: real, b: real): real {
    if a < b then a else b
  }

  function Ratio(la: real, lb: real): real
    requires la >= 0.0 && lb >= 0.0
  {
    (Max(la, lb) + 0.05) / (Min(la, lb) + 0.05)
  }

  lemma ChannelLuminanceBounds(pow: Power, channel: real)
    requires IsPower(pow) && IsChannel(channel)
    ensures 0.0 <= ChannelLuminance(pow, channel) <= 1.0
  {
    var c := channel / 255.0;
    assert 0.0 <= c <= 1.0;
    if c > 0.03928 { PowerAtMostSquare(pow, (c + 0.055) / 1.055); }
  }

  lemma LuminanceBounds(pow: Power, hex: string)
    requires IsPower(pow)
    ensures 0.0 <= RelativeLuminance(pow, hex) <= 1.0
  {
    ParsedIsColor(hex);
    var rgb := ParseHex(hex);
    if rgb.Some? {
      ChannelLuminanceBounds(pow, rgb.value.r);
      ChannelLuminanceBounds(pow, rgb.value.g);
      ChannelLuminanceBounds(pow, rgb.value.b);
    }
  }

  function ContrastRatio(pow: Power, a: string, b: string): real
    requires IsPower(pow)
  {
    LuminanceBounds(pow, a);
    LuminanceBounds(pow, b);
    Ratio(RelativeLuminance(pow, a), RelativeLuminance(pow, b))
  }

  lemma DivideBetween(high: real, low: real)
    requires 0.0 < low <= high <= 21.0 * low
    ensures 1.0 <= high / low <= 21.0
  {
    var r := high / low;
    assert r * low == high;
    if r < 1.0 { MulStrict(r, 1.0, low); }
    if r > 21.0 { MulStrict(21.0, r, low); }
  }

  lemma MulStrict(a: real, b: real, c: real)
    requires a < b && 0.0 < c
    ensures a * c < b * c
  {}

  lemma RatioBounds(la: real, lb: real)
    requires 0.0 <= la <= 1.0 && 0.0 <= lb <= 1.0
    ensures 1.0 <= Ratio(la, lb) <= 21.0 && Ratio(la, lb) == Ratio(lb, la)
  {
    DivideBetween(Max(la, lb) + 0.05, Min(la, lb) + 0.05);
  }

  /** The ratio of any two texts is symmetric and between 1 and 21. */
  lemma ContrastRatioBounds(pow: Power, a: string, b: string)
    requires IsPower(pow)
    ensures 1.0 <= ContrastRatio(pow, a, b) <= 21.0
    ensures ContrastRatio(pow, a, b) == ContrastRatio(pow, b, a)
  {
    LuminanceBounds(pow, a);
    LuminanceBounds(pow, b);
    RatioBounds(RelativeLuminance(pow, a), RelativeLuminance(pow, b));
  }

  function PickForeground(pow: Power, background: string, light: string, dark: string): string
    requires IsPower(pow)
  {
    if ContrastRatio(pow, background, light) >= ContrastRatio(pow, background, dark) then light else dark
  }

  const LIGHT := "#ffffff"
  const DARK := "#0f172a"

  lemma ParseOfLight()
    ensures ParseHex(LIGHT) == Some(Rgb(255.0, 255.0, 255.0))
  {
    TrimKeeps(LIGHT);
    assert LIGHT[1..] == "ffffff";
    assert LowerAll("ffffff") == "ffffff";
  }

  lemma ParseOfDark()
    ensures ParseHex(DARK) == Some(Rgb(15.0, 23.0, 42.0))
  {
    TrimKeeps(DARK);
    assert DARK[1..] == "0f172a";
    assert LowerAll("0f172a") == "0f172a";
  }

  lemma {:induction false} OneTimes(n: nat)
    ensures Times(1.0, n) == 1.0
  {
    if n > 0 { OneTimes(n - 1); }
  }

  lemma LightLuminance(pow: Power)
    requires IsPower(pow)
    ensures RelativeLuminance(pow, LIGHT) == 1.0
  {
    ParseOfLight();
    PowerAtMostSquare(pow, 1.0);
    assert (255.0 / 255.0 + 0.055) / 1.055 == 1.0;
    OneTimes(12);
    OneTimes(5);
    FifthReflects(pow(1.0), 1.0);
  }

  /** A channel's light: proportional to it up to 10, above that the power 2.4 of its shifted share of 255. */
  lemma ChannelReads(pow: Power, k: nat)
    requires IsPower(pow) && k <= 255
    ensures var l := ChannelLuminance(pow, k as real);
            if k <= 10 then l == k as real / 3294.6
            else l >= 0.0 && Times(l, 5) == Times((k as real + 14.025) / 269.025, 12)
  {
    var c := k as real / 255.0;
    if k > 10 {
      assert (c + 0.055) / 1.055 == (k as real + 14.025) / 269.025;
    }
  }

  lemma ExtremeChannels(pow: Power)
    requires IsPower(pow)
    ensures ChannelLuminance(pow, 0.0) == 0.0 && ChannelLuminance(pow, 255.0) == 1.0
  {
    PowerAtMostSquare(pow, 1.0);
    assert (255.0 / 255.0 + 0.055) / 1.055 == 1.0;
    OneTimes(12);
    OneTimes(5);
    FifthReflects(pow(1.0), 1.0);
  }

  /** Full red, green and blue have the luminance that the definition weights them with. */
  lemma PrimaryLuminance(pow: Power, hex: string)
    requires IsPower(pow)
    ensures ParseHex(hex) == Some(Rgb(255.0, 0.0, 0.0)) ==> RelativeLuminance(pow, hex) == 0.2126
    ensures ParseHex(hex) == Some(Rgb(0.0, 255.0, 0.0)) ==> RelativeLuminance(pow, hex) == 0.7152
    ensures ParseHex(hex) == Some(Rgb(0.0, 0.0, 255.0)) ==> RelativeLuminance(pow, hex) == 0.0722
    ensures ParseHex(hex) == Some(Rgb(0.0, 0.0, 0.0)) || ParseHex(hex) == None ==> RelativeLuminance(pow, hex) == 0.0
  {
    ExtremeChannels(pow);
  }

  /** Black on white, either way, has the greatest contrast there is. */
  lemma BlackOnWhite(pow: Power, a: string, b: string)
    requires IsPower(pow)
    requires ParseHex(a) == Some(Rgb(0.0, 0.0, 0.0)) && ParseHex(b) == Some(Rgb(255.0, 255.0, 255.0))
    ensures ContrastRatio(pow, a, b) == 21.0
  {
    ExtremeChannels(pow);
  }

  lemma DarkLuminance(pow: Power)
    requires IsPower(pow)
    ensures 0.0 <= RelativeLuminance(pow, DARK) <= 0.0192
  {
    ParseOfDark();
    LuminanceBounds(pow, DARK);
    PowerAtMostSquare(pow, (15.0 / 255.0 + 0.055) / 1.055);
    PowerAtMostSquare(pow, (23.0 / 255.0 + 0.055) / 1.055);
    PowerAtMostSquare(pow, (42.0 / 255.0 + 0.055) / 1.055);
  }

  lemma QuotientAbove(high: real, low: real)
    requires 0.0 < low && high > 3.89 * low
    ensures high / low > 3.89
  {
    var r := high / low;
    assert r * low == high;
  }

  /** One of white and a colour this dark is far enough from any luminance. */
  lemma OneIsLegible(l: real, dark: real)
    requires 0.0 <= l <= 1.0 && 0.0 <= dark <= 0.0192
    ensures Ratio(l, 1.0) > 3.89 || Ratio(l, dark) > 3.89
  {
    if l < 0.2195 {
      QuotientAbove(1.05, l + 0.05);
    } else {
      QuotientAbove(l + 0.05, dark + 0.05);
    }
  }

  /**
    The picked foreground contrasts at least as well as either choice; with the default colours the
    contrast is above 3.89 on every background, parsable or not, so above the threshold 3.
    */
  lemma PickedForegroundIsLegible(pow: Power, background: string, light: string, dark: string)
    requires IsPower(pow)
    ensures var picked := PickForeground(pow, background, light, dark);
            && ContrastRatio(pow, background, picked) >= ContrastRatio(pow, background, light)
            && ContrastRatio(pow, background, picked) >= ContrastRatio(pow, background, dark)
            && (picked == light || (picked == dark && ContrastRatio(pow, background, dark) > ContrastRatio(pow, background, light)))
    ensures ContrastRatio(pow, background, PickForeground(pow, background, LIGHT, DARK)) > 3.89
  {
    LuminanceBounds(pow, background);
    LightLuminance(pow);
    DarkLuminance(pow);
    OneIsLegible(RelativeLuminance(pow, background), RelativeLuminance(pow, DARK));
  }

  const MIN_LEGIBLE_CONTRAST := 3.0

  /** `ensureLegibleForeground`: a foreground that is not legible is replaced. */
  function EnsureLegible(pow: Power, background: string, foreground: string): string
    requires IsPower(pow)
  {
    if ContrastRatio(pow, background, foreground) >= MIN_LEGIBLE_CONTRAST then foreground
    else PickForeground(pow, background, LIGHT, DARK)
  }

  lemma EnsuredForegroundIsLegible(pow: Power, background: string, foreground: string)
    requires IsPower(pow)
    ensures ContrastRatio(pow, background, EnsureLegible(pow, background, foreground)) >= 3.0
    ensures ContrastRatio(pow, background, foreground) >= 3.0 ==> EnsureLegible(pow, background, foreground) == foreground
  {
    PickedForegroundIsLegible(pow, background, LIGHT, DARK);
  }
}

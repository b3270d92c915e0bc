/**
  The design constraint table and the unit-aware checks built on it: pixel,
  percent and time values are parsed with JavaScript `parseInt` semantics and
  compared with the bounds of their constraint; colours are `#RRGGBB`; enum
  fields are checked by list membership.
 */
module Constraints {
  import opened Wrappers
  import opened Text

  /** A `{ min, max, default }` entry of the table. */
  datatype RangeConstraint = RangeConstraint(min: string, max: string, default: string)

  /** An `{ allowed, default }` entry of the table. */
  datatype Choice = Choice(allowed: seq<string>, default: string)

  // ---------------------------------------------------------------------
  // the table

  const WidgetWidth := RangeConstraint("200px", "800px", "350px")
  const WidgetHeight := RangeConstraint("300px", "1000px", "500px")
  const BorderRadius := RangeConstraint("0px", "50px", "12px")
  const WidgetPadding := RangeConstraint("0px", "50px", "16px")
  const WidgetMargin := RangeConstraint("0px", "100px", "20px")

  const HeaderSize := RangeConstraint("12px", "48px", "18px")
  const MessageSize := RangeConstraint("10px", "24px", "14px")
  const InputSize := RangeConstraint("10px", "20px", "14px")
  const HeaderWeight := Choice(["300", "400", "500", "600", "700"], "600")
  const MessageWeight := Choice(["300", "400", "500", "600"], "400")
  const InputWeight := Choice(["300", "400", "500"], "400")

  const HeaderHeight := RangeConstraint("40px", "120px", "60px")
  const LogoSize := RangeConstraint("16px", "64px", "32px")

  const BubbleSpacing := RangeConstraint("0px", "32px", "8px")
  const BubbleMaxWidth := RangeConstraint("50%", "95%", "80%")
  const BubbleBorderRadius := RangeConstraint("0px", "50px", "18px")
  const BubbleTailSize := RangeConstraint("4px", "20px", "8px")
  const BubbleAlignment := Choice(["left", "right", "center"], "left")
  const BubbleAnimation := Choice(["fade", "slideUp", "slideLeft", "scale", "bounce", "none"], "fade")
  const BubbleShadow := Choice(["none", "light", "medium", "heavy"], "light")

  const InputHeight := RangeConstraint("32px", "80px", "46px")
  const InputButtonSize := RangeConstraint("24px", "60px", "34px")
  const InputMaxCharacters := RangeConstraint("50", "5000", "500")
  const InputButtonStyle := Choice(["modern", "classic", "minimal", "rounded"], "modern")

  const TransitionDuration := RangeConstraint("0ms", "2000ms", "300ms")

  // ---------------------------------------------------------------------
  // digits and parseInt

  predicate AllDigits(s: string) {
    forall i :: 0 <= i < |s| ==> IsDigit(s[i])
  }

  /** A non-empty run of ASCII digits: the regular-expression `\d+`. */
  predicate IsDigitRun(s: string) {
    s != [] && AllDigits(s)
  }

  /** The decimal value of a digit string. */
  function DigitsValue(s: string): (n: nat)
    requires AllDigits(s)
    decreases |s|
  {
    if s == [] then 0
    else
      assert IsDigit(s[|s| - 1]);
      DigitsValue(s[..|s| - 1]) * 10 + (s[|s| - 1] as int - '0' as int)
  }

  /** Length of the longest prefix of `s` made of digits. */
  function LeadingDigits(s: string): (n: nat)
    ensures n <= |s| && AllDigits(s[..n])
    ensures n == |s| || !IsDigit(s[n])
    decreases |s|
  {
    if s != [] && IsDigit(s[0]) then
      var k := LeadingDigits(s[1..]);
      assert s[..k + 1] == [s[0]] + s[1..][..k];
      k + 1
    else 0
  }

  /** `parseInt(s, 10)`; `None` is `NaN`. Leading whitespace and one sign are accepted,
      then the longest run of digits is read and the rest ignored. */
  function ParseInt(s: string): (r: Option<int>)
    ensures r.None? <==> var t := TrimStart(s);
                          var u := if t != [] && (t[0] == '-' || t[0] == '+') then t[1..] else t;
                          u == [] || !IsDigit(u[0])
  {
    var t := TrimStart(s);
    var negative := t != [] && t[0] == '-';
    var u := if t != [] && (t[0] == '-' || t[0] == '+') then t[1..] else t;
    var n := LeadingDigits(u);
    if n == 0 then None
    else
      var d: int := DigitsValue(u[..n]);
      Some(if negative then -d else d)
  }

  lemma ParseIntOfDigits(d: string)
    requires IsDigitRun(d)
    ensures ParseInt(d) == Some(DigitsValue(d))
  {
    assert !IsSpace(d[0]);
    assert SkipSpaces(d, 0) == 0;
    assert TrimStart(d) == d;
    var n := LeadingDigits(d);
    assert n == |d|;
    assert d[..n] == d;
  }

  // ---------------------------------------------------------------------
  // the unit regular expressions

  /** `/^\d+px$/`. */
  predicate IsPixelText(v: string) {
    |v| > 2 && IsDigitRun(v[..|v| - 2]) && v[|v| - 2..] == "px"
  }

  /** `/^\d+%$/`. */
  predicate IsPercentText(v: string) {
    |v| > 1 && IsDigitRun(v[..|v| - 1]) && v[|v| - 1] == '%'
  }

  /** `/^\d+(ms|s)$/`. */
  predicate IsTimeText(v: string) {
    (|v| > 2 && IsDigitRun(v[..|v| - 2]) && v[|v| - 2..] == "ms")
    || (|v| > 1 && IsDigitRun(v[..|v| - 1]) && v[|v| - 1] == 's')
  }

  /** `parsePixels`: `parseInt(value.replace("px", ""), 10)`. */
  function ParsePixels(s: string): Option<int> {
    ParseInt(ReplaceFirst(s, "px", ""))
  }

  /** `parsePercent`: `parseInt(value.replace("%", ""), 10)`. */
  function ParsePercent(s: string): Option<int> {
    ParseInt(ReplaceFirst(s, "%", ""))
  }

  /** `parseTime`: milliseconds for `ms`, seconds times 1000 for `s`, and 0 for anything else. */
  function ParseTime(s: string): (r: Option<int>)
    ensures !EndsWith(s, "s") ==> r == Some(0)
  {
    if EndsWith(s, "ms") then ParseInt(ReplaceFirst(s, "ms", ""))
    else if EndsWith(s, "s") then
      match ParseInt(ReplaceFirst(s, "s", ""))
      case None => None
      case Some(n) => Some(n * 1000)
    else Some(0)
  }

  /** A digit run followed by a suffix that does not start with a digit: `replace` strips the suffix. */
  lemma ReplaceUnitSuffix(d: string, unit: string)
    requires IsDigitRun(d) && unit != [] && !IsDigit(unit[0])
    ensures ReplaceFirst(d + unit, unit, "") == d
  {
    var s := d + unit;
    assert IsAt(s, unit, |d|);
    forall i | 0 <= i < |d| ensures !IsAt(s, unit, i) {
      assert s[i] == d[i];
      if i + |unit| <= |s| {
        assert s[i..i + |unit|][0] == s[i];
      }
    }
    var k := IndexOf(s, unit);
    assert k == |d|;
    assert s[..k] == d;
  }

  lemma ParsePixelsOf(v: string)
    requires IsPixelText(v)
    ensures ParsePixels(v) == Some(DigitsValue(v[..|v| - 2]))
  {
    var d := v[..|v| - 2];
    assert v == d + "px";
    ReplaceUnitSuffix(d, "px");
    ParseIntOfDigits(d);
  }

  lemma ParsePercentOf(v: string)
    requires IsPercentText(v)
    ensures ParsePercent(v) == Some(DigitsValue(v[..|v| - 1]))
  {
    var d := v[..|v| - 1];
    assert v == d + "%";
    ReplaceUnitSuffix(d, "%");
    ParseIntOfDigits(d);
  }

  /** `parseTime` reads `Nms` as N and `Ns` as 1000·N. */
  lemma ParseTimeOf(v: string)
    requires IsTimeText(v)
    ensures EndsWith(v, "ms") ==> ParseTime(v) == Some(DigitsValue(v[..|v| - 2]))
    ensures !EndsWith(v, "ms") ==> ParseTime(v) == Some(1000 * DigitsValue(v[..|v| - 1]))
  {
    if EndsWith(v, "ms") {
      var d := v[..|v| - 2];
      assert v == d + "ms";
      assert v[|v| - 2] == 'm';
      assert IsDigitRun(d);
      ReplaceUnitSuffix(d, "ms");
      ParseIntOfDigits(d);
    } else {
      var d := v[..|v| - 1];
      assert v == d + "s";
      assert IsDigitRun(d);
      ReplaceUnitSuffix(d, "s");
      ParseIntOfDigits(d);
    }
  }

  // ---------------------------------------------------------------------
  // the checks

  /** `num >= min && num <= max`, false as soon as one side is `NaN`. */
  predicate Between(n: Option<int>, lo: Option<int>, hi: Option<int>) {
    n.Some? && lo.Some? && hi.Some? && lo.value <= n.value <= hi.value
  }

  /** `isInRange`: the first unit form the value has decides how both bounds are parsed. */
  predicate InRange(v: string, c: RangeConstraint) {
    if IsPixelText(v) then Between(ParsePixels(v), ParsePixels(c.min), ParsePixels(c.max))
    else if IsPercentText(v) then Between(ParsePercent(v), ParsePercent(c.min), ParsePercent(c.max))
    else if IsTimeText(v) then Between(ParseTime(v), ParseTime(c.min), ParseTime(c.max))
    else false
  }

  /** Only a digit run followed by `px`, `%`, `ms` or `s` can be in range. */
  lemma InRangeNeedsUnit(v: string, c: RangeConstraint)
    requires InRange(v, c)
    ensures exists k :: 0 < k < |v| && IsDigitRun(v[..k]) && v[k..] in ["px", "%", "ms", "s"]
  {
    if IsPixelText(v) {
      assert v[|v| - 2..] in ["px", "%", "ms", "s"];
    } else if IsPercentText(v) {
      assert v[|v| - 1..] == "%";
    } else if |v| > 2 && IsDigitRun(v[..|v| - 2]) && v[|v| - 2..] == "ms" {
      assert v[|v| - 2..] in ["px", "%", "ms", "s"];
    } else {
      assert v[|v| - 1..] == "s";
    }
  }

  /** A pixel value is in range exactly when its number lies between the parsed bounds. */
  lemma InRangePixels(v: string, c: RangeConstraint)
    requires IsPixelText(v)
    ensures InRange(v, c) <==> Between(Some(DigitsValue(v[..|v| - 2])), ParsePixels(c.min), ParsePixels(c.max))
  {
    ParsePixelsOf(v);
  }

  /** A percent value is in range exactly when its number lies between the parsed bounds. */
  lemma InRangePercent(v: string, c: RangeConstraint)
    requires IsPercentText(v)
    ensures InRange(v, c) <==> Between(Some(DigitsValue(v[..|v| - 1])), ParsePercent(c.min), ParsePercent(c.max))
  {
    ParsePercentOf(v);
    assert v[|v| - 1] == '%';
  }

  /** A plain number without a unit is never in range, whatever the constraint. */
  lemma UnitlessNeverInRange(v: string, c: RangeConstraint)
    requires AllDigits(v)
    ensures !InRange(v, c)
  {
    if |v| > 0 {
      assert IsDigit(v[|v| - 1]);
    }
  }

  /** `isValidColor`: `/^#[0-9A-Fa-f]{6}$/`. */
  predicate IsValidColor(c: string) {
    |c| == 7 && c[0] == '#' && forall i :: 1 <= i < 7 ==> IsHexDigit(c[i])
  }

  predicate IsHexDigit(ch: char) {
    IsDigit(ch) || ('a' <= ch <= 'f') || ('A' <= ch <= 'F')
  }

  /** The colour check ignores letter case. */
  lemma ValidColorIgnoresCase(c: string)
    ensures IsValidColor(c) <==> IsValidColor(Lower(c))
  {
    var l := Lower(c);
    if |c| == 7 {
      forall i | 0 <= i < 7 ensures IsHexDigit(c[i]) <==> IsHexDigit(l[i]) {
      }
    }
  }

  /** `isAllowedValue`: exact membership. */
  predicate IsAllowed(v: string, allowed: seq<string>) {
    v in allowed
  }

  // ---------------------------------------------------------------------
  // facts about the table

  lemma DigitsValueSmall()
    ensures DigitsValue("0") == 0 && DigitsValue("2") == 2
    ensures DigitsValue("2000") == 2000
  {
    assert "0"[..0] == "" && "2"[..0] == "";
    assert "2000"[..3] == "200" && "200"[..2] == "20" && "20"[..1] == "2";
  }

  lemma ParseTimeOfTwoSeconds()
    ensures ParseTime("2s") == Some(2000)
  {
    DigitsValueSmall();
    var v := "2s";
    assert v[..1] == "2" && IsDigitRun(v[..1]);
    ParseTimeOf(v);
  }

  lemma ParseTimeOfMs(d: string)
    requires IsDigitRun(d)
    ensures ParseTime(d + "ms") == Some(DigitsValue(d))
  {
    var v := d + "ms";
    assert v[..|v| - 2] == d && v[|v| - 2..] == "ms";
    ParseTimeOf(v);
  }

  lemma ParseTimeOfBounds()
    ensures ParseTime(TransitionDuration.min) == Some(0)
    ensures ParseTime(TransitionDuration.max) == Some(2000)
  {
    ParseTimeOfMin();
    ParseTimeOfMax();
  }

  lemma ParseTimeOfMin()
    ensures ParseTime("0ms") == Some(0)
  {
    assert DigitsValue("0") == 0 by { assert "0"[..0] == ""; }
    ParseTimeOfMs("0");
    assert "0" + "ms" == "0ms";
  }

  lemma ParseTimeOfMax()
    ensures ParseTime("2000ms") == Some(2000)
  {
    DigitsValueSmall();
    ParseTimeOfMs("2000");
    assert "2000" + "ms" == "2000ms";
  }

  /** `parseTime` reads "2s" as two seconds, so "2s" is an allowed transition duration. */
  lemma TwoSecondsIsAllowedDuration()
    ensures ParseTime("2s") == Some(2000)
    ensures InRange("2s", TransitionDuration)
  {
    ParseTimeOfTwoSeconds();
    ParseTimeOfBounds();
    var v := "2s";
    assert v[..1] == "2" && IsDigitRun(v[..1]);
    assert IsTimeText(v) && !IsPixelText(v) && !IsPercentText(v);
  }

  /** Reading back the decimal text of a number gives the number. */
  lemma {:induction false} DigitsValueOfNatToString(n: nat)
    ensures IsDigitRun(NatToString(n))
    ensures DigitsValue(NatToString(n)) == n
    decreases n
  {
    if n >= 10 {
      var s := NatToString(n / 10);
      DigitsValueOfNatToString(n / 10);
      var t := s + [DigitChar(n % 10)];
      assert t[..|t| - 1] == s;
    }
  }

  /** A range whose bounds and default are `<number>px` holds its default when the numbers are ordered. */
  lemma PixelDefaultInRange(c: RangeConstraint, lo: nat, d: nat, hi: nat)
    requires lo <= d <= hi
    requires c == RangeConstraint(NatToString(lo) + "px", NatToString(hi) + "px", NatToString(d) + "px")
    ensures InRange(c.default, c)
  {
    PixelsOfNat(lo);
    PixelsOfNat(d);
    PixelsOfNat(hi);
  }

  lemma PixelsOfNat(n: nat)
    ensures IsPixelText(NatToString(n) + "px")
    ensures ParsePixels(NatToString(n) + "px") == Some(n)
  {
    var v := NatToString(n) + "px";
    DigitsValueOfNatToString(n);
    assert v[..|v| - 2] == NatToString(n) && v[|v| - 2..] == "px";
    ParsePixelsOf(v);
  }

  lemma PercentDefaultInRange(c: RangeConstraint, lo: nat, d: nat, hi: nat)
    requires lo <= d <= hi
    requires c == RangeConstraint(NatToString(lo) + "%", NatToString(hi) + "%", NatToString(d) + "%")
    ensures InRange(c.default, c)
  {
    PercentOfNat(lo);
    PercentOfNat(d);
    PercentOfNat(hi);
    var v := c.default;
    assert v[|v| - 1] == '%';
  }

  lemma PercentOfNat(n: nat)
    ensures IsPercentText(NatToString(n) + "%")
    ensures ParsePercent(NatToString(n) + "%") == Some(n)
  {
    var v := NatToString(n) + "%";
    DigitsValueOfNatToString(n);
    assert v[..|v| - 1] == NatToString(n);
    ParsePercentOf(v);
  }

  lemma MsDefaultInRange(c: RangeConstraint, lo: nat, d: nat, hi: nat)
    requires lo <= d <= hi
    requires c == RangeConstraint(NatToString(lo) + "ms", NatToString(hi) + "ms", NatToString(d) + "ms")
    ensures InRange(c.default, c)
  {
    DigitsValueOfNatToString(lo);
    DigitsValueOfNatToString(d);
    DigitsValueOfNatToString(hi);
    ParseTimeOfMs(NatToString(lo));
    ParseTimeOfMs(NatToString(d));
    ParseTimeOfMs(NatToString(hi));
    var v := c.default;
    assert v[..|v| - 2] == NatToString(d) && v[|v| - 2..] == "ms";
    assert v[|v| - 1] == 's';
  }

  const LayoutRanges: seq<RangeConstraint> := [WidgetWidth, WidgetHeight, BorderRadius, WidgetPadding, WidgetMargin]
  const TypographyRanges: seq<RangeConstraint> := [HeaderSize, MessageSize, InputSize]
  const ComponentRanges: seq<RangeConstraint> := [HeaderHeight, LogoSize, BubbleSpacing, BubbleMaxWidth, BubbleBorderRadius, BubbleTailSize, InputHeight, InputButtonSize]

  /** The range entries of the table whose bounds carry a unit. */
  const UnitRanges: seq<RangeConstraint> := LayoutRanges + TypographyRanges + ComponentRanges + [TransitionDuration]

  lemma LayoutDefaultsInRange(c: RangeConstraint)
    requires c in LayoutRanges
    ensures InRange(c.default, c)
  {
    if c in [WidgetWidth, WidgetHeight] { WidgetSizeDefaultsInRange(c); }
    else { WidgetSpacingDefaultsInRange(c); }
  }

  lemma WidgetSizeDefaultsInRange(c: RangeConstraint)
    requires c in [WidgetWidth, WidgetHeight]
    ensures InRange(c.default, c)
  {
    if c == WidgetWidth { WidgetWidthDefaultInRange(c); }
    else { WidgetHeightDefaultInRange(c); }
  }

  lemma WidgetWidthDefaultInRange(c: RangeConstraint)
    requires c == WidgetWidth
    ensures InRange(c.default, c)
  {
    PixelDefaultInRange(c, 200, 350, 800);
  }

  lemma WidgetHeightDefaultInRange(c: RangeConstraint)
    requires c == WidgetHeight
    ensures InRange(c.default, c)
  {
    PixelDefaultInRange(c, 300, 500, 1000);
  }

  lemma WidgetSpacingDefaultsInRange(c: RangeConstraint)
    requires c in [BorderRadius, WidgetPadding, WidgetMargin]
    ensures InRange(c.default, c)
  {
    if c == BorderRadius { PixelDefaultInRange(c, 0, 12, 50); }
    else if c == WidgetPadding { PixelDefaultInRange(c, 0, 16, 50); }
    else { PixelDefaultInRange(c, 0, 20, 100); }
  }

  lemma TypographyDefaultsInRange(c: RangeConstraint)
    requires c in TypographyRanges
    ensures InRange(c.default, c)
  {
    if c == HeaderSize { PixelDefaultInRange(c, 12, 18, 48); }
    else if c == MessageSize { PixelDefaultInRange(c, 10, 14, 24); }
    else { PixelDefaultInRange(c, 10, 14, 20); }
  }

  lemma HeaderDefaultsInRange(c: RangeConstraint)
    requires c in [HeaderHeight, LogoSize]
    ensures InRange(c.default, c)
  {
    if c == HeaderHeight { PixelDefaultInRange(c, 40, 60, 120); }
    else { PixelDefaultInRange(c, 16, 32, 64); }
  }

  lemma BubbleDefaultsInRange(c: RangeConstraint)
    requires c in [BubbleSpacing, BubbleMaxWidth, BubbleBorderRadius, BubbleTailSize]
    ensures InRange(c.default, c)
  {
    if c == BubbleSpacing { PixelDefaultInRange(c, 0, 8, 32); }
    else if c == BubbleMaxWidth { PercentDefaultInRange(c, 50, 80, 95); }
    else if c == BubbleBorderRadius { PixelDefaultInRange(c, 0, 18, 50); }
    else { PixelDefaultInRange(c, 4, 8, 20); }
  }

  lemma ComponentDefaultsInRange(c: RangeConstraint)
    requires c in ComponentRanges
    ensures InRange(c.default, c)
  {
    if c in [HeaderHeight, LogoSize] { HeaderDefaultsInRange(c); }
    else if c in [BubbleSpacing, BubbleMaxWidth, BubbleBorderRadius, BubbleTailSize] { BubbleDefaultsInRange(c); }
    else if c == InputHeight { PixelDefaultInRange(c, 32, 46, 80); }
    else { PixelDefaultInRange(c, 24, 34, 60); }
  }

  /** Every unit-bearing default of the table lies within its own bounds. */
  lemma RangeDefaultsInRange(c: RangeConstraint)
    requires c in UnitRanges
    ensures InRange(c.default, c)
  {
    if c in LayoutRanges { LayoutDefaultsInRange(c); }
    else if c in TypographyRanges { TypographyDefaultsInRange(c); }
    else if c in ComponentRanges { ComponentDefaultsInRange(c); }
    else { MsDefaultInRange(c, 0, 300, 2000); }
  }

  /** The character limit's bounds carry no unit, so its own default is not in range. */
  lemma MaxCharactersDefaultNotInRange()
    ensures !InRange(InputMaxCharacters.default, InputMaxCharacters)
  {
    UnitlessNeverInRange(InputMaxCharacters.default, InputMaxCharacters);
  }

  /** Every enum default of the table is one of its allowed values. */
  lemma ChoiceDefaultsAllowed()
    ensures IsAllowed(HeaderWeight.default, HeaderWeight.allowed)
    ensures IsAllowed(MessageWeight.default, MessageWeight.allowed)
    ensures IsAllowed(InputWeight.default, InputWeight.allowed)
    ensures IsAllowed(BubbleAlignment.default, BubbleAlignment.allowed)
    ensures IsAllowed(BubbleAnimation.default, BubbleAnimation.allowed)
    ensures IsAllowed(BubbleShadow.default, BubbleShadow.allowed)
    ensures IsAllowed(InputButtonStyle.default, InputButtonStyle.allowed)
  {
  }
}

/**
 * The quantity spinbox: a widget with an integer mode and a float mode (at
 * most one digit after the point), a key validator for each, and a mode
 * setter that resets the widget. Float values are held in integer tenths;
 * the bounds `from_` and `to` are whole numbers.
 */
module Widgets {
  import opened Wrappers
  import opened Text

  datatype Mode = IntMode | FloatMode

  /** `float_min = 0.1`, in tenths. */
  const FloatMinTenths: int := 1

  /** What the validator answers, and the text it writes into the widget
      (through `self.set`) when the value is above the maximum. */
  datatype Verdict = Verdict(accept: bool, clamp: Option<string>)

  /** Characters the float mode lets through: digits and the point. */
  predicate DigitsAndPoints(v: string) {
    forall i :: 0 <= i < |v| ==> IsDigit(v[i]) || v[i] == '.'
  }

  /**
   * `float(v)` in tenths, for a text of digits with one point and at most
   * one digit after it, or with no point: `None` when there is no digit at
   * all (".", which `float` rejects with ValueError).
   */
  function FloatTenths(v: string): (r: Option<int>)
    requires DigitsAndPoints(v) && CountChar(v, '.') <= 1
  {
    if '.' !in v then
      (if v == [] then None else Some(DigitsValue(v) * 10))
    else
      var k := CharIndex(v, '.');
      AfterOnlyChar(v, '.');
      var whole := v[..k];
      var fraction := v[k + 1..];
      assert AllDigits(whole) by {
        forall i | 0 <= i < |whole| ensures IsDigit(whole[i]) { assert whole[i] == v[i]; }
      }
      assert AllDigits(fraction) by {
        forall i | 0 <= i < |fraction| ensures IsDigit(fraction[i]) { assert fraction[i] == v[k + 1 + i]; }
      }
      if whole == [] && fraction == [] then None
      else Some(DigitsValue(whole) * 10 + (if fraction == [] then 0 else DigitValue(fraction[0])))
  }

  /** `f"{max_value:.1f}"` for a whole maximum. */
  function OneDecimal(n: int): string {
    IntStr(n) + ".0"
  }

  /**
   * `_validate_input` on the text the field would hold. The empty text is
   * accepted. In int mode a digit string is accepted when it is at least the
   * minimum, anything else is rejected. In float mode a text of digits with at
   * most one point and at most one digit after it is accepted when its value
   * is at least 0.1; anything else is rejected. In both modes a value above
   * the maximum is also written back as the maximum.
   */
  function CheckInput(mode: Mode, intMin: int, maxValue: int, v: string): Verdict {
    if v == [] then Verdict(true, None)
    else match mode
      case IntMode =>
        if AllDigits(v) then
          var n := DigitsValue(v);
          Verdict(n >= intMin, if n > maxValue then Some(IntStr(maxValue)) else None)
        else Verdict(false, None)
      case FloatMode =>
        if CountChar(v, '.') <= 1 && DigitsAndPoints(v) then
          SplitCharCount(v, '.');
          if '.' in v && |Split(v, ".")[1]| > 1 then Verdict(false, None)
          else
            match FloatTenths(v)
            case None => Verdict(false, None)
            case Some(t) => Verdict(t >= FloatMinTenths, if t > maxValue * 10 then Some(OneDecimal(maxValue)) else None)
        else Verdict(false, None)
  }

  /** The empty text is accepted in either mode and writes nothing. */
  lemma EmptyAccepted(mode: Mode, intMin: int, maxValue: int)
    ensures CheckInput(mode, intMin, maxValue, "") == Verdict(true, None)
  {
  }

  /** Int mode accepts exactly the digit strings worth at least the minimum,
      and writes the maximum back exactly when the value exceeds it. */
  lemma IntModeAccepts(intMin: int, maxValue: int, v: string)
    requires v != []
    ensures CheckInput(IntMode, intMin, maxValue, v).accept <==> AllDigits(v) && DigitsValue(v) >= intMin
    ensures CheckInput(IntMode, intMin, maxValue, v).clamp.Some? <==> AllDigits(v) && DigitsValue(v) > maxValue
  {
  }

  /** An int-mode text with any non-digit is rejected and writes nothing. */
  lemma IntModeRejectsNonDigits(intMin: int, maxValue: int, v: string, i: nat)
    requires i < |v| && !IsDigit(v[i])
    ensures CheckInput(IntMode, intMin, maxValue, v) == Verdict(false, None)
  {
  }

  /** Float mode rejects two points, a character other than a digit or a
      point, and two digits after the point. */
  lemma FloatModeRejects(intMin: int, maxValue: int, v: string)
    requires CountChar(v, '.') > 1 || !DigitsAndPoints(v) ||
      (CountChar(v, '.') == 1 && |v| - CharIndex(v, '.') > 2)
    ensures !CheckInput(FloatMode, intMin, maxValue, v).accept
  {
    if v != [] && CountChar(v, '.') == 1 && DigitsAndPoints(v) {
      SplitAtOnlyChar(v, '.');
      assert Split(v, ".")[1] == v[CharIndex(v, '.') + 1..];
    }
  }

  /** A well-formed float-mode text is accepted exactly when it is worth at
      least 0.1, and writes the maximum back when it is worth more than it. */
  lemma FloatModeAccepts(intMin: int, maxValue: int, whole: string, digit: char)
    requires AllDigits(whole) && IsDigit(digit)
    ensures var v := whole + "." + [digit];
      var t := DigitsValue(whole) * 10 + DigitValue(digit);
      CheckInput(FloatMode, intMin, maxValue, v) ==
        Verdict(t >= 1, if t > maxValue * 10 then Some(OneDecimal(maxValue)) else None)
  {
    var v := whole + "." + [digit];
    assert v[|whole|] == '.' && v[..|whole|] == whole && v[|whole| + 1..] == [digit];
    assert forall i :: 0 <= i < |whole| ==> v[i] == whole[i];
    assert DigitsAndPoints(v);
    assert '.' !in whole && '.' !in [digit];
    CountCharAppend(whole + ".", [digit], '.');
    CountCharAppend(whole, ".", '.');
    CharIndexAt(v, '.', |whole|);
    SplitAtOnlyChar(v, '.');
  }

  /** A float-mode text of whole digits, with or without a trailing point,
      is accepted exactly when it is worth at least 0.1, and writes the
      maximum back when it is worth more than it. */
  lemma FloatModeWholeAccepts(intMin: int, maxValue: int, whole: string, tail: string)
    requires AllDigits(whole) && whole != [] && (tail == "" || tail == ".")
    ensures var n := DigitsValue(whole);
      CheckInput(FloatMode, intMin, maxValue, whole + tail) ==
        Verdict(n * 10 >= 1, if n > maxValue then Some(OneDecimal(maxValue)) else None)
  {
    var v := whole + tail;
    var n := DigitsValue(whole);
    assert forall i :: 0 <= i < |whole| ==> v[i] == whole[i];
    assert '.' !in whole by {
      forall i | 0 <= i < |whole| ensures whole[i] != '.' { assert IsDigit(whole[i]); }
    }
    if tail == "" {
      assert v == whole;
      assert CheckInput(FloatMode, intMin, maxValue, v) ==
        Verdict(n * 10 >= 1, if n * 10 > maxValue * 10 then Some(OneDecimal(maxValue)) else None);
    } else {
      assert v[|whole|] == '.' && v[..|whole|] == whole && v[|whole| + 1..] == [];
      assert DigitsAndPoints(v);
      CountCharAppend(whole, ".", '.');
      assert CountChar(".", '.') == 1 by { assert "."[1..] == []; }
      CharIndexAt(v, '.', |whole|);
      SplitAtOnlyChar(v, '.');
      assert Split(v, ".")[1] == [];
      assert FloatTenths(v) == Some(n * 10);
    }
  }

  /** "." alone is rejected (its conversion fails), while "5." is accepted. */
  lemma PointCases(intMin: int, maxValue: int)
    requires maxValue >= 5
    ensures !CheckInput(FloatMode, intMin, maxValue, ".").accept
    ensures CheckInput(FloatMode, intMin, maxValue, "5.") == Verdict(true, None)
  {
    var p := ".";
    assert CountChar(p, '.') == 1 by { assert p[1..] == []; }
    CharIndexAt(p, '.', 0);
    var five := "5";
    assert AllDigits(five) && five + "." == "5.";
    assert DigitsValue(five) == 5 by { assert five[..0] == []; }
    FloatModeWholeAccepts(intMin, maxValue, five, ".");
  }

  class ValidatedSpinbox {
    var mode: Mode
    const maxValue: int
    const intMin: int
    const defaultValue: int
    /** The widget's own `from_` and `increment` options, in tenths. */
    var lowerTenths: int
    var incrementTenths: int
    /** The text shown in the widget. */
    var text: string

    /** Float mode, maximum `to`, integer minimum and default value `from_`;
        the widget itself starts at `from_` with step 1 and no text. */
    constructor (from: int, to: int)
      ensures mode == FloatMode && maxValue == to && intMin == from && defaultValue == from
      ensures lowerTenths == from * 10 && incrementTenths == 10 && text == ""
    {
      mode := FloatMode;
      maxValue := to;
      intMin := from;
      defaultValue := from;
      lowerTenths := from * 10;
      incrementTenths := 10;
      text := "";
    }

    /**
     * The `model` setter: "int" switches to int mode with the integer minimum
     * as lower bound, step 1 and the minimum as text; "float" switches to
     * float mode with lower bound 0.1, step 0.1 and the default value as
     * text; any other name is the ValueError and changes nothing.
     */
    method SetModel(name: string) returns (valueError: bool)
      modifies this`mode, this`lowerTenths, this`incrementTenths, this`text
      ensures valueError <==> name != "int" && name != "float"
      ensures name == "int" ==> mode == IntMode && lowerTenths == intMin * 10 && incrementTenths == 10 && text == IntStr(intMin)
      ensures name == "float" ==> mode == FloatMode && lowerTenths == FloatMinTenths && incrementTenths == 1 && text == IntStr(defaultValue)
      ensures valueError ==>
        mode == old(mode) && lowerTenths == old(lowerTenths) && incrementTenths == old(incrementTenths) && text == old(text)
    {
      valueError := false;
      if name == "int" || name == "float" {
        if name == "int" {
          mode := IntMode;
          lowerTenths := intMin * 10;
          incrementTenths := 10;
          text := IntStr(intMin);
        } else if name == "float" {
          mode := FloatMode;
          lowerTenths := FloatMinTenths;
          incrementTenths := 1;
          text := IntStr(defaultValue);
        }
      } else {
        valueError := true;
      }
    }

    /** `_validate_input`: the verdict for the current mode, writing the
        maximum into the widget when the value exceeds it. */
    method ValidateInput(v: string) returns (accept: bool)
      modifies this`text
      ensures accept == CheckInput(mode, intMin, maxValue, v).accept
      ensures text == (match CheckInput(mode, intMin, maxValue, v).clamp
                       case Some(t) => t
                       case None => old(text))
    {
      var verdict := CheckInput(mode, intMin, maxValue, v);
      if verdict.clamp.Some? {
        text := verdict.clamp.value;
      }
      accept := verdict.accept;
    }
  }
}

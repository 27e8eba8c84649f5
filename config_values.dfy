/**
 * What the value parser of ConfigParsing makes of value text written the way .jshc files
 * write it: a number, then optionally a space and a units description.
 */
module ConfigValues {
  import opened Wrappers
  import opened Strings
  import opened UnitsAlgebra
  import opened ConfigParsing
  import opened ConfigProperties

  /** The text "number units", or just the number when there are no units. */
  function ValueText(number: string, units: string): string
  {
    if units == [] then number else number + " " + units
  }

  /** Units text that survives the matcher and String.trim unchanged and cannot end a value
      early: no padding at either end, no '#', no line terminator. */
  predicate UnitsText(units: string)
  {
    (units != [] ==> !IsTrimmable(units[0]) && !IsTrimmable(units[|units| - 1])) &&
    forall i :: 0 <= i < |units| ==> units[i] != '#' && !IsLineTerminator(units[i])
  }

  lemma {:induction false} DigitRunAppend(a: string, b: string)
    requires DigitRun(a) == |a|
    ensures DigitRun(a + b) == |a| + DigitRun(b)
    decreases |a|
  {
    if |a| == 0 {
      assert a + b == b;
    } else {
      assert (a + b)[1..] == a[1..] + b;
      DigitRunAppend(a[1..], b);
    }
  }

  lemma {:induction false} DigitRunStops(a: string, b: string)
    requires DigitRun(a) < |a|
    ensures DigitRun(a + b) == DigitRun(a)
    decreases |a|
  {
    assert (a + b)[0] == a[0];
    if IsDigit(a[0]) {
      assert (a + b)[1..] == a[1..] + b;
      DigitRunStops(a[1..], b);
    }
  }

  /** The sign group of the pattern is the same in number + rest as in the number. */
  lemma SignedDigits(number: string, rest: string, sign: nat)
    requires number != [] && sign == (if number[0] == '+' || number[0] == '-' then 1 else 0)
    ensures (number + rest)[0] == number[0] && sign <= |number|
    ensures (number + rest)[sign..] == number[sign..] + rest
  {
  }

  lemma IntegerLengthOf(number: string, rest: string, sign: nat)
    requires number != [] && sign == (if number[0] == '+' || number[0] == '-' then 1 else 0)
    requires DigitRun(number[sign..]) == |number| - sign > 0
    requires rest == [] || rest[0] == ' '
    ensures NumberLength(number + rest) == |number|
  {
    SignedDigits(number, rest, sign);
    assert DigitRun(rest) == 0;
    DigitRunAppend(number[sign..], rest);
  }

  lemma DecimalLengthOf(number: string, rest: string, sign: nat, whole: nat)
    requires number != [] && sign == (if number[0] == '+' || number[0] == '-' then 1 else 0)
    requires whole == DigitRun(number[sign..]) && 0 < whole && sign + whole + 1 < |number|
    requires number[sign + whole] == '.' && DigitRun(number[sign + whole + 1..]) == |number| - sign - whole - 1
    requires rest == [] || rest[0] == ' '
    ensures NumberLength(number + rest) == |number|
  {
    var t := number + rest;
    var end := sign + whole;
    SignedDigits(number, rest, sign);
    DigitRunStops(number[sign..], rest);
    FractionDigits(number, rest, end);
    DecimalNumberLength(t, sign, whole, |number| - end - 1);
  }

  /** The digits after the point of a number stay the same when a space or nothing follows. */
  lemma FractionDigits(number: string, rest: string, end: nat)
    requires end + 1 < |number| && number[end] == '.' && DigitRun(number[end + 1..]) == |number| - end - 1
    requires rest == [] || rest[0] == ' '
    ensures (number + rest)[end] == '.' && IsDigit((number + rest)[end + 1])
    ensures DigitRun((number + rest)[end + 1..]) == |number| - end - 1
  {
    var fraction := number[end + 1..];
    assert IsDigit(fraction[0]);
    assert (number + rest)[end + 1..] == fraction + rest;
    assert DigitRun(rest) == 0;
    DigitRunAppend(fraction, rest);
  }

  /** The decimal branch of NumberLength. */
  lemma DecimalNumberLength(t: string, sign: nat, whole: nat, fraction: nat)
    requires |t| > 0 && sign == (if t[0] == '+' || t[0] == '-' then 1 else 0)
    requires 0 < whole == DigitRun(t[sign..]) && sign + whole + 1 < |t|
    requires t[sign + whole] == '.' && IsDigit(t[sign + whole + 1]) && DigitRun(t[sign + whole + 1..]) == fraction
    ensures NumberLength(t) == sign + whole + 1 + fraction
  {
  }

  /** Group 1 takes all of a Josh number followed by nothing or by a space. */
  lemma NumberLengthOf(number: string, rest: string)
    requires IsJoshNumber(number) && (rest == [] || rest[0] == ' ')
    ensures NumberLength(number + rest) == |number|
  {
    var sign := if number[0] == '+' || number[0] == '-' then 1 else 0;
    var whole := DigitRun(number[sign..]);
    if sign + whole == |number| {
      IntegerLengthOf(number, rest, sign);
    } else {
      DecimalLengthOf(number, rest, sign, whole);
    }
  }

  /** The matcher succeeds once group 1 is found and what follows the spaces after it holds
      no line terminator. */
  lemma MatchValueParts(t: string, n: nat, group2: string)
    requires 0 < n == NumberLength(t) && t[n..][SpaceRun(t[n..])..] == group2
    requires forall i :: 0 <= i < |group2| ==> !IsLineTerminator(group2[i])
    ensures MatchValue(t) == Some((t[..n], group2))
  {
    assert !exists c :: c in group2 && IsLineTerminator(c);
  }

  /** A space, then units text that does not start with a space, leaves just the units. */
  lemma SpacedUnits(rest: string, units: string)
    requires UnitsText(units) && rest == (if units == [] then "" else " " + units)
    ensures rest[SpaceRun(rest)..] == units
  {
    if units != [] {
      assert rest[1..] == units;
      assert SpaceRun(rest) == 1;
    }
  }

  /** "number units" matches with the number as group 1 and the units as group 2. */
  lemma MatchValueText(number: string, units: string)
    requires IsJoshNumber(number) && UnitsText(units)
    ensures MatchValue(ValueText(number, units)) == Some((number, units))
  {
    var rest := if units == [] then "" else " " + units;
    var t := number + rest;
    assert ValueText(number, units) == t;
    NumberLengthOf(number, rest);
    assert t[|number|..] == rest && t[..|number|] == number;
    SpacedUnits(rest, units);
    MatchValueParts(t, |number|, units);
  }

  /** Whatever the units parser, the value text comes back as its number and the units parsed
      from exactly the units text. */
  lemma ValueTextParses(number: string, units: string, unitsOf: UnitsParser)
    requires IsJoshNumber(number) && UnitsText(units)
    ensures ValueWithUnits(ValueText(number, units), unitsOf) == NumberWithUnits(number, units, unitsOf)
  {
    var t := ValueText(number, units);
    assert t[0] == number[0] && t[|t| - 1] == if units == [] then number[|number| - 1] else units[|units| - 1];
    TrimUntouched(t);
    TrimUntouched(units);
    MatchValueText(number, units);
  }

  /** A Josh number is made of a sign, digits and a point only. */
  lemma JoshNumberChars(number: string)
    requires IsJoshNumber(number)
    ensures number != [] && IsDigit(number[|number| - 1])
    ensures forall i :: 0 <= i < |number| ==> number[i] == '+' || number[i] == '-' || number[i] == '.' || IsDigit(number[i])
  {
    var sign := if number[0] == '+' || number[0] == '-' then 1 else 0;
    var whole := DigitRun(number[sign..]);
    forall i | 0 <= i < |number|
      ensures number[i] == '+' || number[i] == '-' || number[i] == '.' || IsDigit(number[i])
    {
      if sign <= i < sign + whole {
        assert number[sign..][i - sign] == number[i];
      } else if sign + whole + 1 <= i {
        assert number[sign + whole + 1..][i - sign - whole - 1] == number[i];
      }
    }
    if sign + whole == |number| {
      assert number[sign..][whole - 1] == number[|number| - 1];
    } else {
      var frac := number[sign + whole + 1..];
      assert frac[|frac| - 1] == number[|number| - 1];
    }
  }

  /** Value text written this way is what the automaton collects in full. */
  lemma ValueTextShape(number: string, units: string)
    requires IsJoshNumber(number) && UnitsText(units)
    ensures ValueShape(ValueText(number, units))
  {
    JoshNumberChars(number);
    var t := ValueText(number, units);
    assert t[0] == number[0];
    assert t[|t| - 1] == if units == [] then number[|number| - 1] else units[|units| - 1];
    forall i | 0 <= i < |t| ensures t[i] != '#' && !IsNewline(t[i]) {
      if i >= |number| + 1 {
        assert t[i] == units[i - |number| - 1];
      }
    }
  }

  /** The values parse() gives: the number with no units, or with the units that parsing and
      simplifying give (Units.of on a cache without misfiled entries); units that parsing rejects
      make the line fail as invalid units. */
  lemma JoshValueText(number: string, units: string)
    requires IsJoshNumber(number) && UnitsText(units)
    ensures units == [] ==> JoshValue(ValueText(number, units)) == Valued(ConfigValue(number, EMPTY))
    ensures units != [] && OfDescription(units).Success? ==>
      JoshValue(ValueText(number, units)) == Valued(ConfigValue(number, OfDescription(units).value))
    ensures units != [] && OfDescription(units).Failure? && OfDescription(units).error.kind == IllegalArgument ==>
      JoshValue(ValueText(number, units)) == Rejected(BadUnits(units))
  {
    ValueTextParses(number, units, OfDescription);
  }

  /** An assignment of a Josh number with units that parse is a well-formed line, so
      RenderParses applies to files made of such lines. */
  lemma JoshAssignment(name: string, number: string, units: string, pad: nat, note: Option<string>)
    requires IsIdentifier(name) && IsJoshNumber(number) && UnitsText(units)
    requires units != [] ==> OfDescription(units).Success?
    requires note.Some? ==> NoNewline(note.value)
    ensures WellFormed(Assignment(name, ValueText(number, units), pad, note), JoshValue)
  {
    ValueTextShape(number, units);
    JoshValueText(number, units);
  }
}

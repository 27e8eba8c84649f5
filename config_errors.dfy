/**
 * What parse() makes of the text after well-formed lines of a .jshc file: the error, position
 * and line it reports for each way a line goes wrong, and the value a last line without a
 * newline still gives.
 */
module ConfigErrors {
  import opened Wrappers
  import opened Strings
  import opened UnitsAlgebra
  import opened ConfigParsing
  import opened ConfigProperties
  import opened ConfigValues

  /** The machine after the well-formed lines: their entries stored, at the start of the next line. */
  ghost function After(lines: seq<Line>, u: ValueParser): Machine
    requires AllWellFormed(lines, u)
  {
    INITIAL.(config := Collect(map[], lines, u), lineNumber := 1 + |lines|)
  }

  /** The text after well-formed lines runs from the machine they leave. */
  lemma RunsAfter(lines: seq<Line>, s: string, u: ValueParser)
    requires AllWellFormed(lines, u)
    ensures Steps(INITIAL, Render(lines) + s, 0, u) == Steps(After(lines, u), s, |Render(lines)|, u)
  {
    RenderSteps(INITIAL, lines, 0, u);
    StepsAppend(INITIAL, Render(lines), s, 0, u);
  }

  /** A failure in the text after well-formed lines is the failure of the whole input. */
  lemma FailsAfter(lines: seq<Line>, s: string, u: ValueParser, e: ParseError)
    requires AllWellFormed(lines, u) && Steps(After(lines, u), s, |Render(lines)|, u) == Fail(e)
    ensures Parsed(Render(lines) + s, u) == Fail(e)
  {
    RunsAfter(lines, s, u);
  }

  lemma Regroup(a: string, b: string, c: string, d: string)
    ensures a + b + c + d == a + (b + (c + d))
  {
  }

  /** A failing character ends the run with its error, whatever follows. */
  lemma FailsHere(m: Machine, c: char, rest: string, p: int, u: ValueParser)
    requires Step(m, c, p, u).Fail?
    ensures Steps(m, [c] + rest, p, u) == Fail(Step(m, c, p, u).error)
  {
    StepsOne(m, c, rest, p, u);
  }

  /** A name at the start of a line is read in full. */
  lemma NameThen(m: Machine, name: string, s: string, p: int, u: ValueParser)
    requires AtLineStart(m) && IsIdentifier(name)
    ensures Steps(m, name + s, p, u) == Steps(m.(varName := name, state := InVariableName), s, p + |name|, u)
  {
    NameSteps(m, name, p, u);
    StepsAppend(m, name, s, p, u);
  }

  /** A name and " = " leave the machine waiting for the value's first character. */
  lemma HeadThen(m: Machine, name: string, s: string, p: int, u: ValueParser)
    requires AtLineStart(m) && IsIdentifier(name)
    ensures Steps(m, name + " = " + s, p, u) ==
      Steps(m.(varName := name, state := InEqualsSection, equalsFound := true), s, p + |name| + 3, u)
  {
    var n := m.(varName := name, state := InVariableName);
    assert name + " = " + s == name + (" = " + s);
    NameThen(m, name, " = " + s, p, u);
    EqualsSteps(n, p + |name|, u);
    StepsAppend(n, " = ", s, p + |name|, u);
  }

  /** A value's text is collected in full; what follows it decides the line. */
  lemma ValueThen(m: Machine, name: string, t: string, s: string, p: int, u: ValueParser)
    requires AtLineStart(m) && IsIdentifier(name)
    requires |t| > 0 && t[0] != '=' && !IsBlank(t[0])
    requires forall i :: 0 <= i < |t| ==> t[i] != '#' && !IsNewline(t[i])
    ensures Steps(m, name + " = " + t + s, p, u) ==
      Steps(m.(varName := name, state := InValue, value := t, equalsFound := true), s, p + |name| + 3 + |t|, u)
  {
    var b := m.(varName := name, state := InEqualsSection, equalsFound := true);
    assert name + " = " + t + s == name + " = " + (t + s);
    HeadThen(m, name, t + s, p, u);
    ValueSteps(b, t, p + |name| + 3, u);
    StepsAppend(b, t, s, p + |name| + 3, u);
  }

  // ---------------------------------------------------------------------------
  // One malformed line, on the machine
  // ---------------------------------------------------------------------------

  lemma LineBadNameChar(m: Machine, name: string, c: char, rest: string, p: int, u: ValueParser)
    requires AtLineStart(m) && IsIdentifier(name)
    requires c != '=' && !IsBlank(c) && !IsNewline(c) && !IsLetterOrDigit(c)
    ensures Steps(m, name + [c] + rest, p, u) == Fail(InvalidNameChar(c, p + |name|, m.lineNumber))
  {
    assert name + [c] + rest == name + ([c] + rest);
    NameThen(m, name, [c] + rest, p, u);
    FailsHere(m.(varName := name, state := InVariableName), c, rest, p + |name|, u);
  }

  lemma LineNoEquals(m: Machine, name: string, rest: string, p: int, u: ValueParser)
    requires AtLineStart(m) && IsIdentifier(name)
    ensures Steps(m, name + "\n" + rest, p, u) == Fail(MissingEquals(name, p + |name|, m.lineNumber + 1))
  {
    assert name + "\n" + rest == name + ("\n" + rest);
    NameThen(m, name, "\n" + rest, p, u);
    FailsHere(m.(varName := name, state := InVariableName), '\n', rest, p + |name|, u);
  }

  lemma LineValueWithoutEquals(m: Machine, name: string, c: char, rest: string, p: int, u: ValueParser)
    requires AtLineStart(m) && IsIdentifier(name)
    requires c != '=' && !IsBlank(c) && !IsNewline(c)
    ensures Steps(m, name + " " + [c] + rest, p, u) == Fail(MissingEquals(name, p + |name| + 1, m.lineNumber))
  {
    var n := m.(varName := name, state := InVariableName);
    Regroup(name, " ", [c], rest);
    NameThen(m, name, " " + ([c] + rest), p, u);
    StepsOne(n, ' ', [c] + rest, p + |name|, u);
    FailsHere(n.(state := InEqualsSection), c, rest, p + |name| + 1, u);
  }

  lemma LineNoValue(m: Machine, name: string, rest: string, p: int, u: ValueParser)
    requires AtLineStart(m) && IsIdentifier(name)
    ensures Steps(m, name + " = " + "\n" + rest, p, u) == Fail(MissingValue(p + |name| + 3, m.lineNumber + 1))
  {
    assert name + " = " + "\n" + rest == name + " = " + ("\n" + rest);
    HeadThen(m, name, "\n" + rest, p, u);
    FailsHere(m.(varName := name, state := InEqualsSection, equalsFound := true), '\n', rest, p + |name| + 3, u);
  }

  lemma LineRejected(m: Machine, name: string, t: string, rest: string, p: int, u: ValueParser, reason: ValueError)
    requires AtLineStart(m) && IsIdentifier(name) && ValueShape(t) && u(t) == Rejected(reason)
    ensures Steps(m, name + " = " + t + "\n" + rest, p, u) == Fail(Reported(reason, name, m.lineNumber + 1))
  {
    assert name + " = " + t + "\n" + rest == name + " = " + t + ("\n" + rest);
    ValueThen(m, name, t, "\n" + rest, p, u);
    var c := m.(varName := name, state := InValue, value := t, equalsFound := true);
    TrimUntouched(name);
    TrimUntouched(t);
    FinalizedRejects(c.(lineNumber := c.lineNumber + 1), u, reason);
    FailsHere(c, '\n', rest, p + |name| + 3 + |t|, u);
  }

  lemma LineEmpty(m: Machine, name: string, t: string, rest: string, p: int, u: ValueParser)
    requires AtLineStart(m) && IsIdentifier(name)
    requires |t| > 0 && t[0] != '=' && !IsBlank(t[0])
    requires forall i :: 0 <= i < |t| ==> IsTrimmable(t[i]) && t[i] != '#' && !IsNewline(t[i])
    ensures Steps(m, name + " = " + t + "\n" + rest, p, u) == Fail(EmptyValue(name, m.lineNumber + 1))
  {
    assert name + " = " + t + "\n" + rest == name + " = " + t + ("\n" + rest);
    ValueThen(m, name, t, "\n" + rest, p, u);
    var c := m.(varName := name, state := InValue, value := t, equalsFound := true);
    TrimUntouched(name);
    TrimShape(t);
    FinalizedEmpty(c.(lineNumber := c.lineNumber + 1), u);
    FailsHere(c, '\n', rest, p + |name| + 3 + |t|, u);
  }

  /** A last line without its newline leaves the value collected, and finalizing stores it. */
  lemma LineUnterminated(m: Machine, name: string, t: string, p: int, u: ValueParser)
    requires AtLineStart(m) && IsIdentifier(name) && ValueShape(t) && u(t).Valued?
    ensures var c := m.(varName := name, state := InValue, value := t, equalsFound := true);
      Steps(m, name + " = " + t, p, u) == Ok(c) &&
      Finalized(c, u) == Ok(m.(state := InValue, config := m.config[name := u(t).value]))
  {
    assert name + " = " + t + [] == name + " = " + t && t + Spaces(0) == t;
    ValueThen(m, name, t, [], p, u);
    PendingFinalized(m.(varName := name, state := InValue, value := t, equalsFound := true), t, 0, u);
  }

  // ---------------------------------------------------------------------------
  // After well-formed lines
  // ---------------------------------------------------------------------------

  /** A line may start only with a letter, '#', a blank or a newline. */
  lemma BadStartRejected(lines: seq<Line>, c: char, rest: string, u: ValueParser)
    requires AllWellFormed(lines, u)
    requires c != '#' && !IsBlank(c) && !IsNewline(c) && !IsLetter(c)
    ensures Parsed(Render(lines) + ([c] + rest), u) == Fail(InvalidStartChar(c, |Render(lines)|, 1 + |lines|))
  {
    FailsHere(After(lines, u), c, rest, |Render(lines)|, u);
    FailsAfter(lines, [c] + rest, u, InvalidStartChar(c, |Render(lines)|, 1 + |lines|));
  }

  /** A name holds letters and digits only. */
  lemma BadNameCharRejected(lines: seq<Line>, name: string, c: char, rest: string, u: ValueParser)
    requires AllWellFormed(lines, u) && IsIdentifier(name)
    requires c != '=' && !IsBlank(c) && !IsNewline(c) && !IsLetterOrDigit(c)
    ensures Parsed(Render(lines) + (name + [c] + rest), u) ==
      Fail(InvalidNameChar(c, |Render(lines)| + |name|, 1 + |lines|))
  {
    LineBadNameChar(After(lines, u), name, c, rest, |Render(lines)|, u);
    FailsAfter(lines, name + [c] + rest, u, InvalidNameChar(c, |Render(lines)| + |name|, 1 + |lines|));
  }

  /** A name alone on its line lacks its '='; the error names the line the newline starts. */
  lemma NewlineAfterNameRejected(lines: seq<Line>, name: string, rest: string, u: ValueParser)
    requires AllWellFormed(lines, u) && IsIdentifier(name)
    ensures Parsed(Render(lines) + (name + "\n" + rest), u) ==
      Fail(MissingEquals(name, |Render(lines)| + |name|, 2 + |lines|))
  {
    LineNoEquals(After(lines, u), name, rest, |Render(lines)|, u);
    FailsAfter(lines, name + "\n" + rest, u, MissingEquals(name, |Render(lines)| + |name|, 2 + |lines|));
  }

  /** A value without an '=' before it is a missing '='. */
  lemma ValueWithoutEqualsRejected(lines: seq<Line>, name: string, c: char, rest: string, u: ValueParser)
    requires AllWellFormed(lines, u) && IsIdentifier(name)
    requires c != '=' && !IsBlank(c) && !IsNewline(c)
    ensures Parsed(Render(lines) + (name + " " + [c] + rest), u) ==
      Fail(MissingEquals(name, |Render(lines)| + |name| + 1, 1 + |lines|))
  {
    LineValueWithoutEquals(After(lines, u), name, c, rest, |Render(lines)|, u);
    FailsAfter(lines, name + " " + [c] + rest, u, MissingEquals(name, |Render(lines)| + |name| + 1, 1 + |lines|));
  }

  /** An '=' with nothing after it on the line is a missing value. */
  lemma NewlineAfterEqualsRejected(lines: seq<Line>, name: string, rest: string, u: ValueParser)
    requires AllWellFormed(lines, u) && IsIdentifier(name)
    ensures Parsed(Render(lines) + (name + " = " + "\n" + rest), u) ==
      Fail(MissingValue(|Render(lines)| + |name| + 3, 2 + |lines|))
  {
    LineNoValue(After(lines, u), name, rest, |Render(lines)|, u);
    FailsAfter(lines, name + " = " + "\n" + rest, u, MissingValue(|Render(lines)| + |name| + 3, 2 + |lines|));
  }

  /** A value the value parser rejects fails the line with its reason, the name and the line. */
  lemma ValueRejected(lines: seq<Line>, name: string, t: string, rest: string, u: ValueParser, reason: ValueError)
    requires AllWellFormed(lines, u) && IsIdentifier(name) && ValueShape(t) && u(t) == Rejected(reason)
    ensures Parsed(Render(lines) + (name + " = " + t + "\n" + rest), u) == Fail(Reported(reason, name, 2 + |lines|))
  {
    LineRejected(After(lines, u), name, t, rest, |Render(lines)|, u, reason);
    FailsAfter(lines, name + " = " + t + "\n" + rest, u, Reported(reason, name, 2 + |lines|));
  }

  /** A value of control characters alone trims to nothing: the line fails as an empty value. */
  lemma EmptyValueRejected(lines: seq<Line>, name: string, t: string, rest: string, u: ValueParser)
    requires AllWellFormed(lines, u) && IsIdentifier(name)
    requires |t| > 0 && t[0] != '=' && !IsBlank(t[0])
    requires forall i :: 0 <= i < |t| ==> IsTrimmable(t[i]) && t[i] != '#' && !IsNewline(t[i])
    ensures Parsed(Render(lines) + (name + " = " + t + "\n" + rest), u) == Fail(EmptyValue(name, 2 + |lines|))
  {
    LineEmpty(After(lines, u), name, t, rest, |Render(lines)|, u);
    FailsAfter(lines, name + " = " + t + "\n" + rest, u, EmptyValue(name, 2 + |lines|));
  }

  /** Value text the pattern does not match is an invalid value format. */
  lemma MalformedValueRejected(lines: seq<Line>, name: string, t: string, rest: string)
    requires AllWellFormed(lines, JoshValue) && IsIdentifier(name) && ValueShape(t) && MatchValue(t).None?
    ensures Parsed(Render(lines) + (name + " = " + t + "\n" + rest), JoshValue) ==
      Fail(InvalidValueFormat(t, name, 2 + |lines|))
  {
    TrimUntouched(t);
    ValueRejected(lines, name, t, rest, JoshValue, BadFormat(t));
  }

  /** A number with units Units.of rejects is invalid units. */
  lemma BadUnitsRejected(lines: seq<Line>, name: string, number: string, units: string, rest: string)
    requires AllWellFormed(lines, JoshValue) && IsIdentifier(name) && IsJoshNumber(number) && UnitsText(units)
    requires units != [] && OfDescription(units).Failure? && OfDescription(units).error.kind == IllegalArgument
    ensures Parsed(Render(lines) + (name + " = " + ValueText(number, units) + "\n" + rest), JoshValue) ==
      Fail(InvalidUnits(units, name, 2 + |lines|))
  {
    ValueTextShape(number, units);
    JoshValueText(number, units);
    ValueRejected(lines, name, ValueText(number, units), rest, JoshValue, BadUnits(units));
  }

  /** A last line cut off by the end of the input still stores its value. */
  lemma UnterminatedLastLine(lines: seq<Line>, name: string, t: string, u: ValueParser)
    requires AllWellFormed(lines, u) && IsIdentifier(name) && ValueShape(t) && u(t).Valued?
    ensures Parsed(Render(lines) + (name + " = " + t), u) == Ok(Collect(map[], lines, u)[name := u(t).value])
  {
    LineUnterminated(After(lines, u), name, t, |Render(lines)|, u);
    RunsAfter(lines, name + " = " + t, u);
  }
}

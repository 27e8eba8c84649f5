/**
 * The .jshc configuration parser (engine/config/ConfigInputParser.java): a character-level
 * automaton that reads lines "name = number units", skipping blank lines and '#' comments,
 * and collects the values into a configuration keyed by variable name.
 */
module ConfigParsing {
  import opened Wrappers
  import opened Strings
  import opened UnitsAlgebra

  datatype State = Idle | InComment | InVariableName | InEqualsSection | InValue

  /** A configured value: the number text as written and its units. */
  datatype ConfigValue = ConfigValue(number: string, units: Units)

  /** ConfigBuilder.build(): later values for a name replace earlier ones. */
  type Config = map<string, ConfigValue>

  /** The IllegalArgumentException the parser throws, by message. */
  datatype ParseError =
    | InvalidStartChar(c: char, position: int, line: int)
    | EmptyName(position: int, line: int)
    | MissingEquals(name: string, position: int, line: int)
    | InvalidNameChar(c: char, position: int, line: int)
    | MissingValue(position: int, line: int)
    | EmptyValue(name: string, line: int)
    | InvalidValueFormat(value: string, name: string, line: int)
    | InvalidUnits(units: string, name: string, line: int)
    | UnitsFailure(error: Error)

  datatype Outcome<T> = Ok(value: T) | Fail(error: ParseError)

  /** Units.of, which parseValueWithUnits calls on the units text. */
  type UnitsParser = string -> Result<Units>

  /** Why parseValueWithUnits rejects a value; the parser adds the name and the line. */
  datatype ValueError =
    | BadFormat(text: string)
    | BadUnits(units: string)
    | UnitsThrew(error: Error)

  datatype ValueOutcome = Valued(value: ConfigValue) | Rejected(reason: ValueError)

  /** parseValueWithUnits(valueString, variableName). */
  type ValueParser = string -> ValueOutcome

  /** The exception parseValueWithUnits throws for a rejected value of the named variable. */
  function Reported(reason: ValueError, name: string, line: int): ParseError
  {
    match reason
    case BadFormat(t) => InvalidValueFormat(t, name, line)
    case BadUnits(t) => InvalidUnits(t, name, line)
    case UnitsThrew(e) => UnitsFailure(e)
  }

  /** The parser's fields between two characters. */
  datatype Machine = Machine(state: State, varName: string, value: string, config: Config,
                             lineNumber: int, equalsFound: bool)

  /** reset(). */
  const INITIAL: Machine := Machine(Idle, "", "", map[], 1, false)

  /** Character.isLetter and isLetterOrDigit, restricted to ASCII. */
  predicate IsLetter(c: char)
  {
    'A' <= c <= 'Z' || 'a' <= c <= 'z'
  }

  predicate IsDigit(c: char)
  {
    '0' <= c <= '9'
  }

  predicate IsLetterOrDigit(c: char)
  {
    IsLetter(c) || IsDigit(c)
  }

  predicate IsNewline(c: char)
  {
    c == '\n' || c == '\r'
  }

  predicate IsBlank(c: char)
  {
    c == ' ' || c == '\t'
  }

  // ---------------------------------------------------------------------------
  // The automaton, one character at a time
  // ---------------------------------------------------------------------------

  function IdleStep(m: Machine, c: char, position: int): Outcome<Machine>
  {
    if c == '#' then Ok(m.(state := InComment))
    else if IsBlank(c) || IsNewline(c) then Ok(m.(state := Idle))
    else if IsLetter(c) then Ok(m.(varName := [c], state := InVariableName))
    else Fail(InvalidStartChar(c, position, m.lineNumber))
  }

  function CommentStep(m: Machine, c: char): Outcome<Machine>
  {
    if IsNewline(c) then Ok(m.(state := Idle)) else Ok(m.(state := InComment))
  }

  function NameStep(m: Machine, c: char, position: int): Outcome<Machine>
  {
    if c == '=' then
      if |m.varName| == 0 then Fail(EmptyName(position, m.lineNumber))
      else Ok(m.(equalsFound := true, state := InEqualsSection))
    else if IsBlank(c) then Ok(m.(state := InEqualsSection))
    else if IsNewline(c) then Fail(MissingEquals(m.varName, position, m.lineNumber))
    else if IsLetterOrDigit(c) then Ok(m.(varName := m.varName + [c], state := InVariableName))
    else Fail(InvalidNameChar(c, position, m.lineNumber))
  }

  function EqualsStep(m: Machine, c: char, position: int): Outcome<Machine>
  {
    if c == '=' then Ok(m.(equalsFound := true, state := InEqualsSection))
    else if IsBlank(c) then Ok(m.(state := InEqualsSection))
    else if IsNewline(c) then
      if m.equalsFound then Fail(MissingValue(position, m.lineNumber))
      else Fail(MissingEquals(m.varName, position, m.lineNumber))
    else if !m.equalsFound then Fail(MissingEquals(m.varName, position, m.lineNumber))
    else Ok(m.(value := [c], state := InValue))
  }

  function ValueStep(m: Machine, c: char, valueOf: ValueParser): Outcome<Machine>
  {
    if IsNewline(c) then
      match Finalized(m, valueOf)
      case Fail(e) => Fail(e)
      case Ok(f) => Ok(f.(state := Idle))
    else if c == '#' then
      match Finalized(m, valueOf)
      case Fail(e) => Fail(e)
      case Ok(f) => Ok(f.(state := InComment))
    else Ok(m.(value := m.value + [c], state := InValue))
  }

  /** finalizeVariable(): the trimmed value is parsed and stored under the trimmed name, and
      the name, value and equals flag are reset; nothing happens without a name. */
  function Finalized(m: Machine, valueOf: ValueParser): Outcome<Machine>
  {
    if |m.varName| == 0 then Ok(m)
    else
      var name := Trim(m.varName);
      var valueString := Trim(m.value);
      if valueString == [] then Fail(EmptyValue(name, m.lineNumber))
      else
        match valueOf(valueString)
        case Rejected(reason) => Fail(Reported(reason, name, m.lineNumber))
        case Valued(v) => Ok(m.(config := m.config[name := v], varName := "", value := "", equalsFound := false))
  }

  /** One iteration of the loop in parse(): count the newline, then dispatch on the state. */
  function Step(m: Machine, c: char, position: int, valueOf: ValueParser): Outcome<Machine>
  {
    Dispatch(if c == '\n' then m.(lineNumber := m.lineNumber + 1) else m, c, position, valueOf)
  }

  /** The switch on currentState in parse(). */
  function Dispatch(n: Machine, c: char, position: int, valueOf: ValueParser): Outcome<Machine>
  {
    match n.state
    case Idle => IdleStep(n, c, position)
    case InComment => CommentStep(n, c)
    case InVariableName => NameStep(n, c, position)
    case InEqualsSection => EqualsStep(n, c, position)
    case InValue => ValueStep(n, c, valueOf)
  }

  /** The machine after the characters of s, the first of which is at the given position. */
  function Steps(m: Machine, s: string, position: int, valueOf: ValueParser): Outcome<Machine>
    decreases |s|
  {
    if |s| == 0 then Ok(m)
    else
      match Step(m, s[0], position, valueOf)
      case Fail(e) => Fail(e)
      case Ok(n) => Steps(n, s[1..], position + 1, valueOf)
  }

  function Then(r: Outcome<Machine>, s: string, position: int, valueOf: ValueParser): Outcome<Machine>
  {
    match r
    case Fail(e) => Fail(e)
    case Ok(m) => Steps(m, s, position, valueOf)
  }

  /** parse(input): run the automaton, finalize a value cut off by the end of input. */
  function Final(input: string, valueOf: ValueParser): Outcome<Machine>
  {
    match Steps(INITIAL, input, 0, valueOf)
    case Fail(e) => Fail(e)
    case Ok(m) => if m.state == InValue then Finalized(m, valueOf) else Ok(m)
  }

  function Parsed(input: string, valueOf: ValueParser): Outcome<Config>
  {
    match Final(input, valueOf)
    case Fail(e) => Fail(e)
    case Ok(m) => Ok(m.config)
  }

  // ---------------------------------------------------------------------------
  // parseValueWithUnits: ^([+-]?\d+(?:\.\d+)?)\s*(.*)$
  // ---------------------------------------------------------------------------

  /** The characters \s stands for in a Java regular expression. */
  predicate IsRegexSpace(c: char)
  {
    c == ' ' || c == '\t' || c == '\n' || c == '\U{000B}' || c == '\U{000C}' || c == '\r'
  }

  /** The characters '.' does not match in a Java regular expression. */
  predicate IsLineTerminator(c: char)
  {
    c == '\n' || c == '\r' || c == '\U{0085}' || c == '\U{2028}' || c == '\U{2029}'
  }

  function DigitRun(s: string): (n: nat)
    ensures n <= |s|
    ensures forall k :: 0 <= k < n ==> IsDigit(s[k])
    ensures n < |s| ==> !IsDigit(s[n])
  {
    if |s| == 0 || !IsDigit(s[0]) then 0 else 1 + DigitRun(s[1..])
  }

  function SpaceRun(s: string): (n: nat)
    ensures n <= |s|
    ensures forall k :: 0 <= k < n ==> IsRegexSpace(s[k])
    ensures n < |s| ==> !IsRegexSpace(s[n])
  {
    if |s| == 0 || !IsRegexSpace(s[0]) then 0 else 1 + SpaceRun(s[1..])
  }

  /** The number Josh accepts: an optional sign, digits, and optionally '.' and digits. */
  predicate IsJoshNumber(n: string)
  {
    var sign := if |n| > 0 && (n[0] == '+' || n[0] == '-') then 1 else 0;
    var whole := DigitRun(n[sign..]);
    whole > 0 &&
    (sign + whole == |n| ||
     (n[sign + whole] == '.' && sign + whole + 1 < |n| && DigitRun(n[sign + whole + 1..]) == |n| - sign - whole - 1))
  }

  /** The length of the longest prefix of t that groups 1 captures, or 0 when there is none. */
  function NumberLength(t: string): (n: nat)
    ensures n <= |t|
  {
    var sign := if |t| > 0 && (t[0] == '+' || t[0] == '-') then 1 else 0;
    var whole := DigitRun(t[sign..]);
    if whole == 0 then 0
    else
      var end := sign + whole;
      if end + 1 < |t| && t[end] == '.' && IsDigit(t[end + 1]) then end + 1 + DigitRun(t[end + 1..])
      else end
  }

  /** Matcher.matches() with the two groups, or None when the value does not match. */
  function MatchValue(t: string): (r: Option<(string, string)>)
    ensures r.Some? ==> IsJoshNumber(r.value.0)
    ensures r.Some? ==> (forall c :: c in r.value.1 ==> !IsLineTerminator(c))
  {
    var n := NumberLength(t);
    if n == 0 then None
    else
      var rest := t[n..];
      var ws := SpaceRun(rest);
      var group2 := rest[ws..];
      if exists c :: c in group2 && IsLineTerminator(c) then None
      else assert IsJoshNumber(t[..n]) by { NumberLengthIsNumber(t); } Some((t[..n], group2))
  }

  lemma NumberLengthIsNumber(t: string)
    requires NumberLength(t) > 0
    ensures IsJoshNumber(t[..NumberLength(t)])
  {
    var n := t[..NumberLength(t)];
    var sign := if |t| > 0 && (t[0] == '+' || t[0] == '-') then 1 else 0;
    var whole := DigitRun(t[sign..]);
    var end := sign + whole;
    WholeDigitsKept(t, n, sign);
    if end + 1 < |t| && t[end] == '.' && IsDigit(t[end + 1]) {
      FractionDigitsKept(t, n, end);
    }
  }

  /** The sign and the digits before the point survive cutting t down to a prefix that covers them. */
  lemma WholeDigitsKept(t: string, n: string, sign: nat)
    requires sign == (if |t| > 0 && (t[0] == '+' || t[0] == '-') then 1 else 0)
    requires sign + DigitRun(t[sign..]) <= |n| <= |t| && n == t[..|n|] && |n| > 0
    ensures n[0] == t[0] && DigitRun(n[sign..]) == DigitRun(t[sign..])
  {
    assert n[sign..] == t[sign..][..|n| - sign];
    DigitRunPrefix(t[sign..], n[sign..]);
  }

  /** The digits after the point survive cutting t down to the end of their run. */
  lemma FractionDigitsKept(t: string, n: string, end: nat)
    requires end + 1 < |t| && |n| == end + 1 + DigitRun(t[end + 1..]) && n == t[..|n|]
    ensures n[end] == t[end]
    ensures DigitRun(n[end + 1..]) == |n| - end - 1
  {
    assert n[end + 1..] == t[end + 1..][..|n| - end - 1];
    DigitRunPrefix(t[end + 1..], n[end + 1..]);
  }

  /** A prefix of s that covers its digit run and is no longer has the same digit run. */
  lemma {:induction false} DigitRunPrefix(s: string, p: string)
    requires |p| <= |s| && p == s[..|p|] && DigitRun(s) <= |p|
    ensures DigitRun(p) == DigitRun(s)
  {
    if |p| > 0 && IsDigit(s[0]) {
      DigitRunPrefix(s[1..], p[1..]);
    }
  }

  /** The value text is matched, the units are parsed; empty units are Units.EMPTY. */
  function ValueWithUnits(valueString: string, unitsOf: UnitsParser): (r: ValueOutcome)
    ensures r.Valued? ==> MatchValue(Trim(valueString)).Some? && r.value.number == MatchValue(Trim(valueString)).value.0
    ensures MatchValue(Trim(valueString)).None? ==> r == Rejected(BadFormat(Trim(valueString)))
  {
    var trimmed := Trim(valueString);
    match MatchValue(trimmed)
    case None => Rejected(BadFormat(trimmed))
    case Some((number, group2)) => NumberWithUnits(number, Trim(group2), unitsOf)
  }

  /** The try block of parseValueWithUnits: the number with Units.EMPTY when the units text is
      empty, otherwise with Units.of of it; an IllegalArgumentException from Units.of becomes
      "Invalid units", any other exception passes through. */
  function NumberWithUnits(number: string, unitsPart: string, unitsOf: UnitsParser): (r: ValueOutcome)
    ensures r.Valued? ==> r.value.number == number
    ensures unitsPart == [] ==> r == Valued(ConfigValue(number, EMPTY))
    ensures unitsPart != [] && unitsOf(unitsPart).Success? ==> r == Valued(ConfigValue(number, unitsOf(unitsPart).value))
    ensures unitsPart != [] && unitsOf(unitsPart).Failure? ==>
      r == Rejected(if unitsOf(unitsPart).error.kind == IllegalArgument then BadUnits(unitsPart)
                    else UnitsThrew(unitsOf(unitsPart).error))
  {
    if unitsPart == [] then Valued(ConfigValue(number, EMPTY))
    else
      match unitsOf(unitsPart)
      case Success(u) => Valued(ConfigValue(number, u))
      case Failure(e) =>
        if e.kind == IllegalArgument then Rejected(BadUnits(unitsPart)) else Rejected(UnitsThrew(e))
  }

  /** The value parser parse() uses: the regular expression, then Units.of taken as its cache-free
      result OfDescription, which is what the cache returns while every entry is valid. */
  function JoshValue(valueString: string): ValueOutcome
  {
    ValueWithUnits(valueString, OfDescription)
  }

  // ---------------------------------------------------------------------------
  // The parser object
  // ---------------------------------------------------------------------------

  class ConfigInputParser {
    var currentState: State
    var varName: string
    var value: string
    var builder: Config
    var lineNumber: int
    var equalsFound: bool

    function Snapshot(): Machine
      reads this
    {
      Machine(currentState, varName, value, builder, lineNumber, equalsFound)
    }

    constructor()
      ensures Snapshot() == INITIAL
    {
      currentState := Idle;
      varName := "";
      value := "";
      builder := map[];
      lineNumber := 1;
      equalsFound := false;
    }

    method Reset()
      modifies this
      ensures Snapshot() == INITIAL
    {
      currentState := Idle;
      varName := "";
      value := "";
      builder := map[];
      lineNumber := 1;
      equalsFound := false;
    }

    /** parse(input): the configuration, or the first error, as the automaton gives them;
        after a successful parse the fields hold the final machine. */
    method Parse(input: string) returns (r: Outcome<Config>)
      modifies this
      ensures r == Parsed(input, JoshValue)
      ensures r.Ok? ==> Snapshot() == Final(input, JoshValue).value
    {
      Reset();
      var i := 0;
      while i < |input|
        invariant 0 <= i <= |input|
        invariant Steps(INITIAL, input, 0, JoshValue) == Steps(Snapshot(), input[i..], i, JoshValue)
      {
        var c := input[i];
        assert input[i..][0] == c && input[i..][1..] == input[i + 1..];
        var next := Advance(c, i);
        if next.Fail? {
          return Fail(next.error);
        }
        currentState := next.value;
        i := i + 1;
      }
      if currentState == InValue {
        var err := FinalizeVariable();
        if err.Some? {
          return Fail(err.value);
        }
      }
      return Ok(builder);
    }

    /** The body of the loop in parse(): count the newline, then dispatch on the state. */
    method Advance(c: char, position: int) returns (next: Outcome<State>)
      modifies this
      ensures Following(old(Snapshot()), Step(old(Snapshot()), c, position, JoshValue), next, Snapshot())
    {
      ghost var before := Snapshot();
      if c == '\n' {
        lineNumber := lineNumber + 1;
      }
      assert Step(before, c, position, JoshValue) == Dispatch(Snapshot(), c, position, JoshValue);
      match currentState {
        case Idle => next := ProcessIdle(c, position);
        case InComment => next := ProcessComment(c);
        case InVariableName => next := ProcessVariableName(c, position);
        case InEqualsSection => next := ProcessEqualsSection(c, position);
        case InValue => next := ProcessValue(c);
      }
    }

    method ProcessIdle(c: char, position: int) returns (next: Outcome<State>)
      modifies this
      ensures Following(old(Snapshot()), IdleStep(old(Snapshot()), c, position), next, Snapshot())
    {
      if c == '#' {
        return Ok(InComment);
      } else if IsBlank(c) || IsNewline(c) {
        return Ok(Idle);
      } else if IsLetter(c) {
        varName := [c];
        return Ok(InVariableName);
      }
      return Fail(InvalidStartChar(c, position, lineNumber));
    }

    method ProcessComment(c: char) returns (next: Outcome<State>)
      modifies this
      ensures Following(old(Snapshot()), CommentStep(old(Snapshot()), c), next, Snapshot())
    {
      if IsNewline(c) {
        return Ok(Idle);
      }
      return Ok(InComment);
    }

    method ProcessVariableName(c: char, position: int) returns (next: Outcome<State>)
      modifies this
      ensures Following(old(Snapshot()), NameStep(old(Snapshot()), c, position), next, Snapshot())
    {
      if c == '=' {
        if |varName| == 0 {
          return Fail(EmptyName(position, lineNumber));
        }
        equalsFound := true;
        return Ok(InEqualsSection);
      } else if IsBlank(c) {
        return Ok(InEqualsSection);
      } else if IsNewline(c) {
        return Fail(MissingEquals(varName, position, lineNumber));
      } else if IsLetterOrDigit(c) {
        varName := varName + [c];
        return Ok(InVariableName);
      }
      return Fail(InvalidNameChar(c, position, lineNumber));
    }

    method ProcessEqualsSection(c: char, position: int) returns (next: Outcome<State>)
      modifies this
      ensures Following(old(Snapshot()), EqualsStep(old(Snapshot()), c, position), next, Snapshot())
    {
      if c == '=' {
        if !equalsFound {
          equalsFound := true;
        }
        return Ok(InEqualsSection);
      } else if IsBlank(c) {
        return Ok(InEqualsSection);
      }
      if IsNewline(c) {
        if equalsFound {
          return Fail(MissingValue(position, lineNumber));
        }
        return Fail(MissingEquals(varName, position, lineNumber));
      }
      if !equalsFound {
        return Fail(MissingEquals(varName, position, lineNumber));
      }
      value := [c];
      return Ok(InValue);
    }

    method ProcessValue(c: char) returns (next: Outcome<State>)
      modifies this
      ensures Following(old(Snapshot()), ValueStep(old(Snapshot()), c, JoshValue), next, Snapshot())
    {
      if IsNewline(c) {
        var err := FinalizeVariable();
        if err.Some? {
          return Fail(err.value);
        }
        return Ok(Idle);
      } else if c == '#' {
        var err := FinalizeVariable();
        if err.Some? {
          return Fail(err.value);
        }
        return Ok(InComment);
      }
      value := value + [c];
      return Ok(InValue);
    }

    method FinalizeVariable() returns (err: Option<ParseError>)
      modifies this
      ensures match Finalized(old(Snapshot()), JoshValue)
        case Fail(e) => err == Some(e)
        case Ok(n) => err == None && Snapshot() == n
    {
      ghost var m := Snapshot();
      if |varName| == 0 {
        FinalizedUnnamed(m, JoshValue);
        return None;
      }
      var variableName := Trim(varName);
      var valueString := Trim(value);
      if valueString == [] {
        FinalizedEmpty(m, JoshValue);
        return Some(EmptyValue(variableName, lineNumber));
      }
      var engineValue := JoshValue(valueString);
      if engineValue.Rejected? {
        FinalizedRejects(m, JoshValue, engineValue.reason);
        return Some(Reported(engineValue.reason, variableName, lineNumber));
      }
      FinalizedStores(m, JoshValue, engineValue.value);
      ghost var after := m.(config := m.config[variableName := engineValue.value], varName := "", value := "", equalsFound := false);
      Store(variableName, engineValue.value);
      return None;
    }

    /** The success path of finalizeVariable(): record the value and clear the pending variable. */
    method Store(name: string, v: ConfigValue)
      modifies this
      ensures Snapshot() == old(Snapshot()).(config := old(builder)[name := v], varName := "", value := "", equalsFound := false)
    {
      builder := builder[name := v];
      varName := "";
      value := "";
      equalsFound := false;
    }
  }

  lemma FinalizedUnnamed(m: Machine, valueOf: ValueParser)
    requires |m.varName| == 0
    ensures Finalized(m, valueOf) == Ok(m)
  {
  }

  lemma FinalizedEmpty(m: Machine, valueOf: ValueParser)
    requires |m.varName| > 0 && Trim(m.value) == []
    ensures Finalized(m, valueOf) == Fail(EmptyValue(Trim(m.varName), m.lineNumber))
  {
  }

  lemma FinalizedRejects(m: Machine, valueOf: ValueParser, reason: ValueError)
    requires |m.varName| > 0 && Trim(m.value) != []
    requires valueOf(Trim(m.value)) == Rejected(reason)
    ensures Finalized(m, valueOf) == Fail(Reported(reason, Trim(m.varName), m.lineNumber))
  {
  }

  lemma FinalizedStores(m: Machine, valueOf: ValueParser, v: ConfigValue)
    requires |m.varName| > 0 && Trim(m.value) != []
    requires valueOf(Trim(m.value)) == Valued(v)
    ensures Finalized(m, valueOf) == Ok(m.(config := m.config[Trim(m.varName) := v], varName := "", value := "", equalsFound := false))
  {
  }

  /** A process method agrees with its step function: the same error, or the same next
      state with every other field as the step function leaves it. */
  predicate Following(before: Machine, spec: Outcome<Machine>, next: Outcome<State>, after: Machine)
  {
    match spec
    case Fail(e) => next == Fail(e)
    case Ok(n) => next == Ok(n.state) && after == n.(state := before.state)
  }
}

/**
 * Properties of the .jshc automaton of ConfigParsing: how runs compose, how the line counter
 * moves, which inputs are rejected with which error, and that well-formed configuration text
 * parses to exactly the values it lists.
 */
module ConfigProperties {
  import opened Wrappers
  import opened Strings
  import opened UnitsAlgebra
  import opened ConfigParsing

  // ---------------------------------------------------------------------------
  // Composing runs
  // ---------------------------------------------------------------------------

  /** Running over a + b is running over a, then over b from where a left off. */
  lemma {:induction false} StepsAppend(m: Machine, a: string, b: string, p: int, u: ValueParser)
    ensures Steps(m, a + b, p, u) == Then(Steps(m, a, p, u), b, p + |a|, u)
    decreases |a|
  {
    if |a| == 0 {
      assert a + b == b;
    } else {
      assert (a + b)[0] == a[0] && (a + b)[1..] == a[1..] + b;
      match Step(m, a[0], p, u)
      case Fail(e) =>
      case Ok(n) => StepsAppend(n, a[1..], b, p + 1, u);
    }
  }

  /** Two runs of the machine compose into one. */
  lemma StepsThrough(m: Machine, a: string, b: string, p: int, u: ValueParser, mid: Machine, end: Machine)
    requires Steps(m, a, p, u) == Ok(mid) && Steps(mid, b, p + |a|, u) == Ok(end)
    ensures Steps(m, a + b, p, u) == Ok(end)
  {
    StepsAppend(m, a, b, p, u);
  }

  // ---------------------------------------------------------------------------
  // The line counter
  // ---------------------------------------------------------------------------

  function NewlineCount(s: string): (n: nat)
    ensures n <= |s|
    ensures (forall i :: 0 <= i < |s| ==> s[i] != '\n') ==> n == 0
  {
    if |s| == 0 then 0 else NewlineCount(s[..|s| - 1]) + (if s[|s| - 1] == '\n' then 1 else 0)
  }

  /** finalizeVariable() changes neither the state nor the line counter. */
  lemma FinalizedKeepsPlace(m: Machine, u: ValueParser)
    ensures Finalized(m, u).Ok? ==> Finalized(m, u).value.lineNumber == m.lineNumber && Finalized(m, u).value.state == m.state
  {
  }

  /** One character moves the line counter by one exactly when it is '\n'. */
  lemma StepLine(m: Machine, c: char, p: int, u: ValueParser)
    ensures Step(m, c, p, u).Ok? ==> Step(m, c, p, u).value.lineNumber == m.lineNumber + (if c == '\n' then 1 else 0)
  {
    DispatchLine(if c == '\n' then m.(lineNumber := m.lineNumber + 1) else m, c, p, u);
  }

  lemma DispatchLine(n: Machine, c: char, p: int, u: ValueParser)
    ensures Dispatch(n, c, p, u).Ok? ==> Dispatch(n, c, p, u).value.lineNumber == n.lineNumber
  {
    match n.state
    case Idle =>
    case InComment =>
    case InVariableName =>
    case InEqualsSection =>
    case InValue => FinalizedKeepsPlace(n, u);
  }

  lemma StepsSingle(m: Machine, c: char, p: int, u: ValueParser)
    ensures Steps(m, [c], p, u) == Step(m, c, p, u)
  {
    assert [c][1..] == [];
  }

  lemma {:induction false} LineNumberCounts(m: Machine, s: string, p: int, u: ValueParser)
    ensures Steps(m, s, p, u).Ok? ==> Steps(m, s, p, u).value.lineNumber == m.lineNumber + NewlineCount(s)
    decreases |s|
  {
    if |s| > 0 {
      var a, c := s[..|s| - 1], s[|s| - 1];
      assert s == a + [c];
      StepsAppend(m, a, [c], p, u);
      LineNumberCounts(m, a, p, u);
      match Steps(m, a, p, u)
      case Fail(_) =>
      case Ok(n) =>
        StepsSingle(n, c, p + |a|, u);
        StepLine(n, c, p + |a|, u);
    }
  }

  /** The line an error message names, for the errors that carry one. */
  function ErrorLine(e: ParseError): Option<int>
  {
    match e
    case InvalidStartChar(_, _, line) => Some(line)
    case EmptyName(_, line) => Some(line)
    case MissingEquals(_, _, line) => Some(line)
    case InvalidNameChar(_, _, line) => Some(line)
    case MissingValue(_, line) => Some(line)
    case EmptyValue(_, line) => Some(line)
    case InvalidValueFormat(_, _, line) => Some(line)
    case InvalidUnits(_, _, line) => Some(line)
    case UnitsFailure(_) => None
  }

  lemma FinalizedErrorLine(m: Machine, u: ValueParser)
    ensures Finalized(m, u).Fail? && ErrorLine(Finalized(m, u).error).Some? ==>
      ErrorLine(Finalized(m, u).error) == Some(m.lineNumber)
  {
  }

  lemma DispatchErrorLine(n: Machine, c: char, p: int, u: ValueParser)
    ensures Dispatch(n, c, p, u).Fail? && ErrorLine(Dispatch(n, c, p, u).error).Some? ==>
      ErrorLine(Dispatch(n, c, p, u).error) == Some(n.lineNumber)
  {
    match n.state
    case Idle =>
    case InComment =>
    case InVariableName =>
    case InEqualsSection =>
    case InValue => FinalizedErrorLine(n, u);
  }

  /** A run fails with the error of its first failing character. */
  lemma FailureAt(m: Machine, s: string, p: int, u: ValueParser, i: int)
    requires 0 <= i < |s| && Steps(m, s[..i], p, u).Ok?
    requires Step(Steps(m, s[..i], p, u).value, s[i], p + i, u).Fail?
    ensures Steps(m, s, p, u) == Fail(Step(Steps(m, s[..i], p, u).value, s[i], p + i, u).error)
  {
    var rest := [s[i]] + s[i + 1..];
    assert s == s[..i] + rest;
    assert rest[0] == s[i];
    StepsAppend(m, s[..i], rest, p, u);
  }

  /** An error raised at character i names line 1 + the number of '\n' in input[..i + 1]:
      the counter has already moved when the character is itself a newline. */
  lemma ErrorLineCounts(input: string, u: ValueParser, i: int)
    requires 0 <= i < |input| && Steps(INITIAL, input[..i], 0, u).Ok?
    requires Step(Steps(INITIAL, input[..i], 0, u).value, input[i], i, u).Fail?
    ensures var e := Step(Steps(INITIAL, input[..i], 0, u).value, input[i], i, u).error;
      Parsed(input, u) == Fail(e) &&
      (ErrorLine(e).Some? ==> ErrorLine(e) == Some(1 + NewlineCount(input[..i + 1])))
  {
    var n := Steps(INITIAL, input[..i], 0, u).value;
    FailureAt(INITIAL, input, 0, u, i);
    LineNumberCounts(INITIAL, input[..i], 0, u);
    var c := input[i];
    DispatchErrorLine(if c == '\n' then n.(lineNumber := n.lineNumber + 1) else n, c, i, u);
    assert input[..i + 1][..i] == input[..i];
  }

  /** A value cut off by the end of input is finalized there, and its error names the last line. */
  lemma EndOfInputErrorLine(input: string, u: ValueParser)
    requires Steps(INITIAL, input, 0, u).Ok? && Steps(INITIAL, input, 0, u).value.state == InValue
    requires Finalized(Steps(INITIAL, input, 0, u).value, u).Fail?
    ensures var e := Finalized(Steps(INITIAL, input, 0, u).value, u).error;
      Parsed(input, u) == Fail(e) &&
      (ErrorLine(e).Some? ==> ErrorLine(e) == Some(1 + NewlineCount(input)))
  {
    LineNumberCounts(INITIAL, input, 0, u);
    FinalizedErrorLine(Steps(INITIAL, input, 0, u).value, u);
  }

  // ---------------------------------------------------------------------------
  // Runs over the pieces of a line
  // ---------------------------------------------------------------------------

  /** isValidVariableNameStart / isValidVariableNameChar over a whole name. */
  predicate IsIdentifier(w: string)
  {
    |w| > 0 && IsLetter(w[0]) && forall i :: 0 <= i < |w| ==> IsLetterOrDigit(w[i])
  }

  predicate NoNewline(t: string)
  {
    forall i :: 0 <= i < |t| ==> !IsNewline(t[i])
  }

  /** Text that the automaton takes as a value: it starts with a character that cannot belong
      to the gap around '=', never ends the value early, and loses nothing to trim. */
  predicate ValueShape(t: string)
  {
    |t| > 0 && t[0] != '=' && !IsTrimmable(t[0]) && !IsTrimmable(t[|t| - 1]) &&
    forall i :: 0 <= i < |t| ==> t[i] != '#' && !IsNewline(t[i])
  }

  /** A machine between two lines: no pending name, value or '='. */
  predicate AtLineStart(m: Machine)
  {
    m.state == Idle && m.varName == "" && m.value == "" && !m.equalsFound
  }

  lemma StepsOne(m: Machine, c: char, rest: string, p: int, u: ValueParser)
    ensures Steps(m, [c] + rest, p, u) == Then(Step(m, c, p, u), rest, p + 1, u)
  {
    assert ([c] + rest)[0] == c && ([c] + rest)[1..] == rest;
  }

  /** Letters and digits extend the name. */
  lemma {:induction false} NameRun(m: Machine, w: string, p: int, u: ValueParser)
    requires m.state == InVariableName
    requires forall i :: 0 <= i < |w| ==> IsLetterOrDigit(w[i])
    ensures Steps(m, w, p, u) == Ok(m.(varName := m.varName + w))
    decreases |w|
  {
    if |w| == 0 {
      assert m.varName + w == m.varName;
    } else {
      var n := m.(varName := m.varName + [w[0]]);
      assert Step(m, w[0], p, u) == Ok(n);
      assert w == [w[0]] + w[1..];
      StepsOne(m, w[0], w[1..], p, u);
      NameRun(n, w[1..], p + 1, u);
      assert n.varName + w[1..] == m.varName + w;
    }
  }

  /** From Idle, an identifier becomes the pending name. */
  lemma NameSteps(m: Machine, name: string, p: int, u: ValueParser)
    requires m.state == Idle && IsIdentifier(name)
    ensures Steps(m, name, p, u) == Ok(m.(varName := name, state := InVariableName))
  {
    var n := m.(varName := [name[0]], state := InVariableName);
    assert Step(m, name[0], p, u) == Ok(n);
    assert name == [name[0]] + name[1..];
    StepsOne(m, name[0], name[1..], p, u);
    NameRun(n, name[1..], p + 1, u);
  }

  /** " = " after a name records the equals sign. */
  lemma EqualsSteps(m: Machine, p: int, u: ValueParser)
    requires m.state == InVariableName && |m.varName| > 0
    ensures Steps(m, " = ", p, u) == Ok(m.(state := InEqualsSection, equalsFound := true))
  {
    var a := m.(state := InEqualsSection);
    var b := a.(equalsFound := true);
    assert Step(m, ' ', p, u) == Ok(a);
    assert Step(a, '=', p + 1, u) == Ok(b);
    assert Step(b, ' ', p + 2, u) == Ok(b);
    assert " = " == [' '] + ([' ', '='][1..] + [' ']);
    StepsOne(m, ' ', "= ", p, u);
    StepsOne(a, '=', " ", p + 1, u);
    StepsOne(b, ' ', "", p + 2, u);
  }

  /** Characters other than a newline and '#' extend the value. */
  lemma {:induction false} ValueRun(m: Machine, w: string, p: int, u: ValueParser)
    requires m.state == InValue
    requires forall i :: 0 <= i < |w| ==> w[i] != '#' && !IsNewline(w[i])
    ensures Steps(m, w, p, u) == Ok(m.(value := m.value + w))
    decreases |w|
  {
    if |w| == 0 {
      assert m.value + w == m.value;
    } else {
      var n := m.(value := m.value + [w[0]]);
      assert Step(m, w[0], p, u) == Ok(n);
      assert w == [w[0]] + w[1..];
      StepsOne(m, w[0], w[1..], p, u);
      ValueRun(n, w[1..], p + 1, u);
      assert n.value + w[1..] == m.value + w;
    }
  }

  /** After the equals sign, the first character that is not '=' or blank starts the value. */
  lemma ValueSteps(m: Machine, t: string, p: int, u: ValueParser)
    requires m.state == InEqualsSection && m.equalsFound
    requires |t| > 0 && t[0] != '=' && !IsBlank(t[0])
    requires forall i :: 0 <= i < |t| ==> t[i] != '#' && !IsNewline(t[i])
    ensures Steps(m, t, p, u) == Ok(m.(state := InValue, value := t))
  {
    var n := m.(value := [t[0]], state := InValue);
    assert Step(m, t[0], p, u) == Ok(n);
    assert t == [t[0]] + t[1..];
    StepsOne(m, t[0], t[1..], p, u);
    ValueRun(n, t[1..], p + 1, u);
  }

  /** '#' starts a comment that swallows everything up to the newline. */
  lemma {:induction false} CommentSkipped(m: Machine, text: string, p: int, u: ValueParser)
    requires m.state == InComment && NoNewline(text)
    ensures Steps(m, text, p, u) == Ok(m)
    decreases |text|
  {
    if |text| > 0 {
      assert Step(m, text[0], p, u) == Ok(m);
      assert text == [text[0]] + text[1..];
      StepsOne(m, text[0], text[1..], p, u);
      CommentSkipped(m, text[1..], p + 1, u);
    }
  }

  /** A comment line from Idle: the '#', its text and the newline leave only the counter moved. */
  lemma RemarkSteps(m: Machine, text: string, p: int, u: ValueParser)
    requires m.state == Idle && NoNewline(text)
    ensures Steps(m, "#" + text + "\n", p, u) == Ok(m.(lineNumber := m.lineNumber + 1))
  {
    var c := m.(state := InComment);
    assert Step(m, '#', p, u) == Ok(c);
    assert "#" + text + "\n" == ['#'] + (text + "\n");
    StepsOne(m, '#', text + "\n", p, u);
    StepsAppend(c, text, "\n", p + 1, u);
    CommentSkipped(c, text, p + 1, u);
    assert Step(c, '\n', p + 1 + |text|, u) == Ok(m.(lineNumber := m.lineNumber + 1));
    StepsOne(c, '\n', "", p + 1 + |text|, u);
  }

  function Spaces(k: nat): (r: string)
    ensures |r| == k && forall i :: 0 <= i < k ==> r[i] == ' '
  {
    if k == 0 then "" else " " + Spaces(k - 1)
  }

  /** The pending name and value are stored once the value's padding is trimmed away. */
  lemma PendingFinalized(n: Machine, value: string, pad: nat, u: ValueParser)
    requires IsIdentifier(n.varName) && ValueShape(value) && u(value).Valued?
    requires n.value == value + Spaces(pad)
    ensures Finalized(n, u) ==
      Ok(n.(config := n.config[n.varName := u(value).value], varName := "", value := "", equalsFound := false))
  {
    TrimUntouched(n.varName);
    TrimPaddedRight(value, Spaces(pad));
    FinalizedStores(n, u, u(value).value);
  }

  /** A newline ends the value: it is stored and the machine is back in Idle on the next line. */
  lemma ValueEndsAtNewline(m: Machine, value: string, pad: nat, p: int, u: ValueParser)
    requires m.state == InValue && IsIdentifier(m.varName) && ValueShape(value) && u(value).Valued?
    requires m.value == value + Spaces(pad)
    ensures Steps(m, "\n", p, u) == Ok(m.(state := Idle, config := m.config[m.varName := u(value).value],
      varName := "", value := "", equalsFound := false, lineNumber := m.lineNumber + 1))
  {
    var n := m.(lineNumber := m.lineNumber + 1);
    PendingFinalized(n, value, pad, u);
    StepsOne(m, '\n', "", p, u);
  }

  /** '#' ends the value too: it is stored, and the rest of the line is a comment. */
  lemma ValueEndsAtComment(m: Machine, value: string, pad: nat, note: string, p: int, u: ValueParser)
    requires m.state == InValue && IsIdentifier(m.varName) && ValueShape(value) && u(value).Valued?
    requires m.value == value + Spaces(pad) && NoNewline(note)
    ensures Steps(m, "#" + note + "\n", p, u) == Ok(m.(state := Idle, config := m.config[m.varName := u(value).value],
      varName := "", value := "", equalsFound := false, lineNumber := m.lineNumber + 1))
  {
    PendingFinalized(m, value, pad, u);
    var f := m.(config := m.config[m.varName := u(value).value], varName := "", value := "", equalsFound := false);
    assert Step(m, '#', p, u) == Ok(f.(state := InComment));
    assert "#" + note + "\n" == ['#'] + (note + "\n");
    StepsOne(m, '#', note + "\n", p, u);
    StepsAppend(f.(state := InComment), note, "\n", p + 1, u);
    CommentSkipped(f.(state := InComment), note, p + 1, u);
    StepsOne(f.(state := InComment), '\n', "", p + 1 + |note|, u);
  }

  // ---------------------------------------------------------------------------
  // Well-formed configuration text
  // ---------------------------------------------------------------------------

  /** One line of a .jshc file: "name = value", blank padding and an optional comment; a
      comment line; or an empty line. */
  datatype Line =
    | Assignment(name: string, value: string, padding: nat, note: Option<string>)
    | Remark(text: string)
    | Blank

  function NoteText(note: Option<string>): string
  {
    match note
    case None => ""
    case Some(t) => "#" + t
  }

  function LineText(l: Line): string
  {
    match l
    case Assignment(name, value, padding, note) => name + " = " + value + Spaces(padding) + NoteText(note)
    case Remark(text) => "#" + text
    case Blank => ""
  }

  /** The lines, each followed by a newline. */
  function Render(lines: seq<Line>): string
  {
    if |lines| == 0 then "" else LineText(lines[0]) + "\n" + Render(lines[1..])
  }

  ghost predicate WellFormed(l: Line, u: ValueParser)
  {
    match l
    case Assignment(name, value, _, note) =>
      IsIdentifier(name) && ValueShape(value) && u(value).Valued? && (note.Some? ==> NoNewline(note.value))
    case Remark(text) => NoNewline(text)
    case Blank => true
  }

  ghost predicate AllWellFormed(lines: seq<Line>, u: ValueParser)
  {
    forall i :: 0 <= i < |lines| ==> WellFormed(lines[i], u)
  }

  /** The configuration the lines describe: each assignment in order, the later one winning. */
  ghost function Collect(c: Config, lines: seq<Line>, u: ValueParser): Config
    requires AllWellFormed(lines, u)
    decreases |lines|
  {
    if |lines| == 0 then c
    else
      var c' := match lines[0]
        case Assignment(name, value, _, _) => c[name := u(value).value]
        case _ => c;
      Collect(c', lines[1..], u)
  }

  /** "name = value" leaves the machine collecting the value for that name. */
  lemma AssignmentHead(m: Machine, name: string, padded: string, p: int, u: ValueParser)
    requires AtLineStart(m) && IsIdentifier(name)
    requires |padded| > 0 && padded[0] != '=' && !IsBlank(padded[0])
    requires forall i :: 0 <= i < |padded| ==> padded[i] != '#' && !IsNewline(padded[i])
    ensures Steps(m, name + " = " + padded, p, u) ==
      Ok(m.(varName := name, state := InValue, value := padded, equalsFound := true))
  {
    var a := m.(varName := name, state := InVariableName);
    NameSteps(m, name, p, u);
    assert name + " = " + padded == name + (" = " + padded);
    StepsAppend(m, name, " = " + padded, p, u);
    var b := a.(state := InEqualsSection, equalsFound := true);
    EqualsSteps(a, p + |name|, u);
    StepsAppend(a, " = ", padded, p + |name|, u);
    ValueSteps(b, padded, p + |name| + 3, u);
  }

  /** A newline, or a comment running to the newline, stores the collected value. */
  lemma AssignmentTail(c: Machine, value: string, pad: nat, note: Option<string>, p: int, u: ValueParser)
    requires c.state == InValue && IsIdentifier(c.varName) && ValueShape(value) && u(value).Valued?
    requires c.value == value + Spaces(pad) && (note.Some? ==> NoNewline(note.value))
    ensures Steps(c, NoteText(note) + "\n", p, u) == Ok(c.(state := Idle, config := c.config[c.varName := u(value).value],
      varName := "", value := "", equalsFound := false, lineNumber := c.lineNumber + 1))
  {
    match note
    case None =>
      assert NoteText(note) + "\n" == "\n";
      ValueEndsAtNewline(c, value, pad, p, u);
    case Some(t) =>
      assert NoteText(note) + "\n" == "#" + t + "\n";
      ValueEndsAtComment(c, value, pad, t, p, u);
  }

  lemma AssignmentText(name: string, value: string, pad: nat, note: Option<string>)
    ensures LineText(Assignment(name, value, pad, note)) + "\n" ==
      (name + " = " + (value + Spaces(pad))) + (NoteText(note) + "\n")
  {
  }

  /** Collecting a value and storing it leaves a line-start machine as it was, but for the
      entry stored and the line counted. */
  lemma BackAtLineStart(m: Machine, name: string, padded: string, v: ConfigValue)
    requires AtLineStart(m)
    ensures var c := m.(varName := name, state := InValue, value := padded, equalsFound := true);
      c.(state := Idle, config := c.config[c.varName := v], varName := "", value := "", equalsFound := false,
         lineNumber := c.lineNumber + 1) == m.(config := m.config[name := v], lineNumber := m.lineNumber + 1)
  {
  }

  lemma AssignmentLine(m: Machine, name: string, value: string, pad: nat, note: Option<string>, p: int, u: ValueParser)
    requires AtLineStart(m) && IsIdentifier(name) && ValueShape(value) && u(value).Valued?
    requires note.Some? ==> NoNewline(note.value)
    ensures Steps(m, (name + " = " + (value + Spaces(pad))) + (NoteText(note) + "\n"), p, u) ==
      Ok(m.(config := m.config[name := u(value).value], lineNumber := m.lineNumber + 1))
  {
    var head := name + " = " + (value + Spaces(pad));
    var c := m.(varName := name, state := InValue, value := value + Spaces(pad), equalsFound := true);
    var e := m.(config := m.config[name := u(value).value], lineNumber := m.lineNumber + 1);
    AssignmentHeadOf(m, name, value, pad, p, u);
    AssignmentTailFrom(m, name, value, pad, note, p + |head|, u);
    StepsThrough(m, head, NoteText(note) + "\n", p, u, c, e);
  }

  /** The name, the equals sign and a value with its padding. */
  lemma AssignmentHeadOf(m: Machine, name: string, value: string, pad: nat, p: int, u: ValueParser)
    requires AtLineStart(m) && IsIdentifier(name) && ValueShape(value)
    ensures Steps(m, name + " = " + (value + Spaces(pad)), p, u) ==
      Ok(m.(varName := name, state := InValue, value := value + Spaces(pad), equalsFound := true))
  {
    AssignmentHead(m, name, value + Spaces(pad), p, u);
  }

  /** The end of an assignment line, from the machine the line started with. */
  lemma AssignmentTailFrom(m: Machine, name: string, value: string, pad: nat, note: Option<string>, p: int, u: ValueParser)
    requires AtLineStart(m) && IsIdentifier(name) && ValueShape(value) && u(value).Valued?
    requires note.Some? ==> NoNewline(note.value)
    ensures Steps(m.(varName := name, state := InValue, value := value + Spaces(pad), equalsFound := true),
      NoteText(note) + "\n", p, u) == Ok(m.(config := m.config[name := u(value).value], lineNumber := m.lineNumber + 1))
  {
    var c := m.(varName := name, state := InValue, value := value + Spaces(pad), equalsFound := true);
    AssignmentTail(c, value, pad, note, p, u);
    BackAtLineStart(m, name, value + Spaces(pad), u(value).value);
  }

  lemma AssignmentSteps(m: Machine, name: string, value: string, pad: nat, note: Option<string>, p: int, u: ValueParser)
    requires AtLineStart(m) && WellFormed(Assignment(name, value, pad, note), u)
    ensures Steps(m, LineText(Assignment(name, value, pad, note)) + "\n", p, u) ==
      Ok(m.(config := m.config[name := u(value).value], lineNumber := m.lineNumber + 1))
  {
    AssignmentText(name, value, pad, note);
    AssignmentLine(m, name, value, pad, note, p, u);
  }

  lemma LineSteps(m: Machine, l: Line, p: int, u: ValueParser)
    requires AtLineStart(m) && WellFormed(l, u)
    ensures Steps(m, LineText(l) + "\n", p, u) ==
      Ok(m.(config := match l case Assignment(name, value, _, _) => m.config[name := u(value).value] case _ => m.config,
            lineNumber := m.lineNumber + 1))
  {
    match l
    case Assignment(name, value, pad, note) => AssignmentSteps(m, name, value, pad, note, p, u);
    case Remark(text) => RemarkSteps(m, text, p, u);
    case Blank => StepsOne(m, '\n', "", p, u);
  }

  lemma {:induction false} RenderSteps(m: Machine, lines: seq<Line>, p: int, u: ValueParser)
    requires AtLineStart(m) && AllWellFormed(lines, u)
    ensures Steps(m, Render(lines), p, u) ==
      Ok(m.(config := Collect(m.config, lines, u), lineNumber := m.lineNumber + |lines|))
    decreases |lines|
  {
    if |lines| == 0 {
    } else {
      var l := lines[0];
      assert WellFormed(l, u);
      LineSteps(m, l, p, u);
      var m' := Steps(m, LineText(l) + "\n", p, u).value;
      StepsAppend(m, LineText(l) + "\n", Render(lines[1..]), p, u);
      assert AllWellFormed(lines[1..], u) by {
        forall i | 0 <= i < |lines[1..]| ensures WellFormed(lines[1..][i], u) {
          assert lines[1..][i] == lines[i + 1];
        }
      }
      RenderSteps(m', lines[1..], p + |LineText(l)| + 1, u);
    }
  }

  /** Well-formed lines parse to exactly the assignments they hold: comments, blank lines and
      the padding before a newline or '#' are ignored, and a later value replaces an earlier one. */
  lemma RenderParses(lines: seq<Line>, u: ValueParser)
    requires AllWellFormed(lines, u)
    ensures Parsed(Render(lines), u) == Ok(Collect(map[], lines, u))
  {
    RenderSteps(INITIAL, lines, 0, u);
  }
}

# Josh simulation engine core, modelled in Dafny

Josh is a language and engine for spatial ecological simulations. A simulation declares entities
(agents, patches, the simulation itself) whose attributes are computed by event handlers in each
substep (init, start, step, end, remove). Values carry units, and jobs are configured from
`.jshc` files and file templates. This project models the small, deterministic algorithms at the
centre of the engine and proves what they promise:

- **Units algebra** (`units.dfy`, `units_cache.dfy`): units as maps from a unit name to an
  exponent, covering parsing ("a * b / c * d"), multiply, divide, invert, raise to a power,
  simplify, the canonical string, equality through that string, and the memo behind `Units.of`.
- **Config files** (`config_parser.dfy`, `config_properties.dfy`, `config_errors.dfy`,
  `config_values.dfy`): the character-level automaton that reads `name = number units` lines
  with `#` comments. The model covers its states, its line counter, its error messages and the
  value-with-units grammar.
- **Dependency analysis** (`dependency_path.dfy`, `dependency_graph.dfy`): resolving a path such
  as `here.Tree.height` to a node, and the graph that inserts nodes with source deduplication and
  appends edges.
- **Entity attribute storage** (`entity_builder.dfy`, `direct_lock_entity.dfy`): the builder's
  index maps, the no-handler sets per substep and the handler cache. The entity covers current and
  prior attribute arrays, `freeze`, and substep bookkeeping.
- **Handler naming and bodies** (`josh_function.dfy`): how an event key is built from a dotted
  handler name, and a full body run statement by statement until the machine ends.
- **Job configuration** (`template_renderer.dfy`, `job_variation.dfy`): template rendering of
  `{name}`, `{replicate}`, `{step}` and `{variable}`, and the Cartesian product of file-path
  alternatives in a grid search.
- **Runtime bookkeeping** (`progress.dfy`, `engine_bridge.dfy`): progress-report filtering, and
  step start/end in the engine bridge.
- **Values** (`grid_combiner.dfy`, `engine_value_tuple.dfy`, `realized_distribution.dfy`):
  merging two precomputed grids, units/type compatibility and the packed cache key of value
  tuples, and the contents of a realized distribution.
- **The event handler machine** (`event_handler_machine.dfy`): the operand stack with conversion
  groups, the pop order of binary operations, `applyMap` and `bound`, `end` and `getResult`.

`wrappers.dfy` holds Option/Result and the Java exception kinds. `strings.dfy` holds the
string helpers shared by the modules: Java's `split`, `trim`, `replace`, `String.join`,
and lexicographic order. Java state lives in classes with `modifies` clauses. Where the model
needs a loop, the loop is proved against a specification function, and the lemmas are about
those functions.

## Model

| member | source | states |
|---|---|---|
| UnitsAlgebra.CountFactors | src/main/java/org/joshsim/engine/value/converter/Units.java:301-317 | counting the tokens one by one gives, for every factor that is not "count"/"counts", its number of occurrences |
| UnitsAlgebra.ParseMultiplyString | src/main/java/org/joshsim/engine/value/converter/Units.java:301-317 | a side of a description becomes the occurrence counts of its ' '/'*'-separated tokens, forms of count dropped |
| UnitsAlgebra.SplitFraction | src/main/java/org/joshsim/engine/value/converter/Units.java:113-130 | a description without " / " is all numerator; a failure is IllegalArgumentException (more than two pieces) or an index error (nothing left after split) |
| UnitsAlgebra.ParseAndSimplify | src/main/java/org/joshsim/engine/value/converter/Units.java:68-90 | a cache miss in of(description) is: split at " / ", count each side, then simplify (with lines 113-134) |
| UnitsAlgebra.Simplified | src/main/java/org/joshsim/engine/value/converter/Units.java:245-284 | the net exponent of every name is kept; no name is left on both sides; when either side is empty the units come back unchanged |
| UnitsAlgebra.Simplify | src/main/java/org/joshsim/engine/value/converter/Units.java:245-284 | the three loops of simplify() compute Simplified |
| UnitsAlgebra.CancelShared | src/main/java/org/joshsim/engine/value/converter/Units.java:254-267 | for the shared names, the positive difference goes to the side where it is positive and a zero difference is dropped |
| UnitsAlgebra.KeepUnshared | src/main/java/org/joshsim/engine/value/converter/Units.java:269-281 | names on one side only are copied with their counts |
| UnitsAlgebra.Inverted | src/main/java/org/joshsim/engine/value/converter/Units.java:173-175 | every net exponent changes sign |
| UnitsAlgebra.Multiplied | src/main/java/org/joshsim/engine/value/converter/Units.java:183-204 | net exponents add per name |
| UnitsAlgebra.AddInto | src/main/java/org/joshsim/engine/value/converter/Units.java:187-201 | each of the other map's names gets its count added to the prior count (0 when absent) |
| UnitsAlgebra.Multiply | src/main/java/org/joshsim/engine/value/converter/Units.java:183-204 | the two adding loops followed by simplify compute Multiplied |
| UnitsAlgebra.Divided | src/main/java/org/joshsim/engine/value/converter/Units.java:212-214 | net exponents subtract per name |
| UnitsAlgebra.Divide | src/main/java/org/joshsim/engine/value/converter/Units.java:212-214 | divide is multiply by the inverse |
| UnitsAlgebra.DivideIsMultiplyByInverse | src/main/java/org/joshsim/engine/value/converter/Units.java:212-214 | divide(o) equals multiply(o.invert()) and each net exponent is a minus b |
| UnitsAlgebra.InvertInvolution | src/main/java/org/joshsim/engine/value/converter/Units.java:173-175 | inverting twice gives the units back |
| UnitsAlgebra.Powered | src/main/java/org/joshsim/engine/value/converter/Units.java:222-237 | each net exponent is multiplied by the power |
| UnitsAlgebra.ScaleAll | src/main/java/org/joshsim/engine/value/converter/Units.java:226-234 | every count of a side is multiplied by the power, no name added or lost |
| UnitsAlgebra.RaiseToPower | src/main/java/org/joshsim/engine/value/converter/Units.java:222-237 | the scaling loops followed by simplify compute Powered |
| UnitsAlgebra.FactorCountsOfFactors | src/main/java/org/joshsim/engine/value/converter/Units.java:301-330 | counting the factors that serializeMultiplyString writes gives the map back |
| UnitsAlgebra.SerializeCountsShape | src/main/java/org/joshsim/engine/value/converter/Units.java:319-337 | the serialised side tokenizes back into its factors, holds no '/', and is empty exactly when the map is |
| UnitsAlgebra.SplitFractionOfJoin | src/main/java/org/joshsim/engine/value/converter/Units.java:113-130 | the text serializeString writes splits back into the same numerator and denominator (with lines 332-337) |
| UnitsAlgebra.ParseToString | src/main/java/org/joshsim/engine/value/converter/Units.java:113-134 | parsing the string of canonical units gives back the same maps (with lines 286-337) |
| UnitsAlgebra.SimplifiedCanonical | src/main/java/org/joshsim/engine/value/converter/Units.java:245-284 | simplify() leaves canonical units unchanged |
| UnitsAlgebra.TokenCounts | src/main/java/org/joshsim/engine/value/converter/Units.java:301-317 | every counted name is a non-empty token without ' ' or '*', not a form of count, with a positive count |
| UnitsAlgebra.SimplifiedKeepsNames | src/main/java/org/joshsim/engine/value/converter/Units.java:245-284 | simplifying positive counts keeps them positive, adds no name and leaves no name on both sides |
| UnitsAlgebra.ParsedPositive | src/main/java/org/joshsim/engine/value/converter/Units.java:113-134 | the counts new Units(description) produces are positive and their names are tokens (with lines 301-317) |
| UnitsAlgebra.OfDescriptionCanonical | src/main/java/org/joshsim/engine/value/converter/Units.java:68-90 | of(description) returns canonical units when no name contains '/' |
| UnitsAlgebra.OfToStringRoundTrip | src/main/java/org/joshsim/engine/value/converter/Units.java:68-90 | of(u.toString()) is u for every u that of produced, when no unit name contains '/' (with lines 286-294) |
| UnitsAlgebra.EqualIffSameMaps | src/main/java/org/joshsim/engine/value/converter/Units.java:286-289 | for canonical units, equals() holds exactly when the maps are equal |
| UnitsAlgebra.ParseJoined | src/main/java/org/joshsim/engine/value/converter/Units.java:113-134 | words joined by " * ", with an optional " / " and more words, parse to their occurrence counts (with lines 301-317) |
| UnitsAlgebra.SingleName | src/main/java/org/joshsim/engine/value/converter/Units.java:68-90 | a single unit name is that name to the first power |
| UnitsAlgebra.RepeatedFactorsCounted | src/main/java/org/joshsim/engine/value/converter/Units.java:113-134 | "a * a / b * b" is {a: 2} / {b: 2}, or EMPTY when a and b are the same name (with lines 245-284, 301-317) |
| UnitsAlgebra.SimplifiedSquares | src/main/java/org/joshsim/engine/value/converter/Units.java:245-284 | {a: 2} / {b: 2} cancels to nothing when a is b and is otherwise unchanged |
| UnitsAlgebra.MoreThanOneFractionBarRejected | src/main/java/org/joshsim/engine/value/converter/Units.java:117-122 | a description with two " / " and a non-empty third piece fails with IllegalArgumentException |
| UnitsAlgebra.CountIsEmpty | src/main/java/org/joshsim/engine/value/converter/Units.java:35-43 | any product of "count" and "counts" is EMPTY (with lines 301-317, 345-351) |
| UnitsAlgebra.Parse | src/main/java/org/joshsim/engine/value/converter/Units.java:113-134 | new Units(description): the description split at " / " and each side counted. ParseJoined, RepeatedFactorsCounted, MoreThanOneFractionBarRejected and ParsedPositive characterise it |
| UnitsAlgebra.OfDescription | src/main/java/org/joshsim/engine/value/converter/Units.java:68-90 | the result of of(description) on a cache miss: the parse, simplified. ParseAndSimplify computes it, and OfDescriptionCanonical and OfToStringRoundTrip characterise it |
| UnitsAlgebra.ToString | src/main/java/org/joshsim/engine/value/converter/Units.java:292-294 | toString(): the numerator side, then " / " and the denominator side only when that is non-empty. ParseToString and SplitFractionOfJoin show that parsing it gives the units back |
| UnitsAlgebra.Equal | src/main/java/org/joshsim/engine/value/converter/Units.java:287-289 | equals(): the two strings are equal. EqualIffSameMaps shows this is equality of the maps for canonical units |
| UnitsCaching.StoreAsWritten | src/main/java/org/joshsim/engine/value/converter/Units.java:79-87 | a miss stores the result under its description and under its canonical string, and changes no other entry |
| UnitsCaching.StoreCorrected | src/main/java/org/joshsim/engine/value/converter/Units.java:79-87 | the corrected store keeps every old entry, adds the description, and adds the canonical string only when it parses back to the same units |
| UnitsCaching.StoreCorrectedValid | src/main/java/org/joshsim/engine/value/converter/Units.java:68-90 | the corrected store keeps every entry equal to what parsing and simplifying its key gives |
| UnitsCaching.StoreCorrectedAgrees | src/main/java/org/joshsim/engine/value/converter/Units.java:79-87 | when no unit name contains '/', the corrected store is exactly the store as written |
| UnitsCaching.MisfiledParse | src/main/java/org/joshsim/engine/value/converter/Units.java:113-134 | "a*/*c" parses to three names of power one, "/" among them (with lines 301-317) |
| UnitsCaching.MisfiledCanonical | src/main/java/org/joshsim/engine/value/converter/Units.java:319-337 | the canonical string of those units is "a * / * c", which contains the fraction bar |
| UnitsCaching.MisfiledReparse | src/main/java/org/joshsim/engine/value/converter/Units.java:113-134 | "a * / * c" parses to a per c |
| UnitsCaching.StoreAsWrittenMisfiles | src/main/java/org/joshsim/engine/value/converter/Units.java:79-87 | as written, a miss on "a*/*c" files units under a key that denotes different units |
| UnitsCaching.PercentPerMetreMisfiled | src/main/java/org/joshsim/engine/value/converter/Units.java:79-87 | the concrete instance: the miss on "%*/*m" leaves the cache answering "% * / * m" with units that are not percent per metre |
| UnitsCaching.InitialEntriesValid | src/main/java/org/joshsim/engine/value/converter/Units.java:35-54 | every entry the static initializer stores is what parsing and simplifying its key gives |
| UnitsCaching.UnitsCache.constructor | src/main/java/org/joshsim/engine/value/converter/Units.java:35-54 | the cache starts with EMPTY under "" and "count", and with METERS and DEGREES |
| UnitsCaching.UnitsCache.Of | src/main/java/org/joshsim/engine/value/converter/Units.java:68-90 | the corrected of(description): a hit returns the stored units and changes nothing; a miss returns parse-then-simplify and stores it, keeping the cache transparent |
| UnitsCaching.UnitsCache.OfAsWritten | src/main/java/org/joshsim/engine/value/converter/Units.java:68-90 | of(description) as written: a hit returns the stored units; a miss returns parse-then-simplify and stores it under the description and the canonical string |
| ConfigParsing.NumberLength | src/main/java/org/joshsim/engine/config/ConfigInputParser.java:300 | the longest prefix the number group of the value pattern captures, never longer than the text |
| ConfigParsing.NumberLengthIsNumber | src/main/java/org/joshsim/engine/config/ConfigInputParser.java:300 | a non-empty captured prefix is a Josh number: an optional sign, digits, and optionally '.' and digits |
| ConfigParsing.MatchValue | src/main/java/org/joshsim/engine/config/ConfigInputParser.java:298-313 | a match yields a Josh number and a units group free of line terminators |
| ConfigParsing.ValueWithUnits | src/main/java/org/joshsim/engine/config/ConfigInputParser.java:295-313 | a value that does not match the pattern is rejected with its trimmed text; an accepted value carries the matched number |
| ConfigParsing.NumberWithUnits | src/main/java/org/joshsim/engine/config/ConfigInputParser.java:312-330 | empty units give Units.EMPTY; otherwise Units.of of the units text; an IllegalArgumentException from it becomes "Invalid units" and any other failure passes through |
| ConfigParsing.ConfigInputParser.constructor | src/main/java/org/joshsim/engine/config/ConfigInputParser.java:49-100 | a new parser is in the reset state |
| ConfigParsing.ConfigInputParser.Reset | src/main/java/org/joshsim/engine/config/ConfigInputParser.java:93-100 | reset() returns every field to its initial value |
| ConfigParsing.ConfigInputParser.Parse | src/main/java/org/joshsim/engine/config/ConfigInputParser.java:61-86 | parse(input) returns the configuration or the first error the automaton meets, finalizing a value cut off by the end of input |
| ConfigParsing.ConfigInputParser.Advance | src/main/java/org/joshsim/engine/config/ConfigInputParser.java:64-77 | one loop iteration counts a '\n' and then dispatches on the current state, as the step function does |
| ConfigParsing.ConfigInputParser.ProcessIdle | src/main/java/org/joshsim/engine/config/ConfigInputParser.java:112-128 | '#' starts a comment, blanks and newlines stay idle, a letter starts a name, anything else throws "Invalid character" with the position and line |
| ConfigParsing.ConfigInputParser.ProcessComment | src/main/java/org/joshsim/engine/config/ConfigInputParser.java:138-143 | a comment runs to the next newline |
| ConfigParsing.ConfigInputParser.ProcessVariableName | src/main/java/org/joshsim/engine/config/ConfigInputParser.java:156-184 | '=' ends the name (an empty name throws), a blank moves on to the equals section, a newline throws "Missing equals sign", a letter or digit extends the name, anything else throws |
| ConfigParsing.ConfigInputParser.ProcessEqualsSection | src/main/java/org/joshsim/engine/config/ConfigInputParser.java:196-227 | '=' and blanks are skipped, a newline throws "Missing value" after '=' and "Missing equals sign" before it, and the first other character after '=' starts the value |
| ConfigParsing.ConfigInputParser.ProcessValue | src/main/java/org/joshsim/engine/config/ConfigInputParser.java:237-252 | a newline or '#' finalizes the value (then Idle or InComment), any other character extends it |
| ConfigParsing.ConfigInputParser.FinalizeVariable | src/main/java/org/joshsim/engine/config/ConfigInputParser.java:261-282 | without a name nothing happens; an empty trimmed value throws; otherwise the parsed value is stored under the trimmed name and the pending name, value and equals flag are cleared |
| ConfigParsing.ConfigInputParser.Store | src/main/java/org/joshsim/engine/config/ConfigInputParser.java:275-281 | the value is added to the builder and the pending variable is cleared |
| ConfigParsing.FinalizedUnnamed | src/main/java/org/joshsim/engine/config/ConfigInputParser.java:262-264 | finalizeVariable() without a pending name leaves the machine as it was |
| ConfigParsing.FinalizedEmpty | src/main/java/org/joshsim/engine/config/ConfigInputParser.java:269-272 | an empty trimmed value throws "Empty value" with the trimmed name and the line |
| ConfigParsing.FinalizedRejects | src/main/java/org/joshsim/engine/config/ConfigInputParser.java:275-308 | a rejected value throws with the trimmed name and the line |
| ConfigParsing.FinalizedStores | src/main/java/org/joshsim/engine/config/ConfigInputParser.java:275-281 | an accepted value is stored under the trimmed name |
| ConfigParsing.Step | src/main/java/org/joshsim/engine/config/ConfigInputParser.java:64-77 | one loop iteration of parse(): a newline moves the line counter, then the current state handles the character. ConfigInputParser.Advance computes it, and LineNumberCounts and StepLine characterise it |
| ConfigParsing.JoshValue | src/main/java/org/joshsim/engine/config/ConfigInputParser.java:295-330 | the value parser parse() uses: the regular expression, then the units parsed and simplified (Units.of on a cache without misfiled entries). ConfigValues.JoshValueText characterises it |
| ConfigProperties.StepsAppend | src/main/java/org/joshsim/engine/config/ConfigInputParser.java:64-78 | running the loop over a + b is running it over a and then over b from where a left off, positions continuing |
| ConfigProperties.LineNumberCounts | src/main/java/org/joshsim/engine/config/ConfigInputParser.java:67-98 | after a run the line counter has grown by the number of '\n' characters read |
| ConfigProperties.StepLine | src/main/java/org/joshsim/engine/config/ConfigInputParser.java:64-77 | one character moves the line counter by one exactly when it is '\n' |
| ConfigProperties.FinalizedKeepsPlace | src/main/java/org/joshsim/engine/config/ConfigInputParser.java:261-282 | finalizeVariable() changes neither the state nor the line counter |
| ConfigProperties.FailureAt | src/main/java/org/joshsim/engine/config/ConfigInputParser.java:64-77 | a run fails with the error of its first failing character |
| ConfigProperties.ErrorLineCounts | src/main/java/org/joshsim/engine/config/ConfigInputParser.java:67-69 | an error thrown by the i-th character is the result of parse(), and the line it names is 1 plus the newlines up to and including that character (with lines 98, 119-125, 168-215) |
| ConfigProperties.EndOfInputErrorLine | src/main/java/org/joshsim/engine/config/ConfigInputParser.java:80-83 | a value cut off by the end of input is finalized there, and its error names 1 plus the number of newlines (with lines 261-282) |
| ConfigProperties.NameSteps | src/main/java/org/joshsim/engine/config/ConfigInputParser.java:112-128 | from Idle, an identifier becomes the pending name (with lines 156-184) |
| ConfigProperties.EqualsSteps | src/main/java/org/joshsim/engine/config/ConfigInputParser.java:156-204 | " = " after a name records the equals sign |
| ConfigProperties.ValueSteps | src/main/java/org/joshsim/engine/config/ConfigInputParser.java:196-252 | after '=', the first character that is not '=' or blank starts the value, and further characters other than newline and '#' extend it |
| ConfigProperties.CommentSkipped | src/main/java/org/joshsim/engine/config/ConfigInputParser.java:138-143 | a comment swallows everything up to the newline |
| ConfigProperties.RemarkSteps | src/main/java/org/joshsim/engine/config/ConfigInputParser.java:112-143 | a comment line moves only the line counter |
| ConfigProperties.PendingFinalized | src/main/java/org/joshsim/engine/config/ConfigInputParser.java:261-282 | the pending name and value are stored once the value's trailing padding is trimmed away |
| ConfigProperties.ValueEndsAtNewline | src/main/java/org/joshsim/engine/config/ConfigInputParser.java:239-242 | a newline ends the value: it is stored and the machine is Idle on the next line |
| ConfigProperties.ValueEndsAtComment | src/main/java/org/joshsim/engine/config/ConfigInputParser.java:243-246 | '#' also ends the value: it is stored and the rest of the line is a comment |
| ConfigProperties.AssignmentLine | src/main/java/org/joshsim/engine/config/ConfigInputParser.java:112-282 | a line "name = value", padded and optionally followed by a comment, stores the value under the name and moves to the next line (with lines 64-77) |
| ConfigProperties.LineSteps | src/main/java/org/joshsim/engine/config/ConfigInputParser.java:112-282 | every well-formed line (assignment, comment or blank) leaves the machine at the next line start, with the assignment's entry stored (with lines 64-77) |
| ConfigProperties.RenderSteps | src/main/java/org/joshsim/engine/config/ConfigInputParser.java:61-78 | well-formed lines run through in full; the configuration is the assignments in order, the later value winning, and the counter moves by the number of lines |
| ConfigProperties.RenderParses | src/main/java/org/joshsim/engine/config/ConfigInputParser.java:61-86 | parse() of well-formed lines returns exactly the configuration they describe |
| ConfigErrors.LineBadNameChar | src/main/java/org/joshsim/engine/config/ConfigInputParser.java:174-181 | a name followed by a character that is not a letter, digit, '=', blank or newline fails with "Invalid character in variable name" at that position |
| ConfigErrors.LineNoEquals | src/main/java/org/joshsim/engine/config/ConfigInputParser.java:168-172 | a name followed by a newline fails with "Missing equals sign", naming the line the newline begins |
| ConfigErrors.LineValueWithoutEquals | src/main/java/org/joshsim/engine/config/ConfigInputParser.java:216-221 | a name, a blank and then a value character fails with "Missing equals sign" |
| ConfigErrors.LineNoValue | src/main/java/org/joshsim/engine/config/ConfigInputParser.java:206-209 | "name = " followed by a newline fails with "Missing value" |
| ConfigErrors.LineRejected | src/main/java/org/joshsim/engine/config/ConfigInputParser.java:239-275 | a value the value parser rejects fails the line with its reason, the name and the line |
| ConfigErrors.LineEmpty | src/main/java/org/joshsim/engine/config/ConfigInputParser.java:239-272 | a value of characters that trim away fails with "Empty value" |
| ConfigErrors.LineUnterminated | src/main/java/org/joshsim/engine/config/ConfigInputParser.java:80-83 | a last line without a newline keeps its value collected, and the final finalizeVariable() stores it |
| ConfigErrors.BadStartRejected | src/main/java/org/joshsim/engine/config/ConfigInputParser.java:112-128 | after well-formed lines, a line starting with anything but a letter, '#', a blank or a newline fails parse() with "Invalid character", its position and its line |
| ConfigErrors.BadNameCharRejected | src/main/java/org/joshsim/engine/config/ConfigInputParser.java:174-181 | parse() fails on a bad name character with its position and line |
| ConfigErrors.NewlineAfterNameRejected | src/main/java/org/joshsim/engine/config/ConfigInputParser.java:168-172 | parse() fails on a name alone on its line with "Missing equals sign" |
| ConfigErrors.ValueWithoutEqualsRejected | src/main/java/org/joshsim/engine/config/ConfigInputParser.java:216-221 | parse() fails on a value without '=' before it with "Missing equals sign" |
| ConfigErrors.NewlineAfterEqualsRejected | src/main/java/org/joshsim/engine/config/ConfigInputParser.java:206-209 | parse() fails on an '=' with nothing after it with "Missing value" |
| ConfigErrors.ValueRejected | src/main/java/org/joshsim/engine/config/ConfigInputParser.java:275-330 | parse() fails on a rejected value with its reason, the name and the line |
| ConfigErrors.EmptyValueRejected | src/main/java/org/joshsim/engine/config/ConfigInputParser.java:269-272 | parse() fails on a value that trims to nothing with "Empty value" |
| ConfigErrors.MalformedValueRejected | src/main/java/org/joshsim/engine/config/ConfigInputParser.java:304-308 | parse() fails on value text the pattern does not match with "Invalid value format" |
| ConfigErrors.BadUnitsRejected | src/main/java/org/joshsim/engine/config/ConfigInputParser.java:315-330 | parse() fails on a number with units that parsing rejects with "Invalid units" |
| ConfigErrors.UnterminatedLastLine | src/main/java/org/joshsim/engine/config/ConfigInputParser.java:80-86 | a last line cut off by the end of input still stores its value in the result of parse() |
| ConfigValues.NumberLengthOf | src/main/java/org/joshsim/engine/config/ConfigInputParser.java:300 | group 1 takes all of a Josh number followed by nothing or by a space |
| ConfigValues.MatchValueText | src/main/java/org/joshsim/engine/config/ConfigInputParser.java:298-311 | "number units" matches with the number as group 1 and the units as group 2 |
| ConfigValues.ValueTextParses | src/main/java/org/joshsim/engine/config/ConfigInputParser.java:295-330 | parseValueWithUnits of "number units" is the number with the units the units parser gives |
| ConfigValues.JoshNumberChars | src/main/java/org/joshsim/engine/config/ConfigInputParser.java:300 | a Josh number ends with a digit and holds only a sign, digits and a point |
| ConfigValues.ValueTextShape | src/main/java/org/joshsim/engine/config/ConfigInputParser.java:237-267 | such value text is what the automaton collects in full and trimming keeps |
| ConfigValues.JoshValueText | src/main/java/org/joshsim/engine/config/ConfigInputParser.java:312-330 | no units give Units.EMPTY, units that parse give the parsed and simplified units (what Units.of returns on a cache without misfiled entries), and units that parsing rejects give "Invalid units" |
| ConfigValues.JoshAssignment | src/main/java/org/joshsim/engine/config/ConfigInputParser.java:295-330 | an identifier, a Josh number and units that parse form a well-formed assignment line |
| DependencyPaths.Parse | src/main/java/org/joshsim/lang/analyze/DependencyPathParser.java:55-167 | parse fails (parts[0] out of bounds) exactly when the split has no parts; otherwise the target event is always the current event, the node id is entity.attribute.event, and the attribute is one of the path's segments |
| DependencyPaths.SplitSegments | src/main/java/org/joshsim/lang/analyze/DependencyPathParser.java:56 | splitting segments joined by '.' gives the segments back |
| DependencyPaths.SimplePath | src/main/java/org/joshsim/lang/analyze/DependencyPathParser.java:59-71 | a path without '.' is that attribute of the current entity, resolved as "simple" |
| DependencyPaths.QualifiedPath | src/main/java/org/joshsim/lang/analyze/DependencyPathParser.java:77-104 | "prior.x" and "current.x" are x of the current entity, "here.x" is Patch.x, "meta.x" is Simulation.x, and any other "E.x" is x of entity E (with lines 107-120, 140-166) |
| DependencyPaths.CollectionPath | src/main/java/org/joshsim/lang/analyze/DependencyPathParser.java:121-136 | "here.C.x" is x of the organisms of collection C |
| DependencyPaths.NodeIdSplits | src/main/java/org/joshsim/lang/analyze/DependencyPathParser.java:64 | a node id splits back into its entity, attribute and event (with lines 82, 114, 129, 145, 160) |
| DependencyPaths.DotsOnlyFails | src/main/java/org/joshsim/lang/analyze/DependencyPathParser.java:56-73 | a path of dots only splits into nothing, and parse fails with an index out of bounds |
| DependencyGraphs.PlainNode | src/main/java/org/joshsim/lang/analyze/DependencyGraph.java:306-310 | the six-argument node keeps its primary line and text and has exactly one source location when either is given, none otherwise |
| DependencyGraphs.DedupFromSubset | src/main/java/org/joshsim/lang/analyze/DependencyGraph.java:121-152 | deduplication keeps only input locations whose (line, condition) key was not already seen |
| DependencyGraphs.DedupFromKeys | src/main/java/org/joshsim/lang/analyze/DependencyGraph.java:121-152 | the keys kept are exactly the input's keys minus those already seen |
| DependencyGraphs.DedupFromDistinctKeys | src/main/java/org/joshsim/lang/analyze/DependencyGraph.java:121-152 | no two kept locations share a (line, condition) key |
| DependencyGraphs.DedupFromDistinct | src/main/java/org/joshsim/lang/analyze/DependencyGraph.java:121-152 | locations whose keys are distinct and unseen are all kept, in order |
| DependencyGraphs.DedupFromAppend | src/main/java/org/joshsim/lang/analyze/DependencyGraph.java:128-149 | running over existing then new is running over existing, then over the new ones with existing's keys seen |
| DependencyGraphs.MergeKeepsExisting | src/main/java/org/joshsim/lang/analyze/DependencyGraph.java:96-152 | merging into already deduplicated sources keeps all of them, in front, followed by the new sources with unseen keys |
| DependencyGraphs.DedupHead | src/main/java/org/joshsim/lang/analyze/DependencyGraph.java:104-105 | the first new source of a new node always survives, so it is the primary source |
| DependencyGraphs.Merged | src/main/java/org/joshsim/lang/analyze/DependencyGraph.java:92-114 | an existing node keeps its primary line and text and gets the deduplicated merge; a new node takes its primary from the first new source, or has none |
| DependencyGraphs.InOrder | src/main/java/org/joshsim/lang/analyze/DependencyGraph.java:170-172 | the nodes listed follow the given key order one for one |
| DependencyGraphs.DependencyGraph.constructor | src/main/java/org/joshsim/lang/analyze/DependencyGraph.java:41-42 | a new graph has no nodes and no edges |
| DependencyGraphs.DependencyGraph.Nodes | src/main/java/org/joshsim/lang/analyze/DependencyGraph.java:170-172 | getNodes lists the stored nodes in insertion order |
| DependencyGraphs.DependencyGraph.Put | src/main/java/org/joshsim/lang/analyze/DependencyGraph.java:41 | LinkedHashMap.put: the node is stored under its id; a new id goes to the end of the order, an existing one keeps its place (with lines 98, 106, 109) |
| DependencyGraphs.DependencyGraph.AddNode | src/main/java/org/joshsim/lang/analyze/DependencyGraph.java:55-57 | putIfAbsent: a known id leaves the graph unchanged; a new id gets a node without sources at the end |
| DependencyGraphs.DependencyGraph.AddNodeSources | src/main/java/org/joshsim/lang/analyze/DependencyGraph.java:92-114 | the node under id becomes the merge of the existing node (if any) with the new sources; the order and the edges are kept |
| DependencyGraphs.DependencyGraph.AddNodeAt | src/main/java/org/joshsim/lang/analyze/DependencyGraph.java:72-79 | as the list form, with a single source location when the line or text is given and none otherwise |
| DependencyGraphs.DependencyGraph.DeduplicateSources | src/main/java/org/joshsim/lang/analyze/DependencyGraph.java:121-152 | the result is the existing sources then the new ones, each (line, condition) key kept at its first occurrence |
| DependencyGraphs.DependencyGraph.AddEdge | src/main/java/org/joshsim/lang/analyze/DependencyGraph.java:160-163 | an edge is always appended, duplicates included; nodes are untouched |
| EngineBridges.Consecutive | src/main/java/org/joshsim/lang/bridge/MinimalEngineBridge.java:164-175 | the saved timesteps of n ended steps are start, start + 1, ..., start + n - 1 |
| EngineBridges.EngineBridge.constructor | src/main/java/org/joshsim/lang/bridge/MinimalEngineBridge.java:71-101 | steps.low and steps.high default to 0 and 100; the current step starts at the start step, no step has ended and none is running |
| EngineBridges.EngineBridge.StartStep | src/main/java/org/joshsim/lang/bridge/MinimalEngineBridge.java:155-161 | fails with IllegalStateException exactly when a step is already running; otherwise a step is running |
| EngineBridges.EngineBridge.EndStep | src/main/java/org/joshsim/lang/bridge/MinimalEngineBridge.java:164-175 | fails with IllegalStateException exactly when no step is running, changing nothing; otherwise saves the current step, moves the current and absolute steps on by one and ends the step |
| EngineBridges.EngineBridge.PriorTimestep | src/main/java/org/joshsim/lang/bridge/MinimalEngineBridge.java:243-245 | the prior timestep is one before the current one |
| EngineBridges.EngineBridge.GetPrototype | src/main/java/org/joshsim/lang/bridge/MinimalEngineBridge.java:274-280 | fails with IllegalArgumentException exactly for a name the store lacks, else returns the stored prototype |
| EngineBridges.CompletionCountsSteps | src/main/java/org/joshsim/lang/bridge/MinimalEngineBridge.java:164-179 | after correctly paired steps the bridge is complete exactly when more steps ended than end - start, and the prior timestep is the last one saved |
| EngineBridges.EngineBridge.IsComplete | src/main/java/org/joshsim/lang/bridge/MinimalEngineBridge.java:177-180 | isComplete: the current step is past the end step. CompletionCountsSteps ties it to the number of ended steps |
| EngineBridges.EngineBridge.CurrentTimestep | src/main/java/org/joshsim/lang/bridge/MinimalEngineBridge.java:238-240 | getCurrentTimestep: the current step, which Valid() keeps equal to the start step plus the ended steps |
| EngineBridges.EngineBridge.AbsoluteTimestep | src/main/java/org/joshsim/lang/bridge/MinimalEngineBridge.java:248-250 | getAbsoluteTimestep: the number of ended steps, which Valid() keeps equal to the length of the saved-timestep log |
| RealizedDistributions.GetSize | src/main/java/org/joshsim/engine/value/type/RealizedDistribution.java:295-297 | the size is always known and is the number of values |
| RealizedDistributions.RequireNonEmpty | src/main/java/org/joshsim/engine/value/type/RealizedDistribution.java:454-458 | an error exactly for an empty distribution, an IllegalArgumentException with the fixed message |
| RealizedDistributions.SubList | src/main/java/org/joshsim/engine/value/type/RealizedDistribution.java:321 | List.subList(0, n) succeeds exactly for 0 <= n <= size with the first n values; IndexOutOfBounds above, IllegalArgument below |
| RealizedDistributions.Wrapped | src/main/java/org/joshsim/engine/value/type/RealizedDistribution.java:310-314 | the wrapped list has exactly count values |
| RealizedDistributions.ContentsAll | src/main/java/org/joshsim/engine/value/type/RealizedDistribution.java:302-304 | asking for exactly the size returns all values, even when empty |
| RealizedDistributions.ContentsOfEmpty | src/main/java/org/joshsim/engine/value/type/RealizedDistribution.java:306 | otherwise an empty distribution is rejected with the empty-distribution error |
| RealizedDistributions.ContentsWithReplacement | src/main/java/org/joshsim/engine/value/type/RealizedDistribution.java:309-314 | with replacement: count values (none for a negative count), value i being values[i mod size] |
| RealizedDistributions.ContentsWithoutReplacement | src/main/java/org/joshsim/engine/value/type/RealizedDistribution.java:315-321 | without replacement: fails exactly for count above the size or negative, with the fixed message above; otherwise the first count values, a sub-multiset of the distribution |
| RealizedDistributions.GetContents | src/main/java/org/joshsim/engine/value/type/RealizedDistribution.java:300-323 | the loop's result is the getContents specification, whose properties the three lemmas above state |
| RealizedDistributions.ToJavaInt | src/main/java/org/joshsim/engine/value/type/RealizedDistribution.java:432 | the (int) cast lies in the int range, agrees with its argument modulo 2^32, and is the identity inside the range |
| RealizedDistributions.SampleWithoutReplacement | src/main/java/org/joshsim/engine/value/type/RealizedDistribution.java:415-433 | rejects an empty distribution and a count above the size with their messages; for an in-range count returns the first count shuffled values; any result is a sub-multiset of the values |
| RealizedDistributions.NegativeCountWrapsToEmpty | src/main/java/org/joshsim/engine/value/type/RealizedDistribution.java:416-432 | a negative count whose low 32 bits are zero passes the guard and samples nothing |
| RealizedDistributions.Contents | src/main/java/org/joshsim/engine/value/type/RealizedDistribution.java:300-323 | getContents: all values when count is the size; otherwise an empty distribution is rejected, the values are wrapped with replacement, and a prefix is taken without. ContentsAll, ContentsOfEmpty, ContentsWithReplacement and ContentsWithoutReplacement characterise it, and GetContents computes it |
| EntityBuilders.CollectNames | src/main/java/org/joshsim/engine/entity/base/EntityBuilder.java:188-205 | the scan over the groups collects exactly the attribute names of the handlers of the non-null groups (limited, in the substep scan, to groups with a key for that event) (with lines 240-247, 332-339) |
| EntityBuilders.RankMapAt | src/main/java/org/joshsim/engine/entity/base/EntityBuilder.java:378-385 | in the map built from a sorted list without repeats, each name maps to its position, and every mapped name is in the list |
| EntityBuilders.IndexMapDomain | src/main/java/org/joshsim/engine/entity/base/EntityBuilder.java:358-390 | the index map has exactly the attribute names as keys, one per name |
| EntityBuilders.SortedPositions | src/main/java/org/joshsim/engine/entity/base/EntityBuilder.java:378-379 | in a sorted list without repeats, one position comes before another exactly when its name sorts first |
| EntityBuilders.IndexMapIsRank | src/main/java/org/joshsim/engine/entity/base/EntityBuilder.java:358-390 | the indexes are 0 .. n-1 and one name has a smaller index than another exactly when it sorts first by String.compareTo |
| EntityBuilders.IndexNamesAt | src/main/java/org/joshsim/engine/entity/base/EntityBuilder.java:403-425 | the index-to-name array has one filled slot per name, slot i holding the i-th name in sorted order |
| EntityBuilders.IndexNamesInverse | src/main/java/org/joshsim/engine/entity/base/EntityBuilder.java:403-425 | the index-to-name array is the exact inverse of the index map, in both directions |
| EntityBuilders.NoHandlerSetsMeaning | src/main/java/org/joshsim/engine/entity/base/EntityBuilder.java:173-218 | every listed substep has a set; an attribute is in it exactly when it is initial and no non-null group with a key for that substep has a handler writing it |
| EntityBuilders.NoHandlerSetsAdd | src/main/java/org/joshsim/engine/entity/base/EntityBuilder.java:173-218 | adding a group under a new key changes only the set of its own substep, removing the attributes its handlers write (with lines 132-139) |
| EntityBuilders.NamesInSame | src/main/java/org/joshsim/engine/entity/base/EntityBuilder.java:188-205 | a scan over keys on which two group maps agree finds the same names in both |
| EntityBuilders.NoHandlerSetsLoop | src/main/java/org/joshsim/engine/entity/base/EntityBuilder.java:179-213 | the nested loop builds exactly the per-substep no-handler sets |
| EntityBuilders.HandlerCacheEntries | src/main/java/org/joshsim/engine/entity/base/EntityBuilder.java:232-309 | the cache has an entry exactly for each handler attribute, listed substep and registered (or empty) state with a matching group; the entry is the state-independent group then the state-specific one, and is never empty |
| EntityBuilders.MatchingShape | src/main/java/org/joshsim/engine/entity/base/EntityBuilder.java:280-296 | a state-independent entry holds the group under EventKey.of(attribute, substep); an entry holds at most two groups, the state-specific one last |
| EntityBuilders.KeyTextJoin | src/main/java/org/joshsim/engine/entity/base/EntityBuilder.java:272-277 | the cache key strings are attribute, substep and (when non-empty) state joined by ':' |
| EntityBuilders.KeyTextSplits | src/main/java/org/joshsim/engine/entity/base/EntityBuilder.java:272-277 | with colon-free names, splitting a cache key at ':' recovers its parts |
| EntityBuilders.KeyTextInjective | src/main/java/org/joshsim/engine/entity/base/EntityBuilder.java:272-277 | with colon-free names, distinct cache entries have distinct key strings |
| EntityBuilders.CollectStates | src/main/java/org/joshsim/engine/entity/base/EntityBuilder.java:250-261 | the states collected are the empty state plus every non-empty state of a registered key |
| EntityBuilders.HandlerCacheLoop | src/main/java/org/joshsim/engine/entity/base/EntityBuilder.java:267-304 | the triple loop builds exactly the handler cache |
| EntityBuilders.AttributeArrayAt | src/main/java/org/joshsim/engine/entity/base/EntityBuilder.java:436-449 | the attribute array has one slot per indexed name; a name's slot holds its initial value when it has one and is null otherwise |
| EntityBuilders.InitialValuesPlaced | src/main/java/org/joshsim/engine/entity/base/EntityBuilder.java:436-449 | when every initial attribute is indexed, each initial value sits at its name's index |
| EntityBuilders.StaleIndexMap | src/main/java/org/joshsim/engine/entity/base/EntityBuilder.java:132-139 | an attribute written only by a newly added group is missing from the index map computed before the group was added, and present in a fresh one (with lines 358-390) |
| EntityBuilders.IndexMapLoop | src/main/java/org/joshsim/engine/entity/base/EntityBuilder.java:382-385 | the loop puts each sorted name with its position, giving the index map |
| EntityBuilders.FillIndexNames | src/main/java/org/joshsim/engine/entity/base/EntityBuilder.java:413-420 | the loop over the index map's entries writes each name into its slot |
| EntityBuilders.FillAttributes | src/main/java/org/joshsim/engine/entity/base/EntityBuilder.java:438-446 | the loop over the initial attributes writes each indexed value into its slot and skips the rest |
| EntityBuilders.IndexNamesLoop | src/main/java/org/joshsim/engine/entity/base/EntityBuilder.java:403-425 | filling from the index map yields the index-to-name array |
| EntityBuilders.AttributesLoop | src/main/java/org/joshsim/engine/entity/base/EntityBuilder.java:436-449 | filling from the index map yields the attribute array |
| EntityBuilders.EntityBuilder.constructor | src/main/java/org/joshsim/engine/entity/base/EntityBuilder.java:48-56 | a new builder has no name, no groups, no attributes and no cache set |
| EntityBuilders.EntityBuilder.SetName | src/main/java/org/joshsim/engine/entity/base/EntityBuilder.java:96-99 | the name is set, and getName then returns it |
| EntityBuilders.EntityBuilder.GetName | src/main/java/org/joshsim/engine/entity/base/EntityBuilder.java:106-108 | fails with IllegalStateException exactly when no name was set, else returns it |
| EntityBuilders.EntityBuilder.Clear | src/main/java/org/joshsim/engine/entity/base/EntityBuilder.java:113-123 | the name, groups and attributes are emptied and every cache is dropped |
| EntityBuilders.EntityBuilder.AddEventHandlerGroup | src/main/java/org/joshsim/engine/entity/base/EntityBuilder.java:132-139 | as written: stores the group and drops the group, substep, handler and name caches but keeps both index caches, so only coherence (not currency) is kept |
| EntityBuilders.EntityBuilder.AddEventHandlerGroupCorrected | src/main/java/org/joshsim/engine/entity/base/EntityBuilder.java:132-152 | with the index caches dropped too, every cache the builder holds stays current |
| EntityBuilders.EntityBuilder.AddAttribute | src/main/java/org/joshsim/engine/entity/base/EntityBuilder.java:148-154 | stores the value and drops the substep sets and both index caches; every cache stays current |
| EntityBuilders.EntityBuilder.GetImmutableEventHandlerGroups | src/main/java/org/joshsim/engine/entity/base/EntityBuilder.java:71-78 | returns a copy of the groups and caches it |
| EntityBuilders.EntityBuilder.ComputeAttributesWithoutHandlersBySubstep | src/main/java/org/joshsim/engine/entity/base/EntityBuilder.java:173-218 | returns and caches the per-substep no-handler sets of the current state |
| EntityBuilders.EntityBuilder.ComputeCommonHandlerCache | src/main/java/org/joshsim/engine/entity/base/EntityBuilder.java:232-309 | returns and caches the handler cache of the current groups |
| EntityBuilders.EntityBuilder.ComputeAttributeNames | src/main/java/org/joshsim/engine/entity/base/EntityBuilder.java:324-344 | returns and caches the set of handler attribute names |
| EntityBuilders.EntityBuilder.ComputeAttributeNameToIndex | src/main/java/org/joshsim/engine/entity/base/EntityBuilder.java:358-390 | a cached map is returned unchanged; otherwise the map is built from all current names (initial and handler) and cached |
| EntityBuilders.EntityBuilder.ComputeIndexToAttributeName | src/main/java/org/joshsim/engine/entity/base/EntityBuilder.java:403-425 | returns and caches the inverse of the (possibly cached) index map |
| EntityBuilders.EntityBuilder.CreateAttributesArray | src/main/java/org/joshsim/engine/entity/base/EntityBuilder.java:436-449 | returns the initial values placed at their indexes in the (possibly cached) index map, without caching |
| EntityBuilders.EntityBuilder.IndexTables | src/main/java/org/joshsim/engine/entity/base/EntityBuilder.java:461-464 | the groups, attribute array, index map and inverse, in the order the build methods take them |
| EntityBuilders.EntityBuilder.HandlerTables | src/main/java/org/joshsim/engine/entity/base/EntityBuilder.java:465-467 | the no-handler sets, handler cache and handler names of the current state, each cached |
| EntityBuilders.EntityBuilder.BuildNamed | src/main/java/org/joshsim/engine/entity/base/EntityBuilder.java:457-527 | a named entity gets every table, each from its cache or computed into it |
| EntityBuilders.EntityBuilder.Build | src/main/java/org/joshsim/engine/entity/base/EntityBuilder.java:457-527 | fails with IllegalStateException, changing nothing, exactly when no name is set; otherwise returns the named entity with all its tables, and a current builder stays current (with lines 106-108) |
| DirectLockEntities.OrEmpty | src/main/java/org/joshsim/engine/entity/base/DirectLockMutableEntity.java:70-81 | a null map argument is replaced by an empty one, any other is kept |
| DirectLockEntities.AttributeIndex | src/main/java/org/joshsim/engine/entity/base/DirectLockMutableEntity.java:305-308 | -1 for a name the index map lacks, otherwise its index |
| DirectLockEntities.Restored | src/main/java/org/joshsim/engine/entity/base/DirectLockMutableEntity.java:157-162 | restoring slots keeps the array's length |
| DirectLockEntities.FrozenAmong | src/main/java/org/joshsim/engine/entity/base/DirectLockMutableEntity.java:184-193 | the frozen map holds exactly the indexed names whose prior slot holds a value |
| DirectLockEntities.FreezeKeepsValue | src/main/java/org/joshsim/engine/entity/base/DirectLockMutableEntity.java:155-177 | freezing loses no value: with onlyOnPrior tracked and no shared slots, every name reads after freeze as it did before |
| DirectLockEntities.FreezeKeepsValues | src/main/java/org/joshsim/engine/entity/base/DirectLockMutableEntity.java:155-177 | the same for all names at once |
| DirectLockEntities.FrozenShows | src/main/java/org/joshsim/engine/entity/base/DirectLockMutableEntity.java:184-193 | with an empty current array, an entity shows exactly the values of its frozen map (with lines 116-129) |
| DirectLockEntities.FrozenTracked | src/main/java/org/joshsim/engine/entity/base/DirectLockMutableEntity.java:171-177 | after freezing, onlyOnPrior names exactly the names visible only through the prior array |
| DirectLockEntities.FreshTracked | src/main/java/org/joshsim/engine/entity/base/DirectLockMutableEntity.java:92-93 | a new entity, with an empty prior array and empty onlyOnPrior, is tracked |
| DirectLockEntities.HandlerAttributeNamesAgree | src/main/java/org/joshsim/engine/entity/base/DirectLockMutableEntity.java:251-259 | the entity's handler attribute names equal the builder's shared name set for the same groups |
| DirectLockEntities.BuiltIndexFits | src/main/java/org/joshsim/engine/entity/base/DirectLockMutableEntity.java:58-98 | the index map and attribute array a builder hands over fit: every index addresses a slot and no two names share one |
| DirectLockEntities.HasNoHandlersMeaning | src/main/java/org/joshsim/engine/entity/base/DirectLockMutableEntity.java:272-275 | on a builder's sets, hasNoHandlers holds exactly for a listed substep and an initial attribute no group of that substep writes |
| DirectLockEntities.HasNoHandlersIn | src/main/java/org/joshsim/engine/entity/base/DirectLockMutableEntity.java:272-275 | true only for a substep that has a set, and then exactly when the set holds the attribute |
| DirectLockEntities.DirectLockEntity.constructor | src/main/java/org/joshsim/engine/entity/base/DirectLockMutableEntity.java:58-98 | null groups, index and attributes become empty; the attributes are copied, the prior array is empty and as long, onlyOnPrior is empty, no substep runs, and the entity is tracked |
| DirectLockEntities.DirectLockEntity.GetName | src/main/java/org/joshsim/engine/entity/base/DirectLockMutableEntity.java:101-103 | the entity's name |
| DirectLockEntities.DirectLockEntity.GetEventHandlers | src/main/java/org/joshsim/engine/entity/base/DirectLockMutableEntity.java:111-113 | the group under the key when there is one, else empty |
| DirectLockEntities.DirectLockEntity.GetAttributeValue | src/main/java/org/joshsim/engine/entity/base/DirectLockMutableEntity.java:116-129 | a value is returned only for an indexed name; it is the current value, or else the prior one |
| DirectLockEntities.DirectLockEntity.SetAttributeValue | src/main/java/org/joshsim/engine/entity/base/DirectLockMutableEntity.java:132-142 | an unknown name changes nothing; otherwise the name reads back the value and leaves onlyOnPrior, other slots read as before, and tracking is kept |
| DirectLockEntities.DirectLockEntity.Freeze | src/main/java/org/joshsim/engine/entity/base/DirectLockMutableEntity.java:155-201 | the current array becomes the prior one with the prior-only values restored, a fresh empty current array starts, onlyOnPrior is recomputed, and the entity then shows exactly the returned frozen values, which (with tracking) are the values it showed before |
| DirectLockEntities.DirectLockEntity.GetAttributeNames | src/main/java/org/joshsim/engine/entity/base/DirectLockMutableEntity.java:204-206 | the handler attribute names computed at construction |
| DirectLockEntities.DirectLockEntity.StartSubstep | src/main/java/org/joshsim/engine/entity/base/DirectLockMutableEntity.java:218-230 | fails with IllegalStateException, keeping the substep, exactly when one is active; otherwise the named substep is active |
| DirectLockEntities.DirectLockEntity.EndSubstep | src/main/java/org/joshsim/engine/entity/base/DirectLockMutableEntity.java:233-236 | no substep is active afterwards |
| DirectLockEntities.DirectLockEntity.GetSubstep | src/main/java/org/joshsim/engine/entity/base/DirectLockMutableEntity.java:238-240 | the active substep, if any |
| DirectLockEntities.DirectLockEntity.HasNoHandlers | src/main/java/org/joshsim/engine/entity/base/DirectLockMutableEntity.java:272-275 | true exactly when the substep has a set and it holds the attribute |
| DirectLockEntities.DirectLockEntity.GetCommonHandlerCache | src/main/java/org/joshsim/engine/entity/base/DirectLockMutableEntity.java:292-297 | the shared cache, or an empty map when none was given |
| DirectLockEntities.CollectHandlerNames | src/main/java/org/joshsim/engine/entity/base/DirectLockMutableEntity.java:251-259 | the nested loop collects exactly the handler attribute names |
| DirectLockEntities.RestorePriorOnly | src/main/java/org/joshsim/engine/entity/base/DirectLockMutableEntity.java:157-162 | the loop copies the prior value into each indexed slot of a name in onlyOnPrior |
| DirectLockEntities.PriorOnlyLoop | src/main/java/org/joshsim/engine/entity/base/DirectLockMutableEntity.java:171-177 | the loop collects the indexed names whose prior slot holds a value |
| DirectLockEntities.FrozenLoop | src/main/java/org/joshsim/engine/entity/base/DirectLockMutableEntity.java:181-193 | the loop builds the frozen map of every indexed name with a prior value |
| JoshFunctions.EventNamesAreSubstepsAndRemove | src/main/java/org/joshsim/lang/interpret/visitor/delegates/JoshFunctionVisitor.java:226-231 | the event names are the five precomputed substeps plus "remove" |
| JoshFunctions.EventKeyOf | src/main/java/org/joshsim/lang/interpret/visitor/delegates/JoshFunctionVisitor.java:233-258 | fails with an index out of bounds exactly when the name splits into no pieces; every key it builds has the empty state |
| JoshFunctions.EventKeyOfLastPiece | src/main/java/org/joshsim/lang/interpret/visitor/delegates/JoshFunctionVisitor.java:233-258 | for "x.e", an event-name e gives attribute x on event e; any other e gives the constant "x.e" |
| JoshFunctions.EventKeySinglePiece | src/main/java/org/joshsim/lang/interpret/visitor/delegates/JoshFunctionVisitor.java:233-258 | a name without '.' is that event with an empty attribute when it is an event name, else a constant of that name |
| JoshFunctions.BuildEventKey | src/main/java/org/joshsim/lang/interpret/visitor/delegates/JoshFunctionVisitor.java:233-258 | the StringJoiner loop computes exactly the event key above |
| JoshFunctions.JoinFirst | src/main/java/org/joshsim/lang/interpret/visitor/delegates/JoshFunctionVisitor.java:242-244 | the loop joins the first count pieces with '.' |
| JoshFunctions.JoinAdd | src/main/java/org/joshsim/lang/interpret/visitor/delegates/JoshFunctionVisitor.java:243-252 | adding to a StringJoiner puts the delimiter only between pieces |
| JoshFunctions.StatementsRun | src/main/java/org/joshsim/lang/interpret/visitor/delegates/JoshFunctionVisitor.java:109-114 | no more statements run than the body has |
| JoshFunctions.FullBody | src/main/java/org/joshsim/lang/interpret/visitor/delegates/JoshFunctionVisitor.java:108-121 | succeeds exactly when the machine is ended after the run, returning it; otherwise fails with IllegalStateException |
| JoshFunctions.RunStatementsIsPrefix | src/main/java/org/joshsim/lang/interpret/visitor/delegates/JoshFunctionVisitor.java:109-114 | running a body applies its first k statements, none before the k-th ends the machine, and the k-th does unless the statements ran out |
| JoshFunctions.FullBodyFailsIffNeverEnded | src/main/java/org/joshsim/lang/interpret/visitor/delegates/JoshFunctionVisitor.java:108-121 | a body fails exactly when no statement leaves the machine ended |
| JoshFunctions.RunFullBody | src/main/java/org/joshsim/lang/interpret/visitor/delegates/JoshFunctionVisitor.java:108-121 | the loop with its break computes exactly the full-body action above |
| TemplateRenderers.CharIndex | src/main/java/org/joshsim/pipeline/job/config/TemplateStringRenderer.java:106-107 | the first position of the character, or none when it does not occur (with line 42) |
| TemplateRenderers.LastIndexOfChar | src/main/java/org/joshsim/pipeline/job/config/TemplateStringRenderer.java:179 | String.lastIndexOf: -1 or a position holding the character, with none after it |
| TemplateRenderers.TemplateMatches | src/main/java/org/joshsim/pipeline/job/config/TemplateStringRenderer.java:106-108 | every group the pattern finds is non-empty and holds no '}' (with line 42) |
| TemplateRenderers.TemplateMatchesOccur | src/main/java/org/joshsim/pipeline/job/config/TemplateStringRenderer.java:106-109 | every variable found appears in braces in the template (with line 42) |
| TemplateRenderers.NoBraceNoMatches | src/main/java/org/joshsim/pipeline/job/config/TemplateStringRenderer.java:106-107 | text without '{' holds no template variable (with line 42) |
| TemplateRenderers.MatchesOfPlaceholder | src/main/java/org/joshsim/pipeline/job/config/TemplateStringRenderer.java:106-108 | text without '{' before a placeholder {v} is skipped; v is found and the search resumes after its '}' (with line 42) |
| TemplateRenderers.ExtractBaseName | src/main/java/org/joshsim/pipeline/job/config/TemplateStringRenderer.java:178-184 | the base name is the whole name, or a prefix followed by '.' in it |
| TemplateRenderers.BaseNameOfExtension | src/main/java/org/joshsim/pipeline/job/config/TemplateStringRenderer.java:178-184 | a non-empty name plus a '.'-free extension gives back the name |
| TemplateRenderers.BaseNameWithoutExtension | src/main/java/org/joshsim/pipeline/job/config/TemplateStringRenderer.java:178-184 | a name without '.', or whose only '.' is its first character, is its own base name |
| TemplateRenderers.FirstWithBase | src/main/java/org/joshsim/pipeline/job/config/TemplateStringRenderer.java:157-166 | the name found is a logical name with that base name; none exactly when no logical name has it |
| TemplateRenderers.FirstWithBaseIsFirst | src/main/java/org/joshsim/pipeline/job/config/TemplateStringRenderer.java:159-163 | the name found is the earliest one in iteration order with that base name |
| TemplateRenderers.FindMatchingLogicalFileName | src/main/java/org/joshsim/pipeline/job/config/TemplateStringRenderer.java:157-166 | the loop with its early return finds that first name, a key of the file map, and returns null exactly when no logical name has the base name |
| TemplateRenderers.UnknownIn | src/main/java/org/joshsim/pipeline/job/config/TemplateStringRenderer.java:111-123 | the unknown set is empty exactly when no variable found is unknown, and holds each unknown one in braces |
| TemplateRenderers.UnknownInOnly | src/main/java/org/joshsim/pipeline/job/config/TemplateStringRenderer.java:120-123 | everything in the unknown set is a braced unknown variable |
| TemplateRenderers.BracedBases | src/main/java/org/joshsim/pipeline/job/config/TemplateStringRenderer.java:129-132 | one braced base name per logical file, in iteration order |
| TemplateRenderers.Available | src/main/java/org/joshsim/pipeline/job/config/TemplateStringRenderer.java:128-135 | the offered templates are the files' braced base names followed by {replicate}, {step} and {variable} |
| TemplateRenderers.JobSpecific | src/main/java/org/joshsim/pipeline/job/config/TemplateStringRenderer.java:100-144 | phase 1 fails with a RuntimeException exactly when some variable found names no logical file and is not an export variable |
| TemplateRenderers.AvailableTemplates | src/main/java/org/joshsim/pipeline/job/config/TemplateStringRenderer.java:128-135 | the loop builds exactly the offered templates |
| TemplateRenderers.ProcessJobSpecificTemplates | src/main/java/org/joshsim/pipeline/job/config/TemplateStringRenderer.java:100-144 | the matcher loop and error report compute exactly phase 1 |
| TemplateRenderers.ReplaceMatches | src/main/java/org/joshsim/pipeline/job/config/TemplateStringRenderer.java:107-124 | the loop's result is the template with each known placeholder replaced in turn, and its unknown set is the braced unknown variables |
| TemplateRenderers.KnownPlaceholderReplaced | src/main/java/org/joshsim/pipeline/job/config/TemplateStringRenderer.java:112-116 | a known placeholder between texts without '{' becomes the matching file's name |
| TemplateRenderers.UnknownPlaceholderFails | src/main/java/org/joshsim/pipeline/job/config/TemplateStringRenderer.java:120-141 | an unknown placeholder fails phase 1 with a message naming it and the available templates |
| TemplateRenderers.ExportPlaceholderKept | src/main/java/org/joshsim/pipeline/job/config/TemplateStringRenderer.java:117-119 | an export placeholder naming no file is left for phase 2 |
| TemplateRenderers.JobSpecificWithoutBraces | src/main/java/org/joshsim/pipeline/job/config/TemplateStringRenderer.java:100-144 | a template without '{' passes phase 1 unchanged |
| TemplateRenderers.GeoTiffIsTif | src/main/java/org/joshsim/pipeline/job/config/TemplateStringRenderer.java:209 | the ".tiff" test is subsumed: the template is a GeoTIFF exactly when it contains ".tif" |
| TemplateRenderers.GeoTiffLeavesNoPlaceholder | src/main/java/org/joshsim/pipeline/job/config/TemplateStringRenderer.java:209-215 | for a GeoTIFF, no {replicate}, {step} or {variable} survives phase 2 |
| TemplateRenderers.OtherFormatLeavesNoPlaceholder | src/main/java/org/joshsim/pipeline/job/config/TemplateStringRenderer.java:216-221 | otherwise a template without {replicate} keeps no {replicate}, {step} or {variable} |
| TemplateRenderers.ReplicateSurvivesMarkers | src/main/java/org/joshsim/pipeline/job/config/TemplateStringRenderer.java:213-219 | replacing {step} and {variable} leaves {replicate} in place |
| TemplateRenderers.OtherFormatDeletesReplicate | src/main/java/org/joshsim/pipeline/job/config/TemplateStringRenderer.java:216-221 | outside GeoTIFF, {replicate} is deleted: "a{replicate}b" becomes "ab" |
| TemplateRenderers.GeoTiffNumbersReplicate | src/main/java/org/joshsim/pipeline/job/config/TemplateStringRenderer.java:209-215 | for a GeoTIFF, {replicate} becomes the replicate number |
| TemplateRenderers.ExportWithoutBraces | src/main/java/org/joshsim/pipeline/job/config/TemplateStringRenderer.java:207-222 | text without '{' passes phase 2 unchanged |
| TemplateRenderers.RenderTemplate | src/main/java/org/joshsim/pipeline/job/config/TemplateStringRenderer.java:76-86 | a null or empty template is returned as is; otherwise fails exactly when phase 1 fails, else is phase 2 applied to phase 1's result |
| TemplateRenderers.RenderKnownPlaceholder | src/main/java/org/joshsim/pipeline/job/config/TemplateStringRenderer.java:76-116 | a path with one known placeholder and no other braces renders to the path with the file's name spliced in |
| TemplateRenderers.UnknownMessage | src/main/java/org/joshsim/pipeline/job/config/TemplateStringRenderer.java:127-140 | the text of the RuntimeException for unknown variables: the unknown names joined by ", " (in sorted order), then the available templates. UnknownPlaceholderFails shows it is the error |
| TemplateRenderers.IsGeoTiff | src/main/java/org/joshsim/pipeline/job/config/TemplateStringRenderer.java:209 | the template contains ".tif" or ".tiff". GeoTiffIsTif shows this is the same as containing ".tif" |
| TemplateRenderers.ExportSpecific | src/main/java/org/joshsim/pipeline/job/config/TemplateStringRenderer.java:207-222 | processExportSpecificTemplates: for a GeoTIFF, {replicate} becomes the number; otherwise {replicate} is deleted. In both cases {step} and {variable} become markers. GeoTiffLeavesNoPlaceholder, OtherFormatDeletesReplicate, GeoTiffNumbersReplicate and ExportWithoutBraces characterise it |
| JobVariations.ReconstructPath | src/main/java/org/joshsim/pipeline/job/config/JoshJobVariationVisitor.java:119-125 | the loop appends the child texts in order and trims the result |
| JobVariations.ParseFileSpec | src/main/java/org/joshsim/pipeline/job/config/JoshJobVariationVisitor.java:71-111 | a partial parse yields nothing; otherwise fails with IllegalArgumentException exactly for an empty trimmed name, an empty path list or an empty path, and else yields the non-empty name with one non-empty path per path context |
| JobVariations.Prefixed | src/main/java/org/joshsim/pipeline/job/config/JoshJobVariationVisitor.java:228-235 | each tail gets the path in front |
| JobVariations.ProductWith | src/main/java/org/joshsim/pipeline/job/config/JoshJobVariationVisitor.java:227-236 | every combination starts with one of the heads, followed by one of the tails |
| JobVariations.Product | src/main/java/org/joshsim/pipeline/job/config/JoshJobVariationVisitor.java:187-237 | every combination has one path per list |
| JobVariations.SizeProduct | src/main/java/org/joshsim/pipeline/job/config/JoshJobVariationVisitor.java:151-157 | with no empty list the product of the sizes is positive |
| JobVariations.ProductWithSize | src/main/java/org/joshsim/pipeline/job/config/JoshJobVariationVisitor.java:228-236 | heads x tails gives |heads| * |tails| combinations |
| JobVariations.ProductSize | src/main/java/org/joshsim/pipeline/job/config/JoshJobVariationVisitor.java:187-237 | there are as many combinations as the product of the path-list sizes |
| JobVariations.ProductWithMembers | src/main/java/org/joshsim/pipeline/job/config/JoshJobVariationVisitor.java:228-236 | c is produced exactly when its head is one of the heads and its rest one of the tails |
| JobVariations.PrefixedMembers | src/main/java/org/joshsim/pipeline/job/config/JoshJobVariationVisitor.java:230-231 | c is a prefixed tail exactly when it starts with the path and its rest is a tail |
| JobVariations.ProductMembers | src/main/java/org/joshsim/pipeline/job/config/JoshJobVariationVisitor.java:187-237 | a combination is exactly a choice of one path from each list, in list order |
| JobVariations.ProductWithDistinct | src/main/java/org/joshsim/pipeline/job/config/JoshJobVariationVisitor.java:228-236 | distinct heads and distinct tails give distinct combinations |
| JobVariations.ProductDistinct | src/main/java/org/joshsim/pipeline/job/config/JoshJobVariationVisitor.java:187-237 | path lists without repeats give combinations without repeats |
| JobVariations.OverlayMeaning | src/main/java/org/joshsim/pipeline/job/config/JoshJobVariationVisitor.java:215-220 | setting the chosen paths adds exactly the varied names, each with its chosen path, and keeps every other file path |
| JobVariations.AssembleMeaning | src/main/java/org/joshsim/pipeline/job/config/JoshJobVariationVisitor.java:200-222 | a combination's builder carries the template's replicates and custom parameters and its unvaried file paths, and gives each varied name its chosen path |
| JobVariations.AssembleInjective | src/main/java/org/joshsim/pipeline/job/config/JoshJobVariationVisitor.java:200-222 | different combinations give different builders |
| JobVariations.AssembleAll | src/main/java/org/joshsim/pipeline/job/config/JoshJobVariationVisitor.java:187-237 | one builder per completion of the current combination |
| JobVariations.Tally | src/main/java/org/joshsim/pipeline/job/config/JoshJobVariationVisitor.java:151-162 | the count check only fails with IllegalArgumentException |
| JobVariations.TallyMeaning | src/main/java/org/joshsim/pipeline/job/config/JoshJobVariationVisitor.java:151-162 | with non-empty lists the check fails exactly when the full product exceeds 1000, and otherwise counts it |
| JobVariations.PathLists | src/main/java/org/joshsim/pipeline/job/config/JoshJobVariationVisitor.java:165-169 | the path lists follow the logical names one for one |
| JobVariations.Combinations | src/main/java/org/joshsim/pipeline/job/config/JoshJobVariationVisitor.java:144-176 | no specifications give the template alone; a failure is an IllegalArgumentException |
| JobVariations.PathListsNonEmpty | src/main/java/org/joshsim/pipeline/job/config/JoshJobVariationVisitor.java:88-92 | stored specifications never have an empty path list (with lines 153-155) |
| JobVariations.CombinationsCount | src/main/java/org/joshsim/pipeline/job/config/JoshJobVariationVisitor.java:144-176 | the grid search fails exactly when the product of the path-list sizes exceeds 1000, and otherwise yields that many builders |
| JobVariations.CombinationAt | src/main/java/org/joshsim/pipeline/job/config/JoshJobVariationVisitor.java:171-176 | the j-th builder is the template overlaid with the j-th choice of paths, earlier names varying slowest (with lines 194-236) |
| JobVariations.CombinationsCarryOver | src/main/java/org/joshsim/pipeline/job/config/JoshJobVariationVisitor.java:200-222 | each builder has one of its paths for every logical name, the template's replicates and custom parameters, and the unvaried file paths |
| JobVariations.AssembleChoice | src/main/java/org/joshsim/pipeline/job/config/JoshJobVariationVisitor.java:200-222 | the builder for a choice of paths, stated in terms of the specifications |
| JobVariations.CombinationsDistinct | src/main/java/org/joshsim/pipeline/job/config/JoshJobVariationVisitor.java:144-237 | when no path list repeats a path, no two builders are alike |
| JobVariations.Stored | src/main/java/org/joshsim/pipeline/job/config/JoshJobVariationVisitor.java:108 | storing a specification keeps the key order a listing of the keys |
| JobVariations.AfterFileSpec | src/main/java/org/joshsim/pipeline/job/config/JoshJobVariationVisitor.java:71-111 | fails exactly when the specification does, and keeps the stored specifications well formed and their key order |
| JobVariations.VisitAll | src/main/java/org/joshsim/pipeline/job/config/JoshJobVariationVisitor.java:56-58 | the first pass fails exactly when some specification does, and otherwise keeps the specifications well formed |
| JobVariations.JoshJobVariationVisitor.constructor | src/main/java/org/joshsim/pipeline/job/config/JoshJobVariationVisitor.java:39-45 | a new visitor holds the template and no specifications |
| JobVariations.JoshJobVariationVisitor.VisitFileSpec | src/main/java/org/joshsim/pipeline/job/config/JoshJobVariationVisitor.java:71-111 | an invalid specification is reported and changes nothing; a valid one is stored under its logical name |
| JobVariations.JoshJobVariationVisitor.VisitJobVariation | src/main/java/org/joshsim/pipeline/job/config/JoshJobVariationVisitor.java:54-62 | fails with the first specification's error, or stores all of them and returns their combinations |
| JobVariations.JoshJobVariationVisitor.GenerateCombinations | src/main/java/org/joshsim/pipeline/job/config/JoshJobVariationVisitor.java:144-176 | the method computes exactly the combinations specified above |
| JobVariations.JoshJobVariationVisitor.GenerateCombinationsRecursive | src/main/java/org/joshsim/pipeline/job/config/JoshJobVariationVisitor.java:187-237 | the builders appended are one per completion of the current combination, in order |
| JobVariations.PathTexts | src/main/java/org/joshsim/pipeline/job/config/JoshJobVariationVisitor.java:96-98 | one text per path context |
| JobVariations.CollectPaths | src/main/java/org/joshsim/pipeline/job/config/JoshJobVariationVisitor.java:95-105 | succeeds exactly when no path is empty, with the paths' texts; else the IllegalArgumentException naming the logical name |
| JobVariations.CountCombinations | src/main/java/org/joshsim/pipeline/job/config/JoshJobVariationVisitor.java:151-162 | the count loop computes exactly the tally from 1 |
| JobVariations.ExpandStep | src/main/java/org/joshsim/pipeline/job/config/JoshJobVariationVisitor.java:228-236 | one more head appends its builders after those of the earlier heads |
| Progress.Percentage | src/main/java/org/joshsim/util/ProgressCalculator.java:68-104 | a step count within the run gives a percentage between 0 and 100 |
| Progress.ShouldReport | src/main/java/org/joshsim/util/ProgressCalculator.java:133-151 | the first update is always reported; afterwards exactly when progress rose by at least 5 points, or by at least 1 point with at least 10 steps since the last report |
| Progress.PercentageMonotone | src/main/java/org/joshsim/util/ProgressCalculator.java:68-72 | within a replicate, a later step is further along |
| Progress.CompletionContinuesSteps | src/main/java/org/joshsim/util/ProgressCalculator.java:68-104 | the last step of replicate n stands where the completion of replicate n does |
| Progress.LastCompletionIsHundred | src/main/java/org/joshsim/util/ProgressCalculator.java:100-104 | completing the last replicate is 100% |
| Progress.ProgressCalculator.constructor | src/main/java/org/joshsim/util/ProgressCalculator.java:44-55 | a new calculator has no report yet (-1 and -1.0), is on replicate 1 and has completed no steps |
| Progress.ProgressCalculator.StepPercentage | src/main/java/org/joshsim/util/ProgressCalculator.java:68-72 | a step within the current replicate gives a percentage between 0 and 100 |
| Progress.ProgressCalculator.UpdateStep | src/main/java/org/joshsim/util/ProgressCalculator.java:66-86 | the update carries the step's percentage and the report filter's verdict; a reported step becomes the last report and carries its message, an unreported one changes nothing and has no message |
| Progress.ProgressCalculator.FormatProgressMessage | src/main/java/org/joshsim/util/ProgressCalculator.java:165-183 | a step message with the percentage and step; the replicate is shown exactly when there are several |
| Progress.ProgressCalculator.UpdateReplicateCompleted | src/main/java/org/joshsim/util/ProgressCalculator.java:98-120 | always reported, with the completed share of the run; the calculator moves to the next replicate, restarts the step filter from the completion, and the message names the replicate unless there is only one |
| Progress.FirstUpdateReports | src/main/java/org/joshsim/util/ProgressCalculator.java:135-137 | a calculator never told of a report reports its first update |
| Progress.AfterCompletion | src/main/java/org/joshsim/util/ProgressCalculator.java:98-151 | after replicate n completes, step s of the next replicate is reported when its progress since completion is at least 5 points, or at least 1 point once s >= 9 |
| Progress.NewProgressCalculator | src/main/java/org/joshsim/util/ProgressCalculator.java:44-55 | fails with IllegalArgumentException exactly for a non-positive step or replicate count, with the message for the first that fails; otherwise a fresh calculator |
| GridCombiners.CombinedExtents | src/main/java/org/joshsim/precompute/GridCombiner.java:89-115 | the combined extents reach the smaller min x and min y and the larger max x and max y of the two grids, each taken from one of them |
| GridCombiners.MinTimestep | src/main/java/org/joshsim/precompute/GridCombiner.java:124-126 | the smaller of the two first timesteps |
| GridCombiners.MaxTimestep | src/main/java/org/joshsim/precompute/GridCombiner.java:135-137 | the larger of the two last timesteps |
| GridCombiners.CombinedUnits | src/main/java/org/joshsim/precompute/GridCombiner.java:150-163 | fails with IllegalArgumentException exactly when the units differ; otherwise the right grid's units |
| GridCombiners.CombinedCoversBoth | src/main/java/org/joshsim/precompute/GridCombiner.java:55-75 | the combined ranges cover every cell of either grid (with lines 89-137) |
| GridCombiners.CombinedIsTightest | src/main/java/org/joshsim/precompute/GridCombiner.java:89-137 | any box covering both grids contains the combined ranges |
| GridCombiners.InBox | src/main/java/org/joshsim/precompute/GridCombiner.java:176-180 | a cell is in the loops' box exactly when each coordinate is within its bounds |
| GridCombiners.BoxEmpty | src/main/java/org/joshsim/precompute/GridCombiner.java:176-180 | a box with an empty range has no cells, so the loops do nothing |
| GridCombiners.OverlayMeaning | src/main/java/org/joshsim/precompute/GridCombiner.java:175-191 | writing a grid's values over an area sets exactly the area's cells to the grid's values and keeps every other stored value |
| GridCombiners.OverlayTwice | src/main/java/org/joshsim/precompute/GridCombiner.java:175-191 | writing two areas in turn is writing their union |
| GridCombiners.OverlayOne | src/main/java/org/joshsim/precompute/GridCombiner.java:187 | writing one cell is a map update |
| GridCombiners.OverlayEmptyBox | src/main/java/org/joshsim/precompute/GridCombiner.java:176-180 | writing an empty box changes nothing |
| GridCombiners.CombinedGrid.constructor | src/main/java/org/joshsim/precompute/GridCombiner.java:61-66 | a new grid has the given extents, timestep range and units and no values |
| GridCombiners.CombinedGrid.SetAt | src/main/java/org/joshsim/precompute/GridCombiner.java:187 | setting a cell replaces its value and nothing else |
| GridCombiners.AddTimesteps | src/main/java/org/joshsim/precompute/GridCombiner.java:178-188 | the timestep loop writes the source's values over the cells of one (x, y) |
| GridCombiners.AddColumn | src/main/java/org/joshsim/precompute/GridCombiner.java:177-189 | the y loop writes the source's values over one column |
| GridCombiners.AddInValues | src/main/java/org/joshsim/precompute/GridCombiner.java:175-191 | every cell of the source's ranges gets the source's value |
| GridCombiners.RightWins | src/main/java/org/joshsim/precompute/GridCombiner.java:68-72 | a cell has a value exactly when either grid has it; the right grid's value wherever it has the cell, the left grid's elsewhere, and every set cell lies within the combined ranges |
| GridCombiners.Combine | src/main/java/org/joshsim/precompute/GridCombiner.java:55-75 | fails exactly when the units differ; otherwise a new grid with the combined extents, timestep range, the right grid's units and the right-over-left values |
| EngineValueTuples.RootString | src/main/java/org/joshsim/engine/value/engine/EngineValueTuple.java:228-233 | the two root types joined around a single ',' |
| EngineValueTuples.TypesTupleEqualsIffRoots | src/main/java/org/joshsim/engine/value/engine/EngineValueTuple.java:241-243 | with no ',' inside a first root type, two type tuples are equal exactly when both root types are |
| EngineValueTuples.UnitsCompatibleMeaning | src/main/java/org/joshsim/engine/value/engine/EngineValueTuple.java:297-307 | units are compatible exactly when they are equal or either side prints as blank |
| EngineValueTuples.EmptyUnitsCompatible | src/main/java/org/joshsim/engine/value/engine/EngineValueTuple.java:297-307 | units without factors are compatible with any units, on either side |
| EngineValueTuples.HighHash | src/main/java/org/joshsim/engine/value/engine/EngineValueTuple.java:103-118 | the high half of a key is an int |
| EngineValueTuples.LowHash | src/main/java/org/joshsim/engine/value/engine/EngineValueTuple.java:103-118 | the low half of a key is an int |
| EngineValueTuples.CacheKeyDecodes | src/main/java/org/joshsim/engine/value/engine/EngineValueTuple.java:100-119 | the first hash sits in the high 32 bits of the key and the second in the low 32 bits, and both decode back |
| EngineValueTuples.CacheKeyInjective | src/main/java/org/joshsim/engine/value/engine/EngineValueTuple.java:100-119 | two pairs of ints give the same key exactly when they are the same pair |
| EngineValueTuples.UnitsTupleFromCache | src/main/java/org/joshsim/engine/value/engine/EngineValueTuple.java:86-89 | computeIfAbsent: the result is what the cache then holds under the key of the two identity hashes; an existing entry is returned unchanged, and otherwise the requested tuple is stored |
| EngineValueTuples.CacheCorrectWhenHashInjective | src/main/java/org/joshsim/engine/value/engine/EngineValueTuple.java:86-89 | while the identity hash tells apart the units in play (the requested pair and every cached tuple's units, `InPlay`), the cache returns the requested tuple and stays consistent |
| EngineValueTuples.InjectiveHashExists | src/main/java/org/joshsim/engine/value/engine/EngineValueTuple.java:86-89 | the requires of CacheCorrectWhenHashInjective can be met: a hash of 1 for meters and 2 for everything else separates meters and seconds over an empty cache |
| EngineValueTuples.IdentityHashCollision | src/main/java/org/joshsim/engine/value/engine/EngineValueTuple.java:86-119 | when two units objects' identity hashes collide, a request for (seconds, seconds) gets back the cached (meters, seconds) |
| EngineValueTuples.UnitsTupleFromCacheCorrected | src/main/java/org/joshsim/engine/value/engine/EngineValueTuple.java:86-89 | keyed by the units themselves, the cache always returns the requested tuple and holds only correct entries |
| EngineValueTuples.Of | src/main/java/org/joshsim/engine/value/engine/EngineValueTuple.java:37-65 | the tuple holds both operands and the pairs of their types and units |
| EngineValueTuples.Reverse | src/main/java/org/joshsim/engine/value/engine/EngineValueTuple.java:126-128 | the operands are swapped |
| EngineValueTuples.ReverseInvolution | src/main/java/org/joshsim/engine/value/engine/EngineValueTuple.java:126-135 | reversing twice gives the tuple back, and reversing keeps compatibility |
| EngineValueTuples.TypesCompatible | src/main/java/org/joshsim/engine/value/engine/EngineValueTuple.java:219-221 | TypesTuple.getAreCompatible: the two root types are equal |
| EngineValueTuples.TypesTupleEquals | src/main/java/org/joshsim/engine/value/engine/EngineValueTuple.java:241-243 | TypesTuple.equals: the root strings are equal. TypesTupleEqualsIffRoots shows this is equality of both root types |
| EngineValueTuples.UnitsCompatible | src/main/java/org/joshsim/engine/value/engine/EngineValueTuple.java:297-307 | UnitsTuple.getAreCompatible: equal units, or either side printing as blank. UnitsCompatibleMeaning and EmptyUnitsCompatible characterise it |
| EngineValueTuples.CacheKey | src/main/java/org/joshsim/engine/value/engine/EngineValueTuple.java:115-119 | computUnitsCacheKey: the first hash shifted into the high 32 bits, OR the second masked to the low 32. CacheKeyDecodes and CacheKeyInjective characterise it |
| EngineValueTuples.AreCompatible | src/main/java/org/joshsim/engine/value/engine/EngineValueTuple.java:133-135 | getAreCompatible: both the types and the units are compatible. ReverseInvolution shows that reversing keeps it |
| EventHandlerMachines.PopMany | src/main/java/org/joshsim/lang/interpret/machine/SingleThreadEventHandlerMachine.java:100-105 | n pops that succeed return n values (with lines 139-140, 406-408) |
| EventHandlerMachines.GroupedPops | src/main/java/org/joshsim/lang/interpret/machine/SingleThreadEventHandlerMachine.java:100-106 | a grouped run of pops that succeeds returns n values and closes the group (with lines 139-141, 406-409) |
| EventHandlerMachines.PopManyKeepsGroup | src/main/java/org/joshsim/lang/interpret/machine/SingleThreadEventHandlerMachine.java:811-824 | pops change neither the group flag nor the end flag |
| EventHandlerMachines.ConvertLands | src/main/java/org/joshsim/lang/interpret/machine/SingleThreadEventHandlerMachine.java:826-834 | with a bridge that lands in the requested units, convert yields the end units, and converting again changes nothing |
| EventHandlerMachines.GroupRoundTrip | src/main/java/org/joshsim/lang/interpret/machine/SingleThreadEventHandlerMachine.java:843-864 | opening and closing a group leaves the stack and the end flag alone and clears the target; opening twice, or closing outside a group, fails with IllegalStateException |
| EventHandlerMachines.PopOpCases | src/main/java/org/joshsim/lang/interpret/machine/SingleThreadEventHandlerMachine.java:811-824 | an empty stack fails; otherwise the top is removed and returned as is outside a group, fixes the target in a group without one, and is converted to the target otherwise |
| EventHandlerMachines.ConvertedTop | src/main/java/org/joshsim/lang/interpret/machine/SingleThreadEventHandlerMachine.java:811-834 | one converted value per value taken |
| EventHandlerMachines.PopManyWithTarget | src/main/java/org/joshsim/lang/interpret/machine/SingleThreadEventHandlerMachine.java:811-834 | inside a group with a target, n pops return the top n values, top first, converted to the target, and leave the rest of the stack |
| EventHandlerMachines.PopManyCons | src/main/java/org/joshsim/lang/interpret/machine/SingleThreadEventHandlerMachine.java:811-824 | a successful pop followed by n - 1 successful pops is n successful pops |
| EventHandlerMachines.FirstPopFixesTarget | src/main/java/org/joshsim/lang/interpret/machine/SingleThreadEventHandlerMachine.java:811-864 | in a fresh group the first value popped is returned as is and the others are converted to its units, which stay the target |
| EventHandlerMachines.GroupedPopsShareUnits | src/main/java/org/joshsim/lang/interpret/machine/SingleThreadEventHandlerMachine.java:811-864 | with a bridge that lands in the requested units, every value of a grouped run has the units of the first one popped |
| EventHandlerMachines.PopManyTooFew | src/main/java/org/joshsim/lang/interpret/machine/SingleThreadEventHandlerMachine.java:811-812 | popping more values than the stack holds fails on the empty stack, emptying it and keeping the group flag |
| EventHandlerMachines.GroupedPopsOf | src/main/java/org/joshsim/lang/interpret/machine/SingleThreadEventHandlerMachine.java:843-864 | a grouped run that succeeds returns its pops' values and closes the group |
| EventHandlerMachines.NestedGroupFails | src/main/java/org/joshsim/lang/interpret/machine/SingleThreadEventHandlerMachine.java:843-847 | a grouped operation started inside a group fails at once and changes nothing |
| EventHandlerMachines.TooFewLeavesGroupOpen | src/main/java/org/joshsim/lang/interpret/machine/SingleThreadEventHandlerMachine.java:138-147 | a grouped operation short of operands fails on the empty stack and leaves the group open (with lines 811-812) |
| EventHandlerMachines.GroupedBinaryOnTwo | src/main/java/org/joshsim/lang/interpret/machine/SingleThreadEventHandlerMachine.java:138-158 | on a stack ending in left, right, add and its kin replace both by left converted to right's units combined with right |
| EventHandlerMachines.BinaryOnTwo | src/main/java/org/joshsim/lang/interpret/machine/SingleThreadEventHandlerMachine.java:161-186 | multiply, divide, pow and slice combine the top two values without converting them (with lines 335-345) |
| EventHandlerMachines.ApplyMapOperands | src/main/java/org/joshsim/lang/interpret/machine/SingleThreadEventHandlerMachine.java:99-135 | applyMap pops its six operands converted to the param's units, then rejects an unknown strategy with IllegalArgumentException or pushes what the strategy makes of them |
| EventHandlerMachines.BoundedClamps | src/main/java/org/joshsim/lang/interpret/machine/SingleThreadEventHandlerMachine.java:411-418 | with lower <= upper the pushed value lies between them, and is the target when it already did |
| EventHandlerMachines.BoundedIdempotent | src/main/java/org/joshsim/lang/interpret/machine/SingleThreadEventHandlerMachine.java:411-418 | bounding twice is bounding once |
| EventHandlerMachines.BoundBoth | src/main/java/org/joshsim/lang/interpret/machine/SingleThreadEventHandlerMachine.java:405-421 | bound with both limits on a stack ending in target, lower, upper pushes the target, converted to the upper's units, clamped between the converted lower and the upper |
| EventHandlerMachines.CastToSameUnits | src/main/java/org/joshsim/lang/interpret/machine/SingleThreadEventHandlerMachine.java:394-402 | a cast to the units the top already has leaves the stack as it was (with lines 874-897) |
| EventHandlerMachines.EndOp | src/main/java/org/joshsim/lang/interpret/machine/SingleThreadEventHandlerMachine.java:765-772 | end fails with IllegalStateException the second time, and otherwise marks the machine ended |
| EventHandlerMachines.ResultOf | src/main/java/org/joshsim/lang/interpret/machine/SingleThreadEventHandlerMachine.java:780-790 | the result is the top of the stack, left in place, exactly when the stack is non-empty and the machine has ended; otherwise the matching IllegalStateException |
| EventHandlerMachines.PushThenEndGivesResult | src/main/java/org/joshsim/lang/interpret/machine/SingleThreadEventHandlerMachine.java:765-790 | a handler that pushes a value and ends has that value as its result, and cannot end again (with lines 93-96) |
| EventHandlerMachines.EventHandlerMachine.constructor | src/main/java/org/joshsim/lang/interpret/machine/SingleThreadEventHandlerMachine.java:71-81 | a new machine has an empty stack, no group, no target and has not ended |
| EventHandlerMachines.EventHandlerMachine.Push | src/main/java/org/joshsim/lang/interpret/machine/SingleThreadEventHandlerMachine.java:93-96 | the value goes on top of the stack |
| EventHandlerMachines.EventHandlerMachine.PushResolved | src/main/java/org/joshsim/lang/interpret/machine/SingleThreadEventHandlerMachine.java:84-90 | a resolver that finds nothing fails with IllegalStateException and changes nothing; otherwise its value is pushed |
| EventHandlerMachines.EventHandlerMachine.Pop | src/main/java/org/joshsim/lang/interpret/machine/SingleThreadEventHandlerMachine.java:811-824 | the machine's pop is the pop specified above |
| EventHandlerMachines.EventHandlerMachine.StartConversionGroup | src/main/java/org/joshsim/lang/interpret/machine/SingleThreadEventHandlerMachine.java:843-850 | the machine's startConversionGroup is the one specified above |
| EventHandlerMachines.EventHandlerMachine.EndConversionGroup | src/main/java/org/joshsim/lang/interpret/machine/SingleThreadEventHandlerMachine.java:858-864 | the machine's endConversionGroup is the one specified above |
| EventHandlerMachines.EventHandlerMachine.PopTwo | src/main/java/org/joshsim/lang/interpret/machine/SingleThreadEventHandlerMachine.java:139-163 | two pops, right first, as specified by the run of pops |
| EventHandlerMachines.EventHandlerMachine.GroupedBinary | src/main/java/org/joshsim/lang/interpret/machine/SingleThreadEventHandlerMachine.java:138-158 | the grouped binary operations, as specified (with lines 189-332) |
| EventHandlerMachines.EventHandlerMachine.Binary | src/main/java/org/joshsim/lang/interpret/machine/SingleThreadEventHandlerMachine.java:161-186 | the ungrouped binary operations, as specified (with lines 335-345) |
| EventHandlerMachines.EventHandlerMachine.PopMapOperands | src/main/java/org/joshsim/lang/interpret/machine/SingleThreadEventHandlerMachine.java:100-106 | the six pops of applyMap, as specified by the run of pops |
| EventHandlerMachines.EventHandlerMachine.ApplyMap | src/main/java/org/joshsim/lang/interpret/machine/SingleThreadEventHandlerMachine.java:99-135 | applyMap, as specified |
| EventHandlerMachines.EventHandlerMachine.Bound | src/main/java/org/joshsim/lang/interpret/machine/SingleThreadEventHandlerMachine.java:405-421 | bound, as specified |
| EventHandlerMachines.EventHandlerMachine.Cast | src/main/java/org/joshsim/lang/interpret/machine/SingleThreadEventHandlerMachine.java:394-402 | cast, forced or converting, as specified (with lines 874-897) |
| EventHandlerMachines.EventHandlerMachine.End | src/main/java/org/joshsim/lang/interpret/machine/SingleThreadEventHandlerMachine.java:765-772 | end, as specified |
| EventHandlerMachines.EventHandlerMachine.GetResult | src/main/java/org/joshsim/lang/interpret/machine/SingleThreadEventHandlerMachine.java:780-790 | getResult, as specified |
| EventHandlerMachines.PopManyPrefixStep | src/main/java/org/joshsim/lang/interpret/machine/SingleThreadEventHandlerMachine.java:811-824 | one more successful pop extends a run of successful pops |
| EventHandlerMachines.PopManyPrefixFails | src/main/java/org/joshsim/lang/interpret/machine/SingleThreadEventHandlerMachine.java:811-812 | a failing pop after a run of successful ones makes the whole run fail at that point |
| EventHandlerMachines.Convert | src/main/java/org/joshsim/lang/interpret/machine/SingleThreadEventHandlerMachine.java:826-834 | convert: a value already in the end units is kept; any other goes through the bridge. ConvertLands characterises it |
| EventHandlerMachines.PopOp | src/main/java/org/joshsim/lang/interpret/machine/SingleThreadEventHandlerMachine.java:811-824 | pop(): fails on an empty stack. Otherwise it returns the top as is outside a group, fixes the target with it in a group without one, and converts it to the target otherwise. PopOpCases states the cases |
| EventHandlerMachines.StartGroupOp | src/main/java/org/joshsim/lang/interpret/machine/SingleThreadEventHandlerMachine.java:843-850 | startConversionGroup: IllegalStateException inside a group; otherwise it opens one with no target. GroupRoundTrip and NestedGroupFails characterise it |
| EventHandlerMachines.EndGroupOp | src/main/java/org/joshsim/lang/interpret/machine/SingleThreadEventHandlerMachine.java:858-864 | endConversionGroup: IllegalStateException outside a group; otherwise it closes the group. GroupRoundTrip characterises it |
| EventHandlerMachines.GroupedBinaryOp | src/main/java/org/joshsim/lang/interpret/machine/SingleThreadEventHandlerMachine.java:138-158 | add, subtract, concat, the logical operations and the comparisons: two pops in a conversion group, right first, then one result pushed. GroupedBinaryOnTwo and TooFewLeavesGroupOpen characterise it (with lines 189-332) |
| EventHandlerMachines.BinaryOp | src/main/java/org/joshsim/lang/interpret/machine/SingleThreadEventHandlerMachine.java:161-186 | multiply, divide, pow and slice: two pops without a group, right first, then one result pushed. BinaryOnTwo characterises it (with lines 335-345) |
| EventHandlerMachines.ApplyMapOp | src/main/java/org/joshsim/lang/interpret/machine/SingleThreadEventHandlerMachine.java:99-135 | applyMap: six pops in a group; an unknown strategy is rejected after the pops, otherwise the mapped value is pushed. ApplyMapOperands characterises it |
| EventHandlerMachines.Bounded | src/main/java/org/joshsim/lang/interpret/machine/SingleThreadEventHandlerMachine.java:411-418 | the value bound pushes: lower if below it, else upper if above it, else the target. BoundedClamps and BoundedIdempotent characterise it |
| EventHandlerMachines.BoundOp | src/main/java/org/joshsim/lang/interpret/machine/SingleThreadEventHandlerMachine.java:405-421 | bound: upper (if given), lower (if given) and the target popped in a group, then their bounded value pushed. BoundBoth characterises it |
| EventHandlerMachines.CastOp | src/main/java/org/joshsim/lang/interpret/machine/SingleThreadEventHandlerMachine.java:394-402 | cast: a forced cast keeps the magnitude under the new units; otherwise the top is converted. CastToSameUnits characterises it (with lines 874-897) |

## Left out

- I/O, clocks and randomness: file reading, logging and printing of progress messages are not modelled. The shuffle in `sampleWithoutReplacement` is a parameter of the model.
- Message formatting with `%.1f` and `String.format`: progress messages are modelled as their arguments (percentage, step, replicate), not as text.
- Java's `String.compareTo`: modelled as lexicographic order on Dafny characters (code points rather than UTF-16 units). `Character.isLetter` and `isLetterOrDigit` are restricted to ASCII letters and digits.
- ConfigParsing: the input is a Dafny string, one element per Unicode character, where Java's `charAt` loop walks UTF-16 code units. So the positions in the "at position" messages count characters, not UTF-16 units, and they differ from Java's after any character outside the Basic Multilingual Plane. Such a character is also named whole in a message, where Java names its high surrogate.
- HashMap and HashSet iteration order: where the result depends on it, the order is a parameter of the model or fixed as sorted order. This applies to the EntityBuilder handler loops and the TemplateStringRenderer unknown-variable list.
- UnitsAlgebra: exponents are unbounded integers, so the 64-bit `Long` width of the exponent maps is not modelled.
- UnitsAlgebra: the legacy `org/joshsim/engine/value/Units.java` is not part of this model.
- ConfigParsing: the engine value factory's `parseNumber` is taken as given, including its `NumberFormatException` catch. The model records the number text and units as a value, not a `BigDecimal`.
- ConfigParsing: the static, cached `Units.of` that `parseValueWithUnits` calls is taken as its cache-free result `OfDescription`. The cache returns exactly that while every entry is valid (`UnitsCaching.StoreCorrectedValid`). After a misfiling of the kind in Findings, for example a lookup of "%*/*m", the value "5 % * / * m" would get the units {%, /, m} instead.
- ConfigParsing: a pending name, or `name =` with nothing after it, is dropped silently at end of input. This follows the code.
- DependencyGraphs: the deduplication key writes a missing condition as the text "null", so it collides with a literal "null" condition. This follows the code.
- EntityBuilders: the `Agent`, `Patch`, `Simulation`, `Disturbance`, `ExternalResource` and `Reference` constructors are reduced to one built-entity record. Their geometry and keys are not modelled.
- DirectLockEntities: `lock`/`unlock` (concurrency) are treated as no-ops. `getKey`, geometry and `getName` of the underlying entity kind are not modelled. `FrozenEntity` is modelled as its attribute map, with each value's `freeze()` taken as the value itself.
- JoshFunctions: the ANTLR visitors that assemble closures are not modelled beyond building the event key and running a full body. A statement's effect on the machine is a parameter.
- TemplateRenderers: the constructor's null-job check is not modelled, because the job is given as its map of logical files and cannot be null.
- TemplateRenderers: custom-parameter substitution is not modelled. The renderer in the source does not do it, although its tests expect it; the model follows the code.
- JobVariations: the constructor's null-builder check is not modelled, because the template builder is a value and cannot be null.
- JobVariations: the combination count is an unbounded integer, so `long` overflow before the check against 1000 is not modelled.
- JobVariations: the visitor class lists the keys of its file-specification map in insertion order, in place of the `HashMap` keySet order the source iterates. So `VisitJobVariation` returns the combinations in an order the source does not promise. `Combinations` and its lemmas (`CombinationsCount`, `CombinationAt`, `CombinationsCarryOver`, `CombinationsDistinct`) hold for any order that satisfies `KeyOrder`, that is, any listing of the keys once each.
- JobVariations: the shared result list of `generateCombinationsRecursive` is modelled as returned sequences.
- JobVariations.CombinationsDistinct: distinctness is proved only for path lists without repeated paths. With a repeated path, the source produces repeated combinations too.
- JobVariations: JoshJobBuilder is modelled as a record of its replicates, custom parameters and file paths. JoshJob and JoshJobFileInfo are not part of this model.
- Progress: the percentage is a real number rather than a `double`, and step and replicate counts are unbounded rather than `long`.
- Progress: the " - Replicate n completed" suffix of `formatProgressMessage` is not modelled, because its only caller passes `isReplicateComplete` as false.
- GridCombiners: grid storage is modelled as a map from a cell (x, y, timestep) to a value. The BigDecimal/double conversions are taken as the identity.
- GridCombiners: the geometry factory and GeoKey handling are not modelled. DoublePrecomputedGrid.java is not part of this model; a grid is modelled by its extents, timesteps, units and cell values.
- EngineBridges: `getExternal`, `getPatch`, `getCurrentPatches`, `getPriorPatches`, `convert`, replicate creation and the geometry factory are not modelled. The replicate's `saveTimeStep` is modelled as the log of saved timesteps.
- EngineBridges: the constructors read steps.low and steps.high between `simulation.startSubstep("constant")` and `endSubstep()`. That bracketing is not modelled, and neither is the IllegalStateException `startSubstep` throws when a substep is already active.
- EngineBridges: step bounds are taken as integer counts, so the `greaterThan` comparison on engine values is an integer comparison.
- EngineValueTuples: a value is reduced to its language type, its units and a tag for its payload. A LanguageType is reduced to its name and root type, and LanguageType.java is not part of this model. Identity hash codes are parameters.
- EngineValueTuples: `Of` builds the units pair through the units-keyed cache (`UnitsTupleFromCacheCorrected`), not the identity-hash cache. By CacheCorrectWhenHashInjective it returns what Java returns whenever the identity hashes of the requested units and of the units already cached do not collide.
- EngineValueTuples: `TYPES_TUPLE_CACHE` (EngineValueTuple.java:74-77, 100-104) is not modelled. It is keyed by identity hashes in the same way and is open to the same collision.
- RealizedDistributions: the statistics (mean, std, min, max, sum), arithmetic, `sample` and `sampleWithReplacement` are not modelled, because they are double arithmetic or random. The messages of `List.subList` follow the JDK's wording.
- EventHandlerMachines: EngineValue arithmetic, comparisons other than those of `bound`, logical operations, `concat`, `slice` contents and the map strategies are parameters. The model does not compute them.
- EventHandlerMachines: a conversion through the bridge always succeeds in the model (`Converter` is a total function). MinimalEngineBridge.convert looks up a declared conversion and evaluates it, and either step can throw, for example for units without a declared conversion. That exception path of `pop` in a conversion group, and of `cast` and `bound`, is not modelled. So `PopOpCases`, `PopManyWithTarget` and `FirstPopFixesTarget` state that a pop from a non-empty stack always succeeds.
- EventHandlerMachines.Bounded: comparisons are of scalar magnitudes already in shared units; `EngineValue.lessThan`/`greaterThan` with their `makeCompatible` step and distribution operands are not modelled. The grouped pops of `bound` have already converted every operand to the target's units.
- EventHandlerMachines: units are strings, because `Units.equals` compares canonical strings. Conversion is a parameter.
- EventHandlerMachines: `condition`, `branch`, `sample`, `createEntity`, spatial queries, `random*`, the math and aggregate functions, `makePosition`, `saveLocalVariable`, `pushExternal` and `getStepCount` are not modelled.
- EventHandlerMachines: an exception is modelled as a returned error together with the fields at the point it was thrown. After an operand shortage the group stays open (TooFewLeavesGroupOpen), as in the source.
- Concurrency, network and remote execution, CLI, export plumbing, raster and CRS code are outside the modelled core.

## Findings

| source | as written | input that shows it | evidently intended | confidence | as-written member | corrected member |
|---|---|---|---|---|---|---|
| src/main/java/org/joshsim/engine/value/converter/Units.java:79-87 | on a miss, `of` caches the result under its canonical string as well, even when that string parses to different units | `Units.of("%*/*m")`: "/" is a unit name here (no " / "), so the canonical "% * / * m" is filed with units {%: 1, /: 1, m: 1}, although `of("% * / * m")` on its own is percent per metre | a cached key always maps to what parsing and simplifying it gives | medium — needs a unit name containing "/"; not executed | UnitsCaching.UnitsCache.OfAsWritten, UnitsCaching.PercentPerMetreMisfiled | UnitsCaching.UnitsCache.Of, UnitsCaching.StoreCorrectedValid |
| src/main/java/org/joshsim/engine/entity/base/EntityBuilder.java:132-139 | `addEventHandlerGroup` clears the handler caches but keeps `attributeNameToIndex` and `indexToAttributeName` | build once, add a group writing a new attribute, build again: the new attribute has no index | adding a group also invalidates the index caches, as `addAttribute` does | medium — needs a build before the group is added; not executed | EntityBuilders.EntityBuilder.AddEventHandlerGroup, EntityBuilders.StaleIndexMap | EntityBuilders.EntityBuilder.AddEventHandlerGroupCorrected |
| src/main/java/org/joshsim/engine/value/engine/EngineValueTuple.java:86-119 | the units-tuple cache is keyed only by the two identity hash codes | two distinct units objects with the same identity hash: after (meters, seconds) is cached, a request for (seconds, seconds) returns (meters, seconds) | the cache returns the tuple of the units requested | low — needs an identity-hash collision; not executed | EngineValueTuples.UnitsTupleFromCache, EngineValueTuples.IdentityHashCollision | EngineValueTuples.UnitsTupleFromCacheCorrected |

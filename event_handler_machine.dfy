/**
 * SingleThreadEventHandlerMachine: the push-down automaton that runs compiled event handlers. Its
 * memory is a stack of values; operations pop their operands and push one result. Inside a
 * conversion group the first value popped fixes the units every later pop is converted to.
 */
module EventHandlerMachines {
  import opened Wrappers

  /**
   * Units as the machine sees them: Units.equals compares the units' strings, so two units are
   * the same to the machine exactly when their descriptions are (UnitsAlgebra.ToString).
   */
  type UnitsName = string

  /** An engine value reduced to a magnitude and its units. */
  datatype Value = Value(magnitude: real, units: UnitsName)

  /** The bridge's unit conversion, which the machine calls but does not define. */
  type Converter = (Value, UnitsName) -> Value

  const EMPTY_STACK := Error(EmptyStack, "")
  const ALREADY_IN_GROUP := Error(IllegalState, "Already in conversion group.")
  const NOT_IN_GROUP := Error(IllegalState, "Not in conversion group.")
  const ALREADY_ENDED := Error(IllegalState, "Machine already ended.")
  const NO_RESULT := Error(IllegalState, "No result available or the machine has ended.")
  const NOT_ENDED := Error(IllegalState, "Machine has not ended yet.")
  const MAP_STRATEGIES: set<string> := {"linear", "quadratic", "sigmoid"}

  /** The fields of the machine: the stack (top last), the conversion group and the end flag. */
  datatype MachineState = MachineState(
    memory: seq<Value>,
    inConversionGroup: bool,
    conversionTarget: Option<UnitsName>,
    isEnded: bool)

  /** What an operation leaves behind: the exception it threw, if any, and the fields at that point. */
  datatype Step = Step(error: Option<Error>, state: MachineState)

  /** What a pop leaves behind. */
  datatype Popped = Popped(value: Result<Value>, state: MachineState)

  /** What several pops leave behind: the values in the order they were popped. */
  datatype PoppedMany = PoppedMany(values: Result<seq<Value>>, state: MachineState)

  // ---------------------------------------------------------------------------
  // Primitive operations
  // ---------------------------------------------------------------------------

  /** convert: a value already in the end units is kept; any other goes through the bridge. */
  function Convert(v: Value, endUnits: UnitsName, bridge: Converter): Value
  {
    if v.units == endUnits then v else bridge(v, endUnits)
  }

  function PushOp(s: MachineState, v: Value): MachineState
  {
    s.(memory := s.memory + [v])
  }

  /**
   * pop: Stack.pop fails on an empty stack; outside a group the top is returned as it is; in a
   * group without a target the top's units become the target; otherwise the top is converted.
   */
  function PopOp(s: MachineState, bridge: Converter): Popped
  {
    if |s.memory| == 0 then Popped(Failure(EMPTY_STACK), s)
    else
      var top := s.memory[|s.memory| - 1];
      var rest := s.(memory := s.memory[..|s.memory| - 1]);
      if !s.inConversionGroup then Popped(Success(top), rest)
      else if s.conversionTarget.None? then Popped(Success(top), rest.(conversionTarget := Some(top.units)))
      else Popped(Success(Convert(top, s.conversionTarget.value, bridge)), rest)
  }

  /** startConversionGroup: IllegalStateException inside a group; otherwise opens one without a target. */
  function StartGroupOp(s: MachineState): Step
  {
    if s.inConversionGroup then Step(Some(ALREADY_IN_GROUP), s)
    else Step(None, s.(inConversionGroup := true, conversionTarget := None))
  }

  /** endConversionGroup: IllegalStateException outside a group; otherwise closes it, keeping the target. */
  function EndGroupOp(s: MachineState): Step
  {
    if !s.inConversionGroup then Step(Some(NOT_IN_GROUP), s)
    else Step(None, s.(inConversionGroup := false))
  }

  /** n pops in a row, stopping at the first that fails. */
  function PopMany(s: MachineState, bridge: Converter, n: nat): (r: PoppedMany)
    ensures r.values.Success? ==> |r.values.value| == n
    decreases n
  {
    if n == 0 then PoppedMany(Success([]), s)
    else
      var first := PopOp(s, bridge);
      if first.value.Failure? then PoppedMany(Failure(first.value.error), first.state)
      else
        var rest := PopMany(first.state, bridge, n - 1);
        if rest.values.Failure? then rest
        else PoppedMany(Success([first.value.value] + rest.values.value), rest.state)
  }

  /** The operand popping of the grouped operations: open a group, pop n values, close the group. */
  function GroupedPops(s: MachineState, bridge: Converter, n: nat): (r: PoppedMany)
    ensures r.values.Success? ==> |r.values.value| == n && !r.state.inConversionGroup
  {
    var started := StartGroupOp(s);
    if started.error.Some? then PoppedMany(Failure(started.error.value), started.state)
    else
      var popped := PopMany(started.state, bridge, n);
      if popped.values.Failure? then popped
      else
        PopManyKeepsGroup(started.state, bridge, n);
        var ended := EndGroupOp(popped.state);
        PoppedMany(popped.values, ended.state)
  }

  lemma {:induction false} PopManyKeepsGroup(s: MachineState, bridge: Converter, n: nat)
    ensures PopMany(s, bridge, n).state.inConversionGroup == s.inConversionGroup
    ensures PopMany(s, bridge, n).state.isEnded == s.isEnded
    decreases n
  {
    if n > 0 && |s.memory| > 0 {
      PopManyKeepsGroup(PopOp(s, bridge).state, bridge, n - 1);
    }
  }

  // ---------------------------------------------------------------------------
  // Properties of popping
  // ---------------------------------------------------------------------------

  /** A bridge whose conversions always land in the requested units. */
  ghost predicate LandsIn(bridge: Converter, target: UnitsName)
  {
    forall v: Value :: bridge(v, target).units == target
  }

  /** With such a bridge, convert always yields the end units, and converting again changes nothing. */
  lemma ConvertLands(v: Value, target: UnitsName, bridge: Converter)
    requires LandsIn(bridge, target)
    ensures Convert(v, target, bridge).units == target
    ensures Convert(Convert(v, target, bridge), target, bridge) == Convert(v, target, bridge)
  {
  }

  /** Opening and closing a group leaves the stack and the end flag alone and forgets the old target. */
  lemma GroupRoundTrip(s: MachineState)
    requires !s.inConversionGroup
    ensures StartGroupOp(s).error.None? && EndGroupOp(StartGroupOp(s).state).error.None?
    ensures EndGroupOp(StartGroupOp(s).state).state == s.(conversionTarget := None)
    ensures StartGroupOp(StartGroupOp(s).state).error == Some(ALREADY_IN_GROUP)
    ensures EndGroupOp(s).error == Some(NOT_IN_GROUP)
  {
  }

  /**
   * pop: Stack.pop fails on an empty stack; outside a group the top is returned as it is; in a
   * group without a target the top's units become the target; otherwise the top is converted.
   */
  lemma PopOpCases(s: MachineState, bridge: Converter)
    ensures var p := PopOp(s, bridge);
      (|s.memory| == 0 ==> p == Popped(Failure(EMPTY_STACK), s)) &&
      (|s.memory| > 0 ==> (
        var top := s.memory[|s.memory| - 1];
        p.value.Success? &&
        p.state.memory == s.memory[..|s.memory| - 1] && p.state.memory + [top] == s.memory &&
        p.state.inConversionGroup == s.inConversionGroup && p.state.isEnded == s.isEnded &&
        (!s.inConversionGroup ==> p.value.value == top && p.state.conversionTarget == s.conversionTarget) &&
        (s.inConversionGroup && s.conversionTarget.None? ==>
          p.value.value == top && p.state.conversionTarget == Some(top.units)) &&
        (s.inConversionGroup && s.conversionTarget.Some? ==>
          p.value.value == Convert(top, s.conversionTarget.value, bridge) &&
          p.state.conversionTarget == s.conversionTarget)))
  {
    if |s.memory| > 0 {
      assert s.memory[..|s.memory| - 1] + [s.memory[|s.memory| - 1]] == s.memory;
    }
  }

  /** The top n values of a stack, top first, each converted to the target units. */
  function ConvertedTop(memory: seq<Value>, n: nat, target: UnitsName, bridge: Converter): (r: seq<Value>)
    requires n <= |memory|
    ensures |r| == n
  {
    seq(n, i requires 0 <= i < n => Convert(memory[|memory| - 1 - i], target, bridge))
  }

  /**
   * Inside a group with a target, n pops take the top n values, top first, each converted to the
   * target, and leave the rest of the stack.
   */
  lemma {:induction false} PopManyWithTarget(s: MachineState, bridge: Converter, n: nat)
    requires s.inConversionGroup && s.conversionTarget.Some? && n <= |s.memory|
    ensures PopMany(s, bridge, n) ==
      PoppedMany(Success(ConvertedTop(s.memory, n, s.conversionTarget.value, bridge)), s.(memory := s.memory[..|s.memory| - n]))
    decreases n
  {
    if n > 0 {
      var t := s.conversionTarget.value;
      var m := s.memory[..|s.memory| - 1];
      var head := Convert(s.memory[|s.memory| - 1], t, bridge);
      assert PopOp(s, bridge) == Popped(Success(head), s.(memory := m));
      PopManyWithTarget(s.(memory := m), bridge, n - 1);
      assert m[..|m| - (n - 1)] == s.memory[..|s.memory| - n];
      ConvertedTopStep(s.memory, n, t, bridge);
      PopManyCons(s, bridge, n, head, ConvertedTop(m, n - 1, t, bridge), s.(memory := m), s.(memory := s.memory[..|s.memory| - n]));
    }
  }

  /** A successful pop followed by n - 1 successful pops is n successful pops. */
  lemma PopManyCons(s: MachineState, bridge: Converter, n: nat, head: Value, tail: seq<Value>,
                    mid: MachineState, after: MachineState)
    requires n > 0
    requires PopOp(s, bridge) == Popped(Success(head), mid)
    requires PopMany(mid, bridge, n - 1) == PoppedMany(Success(tail), after)
    ensures PopMany(s, bridge, n) == PoppedMany(Success([head] + tail), after)
  {
  }

  lemma ConvertedTopStep(memory: seq<Value>, n: nat, target: UnitsName, bridge: Converter)
    requires 0 < n <= |memory|
    ensures ConvertedTop(memory, n, target, bridge) ==
      [Convert(memory[|memory| - 1], target, bridge)] + ConvertedTop(memory[..|memory| - 1], n - 1, target, bridge)
  {
    var m := memory[..|memory| - 1];
    var lhs := ConvertedTop(memory, n, target, bridge);
    var rhs := [Convert(memory[|memory| - 1], target, bridge)] + ConvertedTop(m, n - 1, target, bridge);
    forall i | 1 <= i < n ensures lhs[i] == rhs[i] {
      assert m[|m| - 1 - (i - 1)] == memory[|memory| - 1 - i];
    }
  }

  /**
   * A group's first pop fixes the target: opening a group and popping n >= 1 values returns the top
   * as it is and the others converted to its units, and leaves the top's units as the target.
   */
  lemma FirstPopFixesTarget(s: MachineState, bridge: Converter, n: nat)
    requires !s.inConversionGroup && 1 <= n <= |s.memory|
    ensures var top := s.memory[|s.memory| - 1];
      GroupedPops(s, bridge, n) ==
        PoppedMany(Success([top] + ConvertedTop(s.memory[..|s.memory| - 1], n - 1, top.units, bridge)),
          MachineState(s.memory[..|s.memory| - n], false, Some(top.units), s.isEnded))
  {
    var top := s.memory[|s.memory| - 1];
    var started := StartGroupOp(s).state;
    var m := s.memory[..|s.memory| - 1];
    var first := PopOp(started, bridge);
    assert first == Popped(Success(top), started.(memory := m, conversionTarget := Some(top.units)));
    PopManyWithTarget(first.state, bridge, n - 1);
    assert m[..|m| - (n - 1)] == s.memory[..|s.memory| - n];
  }

  /**
   * The point of a conversion group: with a bridge that lands in the requested units, every value
   * a grouped run of pops returns has the units of the first one popped.
   */
  lemma GroupedPopsShareUnits(s: MachineState, bridge: Converter, n: nat)
    requires !s.inConversionGroup && 1 <= n <= |s.memory|
    requires LandsIn(bridge, s.memory[|s.memory| - 1].units)
    ensures var r := GroupedPops(s, bridge, n);
      r.values.Success? &&
      forall i :: 0 <= i < n ==> r.values.value[i].units == s.memory[|s.memory| - 1].units
  {
    var top := s.memory[|s.memory| - 1];
    FirstPopFixesTarget(s, bridge, n);
    var vs := GroupedPops(s, bridge, n).values.value;
    forall i | 1 <= i < n ensures vs[i].units == top.units {
      ConvertLands(s.memory[..|s.memory| - 1][|s.memory| - 2 - (i - 1)], top.units, bridge);
    }
  }

  /** Popping from a stack with fewer values than needed fails with the group still open. */
  lemma {:induction false} PopManyTooFew(s: MachineState, bridge: Converter, n: nat)
    requires |s.memory| < n
    ensures var r := PopMany(s, bridge, n);
      r.values == Failure(EMPTY_STACK) && r.state.memory == [] &&
      r.state.inConversionGroup == s.inConversionGroup
    decreases n
  {
    if |s.memory| > 0 {
      PopManyTooFew(PopOp(s, bridge).state, bridge, n - 1);
    }
  }

  /** A grouped run of pops that succeeds ends with the group closed and the pops' values. */
  lemma GroupedPopsOf(s: MachineState, bridge: Converter, n: nat, values: seq<Value>, after: MachineState)
    requires !s.inConversionGroup
    requires PopMany(StartGroupOp(s).state, bridge, n) == PoppedMany(Success(values), after)
    ensures GroupedPops(s, bridge, n) == PoppedMany(Success(values), after.(inConversionGroup := false))
  {
    PopManyKeepsGroup(StartGroupOp(s).state, bridge, n);
  }

  /** A grouped operation started inside a group fails at once and changes nothing. */
  lemma NestedGroupFails(s: MachineState, bridge: Converter, n: nat)
    requires s.inConversionGroup
    ensures GroupedPops(s, bridge, n) == PoppedMany(Failure(ALREADY_IN_GROUP), s)
  {
  }

  /**
   * A grouped operation short of operands fails on the empty stack and leaves the group open, so
   * the next grouped operation on the same machine fails as nested.
   */
  lemma TooFewLeavesGroupOpen(s: MachineState, bridge: Converter, n: nat)
    requires !s.inConversionGroup && |s.memory| < n
    ensures GroupedPops(s, bridge, n).values == Failure(EMPTY_STACK)
    ensures GroupedPops(s, bridge, n).state.inConversionGroup
  {
    PopManyTooFew(StartGroupOp(s).state, bridge, n);
  }

  // ---------------------------------------------------------------------------
  // Operations
  // ---------------------------------------------------------------------------

  /**
   * add, subtract, concat, and, or, xor and the comparisons: right is popped first, then left,
   * in a conversion group; combine stands for the EngineValue method that makes the result.
   */
  function GroupedBinaryOp(s: MachineState, bridge: Converter, combine: (Value, Value) -> Value): Step
  {
    var popped := GroupedPops(s, bridge, 2);
    if popped.values.Failure? then Step(Some(popped.values.error), popped.state)
    else
      var right := popped.values.value[0];
      var left := popped.values.value[1];
      Step(None, PushOp(popped.state, combine(left, right)))
  }

  /** On a stack ending in left, right, a grouped operation replaces both by left converted to right's units, combined with right. */
  lemma GroupedBinaryOnTwo(s: MachineState, bridge: Converter, combine: (Value, Value) -> Value,
                           rest: seq<Value>, left: Value, right: Value)
    requires !s.inConversionGroup && s.memory == rest + [left, right]
    ensures GroupedBinaryOp(s, bridge, combine) ==
      Step(None, MachineState(rest + [combine(Convert(left, right.units, bridge), right)], false, Some(right.units), s.isEnded))
  {
    FirstPopFixesTarget(s, bridge, 2);
    assert s.memory[..|s.memory| - 2] == rest;
    assert s.memory[|s.memory| - 1 - 1] == left;
  }

  /** multiply, divide, pow and slice: right, then left, popped without a conversion group. */
  function BinaryOp(s: MachineState, bridge: Converter, combine: (Value, Value) -> Value): Step
  {
    var popped := PopMany(s, bridge, 2);
    if popped.values.Failure? then Step(Some(popped.values.error), popped.state)
    else
      var right := popped.values.value[0];
      var left := popped.values.value[1];
      Step(None, PushOp(popped.state, combine(left, right)))
  }

  /** Outside a group, an ungrouped operation combines the top two values without converting them. */
  lemma BinaryOnTwo(s: MachineState, bridge: Converter, combine: (Value, Value) -> Value,
                    rest: seq<Value>, left: Value, right: Value)
    requires !s.inConversionGroup && s.memory == rest + [left, right]
    ensures BinaryOp(s, bridge, combine) == Step(None, s.(memory := rest + [combine(left, right)]))
  {
    var first := PopOp(s, bridge);
    assert first.state.memory == rest + [left];
    assert PopOp(first.state, bridge).state.memory == rest;
  }

  /** The six operands of applyMap. */
  datatype MapOperands = MapOperands(operand: Value, fromLow: Value, fromHigh: Value, toLow: Value, toHigh: Value, param: Value)

  /**
   * applyMap: pops param, toHigh, toLow, fromHigh, fromLow and operand in a conversion group,
   * then rejects an unknown strategy (IllegalArgumentException, after the pops) or pushes what the
   * strategy makes of them.
   */
  function ApplyMapOp(s: MachineState, bridge: Converter, strategyName: string,
                      strategy: (string, MapOperands) -> Value): Step
  {
    var popped := GroupedPops(s, bridge, 6);
    if popped.values.Failure? then Step(Some(popped.values.error), popped.state)
    else
      var v := popped.values.value;
      var operands := MapOperands(v[5], v[4], v[3], v[2], v[1], v[0]);
      if strategyName !in MAP_STRATEGIES then Step(Some(Error(IllegalArgument, "Unknown mapping: " + strategyName)), popped.state)
      else Step(None, PushOp(popped.state, strategy(strategyName, operands)))
  }

  /** applyMap on a stack ending in operand, fromLow, fromHigh, toLow, toHigh, param. */
  lemma ApplyMapOperands(s: MachineState, bridge: Converter, strategyName: string,
                         strategy: (string, MapOperands) -> Value, rest: seq<Value>, m: MapOperands)
    requires !s.inConversionGroup
    requires s.memory == rest + [m.operand, m.fromLow, m.fromHigh, m.toLow, m.toHigh, m.param]
    ensures var u := m.param.units;
      var converted := MapOperands(Convert(m.operand, u, bridge), Convert(m.fromLow, u, bridge), Convert(m.fromHigh, u, bridge),
        Convert(m.toLow, u, bridge), Convert(m.toHigh, u, bridge), m.param);
      var after := MachineState(rest, false, Some(u), s.isEnded);
      ApplyMapOp(s, bridge, strategyName, strategy) ==
        if strategyName in MAP_STRATEGIES then Step(None, PushOp(after, strategy(strategyName, converted)))
        else Step(Some(Error(IllegalArgument, "Unknown mapping: " + strategyName)), after)
  {
    FirstPopFixesTarget(s, bridge, 6);
    var n := |s.memory|;
    assert s.memory[..n - 6] == rest;
    assert s.memory[n - 1 - 1] == m.toHigh && s.memory[n - 1 - 2] == m.toLow && s.memory[n - 1 - 3] == m.fromHigh;
    assert s.memory[n - 1 - 4] == m.fromLow && s.memory[n - 1 - 5] == m.operand;
  }

  /** The value bound pushes: lower if below it, else upper if above it, else the target. */
  function Bounded(target: Value, lower: Option<Value>, upper: Option<Value>): Value
  {
    if lower.Some? && target.magnitude < lower.value.magnitude then lower.value
    else if upper.Some? && target.magnitude > upper.value.magnitude then upper.value
    else target
  }

  /** With lower <= upper, the bounded value lies between them and is the target when it already did. */
  lemma BoundedClamps(target: Value, lower: Value, upper: Value)
    requires lower.magnitude <= upper.magnitude
    ensures var r := Bounded(target, Some(lower), Some(upper));
      lower.magnitude <= r.magnitude <= upper.magnitude &&
      (lower.magnitude <= target.magnitude <= upper.magnitude ==> r == target)
  {
  }

  /** Clamping twice is clamping once. */
  lemma BoundedIdempotent(target: Value, lower: Option<Value>, upper: Option<Value>)
    requires lower.Some? && upper.Some? ==> lower.value.magnitude <= upper.value.magnitude
    ensures Bounded(Bounded(target, lower, upper), lower, upper) == Bounded(target, lower, upper)
  {
  }

  function BoundArity(hasLower: bool, hasUpper: bool): nat
  {
    (if hasLower then 1 else 0) + (if hasUpper then 1 else 0) + 1
  }

  /** bound: pops upper (if any), then lower (if any), then the target, in a conversion group. */
  function BoundOp(s: MachineState, bridge: Converter, hasLower: bool, hasUpper: bool): Step
  {
    var popped := GroupedPops(s, bridge, BoundArity(hasLower, hasUpper));
    if popped.values.Failure? then Step(Some(popped.values.error), popped.state)
    else
      var v := popped.values.value;
      var upper := if hasUpper then Some(v[0]) else None;
      var lower := if hasLower then Some(v[if hasUpper then 1 else 0]) else None;
      var target := v[|v| - 1];
      Step(None, PushOp(popped.state, Bounded(target, lower, upper)))
  }

  /** bound with both limits on a stack ending in target, lower, upper: limits converted to the upper's units. */
  lemma BoundBoth(s: MachineState, bridge: Converter, rest: seq<Value>, target: Value, lower: Value, upper: Value)
    requires !s.inConversionGroup && s.memory == rest + [target, lower, upper]
    ensures var u := upper.units;
      BoundOp(s, bridge, true, true) ==
        Step(None, MachineState(rest + [Bounded(Convert(target, u, bridge), Some(Convert(lower, u, bridge)), Some(upper))],
          false, Some(u), s.isEnded))
  {
    FirstPopFixesTarget(s, bridge, 3);
    var n := |s.memory|;
    assert s.memory[..n - 3] == rest;
    assert s.memory[n - 1 - 1] == lower && s.memory[n - 1 - 2] == target;
  }

  /** cast: forced, the top keeps its magnitude under the new units; otherwise it is converted. */
  function CastOp(s: MachineState, bridge: Converter, newUnits: UnitsName, force: bool): Step
  {
    var popped := PopOp(s, bridge);
    if popped.value.Failure? then Step(Some(popped.value.error), popped.state)
    else
      var subject := popped.value.value;
      if force then Step(None, PushOp(popped.state, Value(subject.magnitude, newUnits)))
      else if subject.units == newUnits then Step(None, PushOp(popped.state, subject))
      else Step(None, PushOp(popped.state, Convert(subject, newUnits, bridge)))
  }

  /** A cast to the units the top already has leaves the stack as it was. */
  lemma CastToSameUnits(s: MachineState, bridge: Converter, newUnits: UnitsName, force: bool)
    requires !s.inConversionGroup && |s.memory| > 0
    requires s.memory[|s.memory| - 1].units == newUnits
    ensures CastOp(s, bridge, newUnits, force) == Step(None, s)
  {
    assert s.memory[..|s.memory| - 1] + [s.memory[|s.memory| - 1]] == s.memory;
  }

  /** end: IllegalStateException the second time. */
  function EndOp(s: MachineState): (r: Step)
    ensures s.isEnded ==> r == Step(Some(ALREADY_ENDED), s)
    ensures !s.isEnded ==> r == Step(None, s.(isEnded := true))
  {
    if s.isEnded then Step(Some(ALREADY_ENDED), s) else Step(None, s.(isEnded := true))
  }

  /** getResult: the top of the stack, left in place, once the machine has ended. */
  function ResultOf(s: MachineState): (r: Result<Value>)
    ensures r.Success? <==> |s.memory| > 0 && s.isEnded
    ensures |s.memory| == 0 ==> r == Failure(NO_RESULT)
    ensures |s.memory| > 0 && !s.isEnded ==> r == Failure(NOT_ENDED)
    ensures r.Success? ==> r.value == s.memory[|s.memory| - 1]
  {
    if |s.memory| == 0 then Failure(NO_RESULT)
    else if !s.isEnded then Failure(NOT_ENDED)
    else Success(s.memory[|s.memory| - 1])
  }

  /** A handler that pushes a value and ends has that value as its result. */
  lemma PushThenEndGivesResult(s: MachineState, v: Value)
    requires !s.isEnded
    ensures ResultOf(EndOp(PushOp(s, v)).state) == Success(v)
    ensures EndOp(EndOp(PushOp(s, v)).state).error == Some(ALREADY_ENDED)
  {
  }

  // ---------------------------------------------------------------------------
  // The machine
  // ---------------------------------------------------------------------------

  class EventHandlerMachine {
    const bridge: Converter
    var memory: seq<Value>
    var inConversionGroup: bool
    var conversionTarget: Option<UnitsName>
    var isEnded: bool

    function State(): MachineState
      reads this
    {
      MachineState(memory, inConversionGroup, conversionTarget, isEnded)
    }

    constructor(bridge: Converter)
      ensures this.bridge == bridge
      ensures State() == MachineState([], false, None, false)
    {
      this.bridge := bridge;
      memory := [];
      inConversionGroup := false;
      conversionTarget := None;
      isEnded := false;
    }

    /** push(EngineValue). */
    method Push(value: Value)
      modifies this
      ensures State() == PushOp(old(State()), value)
    {
      memory := memory + [value];
    }

    /** push(ValueResolver): IllegalStateException when the resolver finds no value. */
    method PushResolved(resolved: Option<Value>, resolverName: string) returns (err: Option<Error>)
      modifies this
      ensures resolved.None? ==> err == Some(Error(IllegalState, "Unable to get value for " + resolverName)) && State() == old(State())
      ensures resolved.Some? ==> err.None? && State() == PushOp(old(State()), resolved.value)
    {
      if resolved.None? {
        return Some(Error(IllegalState, "Unable to get value for " + resolverName));
      }
      memory := memory + [resolved.value];
      return None;
    }

    /** pop. */
    method Pop() returns (r: Result<Value>)
      modifies this
      ensures Popped(r, State()) == PopOp(old(State()), bridge)
    {
      if |memory| == 0 {
        return Failure(EMPTY_STACK);
      }
      var valueUncast := memory[|memory| - 1];
      memory := memory[..|memory| - 1];
      if !inConversionGroup {
        return Success(valueUncast);
      }
      if conversionTarget.None? {
        conversionTarget := Some(valueUncast.units);
        return Success(valueUncast);
      }
      return Success(Convert(valueUncast, conversionTarget.value, bridge));
    }

    method StartConversionGroup() returns (err: Option<Error>)
      modifies this
      ensures Step(err, State()) == StartGroupOp(old(State()))
    {
      if inConversionGroup {
        return Some(ALREADY_IN_GROUP);
      }
      inConversionGroup := true;
      conversionTarget := None;
      return None;
    }

    method EndConversionGroup() returns (err: Option<Error>)
      modifies this
      ensures Step(err, State()) == EndGroupOp(old(State()))
    {
      if !inConversionGroup {
        return Some(NOT_IN_GROUP);
      }
      inConversionGroup := false;
      return None;
    }

    /** One more pop in a run of pops that started in state s0. */
    method PopNext(ghost s0: MachineState, ghost popped: seq<Value>) returns (r: Result<Value>)
      requires PopMany(s0, bridge, |popped|) == PoppedMany(Success(popped), State())
      modifies this
      ensures r.Success? ==> PopMany(s0, bridge, |popped| + 1) == PoppedMany(Success(popped + [r.value]), State())
      ensures r.Failure? ==> forall n: nat :: n > |popped| ==> PopMany(s0, bridge, n) == PoppedMany(Failure(r.error), State())
    {
      ghost var mid := State();
      r := Pop();
      if r.Success? {
        PopManyPrefixStep(s0, bridge, popped, mid, r.value, State());
      } else {
        forall n: nat | n > |popped|
          ensures PopMany(s0, bridge, n) == PoppedMany(Failure(r.error), State())
        {
          PopManyPrefixFails(s0, bridge, n, popped, mid, r.error);
        }
      }
    }

    /** The two pops of a binary operation: right first, then left. */
    method PopTwo() returns (r: Result<(Value, Value)>)
      modifies this
      ensures var p := PopMany(old(State()), bridge, 2);
        State() == p.state && (r.Success? <==> p.values.Success?) &&
        (r.Failure? ==> p.values == Failure(r.error)) &&
        (r.Success? ==> p.values.value == [r.value.0, r.value.1])
    {
      ghost var s0 := State();
      var right := PopNext(s0, []);
      if right.Failure? {
        return Failure(right.error);
      }
      assert [] + [right.value] == [right.value];
      var left := PopNext(s0, [right.value]);
      if left.Failure? {
        return Failure(left.error);
      }
      return Success((right.value, left.value));
    }

    /** add, subtract and the other grouped binary operations. */
    method GroupedBinary(combine: (Value, Value) -> Value) returns (err: Option<Error>)
      modifies this
      ensures Step(err, State()) == GroupedBinaryOp(old(State()), bridge, combine)
    {
      err := StartConversionGroup();
      if err.Some? {
        return;
      }
      ghost var s1 := State();
      var operands := PopTwo();
      if operands.Failure? {
        return Some(operands.error);
      }
      PopManyKeepsGroup(s1, bridge, 2);
      err := EndConversionGroup();
      var (right, left) := operands.value;
      Push(combine(left, right));
    }

    /** multiply, divide, pow and slice. */
    method Binary(combine: (Value, Value) -> Value) returns (err: Option<Error>)
      modifies this
      ensures Step(err, State()) == BinaryOp(old(State()), bridge, combine)
    {
      var operands := PopTwo();
      if operands.Failure? {
        return Some(operands.error);
      }
      var (right, left) := operands.value;
      Push(combine(left, right));
      return None;
    }

    /** Three more pops in a run of pops that started in state s0. */
    method PopThree(ghost s0: MachineState, ghost popped: seq<Value>) returns (r: Result<(Value, Value, Value)>)
      requires PopMany(s0, bridge, |popped|) == PoppedMany(Success(popped), State())
      modifies this
      ensures r.Success? ==>
        PopMany(s0, bridge, |popped| + 3) == PoppedMany(Success(popped + [r.value.0, r.value.1, r.value.2]), State())
      ensures r.Failure? ==> forall n: nat :: n >= |popped| + 3 ==> PopMany(s0, bridge, n) == PoppedMany(Failure(r.error), State())
    {
      var first := PopNext(s0, popped);
      if first.Failure? {
        return Failure(first.error);
      }
      var second := PopNext(s0, popped + [first.value]);
      if second.Failure? {
        return Failure(second.error);
      }
      var third := PopNext(s0, popped + [first.value] + [second.value]);
      if third.Failure? {
        return Failure(third.error);
      }
      assert popped + [first.value] + [second.value] + [third.value] == popped + [first.value, second.value, third.value];
      return Success((first.value, second.value, third.value));
    }

    /** The six pops of applyMap: param, toHigh, toLow, fromHigh, fromLow and operand. */
    method PopMapOperands() returns (r: Result<MapOperands>)
      modifies this
      ensures r.Failure? ==> PopMany(old(State()), bridge, 6) == PoppedMany(Failure(r.error), State())
      ensures r.Success? ==> PopMany(old(State()), bridge, 6) == PoppedMany(Success(
        [r.value.param, r.value.toHigh, r.value.toLow, r.value.fromHigh, r.value.fromLow, r.value.operand]), State())
    {
      ghost var s1 := State();
      var high := PopThree(s1, []);
      if high.Failure? {
        return Failure(high.error);
      }
      ghost var popped := [] + [high.value.0, high.value.1, high.value.2];
      var low := PopThree(s1, popped);
      if low.Failure? {
        return Failure(low.error);
      }
      var (param, toHigh, toLow) := high.value;
      var (fromHigh, fromLow, operand) := low.value;
      assert popped + [fromHigh, fromLow, operand] == [param, toHigh, toLow, fromHigh, fromLow, operand];
      return Success(MapOperands(operand, fromLow, fromHigh, toLow, toHigh, param));
    }

    /** applyMap, with the strategies' arithmetic given as a function of the strategy name and operands. */
    method ApplyMap(strategyName: string, strategy: (string, MapOperands) -> Value) returns (err: Option<Error>)
      modifies this
      ensures Step(err, State()) == ApplyMapOp(old(State()), bridge, strategyName, strategy)
    {
      err := StartConversionGroup();
      if err.Some? {
        return;
      }
      var operands := PopMapOperands();
      if operands.Failure? {
        return Some(operands.error);
      }
      var m := operands.value;
      GroupedPopsOf(old(State()), bridge, 6, [m.param, m.toHigh, m.toLow, m.fromHigh, m.fromLow, m.operand], State());
      err := EndConversionGroup();
      if strategyName !in MAP_STRATEGIES {
        return Some(Error(IllegalArgument, "Unknown mapping: " + strategyName));
      }
      Push(strategy(strategyName, m));
    }

    /** bound. */
    method Bound(hasLower: bool, hasUpper: bool) returns (err: Option<Error>)
      modifies this
      ensures Step(err, State()) == BoundOp(old(State()), bridge, hasLower, hasUpper)
    {
      err := StartConversionGroup();
      if err.Some? {
        return;
      }
      ghost var s1 := State();
      ghost var popped: seq<Value> := [];
      var upperBound: Option<Value> := None;
      if hasUpper {
        var p := PopNext(s1, popped);
        if p.Failure? {
          return Some(p.error);
        }
        upperBound := Some(p.value);
        popped := popped + [p.value];
      }
      var lowerBound: Option<Value> := None;
      if hasLower {
        var p := PopNext(s1, popped);
        if p.Failure? {
          return Some(p.error);
        }
        lowerBound := Some(p.value);
        popped := popped + [p.value];
      }
      var target := PopNext(s1, popped);
      if target.Failure? {
        return Some(target.error);
      }
      popped := popped + [target.value];
      PopManyKeepsGroup(s1, bridge, |popped|);
      err := EndConversionGroup();
      Push(Bounded(target.value, lowerBound, upperBound));
    }

    /** cast. */
    method Cast(newUnits: UnitsName, force: bool) returns (err: Option<Error>)
      modifies this
      ensures Step(err, State()) == CastOp(old(State()), bridge, newUnits, force)
    {
      var subject := Pop();
      if subject.Failure? {
        return Some(subject.error);
      }
      if force {
        Push(Value(subject.value.magnitude, newUnits));
      } else if subject.value.units == newUnits {
        Push(subject.value);
      } else {
        Push(Convert(subject.value, newUnits, bridge));
      }
      return None;
    }

    /** end. */
    method End() returns (err: Option<Error>)
      modifies this
      ensures Step(err, State()) == EndOp(old(State()))
    {
      if isEnded {
        return Some(ALREADY_ENDED);
      }
      isEnded := true;
      return None;
    }

    /** getResult. */
    function GetResult(): (r: Result<Value>)
      reads this
      ensures r == ResultOf(State())
    {
      if |memory| == 0 then Failure(NO_RESULT)
      else if !isEnded then Failure(NOT_ENDED)
      else Success(memory[|memory| - 1])
    }
  }

  /** Popping one more value extends a run of successful pops. */
  lemma {:induction false} PopManyPrefixStep(s: MachineState, bridge: Converter, prefix: seq<Value>,
                                             mid: MachineState, v: Value, after: MachineState)
    requires PopMany(s, bridge, |prefix|) == PoppedMany(Success(prefix), mid)
    requires PopOp(mid, bridge) == Popped(Success(v), after)
    ensures PopMany(s, bridge, |prefix| + 1) == PoppedMany(Success(prefix + [v]), after)
    decreases |prefix|
  {
    if |prefix| > 0 {
      var first := PopOp(s, bridge);
      var rest := PopMany(first.state, bridge, |prefix| - 1);
      assert first.value == Success(prefix[0]);
      assert rest == PoppedMany(Success(prefix[1..]), mid);
      PopManyPrefixStep(first.state, bridge, prefix[1..], mid, v, after);
      PopManyCons(s, bridge, |prefix| + 1, prefix[0], prefix[1..] + [v], first.state, after);
      assert [prefix[0]] + (prefix[1..] + [v]) == prefix + [v];
    } else {
      PopManyCons(s, bridge, 1, v, [], after, after);
      assert [v] + [] == prefix + [v];
    }
  }

  /** A failing pop after a run of successful ones makes the whole run fail at that point. */
  lemma {:induction false} PopManyPrefixFails(s: MachineState, bridge: Converter, n: nat, prefix: seq<Value>,
                                              mid: MachineState, e: Error)
    requires |prefix| < n
    requires PopMany(s, bridge, |prefix|) == PoppedMany(Success(prefix), mid)
    requires PopOp(mid, bridge).value == Failure(e)
    ensures PopMany(s, bridge, n) == PoppedMany(Failure(e), PopOp(mid, bridge).state)
    decreases |prefix|
  {
    if |prefix| > 0 {
      var first := PopOp(s, bridge);
      assert first.value == Success(prefix[0]);
      PopManyPrefixFails(first.state, bridge, n - 1, prefix[1..], mid, e);
    }
  }
}

/**
 * JoshFunctionVisitor: the naming of event handlers and the running of full-body handlers.
 * A handler named "a.b.step" writes attribute "a.b" on event "step"; a name whose last piece
 * is not an event name is a constant.
 */
module JoshFunctions {
  import opened Wrappers
  import opened Strings
  import opened EntityBuilders

  // ---------------------------------------------------------------------------
  // Event keys
  // ---------------------------------------------------------------------------

  const EVENT_NAMES: set<string> := {"init", "start", "step", "end", "remove", "constant"}

  /** isEventName. */
  predicate IsEventName(candidate: string)
  {
    candidate in EVENT_NAMES
  }

  /** Every substep the builder precomputes sets for is an event name; "remove" is the only other one. */
  lemma EventNamesAreSubstepsAndRemove()
    ensures EVENT_NAMES == (set s | s in SUBSTEPS) + {"remove"}
  {
    assert forall s :: s in SUBSTEPS <==> s == "init" || s == "step" || s == "start" || s == "end" || s == "constant";
  }

  /**
   * buildEventKey: splits the name at '.'; a final event name becomes the event and the pieces
   * before it the attribute, otherwise the event is "constant" and all pieces form the attribute.
   * A name made only of dots splits into nothing and fails at namePieces[length - 1].
   */
  function EventKeyOf(fullName: string): (r: Result<EventKey>)
    ensures r.Failure? <==> JavaSplit(fullName, ".") == []
    ensures r.Failure? ==> r.error.kind == IndexOutOfBounds
    ensures r.Success? ==> r.value.state == ""
  {
    var pieces := JavaSplit(fullName, ".");
    if |pieces| == 0 then Failure(Error(IndexOutOfBounds, "Index -1 out of bounds for length 0"))
    else
      var last := pieces[|pieces| - 1];
      if IsEventName(last) then Success(EventKey("", Join(pieces[..|pieces| - 1], "."), last))
      else Success(EventKey("", Join(pieces, "."), "constant"))
  }

  /**
   * A name ending in a '.' and a last piece: an event-name piece becomes the event and the text
   * before the '.' the attribute; any other piece makes the whole name a constant.
   */
  lemma EventKeyOfLastPiece(x: string, e: string)
    requires e != "" && '.' !in e
    ensures EventKeyOf(x + "." + e) ==
      if IsEventName(e) then Success(EventKey("", x, e)) else Success(EventKey("", x + "." + e, "constant"))
  {
    var s := x + "." + e;
    assert !EndsWith(s, ".") by { assert s[|s| - 1] == e[|e| - 1]; }
    JavaSplitWhole(s, ".");
    SplitAllAppend(x, '.', e);
    var pieces := SplitAll(x, ".") + [e];
    assert pieces[..|pieces| - 1] == SplitAll(x, ".");
    JoinSplitAll(x, ".");
  }

  /** A name with no '.' is an event with an empty attribute if it is an event name, else a constant. */
  lemma EventKeySinglePiece(fullName: string)
    requires '.' !in fullName
    ensures EventKeyOf(fullName) ==
      if IsEventName(fullName) then Success(EventKey("", "", fullName)) else Success(EventKey("", fullName, "constant"))
  {
    NotContainsWithout(fullName, ".", 0);
  }

  /** buildEventKey with its StringJoiner loop over all pieces but the last. */
  method BuildEventKey(fullName: string) returns (r: Result<EventKey>)
    ensures r == EventKeyOf(fullName)
  {
    var namePieces := JavaSplit(fullName, ".");
    if |namePieces| == 0 {
      return Failure(Error(IndexOutOfBounds, "Index -1 out of bounds for length 0"));
    }
    var candidateEventName := namePieces[|namePieces| - 1];
    var endsWithEventName := IsEventName(candidateEventName);
    var i := |namePieces| - 1;
    var joined := JoinFirst(namePieces, i);
    if endsWithEventName {
      r := Success(EventKey("", joined, candidateEventName));
    } else {
      JoinAdd(namePieces[..i], candidateEventName);
      assert namePieces[..i] + [candidateEventName] == namePieces;
      joined := if i == 0 then candidateEventName else joined + "." + candidateEventName;
      r := Success(EventKey("", joined, "constant"));
    }
  }

  /** The StringJoiner loop of buildEventKey over the first count pieces. */
  method JoinFirst(namePieces: seq<string>, count: nat) returns (joined: string)
    requires count <= |namePieces|
    ensures joined == Join(namePieces[..count], ".")
  {
    joined := "";
    var i := 0;
    while i < count
      invariant 0 <= i <= count
      invariant joined == Join(namePieces[..i], ".")
    {
      JoinAdd(namePieces[..i], namePieces[i]);
      assert namePieces[..i + 1] == namePieces[..i] + [namePieces[i]];
      joined := if i == 0 then namePieces[i] else joined + "." + namePieces[i];
      i := i + 1;
    }
  }

  /** StringJoiner.add: the first piece stands alone, later ones follow a delimiter. */
  lemma JoinAdd(p: seq<string>, x: string)
    ensures Join(p + [x], ".") == if |p| == 0 then x else Join(p, ".") + "." + x
  {
    if |p| > 0 {
      JoinSnoc(p, x, ".");
    } else {
      assert p + [x] == [x];
    }
  }

  // ---------------------------------------------------------------------------
  // Full-body handlers
  // ---------------------------------------------------------------------------

  /** The machine after the first k statements, without stopping. */
  function Applied<M>(actions: seq<M -> M>, m: M, k: nat): M
    requires k <= |actions|
  {
    if k == 0 then m else actions[k - 1](Applied(actions, m, k - 1))
  }

  /** The statements run in order, stopping right after the first one that ends the machine. */
  function RunStatements<M>(actions: seq<M -> M>, ended: M -> bool, m: M): M
    decreases |actions|
  {
    if |actions| == 0 then m
    else
      var next := actions[0](m);
      if ended(next) then next else RunStatements(actions[1..], ended, next)
  }

  /**
   * The number of statements run: 1 plus the position of the first statement after which the
   * machine is ended, or all of them.
   */
  function StatementsRun<M>(actions: seq<M -> M>, ended: M -> bool, m: M): (k: nat)
    ensures k <= |actions|
    decreases |actions|
  {
    if |actions| == 0 then 0
    else if ended(actions[0](m)) then 1
    else 1 + StatementsRun(actions[1..], ended, actions[0](m))
  }

  /** visitFullBody's action: the machine after the statements, or IllegalStateException if not ended. */
  function FullBody<M>(actions: seq<M -> M>, ended: M -> bool, m: M): (r: Result<M>)
    ensures r.Success? <==> ended(RunStatements(actions, ended, m))
    ensures r.Success? ==> r.value == RunStatements(actions, ended, m)
    ensures r.Failure? ==> r.error.kind == IllegalState
  {
    var result := RunStatements(actions, ended, m);
    if ended(result) then Success(result)
    else Failure(Error(IllegalState, "Event handler finished without returning a value."))
  }

  lemma {:induction false} AppliedShift<M>(actions: seq<M -> M>, m: M, k: nat)
    requires 0 < |actions| && k < |actions|
    ensures Applied(actions, m, k + 1) == Applied(actions[1..], actions[0](m), k)
    decreases k
  {
    if k > 0 {
      AppliedShift(actions, m, k - 1);
    }
  }

  /**
   * Running a body is applying its first StatementsRun statements; none before the last of them
   * ended the machine, and the last did unless the statements ran out.
   */
  lemma {:induction false} RunStatementsIsPrefix<M>(actions: seq<M -> M>, ended: M -> bool, m: M)
    ensures var k := StatementsRun(actions, ended, m);
      RunStatements(actions, ended, m) == Applied(actions, m, k) &&
      (forall j :: 1 <= j < k ==> !ended(Applied(actions, m, j))) &&
      (k < |actions| ==> ended(Applied(actions, m, k)))
    decreases |actions|
  {
    if |actions| > 0 {
      var next := actions[0](m);
      AppliedShift(actions, m, 0);
      if !ended(next) {
        var rest := actions[1..];
        RunStatementsIsPrefix(rest, ended, next);
        var k := StatementsRun(rest, ended, next);
        AppliedShift(actions, m, k);
        forall j | 1 <= j < k + 1 ensures !ended(Applied(actions, m, j)) {
          AppliedShift(actions, m, j - 1);
        }
      }
    }
  }

  /** A body fails exactly when no statement leaves the machine ended. */
  lemma FullBodyFailsIffNeverEnded<M>(actions: seq<M -> M>, ended: M -> bool, m: M)
    requires 0 < |actions| || !ended(m)
    ensures FullBody(actions, ended, m).Failure? <==> forall j :: 1 <= j <= |actions| ==> !ended(Applied(actions, m, j))
  {
    RunStatementsIsPrefix(actions, ended, m);
    var k := StatementsRun(actions, ended, m);
    if FullBody(actions, ended, m).Failure? {
      assert k == |actions| && !ended(Applied(actions, m, k));
    }
  }

  /** The loop of visitFullBody's action, with its break. */
  method RunFullBody<M>(actions: seq<M -> M>, ended: M -> bool, m: M) returns (r: Result<M>)
    ensures r == FullBody(actions, ended, m)
  {
    var machine := m;
    var i := 0;
    while i < |actions|
      invariant 0 <= i <= |actions|
      invariant RunStatements(actions[i..], ended, machine) == RunStatements(actions, ended, m)
    {
      assert actions[i..][1..] == actions[i + 1..];
      machine := actions[i](machine);
      if ended(machine) {
        assert machine == RunStatements(actions, ended, m);
        break;
      }
      i := i + 1;
    }
    if !ended(machine) {
      return Failure(Error(IllegalState, "Event handler finished without returning a value."));
    }
    r := Success(machine);
  }
}

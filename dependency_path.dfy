/**
 * DependencyPathParser: a path read by an attribute's expression ("age", "prior.age",
 * "here.Trees.age", "meta.isMastYear", "JoshuaTrees.isFlowering") resolved to the node of the
 * dependency graph it reads: entity, attribute and event, and the node id joining them.
 */
module DependencyPaths {
  import opened Wrappers
  import opened Strings

  /** How the path was resolved; Label is the string DependencyInfo carries. */
  datatype Resolution =
    | Simple
    | TemporalPrior
    | TemporalCurrent
    | SpatialPatch
    | SpatialCollection
    | SimulationLevel
    | ExplicitEntity
  {
    function Label(): string
    {
      match this
      case Simple => "simple"
      case TemporalPrior => "temporal-prior"
      case TemporalCurrent => "temporal-current"
      case SpatialPatch => "spatial-patch"
      case SpatialCollection => "spatial-collection"
      case SimulationLevel => "simulation"
      case ExplicitEntity => "explicit-entity"
    }
  }

  /** The resolved target; the human-readable description is not modelled. */
  datatype DependencyInfo = DependencyInfo(
    targetNodeId: string,
    targetEntity: string,
    targetAttribute: string,
    targetEvent: string,
    resolutionType: Resolution)

  /** Node ids are "entity.attribute.event". */
  function NodeId(entity: string, attribute: string, event: string): string
  {
    entity + "." + attribute + "." + event
  }

  function Target(entity: string, attribute: string, event: string, how: Resolution): DependencyInfo
  {
    DependencyInfo(NodeId(entity, attribute, event), entity, attribute, event, how)
  }

  /**
   * parse(path, currentEntity, currentEvent). The path is split at '.' as String.split does;
   * a path of dots only splits into nothing and parts[0] is out of bounds. The target event
   * is always the current event.
   */
  function Parse(path: string, currentEntity: string, currentEvent: string): (r: Result<DependencyInfo>)
    ensures r.Failure? <==> JavaSplit(path, ".") == []
    ensures r.Success? ==> r.value.targetEvent == currentEvent
    ensures r.Success? ==> r.value.targetNodeId == NodeId(r.value.targetEntity, r.value.targetAttribute, currentEvent)
    ensures r.Success? ==> r.value.targetAttribute in JavaSplit(path, ".")
  {
    var parts := JavaSplit(path, ".");
    if |parts| == 0 then Failure(Error(IndexOutOfBounds, "Index 0 out of bounds for length 0"))
    else if |parts| == 1 then Success(Target(currentEntity, parts[0], currentEvent, Simple))
    else
      var first := parts[0];
      if first == "prior" then Success(Target(currentEntity, parts[1], currentEvent, TemporalPrior))
      else if first == "current" then Success(Target(currentEntity, parts[1], currentEvent, TemporalCurrent))
      else if first == "here" then
        if |parts| == 2 then Success(Target("Patch", parts[1], currentEvent, SpatialPatch))
        else Success(Target(parts[1], parts[2], currentEvent, SpatialCollection))
      else if first == "meta" then Success(Target("Simulation", parts[1], currentEvent, SimulationLevel))
      else Success(Target(parts[0], parts[1], currentEvent, ExplicitEntity))
  }

  /** A name with no '.' in it. */
  predicate Segment(s: string)
  {
    s != "" && '.' !in s
  }

  /** Splitting "a.b" (or "a.b.c") at '.' gives back its segments. */
  lemma SplitSegments(parts: seq<string>)
    requires 0 < |parts| && forall j :: 0 <= j < |parts| ==> Segment(parts[j])
    ensures JavaSplit(Join(parts, "."), ".") == parts
  {
    JavaSplitJoin(parts, ".", 0);
  }

  /** A path without '.' is an attribute of the current entity, read in the current event. */
  lemma SimplePath(attr: string, currentEntity: string, currentEvent: string)
    requires '.' !in attr
    ensures Parse(attr, currentEntity, currentEvent) == Success(Target(currentEntity, attr, currentEvent, Simple))
  {
    NotContainsWithout(attr, ".", 0);
  }

  /** "prefix.attr" for the prefixes with a fixed meaning, and for an explicit entity. */
  lemma QualifiedPath(prefix: string, attr: string, currentEntity: string, currentEvent: string)
    requires Segment(prefix) && Segment(attr)
    ensures var r := Parse(prefix + "." + attr, currentEntity, currentEvent);
      r == Success(
        if prefix == "prior" then Target(currentEntity, attr, currentEvent, TemporalPrior)
        else if prefix == "current" then Target(currentEntity, attr, currentEvent, TemporalCurrent)
        else if prefix == "here" then Target("Patch", attr, currentEvent, SpatialPatch)
        else if prefix == "meta" then Target("Simulation", attr, currentEvent, SimulationLevel)
        else Target(prefix, attr, currentEvent, ExplicitEntity))
  {
    assert Join([prefix, attr], ".") == prefix + "." + attr by {
      assert [prefix, attr][1..] == [attr];
    }
    SplitSegments([prefix, attr]);
  }

  /** "here.Collection.attr" reads the attribute from the organisms of that collection. */
  lemma CollectionPath(collection: string, attr: string, currentEntity: string, currentEvent: string)
    requires Segment(collection) && Segment(attr)
    ensures Parse("here." + collection + "." + attr, currentEntity, currentEvent) ==
      Success(Target(collection, attr, currentEvent, SpatialCollection))
  {
    var parts := ["here", collection, attr];
    assert Join(parts, ".") == "here." + collection + "." + attr by {
      assert parts[1..] == [collection, attr];
      assert parts[1..][1..] == [attr];
    }
    SplitSegments(parts);
  }

  /** A node id splits back into its entity, attribute and event. */
  lemma NodeIdSplits(entity: string, attribute: string, event: string)
    requires Segment(entity) && Segment(attribute) && Segment(event)
    ensures JavaSplit(NodeId(entity, attribute, event), ".") == [entity, attribute, event]
  {
    var parts := [entity, attribute, event];
    assert Join(parts, ".") == NodeId(entity, attribute, event) by {
      assert parts[1..] == [attribute, event];
      assert parts[1..][1..] == [event];
    }
    SplitSegments(parts);
  }

  lemma {:induction false} DotsSplitEmpty(s: string)
    requires forall i :: 0 <= i < |s| ==> s[i] == '.'
    ensures forall j :: 0 <= j < |SplitAll(s, ".")| ==> SplitAll(s, ".")[j] == ""
    decreases |s|
  {
    if |s| > 0 {
      assert OccursAt(s, ".", 0);
      DotsSplitEmpty(s[1..]);
    }
  }

  lemma {:induction false} DropAllEmpty(q: seq<string>)
    requires forall j :: 0 <= j < |q| ==> q[j] == ""
    ensures DropTrailingEmpty(q) == []
    decreases |q|
  {
    if |q| > 0 {
      DropAllEmpty(q[..|q| - 1]);
    }
  }

  /** A non-empty path of dots only has no parts: parse fails with an index out of bounds. */
  lemma DotsOnlyFails(path: string, currentEntity: string, currentEvent: string)
    requires path != "" && forall i :: 0 <= i < |path| ==> path[i] == '.'
    ensures Parse(path, currentEntity, currentEvent).Failure?
    ensures Parse(path, currentEntity, currentEvent).error.kind == IndexOutOfBounds
  {
    assert OccursAt(path, ".", 0);
    DotsSplitEmpty(path);
    DropAllEmpty(SplitAll(path, "."));
  }
}

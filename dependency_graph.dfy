/**
 * DependencyGraph: nodes (an attribute of an entity in one event) kept once per id in
 * insertion order, with the source locations that define them, and labelled edges kept in a
 * list in the order they were added, duplicates included.
 */
module DependencyGraphs {
  import opened Wrappers

  /** Where a node is defined; a null field of the source is None. */
  datatype SourceLocation = SourceLocation(
    line: Option<int>,
    text: Option<string>,
    condition: Option<string>,
    assignedValue: Option<string>,
    isElseBranch: Option<bool>)

  /** The two halves of the key "line|condition" that deduplicateSources compares. Both
      halves come from Objects.toString(x, "null"), so a missing condition and the condition
      text "null" give the same key (the line half is a number or "null" and never holds '|',
      so the key string is equal exactly when both halves are). */
  datatype SourceKey = SourceKey(line: Option<int>, condition: string)

  function KeyOf(loc: SourceLocation): SourceKey
  {
    SourceKey(loc.line, loc.condition.GetOr("null"))
  }

  datatype Node = Node(
    id: string,
    entityType: string,
    attribute: string,
    event: string,
    sourceLine: Option<int>,
    sourceText: Option<string>,
    allSources: seq<SourceLocation>)

  datatype Edge = Edge(from: string, to: string, pathLabel: string, resolutionType: string, description: string)

  /** The six-argument Node constructor: one source location when line or text is given. */
  function PlainNode(id: string, entityType: string, attribute: string, event: string,
                     line: Option<int>, text: Option<string>): (n: Node)
    ensures n.sourceLine == line && n.sourceText == text
    ensures n.allSources == if line.Some? || text.Some? then [SourceLocation(line, text, None, None, None)] else []
  {
    Node(id, entityType, attribute, event, line, text,
         if line.Some? || text.Some? then [SourceLocation(line, text, None, None, None)] else [])
  }

  function Keys(q: seq<SourceLocation>): set<SourceKey>
  {
    set loc | loc in q :: KeyOf(loc)
  }

  /** The loop of deduplicateSources over q, with the keys already seen: the first location
      for each key is kept, in order. */
  function DedupFrom(seen: set<SourceKey>, q: seq<SourceLocation>): (r: seq<SourceLocation>)
    decreases |q|
  {
    if |q| == 0 then []
    else if KeyOf(q[0]) in seen then DedupFrom(seen, q[1..])
    else [q[0]] + DedupFrom(seen + {KeyOf(q[0])}, q[1..])
  }

  function Dedup(q: seq<SourceLocation>): seq<SourceLocation>
  {
    DedupFrom({}, q)
  }

  predicate DistinctKeys(q: seq<SourceLocation>)
  {
    forall i, j :: 0 <= i < j < |q| ==> KeyOf(q[i]) != KeyOf(q[j])
  }

  lemma KeysCons(q: seq<SourceLocation>)
    requires |q| > 0
    ensures Keys(q) == {KeyOf(q[0])} + Keys(q[1..])
  {
    assert forall loc :: loc in q <==> loc == q[0] || loc in q[1..];
  }

  /** Deduplication keeps only locations of the input whose keys were not seen. */
  lemma {:induction false} DedupFromSubset(seen: set<SourceKey>, q: seq<SourceLocation>)
    ensures forall loc :: loc in DedupFrom(seen, q) ==> loc in q && KeyOf(loc) !in seen
    decreases |q|
  {
    if |q| > 0 {
      var k := KeyOf(q[0]);
      if k in seen {
        DedupFromSubset(seen, q[1..]);
      } else {
        DedupFromSubset(seen + {k}, q[1..]);
      }
    }
  }

  /** Deduplication keeps exactly the keys of the input that were not seen. */
  lemma {:induction false} DedupFromKeys(seen: set<SourceKey>, q: seq<SourceLocation>)
    ensures Keys(DedupFrom(seen, q)) == Keys(q) - seen
    decreases |q|
  {
    if |q| > 0 {
      var k := KeyOf(q[0]);
      KeysCons(q);
      if k in seen {
        DedupFromKeys(seen, q[1..]);
      } else {
        DedupFromKeys(seen + {k}, q[1..]);
        KeysCons(DedupFrom(seen, q));
        assert DedupFrom(seen, q)[1..] == DedupFrom(seen + {k}, q[1..]);
      }
    }
  }

  /** Deduplication leaves no two locations with the same key. */
  lemma {:induction false} DedupFromDistinctKeys(seen: set<SourceKey>, q: seq<SourceLocation>)
    ensures DistinctKeys(DedupFrom(seen, q))
    decreases |q|
  {
    if |q| > 0 {
      var k := KeyOf(q[0]);
      if k in seen {
        DedupFromDistinctKeys(seen, q[1..]);
      } else {
        var rest := DedupFrom(seen + {k}, q[1..]);
        DedupFromDistinctKeys(seen + {k}, q[1..]);
        DedupFromSubset(seen + {k}, q[1..]);
        var r := [q[0]] + rest;
        forall i, j | 0 <= i < j < |r| ensures KeyOf(r[i]) != KeyOf(r[j]) {
          if i == 0 {
            assert r[j] in rest;
          } else {
            assert r[i] == rest[i - 1] && r[j] == rest[j - 1];
          }
        }
      }
    }
  }

  /** Locations whose keys are distinct and unseen all survive. */
  lemma {:induction false} DedupFromDistinct(seen: set<SourceKey>, q: seq<SourceLocation>)
    requires DistinctKeys(q) && Keys(q) !! seen
    ensures DedupFrom(seen, q) == q
    decreases |q|
  {
    if |q| > 0 {
      assert KeyOf(q[0]) in Keys(q);
      assert Keys(q[1..]) !! seen + {KeyOf(q[0])} by {
        forall loc | loc in q[1..] ensures KeyOf(loc) != KeyOf(q[0]) && KeyOf(loc) !in seen {
          var j :| 0 <= j < |q[1..]| && q[1..][j] == loc;
          assert q[j + 1] == loc;
        }
      }
      DedupFromDistinct(seen + {KeyOf(q[0])}, q[1..]);
    }
  }

  /** Running over a + b is running over a, then over b with the keys of a seen as well. */
  lemma {:induction false} DedupFromAppend(seen: set<SourceKey>, a: seq<SourceLocation>, b: seq<SourceLocation>)
    ensures DedupFrom(seen, a + b) == DedupFrom(seen, a) + DedupFrom(seen + Keys(a), b)
    decreases |a|
  {
    if |a| == 0 {
      assert a + b == b && Keys(a) == {};
      assert seen + Keys(a) == seen;
    } else {
      assert (a + b)[0] == a[0] && (a + b)[1..] == a[1..] + b;
      var k := KeyOf(a[0]);
      assert Keys(a) == {k} + Keys(a[1..]) by {
        assert forall loc :: loc in a <==> loc == a[0] || loc in a[1..];
      }
      if k in seen {
        DedupFromAppend(seen, a[1..], b);
        assert seen + Keys(a[1..]) == seen + Keys(a);
      } else {
        DedupFromAppend(seen + {k}, a[1..], b);
        assert seen + {k} + Keys(a[1..]) == seen + Keys(a);
      }
    }
  }

  /** Merging into sources that are already deduplicated keeps them all, in front. */
  lemma MergeKeepsExisting(existing: seq<SourceLocation>, newSources: seq<SourceLocation>)
    requires DistinctKeys(existing)
    ensures Dedup(existing + newSources) == existing + DedupFrom(Keys(existing), newSources)
  {
    DedupFromAppend({}, existing, newSources);
    DedupFromDistinct({}, existing);
    assert {} + Keys(existing) == Keys(existing);
  }

  /** The first new source always survives deduplication on its own. */
  lemma DedupHead(q: seq<SourceLocation>)
    requires |q| > 0
    ensures |Dedup(q)| > 0 && Dedup(q)[0] == q[0]
  {
  }

  /** The node the five-argument addNode stores under id, given the node already there. */
  function Merged(existing: Option<Node>, id: string, entityType: string, attribute: string, event: string,
                  newSources: seq<SourceLocation>): (n: Node)
    ensures n.id == id && n.entityType == entityType && n.attribute == attribute && n.event == event
    ensures existing.Some? ==> n.sourceLine == existing.value.sourceLine && n.sourceText == existing.value.sourceText
    ensures existing.Some? ==> n.allSources == Dedup(existing.value.allSources + newSources)
    ensures existing.None? && |newSources| > 0 ==>
      n.sourceLine == newSources[0].line && n.sourceText == newSources[0].text && n.allSources == Dedup(newSources)
    ensures existing.None? && |newSources| == 0 ==> n.sourceLine == None && n.sourceText == None && n.allSources == []
  {
    match existing
    case Some(prior) =>
      Node(id, entityType, attribute, event, prior.sourceLine, prior.sourceText, Dedup(prior.allSources + newSources))
    case None =>
      if |newSources| > 0 then
        assert [] + newSources == newSources;
        DedupHead(newSources);
        var deduped := Dedup([] + newSources);
        Node(id, entityType, attribute, event, deduped[0].line, deduped[0].text, deduped)
      else PlainNode(id, entityType, attribute, event, None, None)
  }

  function InOrder(nodes: map<string, Node>, keys: seq<string>): (r: seq<Node>)
    requires forall i :: 0 <= i < |keys| ==> keys[i] in nodes
    ensures |r| == |keys| && forall i :: 0 <= i < |keys| ==> r[i] == nodes[keys[i]]
  {
    if |keys| == 0 then [] else [nodes[keys[0]]] + InOrder(nodes, keys[1..])
  }

  class DependencyGraph {
    /** The LinkedHashMap of nodes: the map, and its keys in insertion order. */
    var nodes: map<string, Node>
    var order: seq<string>
    var edges: seq<Edge>

    ghost predicate Valid()
      reads this
    {
      (forall i, j :: 0 <= i < j < |order| ==> order[i] != order[j]) &&
      (forall k :: k in nodes <==> k in order) &&
      (forall k :: k in nodes ==> nodes[k].id == k)
    }

    constructor ()
      ensures Valid() && nodes == map[] && order == [] && edges == []
    {
      nodes, order, edges := map[], [], [];
    }

    /** getNodes(): the nodes in insertion order. */
    function Nodes(): (r: seq<Node>)
      reads this
      requires Valid()
      ensures |r| == |order| && forall i :: 0 <= i < |order| ==> r[i] == nodes[order[i]]
    {
      InOrder(nodes, order)
    }

    /** Map.put: a new key goes to the end of the order, an existing one keeps its place. */
    method Put(id: string, n: Node)
      requires Valid() && n.id == id
      modifies this
      ensures Valid()
      ensures nodes == old(nodes)[id := n] && edges == old(edges)
      ensures order == if id in old(nodes) then old(order) else old(order) + [id]
    {
      if id !in nodes {
        order := order + [id];
      }
      nodes := nodes[id := n];
    }

    /** addNode(id, entityType, attribute, event): putIfAbsent, so the first node stays. */
    method AddNode(id: string, entityType: string, attribute: string, event: string)
      requires Valid()
      modifies this
      ensures Valid() && edges == old(edges)
      ensures id in old(nodes) ==> nodes == old(nodes) && order == old(order)
      ensures id !in old(nodes) ==>
        nodes == old(nodes)[id := PlainNode(id, entityType, attribute, event, None, None)] && order == old(order) + [id]
    {
      if id !in nodes {
        Put(id, PlainNode(id, entityType, attribute, event, None, None));
      }
    }

    /** addNode(id, entityType, attribute, event, newSources). */
    method AddNodeSources(id: string, entityType: string, attribute: string, event: string,
                          newSources: seq<SourceLocation>)
      requires Valid()
      modifies this
      ensures Valid() && edges == old(edges)
      ensures nodes == old(nodes)[id := Merged(if id in old(nodes) then Some(old(nodes)[id]) else None,
                                               id, entityType, attribute, event, newSources)]
      ensures order == if id in old(nodes) then old(order) else old(order) + [id]
    {
      var existing := if id in nodes then Some(nodes[id]) else None;
      var n: Node;
      if existing.Some? {
        var merged := DeduplicateSources(existing.value.allSources, newSources);
        n := Node(id, entityType, attribute, event, existing.value.sourceLine, existing.value.sourceText, merged);
      } else if |newSources| > 0 {
        var deduped := DeduplicateSources([], newSources);
        assert [] + newSources == newSources;
        DedupHead(newSources);
        n := Node(id, entityType, attribute, event, deduped[0].line, deduped[0].text, deduped);
      } else {
        n := PlainNode(id, entityType, attribute, event, None, None);
      }
      Put(id, n);
    }

    /** addNode(id, entityType, attribute, event, sourceLine, sourceText). */
    method AddNodeAt(id: string, entityType: string, attribute: string, event: string,
                     sourceLine: Option<int>, sourceText: Option<string>)
      requires Valid()
      modifies this
      ensures Valid() && edges == old(edges)
      ensures nodes == old(nodes)[id := Merged(if id in old(nodes) then Some(old(nodes)[id]) else None,
        id, entityType, attribute, event, PlainNode(id, entityType, attribute, event, sourceLine, sourceText).allSources)]
      ensures order == if id in old(nodes) then old(order) else old(order) + [id]
    {
      AddNodeSources(id, entityType, attribute, event,
                     if sourceLine.Some? || sourceText.Some? then [SourceLocation(sourceLine, sourceText, None, None, None)] else []);
    }

    /** deduplicateSources: existing first, then the new ones, each key kept once. */
    method DeduplicateSources(existing: seq<SourceLocation>, newSources: seq<SourceLocation>)
      returns (result: seq<SourceLocation>)
      ensures result == Dedup(existing + newSources)
    {
      var seen: set<SourceKey> := {};
      result := [];
      var i := 0;
      while i < |existing|
        invariant 0 <= i <= |existing|
        invariant seen == Keys(existing[..i])
        invariant result == Dedup(existing[..i])
      {
        var key := KeyOf(existing[i]);
        assert existing[..i + 1] == existing[..i] + [existing[i]];
        DedupFromAppend({}, existing[..i], [existing[i]]);
        assert Keys(existing[..i + 1]) == seen + {key} by {
          assert forall loc :: loc in existing[..i + 1] <==> loc in existing[..i] || loc == existing[i];
        }
        if key !in seen {
          seen := seen + {key};
          result := result + [existing[i]];
        }
        i := i + 1;
      }
      assert existing[..i] == existing;
      var j := 0;
      assert existing + newSources[..j] == existing;
      while j < |newSources|
        invariant 0 <= j <= |newSources|
        invariant seen == Keys(existing + newSources[..j])
        invariant result == Dedup(existing + newSources[..j])
      {
        var loc := newSources[j];
        var key := KeyOf(loc);
        assert existing + newSources[..j + 1] == (existing + newSources[..j]) + [loc];
        DedupFromAppend({}, existing + newSources[..j], [loc]);
        assert Keys(existing + newSources[..j + 1]) == seen + {key} by {
          assert forall l :: l in existing + newSources[..j + 1] <==> l in existing + newSources[..j] || l == loc;
        }
        if key !in seen {
          seen := seen + {key};
          result := result + [loc];
        }
        j := j + 1;
      }
      assert newSources[..j] == newSources;
    }

    /** addEdge always appends, keeping order and duplicates. */
    method AddEdge(from: string, to: string, pathLabel: string, resolutionType: string, description: string)
      modifies this
      ensures edges == old(edges) + [Edge(from, to, pathLabel, resolutionType, description)]
      ensures nodes == old(nodes) && order == old(order)
    {
      edges := edges + [Edge(from, to, pathLabel, resolutionType, description)];
    }
  }
}

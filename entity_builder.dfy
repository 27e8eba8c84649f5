/**
 * The entity builder: it collects a name, event handler groups and initial attribute values,
 * and derives, lazily and with caching, the tables an entity is built with: the sorted
 * attribute index, its inverse, the attribute value array, the attributes without handlers
 * in each substep and the handler lookup cache.
 */
module EntityBuilders {
  import opened Wrappers
  import opened Strings

  /** The substeps whose tables are precomputed, in the order they are visited. */
  const SUBSTEPS: seq<string> := ["init", "step", "start", "end", "constant"]

  /** An event key; EventKey.of(attribute, event) has the empty state. */
  datatype EventKey = EventKey(state: string, attribute: string, event: string)

  datatype EventHandler = EventHandler(attributeName: string)

  /** A group of handlers; its own key may be absent (null). */
  datatype EventHandlerGroup = EventHandlerGroup(eventKey: Option<EventKey>, handlers: seq<EventHandler>)

  /** The handler groups by key; a group registered as null is None. */
  type Groups = map<EventKey, Option<EventHandlerGroup>>

  // ---------------------------------------------------------------------------
  // Attribute names carried by handlers
  // ---------------------------------------------------------------------------

  /** A group takes part in a scan that is limited to one event, or in an unlimited scan. */
  predicate InScan(g: EventHandlerGroup, event: Option<string>)
  {
    event.None? || (g.eventKey.Some? && g.eventKey.value.event == event.value)
  }

  /** Attribute names of the handlers of the non-null groups under the keys ks, in the scan. */
  function NamesIn(groups: Groups, ks: set<EventKey>, event: Option<string>): set<string>
  {
    set k, n | k in ks && k in groups && n in Scanned(groups, k, event) :: n
  }

  /** The contribution of the group under one key to a scan. */
  function Scanned(groups: Groups, k: EventKey, event: Option<string>): set<string>
    requires k in groups
  {
    if groups[k].Some? && InScan(groups[k].value, event) then GroupNames(groups[k].value) else {}
  }

  /** Every attribute name that some handler of some non-null group writes. */
  function HandlerNames(groups: Groups): set<string>
  {
    NamesIn(groups, groups.Keys, None)
  }

  /** The attributes that have a handler in a group whose own key is for the given substep. */
  function WithHandlers(groups: Groups, substep: string): set<string>
  {
    NamesIn(groups, groups.Keys, Some(substep))
  }

  function GroupNames(g: EventHandlerGroup): set<string>
  {
    set h | h in g.handlers :: h.attributeName
  }

  lemma NamesInAdd(groups: Groups, ks: set<EventKey>, k: EventKey, event: Option<string>)
    requires k in groups
    ensures NamesIn(groups, ks + {k}, event) == NamesIn(groups, ks, event) + Scanned(groups, k, event)
  {
  }

  /**
   * The loop over eventHandlerGroups.values() that skips null groups (and, in the substep scan,
   * groups without a key or for another event) and adds each handler's attribute name.
   */
  method CollectNames(groups: Groups, event: Option<string>) returns (names: set<string>)
    ensures names == NamesIn(groups, groups.Keys, event)
  {
    names := {};
    var todo := groups.Keys;
    ghost var done := {};
    while todo != {}
      invariant todo !! done && todo + done == groups.Keys
      invariant names == NamesIn(groups, done, event)
      decreases |todo|
    {
      var k :| k in todo;
      NamesInAdd(groups, done, k, event);
      MoveOne(groups.Keys, todo, done, k);
      var g := groups[k];
      if g.Some? && InScan(g.value, event) {
        names := names + GroupNames(g.value);
      } else {
        assert Scanned(groups, k, event) == {};
      }
      done, todo := done + {k}, todo - {k};
    }
  }

  /** All attribute names an entity has a slot for: initial attributes and handler targets. */
  function AllNames(initial: set<string>, groups: Groups): set<string>
  {
    initial + HandlerNames(groups)
  }

  // ---------------------------------------------------------------------------
  // The attribute index and its inverse
  // ---------------------------------------------------------------------------

  /** The map name -> position of a sorted list without repeats. */
  function RankMap(sorted: seq<string>): map<string, int>
    requires StrictlySorted(sorted)
  {
    map i | 0 <= i < |sorted| :: sorted[i] := i
  }

  /** attributeNameToIndex: the names sorted by String.compareTo, each mapped to its position. */
  function IndexMap(names: set<string>): map<string, int>
  {
    RankMap(SortedElements(names))
  }

  /** indexToAttributeName: position -> name, every slot filled. */
  function IndexNames(names: set<string>): seq<Option<string>>
  {
    var sorted := SortedElements(names);
    seq(|sorted|, i requires 0 <= i < |sorted| => Some(sorted[i]))
  }

  lemma RankMapAt(sorted: seq<string>)
    requires StrictlySorted(sorted)
    ensures forall i :: 0 <= i < |sorted| ==> sorted[i] in RankMap(sorted) && RankMap(sorted)[sorted[i]] == i
    ensures forall k :: k in RankMap(sorted) ==>
      0 <= RankMap(sorted)[k] < |sorted| && sorted[RankMap(sorted)[k]] == k
  {
  }

  lemma RankMapSnoc(sorted: seq<string>, i: nat)
    requires StrictlySorted(sorted) && i < |sorted|
    ensures StrictlySorted(sorted[..i]) && StrictlySorted(sorted[..i + 1])
    ensures RankMap(sorted[..i + 1]) == RankMap(sorted[..i])[sorted[i] := i]
  {
    var p, q := sorted[..i], sorted[..i + 1];
    assert q == p + [sorted[i]];
    var l, r := RankMap(q), RankMap(p)[sorted[i] := i];
    RankMapAt(p);
    RankMapAt(q);
    forall k | k in l ensures k in r && l[k] == r[k] {
      if l[k] < i {
        assert q[l[k]] == p[l[k]];
      }
    }
    forall k | k in r ensures k in l {
      if k != sorted[i] {
        assert q[RankMap(p)[k]] == k;
      }
    }
  }

  /** The index map covers exactly the names, and its size is the number of names. */
  lemma IndexMapDomain(names: set<string>)
    ensures forall k :: k in IndexMap(names) <==> k in names
    ensures |IndexMap(names)| == |names|
  {
    var sorted := SortedElements(names);
    RankMapAt(sorted);
    assert IndexMap(names).Keys == names;
  }

  lemma LessAsym(a: string, b: string)
    requires Less(b, a)
    ensures !Less(a, b)
  {
    if Less(a, b) {
      LessEqAntisym(a, b);
    }
  }

  /** Two positions of a sorted list without repeats compare as their elements do. */
  lemma SortedPositions(sorted: seq<string>, i: int, j: int)
    requires StrictlySorted(sorted) && 0 <= i < |sorted| && 0 <= j < |sorted|
    ensures i < j <==> Less(sorted[i], sorted[j])
  {
    if j < i {
      LessAsym(sorted[i], sorted[j]);
    }
  }

  /**
   * Index = rank: the positions are 0 .. n-1, and one name has a smaller index than another
   * exactly when it sorts first.
   */
  lemma IndexMapIsRank(names: set<string>)
    ensures forall k :: k in IndexMap(names) ==> 0 <= IndexMap(names)[k] < |names|
    ensures forall a, b :: a in names && b in names ==>
      (IndexMap(names)[a] < IndexMap(names)[b] <==> Less(a, b))
  {
    var sorted := SortedElements(names);
    var m := IndexMap(names);
    RankMapAt(sorted);
    IndexMapDomain(names);
    forall a, b | a in names && b in names
      ensures m[a] < m[b] <==> Less(a, b)
    {
      SortedPositions(sorted, m[a], m[b]);
    }
  }

  lemma IndexNamesAt(names: set<string>)
    ensures |IndexNames(names)| == |SortedElements(names)| == |IndexMap(names)|
    ensures forall i :: 0 <= i < |IndexNames(names)| ==> IndexNames(names)[i] == Some(SortedElements(names)[i])
  {
    IndexMapDomain(names);
  }

  /** The index-to-name array is the exact inverse of the index map. */
  lemma IndexNamesInverse(names: set<string>)
    ensures |IndexNames(names)| == |IndexMap(names)|
    ensures forall k :: k in IndexMap(names) ==>
      0 <= IndexMap(names)[k] < |IndexNames(names)| && IndexNames(names)[IndexMap(names)[k]] == Some(k)
    ensures forall i :: 0 <= i < |IndexNames(names)| ==>
      IndexNames(names)[i].Some? && IndexNames(names)[i].value in IndexMap(names) &&
      IndexMap(names)[IndexNames(names)[i].value] == i
  {
    IndexNamesAt(names);
    RankMapAt(SortedElements(names));
  }

  // ---------------------------------------------------------------------------
  // Attributes without handlers, per substep
  // ---------------------------------------------------------------------------

  /** attributesWithoutHandlersBySubstep: per substep, the initial attributes no handler writes. */
  function NoHandlerSets(initial: set<string>, groups: Groups): map<string, set<string>>
  {
    map s | s in SUBSTEPS :: initial - WithHandlers(groups, s)
  }

  /**
   * What a no-handler set holds: an initial attribute is in the set of a substep exactly when
   * no non-null group whose key is for that substep has a handler writing it.
   */
  lemma NoHandlerSetsMeaning(initial: set<string>, groups: Groups, s: string, n: string)
    requires s in SUBSTEPS
    ensures s in NoHandlerSets(initial, groups)
    ensures n in NoHandlerSets(initial, groups)[s] <==>
      n in initial &&
      forall k :: (k in groups && groups[k].Some? && groups[k].value.eventKey.Some? &&
                   groups[k].value.eventKey.value.event == s) ==> n !in GroupNames(groups[k].value)
  {
    var w := WithHandlers(groups, s);
    if n in w {
      var k :| k in groups && n in Scanned(groups, k, Some(s));
      assert groups[k].Some? && InScan(groups[k].value, Some(s));
    } else {
      forall k | k in groups && groups[k].Some? && InScan(groups[k].value, Some(s))
        ensures n !in GroupNames(groups[k].value)
      {
        assert Scanned(groups, k, Some(s)) == GroupNames(groups[k].value);
      }
    }
  }

  /**
   * Adding a group under a new key changes only the set of the substep in its own key,
   * removing from it the attributes the group's handlers write.
   */
  lemma {:induction false} NoHandlerSetsAdd(initial: set<string>, groups: Groups, k: EventKey, g: EventHandlerGroup, s: string)
    requires k !in groups && s in SUBSTEPS
    ensures NoHandlerSets(initial, groups[k := Some(g)])[s] ==
      if InScan(g, Some(s)) then NoHandlerSets(initial, groups)[s] - GroupNames(g)
      else NoHandlerSets(initial, groups)[s]
  {
    var groups' := groups[k := Some(g)];
    assert groups'.Keys == groups.Keys + {k};
    NamesInAdd(groups', groups.Keys, k, Some(s));
    NamesInSame(groups, groups', groups.Keys, Some(s));
  }

  /** A scan over keys on which two group maps agree finds the same names in both. */
  lemma NamesInSame(groups: Groups, groups': Groups, ks: set<EventKey>, event: Option<string>)
    requires forall k :: k in ks && k in groups ==> k in groups' && groups'[k] == groups[k]
    requires forall k :: k in ks && k in groups' ==> k in groups
    ensures NamesIn(groups, ks, event) == NamesIn(groups', ks, event)
  {
    forall n | n in NamesIn(groups, ks, event) ensures n in NamesIn(groups', ks, event) {
      var k :| k in ks && k in groups && n in Scanned(groups, k, event);
      assert n in Scanned(groups', k, event);
    }
    forall n | n in NamesIn(groups', ks, event) ensures n in NamesIn(groups, ks, event) {
      var k :| k in ks && k in groups' && n in Scanned(groups', k, event);
      assert n in Scanned(groups, k, event);
    }
  }

  /** The loop over the five substeps with, inside it, the scan for attributes with handlers. */
  method NoHandlerSetsLoop(initial: set<string>, groups: Groups) returns (result: map<string, set<string>>)
    ensures result == NoHandlerSets(initial, groups)
  {
    result := map[];
    var i := 0;
    while i < |SUBSTEPS|
      invariant 0 <= i <= |SUBSTEPS|
      invariant result == map s | s in SUBSTEPS[..i] :: initial - WithHandlers(groups, s)
    {
      var substep := SUBSTEPS[i];
      var withHandlers := CollectNames(groups, Some(substep));
      result := result[substep := initial - withHandlers];
      assert SUBSTEPS[..i + 1] == SUBSTEPS[..i] + [substep];
      i := i + 1;
    }
    assert SUBSTEPS[..i] == SUBSTEPS;
  }

  // ---------------------------------------------------------------------------
  // The handler cache
  // ---------------------------------------------------------------------------

  /** A cache entry's coordinates; the empty state stands for a state-independent lookup. */
  datatype CacheKey = CacheKey(attribute: string, substep: string, state: string)

  /** The cache key string: "attr:substep", or "attr:substep:state" for a non-empty state. */
  function KeyText(c: CacheKey): string
  {
    if c.state == "" then c.attribute + ":" + c.substep else c.attribute + ":" + c.substep + ":" + c.state
  }

  function KeyParts(c: CacheKey): seq<string>
  {
    if c.state == "" then [c.attribute, c.substep] else [c.attribute, c.substep, c.state]
  }

  /** The states of the registered keys, plus the empty state. */
  function States(groups: Groups): set<string>
  {
    {""} + set k | k in groups && k.state != "" :: k.state
  }

  /** eventHandlerGroups.get(key), kept when it is present and non-null. */
  function Lookup(groups: Groups, k: EventKey): seq<EventHandlerGroup>
  {
    if k in groups && groups[k].Some? then [groups[k].value] else []
  }

  /** The state-independent group, then (for a non-empty state) the state-specific one. */
  function Matching(groups: Groups, c: CacheKey): seq<EventHandlerGroup>
  {
    Lookup(groups, EventKey("", c.attribute, c.substep)) +
    (if c.state != "" then Lookup(groups, EventKey(c.state, c.attribute, c.substep)) else [])
  }

  /** The cache entries for one attribute: every substep and state with a non-empty match. */
  function AttributeEntries(groups: Groups, states: set<string>, a: string): map<CacheKey, seq<EventHandlerGroup>>
  {
    map c | c in (set s, st | s in SUBSTEPS && st in states :: CacheKey(a, s, st)) && Matching(groups, c) != []
      :: Matching(groups, c)
  }

  /** The cache entries for a set of attributes. */
  function EntriesFor(groups: Groups, states: set<string>, attrs: set<string>): map<CacheKey, seq<EventHandlerGroup>>
  {
    map c | c in (set a, s, st | a in attrs && s in SUBSTEPS && st in states :: CacheKey(a, s, st))
                && Matching(groups, c) != [] :: Matching(groups, c)
  }

  /** commonHandlerCache: (handler attribute x substep x state) -> the non-empty matching groups. */
  function HandlerCache(groups: Groups): map<CacheKey, seq<EventHandlerGroup>>
  {
    EntriesFor(groups, States(groups), HandlerNames(groups))
  }

  lemma EntriesForAdd(groups: Groups, states: set<string>, attrs: set<string>, a: string)
    ensures EntriesFor(groups, states, attrs + {a}) == EntriesFor(groups, states, attrs) + AttributeEntries(groups, states, a)
  {
    var l, r := EntriesFor(groups, states, attrs + {a}), EntriesFor(groups, states, attrs) + AttributeEntries(groups, states, a);
    assert forall c :: c in l <==> c in r by {
      forall c ensures c in l <==> c in r {
        if c in r && c !in EntriesFor(groups, states, attrs) {
          assert c in AttributeEntries(groups, states, a);
          assert c.attribute == a;
        }
      }
    }
  }

  /**
   * What the cache holds: an entry exactly for each handler attribute, listed substep and
   * registered state (or the empty state) with a matching group; the entry lists the
   * state-independent group first, the state-specific one second, and is never empty.
   */
  lemma HandlerCacheEntries(groups: Groups, c: CacheKey)
    ensures c in HandlerCache(groups) <==>
      c.attribute in HandlerNames(groups) && c.substep in SUBSTEPS && c.state in States(groups) &&
      Matching(groups, c) != []
    ensures c in HandlerCache(groups) ==> HandlerCache(groups)[c] == Matching(groups, c) && |HandlerCache(groups)[c]| > 0
  {
    if c.attribute in HandlerNames(groups) && c.substep in SUBSTEPS && c.state in States(groups) {
      assert c == CacheKey(c.attribute, c.substep, c.state);
    }
  }

  /**
   * A state-independent entry holds the group under EventKey.of(attribute, substep); a
   * state-specific one holds at most that group and the group under EventKey.of(state, ...).
   */
  lemma MatchingShape(groups: Groups, c: CacheKey)
    ensures c.state == "" ==> Matching(groups, c) == Lookup(groups, EventKey("", c.attribute, c.substep))
    ensures |Matching(groups, c)| <= 2
    ensures c.state != "" && EventKey(c.state, c.attribute, c.substep) in groups &&
            groups[EventKey(c.state, c.attribute, c.substep)].Some? ==>
      Matching(groups, c)[|Matching(groups, c)| - 1] == groups[EventKey(c.state, c.attribute, c.substep)].value
  {
  }

  /** The key strings are the parts joined by ':'. */
  lemma KeyTextJoin(c: CacheKey)
    ensures KeyText(c) == Join(KeyParts(c), ":")
  {
    if c.state == "" {
      assert Join([c.attribute, c.substep], ":") == c.attribute + ":" + Join([c.substep], ":");
    } else {
      var p := [c.attribute, c.substep, c.state];
      assert p[1..] == [c.substep, c.state] && p[1..][1..] == [c.state];
      assert Join(p[1..], ":") == c.substep + ":" + c.state;
    }
  }

  /** With colon-free attribute, substep and state names, splitting a key string at ':' recovers its parts. */
  lemma KeyTextSplits(c: CacheKey)
    requires ':' !in c.attribute && ':' !in c.substep && ':' !in c.state
    ensures SplitAll(KeyText(c), ":") == KeyParts(c)
  {
    var sep := ":";
    assert sep[0] == ':' && sep[..0] == [];
    KeyTextJoin(c);
    SplitAllJoin(KeyParts(c), sep, 0);
  }

  /** With colon-free attribute, substep and state names, distinct entries have distinct key strings. */
  lemma KeyTextInjective(c: CacheKey, d: CacheKey)
    requires ':' !in c.attribute && ':' !in c.substep && ':' !in c.state
    requires ':' !in d.attribute && ':' !in d.substep && ':' !in d.state
    requires KeyText(c) == KeyText(d)
    ensures c == d
  {
    KeyTextSplits(c);
    KeyTextSplits(d);
    assert KeyParts(c) == KeyParts(d);
  }

  /** The loop collecting the states of the keys, starting from the empty state. */
  method CollectStates(groups: Groups) returns (states: set<string>)
    ensures states == States(groups)
  {
    states := {""};
    var todo := groups.Keys;
    while todo != {}
      invariant todo <= groups.Keys
      invariant states == {""} + set k | k in groups.Keys - todo && k.state != "" :: k.state
      decreases |todo|
    {
      var k :| k in todo;
      if k.state != "" {
        states := states + {k.state};
      }
      todo := todo - {k};
    }
  }

  /** The loop over the handler attributes; each pass adds that attribute's substep x state entries. */
  method HandlerCacheLoop(groups: Groups) returns (result: map<CacheKey, seq<EventHandlerGroup>>)
    ensures result == HandlerCache(groups)
  {
    var allAttributes := CollectNames(groups, None);
    var allStates := CollectStates(groups);
    result := map[];
    var todo := allAttributes;
    while todo != {}
      invariant todo <= allAttributes
      invariant result == EntriesFor(groups, allStates, allAttributes - todo)
      decreases |todo|
    {
      var a :| a in todo;
      EntriesForAdd(groups, allStates, allAttributes - todo, a);
      assert allAttributes - (todo - {a}) == (allAttributes - todo) + {a};
      result := result + AttributeEntries(groups, allStates, a);
      todo := todo - {a};
    }
  }

  // ---------------------------------------------------------------------------
  // The attribute array
  // ---------------------------------------------------------------------------

  /** createAttributesArray: position i holds the initial value of the i-th sorted name, if any. */
  function AttributeArray<V>(initial: map<string, V>, names: set<string>): seq<Option<V>>
  {
    var sorted := SortedElements(names);
    seq(|sorted|, i requires 0 <= i < |sorted| => if sorted[i] in initial then Some(initial[sorted[i]]) else None)
  }

  /**
   * The attribute array has one slot per indexed name; the slot of a name holds its initial
   * value when it has one and is empty (null) otherwise.
   */
  lemma AttributeArrayAt<V>(initial: map<string, V>, names: set<string>)
    ensures |AttributeArray(initial, names)| == |IndexMap(names)|
    ensures forall k :: k in IndexMap(names) ==>
      0 <= IndexMap(names)[k] < |AttributeArray(initial, names)| &&
      AttributeArray(initial, names)[IndexMap(names)[k]] == (if k in initial then Some(initial[k]) else None)
  {
    var sorted := SortedElements(names);
    IndexMapPlaces(names);
    assert |AttributeArray(initial, names)| == |sorted|;
  }

  /** When every initial attribute is indexed, each initial value sits at its name's index. */
  lemma InitialValuesPlaced<V>(initial: map<string, V>, names: set<string>)
    requires initial.Keys <= names
    ensures forall k :: k in initial ==>
      k in IndexMap(names) && AttributeArray(initial, names)[IndexMap(names)[k]] == Some(initial[k])
  {
    AttributeArrayAt(initial, names);
    IndexMapDomain(names);
  }

  /**
   * An attribute a handler group writes but that was not yet indexed is missing from the index
   * map that was computed before the group was added, and present in the one computed after.
   */
  lemma StaleIndexMap(initial: set<string>, groups: Groups, k: EventKey, g: EventHandlerGroup, n: string)
    requires n in GroupNames(g) && n !in AllNames(initial, groups)
    ensures n !in IndexMap(AllNames(initial, groups))
    ensures n in IndexMap(AllNames(initial, groups[k := Some(g)]))
  {
    var groups' := groups[k := Some(g)];
    var h :| h in g.handlers && h.attributeName == n;
    assert k in groups' && groups'[k] == Some(g) && InScan(g, None);
    assert n in Scanned(groups', k, None);
    assert n in HandlerNames(groups');
    IndexMapDomain(AllNames(initial, groups));
    IndexMapDomain(AllNames(initial, groups'));
  }

  // ---------------------------------------------------------------------------
  // The builder
  // ---------------------------------------------------------------------------

  /** The pieces every build method hands to the entity constructor. */
  datatype BuiltEntity<V> = BuiltEntity(
    name: string,
    eventHandlerGroups: Groups,
    attributes: seq<Option<V>>,
    attributeNameToIndex: map<string, int>,
    indexToAttributeName: seq<Option<string>>,
    attributesWithoutHandlersBySubstep: map<string, set<string>>,
    commonHandlerCache: map<CacheKey, seq<EventHandlerGroup>>,
    sharedAttributeNames: set<string>)

  ghost predicate GroupsCacheOk(c: Option<Groups>, groups: Groups)
  {
    c.Some? ==> c.value == groups
  }

  ghost predicate SubstepCacheOk<V>(c: Option<map<string, set<string>>>, attributes: map<string, V>, groups: Groups)
  {
    c.Some? ==> c.value == NoHandlerSets(attributes.Keys, groups)
  }

  ghost predicate HandlerCacheOk(c: Option<map<CacheKey, seq<EventHandlerGroup>>>, groups: Groups)
  {
    c.Some? ==> c.value == HandlerCache(groups)
  }

  ghost predicate NamesCacheOk(c: Option<set<string>>, groups: Groups)
  {
    c.Some? ==> c.value == HandlerNames(groups)
  }

  /**
   * The index map, when set, was computed from names covering the initial attributes;
   * the inverse, when set, belongs to it.
   */
  ghost predicate IndexCacheOk<V>(index: Option<map<string, int>>, inverse: Option<seq<Option<string>>>,
                                  attributes: map<string, V>, names: set<string>)
  {
    (index.Some? ==> attributes.Keys <= names && index.value == IndexMap(names)) &&
    (inverse.Some? ==> index.Some? && inverse.value == IndexNames(names))
  }

  class EntityBuilder<V> {
    var name: Option<string>
    var eventHandlerGroups: Groups
    var attributes: map<string, V>
    // The lazily computed caches; None is a null (invalidated) cache.
    var immutableEventHandlerGroups: Option<Groups>
    var attributesWithoutHandlersBySubstep: Option<map<string, set<string>>>
    var commonHandlerCache: Option<map<CacheKey, seq<EventHandlerGroup>>>
    var attributeNameToIndex: Option<map<string, int>>
    var indexToAttributeName: Option<seq<Option<string>>>
    var sharedAttributeNames: Option<set<string>>
    /** The attribute names the cached index map was computed from. */
    ghost var indexedNames: set<string>

    /**
     * Each cache that is set agrees with the builder's state, except that the index map and its
     * inverse may have been computed from fewer handler attributes than the groups now hold.
     */
    ghost predicate Coherent()
      reads this
    {
      GroupsCacheOk(immutableEventHandlerGroups, eventHandlerGroups) &&
      SubstepCacheOk(attributesWithoutHandlersBySubstep, attributes, eventHandlerGroups) &&
      HandlerCacheOk(commonHandlerCache, eventHandlerGroups) &&
      NamesCacheOk(sharedAttributeNames, eventHandlerGroups) &&
      IndexCacheOk(attributeNameToIndex, indexToAttributeName, attributes, indexedNames)
    }

    /** Each cache that is set agrees with the builder's state. */
    ghost predicate Current()
      reads this
    {
      Coherent() && (attributeNameToIndex.Some? ==> indexedNames == AllNames(attributes.Keys, eventHandlerGroups))
    }

    constructor ()
      ensures Current()
      ensures name == None && eventHandlerGroups == map[] && attributes == map[]
      ensures immutableEventHandlerGroups == None && attributesWithoutHandlersBySubstep == None
      ensures commonHandlerCache == None && sharedAttributeNames == None
      ensures attributeNameToIndex == None && indexToAttributeName == None
    {
      name, eventHandlerGroups, attributes := None, map[], map[];
      immutableEventHandlerGroups, attributesWithoutHandlersBySubstep := None, None;
      commonHandlerCache, sharedAttributeNames := None, None;
      attributeNameToIndex, indexToAttributeName := None, None;
    }

    method SetName(n: string)
      modifies this`name
      ensures name == Some(n) && GetName() == Success(n)
    {
      name := Some(n);
    }

    /** getName: the name, or IllegalStateException when none was set. */
    function GetName(): (r: Result<string>)
      reads this
      ensures name.None? <==> r.Failure?
      ensures r.Failure? ==> r.error.kind == IllegalState
      ensures name.Some? ==> r == Success(name.value)
    {
      if name.Some? then Success(name.value) else Failure(Error(IllegalState, "Name not set"))
    }

    method Clear()
      modifies this
      ensures Current()
      ensures name == None && eventHandlerGroups == map[] && attributes == map[]
      ensures immutableEventHandlerGroups == None && attributesWithoutHandlersBySubstep == None
      ensures commonHandlerCache == None && sharedAttributeNames == None
      ensures attributeNameToIndex == None && indexToAttributeName == None
    {
      name, eventHandlerGroups, attributes := None, map[], map[];
      immutableEventHandlerGroups, attributesWithoutHandlersBySubstep := None, None;
      commonHandlerCache, sharedAttributeNames := None, None;
      attributeNameToIndex, indexToAttributeName := None, None;
    }

    /**
     * addEventHandlerGroup as written: it drops the group, substep, handler and name caches but
     * keeps the index map and its inverse (see StaleIndexMap).
     */
    method AddEventHandlerGroup(key: EventKey, group: Option<EventHandlerGroup>)
      requires Coherent()
      modifies this`eventHandlerGroups, this`immutableEventHandlerGroups, this`attributesWithoutHandlersBySubstep
      modifies this`commonHandlerCache, this`sharedAttributeNames
      ensures Coherent()
      ensures eventHandlerGroups == old(eventHandlerGroups)[key := group]
      ensures immutableEventHandlerGroups == None && attributesWithoutHandlersBySubstep == None
      ensures commonHandlerCache == None && sharedAttributeNames == None
    {
      eventHandlerGroups := eventHandlerGroups[key := group];
      immutableEventHandlerGroups, attributesWithoutHandlersBySubstep := None, None;
      commonHandlerCache, sharedAttributeNames := None, None;
    }

    /** addEventHandlerGroup with the index caches dropped too: every cache stays current. */
    method AddEventHandlerGroupCorrected(key: EventKey, group: Option<EventHandlerGroup>)
      requires Coherent()
      modifies this`eventHandlerGroups, this`immutableEventHandlerGroups, this`attributesWithoutHandlersBySubstep
      modifies this`commonHandlerCache, this`sharedAttributeNames, this`attributeNameToIndex, this`indexToAttributeName
      ensures Current()
      ensures eventHandlerGroups == old(eventHandlerGroups)[key := group]
      ensures immutableEventHandlerGroups == None && attributesWithoutHandlersBySubstep == None
      ensures commonHandlerCache == None && sharedAttributeNames == None
      ensures attributeNameToIndex == None && indexToAttributeName == None
    {
      eventHandlerGroups := eventHandlerGroups[key := group];
      immutableEventHandlerGroups, attributesWithoutHandlersBySubstep := None, None;
      commonHandlerCache, sharedAttributeNames := None, None;
      attributeNameToIndex, indexToAttributeName := None, None;
    }

    /** addAttribute: drops the substep sets and both index caches. */
    method AddAttribute(attribute: string, value: V)
      requires Coherent()
      modifies this`attributes, this`attributesWithoutHandlersBySubstep, this`attributeNameToIndex, this`indexToAttributeName
      ensures Current()
      ensures attributes == old(attributes)[attribute := value]
      ensures attributesWithoutHandlersBySubstep == None && attributeNameToIndex == None && indexToAttributeName == None
    {
      attributes := attributes[attribute := value];
      attributesWithoutHandlersBySubstep, attributeNameToIndex, indexToAttributeName := None, None, None;
    }

    method GetImmutableEventHandlerGroups() returns (r: Groups)
      requires GroupsCacheOk(immutableEventHandlerGroups, eventHandlerGroups)
      modifies this`immutableEventHandlerGroups
      ensures r == eventHandlerGroups && immutableEventHandlerGroups == Some(r)
      ensures GroupsCacheOk(immutableEventHandlerGroups, eventHandlerGroups)
    {
      if immutableEventHandlerGroups.None? {
        immutableEventHandlerGroups := Some(eventHandlerGroups);
      }
      r := immutableEventHandlerGroups.value;
    }

    method ComputeAttributesWithoutHandlersBySubstep() returns (r: map<string, set<string>>)
      requires SubstepCacheOk(attributesWithoutHandlersBySubstep, attributes, eventHandlerGroups)
      modifies this`attributesWithoutHandlersBySubstep
      ensures r == NoHandlerSets(attributes.Keys, eventHandlerGroups) && attributesWithoutHandlersBySubstep == Some(r)
    {
      if attributesWithoutHandlersBySubstep.None? {
        var result := NoHandlerSetsLoop(attributes.Keys, eventHandlerGroups);
        attributesWithoutHandlersBySubstep := Some(result);
      }
      r := attributesWithoutHandlersBySubstep.value;
    }

    method ComputeCommonHandlerCache() returns (r: map<CacheKey, seq<EventHandlerGroup>>)
      requires HandlerCacheOk(commonHandlerCache, eventHandlerGroups)
      modifies this`commonHandlerCache
      ensures r == HandlerCache(eventHandlerGroups) && commonHandlerCache == Some(r)
    {
      if commonHandlerCache.None? {
        var result := HandlerCacheLoop(eventHandlerGroups);
        commonHandlerCache := Some(result);
      }
      r := commonHandlerCache.value;
    }

    method ComputeAttributeNames() returns (r: set<string>)
      requires NamesCacheOk(sharedAttributeNames, eventHandlerGroups)
      modifies this`sharedAttributeNames
      ensures r == HandlerNames(eventHandlerGroups) && sharedAttributeNames == Some(r)
    {
      if sharedAttributeNames.None? {
        var result := CollectNames(eventHandlerGroups, None);
        sharedAttributeNames := Some(result);
      }
      r := sharedAttributeNames.value;
    }

    /**
     * computeAttributeNameToIndex: a fresh map is built from all current names; a cached one is
     * returned as it is.
     */
    method ComputeAttributeNameToIndex() returns (r: map<string, int>)
      requires IndexCacheOk(attributeNameToIndex, indexToAttributeName, attributes, indexedNames)
      modifies this`attributeNameToIndex, this`indexedNames
      ensures IndexCacheOk(attributeNameToIndex, indexToAttributeName, attributes, indexedNames)
      ensures attributeNameToIndex == Some(r) && r == IndexMap(indexedNames)
      ensures old(attributeNameToIndex).Some? ==> r == old(attributeNameToIndex).value && indexedNames == old(indexedNames)
      ensures old(attributeNameToIndex).None? ==> indexedNames == AllNames(attributes.Keys, eventHandlerGroups)
    {
      if attributeNameToIndex.None? {
        var handlerNames := CollectNames(eventHandlerGroups, None);
        var allNames := attributes.Keys + handlerNames;
        assert allNames == AllNames(attributes.Keys, eventHandlerGroups);
        var result := IndexMapLoop(allNames);
        attributeNameToIndex, indexedNames := Some(result), allNames;
      }
      r := attributeNameToIndex.value;
    }

    /** computeIndexToAttributeName: for each (name, index) of the index map, slot index gets name. */
    method ComputeIndexToAttributeName() returns (r: seq<Option<string>>)
      requires IndexCacheOk(attributeNameToIndex, indexToAttributeName, attributes, indexedNames)
      modifies this`indexToAttributeName, this`attributeNameToIndex, this`indexedNames
      ensures IndexCacheOk(attributeNameToIndex, indexToAttributeName, attributes, indexedNames)
      ensures attributeNameToIndex == Some(IndexMap(indexedNames))
      ensures indexToAttributeName == Some(r) && r == IndexNames(indexedNames)
      ensures old(attributeNameToIndex).Some? ==>
        attributeNameToIndex == old(attributeNameToIndex) && indexedNames == old(indexedNames)
      ensures old(attributeNameToIndex).None? ==> indexedNames == AllNames(attributes.Keys, eventHandlerGroups)
    {
      if indexToAttributeName.None? {
        var m := ComputeAttributeNameToIndex();
        var result := IndexNamesLoop(m, indexedNames);
        indexToAttributeName := Some(result);
      }
      r := indexToAttributeName.value;
    }

    /** createAttributesArray: the initial values placed at their indexes; it is not cached. */
    method CreateAttributesArray() returns (r: seq<Option<V>>)
      requires IndexCacheOk(attributeNameToIndex, indexToAttributeName, attributes, indexedNames)
      modifies this`attributeNameToIndex, this`indexedNames
      ensures IndexCacheOk(attributeNameToIndex, indexToAttributeName, attributes, indexedNames)
      ensures attributeNameToIndex == Some(IndexMap(indexedNames)) && attributes.Keys <= indexedNames
      ensures r == AttributeArray(attributes, indexedNames)
      ensures old(attributeNameToIndex).Some? ==>
        attributeNameToIndex == old(attributeNameToIndex) && indexedNames == old(indexedNames)
      ensures old(attributeNameToIndex).None? ==> indexedNames == AllNames(attributes.Keys, eventHandlerGroups)
    {
      var m := ComputeAttributeNameToIndex();
      r := AttributesLoop(m, indexedNames, attributes);
    }

    /**
     * The handler groups, the attribute array, the index map and its inverse, in the order the
     * build methods ask for them.
     */
    method IndexTables() returns (groups: Groups, values: seq<Option<V>>, index: map<string, int>,
                                  inverse: seq<Option<string>>)
      requires GroupsCacheOk(immutableEventHandlerGroups, eventHandlerGroups)
      requires IndexCacheOk(attributeNameToIndex, indexToAttributeName, attributes, indexedNames)
      modifies this`immutableEventHandlerGroups
      modifies this`attributeNameToIndex, this`indexToAttributeName, this`indexedNames
      ensures groups == eventHandlerGroups && GroupsCacheOk(immutableEventHandlerGroups, eventHandlerGroups)
      ensures IndexCacheOk(attributeNameToIndex, indexToAttributeName, attributes, indexedNames)
      ensures values == AttributeArray(attributes, indexedNames)
      ensures index == IndexMap(indexedNames) && inverse == IndexNames(indexedNames)
      ensures old(attributeNameToIndex).Some? ==> indexedNames == old(indexedNames)
      ensures old(attributeNameToIndex).None? ==> indexedNames == AllNames(attributes.Keys, eventHandlerGroups)
    {
      groups := GetImmutableEventHandlerGroups();
      values := CreateAttributesArray();
      index := ComputeAttributeNameToIndex();
      inverse := ComputeIndexToAttributeName();
    }

    /** The no-handler sets, the handler cache and the handler attribute names. */
    method HandlerTables() returns (withoutHandlers: map<string, set<string>>,
                                    cache: map<CacheKey, seq<EventHandlerGroup>>, shared: set<string>)
      requires SubstepCacheOk(attributesWithoutHandlersBySubstep, attributes, eventHandlerGroups)
      requires HandlerCacheOk(commonHandlerCache, eventHandlerGroups)
      requires NamesCacheOk(sharedAttributeNames, eventHandlerGroups)
      modifies this`attributesWithoutHandlersBySubstep, this`commonHandlerCache, this`sharedAttributeNames
      ensures withoutHandlers == NoHandlerSets(attributes.Keys, eventHandlerGroups)
      ensures cache == HandlerCache(eventHandlerGroups) && shared == HandlerNames(eventHandlerGroups)
      ensures attributesWithoutHandlersBySubstep == Some(withoutHandlers)
      ensures commonHandlerCache == Some(cache) && sharedAttributeNames == Some(shared)
      ensures SubstepCacheOk(attributesWithoutHandlersBySubstep, attributes, eventHandlerGroups)
      ensures HandlerCacheOk(commonHandlerCache, eventHandlerGroups)
      ensures NamesCacheOk(sharedAttributeNames, eventHandlerGroups)
    {
      withoutHandlers := ComputeAttributesWithoutHandlersBySubstep();
      cache := ComputeCommonHandlerCache();
      shared := ComputeAttributeNames();
    }

    /** Every table of a named entity, each taken from its cache or computed into it. */
    method BuildNamed(n: string) returns (e: BuiltEntity<V>)
      requires Coherent()
      modifies this`immutableEventHandlerGroups, this`attributesWithoutHandlersBySubstep, this`commonHandlerCache
      modifies this`attributeNameToIndex, this`indexToAttributeName, this`sharedAttributeNames, this`indexedNames
      ensures Coherent()
      ensures old(attributeNameToIndex).Some? ==> indexedNames == old(indexedNames)
      ensures old(attributeNameToIndex).None? ==> indexedNames == AllNames(attributes.Keys, eventHandlerGroups)
      ensures e == BuiltEntity(n, eventHandlerGroups,
        AttributeArray(attributes, indexedNames), IndexMap(indexedNames), IndexNames(indexedNames),
        NoHandlerSets(attributes.Keys, eventHandlerGroups), HandlerCache(eventHandlerGroups),
        HandlerNames(eventHandlerGroups))
    {
      var groups, values, index, inverse := IndexTables();
      var withoutHandlers, cache, shared := HandlerTables();
      e := BuiltEntity(n, groups, values, index, inverse, withoutHandlers, cache, shared);
    }

    /**
     * buildAgent, buildDisturbance, buildPatch and buildSimulation: the name first (failing when
     * unset, before any cache is touched), then every table.
     */
    method Build() returns (r: Result<BuiltEntity<V>>)
      requires Coherent()
      modifies this`immutableEventHandlerGroups, this`attributesWithoutHandlersBySubstep, this`commonHandlerCache
      modifies this`attributeNameToIndex, this`indexToAttributeName, this`sharedAttributeNames, this`indexedNames
      ensures Coherent() && (old(Current()) ==> Current())
      ensures r.Failure? <==> name.None?
      ensures r.Failure? ==> r.error.kind == IllegalState && unchanged(this)
      ensures r.Success? ==> r.value == BuiltEntity(name.value, eventHandlerGroups,
        AttributeArray(attributes, indexedNames), IndexMap(indexedNames), IndexNames(indexedNames),
        NoHandlerSets(attributes.Keys, eventHandlerGroups), HandlerCache(eventHandlerGroups),
        HandlerNames(eventHandlerGroups))
    {
      var n := GetName();
      if n.Failure? {
        r := Failure(n.error);
      } else {
        var e := BuildNamed(n.value);
        r := Success(e);
      }
    }
  }

  /** Moving one element from the pending to the visited part of a loop over a set. */
  lemma MoveOne<T>(all: set<T>, todo: set<T>, done: set<T>, x: T)
    requires todo !! done && todo + done == all && x in todo
    ensures (todo - {x}) !! (done + {x}) && (todo - {x}) + (done + {x}) == all
  {
  }

  /** The index map m places the names of sorted: each at its position, and nothing else. */
  ghost predicate Places(m: map<string, int>, sorted: seq<string>)
  {
    |m| == |sorted| &&
    (forall i :: 0 <= i < |sorted| ==> sorted[i] in m && m[sorted[i]] == i) &&
    (forall k :: k in m ==> 0 <= m[k] < |sorted| && sorted[m[k]] == k)
  }

  lemma PlacedOnce(m: map<string, int>, sorted: seq<string>, n: string, i: int)
    requires Places(m, sorted) && n in m && 0 <= i < |sorted| && i != m[n]
    ensures sorted[i] != n
  {
  }

  lemma IndexMapPlaces(names: set<string>)
    ensures Places(IndexMap(names), SortedElements(names))
  {
    RankMapAt(SortedElements(names));
    IndexMapDomain(names);
  }

  /** The loop building the index map: the i-th sorted name is put with value i. */
  method IndexMapLoop(names: set<string>) returns (m: map<string, int>)
    ensures m == IndexMap(names)
  {
    var sorted := SortedElements(names);
    m := map[];
    var i := 0;
    while i < |sorted|
      invariant 0 <= i <= |sorted| && StrictlySorted(sorted[..i])
      invariant m == RankMap(sorted[..i])
    {
      RankMapSnoc(sorted, i);
      m := m[sorted[i] := i];
      i := i + 1;
    }
    assert sorted[..i] == sorted;
  }

  /** The array after the names in done have been written to their slots. */
  function NamesWritten(sorted: seq<string>, done: set<string>): seq<Option<string>>
  {
    seq(|sorted|, i requires 0 <= i < |sorted| => if sorted[i] in done then Some(sorted[i]) else None)
  }

  lemma NamesWrittenStep(m: map<string, int>, sorted: seq<string>, done: set<string>, n: string)
    requires Places(m, sorted) && n in m
    ensures NamesWritten(sorted, done + {n}) == NamesWritten(sorted, done)[m[n] := Some(n)]
  {
    forall i | 0 <= i < |sorted| && i != m[n] ensures sorted[i] != n {
      PlacedOnce(m, sorted, n, i);
    }
  }

  /** The loop filling a fresh array of |m| null slots from the entries of the index map m. */
  method FillIndexNames(m: map<string, int>, ghost sorted: seq<string>) returns (r: seq<Option<string>>)
    requires Places(m, sorted)
    ensures r == NamesWritten(sorted, m.Keys)
  {
    var a := new Option<string>[|m|](_ => None);
    var todo := m.Keys;
    ghost var done := {};
    while todo != {}
      invariant todo !! done && todo + done == m.Keys
      invariant a[..] == NamesWritten(sorted, done)
      decreases |todo|
    {
      var n :| n in todo;
      NamesWrittenStep(m, sorted, done, n);
      a[m[n]] := Some(n);
      MoveOne(m.Keys, todo, done, n);
      done, todo := done + {n}, todo - {n};
    }
    r := a[..];
  }

  /** The array after the initial values of the names in done have been written to their slots. */
  function ValuesWritten<V>(sorted: seq<string>, initial: map<string, V>, done: set<string>): seq<Option<V>>
    requires done <= initial.Keys
  {
    seq(|sorted|, i requires 0 <= i < |sorted| => if sorted[i] in done then Some(initial[sorted[i]]) else None)
  }

  lemma ValuesWrittenStep<V>(m: map<string, int>, sorted: seq<string>, initial: map<string, V>, done: set<string>, n: string)
    requires Places(m, sorted) && done <= initial.Keys && n in initial
    ensures n in m ==>
      ValuesWritten(sorted, initial, done + {n}) == ValuesWritten(sorted, initial, done)[m[n] := Some(initial[n])]
    ensures n !in m ==> ValuesWritten(sorted, initial, done + {n}) == ValuesWritten(sorted, initial, done)
  {
    if n in m {
      forall i | 0 <= i < |sorted| && i != m[n] ensures sorted[i] != n {
        PlacedOnce(m, sorted, n, i);
      }
    }
  }

  /** The loop over the initial attributes, writing each value into the slot of its index. */
  method FillAttributes<V>(m: map<string, int>, ghost sorted: seq<string>, initial: map<string, V>)
    returns (r: seq<Option<V>>)
    requires Places(m, sorted)
    ensures r == ValuesWritten(sorted, initial, initial.Keys)
  {
    var a := new Option<V>[|m|](_ => None);
    var todo := initial.Keys;
    ghost var done := {};
    while todo != {}
      invariant todo !! done && todo + done == initial.Keys
      invariant a[..] == ValuesWritten(sorted, initial, done)
      decreases |todo|
    {
      var n :| n in todo;
      ValuesWrittenStep(m, sorted, initial, done, n);
      if n in m {
        a[m[n]] := Some(initial[n]);
      }
      MoveOne(initial.Keys, todo, done, n);
      done, todo := done + {n}, todo - {n};
    }
    r := a[..];
  }

  /** computeIndexToAttributeName's fill of a fresh array, from the index map of names. */
  method IndexNamesLoop(m: map<string, int>, ghost names: set<string>) returns (r: seq<Option<string>>)
    requires m == IndexMap(names)
    ensures r == IndexNames(names)
  {
    IndexMapPlaces(names);
    IndexMapDomain(names);
    r := FillIndexNames(m, SortedElements(names));
    IndexNamesAt(names);
  }

  /** createAttributesArray's fill of a fresh array, from the index map of names. */
  method AttributesLoop<V>(m: map<string, int>, ghost names: set<string>, initial: map<string, V>)
    returns (r: seq<Option<V>>)
    requires m == IndexMap(names)
    ensures r == AttributeArray(initial, names)
  {
    IndexMapPlaces(names);
    r := FillAttributes(m, SortedElements(names), initial);
  }
}

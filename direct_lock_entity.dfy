/**
 * DirectLockMutableEntity: a mutable entity that keeps its attribute values in two arrays
 * indexed through a shared name-to-index map, the values written in the current step and the
 * values of the prior step, and swaps them when it is frozen.
 */
module DirectLockEntities {
  import opened Wrappers
  import opened EntityBuilders

  // ---------------------------------------------------------------------------
  // The shared index map and the two arrays, as values
  // ---------------------------------------------------------------------------

  /** A null collection argument, replaced by an empty one. */
  function OrEmpty<K, W>(m: Option<map<K, W>>): (r: map<K, W>)
    ensures m.None? ==> r == map[]
    ensures m.Some? ==> r == m.value
  {
    if m.Some? then m.value else map[]
  }

  /** Every index the map hands out addresses a slot of an array of length n. */
  predicate InRange(index: map<string, int>, n: int)
  {
    forall k :: k in index ==> index[k] < n
  }

  /** No two names share a slot. */
  predicate Injective(index: map<string, int>)
  {
    forall a, b :: a in index && b in index && a != b && 0 <= index[a] ==> index[a] != index[b]
  }

  /** getAttributeIndex: the index of a name, or -1 for a name the map does not hold. */
  function AttributeIndex(index: map<string, int>, name: string): (r: int)
    ensures name !in index ==> r == -1
    ensures name in index ==> r == index[name]
  {
    if name in index then index[name] else -1
  }

  /** getAttributeValue on the array contents: the current value, else the prior one. */
  function ValueOf<V>(index: map<string, int>, cur: seq<Option<V>>, prior: seq<Option<V>>, name: string): Option<V>
    requires |cur| == |prior| && InRange(index, |cur|)
  {
    var i := AttributeIndex(index, name);
    if i < 0 then None
    else if cur[i].Some? then cur[i]
    else prior[i]
  }

  /**
   * The bookkeeping of onlyOnPrior: it holds exactly the indexed names whose current slot is
   * empty while their prior slot holds a value.
   */
  predicate TrackedBy<V>(index: map<string, int>, cur: seq<Option<V>>, prior: seq<Option<V>>, only: set<string>)
    requires |cur| == |prior| && InRange(index, |cur|)
  {
    (forall k :: k in only ==> k in index && 0 <= index[k]) &&
    (forall k :: k in index && 0 <= index[k] ==>
      (k in only <==> cur[index[k]].None? && prior[index[k]].Some?))
  }

  /** The slots freeze's first loop restores: those of the names in only that have an index. */
  function RestoredSlots(index: map<string, int>, only: set<string>): set<int>
  {
    set k | k in only && k in index && 0 <= index[k] :: index[k]
  }

  /** The current array after the slots in slots have been copied from the prior array. */
  function Restored<V>(cur: seq<Option<V>>, prior: seq<Option<V>>, slots: set<int>): (r: seq<Option<V>>)
    requires |cur| == |prior|
    ensures |r| == |cur|
  {
    seq(|cur|, i requires 0 <= i < |cur| => if i in slots then prior[i] else cur[i])
  }

  /** The names among ks whose slot in prior holds a value. */
  function PriorOnly<V>(index: map<string, int>, prior: seq<Option<V>>, ks: set<string>): set<string>
  {
    set k | k in ks && k in index && 0 <= index[k] < |prior| && prior[index[k]].Some? :: k
  }

  /** The values of the names among ks whose slot in prior holds a value. */
  function FrozenAmong<V>(index: map<string, int>, prior: seq<Option<V>>, ks: set<string>): (r: map<string, V>)
    ensures r.Keys == PriorOnly(index, prior, ks)
  {
    map k | k in PriorOnly(index, prior, ks) :: prior[index[k]].value
  }

  lemma RestoredStep<V>(cur: seq<Option<V>>, prior: seq<Option<V>>, index: map<string, int>, done: set<string>, k: string)
    requires |cur| == |prior| && InRange(index, |cur|)
    ensures k in index && 0 <= index[k] ==>
      Restored(cur, prior, RestoredSlots(index, done + {k})) ==
      Restored(cur, prior, RestoredSlots(index, done))[index[k] := prior[index[k]]]
    ensures !(k in index && 0 <= index[k]) ==>
      RestoredSlots(index, done + {k}) == RestoredSlots(index, done)
  {
    if k in index && 0 <= index[k] {
      assert RestoredSlots(index, done + {k}) == RestoredSlots(index, done) + {index[k]};
    }
  }

  lemma PriorOnlyStep<V>(index: map<string, int>, prior: seq<Option<V>>, done: set<string>, k: string)
    ensures PriorOnly(index, prior, done + {k}) ==
      PriorOnly(index, prior, done) + (if k in index && 0 <= index[k] < |prior| && prior[index[k]].Some? then {k} else {})
  {
  }

  lemma FrozenAmongStep<V>(index: map<string, int>, prior: seq<Option<V>>, done: set<string>, k: string)
    ensures k in index && 0 <= index[k] < |prior| && prior[index[k]].Some? ==>
      FrozenAmong(index, prior, done + {k}) == FrozenAmong(index, prior, done)[k := prior[index[k]].value]
    ensures !(k in index && 0 <= index[k] < |prior| && prior[index[k]].Some?) ==>
      FrozenAmong(index, prior, done + {k}) == FrozenAmong(index, prior, done)
  {
    PriorOnlyStep(index, prior, done, k);
  }

  /**
   * Freezing loses no value: when onlyOnPrior is tracked and no two names share a slot, the
   * restored array, read with an empty current array, gives every name the value it had.
   */
  lemma FreezeKeepsValue<V>(index: map<string, int>, cur: seq<Option<V>>, prior: seq<Option<V>>, only: set<string>, n: string)
    requires |cur| == |prior| && InRange(index, |cur|) && Injective(index) && TrackedBy(index, cur, prior, only)
    ensures ValueOf(index, seq(|cur|, _ => None), Restored(cur, prior, RestoredSlots(index, only)), n) ==
      ValueOf(index, cur, prior, n)
  {
    var i := AttributeIndex(index, n);
    if 0 <= i {
      if i in RestoredSlots(index, only) {
        var k :| k in only && k in index && 0 <= index[k] && index[k] == i;
        assert k == n;
      }
    }
  }

  lemma FreezeKeepsValues<V>(index: map<string, int>, cur: seq<Option<V>>, prior: seq<Option<V>>, only: set<string>)
    requires |cur| == |prior| && InRange(index, |cur|) && Injective(index) && TrackedBy(index, cur, prior, only)
    ensures forall n :: (ValueOf(index, seq(|cur|, _ => None), Restored(cur, prior, RestoredSlots(index, only)), n) ==
      ValueOf(index, cur, prior, n))
  {
    forall n ensures ValueOf(index, seq(|cur|, _ => None), Restored(cur, prior, RestoredSlots(index, only)), n) ==
      ValueOf(index, cur, prior, n)
    {
      FreezeKeepsValue(index, cur, prior, only, n);
    }
  }

  /** With an empty current array, an entity shows exactly the values of its frozen map. */
  lemma FrozenShows<V>(index: map<string, int>, cur: seq<Option<V>>, prior: seq<Option<V>>)
    requires |cur| == |prior| && InRange(index, |prior|) && forall i :: 0 <= i < |cur| ==> cur[i].None?
    ensures forall n :: (ValueOf(index, cur, prior, n) ==
      if n in FrozenAmong(index, prior, index.Keys) then Some(FrozenAmong(index, prior, index.Keys)[n]) else None)
  {
  }

  /** After freezing, the empty current array and the new prior array are tracked by onlyOnPrior. */
  lemma FrozenTracked<V>(index: map<string, int>, cur: seq<Option<V>>, prior: seq<Option<V>>)
    requires |cur| == |prior| && InRange(index, |prior|) && forall i :: 0 <= i < |cur| ==> cur[i].None?
    ensures TrackedBy(index, cur, prior, PriorOnly(index, prior, index.Keys))
  {
  }

  /** An entity with an empty prior array and nothing in onlyOnPrior is tracked. */
  lemma FreshTracked<V>(index: map<string, int>, cur: seq<Option<V>>)
    requires InRange(index, |cur|)
    ensures TrackedBy(index, cur, seq(|cur|, _ => None), {})
  {
  }

  // ---------------------------------------------------------------------------
  // Agreement with the builder
  // ---------------------------------------------------------------------------

  /** computeAttributeNames: the attribute names the handlers of all groups write. */
  function HandlerAttributeNames(groups: map<EventKey, EventHandlerGroup>): set<string>
  {
    NamesAmong(groups, groups.Keys)
  }

  /** The attribute names the handlers of the groups under the keys ks write. */
  function NamesAmong(groups: map<EventKey, EventHandlerGroup>, ks: set<EventKey>): set<string>
  {
    set k, n | k in ks && k in groups && n in GroupNames(groups[k]) :: n
  }

  lemma NamesAmongStep(groups: map<EventKey, EventHandlerGroup>, ks: set<EventKey>, k: EventKey)
    requires k in groups
    ensures NamesAmong(groups, ks + {k}) == NamesAmong(groups, ks) + GroupNames(groups[k])
  {
    forall n | n in NamesAmong(groups, ks + {k}) ensures n in NamesAmong(groups, ks) + GroupNames(groups[k]) {
      var k' :| k' in ks + {k} && k' in groups && n in GroupNames(groups[k']);
      if k' != k {
        assert n in NamesAmong(groups, ks);
      }
    }
  }

  lemma GroupNamesStep(handlers: seq<EventHandler>, j: nat)
    requires j < |handlers|
    ensures (set h | h in handlers[..j + 1] :: h.attributeName) ==
      (set h | h in handlers[..j] :: h.attributeName) + {handlers[j].attributeName}
  {
    assert handlers[..j + 1] == handlers[..j] + [handlers[j]];
  }

  /** The builder's map of groups, all of them non-null. */
  function AsGroups(groups: map<EventKey, EventHandlerGroup>): Groups
  {
    map k | k in groups :: Some(groups[k])
  }

  /** The entity lists the same handler attribute names as the builder's shared name set. */
  lemma HandlerAttributeNamesAgree(groups: map<EventKey, EventHandlerGroup>)
    ensures HandlerAttributeNames(groups) == HandlerNames(AsGroups(groups))
  {
    var g := AsGroups(groups);
    forall n | n in HandlerNames(g) ensures n in HandlerAttributeNames(groups) {
      var k :| k in g && n in Scanned(g, k, None);
    }
    forall n | n in HandlerAttributeNames(groups) ensures n in HandlerNames(g) {
      var k :| k in groups && n in GroupNames(groups[k]);
      assert n in Scanned(g, k, None);
    }
  }

  /**
   * The index map and attribute array a builder hands over fit together: every index addresses
   * a slot of the array and no two names share a slot.
   */
  lemma BuiltIndexFits<V>(initial: map<string, V>, names: set<string>)
    ensures InRange(IndexMap(names), |AttributeArray(initial, names)|)
    ensures Injective(IndexMap(names))
  {
    AttributeArrayAt(initial, names);
    IndexMapPlaces(names);
  }

  /** hasNoHandlers on a builder's no-handler sets. */
  lemma HasNoHandlersMeaning(initial: set<string>, groups: Groups, attribute: string, substep: string)
    ensures HasNoHandlersIn(NoHandlerSets(initial, groups), attribute, substep) <==>
      substep in SUBSTEPS && attribute in initial &&
      forall k :: (k in groups && groups[k].Some? && groups[k].value.eventKey.Some? &&
                   groups[k].value.eventKey.value.event == substep) ==> attribute !in GroupNames(groups[k].value)
  {
    if substep in SUBSTEPS {
      NoHandlerSetsMeaning(initial, groups, substep, attribute);
    }
  }

  /** hasNoHandlers: the precomputed set for the substep holds the name; no set means false. */
  function HasNoHandlersIn(sets: map<string, set<string>>, attribute: string, substep: string): (r: bool)
    ensures r ==> substep in sets
    ensures substep in sets ==> (r <==> attribute in sets[substep])
  {
    substep in sets && attribute in sets[substep]
  }

  // ---------------------------------------------------------------------------
  // The entity
  // ---------------------------------------------------------------------------

  /** The immutable snapshot freeze returns: the name and the visible attribute values. */
  datatype FrozenEntity<V> = FrozenEntity(name: string, attributes: map<string, V>)

  class DirectLockEntity<V> {
    const name: string
    const eventHandlerGroups: map<EventKey, EventHandlerGroup>
    const attributeNameToIndex: map<string, int>
    const attributeNames: set<string>
    const attributesWithoutHandlersBySubstep: map<string, set<string>>
    const commonHandlerCache: Option<map<CacheKey, seq<EventHandlerGroup>>>
    var attributes: array<Option<V>>
    var priorAttributes: array<Option<V>>
    var onlyOnPrior: set<string>
    var substep: Option<string>

    /** The two arrays are distinct, equally long, and every index fits them. */
    ghost predicate Valid()
      reads this
    {
      attributes != priorAttributes && attributes.Length == priorAttributes.Length &&
      InRange(attributeNameToIndex, attributes.Length)
    }

    /** onlyOnPrior names exactly the indexed names visible only through the prior array. */
    ghost predicate Tracked()
      reads this, attributes, priorAttributes
      requires Valid()
    {
      TrackedBy(attributeNameToIndex, attributes[..], priorAttributes[..], onlyOnPrior)
    }

    constructor (name: string, groups: Option<map<EventKey, EventHandlerGroup>>,
                 initial: Option<seq<Option<V>>>, index: Option<map<string, int>>,
                 withoutHandlers: map<string, set<string>>,
                 cache: Option<map<CacheKey, seq<EventHandlerGroup>>>)
      requires InRange(OrEmpty(index), |initial.GetOr([])|)
      ensures Valid() && Tracked()
      ensures this.name == name && eventHandlerGroups == OrEmpty(groups)
      ensures attributeNameToIndex == OrEmpty(index)
      ensures attributes[..] == initial.GetOr([]) && fresh(attributes)
      ensures priorAttributes[..] == seq(attributes.Length, _ => None) && fresh(priorAttributes)
      ensures onlyOnPrior == {} && substep == None
      ensures attributeNames == HandlerAttributeNames(eventHandlerGroups)
      ensures attributesWithoutHandlersBySubstep == withoutHandlers && commonHandlerCache == cache
    {
      this.name := name;
      eventHandlerGroups := OrEmpty(groups);
      attributeNameToIndex := OrEmpty(index);
      var values := initial.GetOr([]);
      attributes := new Option<V>[|values|](i requires 0 <= i < |values| => values[i]);
      priorAttributes := new Option<V>[|values|](_ => None);
      onlyOnPrior := {};
      substep := None;
      var names := CollectHandlerNames(OrEmpty(groups));
      attributeNames := names;
      attributesWithoutHandlersBySubstep := withoutHandlers;
      commonHandlerCache := cache;
      new;
      assert attributes[..] == values;
      FreshTracked(attributeNameToIndex, attributes[..]);
    }

    function GetName(): (r: string)
      ensures r == name
    {
      name
    }

    /** getEventHandlers(key): the group under the key, if any. */
    function GetEventHandlers(key: EventKey): (r: Option<EventHandlerGroup>)
      ensures r.Some? <==> key in eventHandlerGroups
      ensures r.Some? ==> r.value == eventHandlerGroups[key]
    {
      if key in eventHandlerGroups then Some(eventHandlerGroups[key]) else None
    }

    /** getAttributeValue: empty for an unknown name, else the current value or the prior one. */
    function GetAttributeValue(name: string): (r: Option<V>)
      reads this, attributes, priorAttributes
      requires Valid()
      ensures r.Some? ==> name in attributeNameToIndex && 0 <= attributeNameToIndex[name]
    {
      ValueOf(attributeNameToIndex, attributes[..], priorAttributes[..], name)
    }

    /**
     * setAttributeValue: ignored for an unknown name; otherwise the value goes to the current
     * array and the name leaves onlyOnPrior. Names in other slots read as before.
     */
    method SetAttributeValue(name: string, value: V)
      requires Valid()
      modifies this`onlyOnPrior, attributes
      ensures Valid()
      ensures AttributeIndex(attributeNameToIndex, name) < 0 ==>
        onlyOnPrior == old(onlyOnPrior) && attributes[..] == old(attributes[..])
      ensures 0 <= AttributeIndex(attributeNameToIndex, name) ==>
        onlyOnPrior == old(onlyOnPrior) - {name} &&
        attributes[..] == old(attributes[..])[attributeNameToIndex[name] := Some(value)]
      ensures 0 <= AttributeIndex(attributeNameToIndex, name) ==> GetAttributeValue(name) == Some(value)
      ensures forall m :: AttributeIndex(attributeNameToIndex, m) != AttributeIndex(attributeNameToIndex, name) ==>
        GetAttributeValue(m) == old(GetAttributeValue(m))
      ensures Injective(attributeNameToIndex) && old(Tracked()) ==> Tracked()
    {
      var index := AttributeIndex(attributeNameToIndex, name);
      if index < 0 {
        return;
      }
      onlyOnPrior := onlyOnPrior - {name};
      attributes[index] := Some(value);
    }

    /**
     * freeze: copies the prior values of the names in onlyOnPrior into the current array, makes
     * that array the prior one, starts an empty current array, recomputes onlyOnPrior and returns
     * the values the entity now shows.
     */
    method Freeze() returns (f: FrozenEntity<V>)
      requires Valid()
      modifies this`attributes, this`priorAttributes, this`onlyOnPrior, attributes
      ensures Valid() && Tracked()
      ensures priorAttributes == old(attributes) && fresh(attributes)
      ensures priorAttributes[..] ==
        Restored(old(attributes[..]), old(priorAttributes[..]), RestoredSlots(attributeNameToIndex, old(onlyOnPrior)))
      ensures attributes[..] == seq(priorAttributes.Length, _ => None)
      ensures onlyOnPrior == PriorOnly(attributeNameToIndex, priorAttributes[..], attributeNameToIndex.Keys)
      ensures f.name == name && f.attributes == FrozenAmong(attributeNameToIndex, priorAttributes[..], attributeNameToIndex.Keys)
      ensures f.attributes.Keys == onlyOnPrior
      ensures forall n :: GetAttributeValue(n) == if n in f.attributes then Some(f.attributes[n]) else None
      ensures Injective(attributeNameToIndex) && old(Tracked()) ==>
        forall n :: GetAttributeValue(n) == old(GetAttributeValue(n))
    {
      ghost var cur, prior := attributes[..], priorAttributes[..];
      RestorePriorOnly(attributes, priorAttributes, attributeNameToIndex, onlyOnPrior);
      assert attributes[..] == Restored(cur, prior, RestoredSlots(attributeNameToIndex, onlyOnPrior));
      priorAttributes := attributes;
      attributes := new Option<V>[priorAttributes.Length](_ => None);
      var only := PriorOnlyLoop(attributeNameToIndex, priorAttributes[..]);
      onlyOnPrior := only;
      var frozen := FrozenLoop(attributeNameToIndex, priorAttributes[..]);
      f := FrozenEntity(name, frozen);
      ghost var empty, restored := attributes[..], priorAttributes[..];
      assert empty == seq(priorAttributes.Length, _ => None);
      FrozenTracked(attributeNameToIndex, empty, restored);
      FrozenShows(attributeNameToIndex, empty, restored);
      if Injective(attributeNameToIndex) && TrackedBy(attributeNameToIndex, cur, prior, old(onlyOnPrior)) {
        FreezeKeepsValues(attributeNameToIndex, cur, prior, old(onlyOnPrior));
        assert forall n :: ValueOf(attributeNameToIndex, empty, restored, n) == ValueOf(attributeNameToIndex, cur, prior, n);
      }
    }

    function GetAttributeNames(): (r: set<string>)
      ensures r == attributeNames
    {
      attributeNames
    }

    /** startSubstep: refused with IllegalStateException while another substep is active. */
    method StartSubstep(name: string) returns (err: Option<Error>)
      modifies this`substep
      ensures err.Some? <==> old(substep).Some?
      ensures err.Some? ==> err.value.kind == IllegalState && substep == old(substep)
      ensures err.None? ==> substep == Some(name)
    {
      if substep.Some? {
        return Some(Error(IllegalState, "Cannot start " + substep.value + " before " + name + " is completed."));
      }
      substep := Some(name);
      err := None;
    }

    method EndSubstep()
      modifies this`substep
      ensures substep == None
    {
      substep := None;
    }

    function GetSubstep(): (r: Option<string>)
      reads this
      ensures r == substep
    {
      substep
    }

    /** hasNoHandlers: whether the precomputed set of the substep holds the attribute. */
    function HasNoHandlers(attribute: string, substep: string): (r: bool)
      ensures r <==> substep in attributesWithoutHandlersBySubstep && attribute in attributesWithoutHandlersBySubstep[substep]
    {
      HasNoHandlersIn(attributesWithoutHandlersBySubstep, attribute, substep)
    }

    /** getCommonHandlerCache: the shared cache, or an empty one when none was given. */
    function GetCommonHandlerCache(): (r: map<CacheKey, seq<EventHandlerGroup>>)
      ensures commonHandlerCache.None? ==> r == map[]
      ensures commonHandlerCache.Some? ==> r == commonHandlerCache.value
    {
      OrEmpty(commonHandlerCache)
    }
  }

  // ---------------------------------------------------------------------------
  // The loops of the constructor and of freeze
  // ---------------------------------------------------------------------------

  /** computeAttributeNames: the nested loop over the groups and their handlers. */
  method CollectHandlerNames(groups: map<EventKey, EventHandlerGroup>) returns (names: set<string>)
    ensures names == HandlerAttributeNames(groups)
  {
    names := {};
    var todo := groups.Keys;
    ghost var done: set<EventKey> := {};
    while todo != {}
      invariant todo !! done && todo + done == groups.Keys
      invariant names == NamesAmong(groups, done)
      decreases |todo|
    {
      var k :| k in todo;
      var handlers := groups[k].handlers;
      var j := 0;
      ghost var before := names;
      while j < |handlers|
        invariant 0 <= j <= |handlers|
        invariant names == before + set h | h in handlers[..j] :: h.attributeName
      {
        GroupNamesStep(handlers, j);
        names := names + {handlers[j].attributeName};
        j := j + 1;
      }
      assert handlers[..j] == handlers;
      NamesAmongStep(groups, done, k);
      MoveOne(groups.Keys, todo, done, k);
      done, todo := done + {k}, todo - {k};
    }
  }

  /** freeze's first loop: each name of only that has an index gets its prior value back. */
  method RestorePriorOnly<V>(a: array<Option<V>>, prior: array<Option<V>>, index: map<string, int>, only: set<string>)
    requires a != prior && a.Length == prior.Length && InRange(index, a.Length)
    modifies a
    ensures a[..] == Restored(old(a[..]), prior[..], RestoredSlots(index, only))
  {
    ghost var cur := a[..];
    var todo := only;
    ghost var done := {};
    assert Restored(cur, prior[..], RestoredSlots(index, {})) == cur;
    while todo != {}
      invariant todo !! done && todo + done == only
      invariant a[..] == Restored(cur, prior[..], RestoredSlots(index, done))
      decreases |todo|
    {
      var k :| k in todo;
      RestoredStep(cur, prior[..], index, done, k);
      var i := AttributeIndex(index, k);
      if i >= 0 {
        a[i] := prior[i];
      }
      MoveOne(only, todo, done, k);
      done, todo := done + {k}, todo - {k};
    }
  }

  /** freeze's second loop: the indexed names whose prior slot holds a value. */
  method PriorOnlyLoop<V>(index: map<string, int>, prior: seq<Option<V>>) returns (only: set<string>)
    ensures only == PriorOnly(index, prior, index.Keys)
  {
    only := {};
    var todo := index.Keys;
    ghost var done := {};
    while todo != {}
      invariant todo !! done && todo + done == index.Keys
      invariant only == PriorOnly(index, prior, done)
      decreases |todo|
    {
      var k :| k in todo;
      PriorOnlyStep(index, prior, done, k);
      var i := AttributeIndex(index, k);
      if 0 <= i < |prior| && prior[i].Some? {
        only := only + {k};
      }
      MoveOne(index.Keys, todo, done, k);
      done, todo := done + {k}, todo - {k};
    }
  }

  /** freeze's third loop: the frozen map of every indexed name whose prior slot holds a value. */
  method FrozenLoop<V>(index: map<string, int>, prior: seq<Option<V>>) returns (frozen: map<string, V>)
    ensures frozen == FrozenAmong(index, prior, index.Keys)
  {
    frozen := map[];
    var todo := index.Keys;
    ghost var done := {};
    while todo != {}
      invariant todo !! done && todo + done == index.Keys
      invariant frozen == FrozenAmong(index, prior, done)
      decreases |todo|
    {
      var k :| k in todo;
      FrozenAmongStep(index, prior, done, k);
      var i := index[k];
      if 0 <= i < |prior| {
        var value := prior[i];
        if value.Some? {
          frozen := frozen[k := value.value];
        }
      }
      MoveOne(index.Keys, todo, done, k);
      done, todo := done + {k}, todo - {k};
    }
  }
}

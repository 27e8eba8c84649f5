/**
 * EngineValueTuple: the pair of operands of a binary operation, with the pair of their language
 * types and the pair of their units, and the rules for when the two operands can be combined
 * without a cast or a conversion.
 */
module EngineValueTuples {
  import opened UnitsAlgebra

  /** A LanguageType as the tuple sees it: a name and the root type that decides compatibility. */
  datatype LanguageType = LanguageType(name: string, rootType: string)

  /** An engine value reduced to its type, its units and a tag standing for its payload. */
  datatype EngineValue = EngineValue(languageType: LanguageType, units: Units, tag: int)

  // ---------------------------------------------------------------------------
  // TypesTuple
  // ---------------------------------------------------------------------------

  datatype TypesTuple = TypesTuple(first: LanguageType, second: LanguageType)

  /** TypesTuple.getAreCompatible: the root types are equal. */
  predicate TypesCompatible(t: TypesTuple)
  {
    t.first.rootType == t.second.rootType
  }

  /** toRootString: both root types joined by ",". */
  function RootString(t: TypesTuple): (s: string)
    ensures |s| == |t.first.rootType| + 1 + |t.second.rootType|
    ensures s[|t.first.rootType|] == ','
  {
    t.first.rootType + "," + t.second.rootType
  }

  /** TypesTuple.equals compares root strings. */
  predicate TypesTupleEquals(a: TypesTuple, b: TypesTuple)
  {
    RootString(a) == RootString(b)
  }

  /** With no ',' inside a first root type, equal root strings mean equal root types in both places. */
  lemma TypesTupleEqualsIffRoots(a: TypesTuple, b: TypesTuple)
    requires ',' !in a.first.rootType && ',' !in b.first.rootType
    ensures TypesTupleEquals(a, b) <==>
      a.first.rootType == b.first.rootType && a.second.rootType == b.second.rootType
  {
    var x, y := a.first.rootType, b.first.rootType;
    if RootString(a) == RootString(b) {
      if |x| != |y| {
        assert false;
      }
      assert x == RootString(a)[..|x|] && y == RootString(b)[..|y|];
      assert a.second.rootType == RootString(a)[|x| + 1..];
      assert b.second.rootType == RootString(b)[|y| + 1..];
    }
  }

  // ---------------------------------------------------------------------------
  // UnitsTuple
  // ---------------------------------------------------------------------------

  datatype UnitsTuple = UnitsTuple(first: Units, second: Units)

  /**
   * Character.isWhitespace: the space, line and paragraph separators other than the non-breaking
   * ones, and the controls tab, line feed, vertical tab, form feed, carriage return and
   * U+001C to U+001F.
   */
  predicate IsWhitespace(c: char)
  {
    '\t' <= c <= '\r' || '\U{001C}' <= c <= ' ' ||
    c == '\U{1680}' || '\U{2000}' <= c <= '\U{2006}' || '\U{2008}' <= c <= '\U{200A}' ||
    c == '\U{2028}' || c == '\U{2029}' || c == '\U{205F}' || c == '\U{3000}'
  }

  /** String.isBlank: empty or only whitespace. */
  predicate IsBlank(s: string)
  {
    forall i :: 0 <= i < |s| ==> IsWhitespace(s[i])
  }

  /** UnitsTuple.getAreCompatible: equal units, or units on either side that print as blank. */
  predicate UnitsCompatible(t: UnitsTuple)
  {
    if Equal(t.first, t.second) then true
    else if IsBlank(ToString(t.first)) then true
    else if IsBlank(ToString(t.second)) then true
    else false
  }

  /** Units compatibility in one line: equal, or either side blank. */
  lemma UnitsCompatibleMeaning(t: UnitsTuple)
    ensures UnitsCompatible(t) <==>
      ToString(t.first) == ToString(t.second) || IsBlank(ToString(t.first)) || IsBlank(ToString(t.second))
  {
  }

  /** Units without any factor, like Units.EMPTY, are compatible with any units on either side. */
  lemma EmptyUnitsCompatible(u: Units, v: Units)
    requires u.numerator == map[] && u.denominator == map[]
    ensures UnitsCompatible(UnitsTuple(u, v)) && UnitsCompatible(UnitsTuple(v, u))
  {
    assert ToString(u) == "" by {
      assert Factors(u.numerator) == [] && Factors(u.denominator) == [];
    }
  }

  // ---------------------------------------------------------------------------
  // Cache keys
  // ---------------------------------------------------------------------------

  /**
   * A Java int as a long holds: a 64-bit pattern whose upper 33 bits are all equal. Identity
   * hashes are ints, and the key arithmetic starts by widening them to longs.
   */
  predicate IsInt(h: bv64)
  {
    h >> 31 == 0 || h >> 31 == 0x1_FFFF_FFFF
  }

  /** (long) (int) x: the low 32 bits of x with bit 31 copied into the upper half. */
  function LowInt(x: bv64): bv64
  {
    if x & 0x8000_0000 == 0 then x & 0xFFFF_FFFF else x | 0xFFFF_FFFF_0000_0000
  }

  /** computeTypesCacheKey / computUnitsCacheKey: ((long) first << 32) | (second & 0xFFFFFFFFL). */
  function CacheKey(firstHash: bv64, secondHash: bv64): bv64
  {
    (firstHash << 32) | (secondHash & 0xFFFF_FFFF)
  }

  /** The int in the high 32 bits of the key. */
  function HighHash(key: bv64): (h: bv64)
    ensures IsInt(h)
  {
    LowInt(key >> 32)
  }

  /** The int in the low 32 bits of the key. */
  function LowHash(key: bv64): (h: bv64)
    ensures IsInt(h)
  {
    LowInt(key)
  }

  lemma HighBits(a: bv64, b: bv64)
    requires a >> 31 == 0 || a >> 31 == 0x1_FFFF_FFFF
    ensures var k := ((a << 32) | (b & 0xFFFF_FFFF)) >> 32;
      (if k & 0x8000_0000 == 0 then k & 0xFFFF_FFFF else k | 0xFFFF_FFFF_0000_0000) == a
  {
  }

  lemma LowBits(a: bv64, b: bv64)
    requires b >> 31 == 0 || b >> 31 == 0x1_FFFF_FFFF
    ensures var k := (a << 32) | (b & 0xFFFF_FFFF);
      (if k & 0x8000_0000 == 0 then k & 0xFFFF_FFFF else k | 0xFFFF_FFFF_0000_0000) == b
  {
  }

  /** The first hash is in the high 32 bits and the second in the low 32 bits, and both decode back. */
  lemma CacheKeyDecodes(firstHash: bv64, secondHash: bv64)
    requires IsInt(firstHash) && IsInt(secondHash)
    ensures HighHash(CacheKey(firstHash, secondHash)) == firstHash
    ensures LowHash(CacheKey(firstHash, secondHash)) == secondHash
  {
    HighBits(firstHash, secondHash);
    LowBits(firstHash, secondHash);
  }

  /** Different pairs of ints give different keys. */
  lemma CacheKeyInjective(a: bv64, b: bv64, c: bv64, d: bv64)
    requires IsInt(a) && IsInt(b) && IsInt(c) && IsInt(d)
    ensures CacheKey(a, b) == CacheKey(c, d) <==> a == c && b == d
  {
    CacheKeyDecodes(a, b);
    CacheKeyDecodes(c, d);
  }

  // ---------------------------------------------------------------------------
  // The nested-tuple caches
  // ---------------------------------------------------------------------------

  /** A Long key of the caches. */
  datatype LongKey = LongKey(bits: bv64)

  /**
   * UNITS_TUPLE_CACHE with computeIfAbsent, keyed by the identity hashes of the two units. The
   * identity hash is a parameter, and nothing makes it injective.
   */
  function UnitsTupleFromCache(cache: map<LongKey, UnitsTuple>, hash: Units -> bv64, first: Units, second: Units)
    : (r: (UnitsTuple, map<LongKey, UnitsTuple>))
    ensures var key := LongKey(CacheKey(hash(first), hash(second)));
      key in r.1 && r.1[key] == r.0 &&
      (key in cache ==> r == (cache[key], cache)) &&
      (key !in cache ==> r == (UnitsTuple(first, second), cache[key := UnitsTuple(first, second)]))
  {
    var key := LongKey(CacheKey(hash(first), hash(second)));
    if key in cache then (cache[key], cache)
    else (UnitsTuple(first, second), cache[key := UnitsTuple(first, second)])
  }

  /** Every entry sits at the key of the hashes of its own units. */
  predicate CacheConsistent(cache: map<LongKey, UnitsTuple>, hash: Units -> bv64)
  {
    forall k :: k in cache ==> k == LongKey(CacheKey(hash(cache[k].first), hash(cache[k].second)))
  }

  /** The units a lookup can compare: the two requested ones and those of every cached tuple. */
  function InPlay(cache: map<LongKey, UnitsTuple>, first: Units, second: Units): (s: set<Units>)
    ensures first in s && second in s
    ensures forall k :: k in cache ==> cache[k].first in s && cache[k].second in s
  {
    {first, second} + (set k | k in cache :: cache[k].first) + (set k | k in cache :: cache[k].second)
  }

  /**
   * While the identity hash tells apart the units in play (the requested pair and those already
   * cached), the cache hands back the tuple that was asked for.
   */
  lemma CacheCorrectWhenHashInjective(cache: map<LongKey, UnitsTuple>, hash: Units -> bv64, first: Units, second: Units)
    requires CacheConsistent(cache, hash)
    requires forall u :: u in InPlay(cache, first, second) ==> IsInt(hash(u))
    requires forall u, v :: u in InPlay(cache, first, second) && v in InPlay(cache, first, second) && hash(u) == hash(v) ==> u == v
    ensures UnitsTupleFromCache(cache, hash, first, second).0 == UnitsTuple(first, second)
    ensures CacheConsistent(UnitsTupleFromCache(cache, hash, first, second).1, hash)
  {
    var key := LongKey(CacheKey(hash(first), hash(second)));
    if key in cache {
      var t := cache[key];
      assert t.first in InPlay(cache, first, second) && t.second in InPlay(cache, first, second);
      CacheKeyInjective(hash(t.first), hash(t.second), hash(first), hash(second));
    }
  }

  /** The requires of CacheCorrectWhenHashInjective can be met: meters hash to 1, other units to 2. */
  lemma InjectiveHashExists()
    ensures var hash := (u: Units) => if u == METERS then 1 as bv64 else 2 as bv64;
      CacheConsistent(map[], hash) &&
      (forall u :: u in InPlay(map[], METERS, SECONDS) ==> IsInt(hash(u))) &&
      (forall u, v :: u in InPlay(map[], METERS, SECONDS) && v in InPlay(map[], METERS, SECONDS) && hash(u) == hash(v) ==> u == v)
  {
    var hash := (u: Units) => if u == METERS then 1 as bv64 else 2 as bv64;
    assert InPlay(map[], METERS, SECONDS) == {METERS, SECONDS};
    assert "meters" in METERS.numerator && "meters" !in SECONDS.numerator;
  }

  const METERS: Units := Units(map["meters" := 1], map[])
  const SECONDS: Units := Units(map["seconds" := 1], map[])

  /**
   * Two units objects whose identity hashes collide share a cache entry: once the tuple of meters
   * and seconds is cached, asking for seconds and seconds hands back meters and seconds.
   */
  lemma IdentityHashCollision()
    ensures var hash := (u: Units) => 7 as bv64;
      var (t1, c1) := UnitsTupleFromCache(map[], hash, METERS, SECONDS);
      var (t2, c2) := UnitsTupleFromCache(c1, hash, SECONDS, SECONDS);
      t2 == UnitsTuple(METERS, SECONDS) && t2 != UnitsTuple(SECONDS, SECONDS)
  {
    var hash := (u: Units) => 7 as bv64;
    var key := LongKey(CacheKey(hash(METERS), hash(SECONDS)));
    assert hash(SECONDS) == hash(METERS);
    var r1 := UnitsTupleFromCache(map[], hash, METERS, SECONDS);
    assert r1.1 == map[key := UnitsTuple(METERS, SECONDS)];
    var r2 := UnitsTupleFromCache(r1.1, hash, SECONDS, SECONDS);
    assert r2.0 == UnitsTuple(METERS, SECONDS);
    assert "meters" in METERS.numerator && "meters" !in SECONDS.numerator;
  }

  /** The cache keyed by the units themselves, which always returns the requested tuple. */
  function UnitsTupleFromCacheCorrected(cache: map<(Units, Units), UnitsTuple>, first: Units, second: Units)
    : (r: (UnitsTuple, map<(Units, Units), UnitsTuple>))
    requires forall k :: k in cache ==> cache[k] == UnitsTuple(k.0, k.1)
    ensures r.0 == UnitsTuple(first, second)
    ensures (first, second) in r.1 && forall k :: k in r.1 ==> r.1[k] == UnitsTuple(k.0, k.1)
  {
    if (first, second) in cache then (cache[(first, second)], cache)
    else (UnitsTuple(first, second), cache[(first, second) := UnitsTuple(first, second)])
  }

  // ---------------------------------------------------------------------------
  // EngineValueTuple
  // ---------------------------------------------------------------------------

  datatype EngineValueTuple = EngineValueTuple(first: EngineValue, second: EngineValue, types: TypesTuple, units: UnitsTuple)

  /** EngineValueTuple.of: the operands with the pairs of their types and units. */
  function Of(first: EngineValue, second: EngineValue): (t: EngineValueTuple)
    ensures t.first == first && t.second == second
    ensures t.types == TypesTuple(first.languageType, second.languageType)
    ensures t.units == UnitsTuple(first.units, second.units)
  {
    var units := UnitsTupleFromCacheCorrected(map[], first.units, second.units).0;
    EngineValueTuple(first, second, TypesTuple(first.languageType, second.languageType), units)
  }

  /** getAreCompatible: both the types and the units are compatible. */
  predicate AreCompatible(t: EngineValueTuple)
  {
    TypesCompatible(t.types) && UnitsCompatible(t.units)
  }

  /** reverse: the operands swapped. */
  function Reverse(t: EngineValueTuple): (r: EngineValueTuple)
    ensures r.first == t.second && r.second == t.first
  {
    Of(t.second, t.first)
  }

  /** Reversing twice gives back the tuple, and reversing keeps compatibility. */
  lemma ReverseInvolution(first: EngineValue, second: EngineValue)
    ensures Reverse(Reverse(Of(first, second))) == Of(first, second)
    ensures AreCompatible(Reverse(Of(first, second))) <==> AreCompatible(Of(first, second))
  {
  }
}

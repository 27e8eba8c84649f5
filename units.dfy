/**
 * The units algebra of the engine (engine/value/converter/Units.java): a unit description
 * such as "m * m / s" is a map from unit name to exponent above the fraction bar and one
 * below it.  Descriptions are parsed into those maps, multiplied, divided, inverted, raised
 * to a power and simplified, and units are equal exactly when their canonical strings are.
 * Parsed-and-simplified units are memoised in a cache keyed by description.
 */
module UnitsAlgebra {
  import opened Wrappers
  import opened Strings

  /** Exponent per unit name (Java Map<String, Long>; the 64-bit width is not modelled). */
  type Counts = map<string, int>

  datatype Units = Units(numerator: Counts, denominator: Counts)

  const FACTOR_DELIMITERS: set<char> := {' ', '*'}
  const FACTOR_SEPARATOR: string := " * "
  const FRACTION_BAR: string := " / "
  const EMPTY: Units := Units(map[], map[])

  predicate IsFormOfCount(unit: string)
  {
    unit == "count" || unit == "counts"
  }

  function Get(m: Counts, k: string): int
  {
    if k in m then m[k] else 0
  }

  /** The net exponent of a unit name: numerator count minus denominator count. */
  function Net(u: Units, k: string): int
  {
    Get(u.numerator, k) - Get(u.denominator, k)
  }

  // ---------------------------------------------------------------------------
  // Parsing (Units(String) and parseMultiplyString)
  // ---------------------------------------------------------------------------

  /** The counts the tokens of one side of a description stand for: every factor that is
      not a form of count, with its number of occurrences. */
  function FactorCounts(tokens: seq<string>): Counts
  {
    map w | w in tokens && !IsFormOfCount(w) :: multiset(tokens)[w]
  }

  lemma FactorCountsSnoc(tokens: seq<string>, w: string)
    ensures FactorCounts(tokens + [w]) ==
      if IsFormOfCount(w) then FactorCounts(tokens)
      else FactorCounts(tokens)[w := Get(FactorCounts(tokens), w) + 1]
  {
    var before := FactorCounts(tokens);
    var after := FactorCounts(tokens + [w]);
    assert multiset(tokens + [w]) == multiset(tokens) + multiset{w};
    forall x ensures x in after <==> x in tokens + [w] && !IsFormOfCount(x) {
    }
    if !IsFormOfCount(w) {
      var expected := before[w := Get(before, w) + 1];
      assert after.Keys == expected.Keys;
      forall x | x in after ensures after[x] == expected[x] {
        if x == w {
          assert Get(before, w) == multiset(tokens)[w];
        }
      }
    } else {
      assert after.Keys == before.Keys;
    }
  }

  /** parseMultiplyString: tokenize on ' ' and '*' and count the factors. */
  method ParseMultiplyString(target: string) returns (counts: Counts)
    ensures counts == FactorCounts(Tokens(target, FACTOR_DELIMITERS))
  {
    var tokens := Tokens(target, FACTOR_DELIMITERS);
    counts := CountFactors(tokens);
  }

  /** The loop of parseMultiplyString over the tokens, adding one per factor into a map. */
  method CountFactors(tokens: seq<string>) returns (counts: Counts)
    ensures counts == FactorCounts(tokens)
  {
    counts := map[];
    var i := 0;
    while i < |tokens|
      invariant 0 <= i <= |tokens|
      invariant counts == FactorCounts(tokens[..i])
    {
      var unit := tokens[i];
      assert tokens[..i + 1] == tokens[..i] + [unit];
      FactorCountsSnoc(tokens[..i], unit);
      if !IsFormOfCount(unit) {
        counts := counts[unit := Get(counts, unit) + 1];
      }
      i := i + 1;
    }
    assert tokens[..i] == tokens;
  }

  /** The numerator and denominator text of a description, or the error the constructor throws. */
  function SplitFraction(description: string): (r: Result<(string, string)>)
    ensures !Contains(description, FRACTION_BAR) ==> r == Success((description, ""))
    ensures r.Failure? ==> r.error.kind in {IllegalArgument, IndexOutOfBounds}
  {
    if Contains(description, FRACTION_BAR) then
      var pieces := JavaSplit(description, FRACTION_BAR);
      if |pieces| > 2 then
        Failure(Error(IllegalArgument, "No more than one numerator and denominator allowed: " + description))
      else if |pieces| == 0 then
        Failure(Error(IndexOutOfBounds, "Index 0 out of bounds for length 0"))
      else
        Success((pieces[0], if |pieces| > 1 then pieces[1] else ""))
    else
      Success((description, ""))
  }

  /** new Units(description): the unsimplified units a description denotes. */
  function Parse(description: string): Result<Units>
  {
    match SplitFraction(description)
    case Failure(e) => Failure(e)
    case Success((num, den)) =>
      Success(Units(FactorCounts(Tokens(num, FACTOR_DELIMITERS)), FactorCounts(Tokens(den, FACTOR_DELIMITERS))))
  }

  /** Units.of(description) on a cache miss: parse, then simplify. */
  function OfDescription(description: string): Result<Units>
  {
    match Parse(description)
    case Failure(e) => Failure(e)
    case Success(u) => Success(Simplified(u))
  }

  method ParseAndSimplify(description: string) returns (r: Result<Units>)
    ensures r == OfDescription(description)
  {
    var split := SplitFraction(description);
    if split.Failure? {
      return Failure(split.error);
    }
    var num := ParseMultiplyString(split.value.0);
    var den := ParseMultiplyString(split.value.1);
    var simplified := Simplify(Units(num, den));
    return Success(simplified);
  }

  // ---------------------------------------------------------------------------
  // Simplification
  // ---------------------------------------------------------------------------

  /** What is left of side a after cancelling side b, looking only at the names in done:
      a name only in a keeps its count, a shared name keeps a positive difference. */
  function SurplusOver(a: Counts, b: Counts, done: set<string>): Counts
  {
    map k | k in a && k in done && (k !in b || a[k] - b[k] > 0) :: if k in b then a[k] - b[k] else a[k]
  }

  function Surplus(a: Counts, b: Counts): Counts
  {
    SurplusOver(a, b, a.Keys)
  }

  /** simplify(): when both sides are non-empty, a shared name keeps its net exponent on the
      side where it is positive and disappears when it is zero; other names stay put. */
  function Simplified(u: Units): (r: Units)
    ensures forall k :: Net(r, k) == Net(u, k)
    ensures |u.numerator| > 0 && |u.denominator| > 0 ==>
      (forall k :: !(k in r.numerator && k in r.denominator))
    ensures |u.numerator| == 0 || |u.denominator| == 0 ==> r == u
  {
    if |u.numerator| == 0 || |u.denominator| == 0 then u
    else Units(Surplus(u.numerator, u.denominator), Surplus(u.denominator, u.numerator))
  }

  lemma SurplusStep(a: Counts, b: Counts, done: set<string>, k: string)
    requires k in a && k !in done
    ensures SurplusOver(a, b, done + {k}) ==
      if k !in b then SurplusOver(a, b, done)[k := a[k]]
      else if a[k] - b[k] > 0 then SurplusOver(a, b, done)[k := a[k] - b[k]]
      else SurplusOver(a, b, done)
  {
  }

  method Simplify(u: Units) returns (r: Units)
    ensures r == Simplified(u)
  {
    if |u.numerator| == 0 || |u.denominator| == 0 {
      return u;
    }
    var n := u.numerator;
    var d := u.denominator;
    var newNum, newDen := CancelShared(n, d);
    assert d.Keys * n.Keys == n.Keys * d.Keys;
    newNum := KeepUnshared(n, d, newNum);
    newDen := KeepUnshared(d, n, newDen);
    r := Units(newNum, newDen);
  }

  /** The first loop of simplify(): the net count of every name on both sides goes to the
      side where it is positive, or nowhere when it is zero. */
  method CancelShared(n: Counts, d: Counts) returns (newNum: Counts, newDen: Counts)
    ensures newNum == SurplusOver(n, d, n.Keys * d.Keys)
    ensures newDen == SurplusOver(d, n, n.Keys * d.Keys)
  {
    newNum := map[];
    newDen := map[];
    var shared := n.Keys * d.Keys;
    ghost var sharedAll := shared;
    while shared != {}
      invariant shared <= sharedAll
      invariant newNum == SurplusOver(n, d, sharedAll - shared)
      invariant newDen == SurplusOver(d, n, sharedAll - shared)
      decreases |shared|
    {
      var k :| k in shared;
      SurplusStep(n, d, sharedAll - shared, k);
      SurplusStep(d, n, sharedAll - shared, k);
      var net := n[k] - d[k];
      if net > 0 {
        newNum := newNum[k := net];
      } else if net < 0 {
        newDen := newDen[k := -net];
      }
      assert sharedAll - (shared - {k}) == (sharedAll - shared) + {k};
      shared := shared - {k};
    }
  }

  /** The second and third loops of simplify(): names on one side only are copied over. */
  method KeepUnshared(a: Counts, b: Counts, acc: Counts) returns (r: Counts)
    requires acc == SurplusOver(a, b, a.Keys * b.Keys)
    ensures r == Surplus(a, b)
  {
    r := acc;
    var only := a.Keys - b.Keys;
    while only != {}
      invariant only <= a.Keys - b.Keys
      invariant forall k :: k in r <==> k in Surplus(a, b) && k !in only
      invariant forall k :: k in r ==> r[k] == Surplus(a, b)[k]
      decreases |only|
    {
      var k :| k in only;
      r := r[k := a[k]];
      only := only - {k};
    }
    SameMaps(r, Surplus(a, b));
  }

  lemma SameMaps(m: Counts, n: Counts)
    requires forall k :: k in m <==> k in n
    requires forall k :: k in m ==> m[k] == n[k]
    ensures m == n
  {
  }

  // ---------------------------------------------------------------------------
  // invert, multiply, divide, raiseToPower
  // ---------------------------------------------------------------------------

  /** invert(): numerator and denominator swap places, nothing is simplified. */
  function Inverted(u: Units): (r: Units)
    ensures forall k :: Net(r, k) == -Net(u, k)
  {
    Units(u.denominator, u.numerator)
  }

  function AddCounts(a: Counts, b: Counts): (r: Counts)
    ensures forall k :: Get(r, k) == Get(a, k) + Get(b, k)
  {
    map k | k in a.Keys + b.Keys :: Get(a, k) + Get(b, k)
  }

  /** multiply(): exponents add per name on each side, then the result is simplified. */
  function Multiplied(a: Units, b: Units): (r: Units)
    ensures forall k :: Net(r, k) == Net(a, k) + Net(b, k)
  {
    Simplified(Units(AddCounts(a.numerator, b.numerator), AddCounts(a.denominator, b.denominator)))
  }

  /** divide(other) is multiply(other.invert()). */
  function Divided(a: Units, b: Units): (r: Units)
    ensures forall k :: Net(r, k) == Net(a, k) - Net(b, k)
  {
    Multiplied(a, Inverted(b))
  }

  function ScaleCounts(m: Counts, power: int): Counts
  {
    map k | k in m :: m[k] * power
  }

  /** raiseToPower(): every exponent on both sides is multiplied, then the result is simplified. */
  function Powered(u: Units, power: int): (r: Units)
    ensures forall k :: Net(r, k) == Net(u, k) * power
  {
    Simplified(Units(ScaleCounts(u.numerator, power), ScaleCounts(u.denominator, power)))
  }

  method AddInto(target: Counts, other: Counts) returns (r: Counts)
    ensures r == AddCounts(target, other)
  {
    r := target;
    var keys := other.Keys;
    while keys != {}
      invariant keys <= other.Keys
      invariant r == AddCounts(target, other - keys)
      decreases |keys|
    {
      var k :| k in keys;
      r := r[k := Get(r, k) + other[k]];
      keys := keys - {k};
    }
    assert other - keys == other;
  }

  method Multiply(a: Units, b: Units) returns (r: Units)
    ensures r == Multiplied(a, b)
  {
    var num := AddInto(a.numerator, b.numerator);
    var den := AddInto(a.denominator, b.denominator);
    r := Simplify(Units(num, den));
  }

  method Divide(a: Units, b: Units) returns (r: Units)
    ensures r == Divided(a, b)
  {
    r := Multiply(a, Inverted(b));
  }

  method ScaleAll(m: Counts, power: int) returns (r: Counts)
    ensures r == ScaleCounts(m, power)
  {
    r := m;
    var keys := m.Keys;
    while keys != {}
      invariant keys <= m.Keys
      invariant r.Keys == m.Keys
      invariant forall k :: k in m ==> r[k] == if k in keys then m[k] else m[k] * power
      decreases |keys|
    {
      var k :| k in keys;
      r := r[k := Get(r, k) * power];
      keys := keys - {k};
    }
  }

  method RaiseToPower(u: Units, power: int) returns (r: Units)
    ensures r == Powered(u, power)
  {
    var num := ScaleAll(u.numerator, power);
    var den := ScaleAll(u.denominator, power);
    r := Simplify(Units(num, den));
  }

  // ---------------------------------------------------------------------------
  // Serialisation and equality
  // ---------------------------------------------------------------------------

  function Repeat(w: string, n: int): (r: seq<string>)
    ensures |r| == if n > 0 then n else 0
    ensures forall i :: 0 <= i < |r| ==> r[i] == w
    decreases n
  {
    if n <= 0 then [] else [w] + Repeat(w, n - 1)
  }

  /** Each key, in the given order, repeated as many times as its count (never when the
      count is zero or negative). */
  function ExpandKeys(keys: seq<string>, m: Counts): seq<string>
    requires forall i :: 0 <= i < |keys| ==> keys[i] in m
  {
    if |keys| == 0 then [] else Repeat(keys[0], m[keys[0]]) + ExpandKeys(keys[1..], m)
  }

  function Factors(m: Counts): seq<string>
  {
    ExpandKeys(SortedElements(m.Keys), m)
  }

  /** serializeMultiplyString: keys in TreeMap order joined by " * ". */
  function SerializeCounts(m: Counts): string
  {
    Join(Factors(m), FACTOR_SEPARATOR)
  }

  /** toString(): the numerator, then " / " and the denominator only if that is non-empty. */
  function ToString(u: Units): string
  {
    var num := SerializeCounts(u.numerator);
    var den := SerializeCounts(u.denominator);
    if den == "" then num else num + FRACTION_BAR + den
  }

  /** equals(): two units are equal when their strings are. */
  predicate Equal(a: Units, b: Units)
  {
    ToString(a) == ToString(b)
  }

  // ---------------------------------------------------------------------------
  // Properties
  // ---------------------------------------------------------------------------

  /** A unit name that survives a round trip through toString and parsing. */
  predicate ValidName(w: string)
  {
    w != "" && ' ' !in w && '*' !in w && '/' !in w && !IsFormOfCount(w)
  }

  /** Units as parsing and simplifying produce them, with names free of '/': every
      exponent positive and no name on both sides. */
  predicate Canonical(u: Units)
  {
    (forall k :: k in u.numerator ==> ValidName(k) && u.numerator[k] > 0) &&
    (forall k :: k in u.denominator ==> ValidName(k) && u.denominator[k] > 0) &&
    (forall k :: !(k in u.numerator && k in u.denominator))
  }

  lemma {:induction false} ExpandKeysCount(keys: seq<string>, m: Counts, w: string)
    requires forall i :: 0 <= i < |keys| ==> keys[i] in m
    requires StrictlySorted(keys)
    ensures multiset(ExpandKeys(keys, m))[w] == if w in keys && m[w] > 0 then m[w] else 0
  {
    if |keys| > 0 {
      var k := keys[0];
      assert StrictlySorted(keys[1..]);
      ExpandKeysCount(keys[1..], m, w);
      RepeatCount(k, m[k], w);
      assert multiset(ExpandKeys(keys, m)) == multiset(Repeat(k, m[k])) + multiset(ExpandKeys(keys[1..], m));
      if w == k {
        assert w !in keys[1..] by {
          forall j | 1 <= j < |keys| ensures keys[j] != k { assert Less(keys[0], keys[j]); }
        }
      } else {
        assert w in keys <==> w in keys[1..];
      }
    }
  }

  lemma {:induction false} RepeatCount(k: string, n: int, w: string)
    ensures multiset(Repeat(k, n))[w] == if w == k && n > 0 then n else 0
    decreases n
  {
    if n > 0 { RepeatCount(k, n - 1, w); }
  }

  lemma {:induction false} ExpandKeysMembers(keys: seq<string>, m: Counts)
    requires forall i :: 0 <= i < |keys| ==> keys[i] in m
    ensures forall i :: 0 <= i < |ExpandKeys(keys, m)| ==> ExpandKeys(keys, m)[i] in keys
    ensures (exists i :: 0 <= i < |keys| && m[keys[i]] > 0) ==> |ExpandKeys(keys, m)| > 0
  {
    if |keys| > 0 {
      ExpandKeysMembers(keys[1..], m);
      var e := ExpandKeys(keys, m);
      var head := Repeat(keys[0], m[keys[0]]);
      assert e == head + ExpandKeys(keys[1..], m);
      forall i | 0 <= i < |e| ensures e[i] in keys {
        if i >= |head| { assert e[i] == ExpandKeys(keys[1..], m)[i - |head|]; }
      }
      if exists i :: 0 <= i < |keys| && m[keys[i]] > 0 {
        var i :| 0 <= i < |keys| && m[keys[i]] > 0;
        if i > 0 { assert m[keys[1..][i - 1]] > 0; }
      }
    }
  }

  /** Counting the factors of the serialised counts gives the counts back. */
  lemma FactorCountsOfFactors(m: Counts)
    requires forall k :: k in m ==> m[k] > 0 && !IsFormOfCount(k)
    ensures FactorCounts(Factors(m)) == m
  {
    var keys := SortedElements(m.Keys);
    var f := Factors(m);
    var c := FactorCounts(f);
    forall w ensures multiset(f)[w] == Get(m, w) {
      ExpandKeysCount(keys, m, w);
    }
    forall w ensures w in c <==> w in m {
      assert w in f <==> multiset(f)[w] > 0;
    }
    forall w | w in c ensures c[w] == m[w] {
      assert c[w] == multiset(f)[w];
    }
    SameMaps(c, m);
  }

  lemma SerializeCountsShape(m: Counts)
    requires forall k :: k in m ==> ValidName(k) && m[k] > 0
    ensures Tokens(SerializeCounts(m), FACTOR_DELIMITERS) == Factors(m)
    ensures '/' !in SerializeCounts(m)
    ensures SerializeCounts(m) == "" <==> |m| == 0
  {
    var keys := SortedElements(m.Keys);
    var f := Factors(m);
    ExpandKeysMembers(keys, m);
    assert forall i :: 0 <= i < |f| ==> ValidName(f[i]);
    TokensJoin(f, FACTOR_SEPARATOR, FACTOR_DELIMITERS);
    JoinHasOnlyPartsAndSep(f, FACTOR_SEPARATOR, '/');
    if |m| > 0 {
      var k :| k in m;
      assert k in keys;
      assert |f| > 0;
      assert f[0] != "";
      JoinNonEmpty(f, FACTOR_SEPARATOR);
    } else {
      assert keys == [];
    }
  }

  lemma JoinNonEmpty(parts: seq<string>, sep: string)
    requires |parts| > 0 && parts[0] != ""
    ensures Join(parts, sep) != ""
  {
  }

  /** The text on either side of the one fraction bar of a '/'-free numerator and
      denominator is split back apart. */
  lemma SplitFractionOfJoin(num: string, den: string)
    requires '/' !in num && '/' !in den
    ensures SplitFraction(if den == "" then num else num + FRACTION_BAR + den) == Success((num, den))
  {
    if den == "" {
      NotContainsWithout(num, FRACTION_BAR, 1);
    } else {
      var s := num + FRACTION_BAR + den;
      assert Join([num, den], FRACTION_BAR) == s;
      JavaSplitJoin([num, den], FRACTION_BAR, 1);
      assert OccursAt(s, FRACTION_BAR, |num|);
      NoOccurrenceMeansAbsent(s, FRACTION_BAR, |num|);
    }
  }

  /** Parsing the string of canonical units gives the same maps back. */
  lemma ParseToString(u: Units)
    requires Canonical(u)
    ensures Parse(ToString(u)) == Success(u)
  {
    var num := SerializeCounts(u.numerator);
    var den := SerializeCounts(u.denominator);
    SerializeCountsShape(u.numerator);
    SerializeCountsShape(u.denominator);
    SplitFractionOfJoin(num, den);
    FactorCountsOfFactors(u.numerator);
    FactorCountsOfFactors(u.denominator);
  }

  lemma NoOccurrenceMeansAbsent(s: string, p: string, i: int)
    requires OccursAt(s, p, i)
    ensures Contains(s, p)
  {
  }

  lemma SimplifiedCanonical(u: Units)
    requires Canonical(u)
    ensures Simplified(u) == u
  {
  }

  predicate PositiveCounts(m: Counts)
  {
    forall k :: k in m ==> m[k] > 0
  }

  /** Every name parseMultiplyString counts is a non-empty token free of delimiters, with a
      positive count. */
  lemma TokenCounts(text: string)
    ensures var c := FactorCounts(Tokens(text, FACTOR_DELIMITERS));
      PositiveCounts(c) &&
      forall k :: k in c ==> k != "" && ' ' !in k && '*' !in k && !IsFormOfCount(k)
  {
    var t := Tokens(text, FACTOR_DELIMITERS);
    forall k | k in FactorCounts(t) ensures k != "" && ' ' !in k && '*' !in k {
      var i :| 0 <= i < |t| && t[i] == k;
    }
  }

  /** Simplifying positive counts keeps them positive, adds no name and leaves no name on
      both sides. */
  lemma SimplifiedKeepsNames(u: Units)
    requires PositiveCounts(u.numerator) && PositiveCounts(u.denominator)
    ensures var r := Simplified(u);
      PositiveCounts(r.numerator) && PositiveCounts(r.denominator) &&
      r.numerator.Keys <= u.numerator.Keys && r.denominator.Keys <= u.denominator.Keys &&
      forall k :: !(k in r.numerator && k in r.denominator)
  {
  }

  /** The counts new Units(description) produces are positive and their names are tokens. */
  lemma ParsedPositive(description: string)
    requires Parse(description).Success?
    ensures var p := Parse(description).value;
      PositiveCounts(p.numerator) && PositiveCounts(p.denominator) &&
      (forall k :: k in p.numerator ==> k != "" && ' ' !in k && '*' !in k && !IsFormOfCount(k)) &&
      (forall k :: k in p.denominator ==> k != "" && ' ' !in k && '*' !in k && !IsFormOfCount(k))
  {
    var split := SplitFraction(description).value;
    TokenCounts(split.0);
    TokenCounts(split.1);
  }

  /** What Units.of(description) returns is canonical, unless a name contains '/'. */
  lemma OfDescriptionCanonical(description: string)
    requires OfDescription(description).Success?
    requires var u := OfDescription(description).value;
      forall k :: (k in u.numerator || k in u.denominator) ==> '/' !in k
    ensures Canonical(OfDescription(description).value)
  {
    var p := Parse(description).value;
    var u := OfDescription(description).value;
    assert u == Simplified(p);
    ParsedPositive(description);
    SimplifiedKeepsNames(p);
    forall k | k in u.numerator ensures ValidName(k) && u.numerator[k] > 0 {
      assert k in p.numerator;
    }
    forall k | k in u.denominator ensures ValidName(k) && u.denominator[k] > 0 {
      assert k in p.denominator;
    }
  }

  /** Units.of(u.toString()) equals u for every u that Units.of produced, provided no unit
      name contains '/'. */
  lemma OfToStringRoundTrip(description: string)
    requires OfDescription(description).Success?
    requires var u := OfDescription(description).value;
      forall k :: (k in u.numerator || k in u.denominator) ==> '/' !in k
    ensures OfDescription(ToString(OfDescription(description).value)) == OfDescription(description)
  {
    var u := OfDescription(description).value;
    OfDescriptionCanonical(description);
    ParseToString(u);
    SimplifiedCanonical(u);
  }

  /** For canonical units, equals() is equality of the maps. */
  lemma EqualIffSameMaps(a: Units, b: Units)
    requires Canonical(a) && Canonical(b)
    ensures Equal(a, b) <==> a == b
  {
    if Equal(a, b) {
      ParseToString(a);
      ParseToString(b);
    }
  }

  /** invert() undoes itself. */
  lemma InvertInvolution(u: Units)
    ensures Inverted(Inverted(u)) == u
  {
  }

  /** A factor word as the tokenizer sees it: non-empty, without ' ', '*' or '/'. */
  predicate Word(w: string)
  {
    w != "" && ' ' !in w && '*' !in w && '/' !in w
  }

  /** Parsing words joined by " * ", with an optional " / " and more words, counts them. */
  lemma ParseJoined(nums: seq<string>, dens: seq<string>)
    requires forall i :: 0 <= i < |nums| ==> Word(nums[i])
    requires forall i :: 0 <= i < |dens| ==> Word(dens[i])
    ensures var num := Join(nums, FACTOR_SEPARATOR);
      var den := Join(dens, FACTOR_SEPARATOR);
      Parse(if den == "" then num else num + FRACTION_BAR + den) ==
        Success(Units(FactorCounts(nums), FactorCounts(dens)))
  {
    var num := Join(nums, FACTOR_SEPARATOR);
    var den := Join(dens, FACTOR_SEPARATOR);
    JoinHasOnlyPartsAndSep(nums, FACTOR_SEPARATOR, '/');
    JoinHasOnlyPartsAndSep(dens, FACTOR_SEPARATOR, '/');
    SplitFractionOfJoin(num, den);
    TokensJoin(nums, FACTOR_SEPARATOR, FACTOR_DELIMITERS);
    TokensJoin(dens, FACTOR_SEPARATOR, FACTOR_DELIMITERS);
  }

  /** A single unit name on its own is that name to the first power. */
  lemma SingleName(w: string)
    requires ValidName(w)
    ensures OfDescription(w) == Success(Units(map[w := 1], map[]))
  {
    ParseJoined([w], []);
    FactorCountsSnoc([], w);
    assert [] + [w] == [w];
  }

  /** Repeated factors are counted: "a * a / b * b" is {a: 2} / {b: 2}, or nothing at all
      when a and b are the same name. */
  lemma RepeatedFactorsCounted(a: string, b: string)
    requires ValidName(a) && ValidName(b)
    ensures OfDescription(a + FACTOR_SEPARATOR + a + FRACTION_BAR + b + FACTOR_SEPARATOR + b) ==
      Success(if a == b then EMPTY else Units(map[a := 2], map[b := 2]))
  {
    var d := (a + FACTOR_SEPARATOR + a) + FRACTION_BAR + (b + FACTOR_SEPARATOR + b);
    assert a + FACTOR_SEPARATOR + a + FRACTION_BAR + b + FACTOR_SEPARATOR + b == d;
    ParseRepeated(a, b);
    var u := Units(map[a := 2], map[b := 2]);
    OfParsed(d, u);
    SimplifiedSquares(a, b);
  }

  lemma SimplifiedSquares(a: string, b: string)
    requires ValidName(a) && ValidName(b)
    ensures Simplified(Units(map[a := 2], map[b := 2])) ==
      if a == b then EMPTY else Units(map[a := 2], map[b := 2])
  {
    var u := Units(map[a := 2], map[b := 2]);
    if a == b {
      assert Surplus(u.numerator, u.denominator) == map[];
    } else {
      SimplifiedCanonical(u);
    }
  }

  lemma ParseRepeated(a: string, b: string)
    requires ValidName(a) && ValidName(b)
    ensures Parse((a + FACTOR_SEPARATOR + a) + FRACTION_BAR + (b + FACTOR_SEPARATOR + b)) ==
      Success(Units(map[a := 2], map[b := 2]))
  {
    ParseJoined([a, a], [b, b]);
    assert Join([a, a], FACTOR_SEPARATOR) == a + FACTOR_SEPARATOR + a;
    assert Join([b, b], FACTOR_SEPARATOR) == b + FACTOR_SEPARATOR + b;
    Twice(a);
    Twice(b);
  }

  lemma Twice(w: string)
    requires !IsFormOfCount(w)
    ensures FactorCounts([w, w]) == map[w := 2]
  {
    FactorCountsSnoc([], w);
    FactorCountsSnoc([w], w);
    assert [] + [w] == [w];
    assert [w] + [w] == [w, w];
  }

  /** Two fraction bars with a non-empty third piece are rejected. */
  lemma MoreThanOneFractionBarRejected(a: string, b: string, c: string)
    requires '/' !in a && '/' !in b && '/' !in c && c != ""
    ensures OfDescription(a + FRACTION_BAR + b + FRACTION_BAR + c).Failure?
    ensures OfDescription(a + FRACTION_BAR + b + FRACTION_BAR + c).error.kind == IllegalArgument
  {
    var d := a + FRACTION_BAR + b + FRACTION_BAR + c;
    assert Join([a, b, c], FRACTION_BAR) == d;
    JavaSplitJoin([a, b, c], FRACTION_BAR, 1);
    assert OccursAt(d, FRACTION_BAR, |a|);
  }

  /** "count" and "counts" are dropped: any product of them is the same as EMPTY. */
  lemma CountIsEmpty(ws: seq<string>)
    requires forall i :: 0 <= i < |ws| ==> IsFormOfCount(ws[i])
    ensures OfDescription(Join(ws, FACTOR_SEPARATOR)) == Success(EMPTY)
  {
    forall i | 0 <= i < |ws| ensures Word(ws[i]) {
      CountFormIsWord(ws[i]);
    }
    ParseJoined(ws, []);
    var num := Join(ws, FACTOR_SEPARATOR);
    assert Join([], FACTOR_SEPARATOR) == "";
    assert FactorCounts(ws) == map[];
    assert FactorCounts([]) == map[];
    OfParsed(num, EMPTY);
  }

  lemma CountFormIsWord(w: string)
    requires IsFormOfCount(w)
    ensures Word(w)
  {
    if w == "count" {
      assert w == ['c', 'o', 'u', 'n', 't'];
    } else {
      assert w == ['c', 'o', 'u', 'n', 't', 's'];
    }
  }

  lemma ParseParts(description: string, num: string, den: string)
    requires SplitFraction(description) == Success((num, den))
    ensures Parse(description) ==
      Success(Units(FactorCounts(Tokens(num, FACTOR_DELIMITERS)), FactorCounts(Tokens(den, FACTOR_DELIMITERS))))
  {
  }

  lemma OfParsed(description: string, u: Units)
    requires Parse(description) == Success(u)
    ensures OfDescription(description) == Success(Simplified(u))
  {
  }

  /** divide(o) is multiply(o.invert()), and the exponent arithmetic it amounts to. */
  lemma DivideIsMultiplyByInverse(a: Units, b: Units)
    ensures Divided(a, b) == Multiplied(a, Inverted(b))
    ensures forall k :: Net(Divided(a, b), k) == Net(a, k) - Net(b, k)
  {
  }
}

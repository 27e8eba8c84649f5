/**
 * The memo of Units.of(description) (engine/value/converter/Units.java): a map from
 * description to the simplified units, pre-populated with the constants and extended on every
 * miss under both the description and the canonical string of the result.
 */
module UnitsCaching {
  import opened Wrappers
  import opened Strings
  import opened UnitsAlgebra

  /** The cache is transparent when every entry is what parsing and simplifying its key gives. */
  ghost predicate ValidEntries(entries: map<string, Units>)
  {
    forall d :: d in entries ==> OfDescription(d) == Success(entries[d])
  }

  /** What a miss stores as written: the result under the description, and again under its
      canonical string when that is different. */
  function StoreAsWritten(entries: map<string, Units>, description: string, s: Units): (r: map<string, Units>)
    ensures forall k :: k in r <==> k in entries || k == description || k == ToString(s)
    ensures r[description] == s && r[ToString(s)] == s
    ensures forall d :: d in entries && d != description && d != ToString(s) ==> r[d] == entries[d]
  {
    StoreUnder(entries, description, ToString(s), s)
  }

  /** The result stored under the description and under a second key. */
  function StoreUnder(entries: map<string, Units>, description: string, canonical: string, s: Units): (r: map<string, Units>)
    ensures forall k :: k in r <==> k in entries || k == description || k == canonical
    ensures r[description] == s && r[canonical] == s
    ensures forall d :: d in entries && d != description && d != canonical ==> r[d] == entries[d]
  {
    var e := entries[description := s];
    if canonical != description then e[canonical := s] else e
  }

  /** What a miss stores once corrected: the canonical string becomes a key only when it
      parses back to the same units. */
  function StoreCorrected(entries: map<string, Units>, description: string, s: Units): (r: map<string, Units>)
    ensures entries.Keys + {description} <= r.Keys
    ensures description in r && r[description] == s
    ensures forall k :: k in r ==>
      k == description || (k in entries && r[k] == entries[k]) ||
      (k == ToString(s) && r[k] == s && OfDescription(k) == Success(s))
  {
    var e := entries[description := s];
    var canonical := ToString(s);
    if canonical != description && OfDescription(canonical) == Success(s) then e[canonical := s] else e
  }

  /** The corrected store keeps the cache transparent. */
  lemma StoreCorrectedValid(entries: map<string, Units>, description: string)
    requires ValidEntries(entries)
    requires OfDescription(description).Success?
    ensures ValidEntries(StoreCorrected(entries, description, OfDescription(description).value))
  {
  }

  /** When no unit name contains '/', the corrected store is the store as written. */
  lemma StoreCorrectedAgrees(entries: map<string, Units>, description: string)
    requires OfDescription(description).Success?
    requires var u := OfDescription(description).value;
      forall k :: (k in u.numerator || k in u.denominator) ==> '/' !in k
    ensures var s := OfDescription(description).value;
      StoreCorrected(entries, description, s) == StoreAsWritten(entries, description, s)
  {
    var s := OfDescription(description).value;
    OfToStringRoundTrip(description);
  }

  const SLASH: string := "/"

  // A description such as "%*/*m" (names a < "/" < c, joined by '*' and no spaces) has the
  // name "/" in the middle of its canonical string, which then contains the fraction bar.
  lemma MisfiledParse(a: string, c: string)
    requires ValidName(a) && ValidName(c) && Less(a, SLASH) && Less(SLASH, c)
    ensures OfDescription(a + "*" + SLASH + "*" + c) ==
      Success(Units(map[a := 1, SLASH := 1, c := 1], map[]))
  {
    var d := a + "*" + SLASH + "*" + c;
    var u := Units(map[a := 1, SLASH := 1, c := 1], map[]);
    assert Parse(d) == Success(u) by {
      LessTrans(a, SLASH, c);
      SlashIsWord();
      assert SplitFraction(d) == Success((d, "")) by {
        StarredHasNoSpace(a, c);
        NotContainsWithout(d, FRACTION_BAR, 0);
      }
      ParseParts(d, d, "");
      TokensOfStarred(a, c);
      ThreeCounts(a, SLASH, c);
      assert Tokens("", FACTOR_DELIMITERS) == [];
      assert FactorCounts([]) == map[];
    }
    OfParsed(d, u);
  }

  lemma StarredHasNoSpace(a: string, c: string)
    requires ValidName(a) && ValidName(c)
    ensures ' ' !in a + "*" + SLASH + "*" + c
  {
    SlashIsWord();
    assert Join([a, SLASH, c], "*") == a + "*" + SLASH + "*" + c;
    JoinHasOnlyPartsAndSep([a, SLASH, c], "*", ' ');
  }

  lemma SlashIsWord()
    ensures ' ' !in SLASH && '*' !in SLASH && SLASH != "" && !IsFormOfCount(SLASH)
  {
    assert SLASH == ['/'];
  }

  lemma TokensOfStarred(a: string, c: string)
    requires ValidName(a) && ValidName(c)
    ensures Join([a, SLASH, c], "*") == a + "*" + SLASH + "*" + c
    ensures Tokens(a + "*" + SLASH + "*" + c, FACTOR_DELIMITERS) == [a, SLASH, c]
  {
    SlashIsWord();
    assert Join([a, SLASH, c], "*") == a + "*" + SLASH + "*" + c;
    TokensJoin([a, SLASH, c], "*", FACTOR_DELIMITERS);
  }

  lemma ThreeCounts(a: string, b: string, c: string)
    requires !IsFormOfCount(a) && !IsFormOfCount(b) && !IsFormOfCount(c)
    requires a != b && b != c && a != c
    ensures FactorCounts([a, b, c]) == map[a := 1, b := 1, c := 1]
  {
    FactorCountsSnoc([], a);
    FactorCountsSnoc([a], b);
    FactorCountsSnoc([a, b], c);
    assert [] + [a] == [a];
    assert [a] + [b] == [a, b];
    assert [a, b] + [c] == [a, b, c];
  }

  /** The canonical string of those units is "a * / * c". */
  lemma MisfiledCanonical(a: string, c: string)
    requires ValidName(a) && ValidName(c) && Less(a, SLASH) && Less(SLASH, c)
    ensures ToString(Units(map[a := 1, SLASH := 1, c := 1], map[])) == (a + " *") + FRACTION_BAR + ("* " + c)
  {
    FactorsThree(a, c);
    SerializeEmpty();
    JoinThree(a, c);
  }

  lemma FactorsThree(a: string, c: string)
    requires Less(a, SLASH) && Less(SLASH, c)
    ensures Factors(map[a := 1, SLASH := 1, c := 1]) == [a, SLASH, c]
  {
    var m := map[a := 1, SLASH := 1, c := 1];
    assert m.Keys == {a, SLASH, c};
    SortedThree(a, c);
    ExpandOnes([a, SLASH, c], m);
  }

  lemma {:induction false} ExpandOnes(keys: seq<string>, m: Counts)
    requires forall i :: 0 <= i < |keys| ==> keys[i] in m && m[keys[i]] == 1
    ensures ExpandKeys(keys, m) == keys
  {
    if |keys| > 0 {
      ExpandOnes(keys[1..], m);
      assert Repeat(keys[0], 1) == [keys[0]];
    }
  }

  lemma SerializeEmpty()
    ensures SerializeCounts(map[]) == ""
  {
    assert SortedElements({}) == [];
  }

  lemma SortedThree(a: string, c: string)
    requires Less(a, SLASH) && Less(SLASH, c)
    ensures SortedElements({a, SLASH, c}) == [a, SLASH, c]
  {
    LessTrans(a, SLASH, c);
    assert StrictlySorted([a, SLASH, c]);
    SortedEnumerationUnique(SortedElements({a, SLASH, c}), [a, SLASH, c]);
  }

  lemma JoinThree(a: string, c: string)
    ensures Join([a, SLASH, c], FACTOR_SEPARATOR) == (a + " *") + FRACTION_BAR + ("* " + c)
  {
    var sep := FACTOR_SEPARATOR;
    assert Join([SLASH, c], sep) == SLASH + sep + c by {
      assert [SLASH, c][1..] == [c];
    }
    assert Join([a, SLASH, c], sep) == a + sep + (SLASH + sep + c) by {
      assert [a, SLASH, c][1..] == [SLASH, c];
    }
    assert sep + (SLASH + sep) == " *" + FRACTION_BAR + "* " by {
      assert sep == [' ', '*', ' '] && SLASH == ['/'] && FRACTION_BAR == [' ', '/', ' '];
    }
  }

  /** Parsing "a * / * c" finds the fraction bar and gives {a} / {c}. */
  lemma MisfiledReparse(a: string, c: string)
    requires ValidName(a) && ValidName(c) && a != c
    ensures OfDescription((a + " *") + FRACTION_BAR + ("* " + c)) ==
      Success(Units(map[a := 1], map[c := 1]))
  {
    var num := a + " *";
    var den := "* " + c;
    var s := num + FRACTION_BAR + den;
    assert '/' !in num && '/' !in den && den != "";
    SplitFractionOfJoin(num, den);
    ParseParts(s, num, den);
    TokensOfPadded(a, c);
    One(a);
    One(c);
    var u := Units(map[a := 1], map[c := 1]);
    OfParsed(s, u);
    SimplifiedCanonical(u);
  }

  lemma TokensOfPadded(a: string, c: string)
    requires ValidName(a) && ValidName(c)
    ensures Tokens(a + " *", FACTOR_DELIMITERS) == [a]
    ensures Tokens("* " + c, FACTOR_DELIMITERS) == [c]
  {
    TokensPrefix(a, " *", FACTOR_DELIMITERS);
    TokensOfDelimitersOnly(" *", FACTOR_DELIMITERS);
    TokensSkipDelimiters("* ", c, FACTOR_DELIMITERS);
    TokensPrefix(c, "", FACTOR_DELIMITERS);
    assert c + "" == c;
  }

  lemma One(w: string)
    requires !IsFormOfCount(w)
    ensures FactorCounts([w]) == map[w := 1]
  {
    FactorCountsSnoc([], w);
    assert [] + [w] == [w];
  }

  /** As written, a miss on such a description files the units under a key that denotes
      different units, so the cache stops being transparent. */
  lemma StoreAsWrittenMisfiles(a: string, c: string)
    requires ValidName(a) && ValidName(c) && Less(a, SLASH) && Less(SLASH, c)
    ensures var d := a + "*" + SLASH + "*" + c;
      OfDescription(d).Success? && !ValidEntries(StoreAsWritten(map[], d, OfDescription(d).value))
  {
    var d := a + "*" + SLASH + "*" + c;
    MisfiledParse(a, c);
    var u := Units(map[a := 1, SLASH := 1, c := 1], map[]);
    MisfiledCanonical(a, c);
    LessTrans(a, SLASH, c);
    MisfiledReparse(a, c);
    var canonical := (a + " *") + FRACTION_BAR + ("* " + c);
    assert SLASH in u.numerator;
    assert OfDescription(canonical) != Success(u);
    assert StoreAsWritten(map[], d, u)[canonical] == u;
  }

  // The concrete instance: Units.of("%*/*m") is then returned for "% * / * m", which on its
  // own is percent per metre.
  lemma PercentPerMetreMisfiled()
    ensures OfDescription("%*/*m").Success?
    ensures !ValidEntries(StoreAsWritten(map[], "%*/*m", OfDescription("%*/*m").value))
  {
    assert ValidName("%") && ValidName("m") by {
      assert "%" == ['%'] && "m" == ['m'];
    }
    assert Less("%", SLASH) && Less(SLASH, "m") by {
      assert SLASH == ['/'];
    }
    assert "%" + "*" + SLASH + "*" + "m" == "%*/*m";
    StoreAsWrittenMisfiles("%", "m");
  }

  /** A lower-case word not starting with 'c' is a unit name. */
  lemma LowercaseName(w: string)
    requires |w| > 0 && w[0] != 'c' && forall i :: 0 <= i < |w| ==> 'a' <= w[i] <= 'z'
    ensures ValidName(w)
  {
  }

  /** The entries of the static initializer, with METERS and DEGREES named by the arguments. */
  function InitialEntries(meters: string, degrees: string): map<string, Units>
  {
    map["" := EMPTY, "count" := EMPTY,
        meters := Units(map[meters := 1], map[]),
        degrees := Units(map[degrees := 1], map[])]
  }

  lemma InitialEntriesValid(meters: string, degrees: string)
    requires ValidName(meters) && ValidName(degrees)
    ensures ValidEntries(InitialEntries(meters, degrees))
  {
    var e := InitialEntries(meters, degrees);
    forall d | d in e ensures OfDescription(d) == Success(e[d]) {
      if d == degrees {
        SingleName(degrees);
      } else if d == meters {
        SingleName(meters);
      } else if d == "count" {
        CountIsEmpty(["count"]);
      } else {
        CountIsEmpty([]);
      }
    }
  }

  /** UNITS_CACHE with the methods that read and extend it. */
  class UnitsCache {
    var entries: map<string, Units>

    ghost predicate Valid()
      reads this
    {
      ValidEntries(entries)
    }

    /** The static initializer: EMPTY under "" and "count", METERS and DEGREES. */
    constructor()
      ensures Valid()
      ensures entries == InitialEntries("meters", "degrees")
    {
      LowercaseName("meters");
      LowercaseName("degrees");
      InitialEntriesValid("meters", "degrees");
      entries := InitialEntries("meters", "degrees");
    }

    /** Units.of(description), with the canonical key stored only when it parses back. */
    method Of(description: string) returns (r: Result<Units>)
      requires Valid()
      modifies this
      ensures Valid()
      ensures r == OfDescription(description)
      ensures description in old(entries) ==> entries == old(entries)
      ensures description !in old(entries) ==>
        entries == if r.Success? then StoreCorrected(old(entries), description, r.value) else old(entries)
    {
      if description in entries {
        return Success(entries[description]);
      }
      r := ParseAndSimplify(description);
      if r.Failure? {
        return;
      }
      var simplified := r.value;
      StoreCorrectedValid(entries, description);
      entries := entries[description := simplified];
      var canonical := ToString(simplified);
      if canonical != description {
        var check := ParseAndSimplify(canonical);
        if check == Success(simplified) {
          entries := entries[canonical := simplified];
        }
      }
    }

    /** Units.of(description) as written: the canonical key is always stored. */
    method OfAsWritten(description: string) returns (r: Result<Units>)
      modifies this
      ensures description in old(entries) ==> r == Success(old(entries)[description]) && entries == old(entries)
      ensures description !in old(entries) ==> r == OfDescription(description)
      ensures description !in old(entries) ==>
        entries == if r.Success? then StoreAsWritten(old(entries), description, r.value) else old(entries)
    {
      if description in entries {
        return Success(entries[description]);
      }
      r := ParseAndSimplify(description);
      if r.Failure? {
        return;
      }
      var simplified := r.value;
      entries := entries[description := simplified];
      var canonical := ToString(simplified);
      if canonical != description {
        entries := entries[canonical := simplified];
      }
    }
  }
}

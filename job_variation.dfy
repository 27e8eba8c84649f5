/**
 * JoshJobVariationVisitor: grid search over alternative input files. Each file specification
 * "name=path1,path2" offers paths for one logical file; the visitor produces one job builder per
 * way of choosing a path for every logical name, at most 1000 of them.
 *
 * A job builder is its replicate count, its custom parameters and its map from logical file
 * name to path (JoshJobFileInfo.fromPath is kept as the path itself).
 */
module JobVariations {
  import opened Wrappers
  import opened Strings

  const COMBINATION_LIMIT: nat := 1000

  datatype JobBuilder = JobBuilder(replicates: int, customParameters: map<string, string>, filePaths: map<string, string>)

  /** The parse tree of one path: the texts of its child tokens. */
  datatype SinglePath = SinglePath(children: seq<string>)

  /** The parse tree of "name=path1,path2"; either side may be missing from an erroneous parse. */
  datatype FileSpecContext = FileSpecContext(filename: Option<string>, filepath: Option<seq<SinglePath>>)

  predicate Distinct<T(==)>(s: seq<T>)
  {
    forall i, j :: 0 <= i < j < |s| ==> s[i] != s[j]
  }

  // ---------------------------------------------------------------------------
  // File specifications
  // ---------------------------------------------------------------------------

  function Concat(parts: seq<string>): (r: string)
  {
    if |parts| == 0 then "" else Concat(parts[..|parts| - 1]) + parts[|parts| - 1]
  }

  /** The text of a path: its child texts appended in order, trimmed. */
  function PathText(p: SinglePath): string
  {
    Trim(Concat(p.children))
  }

  /** reconstructPath: the child texts appended in order, trimmed. */
  method ReconstructPath(pathContext: SinglePath) returns (path: string)
    ensures path == PathText(pathContext)
  {
    var pathBuilder := "";
    for i := 0 to |pathContext.children|
      invariant pathBuilder == Concat(pathContext.children[..i])
    {
      assert pathContext.children[..i + 1][..i] == pathContext.children[..i];
      pathBuilder := pathBuilder + pathContext.children[i];
    }
    assert pathContext.children[..|pathContext.children|] == pathContext.children;
    path := Trim(pathBuilder);
  }

  /**
   * visitFileSpec without the store: nothing for a partial parse, the trimmed logical name and
   * its paths otherwise, and IllegalArgumentException for an empty name, an empty path list or
   * an empty path.
   */
  function ParseFileSpec(ctx: FileSpecContext): (r: Result<Option<(string, seq<string>)>>)
    ensures r.Failure? ==> r.error.kind == IllegalArgument
    ensures r.Success? && r.value.Some? ==> (ctx.filepath.Some? &&
      var (name, paths) := r.value.value;
      name != "" && |paths| > 0 && "" !in paths && |paths| == |ctx.filepath.value| &&
      forall i :: 0 <= i < |paths| ==> paths[i] == PathText(ctx.filepath.value[i]))
    ensures r.Failure? <==> (ctx.filename.Some? && ctx.filepath.Some? &&
      (Trim(ctx.filename.value) == "" || |ctx.filepath.value| == 0 ||
       exists i :: 0 <= i < |ctx.filepath.value| && PathText(ctx.filepath.value[i]) == ""))
  {
    if ctx.filename.None? || ctx.filepath.None? then Success(None)
    else
      var logicalName := Trim(ctx.filename.value);
      var singlePaths := ctx.filepath.value;
      if logicalName == "" then Failure(Error(IllegalArgument, "File logical name cannot be empty"))
      else if |singlePaths| == 0 then
        Failure(Error(IllegalArgument, "File path list cannot be empty for: " + logicalName + ". "
          + "Format should be: name=path1,path2 or name=path1"))
      else
        var paths := PathTexts(singlePaths);
        if "" in paths then Failure(Error(IllegalArgument, "File path cannot be empty for: " + logicalName))
        else Success(Some((logicalName, paths)))
  }

  /** The keys of specs listed once each, in order of first insertion. */
  predicate KeyOrder(order: seq<string>, specs: map<string, seq<string>>)
  {
    Distinct(order) && (forall k :: k in order ==> k in specs) && (forall k :: k in specs ==> k in order)
  }

  /** What visitFileSpec guarantees of every stored specification. */
  predicate WellFormed(specs: map<string, seq<string>>)
  {
    forall k :: k in specs ==> k != "" && |specs[k]| > 0 && "" !in specs[k]
  }

  // ---------------------------------------------------------------------------
  // The Cartesian product
  // ---------------------------------------------------------------------------

  /** Each tail with p in front. */
  function Prefixed(p: string, tails: seq<seq<string>>): (r: seq<seq<string>>)
    ensures |r| == |tails| && forall i :: 0 <= i < |tails| ==> r[i] == [p] + tails[i]
  {
    seq(|tails|, i requires 0 <= i < |tails| => [p] + tails[i])
  }

  /** For each head in order, that head in front of every tail. */
  function ProductWith(heads: seq<string>, tails: seq<seq<string>>): (r: seq<seq<string>>)
    ensures forall c :: c in r ==> |c| > 0 && c[0] in heads && c[1..] in tails
    decreases |heads|
  {
    if |heads| == 0 then []
    else ProductWith(heads[..|heads| - 1], tails) + Prefixed(heads[|heads| - 1], tails)
  }

  /** All choices of one path from each list, earlier lists varying slowest. */
  function Product(lists: seq<seq<string>>): (r: seq<seq<string>>)
    ensures forall c :: c in r ==> |c| == |lists|
    decreases |lists|
  {
    if |lists| == 0 then [[]] else ProductWith(lists[0], Product(lists[1..]))
  }

  /** The product of the list sizes. */
  function SizeProduct(lists: seq<seq<string>>): (n: nat)
    ensures (forall i :: 0 <= i < |lists| ==> |lists[i]| > 0) ==> n > 0
    decreases |lists|
  {
    if |lists| == 0 then 1 else |lists[0]| * SizeProduct(lists[1..])
  }

  lemma {:induction false} ProductWithSize(heads: seq<string>, tails: seq<seq<string>>)
    ensures |ProductWith(heads, tails)| == |heads| * |tails|
    decreases |heads|
  {
    if |heads| > 0 {
      ProductWithSize(heads[..|heads| - 1], tails);
      assert (|heads| - 1) * |tails| + |tails| == |heads| * |tails|;
    }
  }

  /** There are as many combinations as the product of the path-list sizes. */
  lemma {:induction false} ProductSize(lists: seq<seq<string>>)
    ensures |Product(lists)| == SizeProduct(lists)
    decreases |lists|
  {
    if |lists| > 0 {
      ProductSize(lists[1..]);
      ProductWithSize(lists[0], Product(lists[1..]));
    }
  }

  lemma {:induction false} ProductWithMembers(heads: seq<string>, tails: seq<seq<string>>, c: seq<string>)
    ensures c in ProductWith(heads, tails) <==> |c| > 0 && c[0] in heads && c[1..] in tails
    decreases |heads|
  {
    if |heads| > 0 {
      var init := heads[..|heads| - 1];
      var last := heads[|heads| - 1];
      ProductWithMembers(init, tails, c);
      PrefixedMembers(last, tails, c);
      assert ProductWith(heads, tails) == ProductWith(init, tails) + Prefixed(last, tails);
      assert c in ProductWith(heads, tails) <==> c in ProductWith(init, tails) || c in Prefixed(last, tails);
      assert heads == init + [last];
      assert |c| > 0 ==> (c[0] in heads <==> c[0] in init || c[0] == last);
    }
  }

  lemma PrefixedMembers(p: string, tails: seq<seq<string>>, c: seq<string>)
    ensures c in Prefixed(p, tails) <==> |c| > 0 && c[0] == p && c[1..] in tails
  {
    if c in Prefixed(p, tails) {
      var i :| 0 <= i < |tails| && Prefixed(p, tails)[i] == c;
      assert c[1..] == tails[i];
    }
    if |c| > 0 && c[0] == p && c[1..] in tails {
      var i :| 0 <= i < |tails| && tails[i] == c[1..];
      assert Prefixed(p, tails)[i] == c;
    }
  }

  /** A combination is exactly a choice of one path from each list, in list order. */
  lemma {:induction false} ProductMembers(lists: seq<seq<string>>, c: seq<string>)
    ensures c in Product(lists) <==> |c| == |lists| && forall i :: 0 <= i < |lists| ==> c[i] in lists[i]
    decreases |lists|
  {
    if |lists| == 0 {
      assert c in [[]] <==> c == [];
    } else {
      ProductWithMembers(lists[0], Product(lists[1..]), c);
      if |c| > 0 {
        ProductMembers(lists[1..], c[1..]);
        ChoiceSplits(lists, c);
      }
    }
  }

  /** A choice from every list is a choice from the first followed by a choice from the rest. */
  lemma ChoiceSplits(lists: seq<seq<string>>, c: seq<string>)
    requires |lists| > 0 && |c| > 0
    ensures (|c| == |lists| && forall i :: 0 <= i < |lists| ==> c[i] in lists[i]) <==>
      (c[0] in lists[0] && |c[1..]| == |lists[1..]| && forall i :: 0 <= i < |lists[1..]| ==> c[1..][i] in lists[1..][i])
  {
    assert forall i :: 0 < i < |c| ==> c[i] == c[1..][i - 1];
    assert forall i :: 0 < i < |lists| ==> lists[i] == lists[1..][i - 1];
  }

  lemma {:induction false} ProductWithDistinct(heads: seq<string>, tails: seq<seq<string>>)
    requires Distinct(heads) && Distinct(tails)
    ensures Distinct(ProductWith(heads, tails))
    decreases |heads|
  {
    if |heads| > 0 {
      var init := heads[..|heads| - 1];
      var last := heads[|heads| - 1];
      var a := ProductWith(init, tails);
      var b := Prefixed(last, tails);
      ProductWithDistinct(init, tails);
      forall i, j | 0 <= i < |a| && 0 <= j < |b| ensures a[i] != b[j] {
        ProductWithMembers(init, tails, a[i]);
        assert last !in init;
      }
      forall i, j | 0 <= i < j < |b| ensures b[i] != b[j] {
        assert b[i][1..] == tails[i] && b[j][1..] == tails[j];
      }
      DistinctConcat(a, b);
    }
  }

  lemma DistinctConcat(a: seq<seq<string>>, b: seq<seq<string>>)
    requires Distinct(a) && Distinct(b)
    requires forall i, j :: 0 <= i < |a| && 0 <= j < |b| ==> a[i] != b[j]
    ensures Distinct(a + b)
  {
    var s := a + b;
    forall i, j | 0 <= i < j < |s| ensures s[i] != s[j] {
      if j < |a| {
        assert s[i] == a[i] && s[j] == a[j];
      } else if i < |a| {
        assert s[i] == a[i] && s[j] == b[j - |a|];
      } else {
        assert s[i] == b[i - |a|] && s[j] == b[j - |a|];
      }
    }
  }

  /** Path lists without repeats give combinations without repeats. */
  lemma {:induction false} ProductDistinct(lists: seq<seq<string>>)
    requires forall i :: 0 <= i < |lists| ==> Distinct(lists[i])
    ensures Distinct(Product(lists))
    decreases |lists|
  {
    if |lists| > 0 {
      forall i | 0 <= i < |lists| - 1 ensures Distinct(lists[1..][i]) {
        assert lists[1..][i] == lists[i + 1];
      }
      ProductDistinct(lists[1..]);
      ProductWithDistinct(lists[0], Product(lists[1..]));
    }
  }

  // ---------------------------------------------------------------------------
  // Combination builders
  // ---------------------------------------------------------------------------

  /** The chosen paths set one after another over the given file map. */
  function Overlay(m: map<string, string>, names: seq<string>, paths: seq<string>): (r: map<string, string>)
    requires |names| == |paths|
    decreases |names|
  {
    if |names| == 0 then m
    else Overlay(m, names[..|names| - 1], paths[..|paths| - 1])[names[|names| - 1] := paths[|paths| - 1]]
  }

  lemma {:induction false} OverlayMeaning(m: map<string, string>, names: seq<string>, paths: seq<string>)
    requires |names| == |paths| && Distinct(names)
    ensures Overlay(m, names, paths).Keys == m.Keys + (set k | k in names)
    ensures forall i :: 0 <= i < |names| ==> Overlay(m, names, paths)[names[i]] == paths[i]
    ensures forall k :: k in m && k !in names ==> Overlay(m, names, paths)[k] == m[k]
    decreases |names|
  {
    if |names| > 0 {
      var n := |names| - 1;
      OverlayMeaning(m, names[..n], paths[..n]);
      forall i | 0 <= i < n ensures Overlay(m, names, paths)[names[i]] == paths[i] {
        assert names[..n][i] == names[i] && paths[..n][i] == paths[i];
      }
      assert names == names[..n] + [names[n]];
    }
  }

  /**
   * The builder for one combination: the template's replicates and custom parameters, its file
   * paths for names that are not varied, and the chosen path for each varied name.
   */
  function Assemble(template: JobBuilder, names: seq<string>, combination: seq<string>): (b: JobBuilder)
    requires |names| == |combination|
  {
    var kept := map k | k in template.filePaths && k !in names :: template.filePaths[k];
    JobBuilder(template.replicates, template.customParameters, Overlay(kept, names, combination))
  }

  /** Everything the template says carries over, except where a varied name overrides it. */
  lemma AssembleMeaning(template: JobBuilder, names: seq<string>, combination: seq<string>)
    requires |names| == |combination| && Distinct(names)
    ensures var b := Assemble(template, names, combination);
      b.replicates == template.replicates && b.customParameters == template.customParameters &&
      b.filePaths.Keys == template.filePaths.Keys + (set k | k in names) &&
      (forall i :: 0 <= i < |names| ==> b.filePaths[names[i]] == combination[i]) &&
      (forall k :: k in template.filePaths && k !in names ==> b.filePaths[k] == template.filePaths[k])
  {
    var kept := map k | k in template.filePaths && k !in names :: template.filePaths[k];
    OverlayMeaning(kept, names, combination);
  }

  /** Different combinations give different builders. */
  lemma AssembleInjective(template: JobBuilder, names: seq<string>, c1: seq<string>, c2: seq<string>)
    requires |names| == |c1| == |c2| && Distinct(names) && c1 != c2
    ensures Assemble(template, names, c1) != Assemble(template, names, c2)
  {
    AssembleMeaning(template, names, c1);
    AssembleMeaning(template, names, c2);
    var i :| 0 <= i < |c1| && c1[i] != c2[i];
    assert Assemble(template, names, c1).filePaths[names[i]] != Assemble(template, names, c2).filePaths[names[i]];
  }

  /** The builders for current followed by each completion. */
  function AssembleAll(template: JobBuilder, names: seq<string>, current: seq<string>, rest: seq<seq<string>>)
    : (r: seq<JobBuilder>)
    requires forall c :: c in rest ==> |current| + |c| == |names|
    ensures |r| == |rest|
  {
    seq(|rest|, i requires 0 <= i < |rest| => Assemble(template, names, current + rest[i]))
  }

  // ---------------------------------------------------------------------------
  // The combination count check
  // ---------------------------------------------------------------------------

  /** The count loop of generateCombinations, from a running total. */
  function Tally(lists: seq<seq<string>>, total: nat): (r: Result<nat>)
    ensures r.Failure? ==> r.error.kind == IllegalArgument
    decreases |lists|
  {
    if |lists| == 0 then Success(total)
    else if |lists[0]| == 0 then Failure(Error(IllegalArgument, "File specification cannot have empty path list"))
    else
      var next := total * |lists[0]|;
      if next > COMBINATION_LIMIT then
        Failure(Error(IllegalArgument, "Too many combinations (" + IntToString(next) + "). "
          + "Limit is 1000 combinations to prevent memory exhaustion."))
      else Tally(lists[1..], next)
  }

  /** With non-empty lists, the check fails exactly when the full product exceeds the limit. */
  lemma {:induction false} TallyMeaning(lists: seq<seq<string>>, total: nat)
    requires 0 < total <= COMBINATION_LIMIT
    requires forall i :: 0 <= i < |lists| ==> |lists[i]| > 0
    ensures Tally(lists, total).Failure? <==> total * SizeProduct(lists) > COMBINATION_LIMIT
    ensures Tally(lists, total).Success? ==> Tally(lists, total).value == total * SizeProduct(lists)
    decreases |lists|
  {
    if |lists| > 0 {
      var next := total * |lists[0]|;
      var rest := SizeProduct(lists[1..]);
      assert rest > 0 by {
        forall i | 0 <= i < |lists| - 1 ensures |lists[1..][i]| > 0 {
          assert lists[1..][i] == lists[i + 1];
        }
      }
      assert total * SizeProduct(lists) == next * rest by {
        assert SizeProduct(lists) == |lists[0]| * rest;
      }
      assert next <= next * rest;
      if next <= COMBINATION_LIMIT {
        forall i | 0 <= i < |lists| - 1 ensures |lists[1..][i]| > 0 {
          assert lists[1..][i] == lists[i + 1];
        }
        TallyMeaning(lists[1..], next);
      }
    }
  }

  /** The path lists in the iteration order of the logical names. */
  function PathLists(specs: map<string, seq<string>>, order: seq<string>): (lists: seq<seq<string>>)
    requires forall k :: k in order ==> k in specs
    ensures |lists| == |order| && forall i :: 0 <= i < |order| ==> lists[i] == specs[order[i]]
  {
    seq(|order|, i requires 0 <= i < |order| => specs[order[i]])
  }

  /** generateCombinations: the template alone, or the count check and then every combination. */
  function Combinations(template: JobBuilder, specs: map<string, seq<string>>, order: seq<string>)
    : (r: Result<seq<JobBuilder>>)
    requires KeyOrder(order, specs)
    ensures |specs| == 0 ==> r == Success([template])
    ensures r.Failure? ==> r.error.kind == IllegalArgument
  {
    if |specs| == 0 then Success([template])
    else
      var lists := PathLists(specs, order);
      match Tally(lists, 1)
      case Failure(e) => Failure(e)
      case Success(_) => Success(AssembleAll(template, order, [], Product(lists)))
  }

  /** Well-formed specifications have no empty path list. */
  lemma PathListsNonEmpty(specs: map<string, seq<string>>, order: seq<string>)
    requires KeyOrder(order, specs) && WellFormed(specs)
    ensures forall i :: 0 <= i < |order| ==> |PathLists(specs, order)[i]| > 0
  {
    forall i | 0 <= i < |order| ensures |PathLists(specs, order)[i]| > 0 {
      assert order[i] in specs;
    }
  }

  /**
   * The grid search fails exactly when the product of the path-list sizes exceeds 1000, and
   * otherwise yields that many builders.
   */
  lemma CombinationsCount(template: JobBuilder, specs: map<string, seq<string>>, order: seq<string>)
    requires KeyOrder(order, specs) && WellFormed(specs) && |specs| > 0
    ensures Combinations(template, specs, order).Failure? <==> SizeProduct(PathLists(specs, order)) > COMBINATION_LIMIT
    ensures Combinations(template, specs, order).Success? ==>
      |Combinations(template, specs, order).value| == SizeProduct(PathLists(specs, order))
  {
    var lists := PathLists(specs, order);
    PathListsNonEmpty(specs, order);
    TallyMeaning(lists, 1);
    ProductSize(lists);
  }

  /** The builder at position j is the template overlaid with the j-th choice of paths. */
  lemma CombinationAt(template: JobBuilder, specs: map<string, seq<string>>, order: seq<string>, j: nat)
    requires KeyOrder(order, specs) && |specs| > 0 && Combinations(template, specs, order).Success?
    requires j < |Combinations(template, specs, order).value|
    ensures var c := Product(PathLists(specs, order))[j];
      |c| == |order| && Combinations(template, specs, order).value[j] == Assemble(template, order, c)
  {
    var c := Product(PathLists(specs, order))[j];
    assert c in Product(PathLists(specs, order));
    assert [] + c == c;
  }

  /**
   * Each builder chooses one of its paths for every logical name and carries over the template's
   * replicates, custom parameters and the file paths that are not varied.
   */
  lemma CombinationsCarryOver(template: JobBuilder, specs: map<string, seq<string>>, order: seq<string>, j: nat)
    requires KeyOrder(order, specs) && |specs| > 0 && Combinations(template, specs, order).Success?
    requires j < |Combinations(template, specs, order).value|
    ensures var b := Combinations(template, specs, order).value[j];
      b.replicates == template.replicates && b.customParameters == template.customParameters &&
      b.filePaths.Keys == template.filePaths.Keys + specs.Keys &&
      (forall k :: k in specs ==> b.filePaths[k] in specs[k]) &&
      (forall k :: k in template.filePaths && k !in specs ==> b.filePaths[k] == template.filePaths[k])
  {
    var c := Product(PathLists(specs, order))[j];
    CombinationAt(template, specs, order, j);
    ProductMembers(PathLists(specs, order), c);
    AssembleChoice(template, specs, order, c);
  }

  /** The builder for one choice of paths, in terms of the specifications. */
  lemma AssembleChoice(template: JobBuilder, specs: map<string, seq<string>>, order: seq<string>, c: seq<string>)
    requires KeyOrder(order, specs) && |c| == |order|
    requires forall i :: 0 <= i < |order| ==> c[i] in specs[order[i]]
    ensures var b := Assemble(template, order, c);
      b.replicates == template.replicates && b.customParameters == template.customParameters &&
      b.filePaths.Keys == template.filePaths.Keys + specs.Keys &&
      (forall k :: k in specs ==> b.filePaths[k] in specs[k]) &&
      (forall k :: k in template.filePaths && k !in specs ==> b.filePaths[k] == template.filePaths[k])
  {
    AssembleMeaning(template, order, c);
    assert (set k | k in order) == specs.Keys;
    var b := Assemble(template, order, c);
    forall k | k in specs ensures b.filePaths[k] in specs[k] {
      var i :| 0 <= i < |order| && order[i] == k;
    }
  }

  /** When no path list repeats a path, no two builders are alike. */
  lemma CombinationsDistinct(template: JobBuilder, specs: map<string, seq<string>>, order: seq<string>)
    requires KeyOrder(order, specs) && |specs| > 0 && Combinations(template, specs, order).Success?
    requires forall k :: k in specs ==> Distinct(specs[k])
    ensures Distinct(Combinations(template, specs, order).value)
  {
    var lists := PathLists(specs, order);
    var r := Combinations(template, specs, order).value;
    forall i | 0 <= i < |lists| ensures Distinct(lists[i]) {
      assert order[i] in specs;
    }
    ProductDistinct(lists);
    forall i, j | 0 <= i < j < |r| ensures r[i] != r[j] {
      CombinationAt(template, specs, order, i);
      CombinationAt(template, specs, order, j);
      AssembleInjective(template, order, Product(lists)[i], Product(lists)[j]);
    }
  }

  // ---------------------------------------------------------------------------
  // The visitor
  // ---------------------------------------------------------------------------

  /** The specifications after storing one more. */
  function Stored(specs: map<string, seq<string>>, order: seq<string>, name: string, paths: seq<string>)
    : (r: (map<string, seq<string>>, seq<string>))
    ensures KeyOrder(order, specs) ==> KeyOrder(r.1, r.0)
    ensures r.0 == specs[name := paths]
  {
    (specs[name := paths], if name in specs then order else order + [name])
  }

  /** The specifications after one file specification: unchanged for a partial parse. */
  function AfterFileSpec(specs: map<string, seq<string>>, order: seq<string>, ctx: FileSpecContext)
    : (r: Result<(map<string, seq<string>>, seq<string>)>)
    ensures r.Failure? <==> ParseFileSpec(ctx).Failure?
    ensures r.Success? && KeyOrder(order, specs) ==> KeyOrder(r.value.1, r.value.0)
    ensures r.Success? && WellFormed(specs) ==> WellFormed(r.value.0)
  {
    match ParseFileSpec(ctx)
    case Failure(e) => Failure(e)
    case Success(None) => Success((specs, order))
    case Success(Some((name, paths))) => Success(Stored(specs, order, name, paths))
  }

  /** visitJobVariation's first pass: every specification in turn, stopping at the first error. */
  function VisitAll(specs: map<string, seq<string>>, order: seq<string>, contexts: seq<FileSpecContext>)
    : (r: Result<(map<string, seq<string>>, seq<string>)>)
    ensures r.Success? && KeyOrder(order, specs) ==> KeyOrder(r.value.1, r.value.0)
    ensures r.Success? && WellFormed(specs) ==> WellFormed(r.value.0)
    ensures r.Failure? <==> exists i :: 0 <= i < |contexts| && ParseFileSpec(contexts[i]).Failure?
    decreases |contexts|
  {
    if |contexts| == 0 then Success((specs, order))
    else match AfterFileSpec(specs, order, contexts[0])
      case Failure(e) => Failure(e)
      case Success((s, o)) =>
        var r := VisitAll(s, o, contexts[1..]);
        assert forall i :: 0 < i < |contexts| ==> contexts[i] == contexts[1..][i - 1];
        r
  }

  class JoshJobVariationVisitor {
    const templateBuilder: JobBuilder
    var fileSpecifications: map<string, seq<string>>
    /** The iteration order of fileSpecifications' keys. */
    var logicalNames: seq<string>

    predicate Valid()
      reads this
    {
      KeyOrder(logicalNames, fileSpecifications) && WellFormed(fileSpecifications)
    }

    constructor(builder: JobBuilder)
      ensures templateBuilder == builder && fileSpecifications == map[] && logicalNames == []
      ensures Valid()
    {
      templateBuilder := builder;
      fileSpecifications := map[];
      logicalNames := [];
    }

    /** visitFileSpec: validates one specification and stores its paths under its logical name. */
    method VisitFileSpec(ctx: FileSpecContext) returns (err: Option<Error>)
      modifies this
      ensures var r := AfterFileSpec(old(fileSpecifications), old(logicalNames), ctx);
        (r.Failure? ==> (err == Some(r.error) &&
          fileSpecifications == old(fileSpecifications) && logicalNames == old(logicalNames))) &&
        (r.Success? ==> err == None && (fileSpecifications, logicalNames) == r.value)
      ensures old(Valid()) ==> Valid()
    {
      if ctx.filename.None? || ctx.filepath.None? {
        return None;
      }
      var logicalName := Trim(ctx.filename.value);
      if logicalName == "" {
        return Some(Error(IllegalArgument, "File logical name cannot be empty"));
      }
      var pathList := ctx.filepath.value;
      if |pathList| == 0 {
        return Some(Error(IllegalArgument, "File path list cannot be empty for: " + logicalName + ". "
          + "Format should be: name=path1,path2 or name=path1"));
      }
      var paths := CollectPaths(logicalName, pathList);
      if paths.Failure? {
        return Some(paths.error);
      }
      assert ParseFileSpec(ctx) == Success(Some((logicalName, paths.value)));
      if logicalName !in fileSpecifications {
        logicalNames := logicalNames + [logicalName];
      }
      fileSpecifications := fileSpecifications[logicalName := paths.value];
      return None;
    }

    /** visitJobVariation: collects every specification, then generates the combinations. */
    method VisitJobVariation(contexts: seq<FileSpecContext>) returns (r: Result<seq<JobBuilder>>)
      requires Valid()
      modifies this
      ensures Valid()
      ensures var v := VisitAll(old(fileSpecifications), old(logicalNames), contexts);
        (v.Failure? ==> r == Failure(v.error)) &&
        (v.Success? ==> ((fileSpecifications, logicalNames) == v.value &&
          r == Combinations(templateBuilder, v.value.0, v.value.1)))
    {
      var i := 0;
      while i < |contexts|
        invariant 0 <= i <= |contexts| && Valid()
        invariant VisitAll(fileSpecifications, logicalNames, contexts[i..]) ==
          VisitAll(old(fileSpecifications), old(logicalNames), contexts)
      {
        assert contexts[i..][1..] == contexts[i + 1..];
        var err := VisitFileSpec(contexts[i]);
        if err.Some? {
          return Failure(err.value);
        }
        i := i + 1;
      }
      r := GenerateCombinations();
    }

    /** generateCombinations: the count check, the name and path lists, and the recursion. */
    method GenerateCombinations() returns (r: Result<seq<JobBuilder>>)
      requires KeyOrder(logicalNames, fileSpecifications)
      ensures r == Combinations(templateBuilder, fileSpecifications, logicalNames)
    {
      if |fileSpecifications| == 0 {
        return Success([templateBuilder]);
      }
      var pathLists := PathLists(fileSpecifications, logicalNames);
      var total := CountCombinations(pathLists);
      if total.Failure? {
        return Failure(total.error);
      }
      var combinations := GenerateCombinationsRecursive(logicalNames, pathLists, 0, []);
      assert pathLists[0..] == pathLists;
      r := Success(combinations);
    }

    /**
     * generateCombinationsRecursive: the builders it appends to the shared result list, one per
     * completion of currentCombination, in order.
     */
    method GenerateCombinationsRecursive(names: seq<string>, pathLists: seq<seq<string>>, currentIndex: nat,
        currentCombination: seq<string>) returns (result: seq<JobBuilder>)
      requires |pathLists| == |names| && currentIndex <= |names| && |currentCombination| == currentIndex
      ensures result == AssembleAll(templateBuilder, names, currentCombination, Product(pathLists[currentIndex..]))
      decreases |names| - currentIndex
    {
      if currentIndex == |names| {
        assert currentCombination + [] == currentCombination;
        return [Assemble(templateBuilder, names, currentCombination)];
      }
      var currentPathList := pathLists[currentIndex];
      var tails := Product(pathLists[currentIndex + 1..]);
      assert pathLists[currentIndex..][1..] == pathLists[currentIndex + 1..];
      result := [];
      for j := 0 to |currentPathList|
        invariant result == AssembleAll(templateBuilder, names, currentCombination, ProductWith(currentPathList[..j], tails))
      {
        var nextCombination := currentCombination + [currentPathList[j]];
        var more := GenerateCombinationsRecursive(names, pathLists, currentIndex + 1, nextCombination);
        ExpandStep(templateBuilder, names, currentCombination, currentPathList, j, tails);
        result := result + more;
      }
      assert currentPathList[..|currentPathList|] == currentPathList;
    }
  }

  /** The text of each path. */
  function PathTexts(pathList: seq<SinglePath>): (texts: seq<string>)
    ensures |texts| == |pathList| && forall i :: 0 <= i < |pathList| ==> texts[i] == PathText(pathList[i])
  {
    seq(|pathList|, i requires 0 <= i < |pathList| => PathText(pathList[i]))
  }

  /** The path loop of visitFileSpec: each path rebuilt from its tokens; an empty one is an error. */
  method CollectPaths(logicalName: string, pathList: seq<SinglePath>) returns (r: Result<seq<string>>)
    ensures r.Success? <==> "" !in PathTexts(pathList)
    ensures r.Success? ==> r.value == PathTexts(pathList)
    ensures r.Failure? ==> r.error == Error(IllegalArgument, "File path cannot be empty for: " + logicalName)
  {
    var paths: seq<string> := [];
    for i := 0 to |pathList|
      invariant |paths| == i
      invariant forall j :: 0 <= j < i ==> paths[j] == PathText(pathList[j]) && |paths[j]| > 0
    {
      var path := ReconstructPath(pathList[i]);
      if |path| == 0 {
        assert PathTexts(pathList)[i] == "";
        return Failure(Error(IllegalArgument, "File path cannot be empty for: " + logicalName));
      }
      paths := paths + [path];
    }
    assert paths == PathTexts(pathList);
    r := Success(paths);
  }

  /** The count loop of generateCombinations. */
  method CountCombinations(pathLists: seq<seq<string>>) returns (r: Result<nat>)
    ensures r == Tally(pathLists, 1)
  {
    var totalCombinations: nat := 1;
    var i := 0;
    while i < |pathLists|
      invariant 0 <= i <= |pathLists|
      invariant Tally(pathLists[i..], totalCombinations) == Tally(pathLists, 1)
    {
      assert pathLists[i..][1..] == pathLists[i + 1..];
      var paths := pathLists[i];
      if |paths| == 0 {
        return Failure(Error(IllegalArgument, "File specification cannot have empty path list"));
      }
      totalCombinations := totalCombinations * |paths|;
      if totalCombinations > COMBINATION_LIMIT {
        return Failure(Error(IllegalArgument, "Too many combinations (" + IntToString(totalCombinations) + "). "
          + "Limit is 1000 combinations to prevent memory exhaustion."));
      }
      i := i + 1;
    }
    r := Success(totalCombinations);
  }

  lemma AssembleAllConcat(template: JobBuilder, names: seq<string>, current: seq<string>, a: seq<seq<string>>,
      b: seq<seq<string>>)
    requires forall c :: c in a + b ==> |current| + |c| == |names|
    ensures AssembleAll(template, names, current, a + b) ==
      AssembleAll(template, names, current, a) + AssembleAll(template, names, current, b)
  {
    var x := AssembleAll(template, names, current, a + b);
    var y := AssembleAll(template, names, current, a) + AssembleAll(template, names, current, b);
    forall i | 0 <= i < |x| ensures x[i] == y[i] {
      if i < |a| {
        assert (a + b)[i] == a[i];
      } else {
        assert (a + b)[i] == b[i - |a|];
      }
    }
  }

  lemma AssembleAllPrefixed(template: JobBuilder, names: seq<string>, current: seq<string>, p: string,
      tails: seq<seq<string>>)
    requires forall c :: c in tails ==> |current| + 1 + |c| == |names|
    ensures AssembleAll(template, names, current, Prefixed(p, tails)) ==
      AssembleAll(template, names, current + [p], tails)
  {
    var b := Prefixed(p, tails);
    forall i | 0 <= i < |tails| ensures current + b[i] == current + [p] + tails[i] {
      assert current + ([p] + tails[i]) == current + [p] + tails[i];
    }
  }

  /** One more head: its builders follow those of the earlier heads. */
  lemma ExpandStep(template: JobBuilder, names: seq<string>, current: seq<string>, heads: seq<string>, j: nat,
      tails: seq<seq<string>>)
    requires j < |heads| && forall c :: c in tails ==> |current| + 1 + |c| == |names|
    ensures AssembleAll(template, names, current, ProductWith(heads[..j + 1], tails)) ==
      AssembleAll(template, names, current, ProductWith(heads[..j], tails)) +
      AssembleAll(template, names, current + [heads[j]], tails)
  {
    assert heads[..j + 1][..j] == heads[..j];
    var a := ProductWith(heads[..j], tails);
    var b := Prefixed(heads[j], tails);
    assert ProductWith(heads[..j + 1], tails) == a + b;
    AssembleAllConcat(template, names, current, a, b);
    AssembleAllPrefixed(template, names, current, heads[j], tails);
  }
}

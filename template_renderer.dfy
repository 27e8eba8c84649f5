/**
 * TemplateStringRenderer: rendering of export paths in two phases. Phase 1 replaces each
 * {name} whose name is the base name of one of the job's logical files by that file's name, and
 * rejects any other name except the export names; phase 2 handles {replicate}, {step} and
 * {variable} according to whether the path is a GeoTIFF.
 *
 * The job's files are a map from logical file name to the file's name (JoshJobFileInfo.getName),
 * and `order` is the iteration order of the map's key set.
 */
module TemplateRenderers {
  import opened Wrappers
  import opened Strings

  // ---------------------------------------------------------------------------
  // Character search
  // ---------------------------------------------------------------------------

  /** The first position of c in s. */
  function CharIndex(s: string, c: char): (r: Option<nat>)
    ensures r.Some? ==> r.value < |s| && s[r.value] == c && forall k :: 0 <= k < r.value ==> s[k] != c
    ensures r.None? ==> forall k :: 0 <= k < |s| ==> s[k] != c
    decreases |s|
  {
    if |s| == 0 then None
    else if s[0] == c then Some(0)
    else match CharIndex(s[1..], c)
      case None => None
      case Some(j) => Some(j + 1)
  }

  /** The first c is at i when s[i] is c and no c comes before. */
  lemma CharIndexAt(s: string, c: char, i: nat)
    requires i < |s| && s[i] == c && forall k :: 0 <= k < i ==> s[k] != c
    ensures CharIndex(s, c) == Some(i)
  {
  }

  /** s.lastIndexOf(c): the last position of c, or -1. */
  function LastIndexOfChar(s: string, c: char): (r: int)
    ensures -1 <= r < |s|
    ensures r >= 0 ==> s[r] == c
    ensures forall k :: r < k < |s| ==> s[k] != c
    decreases |s|
  {
    if |s| == 0 then -1
    else if s[|s| - 1] == c then |s| - 1
    else LastIndexOfChar(s[..|s| - 1], c)
  }

  // ---------------------------------------------------------------------------
  // Template variables found by the pattern \{([^}]+)\}
  // ---------------------------------------------------------------------------

  /**
   * The groups of successive matches of \{([^}]+)\}: at a '{' the group runs up to the first '}'
   * after it and must not be empty; the next search starts after that '}'. A '{' with no '}'
   * later, or immediately followed by '}', starts no match.
   */
  function TemplateMatches(s: string): (ms: seq<string>)
    ensures forall m :: m in ms ==> m != "" && '}' !in m
    decreases |s|
  {
    if |s| == 0 then []
    else if s[0] != '{' then TemplateMatches(s[1..])
    else match CharIndex(s[1..], '}')
      case Some(j) =>
        if j > 0 then [s[1..1 + j]] + TemplateMatches(s[j + 2..]) else TemplateMatches(s[1..])
      case None => TemplateMatches(s[1..])
  }

  function Braced(v: string): (b: string)
  {
    "{" + v + "}"
  }

  /** Text that occurs in a suffix occurs in the whole. */
  lemma ContainsInSuffix(s: string, q: string, k: nat)
    requires k <= |s| && Contains(s[k..], q)
    ensures Contains(s, q)
  {
    var i := IndexOf(s[k..], q).value;
    assert s[k..][i..i + |q|] == s[i + k..i + k + |q|];
    assert OccursAt(s, q, i + k);
  }

  /** Every variable found appears in braces in the template. */
  lemma {:induction false} TemplateMatchesOccur(s: string)
    ensures forall m :: m in TemplateMatches(s) ==> Contains(s, Braced(m))
    decreases |s|
  {
    if |s| == 0 {
    } else if s[0] != '{' {
      TemplateMatchesOccur(s[1..]);
      forall m | m in TemplateMatches(s[1..]) ensures Contains(s, Braced(m)) {
        ContainsInSuffix(s, Braced(m), 1);
      }
    } else {
      match CharIndex(s[1..], '}')
      case Some(j) =>
        if j > 0 {
          var rest := s[j + 2..];
          TemplateMatchesOccur(rest);
          var head := s[1..1 + j];
          assert s[0..j + 2] == Braced(head);
          assert OccursAt(s, Braced(head), 0);
          forall m | m in TemplateMatches(rest) ensures Contains(s, Braced(m)) {
            ContainsInSuffix(s, Braced(m), j + 2);
          }
        } else {
          TemplateMatchesOccur(s[1..]);
          forall m | m in TemplateMatches(s[1..]) ensures Contains(s, Braced(m)) {
            ContainsInSuffix(s, Braced(m), 1);
          }
        }
      case None =>
        TemplateMatchesOccur(s[1..]);
        forall m | m in TemplateMatches(s[1..]) ensures Contains(s, Braced(m)) {
          ContainsInSuffix(s, Braced(m), 1);
        }
    }
  }

  /** Text without '{' holds no template variable. */
  lemma {:induction false} NoBraceNoMatches(s: string)
    requires '{' !in s
    ensures TemplateMatches(s) == []
    decreases |s|
  {
    if |s| > 0 {
      NoBraceNoMatches(s[1..]);
    }
  }

  /**
   * Text without '{' before a placeholder {v} is skipped, and the search goes on after the
   * placeholder's '}'.
   */
  lemma {:induction false} MatchesOfPlaceholder(a: string, v: string, b: string)
    requires '{' !in a && v != "" && '}' !in v
    ensures TemplateMatches(a + Braced(v) + b) == [v] + TemplateMatches(b)
    decreases |a|
  {
    var s := a + Braced(v) + b;
    if |a| > 0 {
      assert s[1..] == a[1..] + Braced(v) + b;
      MatchesOfPlaceholder(a[1..], v, b);
    } else {
      assert s == "{" + (v + "}" + b);
      var t := s[1..];
      assert t == v + "}" + b;
      assert t[|v|] == '}';
      assert forall k :: 0 <= k < |v| ==> t[k] == v[k];
      CharIndexAt(t, '}', |v|);
      assert s[1..1 + |v|] == v;
      assert s[|v| + 2..] == b;
    }
  }

  // ---------------------------------------------------------------------------
  // Logical file names
  // ---------------------------------------------------------------------------

  /** extractBaseName: the text before the last '.', unless that '.' is the first character. */
  function ExtractBaseName(fileName: string): (r: string)
    ensures r == fileName || (r + "." <= fileName && '.' in fileName)
  {
    var lastDotIndex := LastIndexOfChar(fileName, '.');
    if lastDotIndex > 0 then
      assert fileName[..lastDotIndex + 1] == fileName[..lastDotIndex] + ".";
      fileName[..lastDotIndex]
    else fileName
  }

  /** A name and an extension without '.' give back the name. */
  lemma BaseNameOfExtension(x: string, ext: string)
    requires x != "" && '.' !in ext
    ensures ExtractBaseName(x + "." + ext) == x
  {
    var s := x + "." + ext;
    assert s[|x|] == '.';
    assert s[|x| + 1..] == ext;
    assert forall k :: |x| < k < |s| ==> s[k] == ext[k - |x| - 1];
    var k := LastIndexOfChar(s, '.');
    assert k == |x|;
    assert s[..|x|] == x;
  }

  /** A name with no '.', or whose only '.' comes first, is its own base name. */
  lemma BaseNameWithoutExtension(x: string)
    requires '.' !in x
    ensures ExtractBaseName(x) == x
    ensures ExtractBaseName("." + x) == "." + x
  {
    var s := "." + x;
    forall k | 0 < k < |s| ensures s[k] != '.' {
      assert s[k] == x[k - 1] && x[k - 1] in x;
    }
    assert s[0] == '.';
    assert LastIndexOfChar(s, '.') == 0;
  }

  /** isExportSpecificTemplate. */
  predicate IsExportSpecific(v: string)
  {
    v == "replicate" || v == "step" || v == "variable"
  }

  /** order lists the keys of files, each once. */
  predicate Enumerates(order: seq<string>, files: map<string, string>)
  {
    (forall i, j :: 0 <= i < j < |order| ==> order[i] != order[j]) &&
    (forall l :: l in order ==> l in files) &&
    (forall l :: l in files ==> l in order)
  }

  /** The first logical name in iteration order whose base name is v. */
  function FirstWithBase(order: seq<string>, v: string): (r: Option<string>)
    ensures r.Some? ==> r.value in order && ExtractBaseName(r.value) == v
    ensures r.None? <==> forall l :: l in order ==> ExtractBaseName(l) != v
    decreases |order|
  {
    if |order| == 0 then None
    else if ExtractBaseName(order[0]) == v then Some(order[0])
    else FirstWithBase(order[1..], v)
  }

  /** The name found is the earliest logical name with base name v. */
  lemma {:induction false} FirstWithBaseIsFirst(order: seq<string>, v: string, k: nat)
    requires k < |order| && ExtractBaseName(order[k]) == v
    requires forall h :: 0 <= h < k ==> ExtractBaseName(order[h]) != v
    ensures FirstWithBase(order, v) == Some(order[k])
    decreases k
  {
    if k > 0 {
      assert ExtractBaseName(order[0]) != v;
      forall h | 0 <= h < k - 1 ensures ExtractBaseName(order[1..][h]) != v {
        assert order[1..][h] == order[h + 1];
      }
      FirstWithBaseIsFirst(order[1..], v, k - 1);
    }
  }

  /** findMatchingLogicalFileName: the key-set loop with its early return. */
  method FindMatchingLogicalFileName(templateVar: string, files: map<string, string>, order: seq<string>)
    returns (r: Option<string>)
    requires Enumerates(order, files)
    ensures r == FirstWithBase(order, templateVar)
    ensures r.Some? ==> r.value in files
    ensures r.None? <==> forall l :: l in files ==> ExtractBaseName(l) != templateVar
  {
    var i := 0;
    while i < |order|
      invariant 0 <= i <= |order|
      invariant FirstWithBase(order[i..], templateVar) == FirstWithBase(order, templateVar)
    {
      assert order[i..][1..] == order[i + 1..];
      var baseName := ExtractBaseName(order[i]);
      if baseName == templateVar {
        return Some(order[i]);
      }
      i := i + 1;
    }
    return None;
  }

  // ---------------------------------------------------------------------------
  // Phase 1: job-specific templates
  // ---------------------------------------------------------------------------

  /** A variable that names no logical file and is not an export variable. */
  predicate IsUnknown(v: string, order: seq<string>)
  {
    FirstWithBase(order, v).None? && !IsExportSpecific(v)
  }

  /** The unknown variables among ms, in braces. */
  function UnknownIn(ms: seq<string>, order: seq<string>): (u: set<string>)
    ensures u == {} <==> forall m :: m in ms ==> !IsUnknown(m, order)
    ensures forall m :: m in ms && IsUnknown(m, order) ==> Braced(m) in u
    decreases |ms|
  {
    if |ms| == 0 then {}
    else
      var init := ms[..|ms| - 1];
      var last := ms[|ms| - 1];
      assert ms == init + [last];
      UnknownIn(init, order) + (if IsUnknown(last, order) then {Braced(last)} else {})
  }

  /** Every element of UnknownIn is a braced unknown variable. */
  lemma {:induction false} UnknownInOnly(ms: seq<string>, order: seq<string>, x: string)
    requires x in UnknownIn(ms, order)
    ensures exists m :: m in ms && IsUnknown(m, order) && x == Braced(m)
    decreases |ms|
  {
    var init := ms[..|ms| - 1];
    var last := ms[|ms| - 1];
    assert ms == init + [last];
    if x !in UnknownIn(init, order) {
      assert x == Braced(last);
    } else {
      UnknownInOnly(init, order, x);
      var m :| m in init && IsUnknown(m, order) && x == Braced(m);
      assert m in ms;
    }
  }

  /** The braced base name of each logical file in order. */
  function BracedBases(order: seq<string>): (r: seq<string>)
    ensures |r| == |order|
    ensures forall i :: 0 <= i < |order| ==> r[i] == Braced(ExtractBaseName(order[i]))
  {
    seq(|order|, i requires 0 <= i < |order| => Braced(ExtractBaseName(order[i])))
  }

  /** The templates the error message offers: the files' base names, then the export variables. */
  function Available(order: seq<string>): (r: seq<string>)
    ensures |r| == |order| + 3
    ensures r[|order|..] == ["{replicate}", "{step}", "{variable}"]
  {
    BracedBases(order) + ["{replicate}", "{step}", "{variable}"]
  }

  function UnknownMessage(unknown: set<string>, order: seq<string>): (msg: string)
  {
    "Unknown template variables: " + Join(SortedElements(unknown), ", ") + ". Available: " + Join(Available(order), ", ")
  }

  /** One match: a known variable's placeholder is replaced everywhere in the current result. */
  function SubstituteOne(result: string, v: string, files: map<string, string>, order: seq<string>): (r: string)
    requires Enumerates(order, files)
  {
    match FirstWithBase(order, v)
    case Some(logical) => ReplaceAll(result, Braced(v), files[logical])
    case None => result
  }

  /** The matches applied in turn to the evolving result. */
  function Substitute(result: string, ms: seq<string>, files: map<string, string>, order: seq<string>): (r: string)
    requires Enumerates(order, files)
    decreases |ms|
  {
    if |ms| == 0 then result
    else Substitute(SubstituteOne(result, ms[0], files, order), ms[1..], files, order)
  }

  /**
   * processJobSpecificTemplates: the template with every known placeholder replaced, or a
   * RuntimeException naming the unknown ones and the available ones.
   */
  function JobSpecific(template: string, files: map<string, string>, order: seq<string>): (r: Result<string>)
    requires Enumerates(order, files)
    ensures r.Failure? <==> exists m :: m in TemplateMatches(template) && IsUnknown(m, order)
    ensures r.Failure? ==> r.error.kind == Runtime
  {
    var ms := TemplateMatches(template);
    var unknown := UnknownIn(ms, order);
    if unknown != {} then Failure(Error(Runtime, UnknownMessage(unknown, order)))
    else Success(Substitute(template, ms, files, order))
  }

  /** The loop collecting the braced base names, followed by the export variables. */
  method AvailableTemplates(order: seq<string>) returns (availableTemplates: seq<string>)
    ensures availableTemplates == Available(order)
  {
    availableTemplates := [];
    for k := 0 to |order|
      invariant availableTemplates == BracedBases(order[..k])
    {
      assert order[..k + 1] == order[..k] + [order[k]];
      availableTemplates := availableTemplates + [Braced(ExtractBaseName(order[k]))];
    }
    assert order[..|order|] == order;
    availableTemplates := availableTemplates + ["{replicate}", "{step}", "{variable}"];
  }

  /** The matcher loop, the replacement of each known placeholder and the error report. */
  method ProcessJobSpecificTemplates(template: string, files: map<string, string>, order: seq<string>)
    returns (r: Result<string>)
    requires Enumerates(order, files)
    ensures r == JobSpecific(template, files, order)
  {
    var ms := TemplateMatches(template);
    var result, unknownTemplates := ReplaceMatches(template, ms, files, order);
    if unknownTemplates != {} {
      var availableTemplates := AvailableTemplates(order);
      var unknownList := Join(SortedElements(unknownTemplates), ", ");
      var availableList := Join(availableTemplates, ", ");
      return Failure(Error(Runtime, "Unknown template variables: " + unknownList + ". Available: " + availableList));
    }
    r := Success(result);
  }

  /** The loop over the matches: replaces each known placeholder and collects the unknown ones. */
  method ReplaceMatches(template: string, ms: seq<string>, files: map<string, string>, order: seq<string>)
    returns (result: string, unknownTemplates: set<string>)
    requires Enumerates(order, files)
    ensures result == Substitute(template, ms, files, order)
    ensures unknownTemplates == UnknownIn(ms, order)
  {
    unknownTemplates := {};
    result := template;
    var i := 0;
    while i < |ms|
      invariant 0 <= i <= |ms|
      invariant unknownTemplates == UnknownIn(ms[..i], order)
      invariant Substitute(result, ms[i..], files, order) == Substitute(template, ms, files, order)
    {
      var templateVar := ms[i];
      var templatePattern := Braced(templateVar);
      assert ms[..i + 1][..i] == ms[..i];
      assert ms[i..][1..] == ms[i + 1..];
      var logicalFileName := FindMatchingLogicalFileName(templateVar, files, order);
      if logicalFileName.Some? {
        result := ReplaceAll(result, templatePattern, files[logicalFileName.value]);
      } else if IsExportSpecific(templateVar) {
      } else {
        unknownTemplates := unknownTemplates + {templatePattern};
      }
      i := i + 1;
    }
    assert ms[..i] == ms;
  }

  /** Copying a prefix that cannot start the pattern. */
  lemma {:induction false} ReplaceAllCopyPrefix(a: string, s: string, p: string, r: string)
    requires |p| > 0 && p[0] !in a
    ensures ReplaceAll(a + s, p, r) == a + ReplaceAll(s, p, r)
    decreases |a|
  {
    if |a| > 0 {
      var t := a[1..] + s;
      assert a + s == [a[0]] + t;
      assert a[0] in a;
      if |t| + 1 >= |p| {
        ReplaceAllSkip(a[0], t, p, r);
        ReplaceAllCopyPrefix(a[1..], s, p, r);
        assert ReplaceAll(a + s, p, r) == [a[0]] + (a[1..] + ReplaceAll(s, p, r));
        assert a == [a[0]] + a[1..];
      } else {
        assert |a + s| < |p| && |s| < |p|;
        assert ReplaceAll(a + s, p, r) == a + s;
        assert ReplaceAll(s, p, r) == s;
      }
    } else {
      assert a + s == s && a + ReplaceAll(s, p, r) == ReplaceAll(s, p, r);
    }
  }

  /**
   * A known placeholder between texts without '{' becomes the file's name, as in
   * "/data/output_{example}.nc" with example.jshc named example_1.
   */
  lemma KnownPlaceholderReplaced(a: string, v: string, b: string, files: map<string, string>, order: seq<string>)
    requires Enumerates(order, files)
    requires '{' !in a && '{' !in b && v != "" && '}' !in v
    requires FirstWithBase(order, v).Some?
    ensures JobSpecific(a + Braced(v) + b, files, order) ==
      Success(a + files[FirstWithBase(order, v).value] + b)
  {
    var s := a + Braced(v) + b;
    MatchesOfPlaceholder(a, v, b);
    NoBraceNoMatches(b);
    assert TemplateMatches(s) == [v];
    var name := files[FirstWithBase(order, v).value];
    ReplaceAllOverPrefix(a, Braced(v), name, b);
    ReplaceAllAbsent(b, Braced(v), name);
    assert UnknownIn([v], order) == {} by {
      assert [v][..0] == [];
    }
    assert Substitute(s, [v], files, order) == Substitute(a + name + b, [], files, order);
  }

  /** An unknown placeholder fails the render and the message names it. */
  lemma UnknownPlaceholderFails(a: string, v: string, b: string, files: map<string, string>, order: seq<string>)
    requires Enumerates(order, files)
    requires '{' !in a && '{' !in b && v != "" && '}' !in v
    requires IsUnknown(v, order)
    ensures JobSpecific(a + Braced(v) + b, files, order) ==
      Failure(Error(Runtime, UnknownMessage({Braced(v)}, order)))
  {
    MatchesOfPlaceholder(a, v, b);
    NoBraceNoMatches(b);
    assert TemplateMatches(a + Braced(v) + b) == [v];
    assert [v][..0] == [];
    assert UnknownIn([v], order) == {Braced(v)};
  }

  /** An export placeholder naming no file is left for phase 2. */
  lemma ExportPlaceholderKept(a: string, v: string, b: string, files: map<string, string>, order: seq<string>)
    requires Enumerates(order, files)
    requires '{' !in a && '{' !in b && IsExportSpecific(v) && FirstWithBase(order, v).None?
    ensures JobSpecific(a + Braced(v) + b, files, order) == Success(a + Braced(v) + b)
  {
    var s := a + Braced(v) + b;
    MatchesOfPlaceholder(a, v, b);
    NoBraceNoMatches(b);
    assert TemplateMatches(s) == [v];
    assert [v][..0] == [];
    assert UnknownIn([v], order) == {};
    assert Substitute(s, [v], files, order) == Substitute(s, [], files, order);
  }

  /** Without '{' there is nothing to replace and nothing unknown. */
  lemma JobSpecificWithoutBraces(template: string, files: map<string, string>, order: seq<string>)
    requires Enumerates(order, files) && '{' !in template
    ensures JobSpecific(template, files, order) == Success(template)
  {
    NoBraceNoMatches(template);
  }

  // ---------------------------------------------------------------------------
  // Phase 2: export-specific templates
  // ---------------------------------------------------------------------------

  /** The GeoTIFF test of processExportSpecificTemplates. */
  predicate IsGeoTiff(template: string)
  {
    Contains(template, ".tif") || Contains(template, ".tiff")
  }

  /** The second test is subsumed by the first: every ".tiff" starts with ".tif". */
  lemma GeoTiffIsTif(template: string)
    ensures IsGeoTiff(template) <==> Contains(template, ".tif")
  {
    if Contains(template, ".tiff") {
      var i := IndexOf(template, ".tiff").value;
      assert template[i..i + 4] == template[i..i + 5][..4];
      assert OccursAt(template, ".tif", i);
    }
  }

  /**
   * processExportSpecificTemplates: for a GeoTIFF {replicate} becomes the replicate number and
   * the other two stay as markers; otherwise the markers come first and {replicate} is deleted.
   */
  function ExportSpecific(template: string, replicate: int): (r: string)
  {
    if IsGeoTiff(template) then
      var withReplicate := ReplaceAll(template, "{replicate}", IntToString(replicate));
      var withStep := ReplaceAll(withReplicate, "{step}", "__step__");
      ReplaceAll(withStep, "{variable}", "__variable__")
    else
      var withStep := ReplaceAll(template, "{step}", "__step__");
      var withVariable := ReplaceAll(withStep, "{variable}", "__variable__");
      ReplaceAll(withVariable, "{replicate}", "")
  }

  /** For a GeoTIFF no export placeholder survives. */
  lemma GeoTiffLeavesNoPlaceholder(template: string, replicate: int)
    requires IsGeoTiff(template)
    ensures var r := ExportSpecific(template, replicate);
      !Contains(r, "{replicate}") && !Contains(r, "{step}") && !Contains(r, "{variable}")
  {
    var n := IntToString(replicate);
    assert n[0] in n;
    var s1 := ReplaceAll(template, "{replicate}", n);
    var s2 := ReplaceAll(s1, "{step}", "__step__");
    var s3 := ReplaceAll(s2, "{variable}", "__variable__");
    NoNewOccurrence(template, "{replicate}", n, "{replicate}");
    NoNewOccurrence(s1, "{step}", "__step__", "{replicate}");
    NoNewOccurrence(s2, "{variable}", "__variable__", "{replicate}");
    NoNewOccurrence(s1, "{step}", "__step__", "{step}");
    NoNewOccurrence(s2, "{variable}", "__variable__", "{step}");
    NoNewOccurrence(s2, "{variable}", "__variable__", "{variable}");
    AbsentIsNotContains(s3, "{replicate}");
    AbsentIsNotContains(s3, "{step}");
    AbsentIsNotContains(s3, "{variable}");
  }

  /** Otherwise, a template without {replicate} keeps none and has no {step} or {variable} left. */
  lemma OtherFormatLeavesNoPlaceholder(template: string, replicate: int)
    requires !IsGeoTiff(template) && !Contains(template, "{replicate}")
    ensures var r := ExportSpecific(template, replicate);
      !Contains(r, "{replicate}") && !Contains(r, "{step}") && !Contains(r, "{variable}")
  {
    var s1 := ReplaceAll(template, "{step}", "__step__");
    var s2 := ReplaceAll(s1, "{variable}", "__variable__");
    AbsentIsNotContains(template, "{replicate}");
    NoNewOccurrence(template, "{step}", "__step__", "{replicate}");
    NoNewOccurrence(s1, "{variable}", "__variable__", "{replicate}");
    NoNewOccurrence(template, "{step}", "__step__", "{step}");
    NoNewOccurrence(s1, "{variable}", "__variable__", "{step}");
    NoNewOccurrence(s1, "{variable}", "__variable__", "{variable}");
    ReplaceAllMissing(s2, "{replicate}", "");
    AbsentIsNotContains(s2, "{replicate}");
    AbsentIsNotContains(s2, "{step}");
    AbsentIsNotContains(s2, "{variable}");
  }

  /** A placeholder between texts without '{' that does not start with p is copied unchanged. */
  lemma PassOverPlaceholder(a: string, w: string, b: string, p: string, r: string)
    requires |p| > 0 && p[0] == '{' && '{' !in a && '{' !in b && |w| > 0 && '{' !in w[1..]
    requires !OccursAt(w + b, p, 0)
    ensures ReplaceAll(a + w + b, p, r) == a + w + b
  {
    assert a + w + b == a + (w + b);
    ReplaceAllCopyPrefix(a, w + b, p, r);
    var t := w + b;
    assert t[1..] == w[1..] + b;
    ReplaceAllAbsent(t[1..], p, r);
    if |t| >= |p| {
      assert t == [t[0]] + t[1..];
    }
  }

  /** {replicate} is not a {step} or a {variable}: replacing those copies it. */
  lemma ReplicateSurvivesMarkers(a: string, b: string)
    requires '{' !in a && '{' !in b
    ensures ReplaceAll(a + "{replicate}" + b, "{step}", "__step__") == a + "{replicate}" + b
    ensures ReplaceAll(a + "{replicate}" + b, "{variable}", "__variable__") == a + "{replicate}" + b
  {
    var w := "{replicate}";
    assert (w + b)[..6] == "{repli";
    PassOverPlaceholder(a, w, b, "{step}", "__step__");
    assert (w + b)[..10] == "{replicate";
    PassOverPlaceholder(a, w, b, "{variable}", "__variable__");
  }

  /** Outside GeoTIFF, {replicate} is deleted: "a{replicate}b" becomes "ab". */
  lemma OtherFormatDeletesReplicate(a: string, b: string, replicate: int)
    requires '{' !in a && '{' !in b && !IsGeoTiff(a + "{replicate}" + b)
    ensures ExportSpecific(a + "{replicate}" + b, replicate) == a + b
  {
    var s := a + "{replicate}" + b;
    calc {
      ExportSpecific(s, replicate);
      ReplaceAll(ReplaceAll(ReplaceAll(s, "{step}", "__step__"), "{variable}", "__variable__"), "{replicate}", "");
      { ReplicateSurvivesMarkers(a, b); }
      ReplaceAll(s, "{replicate}", "");
      { ReplaceAllOverPrefix(a, "{replicate}", "", b); ReplaceAllAbsent(b, "{replicate}", ""); }
      a + b;
    }
  }

  /** For a GeoTIFF, {replicate} becomes the replicate number: "a{replicate}b" becomes "a3b". */
  lemma GeoTiffNumbersReplicate(a: string, b: string, replicate: int)
    requires '{' !in a && '{' !in b && IsGeoTiff(a + "{replicate}" + b)
    ensures ExportSpecific(a + "{replicate}" + b, replicate) == a + IntToString(replicate) + b
  {
    var n := IntToString(replicate);
    ReplaceAllOverPrefix(a, "{replicate}", n, b);
    ReplaceAllAbsent(b, "{replicate}", n);
    var s := a + n + b;
    assert '{' !in n;
    assert '{' !in s;
    ReplaceAllAbsent(s, "{step}", "__step__");
    ReplaceAllAbsent(s, "{variable}", "__variable__");
  }

  /** Text without '{' passes phase 2 unchanged. */
  lemma ExportWithoutBraces(template: string, replicate: int)
    requires '{' !in template
    ensures ExportSpecific(template, replicate) == template
  {
    ReplaceAllAbsent(template, "{replicate}", IntToString(replicate));
    ReplaceAllAbsent(template, "{step}", "__step__");
    ReplaceAllAbsent(template, "{variable}", "__variable__");
    ReplaceAllAbsent(template, "{replicate}", "");
  }

  // ---------------------------------------------------------------------------
  // renderTemplate
  // ---------------------------------------------------------------------------

  /** renderTemplate: a null or empty template is returned as it is; otherwise both phases. */
  function RenderTemplate(template: Option<string>, files: map<string, string>, order: seq<string>, replicate: int)
    : (r: Result<Option<string>>)
    requires Enumerates(order, files)
    ensures (template.None? || template.value == "") ==> r == Success(template)
    ensures r.Failure? <==> template.Some? && JobSpecific(template.value, files, order).Failure?
    ensures r.Success? && template.Some? && template.value != "" ==>
      r.value == Some(ExportSpecific(JobSpecific(template.value, files, order).value, replicate))
  {
    match template
    case None => Success(None)
    case Some(t) =>
      if t == "" then Success(Some(t))
      else match JobSpecific(t, files, order)
        case Failure(e) => Failure(e)
        case Success(afterJobTemplates) => Success(Some(ExportSpecific(afterJobTemplates, replicate)))
  }

  /**
   * The two phases together on a path with one job placeholder and no other braces, as in
   * "file:///tmp/josh_{example}.csv": the file's name is spliced in, provided it has no '{'.
   */
  lemma RenderKnownPlaceholder(a: string, v: string, b: string, files: map<string, string>, order: seq<string>, replicate: int)
    requires Enumerates(order, files)
    requires '{' !in a && '{' !in b && v != "" && '}' !in v && FirstWithBase(order, v).Some?
    requires '{' !in files[FirstWithBase(order, v).value]
    ensures RenderTemplate(Some(a + Braced(v) + b), files, order, replicate) ==
      Success(Some(a + files[FirstWithBase(order, v).value] + b))
  {
    KnownPlaceholderReplaced(a, v, b, files, order);
    ExportWithoutBraces(a + files[FirstWithBase(order, v).value] + b, replicate);
  }
}

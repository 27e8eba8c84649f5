/**
 * The parts of java.lang.String and java.util.StringTokenizer that the modelled code
 * relies on: lexicographic comparison (String.compareTo, which orders TreeMap keys),
 * literal search, String.split with a literal separator, joining, trim, literal replace
 * and the decimal rendering of integers.
 */
module Strings {
  import opened Wrappers

  // ---------------------------------------------------------------------------
  // Ordering: String.compareTo(a, b) <= 0
  // ---------------------------------------------------------------------------

  /** a sorts before or equal to b: compare character by character, a prefix sorts first. */
  predicate LessEq(a: string, b: string)
  {
    |a| == 0 || (|b| > 0 && (a[0] < b[0] || (a[0] == b[0] && LessEq(a[1..], b[1..]))))
  }

  predicate Less(a: string, b: string)
  {
    LessEq(a, b) && a != b
  }

  lemma {:induction false} LessEqRefl(a: string)
    ensures LessEq(a, a)
  {
    if |a| > 0 { LessEqRefl(a[1..]); }
  }

  lemma {:induction false} LessEqAntisym(a: string, b: string)
    requires LessEq(a, b) && LessEq(b, a)
    ensures a == b
  {
    if |a| > 0 { LessEqAntisym(a[1..], b[1..]); }
  }

  lemma LessEqAntisymAll()
    ensures forall a, b :: LessEq(a, b) && LessEq(b, a) ==> a == b
  {
    forall a, b | LessEq(a, b) && LessEq(b, a) ensures a == b { LessEqAntisym(a, b); }
  }

  lemma {:induction false} LessEqTotal(a: string, b: string)
    ensures LessEq(a, b) || LessEq(b, a)
  {
    if |a| > 0 && |b| > 0 && a[0] == b[0] { LessEqTotal(a[1..], b[1..]); }
  }

  lemma {:induction false} LessEqTrans(a: string, b: string, c: string)
    requires LessEq(a, b) && LessEq(b, c)
    ensures LessEq(a, c)
  {
    if |a| > 0 && a[0] == b[0] && b[0] == c[0] { LessEqTrans(a[1..], b[1..], c[1..]); }
  }

  lemma LessTrans(a: string, b: string, c: string)
    requires Less(a, b) && Less(b, c)
    ensures Less(a, c)
  {
    LessEqTrans(a, b, c);
    LessEqAntisymAll();
  }

  predicate IsLeast(m: string, s: set<string>)
  {
    forall x :: x in s ==> LessEq(m, x)
  }

  /** Every finite non-empty set of strings has a least element. */
  lemma {:induction false} LeastExists(s: set<string>)
    requires s != {}
    ensures exists m :: m in s && IsLeast(m, s)
  {
    var y :| y in s;
    if s == {y} {
      LessEqRefl(y);
      assert IsLeast(y, s);
    } else {
      LeastExists(s - {y});
      var m :| m in s - {y} && IsLeast(m, s - {y});
      LessEqTotal(m, y);
      if LessEq(m, y) {
        assert IsLeast(m, s);
      } else {
        forall x | x in s ensures LessEq(y, x) {
          if x != y { LessEqTrans(y, m, x); } else { LessEqRefl(y); }
        }
        assert IsLeast(y, s);
      }
    }
  }

  /** The first key a TreeMap over these keys would visit. */
  function Least(s: set<string>): (m: string)
    requires s != {}
    ensures m in s && IsLeast(m, s)
  {
    LeastExists(s);
    LessEqAntisymAll();
    var m :| m in s && IsLeast(m, s);
    m
  }

  predicate StrictlySorted(q: seq<string>)
  {
    forall i, j :: 0 <= i < j < |q| ==> Less(q[i], q[j])
  }

  /** Putting the least element of s in front of a sorted enumeration of the rest enumerates s. */
  lemma SortedCons(m: string, s: set<string>, rest: seq<string>)
    requires m in s && IsLeast(m, s)
    requires StrictlySorted(rest) && |rest| == |s - {m}| && forall x :: x in rest <==> x in s - {m}
    ensures StrictlySorted([m] + rest) && |[m] + rest| == |s|
    ensures forall x :: x in [m] + rest <==> x in s
  {
    assert forall j :: 0 <= j < |rest| ==> Less(m, rest[j]) by {
      forall j | 0 <= j < |rest| ensures Less(m, rest[j]) {
        assert rest[j] in s - {m};
      }
    }
    var q := [m] + rest;
    assert forall i :: 0 < i < |q| ==> q[i] == rest[i - 1];
  }

  /** The keys of a TreeMap (or elements of a TreeSet) in iteration order. */
  function SortedElements(s: set<string>): (q: seq<string>)
    ensures StrictlySorted(q)
    ensures |q| == |s|
    ensures forall x :: x in q <==> x in s
    decreases |s|
  {
    if s == {} then []
    else
      var m := Least(s);
      var rest := SortedElements(s - {m});
      SortedCons(m, s, rest);
      [m] + rest
  }

  function FirstOr<T>(q: seq<T>, d: T): (r: T)
    ensures |q| > 0 ==> r == q[0] && r in q
  {
    if |q| == 0 then d else q[0]
  }

  lemma SortedHeadIsLeast(p: seq<string>, x: string)
    requires StrictlySorted(p) && x in p
    ensures LessEq(p[0], x)
  {
    var i :| 0 <= i < |p| && p[i] == x;
    if i == 0 { LessEqRefl(x); }
  }

  /** A set has exactly one strictly sorted enumeration. */
  lemma {:induction false} SortedEnumerationUnique(p: seq<string>, q: seq<string>)
    requires StrictlySorted(p) && StrictlySorted(q)
    requires forall x :: x in p <==> x in q
    ensures p == q
    decreases |p|
  {
    if |p| > 0 {
      assert p[0] in q;
      assert |q| > 0;
      assert q[0] in p;
      SortedHeadIsLeast(p, q[0]);
      SortedHeadIsLeast(q, p[0]);
      LessEqAntisym(p[0], q[0]);
      forall x ensures x in p[1..] <==> x in q[1..] {
        if x in p[1..] {
          var k :| 1 <= k < |p| && p[k] == x;
          assert Less(p[0], p[k]);
          assert x in q;
          var m :| 0 <= m < |q| && q[m] == x;
          assert q[1..][m - 1] == x;
        }
        if x in q[1..] {
          var k :| 1 <= k < |q| && q[k] == x;
          assert Less(q[0], q[k]);
          assert x in p;
          var m :| 0 <= m < |p| && p[m] == x;
          assert p[1..][m - 1] == x;
        }
      }
      SortedEnumerationUnique(p[1..], q[1..]);
      assert p == [p[0]] + p[1..] && q == [q[0]] + q[1..];
    } else {
      assert |q| == 0 || FirstOr(q, "") in p;
    }
  }

  // ---------------------------------------------------------------------------
  // Search
  // ---------------------------------------------------------------------------

  predicate OccursAt(s: string, p: string, i: int)
  {
    0 <= i && i + |p| <= |s| && s[i..i + |p|] == p
  }

  /** An occurrence at k >= 1 is an occurrence at k - 1 in the string without its first character. */
  lemma OccursShifted(s: string, p: string, k: int)
    requires 1 <= k && |s| > 0
    ensures OccursAt(s, p, k) <==> OccursAt(s[1..], p, k - 1)
  {
    if k + |p| <= |s| {
      assert s[k..k + |p|] == s[1..][k - 1..k - 1 + |p|];
    }
  }

  /** s.indexOf(p): the first position at which p occurs. */
  function IndexOf(s: string, p: string): (r: Option<nat>)
    ensures r.Some? ==> OccursAt(s, p, r.value) && forall k :: 0 <= k < r.value ==> !OccursAt(s, p, k)
    ensures r.None? ==> forall k :: !OccursAt(s, p, k)
    decreases |s|
  {
    if |p| > |s| then None
    else if s[..|p|] == p then Some(0)
    else match IndexOf(s[1..], p)
      case None =>
        assert forall k :: !OccursAt(s, p, k) by {
          forall k | OccursAt(s, p, k) ensures false {
            OccursShifted(s, p, k);
          }
        }
        None
      case Some(i) =>
        assert OccursAt(s, p, i + 1) by {
          OccursShifted(s, p, i + 1);
        }
        assert forall k :: 0 <= k < i + 1 ==> !OccursAt(s, p, k) by {
          forall k | 0 <= k < i + 1 && OccursAt(s, p, k) ensures false {
            OccursShifted(s, p, k);
          }
        }
        Some(i + 1)
  }

  predicate Contains(s: string, p: string)
  {
    IndexOf(s, p).Some?
  }

  // ---------------------------------------------------------------------------
  // Splitting and joining
  // ---------------------------------------------------------------------------

  /** All pieces between the occurrences of sep, found left to right without overlap. */
  function SplitAll(s: string, sep: string): (r: seq<string>)
    requires |sep| > 0
    ensures |r| >= 1
    decreases |s|
  {
    match IndexOf(s, sep)
    case None => [s]
    case Some(i) => [s[..i]] + SplitAll(s[i + |sep|..], sep)
  }

  /** Removes the trailing empty strings, as String.split with no limit does. */
  function DropTrailingEmpty(q: seq<string>): (r: seq<string>)
    ensures r <= q
    ensures |r| > 0 ==> r[|r| - 1] != ""
    ensures forall k :: |r| <= k < |q| ==> q[k] == ""
  {
    if |q| == 0 then []
    else if q[|q| - 1] == "" then DropTrailingEmpty(q[..|q| - 1])
    else q
  }

  /**
   * s.split(sep) for a separator without regular-expression metacharacters (or with
   * them escaped): when sep does not occur, the answer is just [s], even for s == "";
   * otherwise the pieces, without the trailing empty ones.
   */
  function JavaSplit(s: string, sep: string): (r: seq<string>)
    requires |sep| > 0
    ensures !Contains(s, sep) ==> r == [s]
  {
    if !Contains(s, sep) then [s] else DropTrailingEmpty(SplitAll(s, sep))
  }

  function Join(parts: seq<string>, sep: string): (r: string)
    ensures |parts| == 1 ==> r == parts[0]
    ensures |parts| == 0 ==> r == ""
  {
    if |parts| == 0 then ""
    else if |parts| == 1 then parts[0]
    else parts[0] + sep + Join(parts[1..], sep)
  }

  lemma {:induction false} JoinHasOnlyPartsAndSep(parts: seq<string>, sep: string, c: char)
    requires c !in sep
    requires forall k :: 0 <= k < |parts| ==> c !in parts[k]
    ensures c !in Join(parts, sep)
  {
    if |parts| > 1 {
      JoinHasOnlyPartsAndSep(parts[1..], sep, c);
    }
  }

  /**
   * Splitting a joined sequence recovers it when some character c of the separator (counted
   * at its first position k in the separator) occurs in no part.
   */
  lemma {:induction false} SplitAllJoin(parts: seq<string>, sep: string, k: nat)
    requires k < |sep| && sep[k] !in sep[..k]
    requires |parts| > 0
    requires forall j :: 0 <= j < |parts| ==> sep[k] !in parts[j]
    ensures SplitAll(Join(parts, sep), sep) == parts
  {
    if |parts| == 1 {
      NotContainsWithout(parts[0], sep, k);
    } else {
      assert sep[k] !in parts[0];
      SplitJoinStep(parts, sep, k);
      SplitAllJoin(parts[1..], sep, k);
      assert parts == [parts[0]] + parts[1..];
    }
  }

  /** Splitting a join of two or more parts takes off the first part. */
  lemma SplitJoinStep(parts: seq<string>, sep: string, k: nat)
    requires k < |sep| && sep[k] !in sep[..k]
    requires |parts| > 1 && sep[k] !in parts[0]
    ensures SplitAll(Join(parts, sep), sep) == [parts[0]] + SplitAll(Join(parts[1..], sep), sep)
  {
    var p0, tail := parts[0], Join(parts[1..], sep);
    var s := Join(parts, sep);
    assert s == p0 + sep + tail;
    FirstSeparator(p0, sep, tail, k);
    assert s[..|p0|] == p0 && s[|p0| + |sep|..] == tail;
  }

  /** In p0 + sep + tail, the first sep starts right after p0 when a character of sep is not in p0. */
  lemma FirstSeparator(p0: string, sep: string, tail: string, k: nat)
    requires k < |sep| && sep[k] !in sep[..k] && sep[k] !in p0
    ensures IndexOf(p0 + sep + tail, sep) == Some(|p0|)
  {
    var s := p0 + sep + tail;
    var c := sep[k];
    assert OccursAt(s, sep, |p0|) by { assert s[|p0|..|p0| + |sep|] == sep; }
    var i := IndexOf(s, sep).value;
    assert s[i + k] == c by { assert s[i + k] == s[i..i + |sep|][k]; }
    forall j | 0 <= j < |p0| + k ensures s[j] != c {
      if j < |p0| {
        assert s[j] == p0[j];
      } else {
        assert s[j] == sep[..k][j - |p0|];
      }
    }
  }

  /** A string lacking some character of p does not contain p. */
  lemma NotContainsWithout(s: string, p: string, k: nat)
    requires k < |p| && p[k] !in s
    ensures !Contains(s, p)
  {
  }

  /** JavaSplit undoes Join under the same condition, when the last part is non-empty. */
  lemma JavaSplitJoin(parts: seq<string>, sep: string, k: nat)
    requires k < |sep| && sep[k] !in sep[..k]
    requires |parts| > 0 && (|parts| == 1 || parts[|parts| - 1] != "")
    requires forall j :: 0 <= j < |parts| ==> sep[k] !in parts[j]
    ensures JavaSplit(Join(parts, sep), sep) == parts
  {
    SplitAllJoin(parts, sep, k);
    if |parts| == 1 {
      NotContainsWithout(parts[0], sep, k);
    }
  }

  /** Joining the pieces of a split with the same separator gives the string back. */
  lemma {:induction false} JoinSplitAll(s: string, sep: string)
    requires |sep| > 0
    ensures Join(SplitAll(s, sep), sep) == s
    decreases |s|
  {
    match IndexOf(s, sep)
    case None =>
    case Some(i) =>
      var t := s[i + |sep|..];
      var rest := SplitAll(t, sep);
      assert SplitAll(s, sep) == [s[..i]] + rest;
      JoinSplitAll(t, sep);
      JoinCons(s[..i], rest, sep);
      assert s[i..i + |sep|] == sep;
      assert s == s[..i] + s[i..i + |sep|] + t;
  }

  lemma JoinCons(a: string, rest: seq<string>, sep: string)
    requires |rest| > 0
    ensures Join([a] + rest, sep) == a + sep + Join(rest, sep)
  {
    assert ([a] + rest)[1..] == rest;
  }

  lemma {:induction false} JoinSnoc(p: seq<string>, x: string, sep: string)
    requires |p| > 0
    ensures Join(p + [x], sep) == Join(p, sep) + sep + x
    decreases |p|
  {
    if |p| > 1 {
      JoinSnoc(p[1..], x, sep);
      assert (p + [x])[1..] == p[1..] + [x];
    } else {
      assert (p + [x])[1..] == [x];
    }
  }

  predicate EndsWith(s: string, p: string)
  {
    |p| <= |s| && s[|s| - |p|..] == p
  }

  /** The last piece of a split of a string that contains sep but does not end with it is not empty. */
  lemma {:induction false} SplitAllLast(s: string, sep: string)
    requires |sep| > 0 && Contains(s, sep) && !EndsWith(s, sep)
    ensures SplitAll(s, sep)[|SplitAll(s, sep)| - 1] != ""
    decreases |s|
  {
    var i := IndexOf(s, sep).value;
    var t := s[i + |sep|..];
    assert SplitAll(s, sep) == [s[..i]] + SplitAll(t, sep);
    if Contains(t, sep) {
      SplitAllLast(t, sep);
    }
  }

  /** String.split drops nothing from a string that does not end with the separator. */
  lemma JavaSplitWhole(s: string, sep: string)
    requires |sep| > 0 && !EndsWith(s, sep)
    ensures JavaSplit(s, sep) == SplitAll(s, sep)
    ensures Join(JavaSplit(s, sep), sep) == s
  {
    if Contains(s, sep) {
      SplitAllLast(s, sep);
    } else {
      assert IndexOf(s, sep).None?;
    }
    JoinSplitAll(s, sep);
  }

  /** The first occurrence of a one-character separator is the first position holding it. */
  lemma IndexOfChar(s: string, c: char, i: int)
    requires 0 <= i < |s| && s[i] == c && forall k :: 0 <= k < i ==> s[k] != c
    ensures IndexOf(s, [c]) == Some(i)
  {
    assert OccursAt(s, [c], i) by { assert s[i..i + 1] == [c]; }
    OccursChar(s, c, IndexOf(s, [c]).value);
  }

  lemma IndexOfCharAbsent(s: string, c: char)
    requires c !in s
    ensures IndexOf(s, [c]) == None
  {
    var r := IndexOf(s, [c]);
    if r.Some? {
      OccursChar(s, c, r.value);
    }
  }

  lemma OccursChar(s: string, c: char, i: int)
    requires OccursAt(s, [c], i)
    ensures s[i] == c
  {
    assert s[i..i + 1] == [c];
  }

  /** Positions before the first occurrence of a one-character string do not hold the character. */
  lemma CharAbsentBefore(x: string, c: char, i: int)
    requires i <= |x| && forall k :: 0 <= k < i ==> !OccursAt(x, [c], k)
    ensures forall k :: 0 <= k < i ==> x[k] != c
  {
    forall k | 0 <= k < i ensures x[k] != c {
      assert !OccursAt(x, [c], k);
      assert k + 1 <= |x| && x[k..k + 1] == [x[k]];
    }
  }

  /** Appending a piece without the separator character appends it to the split. */
  lemma {:induction false} SplitAllAppend(x: string, c: char, y: string)
    requires c !in y
    ensures SplitAll(x + [c] + y, [c]) == SplitAll(x, [c]) + [y]
    decreases |x|
  {
    IndexOfCharAbsent(y, c);
    match IndexOf(x, [c])
    case None =>
      AppendWithoutSeparator(x, c, y);
    case Some(i) =>
      var t := x[i + 1..];
      AppendAfterSeparator(x, c, y, i);
      SplitAllAppend(t, c, y);
      assert SplitAll(x, [c]) == [x[..i]] + SplitAll(t, [c]);
  }

  /** When x has no c, the appended c is the first separator. */
  lemma AppendWithoutSeparator(x: string, c: char, y: string)
    requires IndexOf(x, [c]) == None
    ensures SplitAll(x + [c] + y, [c]) == [x] + SplitAll(y, [c])
  {
    var s := x + [c] + y;
    assert forall k :: 0 <= k < |x| ==> s[k] == x[k];
    CharAbsentBefore(x, c, |x|);
    IndexOfChar(s, c, |x|);
    assert s[..|x|] == x && s[|x| + 1..] == y;
  }

  /** When x has its first c at i, that c is also the first separator of x + [c] + y. */
  lemma AppendAfterSeparator(x: string, c: char, y: string, i: nat)
    requires IndexOf(x, [c]) == Some(i)
    ensures i < |x| && SplitAll(x + [c] + y, [c]) == [x[..i]] + SplitAll(x[i + 1..] + [c] + y, [c])
  {
    var s := x + [c] + y;
    AppendKeepsFirstSeparator(x, c, y, i);
    assert s[..i] == x[..i];
    assert s[i + 1..] == x[i + 1..] + [c] + y;
  }

  /** The first c of x is the first c of x + [c] + y. */
  lemma AppendKeepsFirstSeparator(x: string, c: char, y: string, i: nat)
    requires IndexOf(x, [c]) == Some(i)
    ensures i < |x| && IndexOf(x + [c] + y, [c]) == Some(i)
  {
    var s := x + [c] + y;
    assert forall k :: 0 <= k < |x| ==> s[k] == x[k];
    OccursChar(x, c, i);
    CharAbsentBefore(x, c, i);
    IndexOfChar(s, c, i);
  }

  // ---------------------------------------------------------------------------
  // java.util.StringTokenizer
  // ---------------------------------------------------------------------------

  /** Length of the leading run of characters that are not delimiters. */
  function RunLength(s: string, delims: set<char>): (n: nat)
    ensures n <= |s|
    ensures forall k :: 0 <= k < n ==> s[k] !in delims
    ensures n < |s| ==> s[n] in delims
  {
    if |s| == 0 || s[0] in delims then 0 else 1 + RunLength(s[1..], delims)
  }

  /** The tokens a StringTokenizer yields: the maximal runs of non-delimiter characters. */
  function Tokens(s: string, delims: set<char>): (r: seq<string>)
    ensures forall k :: 0 <= k < |r| ==> r[k] != [] && forall c :: c in r[k] ==> c !in delims
    decreases |s|
  {
    if |s| == 0 then []
    else if s[0] in delims then Tokens(s[1..], delims)
    else
      var n := RunLength(s, delims);
      [s[..n]] + Tokens(s[n..], delims)
  }

  lemma {:induction false} TokensOfDelimitersOnly(s: string, delims: set<char>)
    requires forall c :: c in s ==> c in delims
    ensures Tokens(s, delims) == []
    decreases |s|
  {
    if |s| > 0 { TokensOfDelimitersOnly(s[1..], delims); }
  }

  lemma {:induction false} TokensPrefix(w: string, rest: string, delims: set<char>)
    requires w != [] && forall c :: c in w ==> c !in delims
    requires rest == [] || rest[0] in delims
    ensures Tokens(w + rest, delims) == [w] + Tokens(rest, delims)
  {
    var s := w + rest;
    assert RunLength(s, delims) == |w| by { RunLengthOf(w, rest, delims); }
    assert s[..|w|] == w;
    assert s[|w|..] == rest;
  }

  lemma {:induction false} RunLengthOf(w: string, rest: string, delims: set<char>)
    requires forall c :: c in w ==> c !in delims
    requires rest == [] || rest[0] in delims
    ensures RunLength(w + rest, delims) == |w|
  {
    if |w| > 0 {
      assert (w + rest)[1..] == w[1..] + rest;
      RunLengthOf(w[1..], rest, delims);
    }
  }

  lemma {:induction false} TokensSkipDelimiters(pre: string, s: string, delims: set<char>)
    requires forall c :: c in pre ==> c in delims
    ensures Tokens(pre + s, delims) == Tokens(s, delims)
    decreases |pre|
  {
    if |pre| > 0 {
      var t := pre + s;
      assert t[0] == pre[0] && pre[0] in pre;
      assert t[1..] == pre[1..] + s;
      TokensSkipDelimiters(pre[1..], s, delims);
      assert Tokens(t, delims) == Tokens(t[1..], delims);
    } else {
      assert pre + s == s;
    }
  }

  /** Tokenizing words joined by a separator of delimiters gives the words back. */
  lemma {:induction false} TokensJoin(words: seq<string>, sep: string, delims: set<char>)
    requires |sep| > 0 && forall c :: c in sep ==> c in delims
    requires forall k :: 0 <= k < |words| ==> words[k] != [] && forall c :: c in words[k] ==> c !in delims
    ensures Tokens(Join(words, sep), delims) == words
  {
    if |words| == 0 {
    } else if |words| == 1 {
      TokensPrefix(words[0], [], delims);
      assert words[0] + [] == words[0];
    } else {
      var tail := Join(words[1..], sep);
      assert Join(words, sep) == words[0] + (sep + tail);
      TokensPrefix(words[0], sep + tail, delims);
      TokensSkipDelimiters(sep, tail, delims);
      TokensJoin(words[1..], sep, delims);
    }
  }

  // ---------------------------------------------------------------------------
  // trim, replace, integer rendering
  // ---------------------------------------------------------------------------

  predicate IsTrimmable(c: char) { c <= ' ' }

  /** String.trim: drops every leading and trailing character at or below U+0020. */
  function Trim(s: string): (r: string)
    ensures |r| <= |s|
    ensures r != [] ==> !IsTrimmable(r[0]) && !IsTrimmable(r[|r| - 1])
  {
    var a := TrimStart(s);
    var t := s[a..];
    t[..TrimEndLength(t)]
  }

  /** What trim keeps is a block of the input, and it is empty exactly when every character is trimmable. */
  lemma TrimShape(s: string)
    ensures exists i :: OccursAt(s, Trim(s), i)
    ensures (forall c :: c in s ==> IsTrimmable(c)) <==> Trim(s) == []
  {
    var a := TrimStart(s);
    var t := s[a..];
    var b := TrimEndLength(t);
    assert t[..b] == s[a..a + b];
    assert Trim(s) == t[..b];
    assert OccursAt(s, Trim(s), a);
    TrimEmptyIff(s);
  }

  lemma TrimEmptyIff(s: string)
    ensures (forall c :: c in s ==> IsTrimmable(c)) <==> TrimEndLength(s[TrimStart(s)..]) == 0
  {
    var a := TrimStart(s);
    var t := s[a..];
    var b := TrimEndLength(t);
    if b == 0 {
      forall c | c in s ensures IsTrimmable(c) {
        var k :| 0 <= k < |s| && s[k] == c;
      }
    }
    if forall c :: c in s ==> IsTrimmable(c) {
      if a < |s| { assert s[a] in s; }
    }
  }

  function TrimStart(s: string): (a: nat)
    ensures a <= |s|
    ensures forall k :: 0 <= k < a ==> IsTrimmable(s[k])
    ensures a < |s| ==> !IsTrimmable(s[a])
  {
    if |s| == 0 || !IsTrimmable(s[0]) then 0 else 1 + TrimStart(s[1..])
  }

  function TrimEndLength(s: string): (b: nat)
    ensures b <= |s|
    ensures forall k :: b <= k < |s| ==> IsTrimmable(s[k])
    ensures b > 0 ==> !IsTrimmable(s[b - 1])
  {
    if |s| == 0 || !IsTrimmable(s[|s| - 1]) then |s| else TrimEndLength(s[..|s| - 1])
  }

  lemma TrimUntouched(s: string)
    requires s != [] ==> !IsTrimmable(s[0]) && !IsTrimmable(s[|s| - 1])
    ensures Trim(s) == s
  {
    assert s[0..] == s;
    assert s[..|s|] == s;
  }

  /** Trailing trimmable characters after a string whose ends survive trim are dropped. */
  lemma TrimPaddedRight(s: string, pad: string)
    requires s != [] && !IsTrimmable(s[0]) && !IsTrimmable(s[|s| - 1])
    requires forall i :: 0 <= i < |pad| ==> IsTrimmable(pad[i])
    ensures Trim(s + pad) == s
  {
    assert (s + pad)[0] == s[0];
    assert (s + pad)[0..] == s + pad;
    TrimEndPadded(s, pad);
    assert (s + pad)[..|s|] == s;
  }

  lemma {:induction false} TrimEndPadded(s: string, pad: string)
    requires s != [] && !IsTrimmable(s[|s| - 1])
    requires forall i :: 0 <= i < |pad| ==> IsTrimmable(pad[i])
    ensures TrimEndLength(s + pad) == |s|
    decreases |pad|
  {
    if |pad| == 0 {
      assert s + pad == s;
    } else {
      assert (s + pad)[..|s + pad| - 1] == s + pad[..|pad| - 1];
      TrimEndPadded(s, pad[..|pad| - 1]);
    }
  }

  /** s.replace(p, r) for a non-empty literal p: every occurrence, left to right, without overlap. */
  function ReplaceAll(s: string, p: string, r: string): (t: string)
    requires |p| > 0
    decreases |s|
  {
    if |s| < |p| then s
    else if s[..|p|] == p then r + ReplaceAll(s[|p|..], p, r)
    else [s[0]] + ReplaceAll(s[1..], p, r)
  }

  /** Replacing a pattern whose first character does not occur leaves the string as it is. */
  lemma {:induction false} ReplaceAllAbsent(s: string, p: string, r: string)
    requires |p| > 0 && p[0] !in s
    ensures ReplaceAll(s, p, r) == s
    decreases |s|
  {
    if |s| >= |p| {
      assert s[..|p|][0] == s[0];
      ReplaceAllAbsent(s[1..], p, r);
    }
  }

  /** The pattern does not survive: no occurrence of p remains when r cannot start one. */
  lemma {:induction false} ReplaceAllOverPrefix(a: string, p: string, r: string, b: string)
    requires |p| > 0 && p[0] !in a
    ensures ReplaceAll(a + p + b, p, r) == a + r + ReplaceAll(b, p, r)
    decreases |a|
  {
    if |a| == 0 {
      assert a + p + b == p + b;
      ReplaceAllAtStart(p, r, b);
    } else {
      var t := a[1..] + p + b;
      assert a + p + b == [a[0]] + t;
      ReplaceAllSkip(a[0], t, p, r);
      ReplaceAllOverPrefix(a[1..], p, r, b);
      assert [a[0]] + (a[1..] + r + ReplaceAll(b, p, r)) == a + r + ReplaceAll(b, p, r);
    }
  }

  /** An occurrence at the start is replaced and the rest is processed after it. */
  lemma ReplaceAllAtStart(p: string, r: string, b: string)
    requires |p| > 0
    ensures ReplaceAll(p + b, p, r) == r + ReplaceAll(b, p, r)
  {
    var s := p + b;
    assert s[..|p|] == p;
    assert s[|p|..] == b;
  }

  /** A first character that does not start the pattern is copied. */
  lemma ReplaceAllSkip(c: char, t: string, p: string, r: string)
    requires |p| > 0 && c != p[0] && |t| + 1 >= |p|
    ensures ReplaceAll([c] + t, p, r) == [c] + ReplaceAll(t, p, r)
  {
    var s := [c] + t;
    assert s[..|p|][0] == c;
    assert s[1..] == t;
  }

  /**
   * As long as no replacement has been emitted (no first character of r is seen), the output of
   * ReplaceAll copies its input.
   */
  lemma {:induction false} CopiedPrefix(s: string, p: string, r: string, m: nat)
    requires |p| > 0 && |r| > 0
    requires m <= |ReplaceAll(s, p, r)| && r[0] !in ReplaceAll(s, p, r)[..m]
    ensures m <= |s| && ReplaceAll(s, p, r)[..m] == s[..m]
    decreases |s|
  {
    var t := ReplaceAll(s, p, r);
    if |s| >= |p| && m > 0 {
      assert t[0] in t[..m];
      if s[..|p|] != p {
        var u := ReplaceAll(s[1..], p, r);
        assert t == [s[0]] + u;
        assert u[..m - 1] == t[..m][1..];
        CopiedPrefix(s[1..], p, r, m - 1);
        assert t[..m] == [s[0]] + u[..m - 1];
      }
    }
  }

  /** q occurs nowhere in s. */
  ghost predicate Absent(s: string, q: string)
  {
    forall i :: !OccursAt(s, q, i)
  }

  lemma AbsentIsNotContains(s: string, q: string)
    ensures Absent(s, q) <==> !Contains(s, q)
  {
  }

  /**
   * ReplaceAll creates no occurrence of q, and leaves none of q = p, when r cannot start an
   * occurrence of q (q's first character is not in r) and cannot continue one (r's first
   * character is not in q).
   */
  lemma {:induction false} NoNewOccurrence(s: string, p: string, r: string, q: string)
    requires |p| > 0 && |r| > 0 && |q| > 0 && q[0] !in r && r[0] !in q
    requires q == p || Absent(s, q)
    ensures Absent(ReplaceAll(s, p, r), q)
    decreases |s|
  {
    if |s| < |p| {
    } else if s[..|p|] == p {
      var rest := s[|p|..];
      if q != p {
        AbsentInSuffix(s, q, |p|);
      }
      NoNewOccurrence(rest, p, r, q);
      AbsentAfterReplacement(r, ReplaceAll(rest, p, r), q);
    } else {
      var rest := s[1..];
      if q != p {
        AbsentInSuffix(s, q, 1);
      }
      NoNewOccurrence(rest, p, r, q);
      AbsentAfterCopy(s, p, r, q);
    }
  }

  /** No occurrence of q starts inside r, so none is added in front of a string without q. */
  lemma AbsentAfterReplacement(r: string, u: string, q: string)
    requires |q| > 0 && q[0] !in r && Absent(u, q)
    ensures Absent(r + u, q)
  {
    var t := r + u;
    forall i ensures !OccursAt(t, q, i) {
      if 0 <= i < |r| && i + |q| <= |t| {
        assert t[i..i + |q|][0] == r[i] && r[i] in r;
      } else if |r| <= i && i + |q| <= |t| {
        assert t[i..i + |q|] == u[i - |r|..i - |r| + |q|];
        assert !OccursAt(u, q, i - |r|);
      }
    }
  }

  /** A copied first character starts no occurrence of q when q is p or absent from s. */
  lemma AbsentAfterCopy(s: string, p: string, r: string, q: string)
    requires |p| > 0 && |r| > 0 && |q| > 0 && r[0] !in q
    requires |s| >= |p| && s[..|p|] != p && (q == p || Absent(s, q))
    requires Absent(ReplaceAll(s[1..], p, r), q)
    ensures Absent(ReplaceAll(s, p, r), q)
  {
    var u := ReplaceAll(s[1..], p, r);
    assert ReplaceAll(s, p, r) == [s[0]] + u;
    if OccursAt([s[0]] + u, q, 0) {
      CopyOccurrence(s, u, p, r, q);
    }
    ConsAbsent(s[0], u, q);
  }

  /** An occurrence of q at the start of a copied character continues in the copied input. */
  lemma CopyOccurrence(s: string, u: string, p: string, r: string, q: string)
    requires |p| > 0 && |r| > 0 && |q| > 0 && r[0] !in q && |s| > 0
    requires u == ReplaceAll(s[1..], p, r) && OccursAt([s[0]] + u, q, 0)
    ensures OccursAt(s, q, 0)
  {
    var t := [s[0]] + u;
    var n := |q| - 1;
    assert t[..|q|] == q;
    assert u[..n] == q[1..];
    assert r[0] !in u[..n];
    CopiedPrefix(s[1..], p, r, n);
    assert s[1..][..n] == q[1..];
    assert s[..|q|] == [s[0]] + s[1..][..n];
  }

  lemma ConsAbsent(c: char, u: string, q: string)
    requires Absent(u, q) && !OccursAt([c] + u, q, 0)
    ensures Absent([c] + u, q)
  {
    var t := [c] + u;
    forall i | 0 < i ensures !OccursAt(t, q, i) {
      if i + |q| <= |t| {
        assert t[i..i + |q|] == u[i - 1..i - 1 + |q|];
        assert !OccursAt(u, q, i - 1);
      }
    }
  }

  /** An occurrence in a suffix is an occurrence in the whole string. */
  lemma AbsentInSuffix(s: string, q: string, k: nat)
    requires k <= |s| && Absent(s, q)
    ensures Absent(s[k..], q)
  {
    forall i | OccursAt(s[k..], q, i) ensures OccursAt(s, q, i + k) {
      assert s[k..][i..i + |q|] == s[i + k..i + k + |q|];
    }
  }

  /** Replacing a pattern that does not occur changes nothing. */
  lemma {:induction false} ReplaceAllMissing(s: string, p: string, r: string)
    requires |p| > 0 && Absent(s, p)
    ensures ReplaceAll(s, p, r) == s
    decreases |s|
  {
    if |s| >= |p| {
      assert !OccursAt(s, p, 0);
      AbsentInSuffix(s, p, 1);
      ReplaceAllMissing(s[1..], p, r);
    }
  }

  function DigitChar(d: nat): (c: char)
    requires d < 10
    ensures '0' <= c <= '9'
  {
    "0123456789"[d]
  }

  /** The decimal text of a non-negative integer, as String.valueOf prints it. */
  function NatToString(n: nat): (s: string)
    ensures |s| > 0 && forall c :: c in s ==> '0' <= c <= '9'
    decreases n
  {
    if n < 10 then [DigitChar(n)] else NatToString(n / 10) + [DigitChar(n % 10)]
  }

  function IntToString(n: int): (s: string)
    ensures |s| > 0 && forall c :: c in s ==> c == '-' || '0' <= c <= '9'
  {
    if n < 0 then "-" + NatToString(-n) else NatToString(n)
  }
}

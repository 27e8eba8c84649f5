/**
 * RealizedDistribution: a distribution held as a finite list of values. The model covers taking a
 * given number of its values, with or without replacement, and the guards around sampling.
 */
module RealizedDistributions {
  import opened Wrappers
  import opened Strings

  const EMPTY_MESSAGE := "Cannot perform this operation on an empty distribution."
  const TOO_MANY_MESSAGE := "Cannot get more elements than present in a realized distribution without replacement."

  /** getSize: a realized distribution always knows its size. */
  function GetSize<V>(values: seq<V>): (r: Option<nat>)
    ensures r == Some(|values|)
  {
    Some(|values|)
  }

  /** requireNonEmpty: IllegalArgumentException for a distribution without values. */
  function RequireNonEmpty<V>(values: seq<V>): (r: Option<Error>)
    ensures r.Some? <==> |values| == 0
    ensures r.Some? ==> r.value == Error(IllegalArgument, EMPTY_MESSAGE)
  {
    if |values| == 0 then Some(Error(IllegalArgument, EMPTY_MESSAGE)) else None
  }

  /**
   * List.subList(0, toIndex): IndexOutOfBoundsException for an end past the size and
   * IllegalArgumentException for a negative end.
   */
  function SubList<V>(values: seq<V>, toIndex: int): (r: Result<seq<V>>)
    ensures r.Success? <==> 0 <= toIndex <= |values|
    ensures r.Success? ==> r.value == values[..toIndex]
    ensures toIndex < 0 ==> r.error.kind == IllegalArgument
    ensures toIndex > |values| ==> r.error.kind == IndexOutOfBounds
  {
    if toIndex > |values| then Failure(Error(IndexOutOfBounds, "toIndex = " + IntToString(toIndex)))
    else if toIndex < 0 then Failure(Error(IllegalArgument, "fromIndex(0) > toIndex(" + IntToString(toIndex) + ")"))
    else Success(values[..toIndex])
  }

  /** The values wrapped around until there are count of them. */
  function Wrapped<V>(values: seq<V>, count: nat): (r: seq<V>)
    requires |values| > 0
    ensures |r| == count
  {
    seq(count, i requires 0 <= i < count => values[i % |values|])
  }

  /** getContents. */
  function Contents<V>(values: seq<V>, count: int, withReplacement: bool): Result<seq<V>>
  {
    if |values| == count then Success(values)
    else if |values| == 0 then Failure(RequireNonEmpty(values).value)
    else if withReplacement then Success(Wrapped(values, if count < 0 then 0 else count))
    else if |values| < count then Failure(Error(IllegalArgument, TOO_MANY_MESSAGE))
    else SubList(values, count)
  }

  /** Asking for exactly as many values as there are returns them all, even for an empty distribution. */
  lemma ContentsAll<V>(values: seq<V>, withReplacement: bool)
    ensures Contents(values, |values|, withReplacement) == Success(values)
  {
  }

  /** Otherwise an empty distribution is rejected. */
  lemma ContentsOfEmpty<V>(values: seq<V>, count: int, withReplacement: bool)
    requires |values| == 0 && count != 0
    ensures Contents(values, count, withReplacement) == Failure(Error(IllegalArgument, EMPTY_MESSAGE))
  {
  }

  /** With replacement: count values (none for a negative count), value i being values[i mod size]. */
  lemma ContentsWithReplacement<V>(values: seq<V>, count: int)
    requires |values| > 0
    ensures Contents(values, count, true).Success?
    ensures var r := Contents(values, count, true).value;
      |r| == (if count < 0 then 0 else count) &&
      forall i :: 0 <= i < |r| ==> r[i] == values[i % |values|]
  {
    if |values| == count {
      forall i | 0 <= i < count ensures values[i] == values[i % |values|] {
        assert i % |values| == i;
      }
    } else {
      assert Contents(values, count, true) == Success(Wrapped(values, if count < 0 then 0 else count));
    }
  }

  /**
   * Without replacement: more values than there are is rejected; otherwise the result is the first
   * count values, each drawn from the distribution no more often than it occurs there.
   */
  lemma ContentsWithoutReplacement<V>(values: seq<V>, count: int)
    requires |values| > 0
    ensures Contents(values, count, false).Failure? <==> count > |values| || count < 0
    ensures count > |values| ==> Contents(values, count, false) == Failure(Error(IllegalArgument, TOO_MANY_MESSAGE))
    ensures 0 <= count <= |values| ==> (
      Contents(values, count, false) == Success(values[..count]) &&
      multiset(values[..count]) <= multiset(values))
  {
    if 0 <= count <= |values| {
      assert values[..|values|] == values;
      assert values == values[..count] + values[count..];
      assert multiset(values) == multiset(values[..count]) + multiset(values[count..]);
    }
  }

  /** getContents with its loop for the case with replacement. */
  method GetContents<V>(values: seq<V>, count: int, withReplacement: bool) returns (r: Result<seq<V>>)
    ensures r == Contents(values, count, withReplacement)
  {
    if |values| == count {
      return Success(values);
    }
    var empty := RequireNonEmpty(values);
    if empty.Some? {
      return Failure(empty.value);
    }
    if withReplacement {
      var result: seq<V> := [];
      var i := 0;
      while i < count
        invariant 0 <= i && (count >= 0 ==> i <= count)
        invariant count < 0 ==> i == 0
        invariant result == Wrapped(values, i)
      {
        result := result + [values[i % |values|]];
        i := i + 1;
      }
      return Success(result);
    } else {
      if |values| < count {
        return Failure(Error(IllegalArgument, TOO_MANY_MESSAGE));
      }
      return SubList(values, count);
    }
  }

  /** Java's (int) of a long: the low 32 bits read as a signed number. */
  function ToJavaInt(x: int): (r: int)
    ensures -0x8000_0000 <= r < 0x8000_0000
    ensures (x - r) % 0x1_0000_0000 == 0
    ensures -0x8000_0000 <= x < 0x8000_0000 ==> r == x
  {
    (x + 0x8000_0000) % 0x1_0000_0000 - 0x8000_0000
  }

  /**
   * sampleWithoutReplacement, given the outcome of Collections.shuffle on a copy of the values:
   * rejects an empty distribution and a count above the size, then keeps the first (int) count
   * shuffled values, which fails for a cast count outside the list.
   */
  function SampleWithoutReplacement<V>(values: seq<V>, count: int, shuffled: seq<V>): (r: Result<seq<V>>)
    requires multiset(shuffled) == multiset(values)
    ensures |values| == 0 ==> r == Failure(Error(IllegalArgument, EMPTY_MESSAGE))
    ensures |values| > 0 && count > |values| ==> r == Failure(Error(IllegalArgument,
      "Cannot sample " + IntToString(count) + " elements from a distribution with " + IntToString(|values|) +
      " elements without replacement."))
    ensures |values| > 0 && 0 <= count <= |values| && count < 0x8000_0000 ==> (
      r.Success? && count <= |shuffled| && r.value == shuffled[..count])
    ensures r.Success? ==> multiset(r.value) <= multiset(values)
  {
    if |values| == 0 then Failure(RequireNonEmpty(values).value)
    else if count > |values| then
      Failure(Error(IllegalArgument, "Cannot sample " + IntToString(count) + " elements from a distribution with " +
        IntToString(|values|) + " elements without replacement."))
    else
      assert |shuffled| == |values| by {
        assert |multiset(shuffled)| == |multiset(values)|;
      }
      var r := SubList(shuffled, ToJavaInt(count));
      assert r.Success? ==> multiset(r.value) <= multiset(values) by {
        if r.Success? {
          assert shuffled == r.value + shuffled[|r.value|..];
          assert multiset(shuffled) == multiset(r.value) + multiset(shuffled[|r.value|..]);
        }
      }
      r
  }

  /**
   * A negative count whose low 32 bits are zero is cast to 0 and samples nothing instead of being
   * rejected.
   */
  lemma NegativeCountWrapsToEmpty<V>(values: seq<V>, shuffled: seq<V>)
    requires multiset(shuffled) == multiset(values) && |values| > 0
    ensures SampleWithoutReplacement(values, -0x1_0000_0000, shuffled) == Success([])
  {
    assert (-0x1_0000_0000 + 0x8000_0000) % 0x1_0000_0000 == 0x8000_0000;
    assert ToJavaInt(-0x1_0000_0000) == 0;
  }
}

/**
 * `GetResult` of internal/query/jsonpath/jsonpath.go: how the matches of a JSONPath query
 * are turned into one answer. Parsing the query and finding the matches are done by the
 * Kubernetes jsonpath library and enter as their outcomes; `%v` formatting enters as a
 * function.
 */
module JsonPath {
  import opened Wrappers

  /** A `reflect.Value` found by the query: whether `CanInterface` holds, and the value. */
  datatype Match<V> = Match(canInterface: bool, value: V)

  /** The answer: one match returned as it is, or several matches formatted and joined. */
  datatype Answer<V> = Single(value: V) | Joined(text: string)

  datatype QueryError<E> =
    | ParseFailed(cause: E)   // the error of `Parse`
    | FindFailed(cause: E)    // the error of `FindResults`
    | NoQueryResult           // no query result

  /** The values of one result list that can be interfaced, in order. */
  function Usable<V>(ms: seq<Match<V>>): seq<V>
  {
    if ms == [] then []
    else Usable(ms[..|ms| - 1]) + (if ms[|ms| - 1].canInterface then [ms[|ms| - 1].value] else [])
  }

  /** The usable values of all result lists, list after list. */
  function Flatten<V>(results: seq<seq<Match<V>>>): seq<V>
  {
    if results == [] then [] else Flatten(results[..|results| - 1]) + Usable(results[|results| - 1])
  }

  /** The `%v` forms of the values, concatenated in order. */
  function Concat<V>(vs: seq<V>, format: V -> string): string
  {
    if vs == [] then "" else Concat(vs[..|vs| - 1], format) + format(vs[|vs| - 1])
  }

  /** A usable value is exactly a match that can be interfaced. */
  lemma {:induction false} UsableMembers<V>(ms: seq<Match<V>>, v: V)
    ensures v in Usable(ms) <==> exists j :: 0 <= j < |ms| && ms[j].canInterface && ms[j].value == v
  {
    if ms != [] {
      var front := ms[..|ms| - 1];
      UsableMembers(front, v);
      assert forall j :: 0 <= j < |front| ==> ms[j] == front[j];
    }
  }

  /** Dropping nothing: when every match can be interfaced, all their values are kept, in order. */
  lemma {:induction false} UsableAll<V>(ms: seq<Match<V>>)
    requires forall j :: 0 <= j < |ms| ==> ms[j].canInterface
    ensures |Usable(ms)| == |ms|
    ensures forall j :: 0 <= j < |ms| ==> Usable(ms)[j] == ms[j].value
  {
    if ms != [] {
      UsableAll(ms[..|ms| - 1]);
    }
  }

  /** Usable values of consecutive result lists come one list after the other. */
  lemma {:induction false} FlattenAppend<V>(a: seq<seq<Match<V>>>, b: seq<seq<Match<V>>>)
    ensures Flatten(a + b) == Flatten(a) + Flatten(b)
    decreases |b|
  {
    if b == [] {
      assert a + b == a;
    } else {
      var front, last := b[..|b| - 1], b[|b| - 1];
      assert (a + b)[..|a + b| - 1] == a + front;
      assert (a + b)[|a + b| - 1] == last;
      FlattenAppend(a, front);
      assert Flatten(a + b) == Flatten(a + front) + Usable(last);
    }
  }

  /** Formatting distributes over concatenation. */
  lemma {:induction false} ConcatAppend<V>(a: seq<V>, b: seq<V>, format: V -> string)
    ensures Concat(a + b, format) == Concat(a, format) + Concat(b, format)
    decreases |b|
  {
    if b == [] {
      assert a + b == a;
    } else {
      var front := b[..|b| - 1];
      assert (a + b)[..|a + b| - 1] == a + front;
      ConcatAppend(a, front, format);
    }
  }

  /**
   * `GetResult`: a parse or find error is returned unchanged; otherwise the usable values
   * are collected, and none is an error, one is returned as it is, and several are
   * formatted and joined in order.
   */
  method GetResult<V, E>(parseErr: Option<E>, found: Result<seq<seq<Match<V>>>, E>, format: V -> string)
    returns (r: Result<Answer<V>, QueryError<E>>)
    ensures parseErr.Some? ==> r == Failure(ParseFailed(parseErr.value))
    ensures parseErr.None? && found.Failure? ==> r == Failure(FindFailed(found.error))
    ensures parseErr.None? && found.Success? && |Flatten(found.value)| == 0 ==> r == Failure(NoQueryResult)
    ensures parseErr.None? && found.Success? && |Flatten(found.value)| == 1 ==> r == Success(Single(Flatten(found.value)[0]))
    ensures parseErr.None? && found.Success? && |Flatten(found.value)| > 1 ==>
      r == Success(Joined(Concat(Flatten(found.value), format)))
  {
    if parseErr.Some? {
      return Failure(ParseFailed(parseErr.value));
    }
    if found.Failure? {
      return Failure(FindFailed(found.error));
    }
    var results := found.value;
    var validResults: seq<V> := [];
    for i := 0 to |results|
      invariant validResults == Flatten(results[..i])
    {
      var result := results[i];
      assert results[..i + 1][..i] == results[..i];
      for j := 0 to |result|
        invariant validResults == Flatten(results[..i]) + Usable(result[..j])
      {
        assert result[..j + 1][..j] == result[..j];
        if result[j].canInterface {
          validResults := validResults + [result[j].value];
        }
      }
      assert result[..|result|] == result;
    }
    assert results[..|results|] == results;
    if |validResults| == 1 {
      return Success(Single(validResults[0]));
    } else if |validResults| > 1 {
      var joinedRes := "";
      for k := 0 to |validResults|
        invariant joinedRes == Concat(validResults[..k], format)
      {
        assert validResults[..k + 1][..k] == validResults[..k];
        joinedRes := joinedRes + format(validResults[k]);
      }
      assert validResults[..|validResults|] == validResults;
      return Success(Joined(joinedRes));
    }
    return Failure(NoQueryResult);
  }

  /** A nested path matching one string yields that string itself. */
  lemma NestedPathSingle()
    ensures Flatten([[Match(true, "resultvalue")]]) == ["resultvalue"]
  {
    assert [[Match(true, "resultvalue")]][..0] == [];
    assert [Match(true, "resultvalue")][..0] == [];
  }

  /** A path followed by the literal `'testing'` yields the two strings joined. */
  lemma ConcatenatedPaths(format: string -> string)
    requires forall s :: format(s) == s
    ensures Flatten([[Match(true, "resultvalue")], [Match(true, "testing")]]) == ["resultvalue", "testing"]
    ensures Concat(["resultvalue", "testing"], format) == "resultvaluetesting"
  {
    var a, b := [Match(true, "resultvalue")], [Match(true, "testing")];
    assert [a, b] == [a] + [b];
    FlattenAppend([a], [b]);
    var noLists: seq<seq<Match<string>>> := [];
    var noMatches: seq<Match<string>> := [];
    assert [a][..0] == noLists && [b][..0] == noLists && a[..0] == noMatches && b[..0] == noMatches;
    assert Flatten([a]) == ["resultvalue"];
    assert Flatten([b]) == ["testing"];
    var vs := ["resultvalue", "testing"];
    assert vs[..1] == ["resultvalue"] && vs[..1][..0] == [];
  }
}

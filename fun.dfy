/** The collection operations, each as the loop the library runs. Each,
    Filter, Reduce, ReduceI, Zip and ToMap are proved equal to their reference
    definitions in FunSpec. Map is proved against a pointwise contract, and
    Values against a per-value count of the keys holding it.

    Map, Each, Filter, FirstOrElse, Reduce and ReduceI first run the nil-list
    guard and fail with `InvalidInput` on a nil slice; Values, ToMap and Zip
    never run it and treat a nil slice or map as empty. */
module Fun {
  import opened FunTypes
  import opened FunSpec

  /** The nil-list guard: panics on a nil slice, passes on any other, empty or not. */
  function NilListCheck<T>(maybeList: Slice<T>): (r: Outcome<Panic>)
    ensures r.Fail? <==> maybeList.Nil?
    ensures r.Fail? ==> r.error == InvalidInput(NilListMessage)
  {
    if maybeList.Nil? then Fail(InvalidInput(NilListMessage)) else Pass
  }

  /** `apply(i, list[i])` for every index, in a new, non-nil slice. */
  method Map<T, Y>(list: Slice<T>, apply: (int, T) -> Y) returns (r: Result<Slice<Y>, Panic>)
    ensures list.Nil? ==> r == Failure(InvalidInput(NilListMessage))
    ensures list.Of? ==> r.Success? && r.value.Of?
    ensures list.Of? ==> |r.value.elems| == |list.elems|
    ensures list.Of? ==> forall i :: 0 <= i < |list.elems| ==> r.value.elems[i] == apply(i, list.elems[i])
  {
    var check := NilListCheck(list);
    if check.Fail? {
      return Failure(check.error);
    }
    var s := list.elems;
    var result: seq<Y> := [];
    for i := 0 to |s|
      invariant |result| == i
      invariant forall j :: 0 <= j < i ==> result[j] == apply(j, s[j])
    {
      result := result + [apply(i, s[i])];
    }
    return Success(Of(result));
  }

  /** Applies `apply` to each element in index order. The callback's side
      effects are modelled as a transformation of a world state `world`; the
      result is the world after every call. */
  method Each<T, W>(list: Slice<T>, world: W, apply: (T, W) -> W) returns (r: Result<W, Panic>)
    ensures list.Nil? ==> r == Failure(InvalidInput(NilListMessage))
    ensures list.Of? ==> r == Success(Fold(list.elems, world, apply))
  {
    var check := NilListCheck(list);
    if check.Fail? {
      return Failure(check.error);
    }
    var s := list.elems;
    var w := world;
    for i := 0 to |s|
      invariant w == Fold(s[..i], world, apply)
    {
      assert s[..i + 1][..i] == s[..i];
      w := apply(s[i], w);
    }
    assert s[..|s|] == s;
    return Success(w);
  }

  /** Every value of the map, in an unspecified order, in a new, non-nil slice.
      A nil map gives an empty slice. */
  method Values<K(==), T>(m: GoMap<K, T>) returns (r: Slice<T>)
    ensures r.Of?
    ensures |r.elems| == |m.Entries()|
    ensures forall x :: multiset(r.elems)[x] == |KeysHolding(m.Entries(), m.Entries().Keys, x)|
    ensures forall x :: x in r.elems <==> exists k :: k in m.Entries() && m.Entries()[k] == x
    ensures m.NilMap? ==> r == Of([])
  {
    var entries := m.Entries();
    var result: seq<T> := [];
    var remaining := entries.Keys;
    ghost var visited: set<K> := {};
    while remaining != {}
      invariant visited + remaining == entries.Keys && visited !! remaining
      invariant |result| == |visited|
      invariant forall x :: multiset(result)[x] == |KeysHolding(entries, visited, x)|
      decreases |remaining|
    {
      var k :| k in remaining;
      forall x
        ensures |KeysHolding(entries, visited + {k}, x)| == |KeysHolding(entries, visited, x)| + if entries[k] == x then 1 else 0
      {
        KeysHoldingAdd(entries, visited, k, x);
      }
      result := result + [entries[k]];
      remaining := remaining - {k};
      visited := visited + {k};
    }
    assert visited == entries.Keys;
    forall x
      ensures x in result <==> exists k :: k in entries && entries[k] == x
    {
      KeysHoldingValues(entries, x);
    }
    return Of(result);
  }

  /** Inserts `fn(i, list[i])` for each index in order into a new map; a later
      index overwrites an earlier one with the same key. A nil slice gives an
      empty map. */
  method ToMap<K(==), V>(list: Slice<V>, fn: (int, V) -> (K, V)) returns (r: GoMap<K, V>)
    ensures r.MapOf?
    ensures r.entries == Collected(list.Elems(), fn)
    ensures list.Nil? ==> r.entries == map[]
  {
    var s := list.Elems();
    var destMap: map<K, V> := map[];
    for idx := 0 to |s|
      invariant destMap == Collected(s[..idx], fn)
    {
      var (k, v) := fn(idx, s[idx]);
      assert s[..idx + 1][..idx] == s[..idx];
      destMap := destMap[k := v];
    }
    assert s[..|s|] == s;
    return MapOf(destMap);
  }

  /** The elements `filter` accepts, in their original order, in a new, non-nil slice. */
  method Filter<T>(list: Slice<T>, filter: T -> bool) returns (r: Result<Slice<T>, Panic>)
    ensures list.Nil? ==> r == Failure(InvalidInput(NilListMessage))
    ensures list.Of? ==> r == Success(Of(Filtered(list.elems, filter)))
  {
    var check := NilListCheck(list);
    if check.Fail? {
      return Failure(check.error);
    }
    var s := list.elems;
    var foundList: seq<T> := [];
    for i := 0 to |s|
      invariant foundList == Filtered(s[..i], filter)
    {
      assert s[..i + 1][..i] == s[..i];
      if filter(s[i]) {
        foundList := foundList + [s[i]];
      }
    }
    assert s[..|s|] == s;
    return Success(Of(foundList));
  }

  /** The first element, or `other` when the slice is empty. */
  function FirstOrElse<T>(list: Slice<T>, other: T): (r: Result<T, Panic>)
    ensures list.Nil? ==> r == Failure(InvalidInput(NilListMessage))
    ensures list.Of? ==> r.Success?
    ensures list.Of? && |list.elems| == 0 ==> r.value == other
    ensures list.Of? && |list.elems| > 0 ==> r.value == list.elems[0]
  {
    match NilListCheck(list)
    case Fail(e) => Failure(e)
    case Pass =>
      if |list.elems| == 0 then Success(other) else Success(list.elems[0])
  }

  /** Pairs the elements at equal positions up to the shorter length, dropping
      the tail of the longer slice. A nil slice counts as empty. */
  method Zip<T, V>(slice1: Slice<T>, slice2: Slice<V>) returns (r: Slice<Tuple<T, V>>)
    ensures r.Of?
    ensures r.elems == Zipped(slice1.Elems(), slice2.Elems())
    ensures slice1.Nil? || slice2.Nil? ==> r == Of([])
  {
    var a, b := slice1.Elems(), slice2.Elems();
    var length1, length2 := |a|, |b|;
    var minLength;
    if length1 <= length2 {
      minLength := length1;
    } else {
      minLength := length2;
    }
    var result: seq<Tuple<T, V>> := [];
    for i := 0 to minLength
      invariant |result| == i
      invariant forall j :: 0 <= j < i ==> result[j] == Tuple(a[j], b[j])
    {
      result := result + [Tuple(a[i], b[i])];
    }
    return Of(result);
  }

  /** The left fold `reducer(element, accumulator)` over the slice from `initial`. */
  method Reduce<T, V>(list: Slice<T>, initial: V, reducer: (T, V) -> V) returns (r: Result<V, Panic>)
    ensures list.Nil? ==> r == Failure(InvalidInput(NilListMessage))
    ensures list.Of? ==> r == Success(Fold(list.elems, initial, reducer))
    ensures list == Of([]) ==> r == Success(initial)
    ensures list.Of? && |list.elems| == 1 ==> r == Success(reducer(list.elems[0], initial))
  {
    var check := NilListCheck(list);
    if check.Fail? {
      return Failure(check.error);
    }
    var s := list.elems;
    var x := initial;
    for i := 0 to |s|
      invariant x == Fold(s[..i], initial, reducer)
    {
      assert s[..i + 1][..i] == s[..i];
      x := reducer(s[i], x);
    }
    assert s[..|s|] == s;
    return Success(x);
  }

  /** As Reduce, with the zero-based index passed to the reducer first. */
  method ReduceI<T, V>(list: Slice<T>, initial: V, reducer: (int, T, V) -> V) returns (r: Result<V, Panic>)
    ensures list.Nil? ==> r == Failure(InvalidInput(NilListMessage))
    ensures list.Of? ==> r == Success(FoldI(list.elems, initial, reducer))
    ensures list == Of([]) ==> r == Success(initial)
    ensures list.Of? && |list.elems| == 1 ==> r == Success(reducer(0, list.elems[0], initial))
  {
    var check := NilListCheck(list);
    if check.Fail? {
      return Failure(check.error);
    }
    var s := list.elems;
    var x := initial;
    for i := 0 to |s|
      invariant x == FoldI(s[..i], initial, reducer)
    {
      assert s[..i + 1][..i] == s[..i];
      x := reducer(i, s[i], x);
    }
    assert s[..|s|] == s;
    return Success(x);
  }
}

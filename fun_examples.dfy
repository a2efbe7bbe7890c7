/** Calls to the library on concrete inputs, with what the contracts in Fun
    let a caller conclude about them. */
module FunExamples {
  import opened FunTypes
  import opened FunSpec
  import opened Fun

  /** Zip drops the tail of the longer slice. */
  method ZipDropsTail() returns (r: Slice<Tuple<int, int>>)
    ensures r == Of([Tuple(1, 10), Tuple(2, 20)])
  {
    r := Zip(Of([1, 2, 3]), Of([10, 20]));
  }

  /** ToMap with a repeated key keeps the value from the later element. */
  method ToMapLaterWins() returns (r: GoMap<int, int>)
    ensures r == MapOf(map[0 := 40])
  {
    r := ToMap(Of([20, 40]), (i: int, v: int) => (0, v));
    assert [20, 40][..1] == [20];
  }

  /** Each visits the elements once each, in index order: a callback that
      records its argument ends with the slice itself. */
  method EachRecordsInOrder(s: seq<int>) returns (r: Result<seq<int>, Panic>)
    ensures r == Success(s)
  {
    r := Each(Of(s), [], Record);
    FoldVisitsInOrder(s, []);
    assert [] + s == s;
  }

  /** The guard's asymmetry: Map rejects a nil slice where an empty one is
      fine, while Zip, ToMap and Values treat nil as empty. */
  method NilAsymmetry() returns (strict: Result<Slice<int>, Panic>, empty: Result<Slice<int>, Panic>,
                                 zipped: Slice<Tuple<int, int>>, collected: GoMap<int, int>, values: Slice<int>)
    ensures strict == Failure(InvalidInput(NilListMessage))
    ensures empty == Success(Of([]))
    ensures zipped == Of([]) && collected == MapOf(map[]) && values == Of([])
  {
    var twice := (i: int, v: int) => 2 * v;
    strict := Map(Nil, twice);
    empty := Map(Of([]), twice);
    assert empty.value.elems == [];
    zipped := Zip(Nil, Of([1, 2]));
    collected := ToMap(Nil, (i: int, v: int) => (i, v));
    values := Values<string, int>(NilMap);
  }
}

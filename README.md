# fungo collection operations in Dafny

A model of `fun/fun.go`, a small generic Go library of collection operations:
`Map`, `Each`, `Filter`, `Reduce`, `ReduceI` (traversals), `Values`, `ToMap`
(conversions between slices and maps), `FirstOrElse`, `Zip` and its `Tuple`
pair type, and the shared nil-list guard `nilListCheck`.

Go slices and maps can be nil as well as empty, and the library treats the two
differently. The model keeps that difference:

- `FunTypes.Slice<T>` is `Nil | Of(elems)`. `GoMap<K, V>` is `NilMap | MapOf(entries)`.
  `Elems()` and `Entries()` return what a `range` loop visits, which is nothing for nil.
- The guard's panic is a distinguished failure result, `Failure(InvalidInput(NilListMessage))`.
  It is not a precondition, so the asymmetry can be stated and proved.
- `Map`, `Each`, `Filter`, `FirstOrElse`, `Reduce` and `ReduceI` fail on `Nil` and on nothing else.
  An empty `Of([])` is accepted.
- `Zip`, `ToMap` and `Values` never call the guard. They treat nil as empty.
- The slices and maps that the operations return are never nil (`r.Of?`, `r.MapOf?`).

Layout:

- `fun_types.dfy` (module `FunTypes`): the slice, map, `Tuple`, panic and result types.
- `fun_spec.dfy` (module `FunSpec`): recursive reference definitions for the loops of
  Reduce, ReduceI, Each, Filter, Zip and ToMap. These are `Fold`, `FoldI`, `Filtered`,
  `Zipped` and `Collected`. The module also holds the lemmas that prove the library's
  promises about them.
- `fun.dfy` (module `Fun`): the guard, plus every operation as the loop Go runs.
  The loops are proved with loop invariants. Most are proved equal to their reference
  definition. `Map` has no reference function: it is proved against a pointwise
  contract, `result[i] == apply(i, list[i])`. `Values` has none either: it is proved
  against a count, for each value, of the keys holding it.
- `fun_examples.dfy` (module `FunExamples`): calls on concrete inputs.

Callbacks are total Dafny functions: `(int, T) -> Y` for `Map`, `T -> bool` for `Filter`,
`(T, V) -> V` and `(int, T, V) -> V` for the reducers, and `(int, V) -> (K, V)` for `ToMap`.
`Each`'s callback runs only for its side effects. Those effects are modelled as a
transformation `(T, W) -> W` of a world state `W` that the caller supplies.
`Each` returns the world state after every call.

## Model

| member | source | states |
|---|---|---|
| Fun.NilListCheck | fun/fun.go:117-121 | the guard fails, with message "must be a list; nil not allowed", exactly on a nil slice; it passes an empty slice |
| Fun.Map | fun/fun.go:6-13 | nil slice: InvalidInput. Otherwise: a non-nil slice of the input's length whose element i is `apply(i, list[i])`, so an empty input gives an empty, non-nil result |
| Fun.Each | fun/fun.go:15-21 | nil slice: InvalidInput. Otherwise: the callback's effects are applied once per element, in index order (the left fold of the effects over the elements) |
| Fun.Values | fun/fun.go:23-30 | result is non-nil with one element per map entry; each value occurs as many times as there are keys holding it, so the elements are exactly the map's values; order unspecified; a nil map gives an empty slice |
| Fun.ToMap | fun/fun.go:32-43 | result is a non-nil map equal to inserting `fn(i, list[i])` for i in index order; a nil slice gives an empty map and no panic |
| Fun.Filter | fun/fun.go:45-56 | nil slice: InvalidInput. Otherwise: a non-nil slice holding the accepted elements in original order (see the Filtered lemmas) |
| Fun.FirstOrElse | fun/fun.go:58-65 | nil slice: InvalidInput; an empty slice gives `other` unchanged; a non-empty slice gives `list[0]` |
| Fun.Zip | fun/fun.go:67-89 | result is a non-nil slice equal to the pairwise zip up to the shorter length; nil in either input gives an empty slice and no panic |
| Fun.Reduce | fun/fun.go:91-100 | nil slice: InvalidInput. Otherwise: the left fold of `reducer(element, accumulator)` from `initial`; `[]` gives `initial` and `[a]` gives `reducer(a, initial)` |
| Fun.ReduceI | fun/fun.go:102-110 | nil slice: InvalidInput. Otherwise: the same fold with the index passed first; `[]` gives `initial` and `[a]` gives `reducer(0, a, initial)` |
| FunSpec.FoldAppend | fun/fun.go:95-99 | folding `a + b` equals folding `b` starting from the fold of `a`, so the accumulator threads strictly left to right |
| FunSpec.FoldCons | fun/fun.go:95-99 | the first element is combined first: `Fold([x] + s, init) == Fold(s, reducer(x, init))` |
| FunSpec.FoldVisitsInOrder | fun/fun.go:96-98 | a recording reducer ends with exactly the input, so every element is passed once, in index order |
| FunSpec.FoldIIgnoringIndex | fun/fun.go:103-110 | if the ReduceI reducer ignores the index, ReduceI's fold equals Reduce's fold |
| FunSpec.FoldIPassesIndices | fun/fun.go:106-108 | ReduceI passes the index j together with element j, for j = 0 .. len-1 in order |
| FunSpec.Filtered | fun/fun.go:47-56 | the result is no longer than the input; every result element is in the input and accepted; every accepted input element is in the result |
| FunSpec.SelectedPositions | fun/fun.go:50-54 | Selected lists the positions of the accepted elements in strictly increasing order; every listed position is accepted and every accepted position is listed |
| FunSpec.FilteredIsSubsequence | fun/fun.go:50-54 | the Filter result is the input read at the increasing accepted positions, so it is a subsequence in original relative order |
| FunSpec.FilteredCounts | fun/fun.go:50-54 | each accepted value occurs in the result as often as in the input, and a rejected value does not occur |
| FunSpec.FilteredIdempotent | fun/fun.go:47-56 | filtering a Filter result again with the same predicate returns it unchanged |
| FunSpec.Zipped | fun/fun.go:67-89 | the length is `min(len(slice1), len(slice2))` and element i is `Tuple{E1: slice1[i], E2: slice2[i]}` |
| FunSpec.Firsts | fun/fun.go:82-85 | the first slots of a sequence of pairs, position by position (`E1`) |
| FunSpec.Seconds | fun/fun.go:82-85 | the second slots of a sequence of pairs, position by position (`E2`) |
| FunSpec.UnzipZipped | fun/fun.go:81-87 | the first and second slots of a Zip result are the two inputs cut to the shorter length |
| FunSpec.ZippedUnzip | fun/fun.go:81-87 | zipping the first and second slots of a sequence of pairs rebuilds it |
| FunSpec.Collected | fun/fun.go:34-43 | the key set is exactly the set of keys `fn` produces over the input |
| FunSpec.CollectedLastWriteWins | fun/fun.go:37-40 | a key produced at index i and at no later index maps to the value produced at index i (last write wins) |
| FunSpec.CollectedEntryOrigin | fun/fun.go:37-40 | every entry is the pair `fn` produced at some index after which that key was never produced again |
| FunSpec.KeysHoldingValues | fun/fun.go:26-28 | a value has at least one key holding it exactly when some key of the map maps to it |
| FunExamples.ZipDropsTail | fun/fun.go:67-89 | `Zip([1,2,3], [10,20])` is `[(1,10), (2,20)]` |
| FunExamples.ToMapLaterWins | fun/fun.go:34-43 | `ToMap([20,40], (i, v) -> (0, v))` is `{0: 40}` |
| FunExamples.EachRecordsInOrder | fun/fun.go:16-21 | an Each callback that records its argument ends with the slice itself |
| FunExamples.NilAsymmetry | fun/fun.go:117-121 | Map fails on nil and returns an empty, non-nil slice for empty; Zip, ToMap and Values given nil return empty containers |

## Left out

- The panic itself: the process terminating at fun/fun.go:119 is modelled as the failure value `Failure(InvalidInput(...))`. A Go caller's `recover` is not modelled.
- The capacity arguments to `make`: they are allocation hints with no observable effect.
- Go's map iteration order in `Values`: it is unspecified. The model picks keys by nondeterministic choice (`:|`). The contract therefore fixes only the multiset of values, not their order.
- Fun.Each: arbitrary side effects of the callback cannot be expressed. The callback is modelled as a pure transformation of a caller-supplied world state, threaded through the calls in index order.
- Failures inside callbacks: callbacks are total functions, so a panic raised inside a callback is not modelled.
- Aliasing: every result slice or map is freshly allocated (`make` at fun/fun.go:8, 24, 35 and 49, the literal at 70), so no result shares storage with an input. Only element values are shared with the caller, which is observable only for pointer types. Sequences are values in Dafny, so that sharing is not represented.
- Integer width: Go's `int` index is 64-bit. Dafny's `int` is unbounded, which makes no difference because a slice cannot be longer than the address space.
- Fun.ToMap: keys are assumed to have total, reflexive equality (`K(==)`). The runtime panic "hash of unhashable type", raised at fun/fun.go:39 when an interface-typed key holds a slice, map or function, is not modelled. Neither are NaN float keys, which never equal themselves and so add a new entry on every insertion; the key-set and last-write-wins properties of `Collected` do not describe such keys.
- Fun.Values: under the same assumption about keys, a map holding NaN float keys (one entry per insertion) is not modelled.

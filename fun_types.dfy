/** Values the collection library works on: Go slices and maps, which can be
    nil (absent) as well as empty, the pair type produced by Zip, and the
    panic raised by the nil-list guard. */
module FunTypes {

  /** A Go slice. `Nil` is the nil slice, distinct from the empty slice `Of([])`;
      both have length 0 and a `range` over either runs zero times. */
  datatype Slice<T> = Nil | Of(elems: seq<T>) {

    /** The elements a `range` loop visits: none for a nil slice. */
    function Elems(): seq<T> {
      match this
      case Nil => []
      case Of(s) => s
    }
  }

  /** A Go map. `NilMap` is the nil map, which reads and ranges as empty. */
  datatype GoMap<K, V> = NilMap | MapOf(entries: map<K, V>) {

    /** The entries a `range` loop visits: none for a nil map. */
    function Entries(): map<K, V> {
      match this
      case NilMap => map[]
      case MapOf(m) => m
    }
  }

  /** The two-slot pair produced by Zip. */
  datatype Tuple<T, V> = Tuple(E1: T, E2: V)

  /** The message the nil-list guard panics with. */
  const NilListMessage: string := "must be a list; nil not allowed"

  /** The one failure the library raises on its own account. */
  datatype Panic = InvalidInput(message: string)

  /** Outcome of a check that either passes or panics. */
  datatype Outcome<+E> = Pass | Fail(error: E)

  /** Result of an operation that either returns a value or panics. */
  datatype Result<+R, +E> = Success(value: R) | Failure(error: E)
}

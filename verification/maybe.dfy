/** The package's small `Maybe` wrapper around a value that may be `None`.

    A wrapped Python value is an `Option<T>`: `Maybe(None)` is the empty
    wrapper, `Maybe(Some(v))` the full one. A callback that may return `None`
    is a function into `Option<U>`.
 */
module Maybes {
  import opened Wrappers

  datatype Maybe<T> = Maybe(inner: Option<T>) {

    /** `get()`: the wrapped value, `None` included. */
    function Get(): Option<T> {
      inner
    }

    /** `is_empty()` */
    predicate IsEmpty() {
      inner.None?
    }

    /** `__bool__()` */
    predicate Truthy() {
      !IsEmpty()
    }

    /** `map(func)`: an empty wrapper stays empty without calling `func`;
        otherwise the callback's result is wrapped, `None` giving the empty one. */
    function Map<U>(func: T -> Option<U>): (r: Maybe<U>)
      ensures IsEmpty() ==> r.IsEmpty()
      ensures !IsEmpty() ==> r.Get() == func(Get().value)
    {
      match inner
      case None => Maybe(None)
      case Some(v) => Maybe(func(v))
    }

    /** `flat_map(func)`: an empty wrapper stays empty; otherwise the
        callback's own wrapper is returned unchanged. */
    function FlatMap<U>(func: T -> Maybe<U>): (r: Maybe<U>)
      ensures IsEmpty() ==> r.IsEmpty()
      ensures !IsEmpty() ==> r == func(Get().value)
    {
      match inner
      case None => Maybe(None)
      case Some(v) => func(v)
    }
  }

  /** `get` hands back exactly what was wrapped; emptiness is `None`-ness and
      truthiness its negation. */
  lemma {:induction false} GetIsEmptyTruthy<T>(x: Option<T>)
    ensures Maybe(x).Get() == x
    ensures Maybe(x).IsEmpty() <==> x == None
    ensures Maybe(x).Truthy() <==> x != None
  {
  }

  /** Mapping the wrapping callback is the identity. */
  lemma {:induction false} MapIdentity<T>(m: Maybe<T>)
    ensures m.Map(x => Some(x)) == m
  {
  }

  /** Mapping twice is mapping once with the composed callback, where a `None`
      from the first callback short-circuits the second. */
  lemma {:induction false} MapComposition<T, U, V>(m: Maybe<T>, f: T -> Option<U>, g: U -> Option<V>)
    ensures m.Map(f).Map(g) == m.Map(x => match f(x) case None => None case Some(y) => g(y))
  {
  }

  /** `map` is `flat_map` with a callback whose result is re-wrapped. */
  lemma {:induction false} MapIsFlatMapOfWrap<T, U>(m: Maybe<T>, f: T -> Option<U>)
    ensures m.Map(f) == m.FlatMap(x => Maybe(f(x)))
  {
  }

  /** The monad laws: left identity, right identity, associativity. */
  lemma {:induction false} FlatMapLeftIdentity<T, U>(v: T, f: T -> Maybe<U>)
    ensures Maybe(Some(v)).FlatMap(f) == f(v)
  {
  }

  lemma {:induction false} FlatMapRightIdentity<T>(m: Maybe<T>)
    ensures m.FlatMap(x => Maybe(Some(x))) == m
  {
  }

  lemma {:induction false} FlatMapAssociative<T, U, V>(m: Maybe<T>, f: T -> Maybe<U>, g: U -> Maybe<V>)
    ensures m.FlatMap(f).FlatMap(g) == m.FlatMap(x => f(x).FlatMap(g))
  {
  }
}

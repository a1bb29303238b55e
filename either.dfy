/** The two-way result of a narrowing "proof" (`Either`, Pathy.swift lines 2-26)
    and the optional value its projections return. */
module EitherType {

  datatype Option<+T> = None | Some(value: T)

  /** Exactly one of two alternatives. */
  datatype Either<+A, +B> = Left(left: A) | Right(right: B) {

    /** `asLeft`: the left alternative, or nothing. */
    function AsLeft(): (r: Option<A>)
      ensures r.Some? <==> Left?
      ensures r.Some? ==> r.value == left
    {
      match this
      case Left(a) => Some(a)
      case Right(_) => None
    }

    /** `asRight`: the right alternative, or nothing. */
    function AsRight(): (r: Option<B>)
      ensures r.Some? <==> Right?
      ensures r.Some? ==> r.value == right
    {
      match this
      case Left(_) => None
      case Right(b) => Some(b)
    }
  }

  /** The two projections never both succeed and never both fail. */
  lemma ProjectionsPartition<A, B>(e: Either<A, B>)
    ensures e.AsLeft().Some? != e.AsRight().Some?
  {
  }
}

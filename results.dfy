/** Failure kinds of the geometry engine and the Result type that carries them. */
module Results {

  /** The errors the engine raises (all of them are `AttributeError` or a bare
      `Exception` in the Python source) plus the one the model adds for an
      exhausted supply of random draws. */
  datatype GeoError =
    | UndefinedSlope   // slope of a horizontal or vertical line
    | ParallelLines    // intersection of (nearly) parallel lines
    | TooClose         // a bounded retry loop ran out of attempts
    | InvalidOperation // rigid translation of an attached line
    | Exhausted        // the caller-supplied draws of an unbounded retry loop ran out
    | Unanchored       // an end of a grown line lies on no border of the frame

  datatype Result<T> = Ok(value: T) | Err(error: GeoError)

  datatype Option<T> = None | Some(value: T)
}

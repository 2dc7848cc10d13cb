/** Values shared by the two packages of the exporter: optional values, the
    errors the run can end with, and the outcome of a step that may fail. */
module Common {

  /** A Go pointer that may be nil, or a value that may be absent. */
  datatype Option<T> = None | Some(value: T)

  /** The Go `error` values the run can see, by where they come from. */
  datatype Error =
    | GitHubError(detail: string)     // the go-github client's ListByRepo
    | RequestError(detail: string)    // http.NewRequest
    | TransportError(detail: string)  // http.Client.Do
    | NumberError(text: string)       // strconv.ParseInt on the reset header
    | DecodeError(detail: string)     // the JSON decoder

  /** How a step ends: with a value, with an error that the caller turns
      into `log.Fatal`, with a runtime panic, or not within the number of
      attempts the model follows (the source would still be running). */
  datatype Outcome<T> = Ok(value: T) | Fail(error: Error) | Panicked | Unfinished
  {
    /** The same ending for a caller with another result type: Go's
        `return nil, err`. */
    function Propagate<U>(): (r: Outcome<U>)
      requires !Ok?
      ensures !r.Ok?
      ensures r.Fail? <==> Fail?
      ensures Fail? ==> r.error == error
      ensures r.Panicked? <==> Panicked?
    {
      if Fail? then Fail(error) else if Panicked? then Panicked else Unfinished
    }
  }

  /** Passing a failure on twice is passing it on once. */
  lemma PropagateTwice<T, U, V>(o: Outcome<T>)
    requires !o.Ok?
    ensures o.Propagate<U>().Propagate<V>() == o.Propagate<V>()
  {
  }
}

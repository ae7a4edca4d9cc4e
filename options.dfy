/** The optional value used for the results of the remote calls, which either
    succeed with a value or fail (the source's `None` and caught exceptions). */
module Options {

  datatype Option<+T> = None | Some(value: T)
}

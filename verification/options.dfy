/** An optional value: a stored document that may be absent, or an answer
    that may not exist. */
module Options {

  datatype Option<+T> = None | Some(value: T)
}

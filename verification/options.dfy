/** An optional value: a JSON field that may be absent, a Redis GET that may miss. */
module Options {

  datatype Option<+T> = None | Some(value: T)
}

/** An optional value: a missing storage record, a missing status code, a call that did not return. */
module Maybe {

  datatype Option<+T> = None | Some(value: T)

}

/** A value that may be absent: Kotlin's nullable types. */
module Optional {

  datatype Option<+T> = None | Some(value: T)
}

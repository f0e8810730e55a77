/** The optional-value type used for Swift's `T?` results (here `Double?`). */
module Optional {

  datatype Option<+T> = None | Some(value: T)
}

/** The optional value used for every Python call that may raise. */
module Common {

  /** `None` stands for the exception the Python code raises; `Some` for a value it returns. */
  datatype Option<+T> = None | Some(value: T)
}

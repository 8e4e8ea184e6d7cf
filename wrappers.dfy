/** The optional-value datatype shared by the modules of this project. */
module Wrappers {

  /** `None` stands for a Java `null`, an empty `Optional` or a JSON `null`. */
  datatype Option<+T> = None | Some(value: T)
}

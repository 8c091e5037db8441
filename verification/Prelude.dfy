/** Small types shared by the component models. */
module Prelude {
  datatype Option<+T> = None | Some(value: T)
}

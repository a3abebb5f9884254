/** The optional value used for the component's nullable state (`string | null`, `Dog | null`). */
module Wrappers {

  datatype Option<+T> = None | Some(value: T)
}

/** The optional value returned by the multicast-scope classifier. */
module Wrappers {

  datatype Option<+T> = None | Some(value: T)
}

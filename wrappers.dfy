/** The optional value shared by the load balancer and the Keplr conversion:
    an absent JavaScript field, an empty selection, or no error yet. */
module Wrappers {
  datatype Option<T> = None | Some(value: T)
}

/** The optional value used for every `string | null | undefined` field of a Stripe record. */
module Wrappers {

  datatype Option<+T> = None | Some(value: T)
}

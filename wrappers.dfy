/** Optional values shared by the service models: `None` stands for "no response" or a missing key. */
module Wrappers {

  datatype Option<+T> = None | Some(value: T)
}

/** Option stands in for the Java `null` that the plugin returns or passes around. */
module Wrappers {

  datatype Option<+T> = None | Some(value: T)
}

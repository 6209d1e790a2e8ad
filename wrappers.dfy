/** Optional values, for the places where the bot answers "nothing" (a user
    that is not found, a tag that is absent, a parse that fails). */
module Wrappers {

  datatype Option<+T> = None | Some(value: T)
}

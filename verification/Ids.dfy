/** Names of users and channels. */
module Ids {
  type Id = string

  /** The internal tab */
  const SERVER: Id := "server"
}

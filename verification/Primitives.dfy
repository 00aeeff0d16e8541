/** The names things go by, shared by every part of the host. */
module Primitives {
  datatype Option<+T> = None | Some(value: T)

  type EventId = string
  type ThreadId = string
  type TurnId = string
  type CallId = string
  type PluginId = string
  type ProjectId = string
  type TokenId = string
}

/**
 * The request records the services receive. String fields may be null; integer
 * fields are C# `int`s and default to 0 when a client leaves them out.
 */
module Requests {
  import opened Primitives

  /**
   * The owner field is read as `OwnerId` by the structural validator and as
   * `CreatedById` by the validation service; both name this one field.
   */
  datatype CreateChatRequest = CreateChatRequest(name: Option<string>, ownerId: Int32)

  datatype UpdateChatRequest = UpdateChatRequest(id: Int32, name: Option<string>)

  /** `id` is the chat's id. */
  datatype AddUserToChatRequest = AddUserToChatRequest(id: Int32, userId: Int32)

  /** `id` is the chat's id. */
  datatype RemoveUserFromChatRequest = RemoveUserFromChatRequest(id: Int32, userId: Int32)

  datatype CreateMessageRequest = CreateMessageRequest(text: Option<string>, chatId: Int32, userId: Int32)

  datatype UpdateMessageRequest = UpdateMessageRequest(id: Int32, text: Option<string>)

  datatype CreateUserRequest = CreateUserRequest(userName: Option<string>)

  datatype UpdateUserRequest = UpdateUserRequest(id: Int32, userName: Option<string>)
}

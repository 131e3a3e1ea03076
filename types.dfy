/** The conversation entities shared by the chat view and its message bubbles. */
module Types {
  import opened Js

  /** Who produced a message; `Error` marks a failed exchange. */
  datatype Role = User | Model | Error

  /** One entry of the conversation log; `image` is an optional data URI. */
  datatype Message = Message(role: Role, text: string, image: Option<string>)
}

/**
  Request and message records of the lab03 REST API
  (`models/message.go`): field checks with fixed messages and a fixed
  order, and the message constructor. The wall-clock timestamp is a
  parameter and is left unconstrained.
*/
module Models {
  import opened Wrappers

  datatype Message = Message(id: int, username: string, content: string, timestamp: int)

  datatype CreateMessageRequest = CreateMessageRequest(username: string, content: string)

  datatype UpdateMessageRequest = UpdateMessageRequest(content: string)

  datatype HTTPStatusResponse = HTTPStatusResponse(statusCode: int, imageURL: string, description: string)

  /** A message with the given ID, author and text, stamped with the clock reading `now`. */
  function NewMessage(id: int, username: string, content: string, now: int): (m: Message)
    ensures m.id == id && m.username == username && m.content == content
  {
    Message(id, username, content, now)
  }

  /** Checks the username first, then the content. */
  function ValidateCreateRequest(r: CreateMessageRequest): (err: Option<string>)
    ensures r.username == "" ==> err == Some("username is required")
    ensures r.username != "" && r.content == "" ==> err == Some("content is required")
    ensures err == None <==> r.username != "" && r.content != ""
  {
    if r.username == "" then Some("username is required")
    else if r.content == "" then Some("content is required")
    else None
  }

  /** Only the content is checked. */
  function ValidateUpdateRequest(r: UpdateMessageRequest): (err: Option<string>)
    ensures err == None <==> r.content != ""
    ensures err != None ==> err == Some("content is required")
  {
    if r.content == "" then Some("content is required") else None
  }
}

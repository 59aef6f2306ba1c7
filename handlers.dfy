/**
  The status decisions of the lab03 REST handlers (`api/handlers.go`).
  Routing, JSON encoding and decoding and the response writer are left
  out: a request body is `None` when it does not decode, and the
  storage layer is reduced to the outcome of the one call a handler
  makes. Each handler reports which storage call it made, if any, and
  the response it writes.
*/
module Api {
  import opened Wrappers
  import opened Strconv
  import opened Models

  const StatusOK := 200
  const StatusCreated := 201
  const StatusNoContent := 204
  const StatusBadRequest := 400
  const StatusNotFound := 404
  const StatusInternalServerError := 500

  /** The error a storage call can report. */
  datatype StorageError = ErrMessageNotFound | OtherError

  /** The outcome of a storage call that returns a message. */
  datatype Stored = Saved(message: Message) | Unsaved(error: StorageError)

  /** The storage call a handler makes. */
  datatype StorageCall =
    | CreateCall(username: string, content: string)
    | UpdateCall(id: int, content: string)
    | DeleteCall(id: int)

  /** What a handler writes: an error envelope, or a success with an optional payload. */
  datatype Response<T> = Error(status: int, message: string) | Success(status: int, data: Option<T>)

  datatype Handled<T> = Handled(call: Option<StorageCall>, response: Response<T>)

  /** The descriptions `getHTTPStatusDescription` knows. */
  const StatusTable: map<int, string> := map[
    200 := "OK", 201 := "Created", 204 := "No Content", 400 := "Bad Request",
    401 := "Unauthorized", 404 := "Not Found", 500 := "Internal Server Error"]

  /** `getHTTPStatusDescription`: a fixed text for seven codes, "Unknown Status" otherwise. */
  function StatusDescription(code: int): (d: string)
    ensures code in StatusTable ==> d == StatusTable[code]
    ensures code !in StatusTable ==> d == "Unknown Status"
    ensures d in StatusTable.Values || d == "Unknown Status"
  {
    match code
    case 200 => "OK"
    case 201 => "Created"
    case 204 => "No Content"
    case 400 => "Bad Request"
    case 401 => "Unauthorized"
    case 404 => "Not Found"
    case 500 => "Internal Server Error"
    case _ => "Unknown Status"
  }

  const CatURLPrefix := "https://http.cat/"

  /**
    `GetHTTPStatus`: rejects a path parameter that is not an integer in
    100..599, otherwise describes the code and links its image.
  */
  function GetHTTPStatus(codeText: string): (r: Response<HTTPStatusResponse>)
    ensures r.Success? <==> Atoi(codeText).Some? && 100 <= Atoi(codeText).value <= 599
    ensures r.Error? ==> r == Error(StatusBadRequest, "Invalid HTTP status code")
    ensures r.Success? ==>
      && r.status == StatusOK && r.data.Some?
      && r.data.value.statusCode == Atoi(codeText).value
      && r.data.value.imageURL == CatURLPrefix + Itoa(r.data.value.statusCode)
      && r.data.value.description == StatusDescription(r.data.value.statusCode)
  {
    match Atoi(codeText)
    case None => Error(StatusBadRequest, "Invalid HTTP status code")
    case Some(code) =>
      if code < 100 || code > 599 then Error(StatusBadRequest, "Invalid HTTP status code")
      else Success(StatusOK, Some(HTTPStatusResponse(code, CatURLPrefix + Itoa(code), StatusDescription(code))))
  }

  /** Every code in 100..599, written in decimal, is accepted and answered with itself. */
  lemma StatusInRangeAccepted(code: int)
    requires 100 <= code <= 599
    ensures GetHTTPStatus(Itoa(code)).Success?
    ensures GetHTTPStatus(Itoa(code)).data.value.statusCode == code
  {
    ItoaRoundTrip(code);
  }

  /** Every other 64-bit code, written in decimal, is rejected. */
  lemma StatusOutOfRangeRejected(code: int)
    requires MinInt64 <= code <= MaxInt64 && (code < 100 || code > 599)
    ensures GetHTTPStatus(Itoa(code)) == Error(StatusBadRequest, "Invalid HTTP status code")
  {
    ItoaRoundTrip(code);
  }

  /** The image URL ends in the code itself: parsing its tail gives the code back. */
  lemma ImageURLNamesCode(codeText: string)
    requires GetHTTPStatus(codeText).Success?
    ensures var resp := GetHTTPStatus(codeText).data.value;
      && |CatURLPrefix| <= |resp.imageURL|
      && resp.imageURL[..|CatURLPrefix|] == CatURLPrefix
      && Atoi(resp.imageURL[|CatURLPrefix|..]) == Some(resp.statusCode)
  {
    var resp := GetHTTPStatus(codeText).data.value;
    ItoaRoundTrip(resp.statusCode);
    assert resp.imageURL[|CatURLPrefix|..] == Itoa(resp.statusCode);
  }

  /**
    `CreateMessage`: 400 when the body does not decode or does not
    validate (without touching storage), 500 when storage fails, 201
    with the stored message otherwise.
  */
  function CreateMessage(body: Option<CreateMessageRequest>, outcome: Stored): (r: Handled<Message>)
    ensures body.None? ==> r == Handled(None, Error(StatusBadRequest, "Invalid request body"))
    ensures body.Some? && ValidateCreateRequest(body.value).Some? ==>
      r == Handled(None, Error(StatusBadRequest, ValidateCreateRequest(body.value).value))
    ensures r.call.Some? <==> body.Some? && body.value.username != "" && body.value.content != ""
    ensures r.call.Some? ==> r.call.value == CreateCall(body.value.username, body.value.content)
    ensures r.call.Some? && outcome.Unsaved? ==> r.response == Error(StatusInternalServerError, "Failed to create message")
    ensures r.response.Success? <==> r.call.Some? && outcome.Saved?
    ensures r.response.Success? ==> r.response == Success(StatusCreated, Some(outcome.message))
  {
    match body
    case None => Handled(None, Error(StatusBadRequest, "Invalid request body"))
    case Some(req) =>
      match ValidateCreateRequest(req)
      case Some(e) => Handled(None, Error(StatusBadRequest, e))
      case None =>
        var call := Some(CreateCall(req.username, req.content));
        match outcome
        case Unsaved(_) => Handled(call, Error(StatusInternalServerError, "Failed to create message"))
        case Saved(m) => Handled(call, Success(StatusCreated, Some(m)))
  }

  /** The response status after storage reported the error `err` for a PUT or DELETE. */
  function StorageErrorStatus(err: StorageError): (status: int)
    ensures status == StatusNotFound <==> err == ErrMessageNotFound
    ensures status == StatusInternalServerError <==> err == OtherError
  {
    match err
    case ErrMessageNotFound => StatusNotFound
    case OtherError => StatusInternalServerError
  }

  /**
    `UpdateMessage`: 400 "Invalid message ID" before the body is read
    when the ID is not an integer; 400 on a bad or invalid body; then
    404 for a missing message, 500 for any other storage error, and
    200 with the updated message on success.
  */
  function UpdateMessage(idText: string, body: Option<UpdateMessageRequest>, outcome: Stored): (r: Handled<Message>)
    ensures Atoi(idText).None? ==> r == Handled(None, Error(StatusBadRequest, "Invalid message ID"))
    ensures Atoi(idText).Some? && body.None? ==> r == Handled(None, Error(StatusBadRequest, "Invalid request body"))
    ensures Atoi(idText).Some? && body.Some? && body.value.content == "" ==>
      r == Handled(None, Error(StatusBadRequest, "content is required"))
    ensures r.call.Some? <==> Atoi(idText).Some? && body.Some? && body.value.content != ""
    ensures r.call.Some? ==> r.call.value == UpdateCall(Atoi(idText).value, body.value.content)
    ensures r.call.Some? && outcome.Unsaved? ==>
      r.response == Error(StorageErrorStatus(outcome.error),
        if outcome.error == ErrMessageNotFound then "Message not found" else "Failed to update message")
    ensures r.response.Success? <==> r.call.Some? && outcome.Saved?
    ensures r.response.Success? ==> r.response == Success(StatusOK, Some(outcome.message))
  {
    match Atoi(idText)
    case None => Handled(None, Error(StatusBadRequest, "Invalid message ID"))
    case Some(id) =>
      match body
      case None => Handled(None, Error(StatusBadRequest, "Invalid request body"))
      case Some(req) =>
        match ValidateUpdateRequest(req)
        case Some(e) => Handled(None, Error(StatusBadRequest, e))
        case None =>
          var call := Some(UpdateCall(id, req.content));
          match outcome
          case Unsaved(ErrMessageNotFound) => Handled(call, Error(StatusNotFound, "Message not found"))
          case Unsaved(OtherError) => Handled(call, Error(StatusInternalServerError, "Failed to update message"))
          case Saved(m) => Handled(call, Success(StatusOK, Some(m)))
  }

  /**
    `DeleteMessage`: 400 "Invalid message ID" when the ID is not an
    integer; then 404 for a missing message, 500 for any other storage
    error, and 204 with no body on success.
  */
  function DeleteMessage(idText: string, outcome: Option<StorageError>): (r: Handled<Message>)
    ensures Atoi(idText).None? ==> r == Handled(None, Error(StatusBadRequest, "Invalid message ID"))
    ensures r.call.Some? <==> Atoi(idText).Some?
    ensures r.call.Some? ==> r.call.value == DeleteCall(Atoi(idText).value)
    ensures r.call.Some? && outcome.Some? ==>
      r.response == Error(StorageErrorStatus(outcome.value),
        if outcome.value == ErrMessageNotFound then "Message not found" else "Failed to delete message")
    ensures r.response.Success? <==> r.call.Some? && outcome.None?
    ensures r.response.Success? ==> r.response == Success(StatusNoContent, None)
  {
    match Atoi(idText)
    case None => Handled(None, Error(StatusBadRequest, "Invalid message ID"))
    case Some(id) =>
      var call := Some(DeleteCall(id));
      match outcome
      case Some(ErrMessageNotFound) => Handled(call, Error(StatusNotFound, "Message not found"))
      case Some(OtherError) => Handled(call, Error(StatusInternalServerError, "Failed to delete message"))
      case None => Handled(call, Success(StatusNoContent, None))
  }

  /** An ID that does not parse is rejected the same way whatever the body and the storage would say. */
  lemma UpdateChecksIdFirst(idText: string, b1: Option<UpdateMessageRequest>, b2: Option<UpdateMessageRequest>, o1: Stored, o2: Stored)
    requires Atoi(idText).None?
    ensures UpdateMessage(idText, b1, o1) == UpdateMessage(idText, b2, o2)
  {
  }
}

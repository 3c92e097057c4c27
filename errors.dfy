/**
 * The structured error replies of the handler, and the classification of
 * whatever the outbound calls throw (the `catch` block of the handler).
 */
module Errors {
  import opened Wrappers

  /** An error reply: its HTTP status and the `error`, `message` and optional
      `example` fields of its JSON body. */
  datatype Failure = Failure(status: int, error: string, message: string, example: Option<string>)

  /**
   * What an HTTP client call can throw: an error carrying the upstream
   * response (its status, absent when the response has none, and its body
   * text, absent when there is none), an error that only carries the request
   * because nothing came back, or any other error with its message.
   */
  datatype Thrown =
    | ResponseError(status: Option<int>, data: Option<string>)
    | RequestError
    | OtherError(message: string)

  const ResponseLabel := "API Request Failed"
  const NoResponseLabel := "No response received"
  const ProcessingLabel := "Error processing request"
  const ResponseDefaultMessage := "An error occurred while fetching data from the portal."

  /** JavaScript truthiness of an optional status: present and not 0. */
  predicate StatusGiven(status: Option<int>) {
    status.Some? && status.value != 0
  }

  /** JavaScript truthiness of an optional text: present and not empty. */
  predicate TextGiven(data: Option<string>) {
    data.Some? && data.value != ""
  }

  /** The reply for an error thrown after the credential check. */
  function Classify(e: Thrown): (f: Failure)
    ensures f.status != 0 && f.example.None?
    ensures f.status != 500 ==> e.ResponseError? && StatusGiven(e.status) && f.status == e.status.value
    ensures e.ResponseError? && StatusGiven(e.status) ==> f.status == e.status.value
    ensures f.error == ResponseLabel <==> e.ResponseError?
    ensures f.error == NoResponseLabel <==> e.RequestError?
    ensures f.error == ProcessingLabel <==> e.OtherError?
    ensures e.ResponseError? ==> f.message == (if TextGiven(e.data) then e.data.value else ResponseDefaultMessage)
    ensures e.OtherError? ==> f.message == e.message
  {
    match e
    case ResponseError(status, data) =>
      Failure(if StatusGiven(status) then status.value else 500,
              ResponseLabel,
              if TextGiven(data) then data.value else ResponseDefaultMessage,
              None)
    case RequestError =>
      Failure(500, NoResponseLabel, "The portal did not respond to the request.", None)
    case OtherError(message) =>
      Failure(500, ProcessingLabel, message, None)
  }
}

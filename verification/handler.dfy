/**
 * The tail of `lambda_handler` (lambda-code/lambda_function.py:152-166):
 * send the block array to the webhook, then accept only the acknowledgment
 * the webhook gives on success.
 */
module Handler {
  import opened Wrappers
  import opened SlackObjects
  import opened MessageBuilder

  /** The webhook's reply: HTTP status and body text. */
  datatype Response = Response(statusCode: int, body: string)

  /** The handler's return value. */
  datatype Reply = Reply(statusCode: int, responseMessage: string)

  /** Which of the two assertions (lines 159 and 160) failed. */
  datatype PublishFailure =
    | StatusNotOk(status: int)
    | BodyNotOk(body: string)

  const SuccessMessage := "Posted to Slack Channel Successfully"

  /** The webhook acknowledged the post. */
  predicate Acknowledged(resp: Response)
  {
    resp.statusCode == 200 && resp.body == "ok"
  }

  /**
   * The two assertions, in source order, then the fixed success record. The
   * status is checked first, so a bad status is reported even when the body
   * is also wrong.
   */
  function CheckResponse(resp: Response): (r: Result<Reply, PublishFailure>)
    ensures r.Success? <==> resp.statusCode == 200 && resp.body == "ok"
    ensures r.Success? ==> r.value == Reply(200, "Posted to Slack Channel Successfully")
    ensures resp.statusCode != 200 ==> r == Failure(StatusNotOk(resp.statusCode))
    ensures resp.statusCode == 200 && resp.body != "ok" ==> r == Failure(BodyNotOk(resp.body))
  {
    if resp.statusCode != 200 then Failure(StatusNotOk(resp.statusCode))
    else if resp.body != "ok" then Failure(BodyNotOk(resp.body))
    else Success(Reply(200, SuccessMessage))
  }

  /**
   * Build the message, hand its block array to `send` (the webhook call), and
   * check the reply. `send` stands for the network round trip.
   */
  function Handle(e: AnomalyEvent, send: Value -> Response): (r: Result<Reply, PublishFailure>)
    ensures r.Success? <==> Acknowledged(send(BlocksValue(Message(e))))
    ensures r.Success? ==> r.value.statusCode == 200 && r.value.responseMessage == SuccessMessage
  {
    CheckResponse(send(BlocksValue(Message(e))))
  }
}

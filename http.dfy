/**
 * What a route handler sends back: a status code and a body. Bodies are the JSON
 * shapes the routes produce, plus the plain text `res.sendStatus` writes. The
 * `{ error }` message a schema rejection produces is represented by the list of
 * columns that made the schema reject the body.
 * A user is only ever sent as a `PublicUser`, so no body can carry a password.
 */
module Http {
  import opened Schema

  datatype Body =
    | ErrorJson(error: string)
    | ValidationErrorJson(missing: seq<string>)
    | UserJson(user: PublicUser)
    | ScriptJson(script: Script)
    | ScriptListJson(scripts: seq<Script>)
    | AvailabilityJson(available: bool)
    | StatusText(text: string)

  datatype Response = Response(status: int, body: Body)

  /** `res.status(status).json({ error })`. */
  function Error(status: int, error: string): (r: Response)
    ensures r.status == status && r.body.ErrorJson? && r.body.error == error
  {
    Response(status, ErrorJson(error))
  }

  /** `res.json(body)`: status 200. */
  function Ok(body: Body): (r: Response)
    ensures r.status == 200 && r.body == body
  {
    Response(200, body)
  }

  /** `res.sendStatus(status)` for the two codes the routes send: the standard reason phrase as the body. */
  function SendStatus(status: int): (r: Response)
    requires status == 200 || status == 401
    ensures r.status == status && r.body.StatusText?
    ensures r.body.text == (if status == 200 then "OK" else "Unauthorized")
  {
    Response(status, StatusText(if status == 200 then "OK" else "Unauthorized"))
  }
}

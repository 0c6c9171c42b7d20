/** The gate in front of every admin route (server/src/middleware/adminAuth.js):
    the configured key and the `x-admin-key` header decide between a 500, a
    401 and passing the request on. */
module AdminAuth {
  import opened Options
  import opened Store

  const Misconfigured: string := "Server misconfiguration. ADMIN_PANEL_KEY is missing."
  const Unauthorized: string := "Unauthorized admin request."

  /** What the middleware does: answer the request itself, or call `next`. */
  datatype Decision = Answer(response: Response) | Next

  /** `adminAuth`. `adminKey` is `process.env.ADMIN_PANEL_KEY` and `provided`
      the header, each `None` when unset. */
  function Gate(adminKey: Option<string>, provided: Option<string>): (d: Decision)
    ensures d == Next <==> adminKey.Some? && adminKey.value != "" && provided == adminKey
    ensures (adminKey.None? || adminKey.value == "") ==> d == Answer(ErrorResponse(500, Misconfigured))
    ensures adminKey.Some? && adminKey.value != "" && provided != adminKey ==>
              d == Answer(ErrorResponse(401, Unauthorized))
  {
    if adminKey.None? || adminKey.value == "" then Answer(ErrorResponse(500, Misconfigured))
    else if provided.None? || provided.value == "" || provided.value != adminKey.value then
      Answer(ErrorResponse(401, Unauthorized))
    else Next
  }

  /** A missing or empty header is refused whenever a key is configured, and
      the header is never read while none is. */
  lemma GateHeaderCases(adminKey: Option<string>, provided: Option<string>)
    ensures adminKey.Some? && adminKey.value != "" && (provided.None? || provided == Some("")) ==>
              Gate(adminKey, provided).response.status == 401
    ensures adminKey.None? || adminKey == Some("") ==>
              Gate(adminKey, provided) == Gate(adminKey, None) && Gate(adminKey, provided).response.status == 500
  {
  }
}

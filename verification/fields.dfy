/**
 * The raw field data of a request and the field schemas the backend
 * declares for its `config` and `generate` paths.
 */
module Fields {

  /** A request's raw data: field name to the string the caller sent. */
  type Request = map<string, string>

  const Username: string := "username"
  const Password: string := "password"
  const SharedSecret: string := "sharedSecret"

  const Scope: string := "scope"
  const Ttl: string := "ttl"
  const ServiceId: string := "service_id"

  /** Fields of the `config` path; every one is a string defaulting to "". */
  const ConfigSchema: set<string> := {Username, Password, SharedSecret}

  /** Fields of the `generate` path; every one is a string defaulting to "". */
  const GenerateSchema: set<string> := {Scope, Ttl, ServiceId}

  /**
   * `FieldData.Get` on a declared string field: the value sent, or the
   * schema default "" when the field was not sent.
   */
  function Get(request: Request, field: string): (v: string)
    ensures field in request ==> v == request[field]
    ensures field !in request ==> v == ""
  {
    if field in request then request[field] else ""
  }
}

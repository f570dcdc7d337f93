/**
 * The request-independent helpers of the engine: rejecting fields a path does
 * not declare, and wrapping the TOTP library.
 */
module Helpers {
  import opened Wrappers
  import opened Ordering
  import opened Fields

  /** Outcome of the unknown-field check: nil, or the offending names. */
  datatype FieldCheck = FieldsOk | UnknownFields(names: seq<string>)

  /**
   * `validateFields`: succeeds exactly when every field of the request is in
   * the schema; otherwise lists each unknown field once, sorted.
   */
  function ValidateFields(request: Request, schema: set<string>): (r: FieldCheck)
    ensures r.FieldsOk? <==> request.Keys <= schema
    ensures r.UnknownFields? ==> |r.names| > 0 && StrictlySorted(r.names)
    ensures r.UnknownFields? ==>
      forall k :: k in r.names <==> k in request && k !in schema
  {
    var unknown := request.Keys - schema;
    if unknown == {} then FieldsOk else UnknownFields(SortedSet(unknown))
  }

  /**
   * Whatever order the request's fields are visited in, the reported list is
   * the one sorted list of exactly the unknown fields.
   */
  lemma ValidateFieldsOrderIndependent(request: Request, schema: set<string>, found: seq<string>)
    requires StrictlySorted(found)
    requires forall k :: k in found <==> k in request && k !in schema
    requires |found| > 0
    ensures ValidateFields(request, schema) == UnknownFields(found)
  {
    var r := ValidateFields(request, schema);
    assert found[0] in request && found[0] !in schema;
    SortedUnique(r.names, found);
  }

  /** Go's `%q` of one string; escaping of quotes and control characters is not modelled. */
  function Quote(s: string): string {
    "\"" + s + "\""
  }

  /** The elements of a `[]string` as `%q` prints them between the brackets. */
  function QuoteAll(names: seq<string>): string
    decreases |names|
  {
    if |names| == 0 then ""
    else if |names| == 1 then Quote(names[0])
    else Quote(names[0]) + " " + QuoteAll(names[1..])
  }

  /** The text of the error `validateFields` returns, `unknown fields: %q`. */
  function UnknownFieldsMessage(names: seq<string>): string {
    "unknown fields: [" + QuoteAll(names) + "]"
  }

  /**
   * The TOTP library call `GenerateCodeCustom(secret, at, {30 s, 6 digits,
   * SHA-1})`: a code, or the library's error. It is a parameter because the
   * derivation is not part of this model.
   */
  type TotpLibrary = (string, int) -> Result<string>

  /** Go's `(string, error)` pair returned by `generateTOTPCode`. */
  datatype CodeOrError = CodeOrError(code: string, err: Option<string>)

  /**
   * `generateTOTPCode`: the library's code unchanged with a nil error, or
   * the empty code together with the library's error.
   */
  function GenerateTotpCode(library: TotpLibrary, key: string, nowNs: int): (r: CodeOrError)
    ensures r.err.Some? <==> library(key, nowNs).Failure?
    ensures r.err.Some? ==> r.code == "" && r.err.value == library(key, nowNs).error
    ensures r.err.None? ==> r.code == library(key, nowNs).value
  {
    match library(key, nowNs)
    case Failure(e) => CodeOrError("", Some(e))
    case Success(code) => CodeOrError(code, None)
  }
}

/**
 * `CreateFastlyToken`: the token-creation request sent to the Fastly API and
 * the classification of what comes back. The network exchange and JSON
 * decoding are parameters; the decisions around them are modelled.
 */
module TokenClient {
  import opened Wrappers
  import opened Strconv
  import opened Ordering
  import opened GoStrings

  /** A form as `url.Values` holds it; an empty sequence stands for a nil slice. */
  type Form = map<string, seq<string>>

  const TokensEndpoint: string := "https://api.fastly.com/tokens"
  /**
   * The one-time-code header under the key `Header.Set` stores: Go
   * canonicalises "Fastly-OTP" to "Fastly-Otp", and HTTP compares header
   * names case-insensitively, so the server sees the same header.
   */
  const OtpHeader: string := "Fastly-Otp"

  datatype HttpRequest = HttpRequest(verb: string, url: string, form: Form, headers: map<string, string>)

  /** A received response: `StatusCode`, `Status` (such as "401 Unauthorized") and the body read in full. */
  datatype HttpResponse = HttpResponse(statusCode: int, status: string, body: string)

  /** What sending a request gave: a `client.Do` error, a body-read error, or a response. */
  datatype Exchange =
    | SendFailed(err: string)
    | ReadFailed(err: string)
    | Received(response: HttpResponse)

  /** `FastlyToken`, the decoded success body; times are kept as the strings the API sent. */
  datatype FastlyToken = FastlyToken(
    id: string, accessToken: string, name: string, userId: string, serviceId: string,
    expiresAt: string, createdAt: string, updatedAt: string, scope: string, services: seq<string>)

  type Transport = HttpRequest -> Exchange
  type Decoder = string -> Result<FastlyToken>

  /** The key/value pairs the form of the listed keys encodes, key by key, values in order. */
  function Pairs(keys: seq<string>, form: Form): (r: seq<(string, string)>)
    requires forall i :: 0 <= i < |keys| ==> keys[i] in form
    ensures forall k, v :: (k, v) in r <==> k in keys && v in form[k]
    decreases |keys|
  {
    if |keys| == 0 then []
    else
      var k := keys[0];
      var here := seq(|form[k]|, i requires 0 <= i < |form[k]| => (k, form[k][i]));
      var rest := Pairs(keys[1..], form);
      forall v | v in form[k]
        ensures (k, v) in here
      {
        var i :| 0 <= i < |form[k]| && form[k][i] == v;
        assert here[i] == (k, v);
      }
      assert forall k', v :: (k', v) in rest <==> k' in keys[1..] && v in form[k'];
      here + rest
  }

  /**
   * The pairs `url.Values.Encode` writes, keys in sorted order; a key whose
   * slice is nil or empty writes nothing. Percent-escaping is not modelled.
   */
  function EncodedPairs(form: Form): (r: seq<(string, string)>)
    ensures forall k, v :: (k, v) in r <==> k in form && v in form[k]
  {
    Pairs(SortedSet(form.Keys), form)
  }

  /** A key whose value is nil or empty never reaches the request body. */
  lemma EmptyFieldNotSent(form: Form, k: string)
    requires k in form ==> form[k] == []
    ensures forall p :: p in EncodedPairs(form) ==> p.0 != k
  {
    forall p | p in EncodedPairs(form)
      ensures p.0 != k
    {
      assert (p.0, p.1) in EncodedPairs(form);
    }
  }

  /**
   * The POST to the token endpoint with the form as body; the `Fastly-Otp`
   * header is set exactly when the one-time code is non-empty.
   */
  function TokenRequest(otp: string, form: Form): (r: HttpRequest)
    ensures r.verb == "POST" && r.url == TokensEndpoint && r.form == form
    ensures OtpHeader in r.headers <==> |otp| > 0
    ensures r.headers.Keys <= {OtpHeader}
    ensures OtpHeader in r.headers ==> r.headers[OtpHeader] == otp
  {
    HttpRequest("POST", TokensEndpoint, form, if |otp| > 0 then map[OtpHeader := otp] else map[])
  }

  predicate IsSuccessStatus(code: int) {
    200 <= code && code < 300
  }

  /** The error text for an unexpected status, `"%d %s %s"` of code, status and body. */
  function StatusError(response: HttpResponse): string {
    FormatInt(response.statusCode) + " " + response.status + " " + response.body
  }

  /** The first space-separated word of a status error is the status code, which reads back exactly. */
  lemma StatusErrorLeadsWithCode(response: HttpResponse)
    requires InInt64(response.statusCode)
    ensures |Split(StatusError(response), ' ')| > 1
    ensures Atoi(Split(StatusError(response), ' ')[0]) == Some(response.statusCode)
  {
    var code := FormatInt(response.statusCode);
    assert ' ' !in code;
    assert StatusError(response) == code + [' '] + (response.status + " " + response.body);
    SplitAfterPiece(code, ' ', response.status + " " + response.body);
    AtoiFormatInt(response.statusCode);
  }

  /** The error text for a 401 reply with body "denied". */
  lemma UnauthorizedMessage()
    ensures StatusError(HttpResponse(401, "401 Unauthorized", "denied")) == "401 401 Unauthorized denied"
  {
    FormatUnauthorized();
    assert StatusError(HttpResponse(401, "401 Unauthorized", "denied"))
        == "401" + " " + "401 Unauthorized" + " " + "denied";
  }

  /**
   * `CreateFastlyToken`: send the request once; a transport or read error is
   * returned as is; a status outside [200, 300) is an error carrying code,
   * status and body; a success status yields the decoded body.
   */
  function CreateFastlyToken(otp: string, form: Form, transport: Transport, decode: Decoder): (r: Result<FastlyToken>)
    ensures match transport(TokenRequest(otp, form))
      case SendFailed(e) => r == Failure(e)
      case ReadFailed(e) => r == Failure(e)
      case Received(response) =>
        if IsSuccessStatus(response.statusCode) then r == decode(response.body)
        else r == Failure(StatusError(response))
  {
    match transport(TokenRequest(otp, form))
    case SendFailed(e) => Failure(e)
    case ReadFailed(e) => Failure(e)
    case Received(response) =>
      if !IsSuccessStatus(response.statusCode) then Failure(StatusError(response))
      else decode(response.body)
  }

  /**
   * A token comes back only from a request that reached the server, got a
   * status in [200, 300) and whose body decoded to that token; every other
   * outcome is an error.
   */
  lemma TokenOnlyFromSuccessStatus(otp: string, form: Form, transport: Transport, decode: Decoder)
    requires CreateFastlyToken(otp, form, transport, decode).Success?
    ensures transport(TokenRequest(otp, form)).Received?
    ensures IsSuccessStatus(transport(TokenRequest(otp, form)).response.statusCode)
    ensures decode(transport(TokenRequest(otp, form)).response.body) == CreateFastlyToken(otp, form, transport, decode)
  {
  }

  /** A transport or body-read failure is returned unchanged, whatever the decoder. */
  lemma ExchangeErrorPassedThrough(otp: string, form: Form, transport: Transport, decode: Decoder)
    requires !transport(TokenRequest(otp, form)).Received?
    ensures CreateFastlyToken(otp, form, transport, decode) == Failure(transport(TokenRequest(otp, form)).err)
  {
  }

  /** An unexpected status is reported without consulting the decoder. */
  lemma RejectionIgnoresDecoder(otp: string, form: Form, transport: Transport, d1: Decoder, d2: Decoder)
    requires transport(TokenRequest(otp, form)).Received?
    requires !IsSuccessStatus(transport(TokenRequest(otp, form)).response.statusCode)
    ensures CreateFastlyToken(otp, form, transport, d1) == CreateFastlyToken(otp, form, transport, d2)
    ensures CreateFastlyToken(otp, form, transport, d1).Failure?
  {
  }
}

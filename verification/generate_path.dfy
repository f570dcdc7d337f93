/**
 * The `generate` path: preprocessing of the caller's parameters, assembly of
 * the token form, and the order in which the handler reports failures.
 */
module GeneratePath {
  import opened Wrappers
  import opened Fields
  import opened GoStrings
  import opened Strconv
  import opened Clock
  import opened Helpers
  import opened ConfigPath
  import opened TokenClient

  const DefaultTtl: string := "300"
  const TokenName: string := "vault-fastly-secret-engine"
  const TotpErrorMessage: string := "Could not generate TOTP token"

  /** Keys of the validated parameters and of the outgoing form. */
  const ServicesField: string := "services[]"
  const ExpiresAtField: string := "expires_at"
  const NameField: string := "name"

  /** The key the handler reads the service ids from; the validator never writes it. */
  const ServiceIdsKey: string := "serviceIDs"

  /** Keys of the handler's response data. */
  const ErrorKey: string := "error"
  const TokenKey: string := "token"

  /** The ttl text that is parsed: the one sent, or "300" when it is empty or missing. */
  function TtlText(request: Request): (t: string)
    ensures t != ""
    ensures Get(request, Ttl) != "" ==> t == Get(request, Ttl)
    ensures Get(request, Ttl) == "" ==> t == DefaultTtl
  {
    if |Get(request, Ttl)| == 0 then DefaultTtl else Get(request, Ttl)
  }

  /**
   * `validateAndPreprocessInputParams`: the scope as a one-element list, the
   * service ids split on commas, and the expiry `ttl` minutes from now; an
   * unparsable ttl is an error naming the text.
   */
  function ValidateAndPreprocessInputParams(request: Request, nowNs: int, renderUtc: int -> string): (r: Result<Form>)
    ensures r.Failure? <==> Atoi(TtlText(request)).None?
    ensures Get(request, Ttl) == "" ==> r.Success?
    ensures r.Failure? ==> r.error == "Invalid ttl value " + Get(request, Ttl)
    ensures r.Success? ==> r.value.Keys == {Scope, ServicesField, ExpiresAtField}
    ensures r.Success? ==> r.value[Scope] == [Get(request, Scope)]
    ensures r.Success? ==>
      && |r.value[ServicesField]| == Count(Get(request, ServiceId), ',') + 1
      && Join(r.value[ServicesField], ',') == Get(request, ServiceId)
    ensures r.Success? ==>
      r.value[ExpiresAtField] == [Timestamp(renderUtc, ExpirySecond(nowNs, Atoi(TtlText(request)).value))]
  {
    var scope := Get(request, Scope);
    var serviceIds := Split(Get(request, ServiceId), ',');
    JoinSplit(Get(request, ServiceId), ',');
    var ttlText := TtlText(request);
    AtoiExamples();
    match Atoi(ttlText)
    case None => Failure("Invalid ttl value " + ttlText)
    case Some(ttl) =>
      var expiresAt := Timestamp(renderUtc, ExpirySecond(nowNs, ttl));
      Success(map[Scope := [scope], ServicesField := serviceIds, ExpiresAtField := [expiresAt]])
  }

  /** Without a ttl the token expires 300 minutes after the current second. */
  lemma DefaultTtlIs300Minutes(request: Request, nowNs: int, renderUtc: int -> string)
    requires Get(request, Ttl) == ""
    ensures ValidateAndPreprocessInputParams(request, nowNs, renderUtc).Success?
    ensures ValidateAndPreprocessInputParams(request, nowNs, renderUtc).value[ExpiresAtField]
         == [Timestamp(renderUtc, nowNs / NanosPerSecond + 300 * 60)]
  {
    AtoiExamples();
    ExpiryWithoutWrap(nowNs, 300);
  }

  /** A well-formed ttl `n` that does not overflow gives an expiry exactly `n` minutes away. */
  lemma TtlMinutesFromNow(request: Request, nowNs: int, renderUtc: int -> string, n: int)
    requires Atoi(TtlText(request)) == Some(n)
    requires -MaxDurationMinutes <= n <= MaxDurationMinutes
    ensures ValidateAndPreprocessInputParams(request, nowNs, renderUtc).value[ExpiresAtField]
         == [Timestamp(renderUtc, nowNs / NanosPerSecond + 60 * n)]
  {
    ExpiryWithoutWrap(nowNs, n);
  }

  /** A negative ttl is accepted and puts the expiry in the past. */
  lemma NegativeTtlAccepted(nowNs: int, renderUtc: int -> string)
    ensures ValidateAndPreprocessInputParams(map[Ttl := "-5"], nowNs, renderUtc).Success?
    ensures ValidateAndPreprocessInputParams(map[Ttl := "-5"], nowNs, renderUtc).value[ExpiresAtField]
         == [Timestamp(renderUtc, nowNs / NanosPerSecond - 300)]
  {
    AtoiExamples();
    TtlMinutesFromNow(map[Ttl := "-5"], nowNs, renderUtc, -5);
  }

  /** A ttl that is not a decimal integer is rejected with a message naming it. */
  lemma NonNumericTtlRejected(nowNs: int, renderUtc: int -> string)
    ensures ValidateAndPreprocessInputParams(map[Ttl := "abc"], nowNs, renderUtc)
         == Failure("Invalid ttl value abc")
  {
    AtoiExamples();
  }

  /** The service ids: `"a,b,c"` gives three ids in order, `""` one empty id. */
  lemma ServiceIdExamples(nowNs: int, renderUtc: int -> string)
    ensures ValidateAndPreprocessInputParams(map[ServiceId := "a,b,c"], nowNs, renderUtc).value[ServicesField]
         == ["a", "b", "c"]
    ensures ValidateAndPreprocessInputParams(map[], nowNs, renderUtc).value[ServicesField] == [""]
  {
    AtoiExamples();
    assert Join(["a", "b", "c"], ',') == "a,b,c";
    SplitJoin(["a", "b", "c"], ',');
  }

  /** The form's value for `key`; a missing key reads as a nil slice. */
  function Lookup(form: Form, key: string): (v: seq<string>)
    ensures key in form ==> v == form[key]
    ensures key !in form ==> v == []
  {
    if key in form then form[key] else []
  }

  /**
   * The form `pathGenerate` builds: the stored credentials, the validated
   * scope and expiry, the fixed client name, and services read from the
   * `serviceIDs` key.
   */
  function AssembleForm(c: Config, validated: Form): (r: Form)
    ensures r.Keys == {Username, Password, Scope, ServicesField, NameField, ExpiresAtField}
    ensures r[Username] == [c.username] && r[Password] == [c.password]
    ensures r[NameField] == [TokenName]
    ensures r[Scope] == Lookup(validated, Scope) && r[ExpiresAtField] == Lookup(validated, ExpiresAtField)
    ensures r[ServicesField] == Lookup(validated, ServiceIdsKey)
  {
    map[Username := [c.username],
        Password := [c.password],
        Scope := Lookup(validated, Scope),
        ServicesField := Lookup(validated, ServiceIdsKey),
        NameField := [TokenName],
        ExpiresAtField := Lookup(validated, ExpiresAtField)]
  }

  /**
   * The validator stores the ids under `services[]` but the form reads
   * `serviceIDs`, so the ids never reach the API: the field is nil and no
   * `services[]` pair is encoded, while scope and expiry pass through.
   */
  lemma ServiceIdsNeverSent(c: Config, request: Request, nowNs: int, renderUtc: int -> string)
    requires ValidateAndPreprocessInputParams(request, nowNs, renderUtc).Success?
    ensures
      var validated := ValidateAndPreprocessInputParams(request, nowNs, renderUtc).value;
      var form := AssembleForm(c, validated);
      && form[ServicesField] == []
      && form[Scope] == [Get(request, Scope)]
      && form[ExpiresAtField] == validated[ExpiresAtField]
      && (forall p :: p in EncodedPairs(form) ==> p.0 != ServicesField)
  {
    var validated := ValidateAndPreprocessInputParams(request, nowNs, renderUtc).value;
    EmptyFieldNotSent(AssembleForm(c, validated), ServicesField);
  }

  /** `ensureExpirationInParams` adds the default expiry when the form has no non-empty `ttl`. */
  predicate TtlMissing(form: Form) {
    Ttl !in form || |form[Ttl]| == 0
  }

  /** The Unix second five minutes after `nowNs`, the helper's default expiry. */
  function DefaultExpirySecond(nowNs: int): (s: int)
    ensures s == nowNs / NanosPerSecond + 300
  {
    ExpiryWithoutWrap(nowNs, 5);
    SecondAfter(nowNs, 5 * NanosPerMinute)
  }

  /**
   * `ensureExpirationInParams` (never called by the handlers): sets
   * `expires_at` to five minutes from now when the form has no `ttl`, and
   * leaves every other key alone. Go writes into the caller's map and returns
   * that same map; the model returns the updated map as a new value, which no
   * caller can tell apart since nothing calls the helper.
   */
  function EnsureExpirationInParams(form: Form, nowNs: int, renderUtc: int -> string): (r: Form)
    ensures r.Keys == if TtlMissing(form) then form.Keys + {ExpiresAtField} else form.Keys
    ensures forall k :: k in form && k != ExpiresAtField ==> r[k] == form[k]
    ensures !TtlMissing(form) ==> r == form
    ensures TtlMissing(form) ==> r[ExpiresAtField] == [Timestamp(renderUtc, nowNs / NanosPerSecond + 300)]
  {
    if TtlMissing(form) then
      form[ExpiresAtField := [Timestamp(renderUtc, DefaultExpirySecond(nowNs))]]
    else form
  }

  /** Applying the helper twice at the same instant is applying it once. */
  lemma EnsureExpirationIdempotent(form: Form, nowNs: int, renderUtc: int -> string)
    ensures EnsureExpirationInParams(EnsureExpirationInParams(form, nowNs, renderUtc), nowNs, renderUtc)
         == EnsureExpirationInParams(form, nowNs, renderUtc)
  {
    var once := EnsureExpirationInParams(form, nowNs, renderUtc);
    assert TtlMissing(once) == TtlMissing(form);
  }

  /**
   * The validated parameters never hold a `ttl` key, so the helper would
   * always replace the caller's expiry by the five-minute default.
   */
  lemma EnsureExpirationOverridesTtl(request: Request, nowNs: int, renderUtc: int -> string)
    requires ValidateAndPreprocessInputParams(request, nowNs, renderUtc).Success?
    ensures
      var validated := ValidateAndPreprocessInputParams(request, nowNs, renderUtc).value;
      EnsureExpirationInParams(validated, nowNs, renderUtc)[ExpiresAtField]
        == [Timestamp(renderUtc, nowNs / NanosPerSecond + 300)]
  {
  }

  /**
   * The collaborators of one generate call: the current time in Unix
   * nanoseconds, the UTC calendar rendering, the TOTP library, the network
   * exchange and the JSON decoder.
   */
  datatype Env = Env(
    nowNs: int,
    renderUtc: int -> string,
    totp: TotpLibrary,
    transport: Transport,
    decode: Decoder)

  /**
   * Outcome of `pathGenerate`: response data, or the nil dereference that
   * happens when parameters are valid but no record is stored.
   */
  datatype GenerateOutcome = Responded(data: map<string, string>) | NilConfig

  /**
   * `pathGenerate`: validate the parameters, build the form, derive the
   * one-time code, request the token; the first failure becomes an `error`
   * entry in the response data, success a `token` entry. Undeclared fields
   * are not checked here.
   */
  function PathGenerate(storage: Storage, request: Request, env: Env): (r: GenerateOutcome)
    ensures r.Responded? ==> |r.data| == 1 && (ErrorKey in r.data || TokenKey in r.data)
    ensures ValidateAndPreprocessInputParams(request, env.nowNs, env.renderUtc).Failure? ==>
      r == Responded(map[ErrorKey := ValidateAndPreprocessInputParams(request, env.nowNs, env.renderUtc).error])
    ensures r.NilConfig? <==>
      ValidateAndPreprocessInputParams(request, env.nowNs, env.renderUtc).Success? && ConfigKey !in storage
    ensures ConfigKey in storage && ValidateAndPreprocessInputParams(request, env.nowNs, env.renderUtc).Success?
            && env.totp(storage[ConfigKey].sharedSecret, env.nowNs).Failure? ==>
      r == Responded(map[ErrorKey := TotpErrorMessage])
    ensures ConfigKey in storage && ValidateAndPreprocessInputParams(request, env.nowNs, env.renderUtc).Success?
            && env.totp(storage[ConfigKey].sharedSecret, env.nowNs).Success? ==>
      var validated := ValidateAndPreprocessInputParams(request, env.nowNs, env.renderUtc).value;
      var code := env.totp(storage[ConfigKey].sharedSecret, env.nowNs).value;
      r == match CreateFastlyToken(code, AssembleForm(storage[ConfigKey], validated), env.transport, env.decode)
        case Failure(e) => Responded(map[ErrorKey := e])
        case Success(token) => Responded(map[TokenKey := token.accessToken])
    ensures r.Responded? && TokenKey in r.data ==>
      && ValidateAndPreprocessInputParams(request, env.nowNs, env.renderUtc).Success?
      && ConfigKey in storage
      && env.totp(storage[ConfigKey].sharedSecret, env.nowNs).Success?
  {
    match ValidateAndPreprocessInputParams(request, env.nowNs, env.renderUtc)
    case Failure(e) => Responded(map[ErrorKey := e])
    case Success(validated) =>
      match Load(storage)
      case None => NilConfig
      case Some(c) =>
        var form := AssembleForm(c, validated);
        var totp := GenerateTotpCode(env.totp, c.sharedSecret, env.nowNs);
        if totp.err.Some? then Responded(map[ErrorKey := TotpErrorMessage])
        else
          match CreateFastlyToken(totp.code, form, env.transport, env.decode)
          case Failure(e) => Responded(map[ErrorKey := e])
          case Success(token) => Responded(map[TokenKey := token.accessToken])
  }

  /** Fields the path does not declare have no effect on the outcome. */
  lemma UndeclaredFieldsIgnored(storage: Storage, request: Request, k: string, v: string, env: Env)
    requires k !in GenerateSchema
    ensures PathGenerate(storage, request[k := v], env) == PathGenerate(storage, request, env)
  {
    var r2 := request[k := v];
    assert forall f :: f in GenerateSchema ==> Get(r2, f) == Get(request, f);
    assert TtlText(r2) == TtlText(request);
  }

  /**
   * When the one-time code cannot be derived, the token API is never
   * contacted, and the library's own error text is replaced by the fixed
   * message.
   */
  lemma TotpFailureSkipsRemote(storage: Storage, request: Request, env: Env, transport: Transport, decode: Decoder)
    requires ConfigKey in storage
    requires env.totp(storage[ConfigKey].sharedSecret, env.nowNs).Failure?
    ensures PathGenerate(storage, request, env.(transport := transport, decode := decode))
         == PathGenerate(storage, request, env)
    ensures ValidateAndPreprocessInputParams(request, env.nowNs, env.renderUtc).Success? ==>
      PathGenerate(storage, request, env) == Responded(map[ErrorKey := TotpErrorMessage])
  {
  }

  /**
   * A successful exchange returns the decoded access token, and the request
   * sent carries the one-time code in its header and no service ids.
   */
  lemma GenerateSuccess(storage: Storage, request: Request, env: Env, code: string, token: FastlyToken)
    requires ConfigKey in storage
    requires ValidateAndPreprocessInputParams(request, env.nowNs, env.renderUtc).Success?
    requires env.totp(storage[ConfigKey].sharedSecret, env.nowNs) == Success(code)
    requires
      var validated := ValidateAndPreprocessInputParams(request, env.nowNs, env.renderUtc).value;
      var sent := TokenRequest(code, AssembleForm(storage[ConfigKey], validated));
      && env.transport(sent).Received?
      && IsSuccessStatus(env.transport(sent).response.statusCode)
      && env.decode(env.transport(sent).response.body) == Success(token)
    ensures PathGenerate(storage, request, env) == Responded(map[TokenKey := token.accessToken])
  {
  }

  /**
   * An unexpected status is surfaced as an `error` entry holding the status
   * code, the status text and the body.
   */
  lemma GenerateRemoteRejected(storage: Storage, request: Request, env: Env, code: string, response: HttpResponse)
    requires ConfigKey in storage
    requires ValidateAndPreprocessInputParams(request, env.nowNs, env.renderUtc).Success?
    requires env.totp(storage[ConfigKey].sharedSecret, env.nowNs) == Success(code)
    requires
      var validated := ValidateAndPreprocessInputParams(request, env.nowNs, env.renderUtc).value;
      env.transport(TokenRequest(code, AssembleForm(storage[ConfigKey], validated))) == Received(response)
    requires !IsSuccessStatus(response.statusCode)
    ensures PathGenerate(storage, request, env) == Responded(map[ErrorKey := StatusError(response)])
  {
  }

  /** A stored record used by the end-to-end examples. */
  const ExampleStorage: Storage := map[ConfigKey := Config("sam", "1234", "Y64VEVMBTSXCYIWRSHRNDZW62MPGVU2G")]

  const ExampleRequest: Request := map[Scope := "purge_all", ServiceId := "svc1,svc2"]

  function ExampleToken(): FastlyToken {
    FastlyToken("id", "tok-123", TokenName, "user", "svc1", "", "", "", "purge_all", [])
  }

  /** The TOTP library answering every call with the same code. */
  function FixedCode(code: string): TotpLibrary {
    (secret, at) => Success(code)
  }

  /** A transport answering every request with the same response. */
  function Replying(response: HttpResponse): Transport {
    req => Received(response)
  }

  /** The example request validates: no ttl, so the 300-minute default applies. */
  lemma ExampleRequestValid(nowNs: int, renderUtc: int -> string)
    ensures ValidateAndPreprocessInputParams(ExampleRequest, nowNs, renderUtc).Success?
  {
    assert Get(ExampleRequest, Ttl) == "";
  }

  /**
   * End to end: with a working TOTP library, a 200 reply decoding to the
   * token "tok-123" yields `{token: "tok-123"}`.
   */
  lemma GenerateExampleSuccess(nowNs: int, renderUtc: int -> string)
    ensures
      var env := Env(nowNs, renderUtc, FixedCode("123456"),
                     Replying(HttpResponse(200, "200 OK", "{\"access_token\":\"tok-123\"}")),
                     body => Success(ExampleToken()));
      PathGenerate(ExampleStorage, ExampleRequest, env) == Responded(map[TokenKey := "tok-123"])
  {
    var env := Env(nowNs, renderUtc, FixedCode("123456"),
                   Replying(HttpResponse(200, "200 OK", "{\"access_token\":\"tok-123\"}")),
                   body => Success(ExampleToken()));
    ExampleRequestValid(nowNs, renderUtc);
    GenerateSuccess(ExampleStorage, ExampleRequest, env, "123456", ExampleToken());
  }

  /** End to end: a 401 reply yields an error entry beginning with "401". */
  lemma GenerateExampleRejected(nowNs: int, renderUtc: int -> string)
    ensures
      var env := Env(nowNs, renderUtc, FixedCode("123456"),
                     Replying(HttpResponse(401, "401 Unauthorized", "denied")),
                     body => Success(ExampleToken()));
      PathGenerate(ExampleStorage, ExampleRequest, env)
        == Responded(map[ErrorKey := "401 401 Unauthorized denied"])
  {
    var response := HttpResponse(401, "401 Unauthorized", "denied");
    var env := Env(nowNs, renderUtc, FixedCode("123456"), Replying(response),
                   body => Success(ExampleToken()));
    ExampleRequestValid(nowNs, renderUtc);
    GenerateRemoteRejected(ExampleStorage, ExampleRequest, env, "123456", response);
    UnauthorizedMessage();
  }
}

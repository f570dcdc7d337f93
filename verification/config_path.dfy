/**
 * The `config` path: the stored credential record, its partial update, and
 * the read and write handlers over a storage that maps keys to records.
 */
module ConfigPath {
  import opened Wrappers
  import opened Fields
  import opened GoStrings
  import opened Ordering
  import opened Helpers

  /** `fastlyConfig`: the account credentials and the TOTP shared secret. */
  datatype Config = Config(username: string, password: string, sharedSecret: string)

  /** The record a write starts from when nothing is stored yet. */
  const EmptyConfig: Config := Config("", "", "")

  /** The storage key the record lives under. */
  const ConfigKey: string := "config"

  /** The backend's storage, reduced to the decoded records it holds. */
  type Storage = map<string, Config>

  /** The value of a record field, by its schema name. */
  function FieldValue(c: Config, field: string): string {
    if field == Username then c.username
    else if field == Password then c.password
    else if field == SharedSecret then c.sharedSecret
    else ""
  }

  /** How an incoming non-empty value is stored: the secret upper-cased, the rest verbatim. */
  function Normalize(field: string, v: string): string {
    if field == SharedSecret then ToUpper(v) else v
  }

  /** `b.config`: the stored record, or nil when none was written. */
  function Load(storage: Storage): (r: Option<Config>)
    ensures r.Some? <==> ConfigKey in storage
    ensures r.Some? ==> r.value == storage[ConfigKey]
  {
    if ConfigKey in storage then Some(storage[ConfigKey]) else None
  }

  /**
   * `fastlyConfig.Update`: each field the request sends non-empty replaces
   * the stored one (the secret upper-cased); an empty or missing field leaves
   * the stored one alone. It never returns an error.
   */
  function Update(c: Config, request: Request): (r: Result<Config>)
    ensures r.Success?
    ensures forall f :: f in ConfigSchema && Get(request, f) == "" ==>
      FieldValue(r.value, f) == FieldValue(c, f)
    ensures forall f :: f in ConfigSchema && Get(request, f) != "" ==>
      FieldValue(r.value, f) == Normalize(f, Get(request, f))
  {
    var username := Get(request, Username);
    var password := Get(request, Password);
    var sharedSecret := Get(request, SharedSecret);
    Success(Config(
      if |username| > 0 then username else c.username,
      if |password| > 0 then password else c.password,
      if |sharedSecret| > 0 then ToUpper(sharedSecret) else c.sharedSecret))
  }

  /** Records are equal when they agree on every schema field. */
  lemma ConfigExtensional(a: Config, b: Config)
    requires forall f :: f in ConfigSchema ==> FieldValue(a, f) == FieldValue(b, f)
    ensures a == b
  {
    assert FieldValue(a, Username) == FieldValue(b, Username);
    assert FieldValue(a, Password) == FieldValue(b, Password);
    assert FieldValue(a, SharedSecret) == FieldValue(b, SharedSecret);
  }

  /** Applying the same update twice gives the record applying it once gives. */
  lemma UpdateIdempotent(c: Config, request: Request)
    ensures Update(Update(c, request).value, request) == Update(c, request)
  {
    var once := Update(c, request).value;
    var twice := Update(once, request).value;
    forall f | f in ConfigSchema
      ensures FieldValue(twice, f) == FieldValue(once, f)
    {
      if Get(request, f) != "" && f == SharedSecret {
        ToUpperIdempotent(Get(request, f));
      }
    }
    ConfigExtensional(twice, once);
  }

  /** An update whose fields are all empty or missing changes nothing. */
  lemma UpdateWithNothingSent(c: Config, request: Request)
    requires forall f :: f in ConfigSchema ==> Get(request, f) == ""
    ensures Update(c, request) == Success(c)
  {
    var r := Update(c, request).value;
    ConfigExtensional(r, c);
  }

  /** The stored secret is in upper case. */
  predicate SecretCanonical(storage: Storage) {
    ConfigKey in storage ==> IsUpper(storage[ConfigKey].sharedSecret)
  }

  /** Outcome of `pathConfigWrite`: the new storage, a coded error, or an error response. */
  datatype WriteOutcome =
    | Stored(storage: Storage)
    | CodedError(code: int, message: string)
    | ErrorResponse(message: string)

  /**
   * `pathConfigWrite`: reject undeclared fields with code 422 before storage
   * is touched; otherwise update the stored record (the empty record when
   * none is stored) and store it under the `config` key.
   */
  function PathConfigWrite(storage: Storage, request: Request): (r: WriteOutcome)
    ensures r.CodedError? <==> !(request.Keys <= ConfigSchema)
    ensures r.CodedError? ==>
      r.code == 422 && r.message == UnknownFieldsMessage(SortedSet(request.Keys - ConfigSchema))
    ensures !r.ErrorResponse?
    ensures r.Stored? ==> ConfigKey in r.storage && r.storage == storage[ConfigKey := r.storage[ConfigKey]]
  {
    match ValidateFields(request, ConfigSchema)
    case UnknownFields(names) => CodedError(422, UnknownFieldsMessage(names))
    case FieldsOk =>
      var current := Load(storage).GetOr(EmptyConfig);
      match Update(current, request)
      case Failure(e) => ErrorResponse("could not update config: " + e)
      case Success(updated) => Stored(storage[ConfigKey := updated])
  }

  /**
   * After a write of declared fields, `b.config` finds a record, and it is
   * the update of what was loaded before (the empty record when nothing was
   * stored).
   */
  lemma {:induction false} LoadAfterWrite(storage: Storage, request: Request)
    requires request.Keys <= ConfigSchema
    ensures PathConfigWrite(storage, request).Stored?
    ensures Load(PathConfigWrite(storage, request).storage)
         == Some(Update(Load(storage).GetOr(EmptyConfig), request).value)
  {
    assert ValidateFields(request, ConfigSchema).FieldsOk?;
  }

  /** A write keeps the stored secret in upper case. */
  lemma WriteKeepsSecretCanonical(storage: Storage, request: Request)
    requires SecretCanonical(storage)
    ensures PathConfigWrite(storage, request).Stored? ==>
      SecretCanonical(PathConfigWrite(storage, request).storage)
  {
  }

  /** The response data of a config read: the non-empty fields of a record. */
  type ReadData = map<string, string>

  /**
   * `pathConfigRead`: a nil response when no record is stored; otherwise
   * exactly the record's non-empty fields.
   */
  function PathConfigRead(storage: Storage): (r: Option<ReadData>)
    ensures r.None? <==> ConfigKey !in storage
    ensures r.Some? ==> forall f :: f in r.value <==>
      f in ConfigSchema && FieldValue(storage[ConfigKey], f) != ""
    ensures r.Some? ==> forall f :: f in r.value ==>
      r.value[f] == FieldValue(storage[ConfigKey], f)
  {
    match Load(storage)
    case None => None
    case Some(c) =>
      var withUsername := if c.username != "" then map[Username := c.username] else map[];
      var withPassword := if c.password != "" then withUsername[Password := c.password] else withUsername;
      Some(if c.sharedSecret != "" then withPassword[SharedSecret := c.sharedSecret] else withPassword)
  }

  /** The non-empty fields of a request, as a write would store them. */
  function Incoming(request: Request): ReadData {
    map f | f in ConfigSchema && Get(request, f) != "" :: Normalize(f, Get(request, f))
  }

  /**
   * Partial update seen from outside: reading after a successful write gives
   * what a read gave before, overridden by the request's non-empty fields.
   */
  lemma {:induction false} ReadAfterWrite(storage: Storage, request: Request)
    requires request.Keys <= ConfigSchema
    ensures PathConfigWrite(storage, request).Stored?
    ensures PathConfigRead(PathConfigWrite(storage, request).storage)
         == Some(PathConfigRead(storage).GetOr(map[]) + Incoming(request))
  {
    var prior := Load(storage).GetOr(EmptyConfig);
    var updated := Update(prior, request).value;
    var after := PathConfigWrite(storage, request).storage;
    assert after == storage[ConfigKey := updated];
    ReadIsNonEmptyFields(after);
    if ConfigKey in storage {
      ReadIsNonEmptyFields(storage);
    } else {
      assert NonEmptyFields(EmptyConfig) == map[];
    }
    UpdateNonEmptyFields(prior, request);
  }

  /** The non-empty fields of a record, keyed by schema name. */
  function NonEmptyFields(c: Config): ReadData {
    map f | f in ConfigSchema && FieldValue(c, f) != "" :: FieldValue(c, f)
  }

  lemma ReadIsNonEmptyFields(storage: Storage)
    requires ConfigKey in storage
    ensures PathConfigRead(storage) == Some(NonEmptyFields(storage[ConfigKey]))
  {
    var got := PathConfigRead(storage).value;
    assert got == NonEmptyFields(storage[ConfigKey]);
  }

  lemma UpdateNonEmptyFields(c: Config, request: Request)
    ensures NonEmptyFields(Update(c, request).value) == NonEmptyFields(c) + Incoming(request)
  {
    var got := NonEmptyFields(Update(c, request).value);
    var expected := NonEmptyFields(c) + Incoming(request);
    forall f
      ensures f in got <==> f in expected
      ensures f in got ==> got[f] == expected[f]
    {
      if f in ConfigSchema && Get(request, f) != "" {
        ToUpperNonEmpty(Get(request, f));
      }
    }
    assert got == expected;
  }

  lemma ToUpperNonEmpty(s: string)
    requires s != ""
    ensures ToUpper(s) != ""
  {
    assert |ToUpper(s)| == |s|;
  }

  /**
   * The backend test: writing username "sam", password "1234" and a secret
   * to empty storage, then reading, returns those values.
   */
  lemma WriteReadExample()
    ensures
      var request := map[Username := "sam", Password := "1234",
                         SharedSecret := "Y64VEVMBTSXCYIWRSHRNDZW62MPGVU2G"];
      var written := PathConfigWrite(map[], request);
      && written.Stored?
      && PathConfigRead(written.storage)
         == Some(map[Username := "sam", Password := "1234",
                     SharedSecret := "Y64VEVMBTSXCYIWRSHRNDZW62MPGVU2G"])
  {
    var secret := "Y64VEVMBTSXCYIWRSHRNDZW62MPGVU2G";
    var request := map[Username := "sam", Password := "1234", SharedSecret := secret];
    ToUpperFixesUpper(secret);
    ReadAfterWrite(map[], request);
    assert Incoming(request) == map[Username := "sam", Password := "1234", SharedSecret := secret];
  }
}

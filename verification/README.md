# Fastly secrets engine — request handling model

A Dafny model of the request handling of the Fastly secrets engine for
Vault. The engine stores Fastly account credentials (username, password and
a TOTP shared secret) under the storage key `config`. Its `generate` path
asks the Fastly API for a short-lived token: it preprocesses the caller's
scope, service ids and ttl, assembles the token form, derives a one-time
code from the shared secret, posts the form and returns the access token.

The model is purely functional. The storage is a map from key to decoded
record. A request's raw data is a map from field name to string. The
collaborators of a generate call are function-valued parameters gathered in
`GeneratePath.Env`:

- the current time, in Unix nanoseconds;
- the UTC calendar rendering of a Unix second;
- the TOTP library;
- the HTTP exchange;
- the JSON decoder of the response body.

Modules, leaves first:

| module | file | models |
|---|---|---|
| `Wrappers` | wrappers.dfy | `Option` for nil, `Result` for a value or a Go error text |
| `Ordering` | ordering.dfy | the byte order of `sort.Strings`, and the sorted listing of a set |
| `GoStrings` | gostrings.dfy | `strings.ToUpper`, `strings.Split` and `strings.Join` |
| `Strconv` | strconv.dfy | `strconv.Atoi` with 64-bit `int`, `%d`, and int64 wrap-around |
| `Clock` | clock.dfy | `time.Duration(ttl) * time.Minute`, `Time.Add` and the timestamp layout |
| `Fields` | fields.dfy | the field schemas of `plugin/backend.go` and `FieldData.Get` |
| `Helpers` | helpers.dfy | `validateFields` and `generateTOTPCode` |
| `ConfigPath` | config_path.dfy | `fastlyConfig`, `Update`, `config`, `pathConfigWrite`, `pathConfigRead` |
| `TokenClient` | token_client.dfy | the request built and the response classified by `CreateFastlyToken` |
| `GeneratePath` | generate_path.dfy | `validateAndPreprocessInputParams`, `ensureExpirationInParams`, `pathGenerate` |

Behaviour of the code that the model reproduces as written:

- `pathGenerate` reads the service ids from the key `serviceIDs`. The
  validator stores them under `services[]`, so the form's `services[]` is
  always nil and no service id is ever sent (`GeneratePath.ServiceIdsNeverSent`).
- The error from loading the record in `pathGenerate` is overwritten, and the
  record is used without a nil check. When parameters are valid but nothing is
  stored, the handler dereferences nil. The model makes this an explicit
  outcome, `NilConfig`. A validation error is still reported first.
- `pathGenerate` never calls `validateFields`, so undeclared fields are
  silently ignored (`GeneratePath.UndeclaredFieldsIgnored`).
- `strconv.Atoi` accepts a sign, so a negative ttl passes. It yields an
  expiry in the past (`GeneratePath.NegativeTtlAccepted`).
- `time.Duration(ttl) * time.Minute` wraps in 64 bits once ttl exceeds
  153722867 minutes (about 292 years) in absolute value. The model writes
  the wrap out (`Strconv.WrapInt64`, `Clock.MinutesDuration`). One minute
  past the bound, the expiry lies about 292 years in the past
  (`Clock.ExpiryWrapsPastBound`).
- An empty `service_id` splits into one empty id, `[""]`.
- `ensureExpirationInParams` is never called. Applied to validated
  parameters, which never hold a `ttl` key, it would always replace the
  caller's expiry with the five-minute default
  (`GeneratePath.EnsureExpirationOverridesTtl`).

## Model

| member | source | states |
|---|---|---|
| `Ordering.SortedSet` | plugin/helpers.go:24-27 | lists every element of the set exactly once, in strictly ascending byte order |
| `Ordering.SortedUnique` | plugin/helpers.go:24-27 | two strictly sorted lists with the same elements are equal, so sorting removes any dependence on map iteration order |
| `Helpers.ValidateFields` | plugin/helpers.go:16-32 | no error iff every request field is declared; otherwise a non-empty, sorted, duplicate-free list of exactly the undeclared fields |
| `Helpers.ValidateFieldsOrderIndependent` | plugin/helpers.go:18-27 | whatever order the unknown fields are collected in, the reported list is the same sorted list |
| `GoStrings.ToUpper` | plugin/path_config.go:91 | the result has no lower-case letter and differs from the input only by capitalising lower-case letters |
| `GoStrings.ToUpperIdempotent` | plugin/path_config.go:91 | upper-casing an upper-cased secret changes nothing |
| `GoStrings.Split` | plugin/path_generate.go:133 | one piece more than there are commas; no piece contains a comma; "" gives one empty piece |
| `GoStrings.JoinSplit` | plugin/path_generate.go:133 | joining the pieces with commas restores the input: order and empty pieces are kept |
| `GoStrings.SplitJoin` | plugin/path_generate.go:133 | splitting a comma-join of comma-free ids gives the ids back |
| `Strconv.Atoi` | plugin/path_generate.go:141-144 | succeeds exactly on an optional sign followed by at least one digit whose value fits in 64 bits, leading zeros allowed, and then returns that signed value |
| `Strconv.FormatInt` | plugin/path_generate.go:118 | `%d` writes a '-' exactly for negative numbers, then the digits of the magnitude with no leading zero |
| `Strconv.AtoiFormatInt` | plugin/path_generate.go:141 | every 64-bit integer written with `%d` parses back to itself |
| `Strconv.AtoiRejectsOutOfRange` | plugin/path_generate.go:141-144 | a well-formed decimal outside 64 bits is rejected |
| `Strconv.AtoiPlusSign` | plugin/path_generate.go:141 | a leading '+' before the digits is accepted and does not change the value |
| `Strconv.AtoiExamples` | plugin/path_generate.go:137-144 | "300" and "-5" parse; "abc", "" and "-" are rejected |
| `Strconv.WrapInt64` | plugin/path_generate.go:146 | the result is the 64-bit value congruent to the input modulo 2^64, equal to it when it fits |
| `Clock.MinutesDuration` | plugin/path_generate.go:146 | the duration is the 64-bit value congruent to ttl minutes in nanoseconds modulo 2^64, exactly ttl minutes when ttl lies between -153722867 and 153722867 |
| `Clock.ExpiryWithoutWrap` | plugin/path_generate.go:146 | without wrap-around the expiry second is the current second plus 60 per ttl minute |
| `Clock.ExpiryWrapsPastBound` | plugin/path_generate.go:146 | one minute past the bound the expiry falls more than 285 years before now |
| `Clock.Timestamp` | plugin/path_generate.go:146 | a rendered expiry always ends with the literal "+00:00" |
| `ConfigPath.LoadAfterWrite` | plugin/path_config.go:97-112 | after a write of declared fields, loading finds a record, and it is the update of what was loaded before, the empty record when nothing was stored |
| `ConfigPath.Update` | plugin/path_config.go:78-95 | never fails; an empty or missing field keeps the stored value; a non-empty username or password is stored verbatim; a non-empty secret is stored upper-cased |
| `ConfigPath.UpdateIdempotent` | plugin/path_config.go:78-95 | applying the same update twice gives the record that applying it once gives |
| `ConfigPath.UpdateWithNothingSent` | plugin/path_config.go:79-92 | an update with every field empty leaves the record unchanged |
| `ConfigPath.PathConfigWrite` | plugin/path_config.go:18-50 | an undeclared field gives a 422 error naming the sorted unknown fields, before storage is read; the "could not update config" branch is unreachable; otherwise only the "config" key is written |
| `ConfigPath.WriteKeepsSecretCanonical` | plugin/path_config.go:89-92 | if the stored secret was upper-case, it still is after any write |
| `ConfigPath.PathConfigRead` | plugin/path_config.go:52-76 | nil iff no record is stored; otherwise exactly the record's non-empty fields with their values |
| `ConfigPath.ReadAfterWrite` | plugin/path_config.go:18-76 | a write of declared fields always succeeds, even with nothing stored; reading afterwards gives the earlier read overridden by the request's non-empty fields (secret upper-cased) |
| `ConfigPath.WriteReadExample` | plugin/backend_test.go:47-83 | writing "sam", "1234" and a secret to empty storage and reading back returns all three |
| `TokenClient.Pairs` | plugin/path_generate.go:85-90 | a key/value pair is produced iff the key is listed and the value is in that key's slice |
| `TokenClient.EncodedPairs` | plugin/path_generate.go:85-90 | the encoded body holds exactly the form's key/value pairs |
| `TokenClient.EmptyFieldNotSent` | plugin/path_generate.go:85-90 | a key with a nil or empty slice contributes nothing to the body |
| `TokenClient.TokenRequest` | plugin/path_generate.go:85-99 | a POST of the form to the tokens endpoint; the OTP header (stored by Go as "Fastly-Otp") is present iff the code is non-empty, and then holds the code; no other header is set |
| `TokenClient.StatusErrorLeadsWithCode` | plugin/path_generate.go:117-119 | the first word of an unexpected-status error parses back to the status code |
| `TokenClient.TokenOnlyFromSuccessStatus` | plugin/path_generate.go:82-128 | a token is returned only when the request reached the server, the status lies in [200,300) and the body decoded to that token |
| `TokenClient.ExchangeErrorPassedThrough` | plugin/path_generate.go:101-114 | a send or body-read error is returned unchanged |
| `TokenClient.RejectionIgnoresDecoder` | plugin/path_generate.go:117-125 | for a status outside [200,300) the result fails and does not depend on the decoder |
| `GeneratePath.TtlText` | plugin/path_generate.go:135-139 | the parsed ttl text is the text sent when one was sent, and "300" when ttl is empty or missing |
| `GeneratePath.ValidateAndPreprocessInputParams` | plugin/path_generate.go:130-155 | fails iff the ttl text does not parse, with "Invalid ttl value <text>"; a missing ttl never fails; on success exactly scope, services[] and expires_at, with the scope verbatim as a one-element list, the comma pieces of service_id, and the expiry ttl minutes after now |
| `GeneratePath.DefaultTtlIs300Minutes` | plugin/path_generate.go:135-146 | without a ttl the expiry is 300 minutes after the current second |
| `GeneratePath.TtlMinutesFromNow` | plugin/path_generate.go:141-146 | a ttl of n minutes within the wrap bound expires exactly 60n seconds after the current second |
| `GeneratePath.NegativeTtlAccepted` | plugin/path_generate.go:141-146 | a ttl of "-5" validates and expires five minutes before now |
| `GeneratePath.NonNumericTtlRejected` | plugin/path_generate.go:141-144 | a ttl of "abc" gives the error "Invalid ttl value abc" |
| `GeneratePath.ServiceIdExamples` | plugin/path_generate.go:133 | "a,b,c" gives ["a","b","c"] and a missing service_id gives [""] |
| `GeneratePath.AssembleForm` | plugin/path_generate.go:47-54 | the form has exactly six keys: the stored username and password, the validated scope and expiry, the fixed name "vault-fastly-secret-engine", and services[] read from "serviceIDs" |
| `GeneratePath.ServiceIdsNeverSent` | plugin/path_generate.go:47-54 | for any validated request the form's services[] is nil and never encoded, while scope and expiry pass through |
| `GeneratePath.DefaultExpirySecond` | plugin/path_generate.go:160 | the helper's default expiry is 300 seconds after the current second |
| `GeneratePath.EnsureExpirationInParams` | plugin/path_generate.go:157-168 | when ttl is missing or empty, expires_at is set to five minutes from now; otherwise the form is returned unchanged; no other key ever changes |
| `GeneratePath.EnsureExpirationIdempotent` | plugin/path_generate.go:157-168 | applying the helper twice at one instant equals applying it once |
| `GeneratePath.EnsureExpirationOverridesTtl` | plugin/path_generate.go:157-168 | on validated parameters the helper always imposes the five-minute default |
| `GeneratePath.PathGenerate` | plugin/path_generate.go:32-79 | always one entry, error or token; a validation error is reported first, even with nothing stored; the nil dereference happens iff parameters are valid and nothing is stored; a TOTP failure gives the fixed message; once validation, the stored record and the code all succeed, the library's code goes to the token call and its failure e gives {error: e}, its token t {token: t's access token} |
| `GeneratePath.UndeclaredFieldsIgnored` | plugin/path_generate.go:32-37 | adding an undeclared field never changes the outcome |
| `GeneratePath.TotpFailureSkipsRemote` | plugin/path_generate.go:56-63 | when the code cannot be derived, the outcome does not depend on the transport or the decoder, and for valid parameters is the fixed "Could not generate TOTP token" error rather than the library's error |
| `GeneratePath.GenerateSuccess` | plugin/path_generate.go:56-78 | a 2xx reply decoding to a token, for the request carrying the code, yields exactly {token: access token} |
| `GeneratePath.GenerateRemoteRejected` | plugin/path_generate.go:65-72 | an unexpected status yields exactly {error: "code status body"} |
| `GeneratePath.GenerateExampleSuccess` | plugin/path_generate.go:32-79 | with a stored record, a 200 reply decoding to "tok-123" gives {token: "tok-123"} |
| `GeneratePath.GenerateExampleRejected` | plugin/path_generate.go:32-79 | a 401 "Unauthorized" reply with body "denied" gives {error: "401 401 Unauthorized denied"} |

## Left out

- Storage I/O and decoding: errors from the storage `Get`/`Put` and from
  JSON (de)serialisation of the record are not modelled. Storage holds
  decoded records, and seal-wrapping is a storage concern.
- `backend.Close` and `clientMutex`: they only take and release a lock, and
  leave no state to observe.
- Routes, help text and `path_info.go`: these are framework configuration
  and static version constants. Only the two field schemas are used.
- The HTTP exchange is the `Transport` parameter: `client.Do` and reading the
  body. `http.NewRequest` cannot fail on the constant URL, so its error
  branch is not modelled.
- JSON decoding of the token is the `Decoder` parameter.
- URL percent-escaping and the `&`/`=` joining of `url.Values.Encode` are
  not modelled. Only the pairs written and their key order are.
- The TOTP derivation (RFC 6238, SHA-1, 30-second step, 6 digits) is the
  `TotpLibrary` parameter.
- `time.Now` is the `nowNs` parameter. The code reads the clock separately
  in validation and in TOTP generation; the model uses one instant for both.
- Go's calendar rendering of `2006-01-02T15:04:05` is the `renderUtc`
  parameter. The overflow of Go's internal time representation for instants
  billions of years away is not modelled.
- Raw field values are strings. Vault's conversion of non-string JSON values
  into string fields is not modelled.
- `Helpers.UnknownFieldsMessage` writes each name between plain double
  quotes. The escaping `%q` applies to quotes, backslashes and control
  characters is not modelled.
- GoStrings.ToUpper: only the ASCII part of `unicode.ToUpper` is modelled.
  Other letters, such as 'é', are left unchanged, whereas Go upper-cases
  them too.
- GeneratePath.EnsureExpirationInParams: returns the updated form as a new
  value, whereas Go writes into the caller's map and returns it. Nothing
  calls the helper, so the aliasing cannot be observed.
- Strconv.Atoi: assumes a 64-bit platform (`strconv.IntSize == 64`).

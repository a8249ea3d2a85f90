# Address verdict engine of address-service

This project models the core of address-service, a TypeScript service that
validates United States postal addresses through the Smarty US Street Address
API. The core exists in two copies that share one algorithm:

- `AddressService`, a static class. It returns the legacy response shape:
  `address`, `suggestions` of raw candidates, and `validation_notes`.
- `SmartyAddressProvider`, a provider class. It returns the provider-neutral
  shape: `primaryAddress`, `suggestions` of converted addresses,
  `validationNotes`, and the raw `providerData`.

Each copy handles a request in four stages, and any failing stage returns at once:

1. Check that both credentials are set.
2. Validate the request against nine rules.
3. Build the flat query map and make one GET.
4. Interpret the first candidate of the reply into a verdict: `validated`,
   `deliverable`, and a list of notes.

The modules follow that structure:

- `JsValues`: JavaScript truthiness of optional strings and numbers, the
  string `length` in UTF-16 code units, `String.prototype.includes`, `x || y`,
  and the decimal rendering of integers that `Number.prototype.toString` gives
  for candidate counts, with its round trip.
- `AddressTypes`: the request, the Smarty candidate and payload, both response
  shapes, and the abstract outcome of the GET.
- `RequestRules`: the nine validation rules, in source order, with their exact
  messages. `Violations(request)` is the specification both validators are
  proved against.
- `SmartyQuery`: the query map `QueryParams(request, creds)` specifies both
  builders. This module also holds the error text of a failed HTTP call and
  how the call settles (returned or thrown).
- `Interpretation`: the verdict, written as a classification of the candidate's
  signals (`Classify`) followed by the flags and notes of each class.
  `Interpret(copy, signals)` takes the copy as a parameter, because the two
  copies differ in two places: the unknown-DPV fallback and the PO-box caveat.
- `SmartyTransport`: the HTTP client as a class. Every GET yields one fixed
  abstract reply, and the client records the query maps it was sent, so the
  length of that record counts the calls made.
- `AddressService` and `SmartyAddressProvider`: each copy's methods, with the
  same branches and the same step-by-step updates as the source. Each method
  is proved against the shared specification functions, and each copy has
  lemmas about its responses.
- `CopiesAgree`: where the two copies must agree, and where they are known to
  differ.

Credentials are a parameter (`Credentials(authId, authToken)`), not environment
variables. An unset variable is modelled as the empty string, which is falsy
in the same way.

Three behaviours of the code are worth knowing:

- The `non-postal-match` branch is dead code. A tag containing
  `"non-postal-match"` also contains `"postal-match"`, so the earlier test
  always takes it (`Interpretation.NonPostalBranchUnreachable`).
- A failed HTTP call that has no response is reported as
  `"Smarty API error: undefined undefined - <message>"`, not with the network
  message alone (`SmartyQuery.NoResponseMessage`).
- On missing credentials, the provider copy returns no `data` at all, while
  the service copy returns `data` with both flags false and no notes
  (`CopiesAgree.CredentialFailureDiffers`). A failure therefore has both flags
  false only where it carries data.

## Model

| member | source | states |
|---|---|---|
| JsValues.Utf16Length | src/services/addressService.ts:216-238 | a string's `length` counts UTF-16 code units: between its number of characters and twice that, equal to the first exactly when every character is in the Basic Multilingual Plane |
| JsValues.IncludesIffOccurs | src/services/addressService.ts:415 | `includes` holds exactly when the substring occurs at some index |
| JsValues.NumberToStringRoundTrip | src/services/addressService.ts:271 | the decimal string sent for `candidates` parses back to the same integer, negative numbers included |
| JsValues.NumberToStringInjective | src/services/addressService.ts:271 | different candidate counts are sent as different strings |
| RequestRules.ViolationsByChecks | src/services/addressService.ts:207-251 | the messages equal the nine checks applied in source order, each appending its message when its rule is broken |
| RequestRules.ViolationMessageIff | src/services/addressService.ts:207-251 | a rule's message is reported if and only if that rule is broken |
| RequestRules.ViolationsEmptyIff | src/services/addressService.ts:207-251 | the message list is empty if and only if no rule is broken |
| RequestRules.ViolatedRulesComplete | src/services/addressService.ts:207-251 | a rule is listed among the violations if and only if it is broken |
| RequestRules.ViolationsInSourceOrder | src/services/addressService.ts:207-251 | violated rules are reported in the order the source checks them, with no repeats |
| RequestRules.StreetLengthBoundary | src/services/addressService.ts:216-218 | a street of 100 code units is accepted and one of 101 is rejected (strict `>`); more than 100 characters is always rejected |
| RequestRules.AstralStreetRejected | src/services/addressService.ts:216-218 | a street of 51 emoji is 102 code units long and is rejected, although it has only 51 characters |
| RequestRules.LengthLimits | src/services/addressService.ts:220-238 | street2, city, state, zipcode and addressee are each rejected if and only if they are truthy and longer than 100, 64, 32, 10 and 64 UTF-16 code units |
| RequestRules.CandidatesBoundary | src/services/addressService.ts:241-243 | candidates are rejected if and only if they are truthy (non-zero) and outside 1..10; 0 passes as falsy |
| RequestRules.NoAddressFields | src/services/addressService.ts:211-213 | with none of street, city, state or zipcode truthy, the first message is the at-least-one message |
| RequestRules.MatchModes | src/services/addressService.ts:246-248 | the match mode is accepted if and only if it is falsy or one of strict, range, invalid |
| SmartyQuery.CandidatesParam | src/services/addressService.ts:271 | candidates are sent exactly when truthy, as a non-empty string that parses back to the count |
| SmartyQuery.AddIfTruthy | src/services/addressService.ts:263-273 | one `if (x) params[k] = x` step: the key gets the value when the value is truthy, and no other key changes |
| SmartyQuery.CredentialsAlwaysSent | src/services/addressService.ts:256-262 | `auth-id` and `auth-token` are always in the query, with the credentials verbatim |
| SmartyQuery.FieldSentIff | src/services/addressService.ts:263-273 | each of the nine field keys is present if and only if its field is truthy, and then holds the field's value |
| SmartyQuery.StringFieldsSentVerbatim | src/services/addressService.ts:263-273 | each string field is sent under its own key, unchanged, exactly when truthy |
| SmartyQuery.CandidatesSentAsDecimal | src/services/addressService.ts:271 | `candidates` is present exactly when truthy, as its decimal string |
| SmartyQuery.OnlyKnownKeys | src/services/addressService.ts:256-275 | the query holds no key besides the two credential keys and the nine field keys |
| SmartyQuery.QueryParamsByFields | src/services/addressService.ts:256-275 | the query is the credential map with the nine conditional assignments applied in source order |
| SmartyQuery.UnauthorizedMessage | src/services/addressService.ts:304-309 | a 401 reply with body "Invalid credentials" is reported as "Smarty API error: 401 Unauthorized - Invalid credentials" |
| SmartyQuery.NoResponseMessage | src/services/addressService.ts:304-309 | a client failure with no response is reported as "Smarty API error: undefined undefined - " plus the client's message |
| SmartyQuery.ClientErrorKeepsStatus | src/services/addressService.ts:304-309 | two client-error messages that are equal carry the same HTTP status |
| Interpretation.Interpret | src/services/addressService.ts:392-520 | under both copies, no verdict is deliverable without being validated |
| Interpretation.NonPostalTagContainsPostalTag | src/services/addressService.ts:447 | the tag "non-postal-match" contains "postal-match" |
| Interpretation.NonPostalBranchUnreachable | src/services/addressService.ts:413-458 | no candidate is classified into the non-postal branch |
| Interpretation.NonPostalTagTakesPostalBranch | src/services/addressService.ts:413-447 | a "non-postal-match" tag is handled as a postal match, so its first note is "Address found in USPS database" |
| Interpretation.ValidatedIff | src/services/addressService.ts:392-512 | validated if and only if: either the tag is truthy and contains postal-match, or the tag is falsy and the DPV code is not N |
| Interpretation.PostalMatchVerdict | src/services/addressService.ts:415-446 | a postal match is validated, is deliverable iff vacant and no-stat are N and footnotes lack R7, and has the found, secondary and deliverability notes in that order |
| Interpretation.PostalSecondaryNoteShape | src/services/addressService.ts:420-436 | the secondary notes of a postal match: at most one per tag, with N1 choosing between required and available, and C1 before CC |
| Interpretation.PlainPostalMatch | src/services/addressService.ts:415-446 | a postal match with no secondary tags, at an active delivery point, gives exactly validated, deliverable, found and deliverable notes |
| Interpretation.PostalMatchTagIsPlain | src/services/addressService.ts:415-436 | the plain tag "postal-match" takes the postal branch and carries neither secondary tag |
| Interpretation.VacantPostalMatch | src/services/addressService.ts:438-445 | a vacant postal match is validated, not deliverable, and noted as possibly undeliverable |
| Interpretation.DpvConfirmedVerdict | src/services/addressService.ts:463-485 | DPV code Y is validated, is deliverable iff the delivery point is active, and adds at most one footnote note, chosen in the order N1, C1, CC |
| Interpretation.DpvNotFoundVerdict | src/services/addressService.ts:486-488 | DPV code N is neither validated nor deliverable, with the single not-found note |
| Interpretation.DpvSecondaryVerdict | src/services/addressService.ts:489-496 | DPV codes S and D are validated, not deliverable, with the code's note and the secondary-might-be-needed note |
| Interpretation.ServiceIndeterminateVerdict | src/services/addressService.ts:497-511 | an unknown DPV code in the service copy is validated, is deliverable iff vacant and no-stat are N, and notes appears-valid plus one deliverability note |
| Interpretation.ProviderIndeterminateVerdict | src/thirdparty/smarty/smartyAddressProvider.ts:506-510 | an unknown DPV code in the provider copy is validated, not deliverable, with the single appears-valid note |
| Interpretation.R7OnlyCheckedWithDpvCode | src/services/addressService.ts:463-511 | an R7 footnote blocks deliverability for DPV code Y but not in the unknown-code fallback |
| Interpretation.UnmatchedEnhancedMatch | src/services/addressService.ts:413-458 | a truthy tag without postal-match gives false/false and no branch notes |
| Interpretation.PoBoxNoteLastIff | src/services/addressService.ts:514-517 | in the service copy, the last note is the PO-box caveat if and only if the record type is P |
| Interpretation.RecordTypeOnlyAddsNote | src/services/addressService.ts:514-517 | the record type never changes the flags, only whether the caveat is appended |
| Interpretation.ProviderHasNoPoBoxNote | src/thirdparty/smarty/smartyAddressProvider.ts:403-514 | the provider copy never produces the PO-box caveat |
| Interpretation.CopiesDifferOnlyByPoBox | src/thirdparty/smarty/smartyAddressProvider.ts:403-514 | outside the unknown-DPV fallback, the service verdict is the provider verdict plus the PO-box caveat |
| SmartyTransport.Transport.Get | src/services/addressService.ts:294-302 | one GET records the query map it was sent and yields the reply |
| AddressService.ValidateRequest | src/services/addressService.ts:207-251 | the collected messages are exactly `Violations(request)` |
| AddressService.BuildSmartyRequest | src/services/addressService.ts:256-276 | the built map is exactly `QueryParams(request, creds)` |
| AddressService.CallSmartyApi | src/services/addressService.ts:281-312 | without credentials it throws the credentials error and sends nothing; otherwise it sends the map once and settles the reply |
| AddressService.ProcessSmartyResponse | src/services/addressService.ts:317-387 | no candidates gives false/false with the no-matches note; otherwise the first candidate is the address and is interpreted; candidates are returned in order; suggestions absent when empty |
| AddressService.InterpretValidationResult | src/services/addressService.ts:392-520 | the three locals end as `Interpret(ServiceCopy, signals)`, and deliverable implies validated |
| AddressService.InterpretEnhancedMatch | src/services/addressService.ts:413-458 | the tag-driven section yields the flags and notes the classification assigns |
| AddressService.InterpretDpvCode | src/services/addressService.ts:459-512 | the DPV-code section yields the flags and notes the classification assigns |
| AddressService.ValidateAddress | src/services/addressService.ts:102-202 | the response is `ValidateAddressResult(...)`, and exactly one GET, carrying the built query, is made if and only if credentials and validation pass |
| AddressService.MissingCredentials | src/services/addressService.ts:106-116 | missing credentials give the fixed error, data with both flags false, correlation ID `cid \|\| ''`, and no call |
| AddressService.ValidationFailure | src/services/addressService.ts:121-134 | a broken rule gives "Validation failed", both flags false, the validator's messages as notes, and no call |
| AddressService.CallFailure | src/services/addressService.ts:176-201 | a failed call gives both flags false, the note "API call failed", and the formatted or caught error text |
| AddressService.SuccessIff | src/services/addressService.ts:102-202 | success if and only if credentials are set, no rule is broken, and the call returns a payload |
| AddressService.ResponsesAreConsistent | src/services/addressService.ts:102-202 | every response has data; deliverable implies validated; a failure has both flags false |
| AddressService.EmptyRequestRejected | src/__tests__/addressService.test.ts:169-182 | a request with no fields fails validation with both flags false and the at-least-one note |
| AddressService.ShortAddressIsValid | src/services/addressService.ts:207-251 | a request with only a non-empty street of at most 50 characters and a city, state and zipcode of at most 32, 16 and 5 characters breaks no rule, whatever planes its characters are in |
| AddressService.RecordedRequestIsValid | src/__tests__/addressService.test.ts:44-50 | the recorded request breaks no rule |
| AddressService.RecordedVerdict | src/__tests__/addressService.test.ts:52-89 | the recorded postal-match candidate, whose footnotes "AABB" hold no R7, is validated and deliverable, with the found and deliverable notes |
| AddressService.RecordedPostalMatch | src/__tests__/addressService.test.ts:104-124 | the recorded call succeeds with correlation ID test-123, both flags true, and the candidate as the address |
| AddressService.MissingCredentialsMakesNoCall | src/__tests__/addressService.test.ts:157-167 | without credentials the call counter stays at zero and the fixed error is returned |
| SmartyAddressProvider.IsConfigured | src/thirdparty/smarty/smartyAddressProvider.ts:26-30 | configured if and only if both credentials are non-empty |
| SmartyAddressProvider.ValidateRequest | src/thirdparty/smarty/smartyAddressProvider.ts:215-259 | the collected messages are exactly `Violations(request)` |
| SmartyAddressProvider.BuildSmartyRequest | src/thirdparty/smarty/smartyAddressProvider.ts:261-281 | the built map is exactly `QueryParams(request, creds)` |
| SmartyAddressProvider.CallSmartyApi | src/thirdparty/smarty/smartyAddressProvider.ts:283-308 | sends the map once, with no credential re-check, and settles the reply |
| SmartyAddressProvider.ConvertToValidatedAddress | src/thirdparty/smarty/smartyAddressProvider.ts:385-401 | delivery lines and city, state, zipcode and +4 are copied unchanged, undefined without components, and the raw blocks are kept as provider detail |
| SmartyAddressProvider.ConvertAll | src/thirdparty/smarty/smartyAddressProvider.ts:373 | one converted address per candidate, in the same order |
| SmartyAddressProvider.ProcessSmartyResponse | src/thirdparty/smarty/smartyAddressProvider.ts:310-383 | raw payload always kept; no candidates gives false/false with the no-matches note; otherwise the converted first candidate is primary and is interpreted; suggestions present iff more than one candidate, converted in order |
| SmartyAddressProvider.InterpretValidationResult | src/thirdparty/smarty/smartyAddressProvider.ts:403-514 | the three locals end as `Interpret(ProviderCopy, signals)`, and deliverable implies validated |
| SmartyAddressProvider.InterpretEnhancedMatch | src/thirdparty/smarty/smartyAddressProvider.ts:422-467 | the tag-driven section yields the flags and notes the classification assigns |
| SmartyAddressProvider.InterpretDpvCode | src/thirdparty/smarty/smartyAddressProvider.ts:468-511 | the DPV-code section yields the flags and notes the classification assigns, with no deliverability judgement for an unknown code |
| SmartyAddressProvider.ValidateAddress | src/thirdparty/smarty/smartyAddressProvider.ts:32-128 | the response is `ValidateAddressResult(...)`, and exactly one GET, carrying the built query, is made if and only if configured and valid |
| SmartyAddressProvider.MissingCredentials | src/thirdparty/smarty/smartyAddressProvider.ts:36-42 | not configured gives the fixed error, no data, correlation ID `cid \|\| request.correlationId`, and no call |
| SmartyAddressProvider.CorrelationIdFallback | src/thirdparty/smarty/smartyAddressProvider.ts:32-128 | every response carries the argument's correlation ID when truthy, otherwise the request's own |
| SmartyAddressProvider.ValidationFailure | src/thirdparty/smarty/smartyAddressProvider.ts:48-61 | a broken rule gives "Validation failed", both flags false, the validator's messages as notes, and no call |
| SmartyAddressProvider.CallFailure | src/thirdparty/smarty/smartyAddressProvider.ts:102-127 | a failed call gives both flags false, the note "API call failed", and the formatted or caught error text |
| SmartyAddressProvider.SuccessIff | src/thirdparty/smarty/smartyAddressProvider.ts:32-128 | success if and only if configured, no rule is broken, and the call returns a payload |
| SmartyAddressProvider.ResponsesAreConsistent | src/thirdparty/smarty/smartyAddressProvider.ts:32-128 | data is absent only when not configured; deliverable implies validated; a failure has both flags false |
| SmartyAddressProvider.ConversionKeepsSignals | src/thirdparty/smarty/smartyAddressProvider.ts:385-401 | the provider detail of a converted address yields the same signals, and so the same verdict, as the raw candidate |
| SmartyAddressProvider.MissingCredentialsMakesNoCall | src/thirdparty/smarty/smartyAddressProvider.ts:36-42 | when not configured the call counter stays at zero, there is no data, and the fixed error is returned |
| CopiesAgree.SameCredentialCheck | src/thirdparty/smarty/smartyAddressProvider.ts:26-30 | the provider's `isConfigured` accepts exactly the credentials the service's check accepts |
| CopiesAgree.SameValidation | src/thirdparty/smarty/smartyAddressProvider.ts:215-259 | both validators return the same messages for every request |
| CopiesAgree.SameQuery | src/thirdparty/smarty/smartyAddressProvider.ts:261-281 | both builders return the same map for every request and credentials |
| CopiesAgree.SameOutcome | src/thirdparty/smarty/smartyAddressProvider.ts:32-128 | the copies call the provider on the same requests, succeed on the same requests, and report the same error text |
| CopiesAgree.CredentialFailureDiffers | src/thirdparty/smarty/smartyAddressProvider.ts:36-42 | on missing credentials the service returns false/false data and defaults the ID to '', while the provider returns no data and falls back to the request's ID |
| CopiesAgree.SameVerdictOnPayload | src/thirdparty/smarty/smartyAddressProvider.ts:310-383 | for one payload, outside the unknown-DPV fallback, the copies agree on both flags, and the service's notes are the provider's plus the PO-box caveat |
| CopiesAgree.ConvertedCandidates | src/thirdparty/smarty/smartyAddressProvider.ts:367-375 | the provider's primary address and suggestions are the service's address and suggestions, each converted |
| CopiesAgree.SameCalls | src/thirdparty/smarty/smartyAddressProvider.ts:32-128 | run on one reply, the two copies send the same query maps: one built query exactly when the provider is called |

## Left out

- Logging is not modelled: the axios request and response interceptors, the constructor that installs them, `console.log`, and `logThirdPartyApiCall`. None of them affects a result.
- `Date.now()` and the measured durations are left out; they feed only the logs.
- The HTTP GET itself is abstract. URL building, the `Accept`, `User-Agent` and `x-correlation-id` headers (`correlationId || 'unknown'`), and the network are represented by one reply fixed per client.
- `process.env` is not read; the credentials are a parameter.
- Latitude, longitude and other floating-point metadata are carried as opaque values and never computed with.
- `candidates` is modelled as an integer. A fractional number or NaN is not representable.
- JsValues.NumberToString: writes every digit of any integer, whereas JavaScript writes integers of magnitude 1e21 or more in exponent form (`"1e+21"`) and holds integers above 2^53 only approximately. The difference cannot reach the query through `validateAddress`, because validation rejects any count above 10 before the query is built.
- Null or undefined entries inside the candidate list are not modelled. The `!bestMatch` branch in both copies is therefore unreachable here and is left out.
- A response body that is not a string is not modelled. For `error.response?.data || error.message`, a body is a string, and the empty string is falsy.
- The model assumes only the GET can throw inside the `try` block. No other statement in that block is modelled as throwing.
- `getProviderName` is left out: it returns a constant and feeds no result. The unused `originalRequest` parameter of `processSmartyResponse` is also dropped.
- The HTTP routes, middleware, provider factory and server start-up are outside the engine and are not part of this model.
- The Smarty type definitions file is not part of this model. The candidate's fields are taken from their uses in the two engine files, addressService.ts and smartyAddressProvider.ts.

/** The records the address-verdict engine reads and produces: the inbound
    request and outbound response of the provider interface, the candidate
    records returned by the Smarty US Street API, the legacy response shape
    that the static service still returns, and the abstract outcome of the
    single outbound call. */
module AddressTypes {
  import opened JsValues

  /** An address-validation request. Every field but the correlation ID is optional;
      `match` (here `matchMode`, as `match` is a Dafny keyword) is typed as an
      enumeration in the source but arrives as any string. */
  datatype AddressValidationRequest = AddressValidationRequest(
    correlationId: string,
    street: Option<string>,
    street2: Option<string>,
    city: Option<string>,
    state: Option<string>,
    zipcode: Option<string>,
    addressee: Option<string>,
    candidates: Option<int>,
    matchMode: Option<string>,
    format: Option<string>)

  /** The two Smarty credentials read from the process configuration.
      An unset variable is the empty string: both are falsy. */
  datatype Credentials = Credentials(authId: string, authToken: string)

  /** Parsed address components of a candidate (the fields the engine copies). */
  datatype Components = Components(
    cityName: Option<string>,
    stateAbbreviation: Option<string>,
    zipcode: Option<string>,
    plus4Code: Option<string>)

  /** Geolocation metadata of a candidate; coordinates are carried, never inspected. */
  datatype Metadata = Metadata(
    latitude: Option<real>,
    longitude: Option<real>,
    recordType: Option<string>)

  /** The provider's match signals for a candidate. */
  datatype Analysis = Analysis(
    enhancedMatch: Option<string>,
    dpvMatchCode: Option<string>,
    dpvFootnotes: Option<string>,
    dpvVacant: Option<string>,
    dpvNoStat: Option<string>)

  /** One candidate address returned by the provider. */
  datatype SmartyAddress = SmartyAddress(
    inputIndex: int,
    candidateIndex: int,
    deliveryLine1: Option<string>,
    deliveryLine2: Option<string>,
    lastLine: Option<string>,
    components: Option<Components>,
    metadata: Option<Metadata>,
    analysis: Option<Analysis>)

  /** The provider's JSON body: either a bare array of candidates or an object
      with an optional `addresses` array. */
  datatype SmartyPayload =
    | AddressArray(items: seq<SmartyAddress>)
    | Envelope(addresses: Option<seq<SmartyAddress>>)

  /** The candidate list of a payload (`Array.isArray(r) ? r : r.addresses || []`). */
  function Addresses(p: SmartyPayload): (r: seq<SmartyAddress>)
    ensures p.AddressArray? ==> r == p.items
    ensures p.Envelope? && p.addresses.None? ==> r == []
  {
    match p
    case AddressArray(items) => items
    case Envelope(addresses) => if addresses.Some? then addresses.value else []
  }

  /** The provider-specific detail a converted address keeps in its `metadata`. */
  datatype ProviderDetail = ProviderDetail(
    components: Option<Components>,
    metadata: Option<Metadata>,
    analysis: Option<Analysis>)

  /** A provider-neutral address. */
  datatype ValidatedAddress = ValidatedAddress(
    deliveryLine1: Option<string>,
    deliveryLine2: Option<string>,
    city: Option<string>,
    state: Option<string>,
    zipcode: Option<string>,
    plus4Code: Option<string>,
    latitude: Option<real>,
    longitude: Option<real>,
    metadata: Option<ProviderDetail>)

  /** The verdict returned by the provider copy. */
  datatype AddressValidationResult = AddressValidationResult(
    validated: bool,
    deliverable: bool,
    primaryAddress: Option<ValidatedAddress>,
    suggestions: Option<seq<ValidatedAddress>>,
    validationNotes: seq<string>,
    providerData: Option<SmartyPayload>)

  /** The response envelope of the provider copy. */
  datatype AddressValidationResponse = AddressValidationResponse(
    success: bool,
    correlationId: string,
    data: Option<AddressValidationResult>,
    error: Option<string>)

  /** The legacy verdict shape returned by the static service: raw candidates
      and `validation_notes`. */
  datatype LegacyData = LegacyData(
    validated: bool,
    deliverable: bool,
    address: Option<SmartyAddress>,
    suggestions: Option<seq<SmartyAddress>>,
    validationNotes: Option<seq<string>>)

  /** The legacy response envelope of the static service. */
  datatype LegacyResponse = LegacyResponse(
    success: bool,
    correlationId: string,
    data: Option<LegacyData>,
    error: Option<string>)

  /** The HTTP response carried by a failed request. */
  datatype HttpResponse = HttpResponse(status: int, statusText: string, body: string)

  /** What the single outbound GET yields: a JSON body, an HTTP-client error
      (with the server's response when one arrived) or any other thrown value
      (an `Error` object or not). */
  datatype Reply =
    | Delivered(payload: SmartyPayload)
    | ClientFailure(response: Option<HttpResponse>, message: string)
    | OtherFailure(isError: bool, message: string)

  /** A value thrown out of the call: an `Error` with a message, or something else. */
  datatype Thrown = ErrorObject(message: string) | NonError

  /** The call either returns the payload or throws. */
  datatype CallResult = Returned(payload: SmartyPayload) | Threw(thrown: Thrown)
}

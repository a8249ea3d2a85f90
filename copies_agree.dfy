/** The static service and the provider class are two copies of one engine. These
    members relate the two: where they must agree (credentials, validation, the
    query, the call, success and errors) and where they are known to differ (the
    credential-failure response, the correlation-ID default, the PO-box caveat, the
    unknown-DPV fallback and the shape of the returned addresses). */
module CopiesAgree {
  import opened JsValues
  import opened AddressTypes
  import opened RequestRules
  import opened SmartyQuery
  import opened Interpretation
  import Service = AddressService
  import Provider = SmartyAddressProvider
  import opened SmartyTransport

  /** The two credential checks accept the same credentials. */
  lemma SameCredentialCheck(creds: Credentials)
    ensures Provider.IsConfigured(creds) <==> Service.HasCredentials(creds)
  {
  }

  /** Both validators report the same messages, in the same order, for every request. */
  method SameValidation(request: AddressValidationRequest) returns (fromService: seq<string>, fromProvider: seq<string>)
    ensures fromService == fromProvider == Violations(request)
  {
    fromService := Service.ValidateRequest(request);
    fromProvider := Provider.ValidateRequest(request);
  }

  /** Both copies build the same query map for every request and credentials. */
  method SameQuery(request: AddressValidationRequest, creds: Credentials)
    returns (fromService: map<string, string>, fromProvider: map<string, string>)
    ensures fromService == fromProvider == QueryParams(request, creds)
  {
    fromService := Service.BuildSmartyRequest(request, creds);
    fromProvider := Provider.BuildSmartyRequest(request, creds);
  }

  /** The copies call the provider on the same requests, succeed on the same
      requests and report the same error strings. */
  lemma SameOutcome(request: AddressValidationRequest, correlationId: Option<string>,
                    creds: Credentials, reply: Reply)
    ensures Service.CallsProvider(request, creds) <==> Provider.CallsProvider(request, creds)
    ensures Service.ValidateAddressResult(request, correlationId, creds, reply).success
        == Provider.ValidateAddressResult(request, correlationId, creds, reply).success
    ensures Service.ValidateAddressResult(request, correlationId, creds, reply).error
        == Provider.ValidateAddressResult(request, correlationId, creds, reply).error
  {
    var a := Service.ValidateAddressResult(request, correlationId, creds, reply);
    var b := Provider.ValidateAddressResult(request, correlationId, creds, reply);
    if !Service.HasCredentials(creds) {
      assert a.error == b.error == Some(Service.CredentialsMessage);
    } else if Violations(request) != [] {
      assert a.error == b.error == Some(Service.ValidationFailedMessage);
    } else {
      match SettleReply(reply)
      case Returned(payload) => assert a.success && b.success;
      case Threw(thrown) => assert a.error == b.error == Some(CaughtMessage(thrown));
    }
  }

  /** On a credential failure the service returns data with both flags false and
      an empty correlation ID by default, while the provider returns no data and
      falls back to the request's own correlation ID. */
  lemma CredentialFailureDiffers(request: AddressValidationRequest, correlationId: Option<string>,
                                 creds: Credentials, reply: Reply)
    requires creds.authId == "" || creds.authToken == ""
    ensures Service.ValidateAddressResult(request, correlationId, creds, reply).data
      == Some(LegacyData(false, false, None, None, None))
    ensures Provider.ValidateAddressResult(request, correlationId, creds, reply).data.None?
    ensures !Truthy(correlationId) ==>
      Service.ValidateAddressResult(request, correlationId, creds, reply).correlationId == ""
      && Provider.ValidateAddressResult(request, correlationId, creds, reply).correlationId
           == request.correlationId
  {
  }

  /** For the same payload the copies draw the same flags, the service's notes
      being the provider's plus the PO-box caveat, except in the unknown-DPV
      fallback; the provider's addresses are the service's candidates converted. */
  lemma SameVerdictOnPayload(response: SmartyPayload)
    requires Addresses(response) != []
    requires Classify(SignalsOf(Addresses(response)[0])) != DpvIndeterminate
    ensures var d := Service.ProcessSmartyResponse(response);
      var r := Provider.ProcessSmartyResponse(response);
      d.validated == r.validated && d.deliverable == r.deliverable
      && d.validationNotes == Some(r.validationNotes + PoBoxNotes(ServiceCopy, SignalsOf(Addresses(response)[0])))
  {
    CopiesDifferOnlyByPoBox(SignalsOf(Addresses(response)[0]));
  }

  /** The provider's primary address and suggestions are the service's best match
      and suggestions, each converted. */
  lemma ConvertedCandidates(response: SmartyPayload)
    ensures var d := Service.ProcessSmartyResponse(response);
      var r := Provider.ProcessSmartyResponse(response);
      (r.primaryAddress.Some? <==> d.address.Some?)
      && (d.address.Some? ==> r.primaryAddress.value == Provider.ConvertToValidatedAddress(d.address.value))
      && (r.suggestions.Some? <==> d.suggestions.Some?)
      && (d.suggestions.Some? ==> r.suggestions.value == Provider.ConvertAll(d.suggestions.value))
  {
    var d := Service.ProcessSmartyResponse(response);
    var r := Provider.ProcessSmartyResponse(response);
    if d.suggestions.Some? {
      assert r.suggestions.value == Provider.ConvertAll(Addresses(response)[1..]);
    }
  }

  /** Run side by side on one reply, the two copies make the same calls with the same query. */
  method SameCalls(request: AddressValidationRequest, correlationId: Option<string>,
                   creds: Credentials, reply: Reply)
    returns (serviceCalls: seq<map<string, string>>, providerCalls: seq<map<string, string>>)
    ensures serviceCalls == providerCalls
    ensures serviceCalls == (if Provider.CallsProvider(request, creds) then [QueryParams(request, creds)] else [])
  {
    var t1 := new Transport(reply);
    var t2 := new Transport(reply);
    var r1 := Service.ValidateAddress(request, correlationId, creds, t1);
    var r2 := Provider.ValidateAddress(request, correlationId, creds, t2);
    SameOutcome(request, correlationId, creds, reply);
    serviceCalls := t1.sent;
    providerCalls := t2.sent;
  }
}

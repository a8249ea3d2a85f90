/** The provider class, the second copy of the engine. It has no state of its own
    (its constructor only installs logging hooks), so its members are modelled as
    the module's functions and methods, with the credentials passed in. It differs
    from the static service in what it returns, not in how it validates or builds
    the query: the call does not re-check the credentials, a credential failure
    carries no data, the correlation ID falls back to the request's own, candidates
    are converted to provider-neutral addresses, and the interpreter neither adds
    the PO-box caveat nor judges deliverability for an unknown DPV code. */
module SmartyAddressProvider {
  import opened JsValues
  import opened AddressTypes
  import opened RequestRules
  import opened SmartyQuery
  import opened Interpretation
  import opened SmartyTransport

  const CredentialsMessage := "Smarty authentication credentials not configured"
  const ValidationFailedMessage := "Validation failed"
  const ApiCallFailedNote := "API call failed"

  /** `!!(authId && authToken)`: both credentials are truthy strings. */
  function IsConfigured(creds: Credentials): (r: bool)
    ensures r <==> creds.authId != "" && creds.authToken != ""
  {
    Truthy(Some(creds.authId)) && Truthy(Some(creds.authToken))
  }

  /** Checks the rules one after another, in the same order and with the same
      messages as the service copy, and collects one message per violated rule. */
  method ValidateRequest(request: AddressValidationRequest) returns (errors: seq<string>)
    ensures errors == Violations(request)
  {
    errors := [];
    ghost var before1 := errors;
    if Broken(AtLeastOneField, request) {
      errors := errors + [AtLeastOneMessage];
    }
    assert errors == CheckRule(before1, AtLeastOneField, request);
    ghost var before2 := errors;
    if Broken(StreetLength, request) {
      errors := errors + [StreetMessage];
    }
    assert errors == CheckRule(before2, StreetLength, request);
    ghost var before3 := errors;
    if Broken(Street2Length, request) {
      errors := errors + [Street2Message];
    }
    assert errors == CheckRule(before3, Street2Length, request);
    ghost var before4 := errors;
    if Broken(CityLength, request) {
      errors := errors + [CityMessage];
    }
    assert errors == CheckRule(before4, CityLength, request);
    ghost var before5 := errors;
    if Broken(StateLength, request) {
      errors := errors + [StateMessage];
    }
    assert errors == CheckRule(before5, StateLength, request);
    ghost var before6 := errors;
    if Broken(ZipcodeLength, request) {
      errors := errors + [ZipcodeMessage];
    }
    assert errors == CheckRule(before6, ZipcodeLength, request);
    ghost var before7 := errors;
    if Broken(AddresseeLength, request) {
      errors := errors + [AddresseeMessage];
    }
    assert errors == CheckRule(before7, AddresseeLength, request);
    ghost var before8 := errors;
    if Broken(CandidatesRange, request) {
      errors := errors + [CandidatesMessage];
    }
    assert errors == CheckRule(before8, CandidatesRange, request);
    ghost var before9 := errors;
    if Broken(MatchMode, request) {
      errors := errors + [MatchMessage];
    }
    assert errors == CheckRule(before9, MatchMode, request);
    ViolationsByChecks(request);
  }

  /** Starts from the two credentials and adds every truthy field, in source order. */
  method BuildSmartyRequest(request: AddressValidationRequest, creds: Credentials)
    returns (params: map<string, string>)
    ensures params == QueryParams(request, creds)
  {
    params := map[AuthIdKey := creds.authId, AuthTokenKey := creds.authToken];
    params := AddIfTruthy(params, "street", request.street);
    params := AddIfTruthy(params, "street2", request.street2);
    params := AddIfTruthy(params, "city", request.city);
    params := AddIfTruthy(params, "state", request.state);
    params := AddIfTruthy(params, "zipcode", request.zipcode);
    params := AddIfTruthy(params, "addressee", request.addressee);
    params := AddIfTruthy(params, CandidatesKey, CandidatesParam(request.candidates));
    params := AddIfTruthy(params, "match", request.matchMode);
    params := AddIfTruthy(params, "format", request.format);
    QueryParamsByFields(request, creds);
  }

  /** The call: one GET, whose payload is returned or whose failure is thrown as the
      formatted error. Unlike the service copy it does not re-check the credentials. */
  method CallSmartyApi(params: map<string, string>, transport: Transport) returns (result: CallResult)
    modifies transport
    ensures result == SettleReply(transport.reply)
    ensures transport.sent == old(transport.sent) + [params]
  {
    var reply := transport.Get(params);
    result := SettleReply(reply);
  }

  /** A candidate as a provider-neutral address: delivery lines and components
      copied unchanged (`undefined` when the component block is absent), and the
      raw components, metadata and analysis kept as provider detail. */
  function ConvertToValidatedAddress(a: SmartyAddress): (v: ValidatedAddress)
    ensures v.deliveryLine1 == a.deliveryLine1 && v.deliveryLine2 == a.deliveryLine2
    ensures a.components.Some? ==>
      v.city == a.components.value.cityName && v.state == a.components.value.stateAbbreviation
      && v.zipcode == a.components.value.zipcode && v.plus4Code == a.components.value.plus4Code
    ensures a.components.None? ==> v.city == v.state == v.zipcode == v.plus4Code == None
    ensures v.metadata == Some(ProviderDetail(a.components, a.metadata, a.analysis))
  {
    var c := a.components;
    var m := a.metadata;
    ValidatedAddress(
      a.deliveryLine1,
      a.deliveryLine2,
      if c.Some? then c.value.cityName else None,
      if c.Some? then c.value.stateAbbreviation else None,
      if c.Some? then c.value.zipcode else None,
      if c.Some? then c.value.plus4Code else None,
      if m.Some? then m.value.latitude else None,
      if m.Some? then m.value.longitude else None,
      Some(ProviderDetail(c, m, a.analysis)))
  }

  /** `addresses.map(convertToValidatedAddress)`: one converted address per candidate, in order. */
  function ConvertAll(addresses: seq<SmartyAddress>): (vs: seq<ValidatedAddress>)
    ensures |vs| == |addresses|
    ensures forall i :: 0 <= i < |addresses| ==> vs[i] == ConvertToValidatedAddress(addresses[i])
  {
    if addresses == [] then []
    else [ConvertToValidatedAddress(addresses[0])] + ConvertAll(addresses[1..])
  }

  /** Picks the first candidate as the best match, converts it and the remaining
      suggestions, interprets the best match and keeps the raw payload. */
  function ProcessSmartyResponse(response: SmartyPayload): (r: AddressValidationResult)
    ensures r.providerData == Some(response)
    ensures r.deliverable ==> r.validated
    ensures Addresses(response) == [] ==>
      r == AddressValidationResult(false, false, None, None, [NoMatches], Some(response))
    ensures Addresses(response) != [] ==>
      Verdict(r.validated, r.deliverable, r.validationNotes)
        == Interpret(ProviderCopy, SignalsOf(Addresses(response)[0]))
      && r.primaryAddress == Some(ConvertToValidatedAddress(Addresses(response)[0]))
    ensures r.suggestions.Some? <==> |Addresses(response)| > 1
    ensures r.suggestions.Some? ==>
      |r.suggestions.value| == |Addresses(response)| - 1 &&
      forall i :: 0 <= i < |r.suggestions.value| ==>
        r.suggestions.value[i] == ConvertToValidatedAddress(Addresses(response)[i + 1])
  {
    var addresses := Addresses(response);
    if |addresses| == 0 then
      AddressValidationResult(false, false, None, None, [NoMatches], Some(response))
    else
      var bestMatch := addresses[0];
      var suggestions := addresses[1..];
      var v := Interpret(ProviderCopy, SignalsOf(bestMatch));
      AddressValidationResult(v.validated, v.deliverable, Some(ConvertToValidatedAddress(bestMatch)),
        if |suggestions| > 0 then Some(ConvertAll(suggestions)) else None, v.notes, Some(response))
  }

  /** The interpreter as this copy runs it: the section that applies updates the
      three locals; no PO-box caveat follows. */
  method InterpretValidationResult(address: SmartyAddress)
    returns (validated: bool, deliverable: bool, notes: seq<string>)
    ensures Verdict(validated, deliverable, notes) == Interpret(ProviderCopy, SignalsOf(address))
    ensures deliverable ==> validated
  {
    var s := SignalsOf(address);
    if Truthy(s.enhancedMatch) {
      validated, deliverable, notes := InterpretEnhancedMatch(s);
    } else {
      validated, deliverable, notes := InterpretDpvCode(s);
    }
  }

  /** The section driven by a truthy `enhanced_match`, as in the service copy. */
  method InterpretEnhancedMatch(s: Signals) returns (validated: bool, deliverable: bool, notes: seq<string>)
    requires Truthy(s.enhancedMatch)
    ensures validated == IsValidated(Classify(s))
    ensures deliverable == IsDeliverable(ProviderCopy, Classify(s), s)
    ensures notes == BranchNotes(ProviderCopy, Classify(s), s)
  {
    notes := [];
    validated := false;
    deliverable := false;
    var enhancedMatch := s.enhancedMatch;
    var dpvFootnotes := s.dpvFootnotes;

    if Includes(enhancedMatch.value, "postal-match") {
      validated := true;
      notes := notes + [FoundInUsps];
      if Includes(enhancedMatch.value, "missing-secondary") {
        if OptIncludes(dpvFootnotes, "N1") {
          notes := notes + [SecondaryRequired];
        } else {
          notes := notes + [SecondaryNotRequired];
        }
      }
      ghost var missing := notes;
      assert missing == [FoundInUsps]
        + (if Tagged(s, "missing-secondary") then
             [if HasFootnote(s, "N1") then SecondaryRequired else SecondaryNotRequired]
           else []);
      if Includes(enhancedMatch.value, "unknown-secondary") {
        if OptIncludes(dpvFootnotes, "C1") {
          notes := notes + [SecondaryCorrection];
        } else if OptIncludes(dpvFootnotes, "CC") {
          notes := notes + [SecondaryNotNeeded];
        }
      }
      assert notes == [FoundInUsps] + PostalSecondaryNotes(s);
      if s.dpvVacant == Some("N") && s.dpvNoStat == Some("N") && !OptIncludes(dpvFootnotes, "R7") {
        deliverable := true;
        notes := notes + [DeliverableByUsps];
      } else {
        notes := notes + [MaybeUndeliverable];
      }
    } else if Includes(enhancedMatch.value, "non-postal-match") {
      validated := true;
      notes := notes + [FoundNonUsps];
      if Includes(enhancedMatch.value, "missing-secondary") {
        notes := notes + [SecondaryMightBeNeeded];
      }
      if Includes(enhancedMatch.value, "unknown-secondary") {
        notes := notes + [SecondaryUnrecognised];
      }
    }
  }

  /** The fallback section on the DPV match code; an unknown code is validated
      without a deliverability judgement. */
  method InterpretDpvCode(s: Signals) returns (validated: bool, deliverable: bool, notes: seq<string>)
    requires !Truthy(s.enhancedMatch)
    ensures validated == IsValidated(Classify(s))
    ensures deliverable == IsDeliverable(ProviderCopy, Classify(s), s)
    ensures notes == BranchNotes(ProviderCopy, Classify(s), s)
  {
    notes := [];
    validated := false;
    deliverable := false;
    var dpvFootnotes := s.dpvFootnotes;
    var dpvMatchCode := s.dpvMatchCode;

    if dpvMatchCode == Some("Y") {
      validated := true;
      notes := notes + [ValidatedByDpv];
      if s.dpvVacant == Some("N") && s.dpvNoStat == Some("N") && !OptIncludes(dpvFootnotes, "R7") {
        deliverable := true;
        notes := notes + [DeliverableByUsps];
      } else {
        notes := notes + [MaybeUndeliverable];
      }
      ghost var delivery := notes;
      assert delivery == [ValidatedByDpv, DeliverabilityNote(DeliveryPointActive(s))];
      if OptIncludes(dpvFootnotes, "N1") {
        notes := notes + [SecondaryRequired];
      } else if OptIncludes(dpvFootnotes, "C1") {
        notes := notes + [SecondaryCorrection];
      } else if OptIncludes(dpvFootnotes, "CC") {
        notes := notes + [SecondaryNotNeeded];
      }
    } else if dpvMatchCode == Some("N") {
      validated := false;
      notes := notes + [NotFoundDpvN];
    } else if dpvMatchCode == Some("S") {
      validated := true;
      notes := notes + [ValidatedDpvS];
      notes := notes + [SecondaryMightBeNeeded];
    } else if dpvMatchCode == Some("D") {
      validated := true;
      notes := notes + [ValidatedDpvD];
      notes := notes + [SecondaryMightBeNeeded];
    } else {
      validated := true;
      notes := notes + [AppearsValid];
    }
  }

  /** The provider is called only when configured and given a valid request. */
  predicate CallsProvider(request: AddressValidationRequest, creds: Credentials)
  {
    IsConfigured(creds) && Violations(request) == []
  }

  /** The response of the provider for a request, given what the call would yield. */
  function ValidateAddressResult(request: AddressValidationRequest, correlationId: Option<string>,
                                 creds: Credentials, reply: Reply): AddressValidationResponse
  {
    var cid := OrElse(correlationId, request.correlationId);
    if !IsConfigured(creds) then
      AddressValidationResponse(false, cid, None, Some(CredentialsMessage))
    else if Violations(request) != [] then
      AddressValidationResponse(false, cid,
        Some(AddressValidationResult(false, false, None, None, Violations(request), None)),
        Some(ValidationFailedMessage))
    else
      match SettleReply(reply)
      case Returned(payload) => AddressValidationResponse(true, cid, Some(ProcessSmartyResponse(payload)), None)
      case Threw(thrown) =>
        AddressValidationResponse(false, cid,
          Some(AddressValidationResult(false, false, None, None, [ApiCallFailedNote], None)),
          Some(CaughtMessage(thrown)))
  }

  /** The whole request: the stages in order, each failure returned at once; the
      provider is called once, with the built query, exactly when both checks pass. */
  method ValidateAddress(request: AddressValidationRequest, correlationId: Option<string>,
                         creds: Credentials, transport: Transport)
    returns (response: AddressValidationResponse)
    modifies transport
    ensures response == ValidateAddressResult(request, correlationId, creds, transport.reply)
    ensures transport.sent == old(transport.sent)
      + (if CallsProvider(request, creds) then [QueryParams(request, creds)] else [])
  {
    var cid := OrElse(correlationId, request.correlationId);
    if !IsConfigured(creds) {
      return AddressValidationResponse(false, cid, None, Some(CredentialsMessage));
    }
    var validationErrors := ValidateRequest(request);
    if |validationErrors| > 0 {
      return AddressValidationResponse(false, cid,
        Some(AddressValidationResult(false, false, None, None, validationErrors, None)),
        Some(ValidationFailedMessage));
    }
    var smartyRequest := BuildSmartyRequest(request, creds);
    var outcome := CallSmartyApi(smartyRequest, transport);
    match outcome
    case Returned(payload) =>
      response := AddressValidationResponse(true, cid, Some(ProcessSmartyResponse(payload)), None);
    case Threw(thrown) =>
      response := AddressValidationResponse(false, cid,
        Some(AddressValidationResult(false, false, None, None, [ApiCallFailedNote], None)),
        Some(CaughtMessage(thrown)));
  }

  // ----- Properties of the provider's responses -----

  /** Not configured: a fixed error, no data at all, and no call. */
  lemma MissingCredentials(request: AddressValidationRequest, correlationId: Option<string>,
                           creds: Credentials, reply: Reply)
    requires creds.authId == "" || creds.authToken == ""
    ensures ValidateAddressResult(request, correlationId, creds, reply) ==
      AddressValidationResponse(false, OrElse(correlationId, request.correlationId), None,
        Some("Smarty authentication credentials not configured"))
    ensures !CallsProvider(request, creds)
  {
  }

  /** The correlation ID of every response is the argument when truthy, else the request's own. */
  lemma CorrelationIdFallback(request: AddressValidationRequest, correlationId: Option<string>,
                              creds: Credentials, reply: Reply)
    ensures ValidateAddressResult(request, correlationId, creds, reply).correlationId ==
      (if correlationId.Some? && correlationId.value != "" then correlationId.value else request.correlationId)
  {
    var cid := OrElse(correlationId, request.correlationId);
    var r := ValidateAddressResult(request, correlationId, creds, reply);
    if !IsConfigured(creds) || Violations(request) != [] {
      assert r.correlationId == cid;
    } else {
      match SettleReply(reply)
      case Returned(payload) => assert r.correlationId == cid;
      case Threw(thrown) => assert r.correlationId == cid;
    }
  }

  /** A request that breaks a rule: "Validation failed", both flags false, the
      validator's messages as notes, nothing else, and no call. */
  lemma ValidationFailure(request: AddressValidationRequest, correlationId: Option<string>,
                          creds: Credentials, reply: Reply)
    requires IsConfigured(creds)
    requires exists r: Rule :: Broken(r, request)
    ensures ValidateAddressResult(request, correlationId, creds, reply) ==
      AddressValidationResponse(false, OrElse(correlationId, request.correlationId),
        Some(AddressValidationResult(false, false, None, None, Violations(request), None)),
        Some("Validation failed"))
    ensures !CallsProvider(request, creds)
  {
    ViolationsEmptyIff(request);
  }

  /** A failed call: both flags false, the single note "API call failed", and the
      formatted message as the error. */
  lemma CallFailure(request: AddressValidationRequest, correlationId: Option<string>,
                    creds: Credentials, reply: Reply)
    requires CallsProvider(request, creds) && !reply.Delivered?
    ensures ValidateAddressResult(request, correlationId, creds, reply) ==
      AddressValidationResponse(false, OrElse(correlationId, request.correlationId),
        Some(AddressValidationResult(false, false, None, None, ["API call failed"], None)),
        Some(match reply
             case ClientFailure(response, message) => ClientErrorMessage(response, message)
             case OtherFailure(isError, message) => if isError then message else "Unknown error"
             case Delivered(_) => ""))
  {
  }

  /** The provider succeeds exactly when configured, the request is valid and the
      call returns a payload. */
  lemma SuccessIff(request: AddressValidationRequest, correlationId: Option<string>,
                   creds: Credentials, reply: Reply)
    ensures ValidateAddressResult(request, correlationId, creds, reply).success <==>
      IsConfigured(creds) && (forall r: Rule :: !Broken(r, request)) && reply.Delivered?
  {
    ViolationsEmptyIff(request);
  }

  /** Data is missing only for an unconfigured provider; no response calls an address
      deliverable without validating it, and every failure has both flags false. */
  lemma ResponsesAreConsistent(request: AddressValidationRequest, correlationId: Option<string>,
                               creds: Credentials, reply: Reply)
    ensures ValidateAddressResult(request, correlationId, creds, reply).data.Some? <==> IsConfigured(creds)
    ensures var d := ValidateAddressResult(request, correlationId, creds, reply).data;
      d.Some? ==> (d.value.deliverable ==> d.value.validated)
    ensures var r := ValidateAddressResult(request, correlationId, creds, reply);
      !r.success && r.data.Some? ==> !r.data.value.validated && !r.data.value.deliverable
  {
    if CallsProvider(request, creds) && reply.Delivered? {
      var d := ProcessSmartyResponse(reply.payload);
      assert ValidateAddressResult(request, correlationId, creds, reply).data == Some(d);
    }
  }

  /** Conversion loses nothing the interpreter reads: the verdict drawn from the
      provider detail of a converted address is the verdict on the candidate. */
  lemma ConversionKeepsSignals(copy: Copy, a: SmartyAddress)
    ensures var d := ConvertToValidatedAddress(a).metadata.value;
      SignalsOfParts(d.analysis, d.metadata) == SignalsOf(a)
      && Interpret(copy, SignalsOfParts(d.analysis, d.metadata)) == Interpret(copy, SignalsOf(a))
  {
  }

  /** The call counter stays at zero when the provider is not configured. */
  method MissingCredentialsMakesNoCall(request: AddressValidationRequest, reply: Reply)
    returns (response: AddressValidationResponse, calls: nat)
    ensures !response.success && response.data.None? && response.error == Some(CredentialsMessage) && calls == 0
  {
    var transport := new Transport(reply);
    response := ValidateAddress(request, Some("test-123"), Credentials("", ""), transport);
    calls := transport.Calls();
  }
}

/** The static address service, the copy the routes call. Its steps are the
    source's: the validator and the query builder accumulate step by step, the
    interpreter updates its three locals across branches, and `ValidateAddress`
    runs the stages in order — credential check, validation, the single call,
    interpretation — each with its own failure result. Every method is proved
    against the declarative specification in RequestRules, SmartyQuery and
    Interpretation. */
module AddressService {
  import opened JsValues
  import opened AddressTypes
  import opened RequestRules
  import opened SmartyQuery
  import opened Interpretation
  import opened SmartyTransport

  const CredentialsMessage := "Smarty authentication credentials not configured"
  const ValidationFailedMessage := "Validation failed"
  const ApiCallFailedNote := "API call failed"

  /** `!authId || !authToken` is false: both credentials are non-empty. */
  predicate HasCredentials(creds: Credentials)
  {
    |creds.authId| > 0 && |creds.authToken| > 0
  }

  /** Checks the rules one after another and collects one message per violated rule;
      after each check the messages so far are those of the rules checked so far. */
  method ValidateRequest(request: AddressValidationRequest) returns (errors: seq<string>)
    ensures errors == Violations(request)
  {
    errors := [];
    ghost var before1 := errors;
    if Broken(AtLeastOneField, request) {
      errors := errors + [AtLeastOneMessage];
    }
    assert errors == CheckRule(before1, AtLeastOneField, request);
    ghost var before2 := errors;
    if Broken(StreetLength, request) {
      errors := errors + [StreetMessage];
    }
    assert errors == CheckRule(before2, StreetLength, request);
    ghost var before3 := errors;
    if Broken(Street2Length, request) {
      errors := errors + [Street2Message];
    }
    assert errors == CheckRule(before3, Street2Length, request);
    ghost var before4 := errors;
    if Broken(CityLength, request) {
      errors := errors + [CityMessage];
    }
    assert errors == CheckRule(before4, CityLength, request);
    ghost var before5 := errors;
    if Broken(StateLength, request) {
      errors := errors + [StateMessage];
    }
    assert errors == CheckRule(before5, StateLength, request);
    ghost var before6 := errors;
    if Broken(ZipcodeLength, request) {
      errors := errors + [ZipcodeMessage];
    }
    assert errors == CheckRule(before6, ZipcodeLength, request);
    ghost var before7 := errors;
    if Broken(AddresseeLength, request) {
      errors := errors + [AddresseeMessage];
    }
    assert errors == CheckRule(before7, AddresseeLength, request);
    ghost var before8 := errors;
    if Broken(CandidatesRange, request) {
      errors := errors + [CandidatesMessage];
    }
    assert errors == CheckRule(before8, CandidatesRange, request);
    ghost var before9 := errors;
    if Broken(MatchMode, request) {
      errors := errors + [MatchMessage];
    }
    assert errors == CheckRule(before9, MatchMode, request);
    ViolationsByChecks(request);
  }

  /** Starts from the two credentials and adds every truthy field, in source order. */
  method BuildSmartyRequest(request: AddressValidationRequest, creds: Credentials)
    returns (params: map<string, string>)
    ensures params == QueryParams(request, creds)
  {
    params := map[AuthIdKey := creds.authId, AuthTokenKey := creds.authToken];
    params := AddIfTruthy(params, "street", request.street);
    params := AddIfTruthy(params, "street2", request.street2);
    params := AddIfTruthy(params, "city", request.city);
    params := AddIfTruthy(params, "state", request.state);
    params := AddIfTruthy(params, "zipcode", request.zipcode);
    params := AddIfTruthy(params, "addressee", request.addressee);
    params := AddIfTruthy(params, CandidatesKey, CandidatesParam(request.candidates));
    params := AddIfTruthy(params, "match", request.matchMode);
    params := AddIfTruthy(params, "format", request.format);
    QueryParamsByFields(request, creds);
  }

  /** The call: re-checks the credentials, sends one GET, and returns the payload or
      throws the formatted error. */
  method CallSmartyApi(params: map<string, string>, creds: Credentials, transport: Transport)
    returns (result: CallResult)
    modifies transport
    ensures !HasCredentials(creds) ==>
      result == Threw(ErrorObject(CredentialsMessage)) && transport.sent == old(transport.sent)
    ensures HasCredentials(creds) ==>
      result == SettleReply(transport.reply) && transport.sent == old(transport.sent) + [params]
  {
    if !HasCredentials(creds) {
      return Threw(ErrorObject(CredentialsMessage));
    }
    var reply := transport.Get(params);
    result := SettleReply(reply);
  }

  /** The candidates a verdict carries: the address, then the suggestions. */
  function ReturnedCandidates(data: LegacyData): seq<SmartyAddress>
  {
    (if data.address.Some? then [data.address.value] else [])
    + (if data.suggestions.Some? then data.suggestions.value else [])
  }

  /** Picks the first candidate as the best match, keeps the others as suggestions
      and interprets the best match. */
  function ProcessSmartyResponse(response: SmartyPayload): (data: LegacyData)
    ensures data.deliverable ==> data.validated
    ensures data.validationNotes.Some?
    ensures Addresses(response) == [] ==>
      data == LegacyData(false, false, None, None, Some([NoMatches]))
    ensures Addresses(response) != [] ==>
      Verdict(data.validated, data.deliverable, data.validationNotes.value)
        == Interpret(ServiceCopy, SignalsOf(Addresses(response)[0]))
      && data.address == Some(Addresses(response)[0])
    ensures ReturnedCandidates(data) == Addresses(response)
    ensures data.suggestions.Some? ==> |data.suggestions.value| > 0
  {
    var addresses := Addresses(response);
    if |addresses| == 0 then
      LegacyData(false, false, None, None, Some([NoMatches]))
    else
      var bestMatch := addresses[0];
      var suggestions := addresses[1..];
      var v := Interpret(ServiceCopy, SignalsOf(bestMatch));
      LegacyData(v.validated, v.deliverable, Some(bestMatch),
        if |suggestions| > 0 then Some(suggestions) else None, Some(v.notes))
  }

  /** The interpreter as the source runs it: three locals, updated by whichever
      section applies (`enhanced_match` when truthy, the DPV code otherwise),
      then the PO-box caveat. */
  method InterpretValidationResult(address: SmartyAddress)
    returns (validated: bool, deliverable: bool, notes: seq<string>)
    ensures Verdict(validated, deliverable, notes) == Interpret(ServiceCopy, SignalsOf(address))
    ensures deliverable ==> validated
  {
    var s := SignalsOf(address);
    var recordType := s.recordType;
    if Truthy(s.enhancedMatch) {
      validated, deliverable, notes := InterpretEnhancedMatch(s);
    } else {
      validated, deliverable, notes := InterpretDpvCode(s);
    }
    if recordType == Some("P") {
      notes := notes + [PoBoxNote];
    }
  }

  /** The section driven by a truthy `enhanced_match`; on return the locals hold
      the verdict of the branch the signals classify into. */
  method InterpretEnhancedMatch(s: Signals) returns (validated: bool, deliverable: bool, notes: seq<string>)
    requires Truthy(s.enhancedMatch)
    ensures validated == IsValidated(Classify(s))
    ensures deliverable == IsDeliverable(ServiceCopy, Classify(s), s)
    ensures notes == BranchNotes(ServiceCopy, Classify(s), s)
  {
    notes := [];
    validated := false;
    deliverable := false;
    var enhancedMatch := s.enhancedMatch;
    var dpvFootnotes := s.dpvFootnotes;

    if Includes(enhancedMatch.value, "postal-match") {
      validated := true;
      notes := notes + [FoundInUsps];
      if Includes(enhancedMatch.value, "missing-secondary") {
        if OptIncludes(dpvFootnotes, "N1") {
          notes := notes + [SecondaryRequired];
        } else {
          notes := notes + [SecondaryNotRequired];
        }
      }
      ghost var missing := notes;
      assert missing == [FoundInUsps]
        + (if Tagged(s, "missing-secondary") then
             [if HasFootnote(s, "N1") then SecondaryRequired else SecondaryNotRequired]
           else []);
      if Includes(enhancedMatch.value, "unknown-secondary") {
        if OptIncludes(dpvFootnotes, "C1") {
          notes := notes + [SecondaryCorrection];
        } else if OptIncludes(dpvFootnotes, "CC") {
          notes := notes + [SecondaryNotNeeded];
        }
      }
      assert notes == [FoundInUsps] + PostalSecondaryNotes(s);
      if s.dpvVacant == Some("N") && s.dpvNoStat == Some("N") && !OptIncludes(dpvFootnotes, "R7") {
        deliverable := true;
        notes := notes + [DeliverableByUsps];
      } else {
        notes := notes + [MaybeUndeliverable];
      }
    } else if Includes(enhancedMatch.value, "non-postal-match") {
      validated := true;
      notes := notes + [FoundNonUsps];
      if Includes(enhancedMatch.value, "missing-secondary") {
        notes := notes + [SecondaryMightBeNeeded];
      }
      if Includes(enhancedMatch.value, "unknown-secondary") {
        notes := notes + [SecondaryUnrecognised];
      }
    }
  }

  /** The fallback section on the DPV match code, taken when `enhanced_match` is falsy. */
  method InterpretDpvCode(s: Signals) returns (validated: bool, deliverable: bool, notes: seq<string>)
    requires !Truthy(s.enhancedMatch)
    ensures validated == IsValidated(Classify(s))
    ensures deliverable == IsDeliverable(ServiceCopy, Classify(s), s)
    ensures notes == BranchNotes(ServiceCopy, Classify(s), s)
  {
    notes := [];
    validated := false;
    deliverable := false;
    var dpvFootnotes := s.dpvFootnotes;
    var dpvMatchCode := s.dpvMatchCode;

    if dpvMatchCode == Some("Y") {
      validated := true;
      notes := notes + [ValidatedByDpv];
      if s.dpvVacant == Some("N") && s.dpvNoStat == Some("N") && !OptIncludes(dpvFootnotes, "R7") {
        deliverable := true;
        notes := notes + [DeliverableByUsps];
      } else {
        notes := notes + [MaybeUndeliverable];
      }
      ghost var delivery := notes;
      assert delivery == [ValidatedByDpv, DeliverabilityNote(DeliveryPointActive(s))];
      if OptIncludes(dpvFootnotes, "N1") {
        notes := notes + [SecondaryRequired];
      } else if OptIncludes(dpvFootnotes, "C1") {
        notes := notes + [SecondaryCorrection];
      } else if OptIncludes(dpvFootnotes, "CC") {
        notes := notes + [SecondaryNotNeeded];
      }
    } else if dpvMatchCode == Some("N") {
      validated := false;
      notes := notes + [NotFoundDpvN];
    } else if dpvMatchCode == Some("S") {
      validated := true;
      notes := notes + [ValidatedDpvS];
      notes := notes + [SecondaryMightBeNeeded];
    } else if dpvMatchCode == Some("D") {
      validated := true;
      notes := notes + [ValidatedDpvD];
      notes := notes + [SecondaryMightBeNeeded];
    } else {
      validated := true;
      notes := notes + [AppearsValid];
      if s.dpvVacant == Some("N") && s.dpvNoStat == Some("N") {
        deliverable := true;
        notes := notes + [AppearsDeliverable];
      } else {
        notes := notes + [DeliverabilityUnknown];
      }
    }
  }

  /** The service calls the provider only with credentials and a valid request. */
  predicate CallsProvider(request: AddressValidationRequest, creds: Credentials)
  {
    HasCredentials(creds) && Violations(request) == []
  }

  /** The response of the service for a request, given what the call would yield. */
  function ValidateAddressResult(request: AddressValidationRequest, correlationId: Option<string>,
                                 creds: Credentials, reply: Reply): LegacyResponse
  {
    var cid := OrElse(correlationId, "");
    if !HasCredentials(creds) then
      LegacyResponse(false, cid, Some(LegacyData(false, false, None, None, None)), Some(CredentialsMessage))
    else if Violations(request) != [] then
      LegacyResponse(false, cid, Some(LegacyData(false, false, None, None, Some(Violations(request)))),
        Some(ValidationFailedMessage))
    else
      match SettleReply(reply)
      case Returned(payload) => LegacyResponse(true, cid, Some(ProcessSmartyResponse(payload)), None)
      case Threw(thrown) =>
        LegacyResponse(false, cid, Some(LegacyData(false, false, None, None, Some([ApiCallFailedNote]))),
          Some(CaughtMessage(thrown)))
  }

  /** The whole request: the stages in order, each failure returned at once; the
      provider is called once, with the built query, exactly when both checks pass. */
  method ValidateAddress(request: AddressValidationRequest, correlationId: Option<string>,
                         creds: Credentials, transport: Transport)
    returns (response: LegacyResponse)
    modifies transport
    ensures response == ValidateAddressResult(request, correlationId, creds, transport.reply)
    ensures transport.sent == old(transport.sent)
      + (if CallsProvider(request, creds) then [QueryParams(request, creds)] else [])
  {
    var cid := OrElse(correlationId, "");
    if !HasCredentials(creds) {
      return LegacyResponse(false, cid, Some(LegacyData(false, false, None, None, None)), Some(CredentialsMessage));
    }
    var validationErrors := ValidateRequest(request);
    if |validationErrors| > 0 {
      return LegacyResponse(false, cid, Some(LegacyData(false, false, None, None, Some(validationErrors))),
        Some(ValidationFailedMessage));
    }
    var smartyRequest := BuildSmartyRequest(request, creds);
    var outcome := CallSmartyApi(smartyRequest, creds, transport);
    match outcome
    case Returned(payload) =>
      response := LegacyResponse(true, cid, Some(ProcessSmartyResponse(payload)), None);
    case Threw(thrown) =>
      response := LegacyResponse(false, cid, Some(LegacyData(false, false, None, None, Some([ApiCallFailedNote]))),
        Some(CaughtMessage(thrown)));
  }

  // ----- Properties of the service's responses -----

  /** Missing credentials: a fixed error, both flags false, no notes, and no call. */
  lemma MissingCredentials(request: AddressValidationRequest, correlationId: Option<string>,
                           creds: Credentials, reply: Reply)
    requires creds.authId == "" || creds.authToken == ""
    ensures ValidateAddressResult(request, correlationId, creds, reply) ==
      LegacyResponse(false, OrElse(correlationId, ""), Some(LegacyData(false, false, None, None, None)),
        Some("Smarty authentication credentials not configured"))
    ensures !CallsProvider(request, creds)
  {
  }

  /** A request that breaks a rule: "Validation failed", both flags false, the
      validator's messages as notes, and no call. */
  lemma ValidationFailure(request: AddressValidationRequest, correlationId: Option<string>,
                          creds: Credentials, reply: Reply)
    requires HasCredentials(creds)
    requires exists r: Rule :: Broken(r, request)
    ensures ValidateAddressResult(request, correlationId, creds, reply) ==
      LegacyResponse(false, OrElse(correlationId, ""),
        Some(LegacyData(false, false, None, None, Some(Violations(request)))), Some("Validation failed"))
    ensures !CallsProvider(request, creds)
  {
    ViolationsEmptyIff(request);
  }

  /** A failed call: both flags false, the single note "API call failed", and the
      formatted message as the error. */
  lemma CallFailure(request: AddressValidationRequest, correlationId: Option<string>,
                    creds: Credentials, reply: Reply)
    requires CallsProvider(request, creds) && !reply.Delivered?
    ensures ValidateAddressResult(request, correlationId, creds, reply) ==
      LegacyResponse(false, OrElse(correlationId, ""),
        Some(LegacyData(false, false, None, None, Some(["API call failed"]))),
        Some(match reply
             case ClientFailure(response, message) => ClientErrorMessage(response, message)
             case OtherFailure(isError, message) => if isError then message else "Unknown error"
             case Delivered(_) => ""))
  {
  }

  /** The service succeeds exactly when the credentials are set, the request is valid
      and the call returns a payload. */
  lemma SuccessIff(request: AddressValidationRequest, correlationId: Option<string>,
                   creds: Credentials, reply: Reply)
    ensures ValidateAddressResult(request, correlationId, creds, reply).success <==>
      HasCredentials(creds) && (forall r: Rule :: !Broken(r, request)) && reply.Delivered?
  {
    ViolationsEmptyIff(request);
  }

  /** Every response carries data, and never calls an address deliverable without
      validating it; every failure has both flags false. */
  lemma ResponsesAreConsistent(request: AddressValidationRequest, correlationId: Option<string>,
                               creds: Credentials, reply: Reply)
    ensures ValidateAddressResult(request, correlationId, creds, reply).data.Some?
    ensures var d := ValidateAddressResult(request, correlationId, creds, reply).data.value;
      d.deliverable ==> d.validated
    ensures !ValidateAddressResult(request, correlationId, creds, reply).success ==>
      !ValidateAddressResult(request, correlationId, creds, reply).data.value.validated &&
      !ValidateAddressResult(request, correlationId, creds, reply).data.value.deliverable
  {
    if CallsProvider(request, creds) && reply.Delivered? {
      var d := ProcessSmartyResponse(reply.payload);
      assert ValidateAddressResult(request, correlationId, creds, reply).data == Some(d);
    }
  }

  /** An empty request is rejected before any call, with the at-least-one message first. */
  lemma EmptyRequestRejected(correlationId: string, creds: Credentials, reply: Reply)
    requires HasCredentials(creds)
    ensures var r := ValidateAddressResult(
        AddressValidationRequest(correlationId, None, None, None, None, None, None, None, None, None),
        Some(correlationId), creds, reply);
      !r.success && r.error == Some("Validation failed")
      && !r.data.value.validated && !r.data.value.deliverable
      && r.data.value.validationNotes.value[0] == AtLeastOneMessage
  {
    NoAddressFields(AddressValidationRequest(correlationId, None, None, None, None, None, None, None, None, None));
  }

  /** The request of the recorded scenario. */
  const RecordedRequest := AddressValidationRequest("test-123", Some("1600 Amphitheatre Parkway"), None,
    Some("Mountain View"), Some("CA"), Some("94043"), None, None, None, None)

  /** A request with a street, short city, state and zipcode fields, and no other
      fields, breaks no rule: even at two code units per character each field is
      within its limit. */
  lemma ShortAddressIsValid(req: AddressValidationRequest)
    requires req.street.Some? && 0 < |req.street.value| <= 50
    requires req.city.Some? && |req.city.value| <= 32
    requires req.state.Some? && |req.state.value| <= 16
    requires req.zipcode.Some? && |req.zipcode.value| <= 5
    requires req.street2.None? && req.addressee.None? && req.candidates.None? && req.matchMode.None?
    ensures Violations(req) == []
  {
    ViolationsEmptyIff(req);
    forall r: Rule
      ensures !Broken(r, req)
    {
      match r
      case AtLeastOneField => assert Truthy(req.street);
      case _ =>
    }
  }

  /** The recorded request breaks no rule. */
  lemma RecordedRequestIsValid()
    ensures Violations(RecordedRequest) == []
  {
    ShortAddressIsValid(RecordedRequest);
  }

  /** The recorded footnotes "AABB" carry no R7. */
  lemma RecordedFootnotesLackR7()
    ensures !Includes("AABB", "R7")
  {
    var f := "AABB";
    IncludesSkip(f, "R7");
    IncludesSkip(f[1..], "R7");
    IncludesSkip(f[2..], "R7");
    assert f[1..][1..] == f[2..];
    assert f[2..][1..] == f[3..];
    IncludesNeedsRoom(f[3..], "R7");
  }

  /** The candidate of the recorded scenario: a bare postal match at an occupied,
      non-PO-box address with footnotes "AABB". */
  predicate RecordedCandidate(candidate: SmartyAddress)
  {
    && candidate.analysis == Some(Analysis(Some("postal-match"), Some("Y"), Some("AABB"), Some("N"), Some("N")))
    && candidate.metadata.Some? && candidate.metadata.value.recordType == Some("S")
  }

  /** A lone recorded candidate is the address of a validated, deliverable verdict
      with exactly the two USPS notes and no suggestions. */
  lemma RecordedVerdict(candidate: SmartyAddress)
    requires RecordedCandidate(candidate)
    ensures ProcessSmartyResponse(Envelope(Some([candidate]))) ==
      LegacyData(true, true, Some(candidate), None, Some([FoundInUsps, DeliverableByUsps]))
  {
    var s := SignalsOf(candidate);
    RecordedFootnotesLackR7();
    assert DeliveryPointActive(s) && PoBoxNotes(ServiceCopy, s) == [];
    PostalMatchTagIsPlain(s);
    PlainPostalMatch(ServiceCopy, s);
    assert Interpret(ServiceCopy, s).notes == [FoundInUsps, DeliverableByUsps];
    assert Addresses(Envelope(Some([candidate]))) == [candidate];
  }

  /** The recorded scenario end to end: the recorded request with that candidate
      succeeds under its correlation ID with that verdict. */
  lemma RecordedPostalMatch(creds: Credentials, candidate: SmartyAddress)
    requires HasCredentials(creds) && RecordedCandidate(candidate)
    ensures ValidateAddressResult(RecordedRequest, Some("test-123"), creds, Delivered(Envelope(Some([candidate]))))
      == LegacyResponse(true, "test-123",
           Some(LegacyData(true, true, Some(candidate), None, Some([FoundInUsps, DeliverableByUsps]))), None)
  {
    RecordedRequestIsValid();
    RecordedVerdict(candidate);
  }

  /** The call counter stays at zero when the credentials are missing. */
  method MissingCredentialsMakesNoCall(request: AddressValidationRequest, reply: Reply)
    returns (response: LegacyResponse, calls: nat)
    ensures !response.success && response.error == Some(CredentialsMessage) && calls == 0
  {
    var transport := new Transport(reply);
    response := ValidateAddress(request, Some("test-123"), Credentials("", ""), transport);
    calls := transport.Calls();
  }
}

/** The rules a request must satisfy before the provider is called. Both copies
    of the engine check the same nine rules, in the same order, with the same
    messages; this module states them once, declaratively, and proves what the
    list of violations says about the request. */
module RequestRules {
  import opened JsValues
  import opened AddressTypes

  datatype Rule =
    | AtLeastOneField
    | StreetLength
    | Street2Length
    | CityLength
    | StateLength
    | ZipcodeLength
    | AddresseeLength
    | CandidatesRange
    | MatchMode

  /** The order in which the rules are evaluated. */
  const RuleOrder: seq<Rule> := [AtLeastOneField, StreetLength, Street2Length, CityLength,
    StateLength, ZipcodeLength, AddresseeLength, CandidatesRange, MatchMode]

  /** The position of a rule in `RuleOrder`. */
  function Rank(r: Rule): nat
  {
    match r
    case AtLeastOneField => 0
    case StreetLength => 1
    case Street2Length => 2
    case CityLength => 3
    case StateLength => 4
    case ZipcodeLength => 5
    case AddresseeLength => 6
    case CandidatesRange => 7
    case MatchMode => 8
  }

  const AtLeastOneMessage := "At least one of street, city, state, or zipcode must be provided"
  const StreetMessage := "Street field exceeds maximum length of 100 characters"
  const Street2Message := "Street2 field exceeds maximum length of 100 characters"
  const CityMessage := "City field exceeds maximum length of 64 characters"
  const StateMessage := "State field exceeds maximum length of 32 characters"
  const ZipcodeMessage := "Zipcode field exceeds maximum length of 10 characters"
  const AddresseeMessage := "Addressee field exceeds maximum length of 64 characters"
  const CandidatesMessage := "Candidates must be between 1 and 10"
  const MatchMessage := "Match parameter must be one of: strict, range, invalid"

  /** The fixed message a violated rule contributes. */
  function Message(r: Rule): string
  {
    match r
    case AtLeastOneField => AtLeastOneMessage
    case StreetLength => StreetMessage
    case Street2Length => Street2Message
    case CityLength => CityMessage
    case StateLength => StateMessage
    case ZipcodeLength => ZipcodeMessage
    case AddresseeLength => AddresseeMessage
    case CandidatesRange => CandidatesMessage
    case MatchMode => MatchMessage
  }

  /** A truthy string field whose JavaScript `length` (in UTF-16 code units)
      exceeds `limit`. */
  predicate TooLong(field: Option<string>, limit: nat)
  {
    Truthy(field) && Utf16Length(field.value) > limit
  }

  /** None of street, city, state and zipcode is truthy. */
  predicate NoAddressField(req: AddressValidationRequest)
  {
    !Truthy(req.street) && !Truthy(req.city) && !Truthy(req.state) && !Truthy(req.zipcode)
  }

  /** A truthy candidate count outside 1..10 (0 is falsy and therefore never checked). */
  predicate CandidatesOutOfRange(candidates: Option<int>)
  {
    TruthyNumber(candidates) && (candidates.value < 1 || candidates.value > 10)
  }

  /** The accepted values of the `match` parameter. */
  predicate KnownMatchMode(m: string)
  {
    m in ["strict", "range", "invalid"]
  }

  /** A truthy `match` value other than the three accepted ones. */
  predicate UnknownMatchMode(mode: Option<string>)
  {
    Truthy(mode) && !KnownMatchMode(mode.value)
  }

  /** Whether the request breaks rule `r`, with JavaScript truthiness for "present". */
  predicate Broken(r: Rule, req: AddressValidationRequest)
  {
    match r
    case AtLeastOneField => NoAddressField(req)
    case StreetLength => TooLong(req.street, 100)
    case Street2Length => TooLong(req.street2, 100)
    case CityLength => TooLong(req.city, 64)
    case StateLength => TooLong(req.state, 32)
    case ZipcodeLength => TooLong(req.zipcode, 10)
    case AddresseeLength => TooLong(req.addressee, 64)
    case CandidatesRange => CandidatesOutOfRange(req.candidates)
    case MatchMode => UnknownMatchMode(req.matchMode)
  }

  /** The rules among `rs` that `req` breaks, in the order of `rs`. */
  function BrokenAmong(rs: seq<Rule>, req: AddressValidationRequest): seq<Rule>
    decreases |rs|
  {
    if rs == [] then []
    else (if Broken(rs[0], req) then [rs[0]] else []) + BrokenAmong(rs[1..], req)
  }

  /** The messages of a list of rules, in order. */
  function Messages(rs: seq<Rule>): (ms: seq<string>)
    ensures |ms| == |rs|
  {
    seq(|rs|, k requires 0 <= k < |rs| => Message(rs[k]))
  }

  /** The rules the request breaks, in evaluation order. */
  function ViolatedRules(req: AddressValidationRequest): seq<Rule>
  {
    BrokenAmong(RuleOrder, req)
  }

  /** What a validator returns: one message per broken rule, in evaluation order. */
  function Violations(req: AddressValidationRequest): seq<string>
  {
    Messages(ViolatedRules(req))
  }

  lemma MessagesAppend(a: seq<Rule>, b: seq<Rule>)
    ensures Messages(a + b) == Messages(a) + Messages(b)
  {
    var l, r := Messages(a + b), Messages(a) + Messages(b);
    assert |l| == |r|;
    forall k | 0 <= k < |l| ensures l[k] == r[k] {
      if k < |a| {
        assert (a + b)[k] == a[k];
      } else {
        assert (a + b)[k] == b[k - |a|];
      }
    }
  }

  /** Filtering distributes over concatenation. */
  lemma {:induction false} BrokenAmongAppend(a: seq<Rule>, b: seq<Rule>, req: AddressValidationRequest)
    ensures BrokenAmong(a + b, req) == BrokenAmong(a, req) + BrokenAmong(b, req)
    decreases |a|
  {
    if a == [] {
      assert a + b == b;
    } else {
      BrokenAmongAppend(a[1..], b, req);
      assert (a + b)[0] == a[0];
      assert (a + b)[1..] == a[1..] + b;
    }
  }

  /** One check of the validator: append the rule's message when the request breaks it. */
  function CheckRule(errors: seq<string>, r: Rule, req: AddressValidationRequest): seq<string>
  {
    if Broken(r, req) then errors + [Message(r)] else errors
  }

  /** The messages collected by checking the first `k` rules in evaluation order. */
  function ViolationsSoFar(k: nat, req: AddressValidationRequest): seq<string>
    requires k <= |RuleOrder|
  {
    if k == 0 then [] else CheckRule(ViolationsSoFar(k - 1, req), RuleOrder[k - 1], req)
  }

  /** Checking rules one at a time collects the messages of the broken ones, in order. */
  lemma {:induction false} ViolationsSoFarFilters(k: nat, req: AddressValidationRequest)
    requires k <= |RuleOrder|
    ensures ViolationsSoFar(k, req) == Messages(BrokenAmong(RuleOrder[..k], req))
  {
    if k == 0 {
      assert RuleOrder[..0] == [];
    } else {
      ViolationsSoFarFilters(k - 1, req);
      var r := RuleOrder[k - 1];
      assert RuleOrder[..k] == RuleOrder[..k - 1] + [r];
      BrokenAmongAppend(RuleOrder[..k - 1], [r], req);
      assert [r][1..] == [];
      MessagesAppend(BrokenAmong(RuleOrder[..k - 1], req), BrokenAmong([r], req));
    }
  }

  /** After all the checks, the collected messages are the validator's output. */
  lemma ViolationsSoFarComplete(k: nat, req: AddressValidationRequest)
    requires k == |RuleOrder|
    ensures ViolationsSoFar(k, req) == Violations(req)
  {
    ViolationsSoFarFilters(k, req);
    assert RuleOrder[..k] == RuleOrder;
  }

  /** The validator's output as nine checks applied one after another in evaluation order. */
  lemma ViolationsByChecks(req: AddressValidationRequest)
    ensures Violations(req) ==
      CheckRule(CheckRule(CheckRule(CheckRule(CheckRule(CheckRule(CheckRule(CheckRule(CheckRule([],
        AtLeastOneField, req), StreetLength, req), Street2Length, req), CityLength, req),
        StateLength, req), ZipcodeLength, req), AddresseeLength, req), CandidatesRange, req), MatchMode, req)
  {
    var v1 := CheckRule([], AtLeastOneField, req);
    var v2 := CheckRule(v1, StreetLength, req);
    var v3 := CheckRule(v2, Street2Length, req);
    var v4 := CheckRule(v3, CityLength, req);
    var v5 := CheckRule(v4, StateLength, req);
    var v6 := CheckRule(v5, ZipcodeLength, req);
    var v7 := CheckRule(v6, AddresseeLength, req);
    var v8 := CheckRule(v7, CandidatesRange, req);
    assert ViolationsSoFar(1, req) == v1;
    assert ViolationsSoFar(2, req) == v2;
    assert ViolationsSoFar(3, req) == v3;
    assert ViolationsSoFar(4, req) == v4;
    assert ViolationsSoFar(5, req) == v5;
    assert ViolationsSoFar(6, req) == v6;
    assert ViolationsSoFar(7, req) == v7;
    assert ViolationsSoFar(8, req) == v8;
    ViolationsSoFarComplete(|RuleOrder|, req);
  }

  lemma {:induction false} BrokenAmongMembers(rs: seq<Rule>, req: AddressValidationRequest, r: Rule)
    ensures r in BrokenAmong(rs, req) <==> r in rs && Broken(r, req)
    decreases |rs|
  {
    if rs != [] {
      BrokenAmongMembers(rs[1..], req, r);
      assert rs == [rs[0]] + rs[1..];
    }
  }

  /** Filtering keeps the relative order of the rules it keeps. */
  lemma {:induction false} BrokenAmongOrdered(rs: seq<Rule>, req: AddressValidationRequest)
    requires forall i, j :: 0 <= i < j < |rs| ==> Rank(rs[i]) < Rank(rs[j])
    ensures forall i, j :: 0 <= i < j < |BrokenAmong(rs, req)| ==>
      Rank(BrokenAmong(rs, req)[i]) < Rank(BrokenAmong(rs, req)[j])
    decreases |rs|
  {
    if rs != [] {
      var tail := BrokenAmong(rs[1..], req);
      BrokenAmongOrdered(rs[1..], req);
      forall r | r in tail ensures Rank(rs[0]) < Rank(r) {
        BrokenAmongMembers(rs[1..], req, r);
        var k :| 0 <= k < |rs[1..]| && rs[1..][k] == r;
        assert rs[k + 1] == r;
      }
      var out := BrokenAmong(rs, req);
      if Broken(rs[0], req) {
        assert out == [rs[0]] + tail;
        forall i, j | 0 <= i < j < |out| ensures Rank(out[i]) < Rank(out[j]) {
          if i == 0 {
            assert out[j] == tail[j - 1];
            assert tail[j - 1] in tail;
          } else {
            assert out[i] == tail[i - 1] && out[j] == tail[j - 1];
          }
        }
      } else {
        assert out == tail;
      }
    }
  }

  /** Every rule is evaluated: a rule is reported iff the request breaks it. */
  lemma ViolatedRulesComplete(req: AddressValidationRequest, r: Rule)
    ensures r in ViolatedRules(req) <==> Broken(r, req)
  {
    BrokenAmongMembers(RuleOrder, req, r);
    assert RuleOrder[Rank(r)] == r;
  }

  /** Reported rules come in evaluation order (at-least-one, street, street2, city,
      state, zipcode, addressee, candidates, match), each at most once. */
  lemma ViolationsInSourceOrder(req: AddressValidationRequest)
    ensures forall i, j :: 0 <= i < j < |ViolatedRules(req)| ==>
      Rank(ViolatedRules(req)[i]) < Rank(ViolatedRules(req)[j])
  {
    BrokenAmongOrdered(RuleOrder, req);
  }

  /** Distinct rules have distinct messages. */
  lemma MessageInjective(r: Rule, q: Rule)
    requires Message(r) == Message(q)
    ensures r == q
  {
  }

  /** The message of a rule is in the validator's output iff the request breaks that rule. */
  lemma ViolationMessageIff(req: AddressValidationRequest, r: Rule)
    ensures Message(r) in Violations(req) <==> Broken(r, req)
  {
    var vr := ViolatedRules(req);
    ViolatedRulesComplete(req, r);
    if Message(r) in Violations(req) {
      var k :| 0 <= k < |vr| && Violations(req)[k] == Message(r);
      MessageInjective(vr[k], r);
    }
    if Broken(r, req) {
      var k :| 0 <= k < |vr| && vr[k] == r;
      assert Violations(req)[k] == Message(r);
    }
  }

  /** The validator's output is empty iff the request breaks no rule. */
  lemma ViolationsEmptyIff(req: AddressValidationRequest)
    ensures Violations(req) == [] <==> forall r: Rule :: !Broken(r, req)
  {
    if Violations(req) == [] {
      forall r: Rule ensures !Broken(r, req) {
        ViolatedRulesComplete(req, r);
      }
    } else {
      ViolatedRulesComplete(req, ViolatedRules(req)[0]);
    }
  }

  /** Length limits are strict: a street of exactly 100 code units passes, one of
      101 fails, and so does any street of more than 100 characters. */
  lemma StreetLengthBoundary(req: AddressValidationRequest)
    requires req.street.Some?
    ensures Utf16Length(req.street.value) <= 100 ==> StreetMessage !in Violations(req)
    ensures Utf16Length(req.street.value) == 101 ==> StreetMessage in Violations(req)
    ensures |req.street.value| > 100 ==> StreetMessage in Violations(req)
  {
    ViolationMessageIff(req, StreetLength);
  }

  /** Characters outside the Basic Multilingual Plane count twice: a street of 51
      emoji is 102 code units long and is rejected. */
  lemma AstralStreetRejected(req: AddressValidationRequest)
    requires req.street == Some(seq(51, _ => '\U{1F600}'))
    ensures |req.street.value| == 51 && Utf16Length(req.street.value) == 102
    ensures StreetMessage in Violations(req)
  {
    var s := req.street.value;
    assert forall i :: 0 <= i < |s| ==> CodeUnits(s[i]) == 2;
    ViolationMessageIff(req, StreetLength);
  }

  /** Each field's message fires exactly when the truthy field exceeds its own limit. */
  lemma LengthLimits(req: AddressValidationRequest)
    ensures Street2Message in Violations(req) <==> TooLong(req.street2, 100)
    ensures CityMessage in Violations(req) <==> TooLong(req.city, 64)
    ensures StateMessage in Violations(req) <==> TooLong(req.state, 32)
    ensures ZipcodeMessage in Violations(req) <==> TooLong(req.zipcode, 10)
    ensures AddresseeMessage in Violations(req) <==> TooLong(req.addressee, 64)
  {
    ViolationMessageIff(req, Street2Length);
    ViolationMessageIff(req, CityLength);
    ViolationMessageIff(req, StateLength);
    ViolationMessageIff(req, ZipcodeLength);
    ViolationMessageIff(req, AddresseeLength);
  }

  /** Because of the truthiness guard, `candidates` is flagged exactly for negative
      values and values above 10: 0 and an absent value both pass. */
  lemma CandidatesBoundary(req: AddressValidationRequest)
    ensures CandidatesMessage in Violations(req) <==>
      req.candidates.Some? && (req.candidates.value < 0 || req.candidates.value > 10)
  {
    ViolationMessageIff(req, CandidatesRange);
  }

  /** A request with none of street, city, state and zipcode is always rejected with the
      at-least-one message first. */
  lemma NoAddressFields(req: AddressValidationRequest)
    requires !Truthy(req.street) && !Truthy(req.city) && !Truthy(req.state) && !Truthy(req.zipcode)
    ensures |Violations(req)| > 0 && Violations(req)[0] == AtLeastOneMessage
  {
  }

  /** `match` passes iff it is absent, empty, or one of the three modes. */
  lemma MatchModes(req: AddressValidationRequest)
    ensures MatchMessage !in Violations(req) <==>
      !Truthy(req.matchMode) || req.matchMode.value in ["strict", "range", "invalid"]
  {
    ViolationMessageIff(req, MatchMode);
  }
}

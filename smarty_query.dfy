/** The provider's side of the boundary, as both copies of the engine share it:
    the flat query map a request becomes, and how the outcome of the single GET
    is turned into a returned payload or a thrown error. */
module SmartyQuery {
  import opened JsValues
  import opened AddressTypes

  const AuthIdKey := "auth-id"
  const AuthTokenKey := "auth-token"

  const CandidatesKey := "candidates"

  /** The query keys of the request fields, in the order the builder visits them. */
  const FieldKeys: seq<string> := ["street", "street2", "city", "state", "zipcode", "addressee",
    CandidatesKey, "match", "format"]

  /** The values the request offers for those keys: its own strings, and for `candidates`
      the decimal rendering when it is non-zero. */
  function FieldValues(req: AddressValidationRequest): (vs: seq<Option<string>>)
    ensures |vs| == |FieldKeys|
  {
    [req.street, req.street2, req.city, req.state, req.zipcode, req.addressee,
     CandidatesParam(req.candidates), req.matchMode, req.format]
  }

  /** The value sent for `candidates`: its decimal rendering, when it is non-zero. */
  function CandidatesParam(candidates: Option<int>): (r: Option<string>)
    ensures r.Some? <==> TruthyNumber(candidates)
    ensures r.Some? ==> Truthy(r) && ParseNumber(r.value) == candidates.value
  {
    if TruthyNumber(candidates) then
      NumberToStringRoundTrip(candidates.value);
      Some(NumberToString(candidates.value))
    else None
  }

  /** One step of the builder: set `key` when the value is truthy. */
  function PutIfTruthy(params: map<string, string>, key: string, value: Option<string>): map<string, string>
  {
    if Truthy(value) then params[key := value.value] else params
  }

  /** One step of the builder as the source takes it: `if (value) params[key] = value`. */
  method AddIfTruthy(params: map<string, string>, key: string, value: Option<string>)
    returns (result: map<string, string>)
    ensures result == PutIfTruthy(params, key, value)
    ensures Truthy(value) ==> key in result && result[key] == value.value
    ensures forall k :: k != key ==> (k in result <==> k in params)
  {
    result := params;
    if Truthy(value) {
      result := result[key := value.value];
    }
  }

  /** The builder's steps in order: each key is set when its value is truthy. */
  function PutAll(params: map<string, string>, keys: seq<string>, values: seq<Option<string>>): map<string, string>
    requires |keys| == |values|
    decreases |keys|
  {
    if keys == [] then params
    else PutAll(PutIfTruthy(params, keys[0], values[0]), keys[1..], values[1..])
  }

  /** The map the builder starts from: the two credentials. */
  function Credential(creds: Credentials): map<string, string>
  {
    map[AuthIdKey := creds.authId, AuthTokenKey := creds.authToken]
  }

  /** The query map sent to the provider: the two credentials, then every truthy field. */
  function QueryParams(req: AddressValidationRequest, creds: Credentials): map<string, string>
  {
    PutAll(Credential(creds), FieldKeys, FieldValues(req))
  }

  /** The keys after the builder's steps: the initial ones and the keys of truthy values. */
  lemma {:induction false} PutAllKeys(params: map<string, string>, keys: seq<string>,
                                      values: seq<Option<string>>, key: string)
    requires |keys| == |values|
    ensures key in PutAll(params, keys, values) <==>
      key in params || exists i :: 0 <= i < |keys| && keys[i] == key && Truthy(values[i])
    decreases |keys|
  {
    if keys != [] {
      PutAllKeys(PutIfTruthy(params, keys[0], values[0]), keys[1..], values[1..], key);
      if exists i :: 0 <= i < |keys| && keys[i] == key && Truthy(values[i]) {
        var i :| 0 <= i < |keys| && keys[i] == key && Truthy(values[i]);
        if i > 0 {
          assert keys[1..][i - 1] == key && Truthy(values[1..][i - 1]);
        }
      }
      if exists i :: 0 <= i < |keys[1..]| && keys[1..][i] == key && Truthy(values[1..][i]) {
        var i :| 0 <= i < |keys[1..]| && keys[1..][i] == key && Truthy(values[1..][i]);
        assert keys[i + 1] == key && Truthy(values[i + 1]);
      }
    }
  }

  /** A key the steps never set keeps its initial value. */
  lemma {:induction false} PutAllKeeps(params: map<string, string>, keys: seq<string>,
                                       values: seq<Option<string>>, key: string)
    requires |keys| == |values| && key !in keys && key in params
    ensures key in PutAll(params, keys, values) && PutAll(params, keys, values)[key] == params[key]
    decreases |keys|
  {
    if keys != [] {
      assert key != keys[0];
      assert forall k :: k in keys[1..] ==> k in keys;
      PutAllKeeps(PutIfTruthy(params, keys[0], values[0]), keys[1..], values[1..], key);
    }
  }

  /** With distinct keys, a truthy value ends up under its own key. */
  lemma {:induction false} PutAllSets(params: map<string, string>, keys: seq<string>,
                                      values: seq<Option<string>>, i: nat)
    requires |keys| == |values| && i < |keys| && Truthy(values[i])
    requires forall a, b :: 0 <= a < b < |keys| ==> keys[a] != keys[b]
    ensures keys[i] in PutAll(params, keys, values)
    ensures PutAll(params, keys, values)[keys[i]] == values[i].value
    decreases |keys|
  {
    if i == 0 {
      var next := PutIfTruthy(params, keys[0], values[0]);
      assert keys[0] !in keys[1..] by {
        forall k | 0 <= k < |keys[1..]| ensures keys[1..][k] != keys[0] {
          assert keys[1..][k] == keys[k + 1];
        }
      }
      PutAllKeeps(next, keys[1..], values[1..], keys[0]);
    } else {
      assert keys[1..][i - 1] == keys[i] && values[1..][i - 1] == values[i];
      PutAllSets(PutIfTruthy(params, keys[0], values[0]), keys[1..], values[1..], i - 1);
    }
  }

  /** The field keys are pairwise distinct and differ from the credential keys. */
  lemma FieldKeysDistinct()
    ensures forall a, b :: 0 <= a < b < |FieldKeys| ==> FieldKeys[a] != FieldKeys[b]
    ensures AuthIdKey !in FieldKeys && AuthTokenKey !in FieldKeys
  {
  }

  /** The credentials are always sent, whatever the request holds. */
  lemma CredentialsAlwaysSent(req: AddressValidationRequest, creds: Credentials)
    ensures AuthIdKey in QueryParams(req, creds) && QueryParams(req, creds)[AuthIdKey] == creds.authId
    ensures AuthTokenKey in QueryParams(req, creds) && QueryParams(req, creds)[AuthTokenKey] == creds.authToken
  {
    FieldKeysDistinct();
    PutAllKeeps(Credential(creds), FieldKeys, FieldValues(req), AuthIdKey);
    PutAllKeeps(Credential(creds), FieldKeys, FieldValues(req), AuthTokenKey);
  }

  /** A field is sent iff its value is truthy, and then with that value. */
  lemma FieldSentIff(req: AddressValidationRequest, creds: Credentials, i: nat)
    requires i < |FieldKeys|
    ensures FieldKeys[i] in QueryParams(req, creds) <==> Truthy(FieldValues(req)[i])
    ensures FieldKeys[i] in QueryParams(req, creds) ==>
      QueryParams(req, creds)[FieldKeys[i]] == FieldValues(req)[i].value
  {
    var vs := FieldValues(req);
    FieldKeysDistinct();
    PutAllKeys(Credential(creds), FieldKeys, vs, FieldKeys[i]);
    if Truthy(vs[i]) {
      PutAllSets(Credential(creds), FieldKeys, vs, i);
    } else {
      assert FieldKeys[i] !in Credential(creds);
    }
  }

  /** The string fields are sent verbatim exactly when they are truthy: an empty or
      absent street, say, is left out of the query. */
  lemma StringFieldsSentVerbatim(req: AddressValidationRequest, creds: Credentials)
    ensures "street" in QueryParams(req, creds) <==> Truthy(req.street)
    ensures Truthy(req.street) ==> QueryParams(req, creds)["street"] == req.street.value
    ensures "street2" in QueryParams(req, creds) <==> Truthy(req.street2)
    ensures Truthy(req.street2) ==> QueryParams(req, creds)["street2"] == req.street2.value
    ensures "city" in QueryParams(req, creds) <==> Truthy(req.city)
    ensures Truthy(req.city) ==> QueryParams(req, creds)["city"] == req.city.value
    ensures "state" in QueryParams(req, creds) <==> Truthy(req.state)
    ensures Truthy(req.state) ==> QueryParams(req, creds)["state"] == req.state.value
    ensures "zipcode" in QueryParams(req, creds) <==> Truthy(req.zipcode)
    ensures Truthy(req.zipcode) ==> QueryParams(req, creds)["zipcode"] == req.zipcode.value
    ensures "addressee" in QueryParams(req, creds) <==> Truthy(req.addressee)
    ensures Truthy(req.addressee) ==> QueryParams(req, creds)["addressee"] == req.addressee.value
    ensures "match" in QueryParams(req, creds) <==> Truthy(req.matchMode)
    ensures Truthy(req.matchMode) ==> QueryParams(req, creds)["match"] == req.matchMode.value
    ensures "format" in QueryParams(req, creds) <==> Truthy(req.format)
    ensures Truthy(req.format) ==> QueryParams(req, creds)["format"] == req.format.value
  {
    FieldSentIff(req, creds, 0);
    FieldSentIff(req, creds, 1);
    FieldSentIff(req, creds, 2);
    FieldSentIff(req, creds, 3);
    FieldSentIff(req, creds, 4);
    FieldSentIff(req, creds, 5);
    FieldSentIff(req, creds, 7);
    FieldSentIff(req, creds, 8);
  }

  /** `candidates` is sent iff it is non-zero, as a decimal numeral that reads back as its value. */
  lemma CandidatesSentAsDecimal(req: AddressValidationRequest, creds: Credentials)
    ensures CandidatesKey in QueryParams(req, creds) <==> TruthyNumber(req.candidates)
    ensures CandidatesKey in QueryParams(req, creds) ==>
      QueryParams(req, creds)[CandidatesKey] == NumberToString(req.candidates.value) &&
      ParseNumber(QueryParams(req, creds)[CandidatesKey]) == req.candidates.value
  {
    FieldSentIff(req, creds, 6);
  }

  /** Nothing but the credentials and the request's own fields is sent. */
  lemma OnlyKnownKeys(req: AddressValidationRequest, creds: Credentials, key: string)
    requires key in QueryParams(req, creds)
    ensures key == AuthIdKey || key == AuthTokenKey || key in FieldKeys
  {
    PutAllKeys(Credential(creds), FieldKeys, FieldValues(req), key);
  }

  /** The query map as the builder assembles it, one field at a time in source order. */
  lemma QueryParamsByFields(req: AddressValidationRequest, creds: Credentials)
    ensures QueryParams(req, creds) ==
      PutIfTruthy(PutIfTruthy(PutIfTruthy(PutIfTruthy(PutIfTruthy(PutIfTruthy(PutIfTruthy(PutIfTruthy(PutIfTruthy(
        Credential(creds), "street", req.street), "street2", req.street2), "city", req.city),
        "state", req.state), "zipcode", req.zipcode), "addressee", req.addressee),
        CandidatesKey, CandidatesParam(req.candidates)), "match", req.matchMode), "format", req.format)
  {
    PutAllNine(Credential(creds), FieldKeys, FieldValues(req));
  }

  /** Nine steps of the fold, spelled out. */
  lemma PutAllNine(params: map<string, string>, keys: seq<string>, values: seq<Option<string>>)
    requires |keys| == 9 && |values| == 9
    ensures PutAll(params, keys, values) ==
      PutIfTruthy(PutIfTruthy(PutIfTruthy(PutIfTruthy(PutIfTruthy(PutIfTruthy(PutIfTruthy(PutIfTruthy(PutIfTruthy(
        params, keys[0], values[0]), keys[1], values[1]), keys[2], values[2]), keys[3], values[3]),
        keys[4], values[4]), keys[5], values[5]), keys[6], values[6]), keys[7], values[7]), keys[8], values[8])
  {
    var p1 := PutIfTruthy(params, keys[0], values[0]);
    var p2 := PutIfTruthy(p1, keys[1], values[1]);
    var p3 := PutIfTruthy(p2, keys[2], values[2]);
    var p4 := PutIfTruthy(p3, keys[3], values[3]);
    var p5 := PutIfTruthy(p4, keys[4], values[4]);
    var p6 := PutIfTruthy(p5, keys[5], values[5]);
    var p7 := PutIfTruthy(p6, keys[6], values[6]);
    var p8 := PutIfTruthy(p7, keys[7], values[7]);
    PutAllStep(params, keys, values, 0);
    PutAllStep(p1, keys, values, 1);
    PutAllStep(p2, keys, values, 2);
    PutAllStep(p3, keys, values, 3);
    PutAllStep(p4, keys, values, 4);
    PutAllStep(p5, keys, values, 5);
    PutAllStep(p6, keys, values, 6);
    PutAllStep(p7, keys, values, 7);
    PutAllStep(p8, keys, values, 8);
    assert keys[0..] == keys;
    assert keys[9..] == [];
  }

  /** One step of the fold, taken from position `k` of the keys. */
  lemma PutAllStep(params: map<string, string>, keys: seq<string>, values: seq<Option<string>>, k: nat)
    requires |keys| == |values| && k < |keys|
    ensures PutAll(params, keys[k..], values[k..]) ==
      PutAll(PutIfTruthy(params, keys[k], values[k]), keys[k + 1..], values[k + 1..])
  {
    assert keys[k..][1..] == keys[k + 1..];
    assert values[k..][1..] == values[k + 1..];
  }

  const ClientErrorPrefix := "Smarty API error: "

  /** The message of the error rethrown for an HTTP-client failure:
      "Smarty API error: <status> <statusText> - <body or message>", where an
      absent response renders as `undefined` and an empty body falls back to the
      client's own message. */
  function ClientErrorMessage(response: Option<HttpResponse>, message: string): string
  {
    var status := if response.Some? then NumberToString(response.value.status) else "undefined";
    var statusText := if response.Some? then response.value.statusText else "undefined";
    var errorText := if response.Some? && |response.value.body| > 0 then response.value.body else message;
    ClientErrorPrefix + (status + (" " + (statusText + (" - " + errorText))))
  }

  /** How the call settles: the payload is returned; a client failure is rethrown
      as an `Error` with the formatted message; anything else propagates unchanged. */
  function SettleReply(reply: Reply): CallResult
  {
    match reply
    case Delivered(payload) => Returned(payload)
    case ClientFailure(response, message) => Threw(ErrorObject(ClientErrorMessage(response, message)))
    case OtherFailure(isError, message) => Threw(if isError then ErrorObject(message) else NonError)
  }

  /** The error text a caller reports for a thrown value
      (`error instanceof Error ? error.message : 'Unknown error'`). */
  function CaughtMessage(t: Thrown): string
  {
    if t.ErrorObject? then t.message else "Unknown error"
  }

  lemma Status401()
    ensures NumberToString(401) == "401"
  {
    assert NatToDecimal(4) == "4";
    assert NatToDecimal(40) == "40";
  }

  /** The recorded 401 scenario. */
  lemma UnauthorizedMessage()
    ensures ClientErrorMessage(Some(HttpResponse(401, "Unauthorized", "Invalid credentials")),
      "Request failed with status code 401")
      == "Smarty API error: " + "401" + " " + "Unauthorized" + " - " + "Invalid credentials"
  {
    Status401();
  }

  /** Without a response, status and status text read `undefined` and the client's message follows. */
  lemma NoResponseMessage(message: string)
    ensures ClientErrorMessage(None, message) == "Smarty API error: undefined undefined - " + message
  {
  }

  /** A numeral is free of spaces. */
  lemma NumeralHasNoSpace(n: int)
    ensures ' ' !in NumberToString(n)
  {
    var d := NatToDecimal(if n < 0 then -n else n);
    assert forall k :: 0 <= k < |d| ==> d[k] != ' ';
    if n < 0 {
      assert NumberToString(n) == "-" + d;
    }
  }

  /** Two space-free words followed by a space in equal strings are the same word. */
  lemma SameWordBeforeSpace(a: string, b: string, x: string, y: string)
    requires ' ' !in a && ' ' !in b
    requires a + (" " + x) == b + (" " + y)
    ensures a == b
  {
    var l := a + (" " + x);
    assert l[|a|] == ' ';
    assert (b + (" " + y))[|b|] == ' ';
    assert a == l[..|a|];
    assert b == l[..|b|];
  }

  /** The formatted message preserves the HTTP status: equal messages come from equal statuses. */
  lemma ClientErrorKeepsStatus(r1: HttpResponse, m1: string, r2: HttpResponse, m2: string)
    requires ClientErrorMessage(Some(r1), m1) == ClientErrorMessage(Some(r2), m2)
    ensures r1.status == r2.status
  {
    var e1 := if |r1.body| > 0 then r1.body else m1;
    var e2 := if |r2.body| > 0 then r2.body else m2;
    var s1 := NumberToString(r1.status);
    var s2 := NumberToString(r2.status);
    var t1 := r1.statusText + (" - " + e1);
    var t2 := r2.statusText + (" - " + e2);
    assert s1 + (" " + t1) == s2 + (" " + t2) by {
      var p := |ClientErrorPrefix|;
      assert (ClientErrorPrefix + (s1 + (" " + t1)))[p..] == s1 + (" " + t1);
      assert (ClientErrorPrefix + (s2 + (" " + t2)))[p..] == s2 + (" " + t2);
    }
    NumeralHasNoSpace(r1.status);
    NumeralHasNoSpace(r2.status);
    SameWordBeforeSpace(s1, s2, t1, t2);
    NumberToStringInjective(r1.status, r2.status);
  }
}

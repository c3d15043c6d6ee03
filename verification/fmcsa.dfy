/**
 * `verify_mc_number`: looks a motor-carrier (MC) number up in the FMCSA carrier
 * registry and turns the registry's answer into a `FMCSAVerifyResponse`.
 *
 * The HTTP request is a parameter (`fetch`): it is given the stripped MC number and
 * the registry key and answers with a `Reply`. Everything the handler decides from
 * that reply is modelled here.
 */
module Fmcsa {
  import opened Wrappers
  import opened PyText
  import opened PyValue

  /**
   * The registry's answer: the HTTP status, the body text, and `response.json()`,
   * which is either the decoded body or the message of the decoding error.
   */
  datatype Reply = Reply(status: nat, text: string, json: Result<Value, string>)

  /** `FMCSAVerifyResponse` */
  datatype VerifyResponse = VerifyResponse(
    mcNumber: string,
    isValid: bool,
    carrierName: Option<string>,
    operatingStatus: Option<string>,
    details: map<string, Value>)

  /**
   * The parts of Python the handler leans on without showing them: `str(v)` of a
   * decoded body that is not a string, and the message of the validation error
   * `FMCSAVerifyResponse` raises when `carrier_name` is given a value that is
   * neither `None` nor a string.
   */
  datatype Host = Host(render: Value -> string, nameRejected: Value -> string)

  const KEY_NOT_CONFIGURED: string := "FMCSA_API_KEY is not configured. Please set it in your .env file."
  const UNEXPECTED_ERROR: string := "Error verifying MC number: "

  const PARSE_FAILED: string := "Failed to parse FMCSA API response"
  const UNEXPECTED_FORMAT: string := "FMCSA API returned unexpected format"
  const CARRIER_NOT_FOUND: string := "Carrier not found or invalid MC number"
  const NOT_IN_DATABASE: string := "MC number not found in FMCSA database"
  const STATUS_PREFIX: string := "FMCSA API returned status "

  /** The raw body is cut to 500 characters in the details of a 200 reply that cannot be used. */
  const RAW_LIMIT: nat := 500
  /** The body of an error status is cut to 200 characters. */
  const MESSAGE_LIMIT: nat := 200

  /** A response that says the MC number is not a valid carrier. */
  function Invalid(mcNumber: string, details: map<string, Value>): VerifyResponse {
    VerifyResponse(mcNumber, false, None, None, details)
  }

  /** `content` if it is a dict, otherwise `{}`. */
  function CarrierInfo(content: Value): map<string, Value> {
    if content.Dict? then content.entries else map[]
  }

  /**
   * `carrier_info.get(key, "").upper()`: an absent key reads as `""`; a present value
   * that is not a string has no `upper` and raises `AttributeError`, whose message
   * is the failure.
   */
  function UpperField(info: map<string, Value>, key: string): (r: Result<string, string>)
    ensures key !in info ==> r == Success("")
    ensures key in info ==> (r.Success? <==> info[key].Str?)
    ensures r.Success? ==> |r.value| == |GetOr(info, key, Str("")).s|
  {
    var v := GetOr(info, key, Str(""));
    if v.Str? then
      assert |Upper(v.s)| == |v.s|;
      Success(Upper(v.s))
    else Failure("'" + TypeName(v) + "' object has no attribute 'upper'")
  }

  /**
   * The if/elif decision over the upper-cased `allowToOperate` and `outOfService`: one
   * of four statuses, and OUT_OF_SERVICE whenever `outOfService` is "Y", whatever
   * `allowToOperate` says.
   */
  function OperatingStatus(allowToOperate: string, outOfService: string): (status: string)
    ensures status in {"OUT_OF_SERVICE", "ACTIVE", "NOT_ALLOWED", "UNKNOWN"}
    ensures status == "OUT_OF_SERVICE" <==> outOfService == "Y"
  {
    if outOfService == "Y" then "OUT_OF_SERVICE"
    else if allowToOperate == "Y" then "ACTIVE"
    else if allowToOperate == "N" then "NOT_ALLOWED"
    else "UNKNOWN"
  }

  predicate IsYes(s: string) { s == "Y" || s == "y" }
  predicate IsNo(s: string) { s == "N" || s == "n" }

  /**
   * The decision read on the registry's own strings: `outOfService` of "Y" in either
   * case means OUT_OF_SERVICE whatever `allowToOperate` says; otherwise "Y" means
   * ACTIVE, "N" means NOT_ALLOWED and anything else UNKNOWN.
   */
  lemma {:induction false} OperatingStatusDecision(allowToOperate: string, outOfService: string)
    ensures var status := OperatingStatus(Upper(allowToOperate), Upper(outOfService));
            && (status == "OUT_OF_SERVICE" <==> IsYes(outOfService))
            && (status == "ACTIVE" <==> !IsYes(outOfService) && IsYes(allowToOperate))
            && (status == "NOT_ALLOWED" <==> !IsYes(outOfService) && IsNo(allowToOperate))
            && (status == "UNKNOWN" <==> !IsYes(outOfService) && !IsYes(allowToOperate) && !IsNo(allowToOperate))
  {
    UpperIsLetter(outOfService, 'Y');
    UpperIsLetter(allowToOperate, 'Y');
    UpperIsLetter(allowToOperate, 'N');
  }

  /**
   * The response for a registry entry whose `content` is not `None`. Either upper-casing
   * can raise, and so can a carrier name that is neither `None` nor a string; any of
   * these is caught by the handler's last `except` and becomes a 500.
   */
  function Found(mcNumber: string, data: map<string, Value>, content: Value, host: Host): (r: Result<VerifyResponse, HttpError>)
    ensures r.Success? ==> && r.value.isValid && r.value.mcNumber == mcNumber && r.value.details == data
                           && r.value.operatingStatus.Some?
    ensures r.Failure? ==> r.error.status == 500 && UNEXPECTED_ERROR <= r.error.detail
    ensures var info := CarrierInfo(content);
            var name := Or(Get(info, "legalName"), Get(info, "dbaName"));
            r.Failure? <==> || ("allowToOperate" in info && !info["allowToOperate"].Str?)
                            || ("outOfService" in info && !info["outOfService"].Str?)
                            || (!name.Null? && !name.Str?)
  {
    var info := CarrierInfo(content);
    match UpperField(info, "allowToOperate")
    case Failure(e) => Failure(HttpError(500, UNEXPECTED_ERROR + e))
    case Success(allow) =>
      match UpperField(info, "outOfService")
      case Failure(e) => Failure(HttpError(500, UNEXPECTED_ERROR + e))
      case Success(outOfService) =>
        var name := Or(Get(info, "legalName"), Get(info, "dbaName"));
        var status := Some(OperatingStatus(allow, outOfService));
        if name.Null? then Success(VerifyResponse(mcNumber, true, None, status, data))
        else if name.Str? then Success(VerifyResponse(mcNumber, true, Some(name.s), status, data))
        else Failure(HttpError(500, UNEXPECTED_ERROR + host.nameRejected(name)))
  }

  /** The response for the registry's reply about the (already stripped) MC number. */
  function Interpret(mcNumber: string, reply: Reply, host: Host): (r: Result<VerifyResponse, HttpError>)
    ensures r.Success? ==> r.value.mcNumber == mcNumber
    ensures r.Success? && !r.value.isValid ==> r.value.carrierName == None && r.value.operatingStatus == None
    ensures r.Failure? ==> r.error.status == 500
  {
    if reply.status == 200 then
      match reply.json
      case Failure(parseError) =>
        Success(Invalid(mcNumber, map["error" := Str(PARSE_FAILED),
                                      "raw_response" := Str(SliceTo(reply.text, RAW_LIMIT)),
                                      "parse_error" := Str(parseError)]))
      case Success(data) =>
        if !data.Dict? then
          Success(Invalid(mcNumber, map["error" := Str(UNEXPECTED_FORMAT),
                                        "raw_response" := Str(SliceTo(Text(data, host.render), RAW_LIMIT))]))
        else if Get(data.entries, "content").Null? then
          Success(Invalid(mcNumber, map["error" := Str(CARRIER_NOT_FOUND), "raw_response" := data]))
        else
          Found(mcNumber, data.entries, Get(data.entries, "content"), host)
    else if reply.status == 404 then
      Success(Invalid(mcNumber, map["error" := Str(NOT_IN_DATABASE)]))
    else
      Success(Invalid(mcNumber, map["error" := Str(STATUS_PREFIX + Decimal(reply.status)),
                                    "message" := Str(SliceTo(reply.text, MESSAGE_LIMIT))]))
  }

  /**
   * `verify_mc_number(request)`: strip the MC number, refuse to run without a registry
   * key, otherwise ask the registry and interpret its reply.
   */
  function Verify(mcRaw: string, apiKey: string, fetch: (string, string) -> Reply, host: Host): (r: Result<VerifyResponse, HttpError>)
    ensures apiKey == "" ==> r == Failure(HttpError(500, KEY_NOT_CONFIGURED))
    ensures r.Success? ==> r.value.mcNumber == Strip(mcRaw)
    ensures r.Failure? ==> r.error.status == 500
    ensures apiKey != "" && fetch(Strip(mcRaw), apiKey).status == 404 ==>
              r == Success(Invalid(Strip(mcRaw), map["error" := Str(NOT_IN_DATABASE)]))
  {
    var mcNumber := Strip(mcRaw);
    if apiKey == "" then Failure(HttpError(500, KEY_NOT_CONFIGURED))
    else Interpret(mcNumber, fetch(mcNumber, apiKey), host)
  }

  // ----- properties -----

  /** Without a registry key the handler fails with 500, and the registry is never asked. */
  lemma MissingKeyFailsBeforeLookup(mcRaw: string, fetch: (string, string) -> Reply,
                                    fetch': (string, string) -> Reply, host: Host)
    ensures Verify(mcRaw, "", fetch, host) == Failure(HttpError(500, KEY_NOT_CONFIGURED))
    ensures Verify(mcRaw, "", fetch, host) == Verify(mcRaw, "", fetch', host)
  {
  }

  /** Only a 200 reply whose body is a dict with a non-`None` `content` can fail or be valid. */
  lemma {:induction false} OnlyFoundCarrierIsValid(mcNumber: string, reply: Reply, host: Host)
    ensures var r := Interpret(mcNumber, reply, host);
            (r.Failure? || r.value.isValid) ==>
              && reply.status == 200 && reply.json.Success? && reply.json.value.Dict?
              && !Get(reply.json.value.entries, "content").Null?
    ensures var r := Interpret(mcNumber, reply, host);
            r.Failure? ==> r.error.status == 500 && |UNEXPECTED_ERROR| <= |r.error.detail|
                           && r.error.detail[..|UNEXPECTED_ERROR|] == UNEXPECTED_ERROR
  {
  }

  /**
   * The replies that say the number is not a valid carrier, each with its own error:
   * an undecodable body, a body that is not a dict, a `None` or absent `content`, a
   * 404, and every other status but 200.
   */
  lemma InvalidReplies(mcNumber: string, reply: Reply, host: Host)
    ensures var r := Interpret(mcNumber, reply, host);
            (reply.status == 200 && reply.json.Failure?) ==>
              r.Success? && !r.value.isValid && r.value.details["error"] == Str(PARSE_FAILED)
              && r.value.details["parse_error"] == Str(reply.json.error)
    ensures var r := Interpret(mcNumber, reply, host);
            (reply.status == 200 && reply.json.Success? && !reply.json.value.Dict?) ==>
              r.Success? && !r.value.isValid && r.value.details["error"] == Str(UNEXPECTED_FORMAT)
    ensures var r := Interpret(mcNumber, reply, host);
            (reply.status == 200 && reply.json.Success? && reply.json.value.Dict?
             && Get(reply.json.value.entries, "content").Null?) ==>
              r.Success? && !r.value.isValid && r.value.details["error"] == Str(CARRIER_NOT_FOUND)
              && r.value.details["raw_response"] == reply.json.value
    ensures var r := Interpret(mcNumber, reply, host);
            reply.status == 404 ==>
              r == Success(VerifyResponse(mcNumber, false, None, None, map["error" := Str(NOT_IN_DATABASE)]))
    ensures var r := Interpret(mcNumber, reply, host);
            reply.status != 200 && reply.status != 404 ==>
              r.Success? && !r.value.isValid && r.value.carrierName == None && r.value.operatingStatus == None
              && r.value.details.Keys == {"error", "message"}
              && r.value.details["error"] == Str(STATUS_PREFIX + Decimal(reply.status))
  {
  }

  /**
   * Raw body text copied into the details is a prefix of what it copies: at most 500
   * characters of the body (or of the decoded value's text) for a 200 reply, at most
   * 200 characters of the body for an error status.
   */
  lemma CopiedTextIsBoundedPrefix(mcNumber: string, reply: Reply, host: Host)
    ensures var r := Interpret(mcNumber, reply, host);
            r.Success? && !r.value.isValid && "raw_response" in r.value.details
            && r.value.details["raw_response"].Str? ==>
              var raw := r.value.details["raw_response"].s;
              && |raw| <= 500
              && (reply.json.Failure? ==> raw <= reply.text)
              && (reply.json.Success? ==> raw <= Text(reply.json.value, host.render))
    ensures var r := Interpret(mcNumber, reply, host);
            r.Success? && !r.value.isValid && "message" in r.value.details ==>
              var message := r.value.details["message"];
              message.Str? && |message.s| <= 200 && message.s <= reply.text
  {
  }

  /**
   * A 200 reply with a dict body and a non-`None` `content` whose fields are usable
   * gives a valid response: the carrier name is `legalName`, or `dbaName` when
   * `legalName` is falsy, the operating status follows the decision on the registry's
   * strings, and the details are the whole decoded body.
   */
  lemma FoundCarrier(mcNumber: string, reply: Reply, host: Host,
                      allowToOperate: string, outOfService: string)
    requires reply.status == 200 && reply.json.Success? && reply.json.value.Dict?
    requires !Get(reply.json.value.entries, "content").Null?
    requires var info := CarrierInfo(Get(reply.json.value.entries, "content"));
             && GetOr(info, "allowToOperate", Str("")) == Str(allowToOperate)
             && GetOr(info, "outOfService", Str("")) == Str(outOfService)
    ensures var r := Interpret(mcNumber, reply, host);
            var body := reply.json.value.entries;
            var info := CarrierInfo(Get(body, "content"));
            var name := Or(Get(info, "legalName"), Get(info, "dbaName"));
            && (r.Success? <==> name.Null? || name.Str?)
            && (r.Success? ==>
                  && r.value.isValid && r.value.mcNumber == mcNumber
                  && r.value.details == body
                  && r.value.carrierName == (if name.Str? then Some(name.s) else None)
                  && r.value.operatingStatus == Some(OperatingStatus(Upper(allowToOperate), Upper(outOfService))))
  {
  }

  /** A `content` that is not a dict is read as `{}`: no carrier name, status UNKNOWN. */
  lemma NonDictContentIsUnknown(mcNumber: string, data: map<string, Value>, content: Value, host: Host)
    requires !content.Null? && !content.Dict?
    ensures Found(mcNumber, data, content, host)
            == Success(VerifyResponse(mcNumber, true, None, Some("UNKNOWN"), data))
  {
  }
}

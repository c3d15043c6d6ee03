/**
 * The HappyRobot webhook, which records what happened on a carrier call, and the
 * call-update endpoint.
 *
 * A call record is an object whose columns the handlers set by name (`setattr`), so it
 * is a class whose `columns` map the methods reassign. The database lookup becomes an
 * input (the record found, or `null`), and the record id the database assigns to a new
 * row is a parameter.
 */
module Webhooks {
  import opened Wrappers
  import opened PyValue

  /**
   * `HappyRobotWebhook`, the validated request body. `workflow_id` and `run_id` are
   * accepted and never read, so they are not part of the model.
   */
  datatype Webhook = Webhook(
    callId: Option<string>,
    transcript: Option<string>,
    classification: Option<map<string, Value>>,
    extractedData: Option<map<string, Value>>,
    metadata: Option<map<string, Value>>)

  /** `bool(x)` of an optional string: present and not empty. */
  predicate TruthyText(x: Option<string>) {
    x.Some? && x.value != ""
  }

  /** `bool(x)` of an optional dict: present and not empty. */
  predicate TruthyDict(x: Option<map<string, Value>>) {
    x.Some? && x.value != map[]
  }

  const INVALID_SECRET: HttpError := HttpError(401, "Invalid webhook secret")
  const CALL_ID_REQUIRED: HttpError := HttpError(400, "call_id is required")
  const MC_NUMBER_REQUIRED: HttpError := HttpError(400, "MC number required to create call record")
  const CALL_NOT_FOUND: HttpError := HttpError(404, "Call not found")
  /** An exception the handler does not catch: FastAPI answers 500. */
  const INTERNAL_ERROR: HttpError := HttpError(500, "Internal Server Error")

  /** A column of the `calls` table that the handlers write (the database timestamps aside). */
  datatype Column =
    | CarrierMcNumber | CarrierName | PhoneNumber | LoadId | EndedAt | DurationSeconds
    | Transcript | Outcome | Sentiment | ExtractedData | InitialRate | FinalRate | NegotiationRounds
  {
    /** The attribute name `setattr` is given. */
    function Name(): string {
      match this
      case CarrierMcNumber => "carrier_mc_number"
      case CarrierName => "carrier_name"
      case PhoneNumber => "phone_number"
      case LoadId => "load_id"
      case EndedAt => "ended_at"
      case DurationSeconds => "duration_seconds"
      case Transcript => "transcript"
      case Outcome => "outcome"
      case Sentiment => "sentiment"
      case ExtractedData => "extracted_data"
      case InitialRate => "initial_rate"
      case FinalRate => "final_rate"
      case NegotiationRounds => "negotiation_rounds"
    }
  }

  /** Different columns have different attribute names, so writing by column is writing by name. */
  lemma ColumnNamesDistinct(a: Column, b: Column)
    ensures a.Name() == b.Name() ==> a == b
  {
  }

  /** `extracted_data.get("mc_number")` when `extracted_data` is truthy, else `None`. */
  function NewMcNumber(w: Webhook): Value {
    if TruthyDict(w.extractedData) then Get(w.extractedData.value, "mc_number") else Null
  }

  /**
   * The guard checks, in the handler's order: the webhook secret when one is
   * configured, a truthy `call_id`, and a truthy MC number when there is no record for
   * the call yet. `None` means the request gets through.
   */
  function Admit(configuredSecret: string, header: Option<string>, w: Webhook, recordExists: bool): (refusal: Option<HttpError>)
    ensures refusal.Some? ==> refusal.value in {INVALID_SECRET, CALL_ID_REQUIRED, MC_NUMBER_REQUIRED}
    ensures refusal == Some(INVALID_SECRET) <==> configuredSecret != "" && header != Some(configuredSecret)
  {
    if configuredSecret != "" && header != Some(configuredSecret) then Some(INVALID_SECRET)
    else if !TruthyText(w.callId) then Some(CALL_ID_REQUIRED)
    else if !recordExists && !Truthy(NewMcNumber(w)) then Some(MC_NUMBER_REQUIRED)
    else None
  }

  /**
   * With a secret configured, a request whose `X-Webhook-Secret` header is missing or
   * different is refused with 401 before anything else is looked at.
   */
  lemma WrongSecretRejectedFirst(configuredSecret: string, header: Option<string>, w: Webhook, recordExists: bool)
    requires configuredSecret != "" && header != Some(configuredSecret)
    ensures Admit(configuredSecret, header, w, recordExists) == Some(INVALID_SECRET)
  {
  }

  /**
   * A request gets through exactly when the secret matches (or none is configured),
   * `call_id` is a non-empty string, and, for a call with no record yet,
   * `extracted_data` holds a truthy `mc_number`. The 400s come in that order.
   */
  lemma AdmitIff(configuredSecret: string, header: Option<string>, w: Webhook, recordExists: bool)
    ensures var secretOk := configuredSecret == "" || header == Some(configuredSecret);
            var a := Admit(configuredSecret, header, w, recordExists);
            && (a == None <==>
                  && secretOk
                  && w.callId.Some? && w.callId.value != ""
                  && (recordExists || (TruthyDict(w.extractedData)
                                       && "mc_number" in w.extractedData.value
                                       && Truthy(w.extractedData.value["mc_number"]))))
            && (a == Some(CALL_ID_REQUIRED) <==> secretOk && !TruthyText(w.callId))
            && (a == Some(MC_NUMBER_REQUIRED) <==>
                  secretOk && TruthyText(w.callId) && !recordExists && !Truthy(NewMcNumber(w)))
  {
  }

  // ----- the update map -----

  /** The entries from the transcript, the classification and the extracted data. */
  function Sections(w: Webhook): (entries: map<Column, Value>)
    ensures entries.Keys <= WEBHOOK_COLUMNS - {EndedAt, DurationSeconds}
  {
    var fromTranscript: map<Column, Value> :=
      if TruthyText(w.transcript) then map[Transcript := Str(w.transcript.value)] else map[];
    var withClassification :=
      if TruthyDict(w.classification) then
        var c := w.classification.value;
        fromTranscript[Outcome := Get(c, "outcome")][Sentiment := Get(c, "sentiment")]
      else fromTranscript;
    if TruthyDict(w.extractedData) then
      var e := w.extractedData.value;
      withClassification[ExtractedData := Dict(e)]
                        [LoadId := Get(e, "load_id")]
                        [InitialRate := Get(e, "initial_rate")]
                        [FinalRate := Get(e, "final_rate")]
                        [NegotiationRounds := GetOr(e, "negotiation_rounds", Int(0))]
    else withClassification
  }

  /**
   * `update_data` as the handler builds it from the webhook sections. `parseIso` is
   * `datetime.fromisoformat`: `None` when it raises, and then the whole request fails
   * with 500.
   */
  function UpdateData(w: Webhook, parseIso: Value -> Option<Value>): (r: Result<map<Column, Value>, HttpError>)
    ensures r.Success? ==> r.value.Keys <= WEBHOOK_COLUMNS
    ensures r.Failure? ==> r.error == INTERNAL_ERROR
  {
    var sections := Sections(w);
    if !TruthyDict(w.metadata) then Success(sections)
    else
      var m := w.metadata.value;
      if "ended_at" in m && parseIso(m["ended_at"]).None? then Failure(INTERNAL_ERROR)
      else
        var withEnd := if "ended_at" in m then sections[EndedAt := parseIso(m["ended_at"]).value] else sections;
        Success(if "duration_seconds" in m then withEnd[DurationSeconds := m["duration_seconds"]] else withEnd)
  }

  /** The handler's construction of `update_data`: an empty dict filled one entry at a time. */
  method BuildUpdateData(w: Webhook, parseIso: Value -> Option<Value>) returns (r: Result<map<Column, Value>, HttpError>)
    ensures r == UpdateData(w, parseIso)
  {
    var updateData: map<Column, Value> := map[];
    if TruthyText(w.transcript) {
      updateData := updateData[Transcript := Str(w.transcript.value)];
    }
    if TruthyDict(w.classification) {
      var c := w.classification.value;
      updateData := updateData[Outcome := Get(c, "outcome")];
      updateData := updateData[Sentiment := Get(c, "sentiment")];
    }
    if TruthyDict(w.extractedData) {
      var e := w.extractedData.value;
      updateData := updateData[ExtractedData := Dict(e)];
      updateData := updateData[LoadId := Get(e, "load_id")];
      updateData := updateData[InitialRate := Get(e, "initial_rate")];
      updateData := updateData[FinalRate := Get(e, "final_rate")];
      updateData := updateData[NegotiationRounds := GetOr(e, "negotiation_rounds", Int(0))];
    }
    if TruthyDict(w.metadata) {
      var m := w.metadata.value;
      if "ended_at" in m {
        var parsed := parseIso(m["ended_at"]);
        if parsed.None? {
          return Failure(INTERNAL_ERROR);
        }
        updateData := updateData[EndedAt := parsed.value];
      }
      if "duration_seconds" in m {
        updateData := updateData[DurationSeconds := m["duration_seconds"]];
      }
    }
    return Success(updateData);
  }

  /** The columns the webhook may write. */
  const WEBHOOK_COLUMNS: set<Column> :=
    {Transcript, Outcome, Sentiment, ExtractedData, LoadId, InitialRate, FinalRate, NegotiationRounds,
     EndedAt, DurationSeconds}

  /**
   * What each webhook section contributes: a truthy transcript sets `transcript`; a
   * truthy `classification` supplies `outcome` and `sentiment` (`None` when absent); a
   * truthy `extracted_data` supplies itself, the load and the rates, and
   * `negotiation_rounds`, which is 0 when the key is absent; nothing outside those
   * columns is written.
   */
  lemma {:induction false} UpdateDataSections(w: Webhook, parseIso: Value -> Option<Value>)
    ensures var r := UpdateData(w, parseIso);
            r.Success? ==>
              var u := r.value;
              && u.Keys <= WEBHOOK_COLUMNS
              && (Transcript in u <==> TruthyText(w.transcript))
              && (TruthyText(w.transcript) ==> u[Transcript] == Str(w.transcript.value))
              && (Outcome in u <==> TruthyDict(w.classification))
              && (TruthyDict(w.classification) ==>
                    && u[Outcome] == Get(w.classification.value, "outcome")
                    && u[Sentiment] == Get(w.classification.value, "sentiment"))
              && (NegotiationRounds in u <==> TruthyDict(w.extractedData))
              && (TruthyDict(w.extractedData) ==>
                    && u[ExtractedData] == Dict(w.extractedData.value)
                    && ("negotiation_rounds" !in w.extractedData.value ==> u[NegotiationRounds] == Int(0)))
  {
    SectionEntries(w);
    MetadataKeepsSections(w, parseIso);
  }

  lemma SectionEntries(w: Webhook)
    ensures var u := Sections(w);
            && u.Keys == (if TruthyText(w.transcript) then {Transcript} else {})
                         + (if TruthyDict(w.classification) then {Outcome, Sentiment} else {})
                         + (if TruthyDict(w.extractedData)
                            then {ExtractedData, LoadId, InitialRate, FinalRate, NegotiationRounds} else {})
            && (Transcript in u <==> TruthyText(w.transcript))
            && (Outcome in u <==> TruthyDict(w.classification))
            && (NegotiationRounds in u <==> TruthyDict(w.extractedData))
            && (TruthyText(w.transcript) ==> u[Transcript] == Str(w.transcript.value))
            && (TruthyDict(w.classification) ==>
                  && u[Outcome] == Get(w.classification.value, "outcome")
                  && u[Sentiment] == Get(w.classification.value, "sentiment"))
            && (TruthyDict(w.extractedData) ==>
                  var e := w.extractedData.value;
                  && u[ExtractedData] == Dict(e)
                  && u[LoadId] == Get(e, "load_id")
                  && u[InitialRate] == Get(e, "initial_rate")
                  && u[FinalRate] == Get(e, "final_rate")
                  && u[NegotiationRounds] == GetOr(e, "negotiation_rounds", Int(0)))
  {
  }

  /** The metadata adds `ended_at` and `duration_seconds` and leaves the other entries as they are. */
  lemma MetadataKeepsSections(w: Webhook, parseIso: Value -> Option<Value>)
    ensures var r := UpdateData(w, parseIso);
            r.Success? ==>
              && r.value.Keys <= Sections(w).Keys + {EndedAt, DurationSeconds}
              && forall k :: k != EndedAt && k != DurationSeconds ==>
                   (k in r.value <==> k in Sections(w)) && (k in r.value ==> r.value[k] == Sections(w)[k])
  {
  }

  /**
   * `metadata` only matters when truthy: an `ended_at` that does not parse fails the
   * request with 500, one that parses sets `ended_at`, and `duration_seconds` is copied
   * as given.
   */
  lemma UpdateDataMetadata(w: Webhook, parseIso: Value -> Option<Value>)
    ensures var r := UpdateData(w, parseIso);
            && (r.Failure? <==> TruthyDict(w.metadata) && "ended_at" in w.metadata.value
                                && parseIso(w.metadata.value["ended_at"]).None?)
            && (r.Failure? ==> r.error == INTERNAL_ERROR)
            && (r.Success? ==>
                  && (EndedAt in r.value <==> TruthyDict(w.metadata) && "ended_at" in w.metadata.value)
                  && (DurationSeconds in r.value <==>
                        TruthyDict(w.metadata) && "duration_seconds" in w.metadata.value)
                  && (DurationSeconds in r.value ==>
                        r.value[DurationSeconds] == w.metadata.value["duration_seconds"]))
  {
  }

  // ----- applying updates to a record -----

  /** The entries whose value is not `None`. */
  function NonNull(updates: map<Column, Value>): map<Column, Value> {
    map k | k in updates && !updates[k].Null? :: updates[k]
  }

  /**
   * The columns after `setattr(call, key, value)` for every non-`None` entry: those
   * entries overwrite, every other column keeps its value, and no other column appears.
   */
  lemma AppliedUpdates(columns: map<Column, Value>, updates: map<Column, Value>)
    ensures var after := columns + NonNull(updates);
            && (forall k :: k in updates && !updates[k].Null? ==> k in after && after[k] == updates[k])
            && (forall k :: k in columns && (k !in updates || updates[k].Null?) ==> after[k] == columns[k])
            && (forall k :: k in after ==> k in columns || (k in updates && !updates[k].Null?))
  {
  }

  /**
   * After `setattr(call, key, value)` for every provided entry, `None` included, the
   * provided entries are the new values and every other column keeps its value.
   */
  lemma OverwrittenFields(columns: map<Column, Value>, provided: map<Column, Value>)
    ensures var after := columns + provided;
            && (forall k :: k in provided ==> k in after && after[k] == provided[k])
            && (forall k :: k in columns && k !in provided ==> after[k] == columns[k])
            && after.Keys == columns.Keys + provided.Keys
  {
  }

  /** The columns of a new call record: the three given values, `negotiation_rounds` 0, everything else `None`. */
  function NewCallColumns(mcNumber: Value, carrierName: Value, phoneNumber: Value): map<Column, Value> {
    map[CarrierMcNumber := mcNumber, CarrierName := carrierName, PhoneNumber := phoneNumber,
        LoadId := Null, EndedAt := Null, DurationSeconds := Null, Transcript := Null,
        Outcome := Null, Sentiment := Null, ExtractedData := Null, InitialRate := Null,
        FinalRate := Null, NegotiationRounds := Int(0)]
  }

  /** `metadata.get("phone_number")` when `metadata` is truthy, else `None`. */
  function MetadataPhone(w: Webhook): Value {
    if TruthyDict(w.metadata) then Get(w.metadata.value, "phone_number") else Null
  }

  /** The columns of the record the webhook creates for a call it has not seen. */
  function CreatedColumns(w: Webhook): map<Column, Value>
    requires w.extractedData.Some?
  {
    NewCallColumns(NewMcNumber(w), Get(w.extractedData.value, "carrier_name"), MetadataPhone(w))
  }

  /** The fields of `CallUpdate`, the only ones `update_call` can be given. */
  const CALL_UPDATE_FIELDS: set<Column> :=
    {LoadId, EndedAt, DurationSeconds, Transcript, Outcome, Sentiment, ExtractedData, InitialRate,
     FinalRate, NegotiationRounds}

  /** A row of the `calls` table. The database timestamps are not modelled. */
  class Call {
    const id: nat
    const callId: string
    var columns: map<Column, Value>

    /** `Call(call_id=..., carrier_mc_number=..., carrier_name=..., phone_number=...)`, saved with id `id`. */
    constructor(id: nat, callId: string, mcNumber: Value, carrierName: Value, phoneNumber: Value)
      ensures this.id == id && this.callId == callId
      ensures columns == NewCallColumns(mcNumber, carrierName, phoneNumber)
    {
      this.id := id;
      this.callId := callId;
      columns := NewCallColumns(mcNumber, carrierName, phoneNumber);
    }

    /** The webhook's update loop: `setattr` every entry of `updates` whose value is not `None`. */
    method ApplyUpdates(updates: map<Column, Value>)
      modifies this
      ensures columns == old(columns) + NonNull(updates)
    {
      var pending := updates.Keys;
      while pending != {}
        invariant pending <= updates.Keys
        invariant forall k :: k in updates && k !in pending && !updates[k].Null? ==>
                    k in columns && columns[k] == updates[k]
        invariant forall k :: k in old(columns) && (k in pending || k !in updates || updates[k].Null?) ==>
                    k in columns && columns[k] == old(columns)[k]
        invariant forall k :: k in columns ==>
                    k in old(columns) || (k in updates && k !in pending && !updates[k].Null?)
        decreases pending
      {
        var key :| key in pending;
        if !updates[key].Null? {
          columns := columns[key := updates[key]];
        }
        pending := pending - {key};
      }
      assert columns == old(columns) + NonNull(updates);
    }

    /** The update loop of `update_call`: `setattr` every provided field, `None` included. */
    method SetFields(provided: map<Column, Value>)
      modifies this
      ensures columns == old(columns) + provided
    {
      var pending := provided.Keys;
      while pending != {}
        invariant pending <= provided.Keys
        invariant forall k :: k in provided && k !in pending ==> k in columns && columns[k] == provided[k]
        invariant forall k :: k in old(columns) && (k in pending || k !in provided) ==>
                    k in columns && columns[k] == old(columns)[k]
        invariant forall k :: k in columns ==> k in old(columns) || (k in provided && k !in pending)
        decreases pending
      {
        var key :| key in pending;
        columns := columns[key := provided[key]];
        pending := pending - {key};
      }
      assert columns == old(columns) + provided;
    }
  }

  // ----- the handlers -----

  /**
   * `happyrobot_webhook`. `found` is the record with this `call_id`, or `null`; a new
   * record gets id `newId`. The answer is the record id on success. A new record is
   * saved before the update map is built, so it stays even when `ended_at` fails to
   * parse.
   */
  method HappyRobotWebhook(configuredSecret: string, header: Option<string>, w: Webhook,
                           found: Call?, newId: nat, parseIso: Value -> Option<Value>)
    returns (result: Result<nat, HttpError>, call: Call?)
    requires found != null ==> w.callId == Some(found.callId)
    modifies found
    ensures var refused := Admit(configuredSecret, header, w, found != null);
            refused.Some? ==> result == Failure(refused.value) && call == found
    ensures found != null ==> call == found
    ensures found == null && Admit(configuredSecret, header, w, false).None? ==>
              && call != null && fresh(call) && call.id == newId && call.callId == w.callId.value
              && (UpdateData(w, parseIso).Failure? ==> call.columns == CreatedColumns(w))
    ensures Admit(configuredSecret, header, w, found != null).None? ==>
              call != null &&
              match UpdateData(w, parseIso)
              case Failure(e) => result == Failure(e)
              case Success(u) =>
                && result == Success(call.id)
                && call.columns == (if found != null then old(found.columns) else CreatedColumns(w)) + NonNull(u)
    ensures result.Failure? && found != null ==> found.columns == old(found.columns)
  {
    var refused := Admit(configuredSecret, header, w, found != null);
    if refused.Some? {
      return Failure(refused.value), found;
    }
    call := found;
    if call == null {
      call := new Call(newId, w.callId.value, NewMcNumber(w), Get(w.extractedData.value, "carrier_name"), MetadataPhone(w));
    }
    var updateData := BuildUpdateData(w, parseIso);
    if updateData.Failure? {
      return Failure(updateData.error), call;
    }
    call.ApplyUpdates(updateData.value);
    result := Success(call.id);
  }

  /**
   * `update_call(call_id, call_update)`: 404 when there is no record; otherwise every
   * field the request set explicitly is written, `None` included, and the answer is
   * the record id.
   */
  method UpdateCall(found: Call?, provided: map<Column, Value>) returns (result: Result<nat, HttpError>)
    requires provided.Keys <= CALL_UPDATE_FIELDS
    modifies found
    ensures found == null ==> result == Failure(CALL_NOT_FOUND)
    ensures found != null ==> result == Success(found.id) && found.columns == old(found.columns) + provided
  {
    if found == null {
      return Failure(CALL_NOT_FOUND);
    }
    found.SetFields(provided);
    return Success(found.id);
  }
}

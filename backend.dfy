/**
 * The request boundary of the HTTP service: the declared field bounds and
 * strip-and-reject validators of the two request bodies, the redaction of
 * stored records, the triage handler's history append and monitoring call,
 * the history window and the history reset. The history file is modelled
 * as a list of records that a load may fail to read and a save may fail to
 * write; both outcomes are parameters.
 */
module Backend {
  import opened Wrappers
  import opened PyText
  import opened Seqs
  import opened TriageEngine
  import opened Monitoring

  // ---------------------------------------------------------------- records

  /** The JSON values that the stored records hold. */
  datatype Value =
    | VNone
    | VBool(b: bool)
    | VInt(i: int)
    | VReal(r: real)
    | VStr(s: string)
    | VList(items: seq<Value>)
    | VObject(fields: map<string, Value>)

  /** Python truthiness. */
  predicate Truthy(v: Value) {
    match v
    case VNone => false
    case VBool(b) => b
    case VInt(i) => i != 0
    case VReal(r) => r != 0.0
    case VStr(s) => s != []
    case VList(items) => items != []
    case VObject(fields) => fields != map[]
  }

  /** A JSON object with string keys. */
  type Record = map<string, Value>

  const AllergiesKey := "allergies"
  const Redacted := "REDACTED"

  /**
   * `anonymize_data`: a copy in which a truthy allergies value becomes
   * "REDACTED" and a falsy one becomes None; every other key keeps its value
   * and no key is added or removed.
   */
  function Anonymize(data: Record): (r: Record)
    ensures r.Keys == data.Keys
    ensures forall k | k in data && k != AllergiesKey :: r[k] == data[k]
    ensures AllergiesKey in data && Truthy(data[AllergiesKey]) ==> r[AllergiesKey] == VStr(Redacted)
    ensures AllergiesKey in data && !Truthy(data[AllergiesKey]) ==> r[AllergiesKey] == VNone
  {
    if AllergiesKey in data then
      data[AllergiesKey := if Truthy(data[AllergiesKey]) then VStr(Redacted) else VNone]
    else
      data
  }

  /** Anonymizing twice is anonymizing once: "REDACTED" is itself truthy and None is falsy. */
  lemma AnonymizeIdempotent(data: Record)
    ensures Anonymize(Anonymize(data)) == Anonymize(data)
  {
    if AllergiesKey in data {
      assert Truthy(VStr(Redacted));
    }
  }

  /** A record without an allergies key passes through unchanged. */
  lemma AnonymizeWithoutAllergies(data: Record)
    requires AllergiesKey !in data
    ensures Anonymize(data) == data
  {
  }

  // -------------------------------------------------------------- validation

  /** The declared bounds of the request fields. */
  const SymptomsMinLength := 5
  const SymptomsMaxLength := 1000
  const AgeMin := 0
  const AgeMax := 120
  const AllergiesMaxLength := 500
  const MessageMinLength := 1
  const MessageMaxLength := 500

  /** One validation failure, named after the field and the rule it breaks. */
  datatype FieldError =
    | SymptomsLength
    | SymptomsBlank        // "Symptoms cannot be empty"
    | AgeRange
    | AllergiesLength
    | MessageLength
    | MessageBlank         // "Message cannot be empty"

  /** A validated triage request body. */
  datatype TriageRequest = TriageRequest(symptoms: string, age: Option<int>, allergies: Option<string>)

  /**
   * The after-validator of the symptoms and message fields: blank text is
   * rejected, anything else comes back stripped.
   */
  function StripNotBlank(v: string, blank: FieldError): (r: Result<string, FieldError>)
    ensures r.Failure? <==> IsBlank(v)
    ensures r.Failure? ==> r.error == blank
    ensures r.Success? ==> r.value == Strip(v) && r.value != [] && |r.value| <= |v|
  {
    if v == [] || Strip(v) == [] then Failure(blank) else Success(Strip(v))
  }

  /**
   * The symptoms field: the length bounds are checked on the text as sent,
   * and only text that meets them reaches the after-validator.
   */
  function SymptomsErrors(symptoms: string): seq<FieldError> {
    if !(SymptomsMinLength <= |symptoms| <= SymptomsMaxLength) then [SymptomsLength]
    else if StripNotBlank(symptoms, SymptomsBlank).Failure? then [SymptomsBlank]
    else []
  }

  /** Parsing a triage body: every failing field is reported, in field order. */
  function ParseTriageRequest(symptoms: string, age: Option<int>, allergies: Option<string>)
    : (r: Result<TriageRequest, seq<FieldError>>)
    ensures r.Success? <==>
      && SymptomsMinLength <= |symptoms| <= SymptomsMaxLength && !IsBlank(symptoms)
      && (age.Some? ==> AgeMin <= age.value <= AgeMax)
      && (allergies.Some? ==> |allergies.value| <= AllergiesMaxLength)
    ensures r.Success? ==> r.value == TriageRequest(Strip(symptoms), age, allergies)
    ensures r.Failure? ==>
      && r.error != []
      && (SymptomsLength in r.error <==> !(SymptomsMinLength <= |symptoms| <= SymptomsMaxLength))
      && (SymptomsBlank in r.error <==> SymptomsMinLength <= |symptoms| <= SymptomsMaxLength && IsBlank(symptoms))
      && (AgeRange in r.error <==> age.Some? && !(AgeMin <= age.value <= AgeMax))
      && (AllergiesLength in r.error <==> allergies.Some? && |allergies.value| > AllergiesMaxLength)
  {
    var ageErrors := if age.Some? && !(AgeMin <= age.value <= AgeMax) then [AgeRange] else [];
    var allergyErrors := if allergies.Some? && |allergies.value| > AllergiesMaxLength then [AllergiesLength] else [];
    var errors := SymptomsErrors(symptoms) + ageErrors + allergyErrors;
    if errors == [] then Success(TriageRequest(Strip(symptoms), age, allergies)) else Failure(errors)
  }

  /** Parsing a chat body. */
  function ParseChatRequest(message: string): (r: Result<string, FieldError>)
    ensures r.Success? <==> MessageMinLength <= |message| <= MessageMaxLength && !IsBlank(message)
    ensures r.Success? ==> r.value == Strip(message)
    ensures r.Failure? ==>
      r.error == (if MessageMinLength <= |message| <= MessageMaxLength then MessageBlank else MessageLength)
  {
    if !(MessageMinLength <= |message| <= MessageMaxLength) then Failure(MessageLength)
    else StripNotBlank(message, MessageBlank)
  }

  /**
   * The length bound is checked before stripping, so an accepted symptom
   * text can be shorter than five characters.
   */
  lemma StrippedSymptomsMayBeShort()
    ensures ParseTriageRequest("  ab  ", None, None) == Success(TriageRequest("ab", None, None))
  {
    StripOfExample();
  }

  lemma StripOfExample()
    ensures Strip("  ab  ") == "ab"
  {
    var s := "  ab  ";
    assert IsSpace(' ') && !IsSpace('a') && !IsSpace('b');
    assert SkipSpaces(s, 2) == 2;
    assert SkipSpaces(s, 0) == 2;
    assert TrimSpaces(s, 2, 4) == 4;
    assert TrimSpaces(s, 2, 6) == 4;
    assert s[2..4] == "ab";
  }

  /** A request that passed validation is never rejected by the engine. */
  lemma ValidatedTriageIsClassified(symptoms: string, age: Option<int>, allergies: Option<string>)
    requires ParseTriageRequest(symptoms, age, allergies).Success?
    ensures var req := ParseTriageRequest(symptoms, age, allergies).value;
      Analyze(req.symptoms, req.age, req.allergies) == Success(Classify(Strip(symptoms)))
  {
    StripIdempotent(symptoms);
  }

  /** The same for chat: a validated message always gets a reply. */
  lemma ValidatedChatIsAnswered(message: string)
    requires ParseChatRequest(message).Success?
    ensures Chat(ParseChatRequest(message).value) == Chat(message)
    ensures Chat(message).Success?
  {
    StripIdempotent(message);
  }

  // ----------------------------------------------------------------- history

  /** The record stored for one triage: the symptom text, the label, the confidence and the time. */
  function HistoryEntry(symptoms: string, a: Assessment, timestamp: string): (r: Record)
    ensures r.Keys == {"symptoms", "urgency_level", "confidence", "timestamp"}
    ensures r["symptoms"] == VStr(symptoms) && r["urgency_level"] == VStr(a.urgency.Label())
    ensures r["confidence"] == VReal(a.confidence) && r["timestamp"] == VStr(timestamp)
  {
    map["symptoms" := VStr(symptoms), "urgency_level" := VStr(a.urgency.Label()),
        "confidence" := VReal(a.confidence), "timestamp" := VStr(timestamp)]
  }

  /**
   * The history entry carries no allergies key, so the redaction applied to
   * it before it is stored changes nothing: the symptom text is stored as sent.
   */
  lemma HistoryEntryUnredacted(symptoms: string, a: Assessment, timestamp: string)
    ensures AllergiesKey !in HistoryEntry(symptoms, a, timestamp)
    ensures Anonymize(HistoryEntry(symptoms, a, timestamp)) == HistoryEntry(symptoms, a, timestamp)
    ensures HistoryEntry(symptoms, a, timestamp)["symptoms"] == VStr(symptoms)
  {
    assert AllergiesKey != "symptoms" && AllergiesKey != "urgency_level";
    assert AllergiesKey != "confidence" && AllergiesKey != "timestamp";
  }

  /** What `get_history` returns: the latest records and how many there are in all. */
  datatype HistoryPage = HistoryPage(history: seq<Record>, total: nat)

  const HistoryWindow: nat := 50

  /** `{"history": history[-50:], "total": len(history)}`. */
  function Page(history: seq<Record>): (p: HistoryPage)
    ensures p.total == |history|
    ensures |p.history| == Min(|history|, HistoryWindow)
    ensures p.history == history[|history| - |p.history|..]
  {
    HistoryPage(Last(history, HistoryWindow), |history|)
  }

  /** After one more record the page ends with it, and the window still holds at most 50. */
  lemma PageAfterAppend(history: seq<Record>, entry: Record)
    ensures Page(history + [entry]).total == |history| + 1
    ensures Page(history + [entry]).history[|Page(history + [entry]).history| - 1] == entry
    ensures Page(history + [entry]).history == Last(Page(history).history + [entry], HistoryWindow)
  {
    LastOfLastAppend(history, entry, HistoryWindow);
  }

  /** The history file. */
  class HistoryStore {
    /** What the file holds. */
    var saved: seq<Record>

    constructor ()
      ensures saved == []
    {
      saved := [];
    }

    /** `load_history`: the stored list, or the empty list when the file cannot be read. */
    function Load(readable: bool): (h: seq<Record>)
      reads this
      ensures h == if readable then saved else []
    {
      if readable then saved else []
    }

    /** `save_history`: replaces the file when it can be written; reports whether it was. */
    method Save(history: seq<Record>, writable: bool) returns (ok: bool)
      modifies this
      ensures ok == writable
      ensures saved == if writable then history else old(saved)
    {
      ok := writable;
      if writable {
        saved := history;
      }
    }

    /** `get_history`. */
    function GetHistory(readable: bool): (p: HistoryPage)
      reads this
      ensures readable ==> p.total == |saved| && p.history == Last(saved, HistoryWindow)
      ensures !readable ==> p == HistoryPage([], 0)
    {
      Page(Load(readable))
    }
  }

  // ---------------------------------------------------------------- handlers

  /** The body of a successful triage response. */
  datatype TriageResponse = TriageResponse(
    urgencyLevel: string, confidence: real, advice: string, detectedSymptoms: seq<string>, timestamp: string)

  const TriageEndpoint := "/triage"
  const TriageFailure := "An error occurred processing your request. Please try again."

  /**
   * `triage_symptoms`: classify, append one record to the loaded history and
   * save it, then log the request as a success with its urgency label. When
   * the engine rejects the text, log an error without a label and answer
   * with the generic failure. The clock readings and the latency are
   * parameters, and so are whether the history file reads and writes.
   */
  method TriageSymptoms(
    req: TriageRequest, store: HistoryStore, monitoring: MonitoringService,
    responseTime: string, logTime: string, latency: real, readable: bool, writable: bool)
    returns (r: Result<TriageResponse, string>)
    requires monitoring.Valid()
    modifies store, monitoring
    ensures monitoring.Valid()
    ensures r.Success? <==> !IsBlank(req.symptoms)
    ensures r.Success? ==>
      var a := Classify(Strip(req.symptoms));
      && r.value == TriageResponse(a.urgency.Label(), a.confidence, a.advice, a.detectedSymptoms, responseTime)
      && store.saved ==
           (if writable then old(store.Load(readable)) + [HistoryEntry(req.symptoms, a, responseTime)]
            else old(store.saved))
      && monitoring.log ==
           old(monitoring.log) + [RequestLog(TriageEndpoint, latency, Text("success"), Some(a.urgency.Label()), logTime)]
    ensures r.Failure? ==>
      && r.error == TriageFailure
      && store.saved == old(store.saved)
      && monitoring.log == old(monitoring.log) + [RequestLog(TriageEndpoint, latency, Text("error"), None, logTime)]
  {
    var result := Analyze(req.symptoms, req.age, req.allergies);
    if result.Failure? {
      monitoring.LogRequest(TriageEndpoint, latency, Text("error"), None, logTime);
      return Failure(TriageFailure);
    }
    var a := result.value;
    var response := TriageResponse(a.urgency.Label(), a.confidence, a.advice, a.detectedSymptoms, responseTime);
    var history := store.Load(readable);
    var entry := HistoryEntry(req.symptoms, a, responseTime);
    HistoryEntryUnredacted(req.symptoms, a, responseTime);
    history := history + [Anonymize(entry)];
    var _ := store.Save(history, writable);
    monitoring.LogRequest(TriageEndpoint, latency, Text("success"), Some(a.urgency.Label()), logTime);
    return Success(response);
  }

  const ClearEndpoint := "DELETE /history"
  const ClearedMessage := "History cleared successfully"

  /**
   * `clear_history` as written: the save's result is ignored, so the reply
   * is the success message and the request is logged with status `True`
   * even when the file could not be written.
   */
  method ClearHistory(store: HistoryStore, monitoring: MonitoringService, logTime: string, writable: bool)
    returns (message: string)
    requires monitoring.Valid()
    modifies store, monitoring
    ensures monitoring.Valid()
    ensures message == ClearedMessage
    ensures store.saved == if writable then [] else old(store.saved)
    ensures monitoring.log == old(monitoring.log) + [RequestLog(ClearEndpoint, 0.0, Flag(true), None, logTime)]
    ensures monitoring.metrics.errors == old(monitoring.metrics.errors)
  {
    var _ := store.Save([], writable);
    monitoring.LogRequest(ClearEndpoint, 0.0, Flag(true), None, logTime);
    message := ClearedMessage;
  }
}

# Medical triage assistant — a Dafny model of the triage core

The system takes a free-text description of symptoms. It answers with one
of three urgency tiers:

- `urgence`: emergency;
- `consultation`: see a professional soon;
- `auto-soin`: self-care.

Each answer also carries a confidence, a fixed piece of advice and the
list of symptoms it recognised. A small chat function gives canned replies
to keyword questions. An HTTP layer validates requests and keeps a history
file. Each history record holds the validated symptom text, the label, the
confidence and the time; it has no allergies key, so the redaction step
leaves it as it is. The `/triage` handler and `DELETE /history` report to a
metrics accumulator. `/chat`, `GET /history`, the health and metrics
endpoints and requests rejected by validation are not reported.

This project models that core and proves what it promises:

- `regex.dfy` (`Regex`) gives the regular expressions of the rule tables a
  meaning. A pattern denotes the spans of text it matches, and `re.search`
  succeeds when some span matches. The fragment covers literals, `\b`,
  `\s*`, `.*`, concatenation and alternation.
- `triage_engine.dfy` (`TriageEngine`) models `triage_engine.py`:
  - the three pattern lists;
  - `_detect` as a loop, proved against a filter;
  - `_extract_symptoms` as a loop over the nine-row keyword table;
  - the tier and confidence rules of `analyze`;
  - the keyword replies of `chat`.
- `triage_scenarios.dfy` (`TriageScenarios`) checks the six scripted cases
  of `test_script.py` against the model. It proves the tier and confidence
  each one gets. The proof that a pattern is absent rests on a certificate:
  a character the pattern needs that the text does not contain.
- `monitoring_service.dfy` (`Monitoring`) models `MonitoringService`:
  - a class holding the in-memory metrics record (its one mutable field),
    the start time, and a ghost log of every request;
  - `log_request` as an update of that record;
  - `get_metrics` as a function of it.
  The ghost log, with `Replay`, states what the record means. The counter
  is the number of requests. The request list is the last 1000 requests.
  The error log holds every request whose status was the string `"error"`.
  The distribution counts each urgency label.
- `backend.dfy` (`Backend`) models the request boundary in
  `backend_main.py`:
  - the Pydantic field bounds and validators;
  - `anonymize_data`;
  - the history file, as a class with one field;
  - the `/triage`, `GET /history` and `DELETE /history` handlers.
- `graph_thresholds.dfy` (`GraphThresholds`) models `classify_urgency` of
  `graph_db_service.py`.
- `py_text.dfy` (`PyText`), `seqs.dfy` (`Seqs`) and `wrappers.dfy`
  (`Wrappers`) hold the Python string and list operations the others need:
  `str.strip`, `str.lower`, `in`, slicing and filtering.

The engine's own documentation promises more than its code does. This
model follows the code:

- `analyze` documents `age` as being "for future risk stratification" and
  `allergies` as being "for future medication guidance"
  (triage_engine.py:108-109). Neither is read
  (`AnalyzeDependsOnlyOnStrippedText`).
- The class documentation promises confidence scoring "based on number and
  severity of matches" (triage_engine.py:24-25). The number of matches
  matters only inside the emergency tier (one hit 0.85, two or more 0.9).
  Otherwise the confidence is fixed per tier: 0.7 for consultation, and
  0.7 or 0.6 for self-care with or without a self-care hit.
- Text that matches no pattern is self-care at 0.6.

Some behaviour of the code as written, stated and proved here:

- The length bounds on `symptoms` are checked before stripping. An
  accepted text can therefore be shorter than five characters once
  stripped (`StrippedSymptomsMayBeShort`).
- The error log is never trimmed. Over the whole run the error rate is
  the exact share of errors (`ErrorRateIsErrorShare`).
- The running average latency is computed before the request list is
  trimmed. It is the mean of the last 1001 requests, not of all of them
  (`ReplayMeaning`).
- Only the string status `"error"` counts as an error. `DELETE /history`
  logs the boolean `True` and ignores whether the save worked, so it
  never adds to the error log (`ClearHistory`).

## Model

| member | source | states |
|---|---|---|
| PyText.Strip | triage_engine.py:121-125 | `str.strip()`: the result is empty exactly when the text is blank, it is no longer than the text, and neither end is whitespace |
| PyText.StripIsInfix | triage_engine.py:125 | the stripped text is a contiguous piece of the original with only whitespace before and after it |
| PyText.Lower | triage_engine.py:187 | lower-casing one character: an upper-case ASCII letter becomes its lower-case letter, anything else is unchanged, and the result is never upper-case |
| PyText.Fold | triage_engine.py:187 | `str.lower()`: same length, each character lower-cased; also the text that `re.IGNORECASE` compares against |
| Seqs.Last | monitoring_service.py:78-79 | `s[-n:]` (also the `[-100:]` and `[-50:]` slices): the last `Min(|s|, n)` elements of `s`, in order |
| PyText.StripIdempotent | backend_main.py:78 | stripping an already stripped text changes nothing, so the validator's strip and the engine's strip agree |
| TriageEngine.SymptomNamesDistinct | triage_engine.py:79-89 | the nine symptom names of the keyword table are pairwise different and none is "unspecified" |
| TriageEngine.Matching | triage_engine.py:61-65 | the list `_detect` returns is never longer than the pattern list (its exact content is `MatchingSpec`) |
| TriageEngine.MatchingSpec | triage_engine.py:50-65 | the patterns `_detect` keeps are exactly the listed patterns that `re.search` finds, in list order, without repetition when the list has none |
| TriageEngine.Detect | triage_engine.py:50-65 | the loop of `_detect` returns exactly the filtered pattern list that `MatchingSpec` characterises |
| TriageEngine.HitNamesEmpty | triage_engine.py:91-95 | no symptom name is collected exactly when no row's pattern is found |
| TriageEngine.HitNamesOrder | triage_engine.py:91-95 | the collected names keep table order and are distinct when the table's names are |
| TriageEngine.HitNamesFromTable | triage_engine.py:91-95 | every collected name is the name of a table row whose pattern was found |
| TriageEngine.HitNamesMembership | triage_engine.py:91-95 | with distinct names, a row's name is collected if and only if its pattern is found |
| TriageEngine.Symptoms | triage_engine.py:95 | the symptom list is never empty |
| TriageEngine.SymptomsSpec | triage_engine.py:67-95 | the list is `["unspecified"]` exactly when no keyword matches; otherwise it names, in table order and without repetition, precisely the rows whose pattern is found |
| TriageEngine.ExtractSymptoms | triage_engine.py:67-95 | the loop over the keyword table returns the list `SymptomsSpec` characterises |
| TriageEngine.Advice | triage_engine.py:139-158 | every tier has non-empty advice |
| TriageEngine.Classify | triage_engine.py:128-168 | the chosen tier has evidence (or is the self-care fallback) and no tier with evidence is more severe; confidence 0.9 for two or more emergency hits and 0.85 for one, 0.7 for consultation, 0.7 or 0.6 for self-care with or without hits; the confidence is at least 0.85 exactly for emergencies and lies in the unit interval; the advice belongs to the tier; the symptom list is the extracted one |
| TriageEngine.Analyze | triage_engine.py:97-168 | blank or empty symptoms are rejected with "Symptoms cannot be empty", and anything else is classified after stripping |
| TriageEngine.AnalyzeDependsOnlyOnStrippedText | triage_engine.py:97-133 | age and allergies never change the result, and neither does surrounding whitespace |
| TriageEngine.TierPriority | triage_engine.py:136-159 | emergency evidence decides the tier whatever else matches, and consultation evidence outranks self-care |
| TriageEngine.Chat | triage_engine.py:170-207 | blank messages are rejected; otherwise the stripped, lower-cased message gets the emergency reply if and only if it mentions an emergency keyword, the fever reply if and only if it mentions no emergency keyword and contains "fever", then the doctor reply, then the default, and each reply is non-empty |
| TriageEngine.SeeADoctorIsRedundant | triage_engine.py:200 | the keyword "see a doctor" never decides a reply, because "doctor" already matches |
| TriageScenarios.ChestPainIsEmergency | test_script.py:15-21 | chest pain radiating to the left arm with difficulty breathing is accepted and is an emergency at 0.9 |
| TriageScenarios.StrokeIsEmergency | test_script.py:22-28 | sudden one-sided weakness with slurred speech is an emergency at 0.9 |
| TriageScenarios.PersistentFeverIsConsultation | test_script.py:29-35 | a fever of 39 degrees with a cough is a consultation at 0.7 |
| TriageScenarios.InfectedWoundIsConsultation | test_script.py:36-42 | an infected wound with redness and swelling is a consultation at 0.7 |
| TriageScenarios.CommonColdIsSelfCare | test_script.py:43-49 | a runny nose and a slight sore throat is self-care at 0.7 |
| TriageScenarios.MildHeadacheIsSelfCare | test_script.py:50-56 | a mild headache with tiredness is self-care at 0.7 |
| Regex.SearchIgnoresCase | triage_engine.py:63 | with `re.IGNORECASE`, searching the lower-cased text gives the same answer as searching the text |
| Regex.FoundLiteral | triage_engine.py:92 | a literal that occurs in the text is found by `re.search` |
| Regex.ExcludedNeverMatches | triage_engine.py:63 | a pattern that needs a character absent from the text is not found by `re.search` |
| Regex.SearchLiteralIsContains | triage_engine.py:92 | searching for a plain literal is the substring test |
| Monitoring.Bump | monitoring_service.py:62-67 | a label's count goes up by one, starting at one when the label is new, and every other count is unchanged |
| Monitoring.DistributionCounts | monitoring_service.py:62-67 | the distribution holds each non-empty label exactly as often as it was logged, and no key for a label never logged |
| Monitoring.NoEmptyLevel | monitoring_service.py:62 | a falsy (empty) label is never counted |
| Monitoring.MeanLatencyBounds | monitoring_service.py:70-71 | the mean latency lies between the smallest and largest latency |
| Monitoring.Step | monitoring_service.py:58-79 | one `log_request` update counts one more request, and the request list, at most 1000 long, ends with the new request |
| Monitoring.StepSpec | monitoring_service.py:46-80 | one `log_request` raises the counter by one; the request list ends with the new request and is the most recent 1000 in order; the error log is the old one followed by the request when its status is the string "error", and the old one otherwise; a truthy label gains one count and no other count changes; the average is taken over the list before trimming |
| Monitoring.ReplaySnoc | monitoring_service.py:46-80 | logging one more request applies one more update to the metrics |
| Monitoring.ReplayRequests | monitoring_service.py:58-79 | after any sequence of requests, the request list is the last 1000 of them |
| Monitoring.ReplayErrors | monitoring_service.py:74-75 | after any sequence of requests, the error log holds every request logged with status "error", in order |
| Monitoring.ReplayDistribution | monitoring_service.py:62-67 | the distribution is the label tally of all requests logged |
| Monitoring.ReplayTotal | monitoring_service.py:59 | the counter equals the number of requests logged |
| Monitoring.ReplayAverage | monitoring_service.py:70-79 | the average is 0 before any request and afterwards the mean latency of the last 1001 requests |
| Monitoring.ReplayMeaning | monitoring_service.py:46-80 | the metrics after a sequence of requests are the request count, the last 1000 requests, all the error requests, the label tally and the mean of the last 1001 latencies |
| Monitoring.UpdateCounters | monitoring_service.py:58-79 | the imperative update of `log_request` computes exactly one `Step` |
| Monitoring.RateBounds | monitoring_service.py:100-101 | `count / max(total, 1)` lies in the unit interval when the count is at most the total |
| Monitoring.MonitoringService.constructor | monitoring_service.py:28-35 | the default metrics are empty lists, an empty distribution, a zero counter and a zero average, consistent with an empty log |
| Monitoring.MonitoringService.LogRequest | monitoring_service.py:46-80 | the request is appended to the log, the metrics take one `Step`, and the metrics stay the replay of the log |
| Monitoring.MonitoringService.Metrics | monitoring_service.py:85-118 | with no stored request every figure is zero; otherwise the counter, the average, the mean of the last 100 latencies, both error rates, the distribution and the last timestamp are reported; both rates lie in the unit interval |
| Monitoring.ErrorRateIsErrorShare | monitoring_service.py:74-100 | the reported error rate is the share of all requests ever logged whose status was "error" |
| Backend.Anonymize | backend_main.py:124-130 | the key set is unchanged; a truthy allergies value becomes "REDACTED" and a falsy one None; every other key keeps its value |
| Backend.AnonymizeIdempotent | backend_main.py:124-130 | anonymizing twice is anonymizing once |
| Backend.AnonymizeWithoutAllergies | backend_main.py:128 | a record without an allergies key passes through unchanged |
| Backend.StripNotBlank | backend_main.py:74-78 | blank text is rejected with the field's error; anything else comes back stripped, non-empty and no longer |
| Backend.ParseTriageRequest | backend_main.py:68-78 | a triage body is accepted if and only if symptoms has 5 to 1000 characters and is not blank, age (when given) is in 0..120 and allergies (when given) has at most 500 characters; the accepted symptoms are stripped; a rejection names every failing field and only those |
| Backend.ParseChatRequest | backend_main.py:80-88 | a message is accepted if and only if it has 1 to 500 characters and is not blank; it comes back stripped; a rejection says whether the length or the blankness failed |
| Backend.StrippedSymptomsMayBeShort | backend_main.py:70-78 | "  ab  " passes validation and becomes "ab", shorter than the declared minimum |
| Backend.ValidatedTriageIsClassified | backend_main.py:228-232 | a validated triage request is always classified, on its stripped text |
| Backend.ValidatedChatIsAnswered | backend_main.py:281-293 | a validated chat message always gets a reply, the same one as the raw message |
| Backend.HistoryEntry | backend_main.py:245-250 | the history record has exactly the keys symptoms, urgency_level, confidence and timestamp, holding the symptom text, the tier label, the confidence and the response time |
| Backend.HistoryEntryUnredacted | backend_main.py:245-251 | the history entry has no allergies key, so redaction leaves it unchanged and the validated (already stripped) symptom text is stored unredacted |
| Backend.Page | backend_main.py:310 | the page reports the full count and the most recent at most 50 records, in order |
| Backend.PageAfterAppend | backend_main.py:244-310 | after one more record, the page ends with it, the count rises by one, and the window is the old window plus the record cut back to 50 |
| Backend.HistoryStore.constructor | backend_main.py:104-111 | a history file not yet written holds no records |
| Backend.HistoryStore.Load | backend_main.py:101-111 | the stored list, or the empty list when the file cannot be read |
| Backend.HistoryStore.Save | backend_main.py:113-122 | the file is replaced exactly when it can be written, and the result says whether it was |
| Backend.HistoryStore.GetHistory | backend_main.py:301-310 | a readable file gives its full count and last 50 records; an unreadable one gives an empty page |
| Backend.TriageSymptoms | backend_main.py:211-279 | a request succeeds if and only if its symptoms are not blank; success returns the classification of the stripped text, appends one history entry to the loaded history when the file is writable, and logs one success with the urgency label; failure returns the generic message, leaves the history alone and logs one error without a label; the metrics stay consistent with the log |
| Backend.ClearHistory | backend_main.py:315-330 | the reply is always the success message, the history is emptied when writable, one request with status `True` is logged, and the error log does not change |
| GraphThresholds.ClassifyUrgency | graph_db_service.py:160-168 | the label is CRITICAL if and only if the boosted score is at least 0.85, MODERATE if and only if it is in [0.60, 0.85), and LOW if and only if it is below 0.60 |
| GraphThresholds.RankFollowsScore | graph_db_service.py:160-168 | a higher score never gets a lower label |
| GraphThresholds.MonotoneInConfidence | graph_db_service.py:160-168 | with a non-negative match count, more confidence never lowers the label |
| GraphThresholds.MonotoneInMatched | graph_db_service.py:160-168 | with a non-negative confidence, more matched symptoms never lower the label |
| GraphThresholds.NoMatchesUsesConfidence | graph_db_service.py:160-168 | with no matches, the thresholds apply to the confidence itself |
| GraphThresholds.NonPositiveConfidenceIsLow | graph_db_service.py:160-168 | a confidence of zero or less is LOW whatever the (non-negative) match count |
| GraphThresholds.NegativeMatchesInvertConfidence | graph_db_service.py:160-168 | a negative match count, which the code does not reject, can make more confidence give a lower label |

## Left out

- File persistence is not modelled: the JSON metrics file (`_save_metrics`, and the branch of `_load_metrics` that reads a file) and the JSON history file. The history file is a field whose reads and writes may fail; whether they fail is a parameter.
- Clocks are parameters: `datetime.now()` readings and the latency a handler measures.
- Logging calls (`logger.*`) have no effect on the state and are left out.
- The Neo4j graph service (apart from `classify_urgency`), the AI service, FastAPI routing, CORS, start-up events and the health and metrics endpoints are left out. They are wiring around the core or calls to external systems.
- `get_performance_report` is left out; it is reporting built on `get_metrics`.
- Monitoring.MonitoringService.Metrics: `round(x, 3)` on the two averages is not applied; the exact mean is reported.
- Python floats are modelled as exact reals. Floating-point rounding of latencies, sums and the boosted graph score is not modelled.
- `str.lower` and `\b` are modelled for ASCII letters, digits and `_`. Unicode case folding and Unicode word characters are not.
- The regular expression engine is modelled by which spans a pattern matches, not by Python's backtracking matcher. Only the constructs the rule tables use are covered.
- Backend.ParseTriageRequest: the error values name the failing field and rule; Pydantic's error message text and JSON layout are not modelled.
- `/chat` is modelled by its validator and `chat`. Its exception branch is unreachable once validation has passed (`ValidatedChatIsAnswered`), so the HTTP 500 reply is not modelled.
- Backend.ClearHistory: the exception branch that logs `False` is not modelled. `save_history` catches every error itself, so that branch is not reached in the code as written.
- Monitoring.MonitoringService: a metrics file that holds a different shape of dictionary cannot be loaded in this model, since loading from a file is left out.
- Backend.HistoryStore.Save: a write that fails after the file has been opened for writing can leave it truncated or partly written; the model keeps the old contents in that case, so a half-written history file is not modelled.

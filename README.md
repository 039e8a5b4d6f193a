# Cerberus packet-to-alert pipeline, modelled in Dafny

Cerberus is a small network-monitoring system with two parts:

- **The interceptor.** A sensor that captures packets and turns each IP packet into a flat record: addresses, size, protocol, ports and TCP flag letters. It buffers the records and posts them to the collector in batches of 50.
- **The collector.** A Django backend. Its ingestion endpoint hands each posted batch to a background job. That job:
  1. validates the records and saves them in one transaction;
  2. under a training lock, either collects the raw batch as baseline data for the anomaly detector (training mode) or asks the trained detector which rows are outliers and raises an alert for each;
  3. broadcasts one traffic event per saved record.

  There is also a training endpoint. It starts training mode, and once 100 records have been collected a background fit of a scaler and an isolation forest starts. Its status query reports whether a model is active.

The model, one Dafny module per source file, plus three support modules:

| file | module | models |
|---|---|---|
| `interceptor.dfy` | `Interceptor` | `interceptor/interceptor.py`: flag string, packet normalisation, class `Sensor` (the buffer, flush, capture session) |
| `ml_model.dfy` | `MlModel` | `backend/api/ml_model.py`: feature rows, class `AnomalyDetector` (load, extract, train, predict) |
| `views.dfy` | `Views` | `backend/api/views.py`: class `Collector` (training globals, training endpoint, ingestion endpoint, `process_and_broadcast`, the background fit) |
| `schema.dfy` | `Schema` | `backend/api/models.py`: `TrafficLog`, `Alert`, the column constraints the model serializers check, `TrafficLog.__str__` |
| `pipeline.dfy` | `EndToEnd` | how a sensor record fares at the collector |
| `text.dfy`, `wrappers.dfy` | `Text`, `Wrappers` | Python's `str()`/`int()` on integers, a format-string helper, `Option` |
| `batches.dfy` | `Batches` | a batch processed element by element, each element kept or skipped, with the kept ones numbered in sequence (shared by feature extraction, saving and alerting) |

Modelling choices:

- **Module globals become class fields.**
  - The sensor's `packet_buffer` is a field of `Interceptor.Sensor`. So are the ghost log `sent`, the batches posted, and `captured`, the records accepted.
  - The collector's `training_packets_buffer` and `training_in_progress` are fields of `Views.Collector`. The store is modelled as the sequences `logs` and `alerts`, and the channel-layer broadcasts as the sequence `events`.
- **Each `with lock:` region is one method.** A background thread is recorded rather than run:
  - `IngestPost` appends the accepted batch to `dispatched`. `ProcessAndBroadcast` is the thread body.
  - A fit that is started is appended to `pendingFits`. `RunTrainThread` runs one of them.
- **Ids and outcomes are explicit.**
  - Saved records and alerts get ids 1, 2, 3, … in the order they are saved.
  - A failed transaction is the parameter `transactionFails`; nothing is saved, routed or broadcast.
  - A failing fit or dump is the parameter `failure` of `Train`.
  - The joblib artefacts present on disk are the `Option` parameters of the detector's constructor.
- **The learning itself is an oracle.**
  - A fitted `StandardScaler` or `IsolationForest` is a value that records the matrix it was fitted on.
  - "Row is an outlier" is the detector's function `outlier`, which the model does not interpret.
  - Transforming with an unfitted scaler, or classifying with an unfitted forest, raises. That is `!Usable(..)`, and predict then answers `([], [])`.
- **JSON values are modelled as integers, booleans, strings or null.** A request body is a JSON object, or something else. A record is an object, or anything else. Validation follows the model serializers, whose character fields trim whitespace:
  - a character field takes a string, or an integer as `str()` writes it;
  - the text is first stripped of surrounding whitespace, as Python's `str.strip()` does;
  - a text that is blank once stripped is refused, unless the column allows blank, in which case it is stored as `""`;
  - otherwise the stripped text must fit the column's `max_length` and hold no NUL, and the stripped text is what is stored;
  - an integer field takes an integer, or a string of at most 1000 characters;
  - for a string, the first `.` followed only by zeros and whitespace is dropped, with everything after it, and `int()` then reads the rest: surrounding whitespace, an optional sign, and digits. So `"5.0"` and `"5."` are read as 5.
- **The loops take their step as a parameter.** `SaveBatch` receives the serializer's validation and `RaiseAlerts` receives the alert built for one flagged index. The handler passes `Deserialize` and `AlertStep(saved)`. Each loop is proved to compute `Numbered` of its step, which is `SaveAll` and `AlertsFor` for those arguments.

Two behaviours of the source are worth knowing. The model follows the source in both:

- **Partial replacement in `train`.** `train` replaces the scaler and then the model with fresh objects *before* fitting each. A fit or dump that raises therefore leaves a partly replaced detector, not the prior state.
- **Index shift.** `process_and_broadcast` uses the feature-row indices that `predict` returns as positions in `saved_logs`.
  - When a record is skipped by feature extraction or by validation, but not by both, an alert can name the wrong record or none at all.
  - `Views.ShiftedAlertTarget` shows such a batch.
  - `Views.AlignedWhenAllAccepted` and `EndToEnd.SensorBatchAligned` show when the indices do line up.

## Model

| member | source | states |
|---|---|---|
| Interceptor.GetTcpFlags | interceptor/interceptor.py:16-31 | built letter by letter, the result is the flag string of the TCP header, and `""` when there is no TCP layer |
| Interceptor.FlagStringLetters | interceptor/interceptor.py:19-30 | a letter occurs in the flag string if and only if its flag is set |
| Interceptor.FlagStringOrdered | interceptor/interceptor.py:19-30 | the letters stand in strictly increasing S, A, F, R, P, U order, so none occurs twice |
| Interceptor.Normalize | interceptor/interceptor.py:63-87 | a record exists exactly when the packet has an IP layer |
| Interceptor.NormalizeClassifies | interceptor/interceptor.py:65-87 | addresses and size are copied; the protocol is TCP if TCP is present, else UDP, else ICMP, else UNKNOWN, each as an if-and-only-if; ICMP and UNKNOWN keep both ports 0; non-empty flags imply TCP; ports are in 0..65535 |
| Interceptor.Sensor.constructor | interceptor/interceptor.py:13 | the buffer starts empty, nothing sent or captured |
| Interceptor.Sensor.SendPacketBatch | interceptor/interceptor.py:33-58 | an empty buffer sends nothing and changes nothing; otherwise exactly the buffered records go out as one batch, in order, and the buffer is empty; nothing is restored on failure |
| Interceptor.Sensor.ProcessPacket | interceptor/interceptor.py:60-93 | a packet without IP changes nothing; otherwise exactly its record is appended at the end, and a buffer that reaches 50 is flushed whole; the buffer stays below 50 and every accepted record is sent or buffered, in order |
| Interceptor.Sensor.Sniff | interceptor/interceptor.py:111-121 | after a capture session and the final flush the buffer is empty, and the sent stream is what was sent before, then what was buffered, then the records of the captured packets in capture order |
| MlModel.FeatureRow | backend/api/ml_model.py:35-43 | a row has 7 entries, the last four 0 or 1; missing ports and size give 0, missing flags give no S and no F; only objects yield rows |
| MlModel.Features | backend/api/ml_model.py:31-47 | at most one row per record, each of 7 entries |
| MlModel.RowSourcesSpec | backend/api/ml_model.py:33-46 | row k is the row of record `RowSources[k]`; these positions strictly increase; a record contributes a row exactly when it can be coerced (skipped records keep the rest in input order) |
| MlModel.FeaturesComplete | backend/api/ml_model.py:33-46 | when every record can be coerced, row j is the row of record j |
| MlModel.Prediction | backend/api/ml_model.py:72-89 | what `predict` returns: the anomalous records and their row indices, one record per index; `PredictionSpec` states which |
| MlModel.OutlierIndices | backend/api/ml_model.py:81-84 | the indices strictly increase, are below the row count, and include i exactly when the classifier calls row i an outlier |
| MlModel.PredictionSpec | backend/api/ml_model.py:72-89 | `([], [])` when untrained, when no row is extracted, or when transform or classify raises; otherwise exactly the outlier rows, by strictly increasing row index, with `anomalous_packets[k] == packets[indices[k]]` |
| MlModel.AnomalyDetector.constructor | backend/api/ml_model.py:13-17 | the detector is trained exactly when both artefacts load, and then holds them; otherwise it holds a fresh forest and scaler |
| MlModel.AnomalyDetector.LoadModel | backend/api/ml_model.py:19-29 | trained if and only if both files load; if either is missing, both are reset to fresh ones and the detector is untrained |
| MlModel.AnomalyDetector.ExtractFeatures | backend/api/ml_model.py:31-47 | the loop computes `Features` of the batch |
| MlModel.AnomalyDetector.Train | backend/api/ml_model.py:49-70 | the new model, scaler and `is_trained` are `TrainedFrom` the old ones for the batch's rows and the failing step, if any: fewer than 2 rows: false, nothing changes; success: true, trained, scaler and forest (contamination 0.01, seed 42) fitted on the rows; each failing step: false, with exactly the replacements made before it and `is_trained` unchanged |
| MlModel.TrainedFromSpec | backend/api/ml_model.py:49-70 | training reports success exactly when there are at least 2 rows and no step fails; success leaves a trained detector fitted to those rows; a failure never changes `is_trained` |
| MlModel.AnomalyDetector.Predict | backend/api/ml_model.py:72-89 | returns `Prediction` of the detector's state and the batch |
| Schema.RequiredChar | backend/api/models.py:5-9 | an accepted required text is non-blank, within its length and NUL-free |
| Schema.CharValueSpec | backend/api/serializers.py:5-8 | a character field is accepted exactly when it is text whose stripped form fits its length, holds no NUL, and is non-blank unless blank is allowed; the stored value is the stripped text, which has no surrounding whitespace |
| Schema.StrippedTextStored | backend/api/models.py:5-9 | a required text with no surrounding whitespace that fits its column is stored exactly as sent |
| Schema.OptionalChar | backend/api/models.py:11 | an accepted optional text, when present, is within its length and NUL-free; missing or null is accepted as absent, and a blank text is stored as `""` (`CharValueSpec`) |
| Schema.Deserialize | backend/api/models.py:3-11 | an accepted record is a valid `TrafficLog` with the given id; a non-object is refused |
| Schema.DeserializeStripped | backend/api/serializers.py:5-8 | every text of a saved record has no surrounding whitespace |
| Schema.IntegerValueOfInt | backend/api/models.py:7-10 | a JSON integer is read as `int(re.sub(...))` reads its decimal text |
| Schema.ZeroFractionAccepted | backend/api/models.py:7-10 | an integer's decimal text followed by `.` and any number of zeros, within 1000 characters, is read as that integer |
| Schema.ZeroFractionStrings | backend/api/models.py:7-10 | `"5.0"` and `"5."` are read as 5 |
| Schema.LongIntegerStringRefused | backend/api/models.py:7-10 | an integer given as a string of more than 1000 characters is refused, whatever it holds |
| Schema.SerializeRoundTrip | backend/api/models.py:3-11 | a valid record whose texts have no surrounding whitespace, as every saved record is, survives serialization and validation unchanged |
| Schema.Serialize | backend/api/views.py:121 | `serializer.data` of a saved record: every column under its JSON name, null for absent flags; `SerializeRoundTrip` states that it reads back |
| Schema.LongSourceIpRefused | backend/api/models.py:5 | a source address that is longer than 50 characters, or blank, once stripped is refused whatever the rest |
| Schema.PaddedSourceIpStored | backend/api/models.py:5 | a 52-character source address made of 50 characters with a space on each side is stored as the 50 characters |
| Schema.RenderedSourcePort | backend/api/models.py:13-14 | the rendering starts with the source address and `:`, and the text up to `" -> "` reads back as the source port |
| Schema.RenderTrafficLog | backend/api/models.py:13-14 | `__str__`: `"src:sport -> dst:dport"`; `RenderedSourcePort` states how it reads back |
| Schema.NewAlert | backend/api/models.py:16-20 | an alert is accepted if and only if its stripped message is non-blank, NUL-free and at most 255 characters; it then holds the stripped message, has severity `"Low"`, refers to the given record and is valid |
| Text.IntToStringRoundTrip | backend/api/models.py:14 | `int(str(n)) == n` for the decimal text of every integer |
| Text.StripSpec | backend/api/serializers.py:5-8 | the stripped text is the part of the input between an all-whitespace prefix and an all-whitespace suffix, and neither starts nor ends with whitespace |
| Text.StripIdempotent | backend/api/serializers.py:5-8 | stripping a stripped text changes nothing |
| Views.AlertMessageFits | backend/api/views.py:155-157 | the alert message of any valid record whose ports have at most five digits passes alert validation |
| Views.AlertMessage | backend/api/views.py:158 | the alert text, built from the f-string's eleven parts; `AlertMessageTrimmed` and `AlertMessageFits` state its properties |
| Views.AlertMessageTrimmed | backend/api/views.py:158-161 | the alert text starts with `A` and ends with `)`, so the alert serializer's stripping leaves it unchanged |
| Views.DeserializeIgnoresId | backend/api/views.py:117-121 | whether a record passes validation does not depend on the id it would be saved with |
| Views.SaveAll | backend/api/views.py:115-126 | at most one saved record per input record, each valid, ids consecutive from the first free id |
| Views.SaveAllSpec | backend/api/views.py:115-126 | saved record k is the validated form of batch element `SavedSources[k]`; these positions strictly increase; an element is saved exactly when it passes validation |
| Views.SaveAllComplete | backend/api/views.py:115-126 | a batch whose every record passes validation is saved whole, element j as record j |
| Views.AlertFor | backend/api/views.py:156-171 | the alert for one flagged index, when there is one, refers to the saved record at that index and has the offered id |
| Views.AlertsFor | backend/api/views.py:155-171 | at most one alert per flagged index, built by `AlertFor` with ids in sequence; `AlertsForSpec` states which |
| Views.AlertStepIgnoresId | backend/api/views.py:155-161 | whether a flagged index raises an alert does not depend on the id it would get |
| Views.AlertForSpec | backend/api/views.py:155-161 | an alert for a flagged index exists if and only if the index names a saved record whose alert text validates; it then describes and refers to that record, with severity `"Low"` |
| Views.AlertsForSpec | backend/api/views.py:155-171 | alert k comes from flagged position `AlertSources[k]`: it has id `firstId + k`, severity `"Low"`, the alert text of that saved record and a reference to it, and is valid; these positions strictly increase; a position is a source exactly when its index names a saved record whose alert text validates, so a failing index does not stop the rest |
| Views.AlignedWhenAllAccepted | backend/api/views.py:152-157 | when every record is both coercible and valid, feature row j and saved record j both come from element j |
| Views.ShiftedAlertTarget | backend/api/views.py:153-157 | in a two-record batch whose first record is coercible but invalid, flagging row 0 raises an alert about the second record and flagging row 1 raises none |
| Views.SaveKeepsNumbering | backend/api/views.py:115-126 | saving a batch keeps stored record i at id i + 1 |
| Views.AlertsKeepNumbering | backend/api/views.py:152-171 | raising alerts keeps alert i at id i + 1, each referring to a stored record |
| Views.Collector.constructor | backend/api/views.py:18-21 | not collecting, empty training buffer, empty store, nothing broadcast |
| Views.Collector.ModelTrainingPost | backend/api/views.py:79-100 | while collecting: 400 and neither flag, buffer nor broadcasts change; otherwise 200, collecting, empty buffer, and one system message naming 100 packets |
| Views.Collector.ModelTrainingGet | backend/api/views.py:102-106 | reports `detector.is_trained` and `training_in_progress` |
| Views.Collector.IngestPost | backend/api/views.py:185-192 | 202 if and only if `packets` is a non-empty list, and then exactly that batch is dispatched; 500 if and only if the body is not a JSON object; otherwise 400; nothing is dispatched unless 202 |
| Views.Collector.ProcessAndBroadcast | backend/api/views.py:108-180 | keeps the collector's invariant (buffer below 100, empty when idle, ids in sequence, alerts referring to stored records); a failed transaction changes nothing; otherwise the valid records are saved, then exactly one of training collection and alerting happens, and the traffic events of the saved records follow all alert events |
| Views.Collector.RouteBatch | backend/api/views.py:128-171 | collecting: the batch goes to training and no alert is raised; otherwise alerts for the flagged indices if a model is active, none if not |
| Views.Collector.CollectForTraining | backend/api/views.py:129-150 | the whole raw batch is appended; at 100 or more the buffer is emptied, collecting stops, and one fit is requested on exactly the records collected, overshoot kept |
| Views.Collector.AlertOnAnomalies | backend/api/views.py:152-171 | the alerts are `AlertsFor` the predicted indices, stored and broadcast in order, ids kept in sequence |
| Views.Collector.SaveBatch | backend/api/views.py:115-126 | the loop saves exactly `Numbered` of the batch with the given validation and the next free ids, appended to the store; with `Deserialize` that is `SaveAll` |
| Views.Collector.RaiseAlerts | backend/api/views.py:155-171 | the loop stores and broadcasts exactly `Numbered` of the indices with the given alert step and the next free ids; with `AlertStep(saved)` that is `AlertsFor`; an index that fails does not stop the rest |
| Views.Collector.StoreAlert | backend/api/views.py:161-169 | one saved alert is appended to the store and one alert event to the broadcasts, nothing else |
| Views.Collector.BroadcastTraffic | backend/api/views.py:173-180 | one traffic event per saved record, in order |
| Views.Collector.RunTrainThread | backend/api/views.py:139-148 | the fit is taken off the pending list; the detector's new model, scaler and `is_trained` are `TrainedFrom` the old ones for the fit's rows, so it succeeds if and only if the batch has at least 2 rows and no step fails; one system message reports the outcome |
| EndToEnd.SensorRecordFeatures | backend/api/ml_model.py:35-43 | a sensor record's row is its ports, its length, TCP-ness, UDP-ness, and the SYN and FIN bits of its TCP header |
| EndToEnd.Payloads | interceptor/interceptor.py:50 | the `packets` list posted for a batch holds one object per record, in order; `Payload` maps each field to its JSON name |
| EndToEnd.Payload | interceptor/interceptor.py:65-73 | the JSON object of one record: the seven fields under the names the sensor gives them; `PayloadSaved` states how the collector reads it |
| EndToEnd.PayloadSaved | backend/api/models.py:5-11 | a posted sensor record is saved if and only if its four texts pass validation once stripped; it is saved with the stripped texts and its own integers |
| EndToEnd.SensorFieldsValid | backend/api/models.py:9-11 | a sensor record's protocol and flag string always pass validation, and stripping leaves them as they are |
| EndToEnd.SensorRecordSaved | backend/api/models.py:5-11 | a sensor record is saved if and only if both addresses are non-blank, NUL-free and at most 50 characters once stripped; it is saved with the stripped addresses and its own other fields |
| EndToEnd.SensorBatchAligned | backend/api/views.py:152-157 | a sensor batch whose stripped addresses are valid is saved whole, record j with the stripped addresses of record j, and yields one row per record, so flagged row j names the saved record of packet j |

## Left out

- Threads, locks and the sensor's five-second timer loop: each locked region is one method, and the timer's flush is `SendPacketBatch` called by any client. Interleavings are not modelled.
- Packet capture (`scapy.sniff`), the HTTP post of a batch and its status handling, and joblib loading and dumping: I/O, represented by `Sniff`'s packet sequence, the `sent` log, and the `Option` and `FitFailure` parameters.
- The arithmetic of `StandardScaler` and `IsolationForest`: floating point in a foreign library, replaced by the `outlier` oracle.
- Floats, lists and objects as JSON field values. In integer strings, Python's `_` digit separators and non-ASCII digits are left out, and so is the 4300-digit limit of Python's conversion between integers and text. The model's `int()` reads surrounding whitespace, an optional sign and ASCII digits.
- Exceptions in `_load_model` other than a missing file, and the exception handler of `process_packet` (no step of the modelled normalisation raises).
- The database's 32-bit integer range for ports and size, and the timestamps of both models.
- `Alert.__str__`: it renders the timestamp, which is not modelled.
- Ids consumed by a rolled-back transaction: a failed transaction leaves the id sequence as it was.
- Response message bodies: only status codes are modelled.
- The WebSocket consumer, the serializer classes (their validation is the `Schema` predicates), the authentication and query views, URL routing and the dashboard: none of them is part of this model.
- Schema.RenderedSourcePort: states the source half of the rendering; the destination half is built the same way and is not stated separately.
- Views.AlertMessageFits: requires ports of at most five digits. The sensor's ports always have at most five digits. Larger ports can make the alert fail validation, and the model then skips that alert, like the source.

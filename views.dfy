/**
 * The collector: the training coordinator (Idle while `trainingInProgress` is
 * false, Collecting while it is true), the ingestion endpoint, and the
 * per-batch pipeline that persists records, routes the batch to training or
 * to prediction, and broadcasts traffic, alert and system events.
 */
module Views {
  import opened Wrappers
  import opened Text
  import opened Schema
  import opened MlModel
  import opened Batches

  const TRAINING_SET_SIZE: nat := 100
  const HTTP_OK: nat := 200
  const HTTP_ACCEPTED: nat := 202
  const HTTP_BAD_REQUEST: nat := 400
  const HTTP_INTERNAL_SERVER_ERROR: nat := 500

  const TRAINING_DONE_MESSAGE: string := "Model training complete and is now active."
  const TRAINING_FAILED_MESSAGE: string := "Model training failed. Please check logs."

  /** A message broadcast to every connected observer. */
  datatype Event = Traffic(log: TrafficLog) | AlertRaised(alert: Alert) | System(message: string)

  /**
   * The `packets` member of an ingestion request body; `BodyNotAnObject` when
   * the parsed body is itself not a JSON object (a list, a number, ...), so
   * looking the member up fails.
   */
  datatype PacketsField = BodyNotAnObject | Absent | NotAList | List(items: seq<RawPacket>)

  /** The system message announcing that training mode has started. */
  function TrainingStartMessage(): string
  {
    "Starting ML model training. Collecting " + IntToString(TRAINING_SET_SIZE) + " packets for baseline..."
  }

  /** The parts of the text of the alert raised for a stored record. */
  function AlertMessageParts(log: TrafficLog): seq<Piece>
  {
    [Literal("Anomaly detected: Unusual traffic from "), Literal(log.sourceIp), Literal(":"), Field(log.sourcePort),
     Literal(" to "), Literal(log.destIp), Literal(":"), Field(log.destPort),
     Literal(" ("), Literal(log.protocol), Literal(")")]
  }

  /** The text of the alert raised for a stored record. */
  function AlertMessage(log: TrafficLog): string
  {
    Format(AlertMessageParts(log))
  }

  /** Bounds on the length of each part of an alert message. */
  const ALERT_PART_BOUNDS: seq<nat> := [39, 50, 1, 6, 4, 50, 1, 6, 2, 10, 1]

  lemma AlertPartBoundsSum()
    ensures Sum(ALERT_PART_BOUNDS) == 170
  {
    var b: seq<nat> := [];
    SumSnoc(b, 39); b := b + [39]; assert Sum(b) == 39;
    SumSnoc(b, 50); b := b + [50]; assert Sum(b) == 89;
    SumSnoc(b, 1); b := b + [1]; assert Sum(b) == 90;
    SumSnoc(b, 6); b := b + [6]; assert Sum(b) == 96;
    SumSnoc(b, 4); b := b + [4]; assert Sum(b) == 100;
    SumSnoc(b, 50); b := b + [50]; assert Sum(b) == 150;
    SumSnoc(b, 1); b := b + [1]; assert Sum(b) == 151;
    SumSnoc(b, 6); b := b + [6]; assert Sum(b) == 157;
    SumSnoc(b, 2); b := b + [2]; assert Sum(b) == 159;
    SumSnoc(b, 10); b := b + [10]; assert Sum(b) == 169;
    SumSnoc(b, 1); b := b + [1]; assert Sum(b) == 170;
    assert b == ALERT_PART_BOUNDS;
  }

  /** Each part of an alert message is within its bound and free of NUL, for a record whose ports have at most five digits. */
  lemma AlertPartsBounded(log: TrafficLog)
    requires RequiredText(log.sourceIp, SOURCE_IP_MAX_LENGTH) && RequiredText(log.destIp, DEST_IP_MAX_LENGTH)
    requires RequiredText(log.protocol, PROTOCOL_MAX_LENGTH)
    requires -100000 < log.sourcePort < 100000 && -100000 < log.destPort < 100000
    ensures forall i :: 0 <= i < |AlertMessageParts(log)| ==>
              |PieceText(AlertMessageParts(log)[i])| <= ALERT_PART_BOUNDS[i] && '\0' !in PieceText(AlertMessageParts(log)[i])
  {
    ShortIntToString(log.sourcePort);
    ShortIntToString(log.destPort);
    AlertPartsNulFree(log);
    var p := AlertMessageParts(log);
    forall i | 0 <= i < |p|
      ensures |PieceText(p[i])| <= ALERT_PART_BOUNDS[i]
    {
      if i == 1 {
        assert PieceText(p[i]) == log.sourceIp;
      } else if i == 3 {
        assert PieceText(p[i]) == IntToString(log.sourcePort);
      } else if i == 5 {
        assert PieceText(p[i]) == log.destIp;
      } else if i == 7 {
        assert PieceText(p[i]) == IntToString(log.destPort);
      } else if i == 9 {
        assert PieceText(p[i]) == log.protocol;
      }
    }
  }

  /** No part of an alert message holds NUL when the record's texts hold none. */
  lemma AlertPartsNulFree(log: TrafficLog)
    requires '\0' !in log.sourceIp && '\0' !in log.destIp && '\0' !in log.protocol
    ensures forall i :: 0 <= i < |AlertMessageParts(log)| ==> '\0' !in PieceText(AlertMessageParts(log)[i])
  {
    IntToStringHasNoNul(log.sourcePort);
    IntToStringHasNoNul(log.destPort);
    var p := AlertMessageParts(log);
    forall i | 0 <= i < |p|
      ensures '\0' !in PieceText(p[i])
    {
      if i == 0 {
        assert PieceText(p[i]) == "Anomaly detected: Unusual traffic from ";
      } else if i == 1 {
        assert PieceText(p[i]) == log.sourceIp;
      } else if i == 3 {
        assert PieceText(p[i]) == IntToString(log.sourcePort);
      } else if i == 5 {
        assert PieceText(p[i]) == log.destIp;
      } else if i == 7 {
        assert PieceText(p[i]) == IntToString(log.destPort);
      } else if i == 9 {
        assert PieceText(p[i]) == log.protocol;
      }
    }
  }

  /** An alert message starts with a letter and ends with `)`, so stripping leaves it as it is. */
  lemma AlertMessageTrimmed(log: TrafficLog)
    ensures Strip(AlertMessage(log)) == AlertMessage(log)
  {
    var parts := AlertMessageParts(log);
    var m := AlertMessage(log);
    FormatPrefix(parts);
    assert m[0] == 'A';
    assert m == Format(parts[..10]) + ")";
    assert m[|m| - 1] == ')';
    StripTrimmed(m);
  }

  /** Alert messages fit their column for any stored record whose ports have at most five digits. */
  lemma AlertMessageFits(log: TrafficLog, id: nat)
    requires ValidTrafficLog(log)
    requires -100000 < log.sourcePort < 100000 && -100000 < log.destPort < 100000
    ensures NewAlert(AlertMessage(log), log.id, id).Some?
  {
    AlertMessageTrimmed(log);
    AlertPartBoundsSum();
    AlertPartsBounded(log);
    FormatBound(AlertMessageParts(log), ALERT_PART_BOUNDS);
  }

  /** Whether a record passes validation (the id it would get plays no part). */
  predicate Accepted(p: RawPacket)
  {
    Deserialize(p, 0).Some?
  }

  /** Validation does not depend on the id the record would be saved with. */
  lemma DeserializeIgnoresId()
    ensures NumberBlind(Deserialize)
  {
    forall p: RawPacket, m: nat, n: nat
      ensures Deserialize(p, m).Some? == Deserialize(p, n).Some?
    {
    }
  }

  /**
   * The records of a batch that pass validation, saved in input order with
   * ids allocated from `firstId` on.
   */
  function SaveAll(packets: seq<RawPacket>, firstId: nat): (saved: seq<TrafficLog>)
    ensures |saved| <= |packets|
    ensures forall k :: 0 <= k < |saved| ==> saved[k].id == firstId + k && ValidTrafficLog(saved[k])
  {
    DeserializeIgnoresId();
    NumberedSpec(Deserialize, packets, firstId);
    Numbered(Deserialize, packets, firstId)
  }

  /** The batch position each saved record came from. */
  function SavedSources(packets: seq<RawPacket>): seq<nat>
  {
    NumberedKept(Deserialize, packets)
  }

  /**
   * Only records that pass validation are saved, all of them, in input order:
   * saved record k is the validated form of batch element `SavedSources[k]`.
   */
  lemma SaveAllSpec(packets: seq<RawPacket>, firstId: nat)
    ensures |SavedSources(packets)| == |SaveAll(packets, firstId)|
    ensures forall k :: 0 <= k < |SavedSources(packets)| ==>
              SavedSources(packets)[k] < |packets|
              && Deserialize(packets[SavedSources(packets)[k]], firstId + k) == Some(SaveAll(packets, firstId)[k])
    ensures forall k, l :: 0 <= k < l < |SavedSources(packets)| ==> SavedSources(packets)[k] < SavedSources(packets)[l]
    ensures forall j :: 0 <= j < |packets| ==> (Accepted(packets[j]) <==> j in SavedSources(packets))
  {
    DeserializeIgnoresId();
    NumberedSpec(Deserialize, packets, firstId);
  }

  /**
   * The alert created for one flagged index: none when the index is past the
   * end of `saved` or the alert fails validation.
   */
  function AlertFor(index: nat, saved: seq<TrafficLog>, id: nat): (r: Option<Alert>)
    ensures r.Some? ==> index < |saved| && r.value.id == id && r.value.trafficLog == Some(saved[index].id)
  {
    if index < |saved| then NewAlert(AlertMessage(saved[index]), saved[index].id, id) else None
  }

  /** `AlertFor` over the records `saved`, as a step of a numbered batch: flagged index and offered id. */
  function AlertStep(saved: seq<TrafficLog>): (nat, nat) -> Option<Alert>
  {
    (index: nat, id: nat) => AlertFor(index, saved, id)
  }

  /**
   * The alerts created for the flagged indices, in order: an index past the
   * end of `saved` raises and is skipped, as is an alert that fails validation;
   * the others get ids from `firstId` on.
   */
  function AlertsFor(indices: seq<nat>, saved: seq<TrafficLog>, firstId: nat): (alerts: seq<Alert>)
    ensures |alerts| <= |indices|
  {
    Numbered(AlertStep(saved), indices, firstId)
  }

  /** Whether a flagged index raises an alert: it names a saved record whose alert message validates. */
  predicate Alerted(index: nat, saved: seq<TrafficLog>)
  {
    index < |saved| && RequiredText(Strip(AlertMessage(saved[index])), ALERT_MESSAGE_MAX_LENGTH)
  }

  /**
   * An alert is created for a flagged index exactly when the index is alerted;
   * it then describes and refers to that saved record.
   */
  lemma AlertForSpec(index: nat, saved: seq<TrafficLog>, id: nat)
    ensures var r := AlertFor(index, saved, id);
            && (r.Some? <==> Alerted(index, saved))
            && (r.Some? ==> && ValidAlert(r.value)
                            && r.value == Alert(id, AlertMessage(saved[index]), DEFAULT_SEVERITY, Some(saved[index].id)))
  {
    if index < |saved| {
      AlertMessageTrimmed(saved[index]);
    }
  }

  /** Whether a flagged index raises an alert does not depend on the id it is offered. */
  lemma AlertStepIgnoresId(saved: seq<TrafficLog>)
    ensures NumberBlind(AlertStep(saved))
  {
    forall index: nat, m: nat, n: nat
      ensures AlertStep(saved)(index, m).Some? == AlertStep(saved)(index, n).Some?
    {
      AlertForSpec(index, saved, m);
      AlertForSpec(index, saved, n);
    }
  }

  /** The positions in `indices` of the flagged indices that raise an alert. */
  function AlertSources(indices: seq<nat>, saved: seq<TrafficLog>): seq<nat>
  {
    NumberedKept(AlertStep(saved), indices)
  }

  /**
   * Alerts are raised for the alerted indices, all of them, in order: alert k
   * is what flagged index `indices[AlertSources[k]]` gives for id `firstId + k`
   * -- a valid alert with the default severity, describing and referring to
   * that saved record -- and a position is a source exactly when its index is
   * alerted.
   */
  lemma AlertsForSpec(indices: seq<nat>, saved: seq<TrafficLog>, firstId: nat)
    ensures |AlertSources(indices, saved)| == |AlertsFor(indices, saved, firstId)|
    ensures forall k :: 0 <= k < |AlertSources(indices, saved)| ==>
              AlertSources(indices, saved)[k] < |indices|
              && var m := indices[AlertSources(indices, saved)[k]];
              m < |saved|
              && AlertsFor(indices, saved, firstId)[k]
                 == Alert(firstId + k, AlertMessage(saved[m]), DEFAULT_SEVERITY, Some(saved[m].id))
              && ValidAlert(AlertsFor(indices, saved, firstId)[k])
    ensures forall k, l :: 0 <= k < l < |AlertSources(indices, saved)| ==>
              AlertSources(indices, saved)[k] < AlertSources(indices, saved)[l]
    ensures forall j :: 0 <= j < |indices| ==> (Alerted(indices[j], saved) <==> j in AlertSources(indices, saved))
  {
    AlertStepIgnoresId(saved);
    NumberedSpec(AlertStep(saved), indices, firstId);
    var sources, alerts := AlertSources(indices, saved), AlertsFor(indices, saved, firstId);
    forall k | 0 <= k < |sources|
      ensures var m := indices[sources[k]];
              m < |saved| && alerts[k] == Alert(firstId + k, AlertMessage(saved[m]), DEFAULT_SEVERITY, Some(saved[m].id))
              && ValidAlert(alerts[k])
    {
      AlertForSpec(indices[sources[k]], saved, firstId + k);
    }
    forall j | 0 <= j < |indices|
      ensures Alerted(indices[j], saved) <==> j in sources
    {
      AlertForSpec(indices[j], saved, 0);
    }
  }

  /** One alert event per alert, in order. */
  function AlertEvents(alerts: seq<Alert>): (r: seq<Event>)
    ensures |r| == |alerts|
  {
    if alerts == [] then [] else AlertEvents(alerts[..|alerts| - 1]) + [AlertRaised(alerts[|alerts| - 1])]
  }

  /** Raising one more alert appends its event. */
  lemma AlertEventsSnoc(alerts: seq<Alert>, alert: Alert)
    ensures AlertEvents(alerts + [alert]) == AlertEvents(alerts) + [AlertRaised(alert)]
  {
    assert (alerts + [alert])[..|alerts|] == alerts;
  }

  /** Appending one alert to the created ones extends the stored alerts and the broadcast events by it. */
  lemma AppendAlert(alerts0: seq<Alert>, events0: seq<Event>, created: seq<Alert>, alert: Alert)
    ensures alerts0 + created + [alert] == alerts0 + (created + [alert])
    ensures events0 + AlertEvents(created) + [AlertRaised(alert)] == events0 + AlertEvents(created + [alert])
  {
    AlertEventsSnoc(created, alert);
  }

  /** One traffic event per saved record, in order. */
  function TrafficEvents(logs: seq<TrafficLog>): (r: seq<Event>)
    ensures |r| == |logs|
  {
    if logs == [] then [] else TrafficEvents(logs[..|logs| - 1]) + [Traffic(logs[|logs| - 1])]
  }

  /** A batch whose every record is valid is saved whole, element j as record j. */
  lemma SaveAllComplete(packets: seq<RawPacket>, firstId: nat)
    requires forall j :: 0 <= j < |packets| ==> Accepted(packets[j])
    ensures |SaveAll(packets, firstId)| == |packets|
    ensures forall j :: 0 <= j < |packets| ==> Deserialize(packets[j], firstId + j) == Some(SaveAll(packets, firstId)[j])
  {
    DeserializeIgnoresId();
    NumberedComplete(Deserialize, packets, firstId);
  }

  /** When every record of a batch is both coercible and valid, row j and saved record j both come from element j. */
  lemma AlignedWhenAllAccepted(packets: seq<RawPacket>, firstId: nat)
    requires forall j :: 0 <= j < |packets| ==> Accepted(packets[j]) && FeatureRow(packets[j]).Some?
    ensures |SaveAll(packets, firstId)| == |Features(packets)| == |packets|
    ensures forall j :: 0 <= j < |packets| ==>
              && Deserialize(packets[j], firstId + j) == Some(SaveAll(packets, firstId)[j])
              && FeatureRow(packets[j]) == Some(Features(packets)[j])
  {
    SaveAllComplete(packets, firstId);
    FeaturesComplete(packets);
  }

  /** A record that is coercible into features but has an empty source address, which validation refuses. */
  const UNSAVED_RECORD: RawPacket :=
    Object(map["source_ip" := VStr(""), "dest_ip" := VStr("10.0.0.2"), "protocol" := VStr("TCP"),
               "source_port" := VInt(1), "dest_port" := VInt(2), "packet_size" := VInt(60)])

  /** A record that passes validation. */
  const SAVED_RECORD: RawPacket :=
    Object(map["source_ip" := VStr("10.0.0.1"), "dest_ip" := VStr("10.0.0.2"), "protocol" := VStr("UDP"),
               "source_port" := VInt(3), "dest_port" := VInt(4), "packet_size" := VInt(70)])

  /** The record `SAVED_RECORD` is stored as, when it gets id 1. */
  const SAVED_LOG: TrafficLog := TrafficLog(1, "10.0.0.1", "10.0.0.2", 3, 4, "UDP", 70, None)

  /** Both records of the batch yield feature rows. */
  lemma BothRecordsHaveRows()
    ensures |Features([UNSAVED_RECORD, SAVED_RECORD])| == 2
  {
    var batch := [UNSAVED_RECORD, SAVED_RECORD];
    assert FeatureRow(batch[0]).Some? && FeatureRow(batch[1]).Some?;
    FeaturesComplete(batch);
  }

  /** The record with an empty source address is refused. */
  lemma UnsavedRecordRefused()
    ensures Deserialize(UNSAVED_RECORD, 1) == None
  {
    assert RequiredChar(UNSAVED_RECORD.fields, "source_ip", SOURCE_IP_MAX_LENGTH) == None;
  }

  /** The valid record is stored with its own fields. */
  lemma SavedRecordStored()
    ensures Deserialize(SAVED_RECORD, 1) == Some(SAVED_LOG)
  {
    var f := SAVED_RECORD.fields;
    StrippedTextStored(f, "source_ip", SOURCE_IP_MAX_LENGTH, "10.0.0.1");
    StrippedTextStored(f, "dest_ip", DEST_IP_MAX_LENGTH, "10.0.0.2");
    StrippedTextStored(f, "protocol", PROTOCOL_MAX_LENGTH, "UDP");
  }

  /** Only the second record of the batch is saved. */
  lemma OnlySecondRecordSaved()
    ensures SaveAll([UNSAVED_RECORD, SAVED_RECORD], 1) == [SAVED_LOG]
  {
    var batch := [UNSAVED_RECORD, SAVED_RECORD];
    UnsavedRecordRefused();
    SavedRecordStored();
    NumberedSnoc(Deserialize, batch, 1, 0);
    NumberedSnoc(Deserialize, batch, 1, 1);
    assert batch[..0] == [] && batch[..2] == batch;
  }

  /**
   * Feature-row indices are used as positions in the saved records. In a batch
   * whose first record is coercible but invalid, flagging that record (row 0)
   * raises an alert about the second record instead, and flagging the second
   * (row 1) raises none.
   */
  lemma ShiftedAlertTarget()
    ensures |Features([UNSAVED_RECORD, SAVED_RECORD])| == 2
    ensures AlertsFor([0], SaveAll([UNSAVED_RECORD, SAVED_RECORD], 1), 1)
            == [Alert(1, AlertMessage(SAVED_LOG), DEFAULT_SEVERITY, Some(SAVED_LOG.id))]
    ensures AlertsFor([1], SaveAll([UNSAVED_RECORD, SAVED_RECORD], 1), 1) == []
  {
    BothRecordsHaveRows();
    OnlySecondRecordSaved();
    var saved := [SAVED_LOG];
    NumberedSnoc(AlertStep(saved), [0], 1, 0);
    NumberedSnoc(AlertStep(saved), [1], 1, 0);
    assert [0][..0] == [] && [1][..0] == [];
    AlertMessageFits(SAVED_LOG, 1);
    AlertForSpec(0, saved, 1);
  }

  /** Stored record i has id i + 1: ids are allocated in sequence from 1. */
  ghost predicate NumberedLogs(logs: seq<TrafficLog>)
  {
    forall i :: 0 <= i < |logs| ==> logs[i].id == i + 1
  }

  /** Stored alert i has id i + 1 and refers to one of the first `logCount` records. */
  ghost predicate NumberedAlerts(alerts: seq<Alert>, logCount: nat)
  {
    forall i :: 0 <= i < |alerts| ==>
      && alerts[i].id == i + 1
      && alerts[i].trafficLog.Some? && 1 <= alerts[i].trafficLog.value <= logCount
  }

  /** Saving a batch after the stored records keeps the ids in sequence. */
  lemma SaveKeepsNumbering(logs: seq<TrafficLog>, packets: seq<RawPacket>)
    requires NumberedLogs(logs)
    ensures NumberedLogs(logs + SaveAll(packets, |logs| + 1))
  {
    var all := logs + SaveAll(packets, |logs| + 1);
    forall i | 0 <= i < |all|
      ensures all[i].id == i + 1
    {
      if i >= |logs| {
        assert all[i] == SaveAll(packets, |logs| + 1)[i - |logs|];
      }
    }
  }

  /** Alerts raised about just-saved records keep the alert ids in sequence and their references in range. */
  lemma AlertsKeepNumbering(alerts: seq<Alert>, logCount: nat, indices: seq<nat>, saved: seq<TrafficLog>)
    requires NumberedAlerts(alerts, logCount)
    requires forall k :: 0 <= k < |saved| ==> saved[k].id == logCount + 1 + k
    ensures NumberedAlerts(alerts + AlertsFor(indices, saved, |alerts| + 1), logCount + |saved|)
  {
    var created := AlertsFor(indices, saved, |alerts| + 1);
    AlertsForSpec(indices, saved, |alerts| + 1);
    var all := alerts + created;
    forall i | 0 <= i < |all|
      ensures all[i].id == i + 1
      ensures all[i].trafficLog.Some? && 1 <= all[i].trafficLog.value <= logCount + |saved|
    {
      if i >= |alerts| {
        assert all[i] == created[i - |alerts|];
      }
    }
  }

  /** The collector's process-wide state, its store and what it has broadcast. */
  class Collector {
    var trainingPacketsBuffer: seq<RawPacket>
    var trainingInProgress: bool
    const detector: AnomalyDetector
    /** Saved traffic records; record i has id i + 1. */
    var logs: seq<TrafficLog>
    /** Saved alerts; alert i has id i + 1 and refers to a saved record. */
    var alerts: seq<Alert>
    /** Every event broadcast to observers, in order. */
    var events: seq<Event>
    /** Training runs started in the background and not yet finished. */
    var pendingFits: seq<seq<RawPacket>>
    /** Batches handed to background processing by the ingestion endpoint. */
    var dispatched: seq<seq<RawPacket>>

    ghost predicate Valid()
      reads this
    {
      && |trainingPacketsBuffer| < TRAINING_SET_SIZE
      && (!trainingInProgress ==> trainingPacketsBuffer == [])
      && NumberedLogs(logs)
      && NumberedAlerts(alerts, |logs|)
    }

    constructor (detector: AnomalyDetector)
      ensures Valid() && this.detector == detector
      ensures !trainingInProgress && trainingPacketsBuffer == []
      ensures logs == [] && alerts == [] && events == [] && pendingFits == [] && dispatched == []
    {
      this.detector := detector;
      trainingPacketsBuffer := [];
      trainingInProgress := false;
      logs := [];
      alerts := [];
      events := [];
      pendingFits := [];
      dispatched := [];
    }

    /**
     * Activate training mode. While already collecting: 400, nothing changes.
     * Otherwise start collecting into an empty buffer, announce it, and answer 200.
     */
    method ModelTrainingPost() returns (status: nat)
      requires Valid()
      modifies this`trainingInProgress, this`trainingPacketsBuffer, this`events
      ensures Valid()
      ensures old(trainingInProgress) ==>
                && status == HTTP_BAD_REQUEST && trainingInProgress
                && trainingPacketsBuffer == old(trainingPacketsBuffer) && events == old(events)
      ensures !old(trainingInProgress) ==>
                && status == HTTP_OK && trainingInProgress && trainingPacketsBuffer == []
                && events == old(events) + [System(TrainingStartMessage())]
    {
      if trainingInProgress {
        return HTTP_BAD_REQUEST;
      }
      trainingInProgress := true;
      trainingPacketsBuffer := [];
      events := events + [System(TrainingStartMessage())];
      return HTTP_OK;
    }

    /** The status query: whether a model is active and whether training mode is on. */
    method ModelTrainingGet() returns (isTrained: bool, isTraining: bool)
      ensures isTrained == detector.isTrained && isTraining == trainingInProgress
    {
      isTrained := detector.isTrained;
      isTraining := trainingInProgress;
    }

    /**
     * The ingestion endpoint: a body that is not a JSON object makes the
     * member lookup raise, answered 500; 400 for a missing, non-list or empty
     * `packets`; otherwise the batch is handed to background processing and
     * the answer is 202.
     */
    method IngestPost(body: PacketsField) returns (status: nat)
      modifies this`dispatched
      ensures status == HTTP_ACCEPTED <==> body.List? && body.items != []
      ensures status == HTTP_INTERNAL_SERVER_ERROR <==> body.BodyNotAnObject?
      ensures status == HTTP_ACCEPTED || status == HTTP_BAD_REQUEST || status == HTTP_INTERNAL_SERVER_ERROR
      ensures dispatched == if status == HTTP_ACCEPTED then old(dispatched) + [body.items] else old(dispatched)
    {
      if body.BodyNotAnObject? {
        return HTTP_INTERNAL_SERVER_ERROR;
      }
      if !body.List? || body.items == [] {
        return HTTP_BAD_REQUEST;
      }
      dispatched := dispatched + [body.items];
      return HTTP_ACCEPTED;
    }

    /**
     * Process one ingested batch: save its valid records in one transaction
     * (a failed transaction abandons the batch); then, under the training lock,
     * either add the whole raw batch to the training buffer (starting a fit on
     * all collected records once they reach the target) or, with a trained
     * detector, predict and raise an alert per flagged index; finally broadcast
     * one traffic event per saved record.
     */
    method ProcessAndBroadcast(packets: seq<RawPacket>, transactionFails: bool)
      requires Valid()
      modifies this`logs, this`alerts, this`events, this`trainingPacketsBuffer, this`trainingInProgress, this`pendingFits
      ensures Valid()
      ensures transactionFails ==>
                && logs == old(logs) && alerts == old(alerts) && events == old(events)
                && trainingPacketsBuffer == old(trainingPacketsBuffer)
                && trainingInProgress == old(trainingInProgress) && pendingFits == old(pendingFits)
      ensures !transactionFails ==>
                var saved := SaveAll(packets, |old(logs)| + 1);
                && logs == old(logs) + saved
                && (old(trainingInProgress) ==>
                      var collected := old(trainingPacketsBuffer) + packets;
                      && alerts == old(alerts)
                      && events == old(events) + TrafficEvents(saved)
                      && if |collected| >= TRAINING_SET_SIZE then
                           trainingPacketsBuffer == [] && !trainingInProgress
                           && pendingFits == old(pendingFits) + [collected]
                         else
                           trainingPacketsBuffer == collected && trainingInProgress
                           && pendingFits == old(pendingFits))
                && (!old(trainingInProgress) ==>
                      var flagged := Prediction(detector.isTrained, detector.scaler, detector.model,
                                                detector.outlier, packets).1;
                      var created := if detector.isTrained then AlertsFor(flagged, saved, |old(alerts)| + 1) else [];
                      && trainingPacketsBuffer == old(trainingPacketsBuffer) && !trainingInProgress
                      && pendingFits == old(pendingFits)
                      && alerts == old(alerts) + created
                      && events == old(events) + AlertEvents(created) + TrafficEvents(saved))
    {
      if transactionFails {
        return;
      }
      ghost var logs0 := logs;
      var savedLogs := SaveBatch(packets, Deserialize);
      SaveKeepsNumbering(logs0, packets);
      RouteBatch(packets, savedLogs);
      BroadcastTraffic(savedLogs);
    }

    /**
     * The region under the training lock: exactly one of collecting the raw
     * batch for training (while in training mode) and raising alerts for the
     * rows the trained detector flags (otherwise, when a model is active).
     */
    method RouteBatch(packets: seq<RawPacket>, saved: seq<TrafficLog>)
      requires |trainingPacketsBuffer| < TRAINING_SET_SIZE && (!trainingInProgress ==> trainingPacketsBuffer == [])
      requires |saved| <= |logs| && NumberedAlerts(alerts, |logs| - |saved|)
      requires forall k :: 0 <= k < |saved| ==> saved[k].id == |logs| - |saved| + 1 + k
      modifies this`alerts, this`events, this`trainingPacketsBuffer, this`trainingInProgress, this`pendingFits
      ensures |trainingPacketsBuffer| < TRAINING_SET_SIZE && (!trainingInProgress ==> trainingPacketsBuffer == [])
      ensures NumberedAlerts(alerts, |logs|)
      ensures old(trainingInProgress) ==>
                var collected := old(trainingPacketsBuffer) + packets;
                && alerts == old(alerts) && events == old(events)
                && if |collected| >= TRAINING_SET_SIZE then
                     trainingPacketsBuffer == [] && !trainingInProgress
                     && pendingFits == old(pendingFits) + [collected]
                   else
                     trainingPacketsBuffer == collected && trainingInProgress
                     && pendingFits == old(pendingFits)
      ensures !old(trainingInProgress) ==>
                var flagged := Prediction(detector.isTrained, detector.scaler, detector.model,
                                          detector.outlier, packets).1;
                var created := if detector.isTrained then AlertsFor(flagged, saved, |old(alerts)| + 1) else [];
                && trainingPacketsBuffer == old(trainingPacketsBuffer) && !trainingInProgress
                && pendingFits == old(pendingFits)
                && alerts == old(alerts) + created
                && events == old(events) + AlertEvents(created)
    {
      if trainingInProgress {
        CollectForTraining(packets);
      } else if detector.isTrained {
        AlertOnAnomalies(packets, saved);
      }
    }

    /** Ask the trained detector which records are anomalous and raise an alert for each flagged index. */
    method AlertOnAnomalies(packets: seq<RawPacket>, saved: seq<TrafficLog>)
      requires |saved| <= |logs| && NumberedAlerts(alerts, |logs| - |saved|)
      requires forall k :: 0 <= k < |saved| ==> saved[k].id == |logs| - |saved| + 1 + k
      modifies this`alerts, this`events
      ensures NumberedAlerts(alerts, |logs|)
      ensures var flagged := Prediction(detector.isTrained, detector.scaler, detector.model,
                                        detector.outlier, packets).1;
              var created := AlertsFor(flagged, saved, |old(alerts)| + 1);
              alerts == old(alerts) + created && events == old(events) + AlertEvents(created)
    {
      ghost var alerts0 := alerts;
      var anomalousPackets, anomalousIndices := detector.Predict(packets);
      var created := RaiseAlerts(anomalousIndices, AlertStep(saved));
      AlertsKeepNumbering(alerts0, |logs| - |saved|, anomalousIndices, saved);
    }

    /**
     * Add a whole raw batch to the training buffer; once it holds the target
     * number of records, hand all of them to a background fit and leave
     * training mode with an empty buffer.
     */
    method CollectForTraining(packets: seq<RawPacket>)
      modifies this`trainingPacketsBuffer, this`trainingInProgress, this`pendingFits
      ensures var collected := old(trainingPacketsBuffer) + packets;
              if |collected| >= TRAINING_SET_SIZE then
                trainingPacketsBuffer == [] && !trainingInProgress && pendingFits == old(pendingFits) + [collected]
              else
                trainingPacketsBuffer == collected && trainingInProgress == old(trainingInProgress)
                && pendingFits == old(pendingFits)
    {
      trainingPacketsBuffer := trainingPacketsBuffer + packets;
      if |trainingPacketsBuffer| >= TRAINING_SET_SIZE {
        var bufferCopy := trainingPacketsBuffer;
        trainingPacketsBuffer := [];
        trainingInProgress := false;
        pendingFits := pendingFits + [bufferCopy];
      }
    }

    /**
     * Save the records of a batch that `validate` accepts, in order, each with
     * the next free id. `validate` is the serializer's validation: the handler
     * passes `Deserialize`, and `SaveAll` is this batch for it.
     */
    method SaveBatch(packets: seq<RawPacket>, validate: (RawPacket, nat) -> Option<TrafficLog>)
      returns (saved: seq<TrafficLog>)
      modifies this`logs
      ensures saved == Numbered(validate, packets, |old(logs)| + 1)
      ensures logs == old(logs) + saved
    {
      saved := [];
      var i := 0;
      while i < |packets|
        modifies this`logs
        invariant 0 <= i <= |packets|
        invariant saved == Numbered(validate, packets[..i], |old(logs)| + 1)
        invariant logs == old(logs) + saved
      {
        NumberedSnoc(validate, packets, |old(logs)| + 1, i);
        var entry := validate(packets[i], |logs| + 1);
        if entry.Some? {
          logs := logs + [entry.value];
          saved := saved + [entry.value];
        }
        i := i + 1;
      }
      assert packets[..i] == packets;
    }

    /**
     * Raise the alert `alertFor` gives for each flagged index and the next free
     * id, if any; each alert is stored and broadcast. The handler passes
     * `AlertStep(saved)`, which takes the index as a position in `saved`, and
     * `AlertsFor` is this batch for it.
     */
    method RaiseAlerts(indices: seq<nat>, alertFor: (nat, nat) -> Option<Alert>) returns (created: seq<Alert>)
      modifies this`alerts, this`events
      ensures created == Numbered(alertFor, indices, |old(alerts)| + 1)
      ensures alerts == old(alerts) + created
      ensures events == old(events) + AlertEvents(created)
    {
      created := [];
      var firstId := |alerts| + 1;
      var j := 0;
      while j < |indices|
        modifies this`alerts, this`events
        invariant 0 <= j <= |indices|
        invariant created == Numbered(alertFor, indices[..j], firstId)
        invariant alerts == old(alerts) + created
        invariant events == old(events) + AlertEvents(created)
      {
        NumberedSnoc(alertFor, indices, firstId, j);
        var alert := alertFor(indices[j], firstId + |created|);
        if alert.Some? {
          AppendAlert(old(alerts), old(events), created, alert.value);
          StoreAlert(alert.value);
          created := created + [alert.value];
        }
        j := j + 1;
      }
      assert indices[..j] == indices;
    }

    /** Store one alert and broadcast it. */
    method StoreAlert(alert: Alert)
      modifies this`alerts, this`events
      ensures alerts == old(alerts) + [alert]
      ensures events == old(events) + [AlertRaised(alert)]
    {
      alerts := alerts + [alert];
      events := events + [AlertRaised(alert)];
    }

    /** Broadcast one traffic event per saved record, in order. */
    method BroadcastTraffic(saved: seq<TrafficLog>)
      modifies this`events
      ensures events == old(events) + TrafficEvents(saved)
    {
      var k := 0;
      while k < |saved|
        invariant 0 <= k <= |saved|
        invariant events == old(events) + TrafficEvents(saved[..k])
      {
        assert saved[..k + 1][..k] == saved[..k];
        events := events + [Traffic(saved[k])];
        k := k + 1;
      }
      assert saved[..k] == saved;
    }

    /**
     * The background training run started for pending batch `k`: train the
     * detector on it and announce the outcome.
     */
    method RunTrainThread(k: nat, failure: FitFailure) returns (success: bool)
      requires k < |pendingFits|
      modifies this`events, this`pendingFits, detector
      ensures pendingFits == old(pendingFits[..k] + pendingFits[k + 1..])
      ensures events == old(events) + [System(if success then TRAINING_DONE_MESSAGE else TRAINING_FAILED_MESSAGE)]
      ensures TrainedFrom(Features(old(pendingFits[k])), failure, old(detector.model), old(detector.scaler),
                          old(detector.isTrained), success, detector.model, detector.scaler, detector.isTrained)
      ensures success <==> |Features(old(pendingFits[k]))| >= MIN_TRAINING_ROWS && failure == NoFailure
    {
      var bufferCopy := pendingFits[k];
      pendingFits := pendingFits[..k] + pendingFits[k + 1..];
      success := detector.Train(bufferCopy, failure);
      TrainedFromSpec(Features(bufferCopy), failure, old(detector.model), old(detector.scaler), old(detector.isTrained),
                      success, detector.model, detector.scaler, detector.isTrained);
      var message := if success then TRAINING_DONE_MESSAGE else TRAINING_FAILED_MESSAGE;
      events := events + [System(message)];
    }
  }
}

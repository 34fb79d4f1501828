/** backend/app/services/vital_service.py: `VitalService.ingest_batch`
    stores a batch of readings in order, evaluates each one after it is
    flushed (so a later reading sees the alerts of earlier ones), commits,
    and only then broadcasts one VITAL_UPDATE per reading followed by one
    ALERT_NEW per alert. The broadcast target is the `ConnectionManager`
    model; the module the source imports it from is not part of this model. */
module VitalService {
  import opened Wrappers
  import opened Store
  import opened Messages
  import opened Connections
  import AlertEvaluator

  datatype IngestError = PatientNotFound(patientId: PatientId) | StorageFailure

  /** `_get_patient`: the patient row exists. */
  predicate PatientExists(session: Session, patientId: PatientId)
    reads session
  {
    patientId in session.patients
  }

  /** `_get_threshold`: the patient's threshold row, if any (at most one by the unique constraint). */
  function GetThreshold(session: Session, patientId: PatientId): (r: Option<Threshold>)
    reads session
    ensures r.Some? <==> patientId in session.thresholds
    ensures r.Some? ==> r.value == session.thresholds[patientId]
  {
    if patientId in session.thresholds then Some(session.thresholds[patientId]) else None
  }

  /** The `Vital(...)` row built from a payload item: every field copied. */
  function ToVital(item: VitalCreate): Vital
  {
    Vital(0, item.patientId, item.sensorId, Some(item.timestamp), item.heartRate, item.spo2,
          item.systolicBp, item.diastolicBp, item.bodyTemp)
  }

  /** One pass of the loop: store and flush the reading, then evaluate it
      against the alerts the session holds at that moment. */
  function Step(t: Tables, item: VitalCreate, threshold: Option<Threshold>, now: int): Tables
  {
    var t1 := WithVital(t, ToVital(item));
    match AlertEvaluator.Decide(ToVital(item).(id := t.nextVitalId), threshold, t1.alerts, now)
    case None => t1
    case Some(a) => WithAlert(t1, a)
  }

  /** The tables after the loop has processed `items` in order. */
  function Run(t: Tables, items: seq<VitalCreate>, threshold: Option<Threshold>, now: int): Tables
    decreases |items|
  {
    if items == [] then t
    else Step(Run(t, items[..|items| - 1], threshold, now), items[|items| - 1], threshold, now)
  }

  /** Exactly one stored reading per item, in submission order, fields copied
      and ids consecutive; stored alerts are never changed or removed, and the
      new ones are unacknowledged. */
  lemma {:induction false} RunShape(t: Tables, items: seq<VitalCreate>, threshold: Option<Threshold>, now: int)
    ensures var r := Run(t, items, threshold, now);
            && |r.vitals| == |t.vitals| + |items|
            && r.vitals[..|t.vitals|] == t.vitals
            && (forall k :: 0 <= k < |items| ==> r.vitals[|t.vitals| + k] == ToVital(items[k]).(id := t.nextVitalId + k))
            && r.nextVitalId == t.nextVitalId + |items|
            && |t.alerts| <= |r.alerts| <= |t.alerts| + |items|
            && r.alerts[..|t.alerts|] == t.alerts
            && (forall j :: |t.alerts| <= j < |r.alerts| ==> !r.alerts[j].isAcknowledged)
    decreases |items|
  {
    if items != [] {
      var init := items[..|items| - 1];
      RunShape(t, init, threshold, now);
      var p := Run(t, init, threshold, now);
      var r := Run(t, items, threshold, now);
      var t1 := WithVital(p, ToVital(items[|items| - 1]));
      assert r.vitals == t1.vitals;
      forall k | 0 <= k < |items|
        ensures r.vitals[|t.vitals| + k] == ToVital(items[k]).(id := t.nextVitalId + k)
      {
        if k < |items| - 1 {
          assert items[k] == init[k];
          assert r.vitals[|t.vitals| + k] == p.vitals[|t.vitals| + k];
        }
      }
      assert r.vitals[..|t.vitals|] == p.vitals[..|t.vitals|];
      assert r.alerts[..|t.alerts|] == p.alerts[..|t.alerts|];
    }
  }

  /** A batch for a patient without a threshold stores its readings and raises no alert. */
  lemma {:induction false} NoThresholdNoAlerts(t: Tables, items: seq<VitalCreate>, now: int)
    ensures Run(t, items, None, now).alerts == t.alerts
    ensures Run(t, items, None, now).nextAlertId == t.nextAlertId
    decreases |items|
  {
    if items != [] {
      NoThresholdNoAlerts(t, items[..|items| - 1], now);
    }
  }

  /** Deduplication holds inside a batch: every critical alert the batch raises
      is more than one minute later than any earlier unacknowledged critical
      alert of the same patient, whether stored before or raised by an earlier
      reading of the same batch. */
  lemma {:induction false} DedupWithinBatch(t: Tables, items: seq<VitalCreate>, threshold: Option<Threshold>, now: int,
                                            j: nat, k: nat)
    requires var r := Run(t, items, threshold, now);
             |t.alerts| <= k < |r.alerts| && j < k
             && r.alerts[k].severity == Critical && r.alerts[j].severity == Critical
             && r.alerts[j].patientId == r.alerts[k].patientId && !r.alerts[j].isAcknowledged
    ensures var r := Run(t, items, threshold, now);
            r.alerts[j].timestamp < r.alerts[k].timestamp - AlertEvaluator.DedupWindow
    decreases |items|
  {
    var init := items[..|items| - 1];
    var item := items[|items| - 1];
    var p := Run(t, init, threshold, now);
    var r := Run(t, items, threshold, now);
    var t1 := WithVital(p, ToVital(item));
    var v := ToVital(item).(id := p.nextVitalId);
    RunShape(t, init, threshold, now);
    if k < |p.alerts| {
      assert r.alerts[k] == p.alerts[k] && r.alerts[j] == p.alerts[j];
      DedupWithinBatch(t, init, threshold, now, j, k);
    } else {
      var d := AlertEvaluator.Decide(v, threshold, t1.alerts, now);
      assert d.Some? && r.alerts[k] == d.value.(id := p.nextAlertId);
      assert r.alerts[j] == t1.alerts[j];
      var since := AlertEvaluator.ReadingTime(v, now) - AlertEvaluator.DedupWindow;
      assert !AlertEvaluator.HasRecentCritical(t1.alerts, v.patientId, since);
      assert !AlertEvaluator.Suppresses(t1.alerts[j], v.patientId, since);
    }
  }

  /** The part of `s` after its first `n` elements. */
  function Drop<T>(s: seq<T>, n: nat): (r: seq<T>)
    ensures n <= |s| ==> r == s[n..]
  {
    if n <= |s| then s[n..] else []
  }

  /** The VITAL_UPDATE message for a stored reading. */
  function VitalMessage(v: Vital): Message
  {
    VitalUpdate(v.patientId, v.heartRate, v.spo2, v.timestamp)
  }

  /** The ALERT_NEW message for a stored alert. */
  function AlertMessage(a: Alert): Message
  {
    AlertNew(a.id, a.patientId, a.severity, a.message, a.timestamp)
  }

  /** `vital_payload`. */
  function VitalMessages(vitals: seq<Vital>): (r: seq<Message>)
    ensures |r| == |vitals|
  {
    if vitals == [] then [] else [VitalMessage(vitals[0])] + VitalMessages(vitals[1..])
  }

  /** `alert_payload`. */
  function AlertMessages(alerts: seq<Alert>): (r: seq<Message>)
    ensures |r| == |alerts|
  {
    if alerts == [] then [] else [AlertMessage(alerts[0])] + AlertMessages(alerts[1..])
  }

  /** `[*vital_payload, *alert_payload]`. */
  function Notifications(vitals: seq<Vital>, alerts: seq<Alert>): (r: seq<Message>)
    ensures |r| == |vitals| + |alerts|
  {
    VitalMessages(vitals) + AlertMessages(alerts)
  }

  /** Exactly |vitals| + |alerts| messages: every VITAL_UPDATE, in reading
      order, before every ALERT_NEW, in alert order. */
  lemma {:induction false} NotificationsOrder(vitals: seq<Vital>, alerts: seq<Alert>, i: nat)
    requires i < |vitals| + |alerts|
    ensures i < |vitals| ==> Notifications(vitals, alerts)[i] == VitalMessage(vitals[i])
    ensures |vitals| <= i ==> Notifications(vitals, alerts)[i] == AlertMessage(alerts[i - |vitals|])
  {
    if i < |vitals| {
      VitalMessagesAt(vitals, i);
    } else {
      AlertMessagesAt(alerts, i - |vitals|);
    }
  }

  lemma {:induction false} VitalMessagesAt(vitals: seq<Vital>, i: nat)
    requires i < |vitals|
    ensures VitalMessages(vitals)[i] == VitalMessage(vitals[i])
  {
    if i > 0 {
      VitalMessagesAt(vitals[1..], i - 1);
    }
  }

  lemma {:induction false} AlertMessagesAt(alerts: seq<Alert>, i: nat)
    requires i < |alerts|
    ensures AlertMessages(alerts)[i] == AlertMessage(alerts[i])
  {
    if i > 0 {
      AlertMessagesAt(alerts[1..], i - 1);
    }
  }

  /** The frames a run of broadcasts puts on the wire once the registry is `cs`. */
  function Deliveries(cs: seq<Conn>, msgs: seq<Message>): seq<Delivery>
    decreases |msgs|
  {
    if msgs == [] then [] else Deliveries(cs, msgs[..|msgs| - 1]) + FanOut(cs, msgs[|msgs| - 1])
  }

  /** One more broadcast appends its fan-out. */
  lemma DeliveriesStep(cs: seq<Conn>, msgs: seq<Message>, k: nat)
    requires k < |msgs|
    ensures Deliveries(cs, msgs[..k + 1]) == Deliveries(cs, msgs[..k]) + FanOut(cs, msgs[k])
    ensures msgs[..k + 1] == msgs[..k] + [msgs[k]]
  {
    var next := msgs[..k + 1];
    assert next[..k] == msgs[..k] && next[k] == msgs[k];
  }

  /** Running one more item is one more step. */
  lemma RunStep(t: Tables, items: seq<VitalCreate>, threshold: Option<Threshold>, now: int, i: nat)
    requires i < |items|
    ensures Run(t, items[..i + 1], threshold, now) == Step(Run(t, items[..i], threshold, now), items[i], threshold, now)
  {
    var next := items[..i + 1];
    assert next[..i] == items[..i] && next[i] == items[i];
  }

  /** `_broadcast`: one `broadcast` call per message, in order. After the first
      call the registry has lost its dead sockets, and every later message
      reaches the same live ones. */
  method Broadcast(manager: ConnectionManager, savedVitals: seq<Vital>, alerts: seq<Alert>, dead: set<Conn>)
    modifies manager
    ensures manager.broadcasts == old(manager.broadcasts) + Notifications(savedVitals, alerts)
    ensures manager.activeConnections ==
              if savedVitals == [] && alerts == [] then old(manager.activeConnections)
              else Passing(old(manager.activeConnections), dead)
    ensures manager.outbox ==
              old(manager.outbox) + Deliveries(Passing(old(manager.activeConnections), dead), Notifications(savedVitals, alerts))
  {
    var messages := Notifications(savedVitals, alerts);
    ghost var cs0, out0, b0 := manager.activeConnections, manager.outbox, manager.broadcasts;
    ghost var live := Passing(cs0, dead);
    PassingIdempotent(cs0, dead);
    var k := 0;
    while k < |messages|
      invariant 0 <= k <= |messages|
      invariant manager.broadcasts == b0 + messages[..k]
      invariant k == 0 ==> manager.activeConnections == cs0
      invariant k > 0 ==> manager.activeConnections == live
      invariant manager.outbox == out0 + Deliveries(live, messages[..k])
    {
      DeliveriesStep(live, messages, k);
      manager.Broadcast(messages[k], dead);
      k := k + 1;
    }
    assert messages[..k] == messages;
  }

  /** `VitalService.ingest_batch`. `dead` is the set of sockets whose send
      fails; `commitFails` says whether the commit raises; `now` is the clock. */
  method IngestBatch(session: Session, payloads: seq<VitalCreate>, manager: ConnectionManager,
                     dead: set<Conn>, commitFails: bool, now: int)
    returns (r: Result<seq<Vital>, IngestError>)
    modifies session, manager
    ensures session.patients == old(session.patients) && session.thresholds == old(session.thresholds)
    ensures payloads == [] ==>
              r == Ok([]) && unchanged(session) && unchanged(manager)
    ensures payloads != [] && !old(PatientExists(session, payloads[0].patientId)) ==>
              r == Err(PatientNotFound(payloads[0].patientId)) && unchanged(session) && unchanged(manager)
    ensures payloads != [] && old(PatientExists(session, payloads[0].patientId)) ==>
              var final := Run(old(session.tables), payloads, old(GetThreshold(session, payloads[0].patientId)), now);
              var newVitals := Drop(final.vitals, |old(session.tables.vitals)|);
              var newAlerts := Drop(final.alerts, |old(session.tables.alerts)|);
              && session.tables == final
              && (commitFails ==>
                    r == Err(StorageFailure) && session.committed == old(session.committed) && unchanged(manager))
              && (!commitFails ==>
                    && r == Ok(newVitals)
                    && session.committed == final
                    && manager.broadcasts == old(manager.broadcasts) + Notifications(newVitals, newAlerts)
                    && manager.activeConnections == Passing(old(manager.activeConnections), dead)
                    && manager.outbox == old(manager.outbox)
                         + Deliveries(Passing(old(manager.activeConnections), dead), Notifications(newVitals, newAlerts)))
  {
    if payloads == [] {
      return Ok([]);
    }
    var patientId := payloads[0].patientId;
    if !PatientExists(session, patientId) {
      return Err(PatientNotFound(patientId));
    }
    var threshold := GetThreshold(session, patientId);
    var savedVitals, generatedAlerts := StoreAll(session, payloads, threshold, now);
    var ok := session.Commit(commitFails);
    if !ok {
      return Err(StorageFailure);
    }
    Broadcast(manager, savedVitals, generatedAlerts, dead);
    r := Ok(savedVitals);
  }

  /** The `for item in payload` loop: add, flush and evaluate each reading in
      turn; the readings and alerts it created, in creation order. */
  method StoreAll(session: Session, payloads: seq<VitalCreate>, threshold: Option<Threshold>, now: int)
    returns (savedVitals: seq<Vital>, generatedAlerts: seq<Alert>)
    modifies session
    ensures session.tables == Run(old(session.tables), payloads, threshold, now)
    ensures savedVitals == Drop(session.tables.vitals, |old(session.tables.vitals)|)
    ensures generatedAlerts == Drop(session.tables.alerts, |old(session.tables.alerts)|)
    ensures |savedVitals| == |payloads|
    ensures session.patients == old(session.patients) && session.thresholds == old(session.thresholds)
    ensures session.committed == old(session.committed)
  {
    savedVitals := [];
    generatedAlerts := [];
    ghost var t0 := session.tables;
    var i := 0;
    while i < |payloads|
      invariant 0 <= i <= |payloads|
      invariant session.tables == Run(t0, payloads[..i], threshold, now)
      invariant |t0.vitals| <= |session.tables.vitals| && |t0.alerts| <= |session.tables.alerts|
      invariant savedVitals == session.tables.vitals[|t0.vitals|..]
      invariant generatedAlerts == session.tables.alerts[|t0.alerts|..]
      invariant session.patients == old(session.patients) && session.thresholds == old(session.thresholds)
      invariant session.committed == old(session.committed)
    {
      RunStep(t0, payloads, threshold, now, i);
      var item := payloads[i];
      var vital := session.AddVital(ToVital(item));
      savedVitals := savedVitals + [vital];
      var alert := AlertEvaluator.Evaluate(session, vital, threshold, now);
      if alert.Some? {
        generatedAlerts := generatedAlerts + [alert.value];
      }
      i := i + 1;
    }
    assert payloads[..i] == payloads;
    RunShape(t0, payloads, threshold, now);
  }

  /** The ingestion tests: against thresholds 120/92 the reading 150/95 stores
      one reading and one critical alert and yields two notifications
      (VITAL_UPDATE, then ALERT_NEW); the reading 80/96 stores one reading,
      raises nothing and yields one notification. */
  lemma IngestExamples(t: Tables, now: int)
    requires t.alerts == []
    ensures var th := Some(Threshold("patient-1", 120, 92.0));
            var hot := VitalCreate("patient-1", "sensor-1", now, 150, 95.0, 110, 70, 98.0);
            var calm := VitalCreate("patient-1", "sensor-1", now, 80, 96.0, 110, 70, 98.0);
            var r1 := Run(t, [hot], th, now);
            var r2 := Run(t, [calm], th, now);
            && |r1.vitals| == |t.vitals| + 1 && |r1.alerts| == 1 && r1.alerts[0].severity == Critical
            && |Notifications(r1.vitals[|t.vitals|..], r1.alerts)| == 2
            && Notifications(r1.vitals[|t.vitals|..], r1.alerts)[0].VitalUpdate?
            && Notifications(r1.vitals[|t.vitals|..], r1.alerts)[1].AlertNew?
            && |r2.vitals| == |t.vitals| + 1 && r2.alerts == []
            && |Notifications(r2.vitals[|t.vitals|..], r2.alerts)| == 1
  {
    var hot := VitalCreate("patient-1", "sensor-1", now, 150, 95.0, 110, 70, 98.0);
    var calm := VitalCreate("patient-1", "sensor-1", now, 80, 96.0, 110, 70, 98.0);
    assert [hot][..0] == [] && [calm][..0] == [];
  }
}

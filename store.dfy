/** The rows of the Python backend's store (app/models) and the
    SQLAlchemy unit of work (the `AsyncSession`) that the ingestion service,
    the alert evaluator and the alerts router write through. The engine
    itself is not modelled: a session is two snapshots of the tables, the
    one its own queries see (rows added and flushed, not yet committed) and
    the one last committed. */
module Store {
  import opened Wrappers

  type PatientId = string

  datatype Severity = Critical | Warning

  /** An ingestion payload item (schema `VitalCreate`); its timestamp is required. */
  datatype VitalCreate = VitalCreate(
    patientId: PatientId, sensorId: string, timestamp: int,
    heartRate: int, spo2: real, systolicBp: int, diastolicBp: int, bodyTemp: real)

  /** A stored reading; `timestamp` is `None` only for an object built without one. */
  datatype Vital = Vital(
    id: nat, patientId: PatientId, sensorId: string, timestamp: Option<int>,
    heartRate: int, spo2: real, systolicBp: int, diastolicBp: int, bodyTemp: real)

  /** Per-patient bounds; the table has a unique constraint on `patientId`. */
  datatype Threshold = Threshold(patientId: PatientId, hrMax: int, spo2Min: real)

  /** The text of an alert, kept as the values the source formats into it. */
  datatype AlertText =
    | CriticalVitals(heartRate: int, spo2: real)  // "Critical vital signs: HR .. bpm, SpO2 ..%"
    | HighHeartRate(heartRate: int)               // "High heart rate approaching limit: .. bpm"

  datatype Alert = Alert(
    id: nat, patientId: PatientId, severity: Severity, message: AlertText,
    timestamp: int, isAcknowledged: bool)

  /** The vitals and alert tables with their autoincrement counters. */
  datatype Tables = Tables(vitals: seq<Vital>, alerts: seq<Alert>, nextVitalId: nat, nextAlertId: nat)

  /** `session.add(vital); flush()`: the row gets the next id and is appended. */
  function WithVital(t: Tables, v: Vital): (r: Tables)
    ensures r.vitals == t.vitals + [v.(id := t.nextVitalId)]
    ensures r.alerts == t.alerts && r.nextAlertId == t.nextAlertId
    ensures r.nextVitalId == t.nextVitalId + 1
  {
    t.(vitals := t.vitals + [v.(id := t.nextVitalId)], nextVitalId := t.nextVitalId + 1)
  }

  /** `session.add(alert); flush()`. */
  function WithAlert(t: Tables, a: Alert): (r: Tables)
    ensures r.alerts == t.alerts + [a.(id := t.nextAlertId)]
    ensures r.vitals == t.vitals && r.nextVitalId == t.nextVitalId
    ensures r.nextAlertId == t.nextAlertId + 1
  {
    t.(alerts := t.alerts + [a.(id := t.nextAlertId)], nextAlertId := t.nextAlertId + 1)
  }

  class Session {
    var patients: set<PatientId>
    var thresholds: map<PatientId, Threshold>
    /** What queries issued through this session see (autoflush). */
    var tables: Tables
    /** What was durably committed. */
    var committed: Tables

    constructor (patients: set<PatientId>, thresholds: map<PatientId, Threshold>, tables: Tables)
      ensures this.patients == patients && this.thresholds == thresholds
      ensures this.tables == tables && this.committed == tables
    {
      this.patients := patients;
      this.thresholds := thresholds;
      this.tables := tables;
      this.committed := tables;
    }

    method AddVital(v: Vital) returns (stored: Vital)
      modifies this
      ensures stored == v.(id := old(tables.nextVitalId))
      ensures tables == WithVital(old(tables), v)
      ensures patients == old(patients) && thresholds == old(thresholds) && committed == old(committed)
    {
      stored := v.(id := tables.nextVitalId);
      tables := WithVital(tables, v);
    }

    method AddAlert(a: Alert) returns (stored: Alert)
      modifies this
      ensures stored == a.(id := old(tables.nextAlertId))
      ensures tables == WithAlert(old(tables), a)
      ensures patients == old(patients) && thresholds == old(thresholds) && committed == old(committed)
    {
      stored := a.(id := tables.nextAlertId);
      tables := WithAlert(tables, a);
    }

    /** `is_acknowledged = True` on a loaded alert. */
    method SetAcknowledged(i: nat)
      requires i < |tables.alerts|
      modifies this
      ensures tables == old(tables).(alerts := old(tables.alerts)[i := old(tables.alerts)[i].(isAcknowledged := true)])
      ensures patients == old(patients) && thresholds == old(thresholds) && committed == old(committed)
    {
      tables := tables.(alerts := tables.alerts[i := tables.alerts[i].(isAcknowledged := true)]);
    }

    /** `await session.commit()`; `fails` says whether the database raised. */
    method Commit(fails: bool) returns (ok: bool)
      modifies this
      ensures ok == !fails
      ensures committed == if ok then old(tables) else old(committed)
      ensures tables == old(tables) && patients == old(patients) && thresholds == old(thresholds)
    {
      ok := !fails;
      if ok {
        committed := tables;
      }
    }
  }
}

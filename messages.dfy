/** The logical shapes of the JSON messages the Python backend hands to
    `ConnectionManager.broadcast`; the `type` discriminator is the
    constructor. Serialisation (`json.dumps`, `isoformat`) is not modelled:
    a message stands for its text. */
module Messages {
  import opened Wrappers
  import opened Store

  /** One row of the poller's SELECT over `vitals` joined with `patients`. */
  datatype PollRow = PollRow(
    vitalsId: nat, patientId: nat, deviceId: Option<nat>, ts: int,
    heartRate: Option<int>, spo2: Option<real>, bpSystolic: Option<int>, bpDiastolic: Option<int>,
    temperatureC: Option<real>, respiration: Option<int>, metadata: Option<string>,
    firstName: Option<string>, lastName: Option<string>)

  datatype Message =
    | VitalUpdate(patientId: PatientId, heartRate: int, spo2: real, readingTime: Option<int>)   // "VITAL_UPDATE"
    | AlertNew(alertId: nat, patientId: PatientId, severity: Severity, message: AlertText, raisedAt: int)  // "ALERT_NEW"
    | AlertAck(id: int)                                                  // "ALERT_ACK"
    | VitalsBatch(count: nat, data: seq<PollRow>, sentAt: int)        // "vitals_update"
}

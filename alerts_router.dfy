/** backend/app/api/routers/alerts.py: listing the alert table and the
    acknowledgement transition, which is the only place an alert's
    `is_acknowledged` flag is set. HTTP routing and dependency injection are
    not modelled: a handler is a call with the session and the connection
    registry as arguments, and an `HTTPException` is an `Err` result. */
module AlertsRouter {
  import opened Wrappers
  import opened Store
  import opened Messages
  import opened Connections

  /** Response schema `AlertRead`: the row with `id` renamed `alert_id`. */
  datatype AlertRead = AlertRead(
    alertId: nat, patientId: PatientId, severity: Severity, message: AlertText,
    timestamp: int, isAcknowledged: bool)

  /** Response schema `AlertAckResponse`. */
  datatype AckResponse = AckResponse(alertId: int, acknowledged: bool)

  /** The two ways acknowledgement fails: 404 "Alert not found", or the commit raises. */
  datatype RouteError = NotFound | StorageFailure

  function ToRead(a: Alert): AlertRead
  {
    AlertRead(a.id, a.patientId, a.severity, a.message, a.timestamp, a.isAcknowledged)
  }

  /** Reading a response record back as the row it was built from. */
  function FromRead(r: AlertRead): Alert
  {
    Alert(r.alertId, r.patientId, r.severity, r.message, r.timestamp, r.isAcknowledged)
  }

  /** `list_alerts`: one record per stored alert, in table order. */
  function ListAlerts(alerts: seq<Alert>): (r: seq<AlertRead>)
    ensures |r| == |alerts|
    ensures forall i :: 0 <= i < |r| ==> r[i].alertId == alerts[i].id
  {
    if alerts == [] then [] else [ToRead(alerts[0])] + ListAlerts(alerts[1..])
  }

  /** The listing loses nothing: every row can be read back from its record. */
  lemma {:induction false} ListAlertsFaithful(alerts: seq<Alert>)
    ensures forall i :: 0 <= i < |alerts| ==> FromRead(ListAlerts(alerts)[i]) == alerts[i]
  {
    if alerts != [] {
      ListAlertsFaithful(alerts[1..]);
      assert forall i :: 1 <= i < |alerts| ==> ListAlerts(alerts)[i] == ListAlerts(alerts[1..])[i - 1];
    }
  }

  /** `select(Alert).where(Alert.id == alert_id)...first()`: the first row
      with that id, as an index. */
  function FindAlert(alerts: seq<Alert>, alertId: int): (r: Option<nat>)
    ensures r.None? <==> forall j :: 0 <= j < |alerts| ==> alerts[j].id != alertId
    ensures r.Some? ==> r.value < |alerts| && alerts[r.value].id == alertId
    ensures r.Some? ==> forall j :: 0 <= j < r.value ==> alerts[j].id != alertId
  {
    if alerts == [] then None
    else if alerts[0].id == alertId then Some(0)
    else
      var rest := FindAlert(alerts[1..], alertId);
      assert forall j :: 1 <= j < |alerts| ==> alerts[j] == alerts[1..][j - 1];
      match rest
      case None => None
      case Some(k) => Some(k + 1)
  }

  /** The table after `alert.is_acknowledged = True` on row `i`. */
  function AckAt(alerts: seq<Alert>, i: nat): (r: seq<Alert>)
    requires i < |alerts|
    ensures |r| == |alerts|
    ensures r[i] == alerts[i].(isAcknowledged := true)
    ensures forall j :: 0 <= j < |r| && j != i ==> r[j] == alerts[j]
  {
    alerts[i := alerts[i].(isAcknowledged := true)]
  }

  /** Acknowledgement never clears a flag, and doing it twice is doing it once. */
  lemma AckMonotoneIdempotent(alerts: seq<Alert>, i: nat)
    requires i < |alerts|
    ensures forall j :: 0 <= j < |alerts| && alerts[j].isAcknowledged ==> AckAt(alerts, i)[j].isAcknowledged
    ensures AckAt(AckAt(alerts, i), i) == AckAt(alerts, i)
  {
  }

  /** `acknowledge_alert`: 404 with nothing changed for an unknown id;
      otherwise the flag is set and committed, and only after the commit
      returns is `ALERT_ACK` broadcast and the acknowledgement returned. */
  method AcknowledgeAlert(session: Session, manager: ConnectionManager, alertId: int,
                          commitFails: bool, dead: set<Conn>)
    returns (r: Result<AckResponse, RouteError>)
    modifies session, manager
    ensures session.patients == old(session.patients) && session.thresholds == old(session.thresholds)
    ensures FindAlert(old(session.tables.alerts), alertId).None? ==>
              r == Err(NotFound) && unchanged(session) && unchanged(manager)
    ensures FindAlert(old(session.tables.alerts), alertId).Some? ==>
              var i := FindAlert(old(session.tables.alerts), alertId).value;
              && session.tables == old(session.tables).(alerts := AckAt(old(session.tables.alerts), i))
              && (commitFails ==>
                    r == Err(StorageFailure) && session.committed == old(session.committed) && unchanged(manager))
              && (!commitFails ==>
                    && r == Ok(AckResponse(alertId, true))
                    && session.committed == session.tables
                    && manager.broadcasts == old(manager.broadcasts) + [AlertAck(alertId)]
                    && manager.activeConnections == Passing(old(manager.activeConnections), dead)
                    && manager.outbox == old(manager.outbox)
                                         + FanOut(Passing(old(manager.activeConnections), dead), AlertAck(alertId)))
  {
    var found := FindAlert(session.tables.alerts, alertId);
    if found.None? {
      return Err(NotFound);
    }
    session.SetAcknowledged(found.value);
    var ok := session.Commit(commitFails);
    if !ok {
      return Err(StorageFailure);
    }
    manager.Broadcast(AlertAck(alertId), dead);
    r := Ok(AckResponse(alertId, true));
  }
}

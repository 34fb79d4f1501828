/** backend/app/services/alert_evaluator.py: classification of one reading
    against its patient's threshold, with the one-minute deduplication of
    critical alerts, and the placeholder `evaluate_vital` appended to the
    same file. */
module AlertEvaluator {
  import opened Wrappers
  import opened Store

  /** `timedelta(minutes=1)`, in seconds. */
  const DedupWindow: int := 60

  /** `int(hr_max * 0.9)`: the product truncated toward zero. */
  function WarningFloor(hrMax: int): (f: int)
    ensures hrMax >= 0 ==> 0 <= 10 * f <= 9 * hrMax < 10 * f + 10
    ensures hrMax < 0 ==> 10 * f - 10 < 9 * hrMax <= 10 * f <= 0
  {
    if hrMax >= 0 then (9 * hrMax) / 10 else -((9 * -hrMax) / 10)
  }

  /** `vital.timestamp or datetime.now(timezone.utc)`. */
  function ReadingTime(v: Vital, now: int): int
  {
    match v.timestamp
    case Some(t) => t
    case None => now
  }

  predicate IsCritical(v: Vital, t: Threshold)
  {
    v.heartRate > t.hrMax || v.spo2 < t.spo2Min
  }

  predicate IsWarning(v: Vital, t: Threshold)
  {
    !IsCritical(v, t) && v.heartRate >= WarningFloor(t.hrMax)
  }

  /** A row the deduplication query selects. */
  predicate Suppresses(a: Alert, patientId: PatientId, since: int)
  {
    a.patientId == patientId && a.severity == Critical && !a.isAcknowledged && a.timestamp >= since
  }

  predicate HasRecentCritical(alerts: seq<Alert>, patientId: PatientId, since: int)
  {
    exists i :: 0 <= i < |alerts| && Suppresses(alerts[i], patientId, since)
  }

  /** The deduplication query followed by `.first()`. */
  function FirstSuppressing(alerts: seq<Alert>, patientId: PatientId, since: int): (r: Option<Alert>)
    ensures r.Some? <==> HasRecentCritical(alerts, patientId, since)
    ensures r.Some? ==> r.value in alerts && Suppresses(r.value, patientId, since)
  {
    if alerts == [] then None
    else if Suppresses(alerts[0], patientId, since) then Some(alerts[0])
    else
      var r := FirstSuppressing(alerts[1..], patientId, since);
      assert HasRecentCritical(alerts, patientId, since) ==> HasRecentCritical(alerts[1..], patientId, since) by {
        if HasRecentCritical(alerts, patientId, since) {
          var i :| 0 <= i < |alerts| && Suppresses(alerts[i], patientId, since);
          assert i != 0 && alerts[1..][i - 1] == alerts[i];
        }
      }
      assert HasRecentCritical(alerts[1..], patientId, since) ==> HasRecentCritical(alerts, patientId, since) by {
        if HasRecentCritical(alerts[1..], patientId, since) {
          var i :| 0 <= i < |alerts[1..]| && Suppresses(alerts[1..][i], patientId, since);
          assert alerts[i + 1] == alerts[1..][i];
        }
      }
      r
  }

  /** The alert `evaluate` adds to the session for reading `v`, given the
      alerts the session already holds; its id is assigned on flush. */
  function Decide(v: Vital, threshold: Option<Threshold>, alerts: seq<Alert>, now: int): (r: Option<Alert>)
    ensures threshold.None? ==> r.None?
    ensures r.Some? ==> r.value.patientId == v.patientId && r.value.timestamp == ReadingTime(v, now)
    ensures r.Some? ==> !r.value.isAcknowledged
    ensures (r.Some? && r.value.severity == Critical) <==>
              threshold.Some? && IsCritical(v, threshold.value)
              && !HasRecentCritical(alerts, v.patientId, ReadingTime(v, now) - DedupWindow)
    ensures (r.Some? && r.value.severity == Warning) <==> threshold.Some? && IsWarning(v, threshold.value)
  {
    match threshold
    case None => None
    case Some(t) =>
      var at := ReadingTime(v, now);
      if IsCritical(v, t) then
        if HasRecentCritical(alerts, v.patientId, at - DedupWindow) then None
        else Some(Alert(0, v.patientId, Critical, CriticalVitals(v.heartRate, v.spo2), at, false))
      else if IsWarning(v, t) then
        Some(Alert(0, v.patientId, Warning, HighHeartRate(v.heartRate), at, false))
      else None
  }

  /** `AlertEvaluator.evaluate`: the decided alert, if any, is added and flushed
      before it is returned; every `None` path leaves the session alone. */
  method Evaluate(session: Session, v: Vital, threshold: Option<Threshold>, now: int) returns (r: Option<Alert>)
    modifies session
    ensures Decide(v, threshold, old(session.tables.alerts), now).None? ==>
              r.None? && session.tables == old(session.tables)
    ensures Decide(v, threshold, old(session.tables.alerts), now).Some? ==>
              var d := Decide(v, threshold, old(session.tables.alerts), now).value;
              r == Some(d.(id := old(session.tables.nextAlertId)))
              && session.tables == WithAlert(old(session.tables), d)
    ensures session.patients == old(session.patients) && session.thresholds == old(session.thresholds)
    ensures session.committed == old(session.committed)
  {
    if threshold.None? {
      return None;
    }
    var t := threshold.value;
    var at := ReadingTime(v, now);
    var isCritical := v.heartRate > t.hrMax || v.spo2 < t.spo2Min;
    var isWarning := !isCritical && v.heartRate >= WarningFloor(t.hrMax);
    var alert: Alert;
    if isCritical {
      var existing := FirstSuppressing(session.tables.alerts, v.patientId, at - DedupWindow);
      if existing.Some? {
        return None;
      }
      alert := Alert(0, v.patientId, Critical, CriticalVitals(v.heartRate, v.spo2), at, false);
    } else if isWarning {
      alert := Alert(0, v.patientId, Warning, HighHeartRate(v.heartRate), at, false);
    } else {
      return None;
    }
    var stored := session.AddAlert(alert);
    r := Some(stored);
  }

  /** A heart rate equal to `hr_max` is not critical: the comparison is strict,
      and such a reading is a warning instead (for a non-negative `hr_max`). */
  lemma EqualToMaxIsWarning(v: Vital, t: Threshold, alerts: seq<Alert>, now: int)
    requires t.hrMax >= 0 && v.heartRate == t.hrMax && v.spo2 >= t.spo2Min
    ensures Decide(v, Some(t), alerts, now).Some?
    ensures Decide(v, Some(t), alerts, now).value.severity == Warning
  {
  }

  /** Every heart rate from 0.9 * hr_max up to hr_max, with SpO2 at or above its
      minimum, raises a warning whatever the alert history. */
  lemma {:induction false} WarningBand(v: Vital, t: Threshold, alerts: seq<Alert>, now: int)
    requires t.hrMax >= 0 && 10 * v.heartRate >= 9 * t.hrMax && v.heartRate <= t.hrMax
    requires v.spo2 >= t.spo2Min
    ensures Decide(v, Some(t), alerts, now) ==
              Some(Alert(0, v.patientId, Warning, HighHeartRate(v.heartRate), ReadingTime(v, now), false))
  {
    var f := WarningFloor(t.hrMax);
    assert 10 * f <= 9 * t.hrMax <= 10 * v.heartRate;
  }

  /** Warnings are never deduplicated: without a critical breach the decision
      does not depend on the alerts already stored. */
  lemma WarningsIgnoreHistory(v: Vital, t: Threshold, alerts1: seq<Alert>, alerts2: seq<Alert>, now: int)
    requires !IsCritical(v, t)
    ensures Decide(v, Some(t), alerts1, now) == Decide(v, Some(t), alerts2, now)
  {
  }

  /** Acknowledged alerts, warnings, alerts of other patients and alerts older
      than the window never suppress a critical alert. */
  lemma {:induction false} OnlyRecentUnacknowledgedCriticalSuppresses(
    v: Vital, th: Option<Threshold>, alerts: seq<Alert>, a: Alert, now: int)
    requires !Suppresses(a, v.patientId, ReadingTime(v, now) - DedupWindow)
    ensures Decide(v, th, alerts + [a], now) == Decide(v, th, alerts, now)
  {
    var since := ReadingTime(v, now) - DedupWindow;
    if HasRecentCritical(alerts + [a], v.patientId, since) {
      var i :| 0 <= i < |alerts + [a]| && Suppresses((alerts + [a])[i], v.patientId, since);
      assert i < |alerts| && (alerts + [a])[i] == alerts[i];
    }
    if HasRecentCritical(alerts, v.patientId, since) {
      var i :| 0 <= i < |alerts| && Suppresses(alerts[i], v.patientId, since);
      assert (alerts + [a])[i] == alerts[i];
    }
  }

  /** An unacknowledged critical alert of the same patient at or after one minute
      before the reading suppresses a critical reading; the window has no upper
      bound, so an alert stamped later than the reading suppresses too. */
  lemma {:induction false} Deduplicated(v: Vital, th: Threshold, alerts: seq<Alert>, i: nat, now: int)
    requires IsCritical(v, th)
    requires i < |alerts| && alerts[i].patientId == v.patientId && alerts[i].severity == Critical
    requires !alerts[i].isAcknowledged && alerts[i].timestamp >= ReadingTime(v, now) - DedupWindow
    ensures Decide(v, Some(th), alerts, now).None?
  {
    assert Suppresses(alerts[i], v.patientId, ReadingTime(v, now) - DedupWindow);
  }

  /** The evaluator's own tests: thresholds 120/92, reading 150/95 is critical,
      reading 80/96 raises nothing; an unacknowledged critical alert raised 30
      seconds earlier suppresses the critical one. */
  lemma EvaluatorExamples(now: int)
    ensures var t := Threshold("p1", 120, 92.0);
            var hot := Vital(0, "p1", "s1", Some(now), 150, 95.0, 120, 80, 98.6);
            var calm := Vital(0, "p1", "s1", Some(now), 80, 96.0, 115, 75, 98.4);
            var prior := Alert(7, "p1", Critical, CriticalVitals(150, 95.0), now - 30, false);
            && Decide(hot, Some(t), [], now) == Some(Alert(0, "p1", Critical, CriticalVitals(150, 95.0), now, false))
            && Decide(calm, Some(t), [], now).None?
            && Decide(hot, Some(t), [prior], now).None?
  {
    var t := Threshold("p1", 120, 92.0);
    var hot := Vital(0, "p1", "s1", Some(now), 150, 95.0, 120, 80, 98.6);
    var prior := Alert(7, "p1", Critical, CriticalVitals(150, 95.0), now - 30, false);
    Deduplicated(hot, t, [prior], 0, now);
  }

  /** The payload `evaluate_vital` reads (a different schema: SpO2 is optional). */
  datatype StubPayload = StubPayload(heartRate: int, spo2: Option<real>)

  /** `evaluate_vital`: fixed limits, independent of any threshold row. */
  function EvaluateVital(p: StubPayload): (r: seq<string>)
    ensures "Low SpO2" in r <==> p.spo2.Some? && p.spo2.value < 90.0
    ensures "Abnormal heart rate" in r <==> p.heartRate < 40 || p.heartRate > 150
    ensures |r| <= 2
    ensures |r| == 2 ==> r == ["Low SpO2", "Abnormal heart rate"]
  {
    var spo2Alerts := if p.spo2.Some? && p.spo2.value < 90.0 then ["Low SpO2"] else [];
    spo2Alerts + (if p.heartRate < 40 || p.heartRate > 150 then ["Abnormal heart rate"] else [])
  }
}

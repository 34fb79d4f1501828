/** frontend/components/PatientDashboard.jsx: the three functions of the
    patient dashboard that decide what it shows, and nothing of its
    rendering. An alert is kept as the vital it is about and whether it is
    critical; its title follows from those, and its body, time and
    reassurance texts are not modelled. */
module Dashboard {
  import opened Wrappers
  import opened Strings

  datatype VitalKind = HeartRate | SpO2 | BpSystolic | Temperature | Respiration

  /** The order the five checks run in. */
  const Kinds: seq<VitalKind> := [HeartRate, SpO2, BpSystolic, Temperature, Respiration]

  function Rank(k: VitalKind): nat
  {
    match k
    case HeartRate => 0
    case SpO2 => 1
    case BpSystolic => 2
    case Temperature => 3
    case Respiration => 4
  }

  /** The `name` a threshold entry carries for each vital. */
  function ThresholdName(k: VitalKind): string
  {
    match k
    case HeartRate => "heart_rate"
    case SpO2 => "spo2"
    case BpSystolic => "bp_systolic"
    case Temperature => "temperature_c"
    case Respiration => "respiration"
  }

  /** The words that open an alert's title. */
  function Label(k: VitalKind): string
  {
    match k
    case HeartRate => "Heart Rate"
    case SpO2 => "Oxygen Level"
    case BpSystolic => "Blood Pressure"
    case Temperature => "Temperature"
    case Respiration => "Respiration Rate"
  }

  /** The latest reading; `None` for a value that is null or undefined. */
  datatype Vitals = Vitals(
    heartRate: Option<real>, spo2: Option<real>, bpSystolic: Option<real>,
    temperature: Option<real>, respiration: Option<real>)

  function ValueOf(v: Vitals, k: VitalKind): Option<real>
  {
    match k
    case HeartRate => v.heartRate
    case SpO2 => v.spo2
    case BpSystolic => v.bpSystolic
    case Temperature => v.temperature
    case Respiration => v.respiration
  }

  /** One row of the thresholds list: `{ name, type, min_value, max_value }`. */
  datatype ThresholdEntry = ThresholdEntry(name: string, entryType: string, minValue: Option<real>, maxValue: Option<real>)

  const CriticalLevel: string := "critical"
  const WarningLevel: string := "warning"

  /** `getThresholdValue`: the first entry with that name and type, if any. */
  function GetThresholdValue(thresholds: seq<ThresholdEntry>, name: string, entryType: string): (r: Option<ThresholdEntry>)
    ensures r.None? <==> forall i :: 0 <= i < |thresholds| ==> !(thresholds[i].name == name && thresholds[i].entryType == entryType)
    ensures r.Some? ==> r.value in thresholds && r.value.name == name && r.value.entryType == entryType
    ensures r.Some? ==> exists i :: 0 <= i < |thresholds| && thresholds[i] == r.value
                         && forall j :: 0 <= j < i ==> !(thresholds[j].name == name && thresholds[j].entryType == entryType)
  {
    if thresholds == [] then None
    else if thresholds[0].name == name && thresholds[0].entryType == entryType then Some(thresholds[0])
    else
      assert forall i :: 0 <= i < |thresholds[1..]| ==> thresholds[1..][i] == thresholds[i + 1];
      GetThresholdValue(thresholds[1..], name, entryType)
  }

  /** A value is out of an entry's range: below a non-null minimum or above a non-null maximum. */
  predicate Breaches(value: real, e: ThresholdEntry)
  {
    (e.minValue.Some? && value < e.minValue.value) || (e.maxValue.Some? && value > e.maxValue.value)
  }

  /** The vital has a value, there is an entry of that level for it, and the value breaches it. */
  predicate BreachOf(v: Vitals, thresholds: seq<ThresholdEntry>, k: VitalKind, level: string)
  {
    && ValueOf(v, k).Some?
    && GetThresholdValue(thresholds, ThresholdName(k), level).Some?
    && Breaches(ValueOf(v, k).value, GetThresholdValue(thresholds, ThresholdName(k), level).value)
  }

  /** A generated alert; `kind == None` is the "All Vitals Normal" item. */
  datatype DashAlert = DashAlert(kind: Option<VitalKind>, isCritical: bool)

  const AllNormal: DashAlert := DashAlert(None, false)

  function Title(a: DashAlert): string
  {
    match a.kind
    case None => "All Vitals Normal"
    case Some(k) => Label(k) + (if a.isCritical then " Critical" else " Warning")
  }

  /** What the checks for one vital contribute: the critical alert, else the warning, else nothing. */
  function KindAlerts(v: Vitals, thresholds: seq<ThresholdEntry>, k: VitalKind): (r: seq<DashAlert>)
    ensures |r| <= 1
    ensures forall a :: a in r ==> a.kind == Some(k)
  {
    if BreachOf(v, thresholds, k, CriticalLevel) then [DashAlert(Some(k), true)]
    else if BreachOf(v, thresholds, k, WarningLevel) then [DashAlert(Some(k), false)]
    else []
  }

  /** The alerts pushed by the checks of `ks`, in check order. */
  function Raised(v: Vitals, thresholds: seq<ThresholdEntry>, ks: seq<VitalKind>): (r: seq<DashAlert>)
    ensures |r| <= |ks|
  {
    if ks == [] then []
    else Raised(v, thresholds, ks[..|ks| - 1]) + KindAlerts(v, thresholds, ks[|ks| - 1])
  }

  /** The alerts of one severity, in their order. */
  function Group(s: seq<DashAlert>, critical: bool): (r: seq<DashAlert>)
    ensures |r| <= |s|
  {
    if s == [] then []
    else if s[0].isCritical == critical then [s[0]] + Group(s[1..], critical)
    else Group(s[1..], critical)
  }

  /** `alerts.sort(critical first)`: `Array.prototype.sort` is stable, so
      the sort is a stable partition. */
  function CriticalFirst(s: seq<DashAlert>): seq<DashAlert>
  {
    Group(s, true) + Group(s, false)
  }

  /** What `generateAlerts(vitals, thresholds)` returns. */
  function Expected(vitals: Option<Vitals>, thresholds: Option<seq<ThresholdEntry>>): seq<DashAlert>
  {
    if vitals.None? || thresholds.None? || thresholds.value == [] then []
    else
      var raised := Raised(vitals.value, thresholds.value, Kinds);
      if raised == [] then [AllNormal] else CriticalFirst(raised)
  }

  /** The five checks of `generateAlerts` for one vital. A warning is pushed
      only if no alert titled "<vital> Critical" is in the list yet. */
  method CheckVital(alerts: seq<DashAlert>, v: Vitals, thresholds: seq<ThresholdEntry>, k: VitalKind)
    returns (r: seq<DashAlert>)
    requires forall a :: a in alerts ==> a.kind.Some? && a.kind != Some(k)
    ensures r == alerts + KindAlerts(v, thresholds, k)
  {
    r := alerts;
    var value := ValueOf(v, k);
    if value.Some? {
      var critical := GetThresholdValue(thresholds, ThresholdName(k), CriticalLevel);
      var warning := GetThresholdValue(thresholds, ThresholdName(k), WarningLevel);
      if critical.Some? {
        if Breaches(value.value, critical.value) {
          r := r + [DashAlert(Some(k), true)];
        }
      }
      var criticalTitle := Label(k) + " Critical";
      var found := exists a :: a in r && Title(a) == criticalTitle;
      TitleIdentifies(k, r);
      if warning.Some? && !found {
        if Breaches(value.value, warning.value) {
          r := r + [DashAlert(Some(k), false)];
        }
      }
    }
  }

  /** Among alerts of vitals, the title "<vital> Critical" names exactly that vital's critical alert. */
  lemma TitleIdentifies(k: VitalKind, alerts: seq<DashAlert>)
    requires forall a :: a in alerts ==> a.kind.Some?
    ensures (exists a :: a in alerts && Title(a) == Label(k) + " Critical") <==> DashAlert(Some(k), true) in alerts
  {
    forall a | a in alerts && Title(a) == Label(k) + " Critical"
      ensures a == DashAlert(Some(k), true)
    {
      var j := a.kind.value;
      var u := Label(k) + " Critical";
      if !a.isCritical {
        TitlesDiffer(j, k);
      } else {
        var t := Label(j) + " Critical";
        assert t[..|t| - 9] == Label(j) && u[..|u| - 9] == Label(k);
        LabelInjective(j, k);
      }
    }
  }

  lemma TitlesDiffer(j: VitalKind, k: VitalKind)
    ensures Label(j) + " Warning" != Label(k) + " Critical"
  {
    var t := Label(j) + " Warning";
    var u := Label(k) + " Critical";
    assert t[|t| - 1] == 'g' && u[|u| - 1] == 'l';
  }

  lemma LabelInjective(j: VitalKind, k: VitalKind)
    ensures Label(j) == Label(k) ==> j == k
  {
    assert |Label(HeartRate)| == 10 && |Label(SpO2)| == 12 && |Label(BpSystolic)| == 14;
    assert |Label(Temperature)| == 11 && |Label(Respiration)| == 16;
  }

  /** `generateAlerts`: [] without vitals or thresholds; otherwise the five
      checks in order, sorted critical first, or the single normal item. */
  method GenerateAlerts(vitals: Option<Vitals>, thresholds: Option<seq<ThresholdEntry>>) returns (r: seq<DashAlert>)
    ensures r == Expected(vitals, thresholds)
  {
    if vitals.None? || thresholds.None? || |thresholds.value| == 0 {
      return [];
    }
    var v := vitals.value;
    var ts := thresholds.value;
    var alerts: seq<DashAlert> := [];
    var n := 0;
    assert Kinds[..n] == [];
    while n < |Kinds|
      invariant 0 <= n <= |Kinds|
      invariant alerts == Raised(v, ts, Kinds[..n])
    {
      EarlierChecks(v, ts, n);
      RaisedStep(v, ts, Kinds, n);
      alerts := CheckVital(alerts, v, ts, Kinds[n]);
      n := n + 1;
    }
    SortedIsExpected(v, ts, alerts);
    alerts := CriticalFirst(alerts);
    if |alerts| == 0 {
      return [AllNormal];
    }
    r := alerts;
  }

  /** One more check appends that vital's alerts. */
  lemma RaisedStep(v: Vitals, thresholds: seq<ThresholdEntry>, ks: seq<VitalKind>, n: nat)
    requires n < |ks|
    ensures Raised(v, thresholds, ks[..n + 1]) == Raised(v, thresholds, ks[..n]) + KindAlerts(v, thresholds, ks[n])
  {
    var next := ks[..n + 1];
    assert next[..n] == ks[..n] && next[n] == ks[n];
  }

  /** After all five checks, sorting gives the expected list, and it is
      empty exactly when nothing was raised. */
  lemma SortedIsExpected(v: Vitals, thresholds: seq<ThresholdEntry>, alerts: seq<DashAlert>)
    requires thresholds != [] && alerts == Raised(v, thresholds, Kinds[..|Kinds|])
    ensures |CriticalFirst(alerts)| == 0 ==> Expected(Some(v), Some(thresholds)) == [AllNormal]
    ensures |CriticalFirst(alerts)| != 0 ==> Expected(Some(v), Some(thresholds)) == CriticalFirst(alerts)
  {
    assert Kinds[..|Kinds|] == Kinds;
    GroupPartition(alerts);
    assert |multiset(CriticalFirst(alerts))| == |multiset(alerts)|;
  }

  lemma KindsRanked()
    ensures forall i :: 0 <= i < |Kinds| ==> Rank(Kinds[i]) == i
    ensures forall k :: k in Kinds
  {
    forall k: VitalKind ensures k in Kinds {
      if k == HeartRate { assert Kinds[0] == k; }
      else if k == SpO2 { assert Kinds[1] == k; }
      else if k == BpSystolic { assert Kinds[2] == k; }
      else if k == Temperature { assert Kinds[3] == k; }
      else { assert Kinds[4] == k; }
    }
  }

  /** An alert is raised by the checks of `ks` iff it is the one its vital's checks give. */
  lemma {:induction false} RaisedMembers(v: Vitals, thresholds: seq<ThresholdEntry>, ks: seq<VitalKind>)
    ensures forall a :: a in Raised(v, thresholds, ks) <==>
              a.kind.Some? && a.kind.value in ks && KindAlerts(v, thresholds, a.kind.value) == [a]
  {
    if ks != [] {
      var n := |ks| - 1;
      RaisedMembers(v, thresholds, ks[..n]);
      assert ks == ks[..n] + [ks[n]];
      forall a ensures a in KindAlerts(v, thresholds, ks[n]) <==> a.kind == Some(ks[n]) && KindAlerts(v, thresholds, ks[n]) == [a] {
      }
    }
  }

  /** The alerts of the first `n` checks are about other vitals than check `n`'s. */
  lemma EarlierChecks(v: Vitals, thresholds: seq<ThresholdEntry>, n: nat)
    requires n < |Kinds|
    ensures forall a :: a in Raised(v, thresholds, Kinds[..n]) ==> a.kind.Some? && a.kind != Some(Kinds[n])
  {
    KindsRanked();
    RaisedRanks(v, thresholds, n);
    RaisedMembers(v, thresholds, Kinds[..n]);
  }

  /** Strictly increasing check order. */
  predicate RanksIncreasing(s: seq<DashAlert>)
  {
    && (forall i :: 0 <= i < |s| ==> s[i].kind.Some?)
    && forall i, j :: 0 <= i < j < |s| ==> Rank(s[i].kind.value) < Rank(s[j].kind.value)
  }

  lemma {:induction false} RaisedRanks(v: Vitals, thresholds: seq<ThresholdEntry>, n: nat)
    requires n <= |Kinds|
    ensures RanksIncreasing(Raised(v, thresholds, Kinds[..n]))
    ensures forall a :: a in Raised(v, thresholds, Kinds[..n]) ==> Rank(a.kind.value) < n
  {
    if n == 0 {
      assert Kinds[..n] == [];
    } else {
      RaisedRanks(v, thresholds, n - 1);
      RaisedStep(v, thresholds, Kinds, n - 1);
      RankAt(n - 1);
      var r0, last := Raised(v, thresholds, Kinds[..n - 1]), KindAlerts(v, thresholds, Kinds[n - 1]);
      RanksAppend(r0, last, n - 1);
      assert Raised(v, thresholds, Kinds[..n]) == r0 + last;
    }
  }

  lemma RankAt(i: nat)
    requires i < |Kinds|
    ensures Rank(Kinds[i]) == i
  {
  }

  /** Two rank-ordered lists, the first all below rank `m` and the second all
      at or above it, concatenate to a rank-ordered list. */
  lemma RanksAppend(a: seq<DashAlert>, b: seq<DashAlert>, m: nat)
    requires RanksIncreasing(a) && RanksIncreasing(b)
    requires forall x :: x in a ==> Rank(x.kind.value) < m
    requires forall y :: y in b ==> m <= Rank(y.kind.value)
    ensures RanksIncreasing(a + b)
    ensures forall x :: x in a + b ==> x in a || x in b
  {
    var r := a + b;
    forall i, j | 0 <= i < j < |r| ensures Rank(r[i].kind.value) < Rank(r[j].kind.value) {
      if j < |a| {
        assert r[i] == a[i] && r[j] == a[j];
      } else if i >= |a| {
        assert r[i] == b[i - |a|] && r[j] == b[j - |a|];
      } else {
        assert r[i] in a && r[j] in b;
      }
    }
  }

  /** In a rank-ordered list the head ranks below everything after it. */
  lemma HeadBelowTail(s: seq<DashAlert>)
    requires s != [] && RanksIncreasing(s)
    ensures forall y :: y in s[1..] ==> Rank(s[0].kind.value) < Rank(y.kind.value)
  {
    forall y | y in s[1..] ensures Rank(s[0].kind.value) < Rank(y.kind.value) {
      var k :| 0 <= k < |s[1..]| && s[1..][k] == y;
      assert s[k + 1] == y;
    }
  }

  lemma {:induction false} GroupMembers(s: seq<DashAlert>, critical: bool)
    ensures forall a :: a in Group(s, critical) <==> a in s && a.isCritical == critical
  {
    if s != [] {
      GroupMembers(s[1..], critical);
      assert forall a :: a in s <==> a == s[0] || a in s[1..];
    }
  }

  lemma {:induction false} GroupRanks(s: seq<DashAlert>, critical: bool)
    requires RanksIncreasing(s)
    ensures RanksIncreasing(Group(s, critical))
  {
    if s != [] {
      assert RanksIncreasing(s[1..]);
      GroupRanks(s[1..], critical);
      if s[0].isCritical == critical {
        GroupMembers(s[1..], critical);
        HeadBelowTail(s);
        var g := Group(s[1..], critical);
        RanksAppend([s[0]], g, Rank(s[0].kind.value) + 1);
      }
    }
  }

  lemma {:induction false} GroupAppend(a: seq<DashAlert>, b: seq<DashAlert>, critical: bool)
    ensures Group(a + b, critical) == Group(a, critical) + Group(b, critical)
  {
    if a != [] {
      assert (a + b)[1..] == a[1..] + b;
      GroupAppend(a[1..], b, critical);
    } else {
      assert a + b == b;
    }
  }

  lemma {:induction false} GroupTwice(s: seq<DashAlert>, critical: bool, again: bool)
    ensures Group(Group(s, critical), again) == if critical == again then Group(s, critical) else []
  {
    if s != [] {
      GroupTwice(s[1..], critical, again);
      if s[0].isCritical == critical {
        assert ([s[0]] + Group(s[1..], critical))[1..] == Group(s[1..], critical);
      }
    }
  }

  lemma {:induction false} GroupPartition(s: seq<DashAlert>)
    ensures multiset(Group(s, true)) + multiset(Group(s, false)) == multiset(s)
  {
    if s != [] {
      GroupPartition(s[1..]);
      assert s == [s[0]] + s[1..];
    }
  }

  /** The sort is a permutation, puts every critical alert before every
      other, and keeps each severity's alerts in their original order. */
  lemma CriticalFirstSpec(s: seq<DashAlert>)
    ensures multiset(CriticalFirst(s)) == multiset(s)
    ensures forall i, j :: 0 <= i < j < |CriticalFirst(s)| && CriticalFirst(s)[j].isCritical ==> CriticalFirst(s)[i].isCritical
    ensures Group(CriticalFirst(s), true) == Group(s, true) && Group(CriticalFirst(s), false) == Group(s, false)
  {
    GroupPartition(s);
    GroupMembers(s, true);
    GroupMembers(s, false);
    var r := CriticalFirst(s);
    var c := Group(s, true);
    forall i, j | 0 <= i < j < |r| && r[j].isCritical ensures r[i].isCritical {
      if j < |c| {
        assert r[i] in c;
      }
    }
    GroupAppend(Group(s, true), Group(s, false), true);
    GroupAppend(Group(s, true), Group(s, false), false);
    GroupTwice(s, true, true);
    GroupTwice(s, true, false);
    GroupTwice(s, false, true);
    GroupTwice(s, false, false);
  }

  /** With valid inputs, an alert about a vital is shown iff it is what that vital's checks give. */
  lemma InExpected(v: Vitals, thresholds: seq<ThresholdEntry>, x: DashAlert)
    requires thresholds != [] && x.kind.Some?
    ensures x in Expected(Some(v), Some(thresholds)) <==> KindAlerts(v, thresholds, x.kind.value) == [x]
  {
    var raised := Raised(v, thresholds, Kinds);
    RaisedMembers(v, thresholds, Kinds);
    KindsRanked();
    if raised != [] {
      GroupPartition(raised);
      assert x in CriticalFirst(raised) <==> x in multiset(CriticalFirst(raised));
    }
  }

  /** Every vital has a check: with valid inputs, the critical alert of a
      vital is shown iff its critical entry is breached, and its warning iff
      the warning entry is breached and the critical one is not. */
  lemma GeneratedPerVital(vitals: Option<Vitals>, thresholds: Option<seq<ThresholdEntry>>, k: VitalKind)
    ensures var r := Expected(vitals, thresholds);
            var valid := vitals.Some? && thresholds.Some? && thresholds.value != [];
            && (DashAlert(Some(k), true) in r <==> valid && BreachOf(vitals.value, thresholds.value, k, CriticalLevel))
            && (DashAlert(Some(k), false) in r <==>
                  valid && !BreachOf(vitals.value, thresholds.value, k, CriticalLevel)
                  && BreachOf(vitals.value, thresholds.value, k, WarningLevel))
  {
    if vitals.Some? && thresholds.Some? && thresholds.value != [] {
      InExpected(vitals.value, thresholds.value, DashAlert(Some(k), true));
      InExpected(vitals.value, thresholds.value, DashAlert(Some(k), false));
    }
  }

  /** `generateAlerts` gives [] exactly for missing vitals or thresholds,
      and otherwise between one and five alerts. */
  lemma GeneratedLength(vitals: Option<Vitals>, thresholds: Option<seq<ThresholdEntry>>)
    ensures var r := Expected(vitals, thresholds);
            && (r == [] <==> vitals.None? || thresholds.None? || thresholds.value == [])
            && (r != [] ==> 1 <= |r| <= 5)
  {
    if vitals.Some? && thresholds.Some? && thresholds.value != [] {
      var raised := Raised(vitals.value, thresholds.value, Kinds);
      if raised != [] {
        CriticalFirstSpec(raised);
        assert |CriticalFirst(raised)| == |raised| by {
          assert |multiset(CriticalFirst(raised))| == |multiset(raised)|;
        }
      }
    }
  }

  /** With valid inputs that raise something, the result is the critical
      alerts then the others, each group in check order. */
  lemma RaisedSorted(v: Vitals, thresholds: seq<ThresholdEntry>)
    requires Raised(v, thresholds, Kinds) != []
    ensures var raised := Raised(v, thresholds, Kinds);
            && Expected(Some(v), Some(thresholds)) == Group(raised, true) + Group(raised, false)
            && RanksIncreasing(Group(raised, true)) && RanksIncreasing(Group(raised, false))
            && (forall a :: a in Group(raised, true) ==> a.isCritical)
            && (forall a :: a in Group(raised, false) ==> !a.isCritical)
  {
    var raised := Raised(v, thresholds, Kinds);
    RaisedRanks(v, thresholds, |Kinds|);
    assert Kinds[..|Kinds|] == Kinds;
    GroupRanks(raised, true);
    GroupRanks(raised, false);
    GroupMembers(raised, true);
    GroupMembers(raised, false);
    if thresholds == [] {
      RaisedMembers(v, thresholds, Kinds);
    }
  }

  /** Critical alerts then the others, each group in check order. */
  lemma ConcatOrder(c: seq<DashAlert>, w: seq<DashAlert>)
    requires RanksIncreasing(c) && RanksIncreasing(w)
    requires forall a :: a in c ==> a.isCritical
    requires forall a :: a in w ==> !a.isCritical
    ensures var r := c + w;
            && (forall i, j :: 0 <= i < j < |r| && r[j].isCritical ==> r[i].isCritical)
            && (forall i, j :: 0 <= i < j < |r| && r[i].isCritical == r[j].isCritical ==>
                  r[i].kind.Some? && r[j].kind.Some? && Rank(r[i].kind.value) < Rank(r[j].kind.value))
  {
    var r := c + w;
    forall i, j | 0 <= i < j < |r| && r[j].isCritical ensures r[i].isCritical {
      if j < |c| {
        assert r[i] == c[i];
      }
    }
    forall i, j | 0 <= i < j < |r| && r[i].isCritical == r[j].isCritical
      ensures r[i].kind.Some? && r[j].kind.Some? && Rank(r[i].kind.value) < Rank(r[j].kind.value)
    {
      if j < |c| {
        assert r[i] == c[i] && r[j] == c[j];
      } else if i >= |c| {
        assert r[i] == w[i - |c|] && r[j] == w[j - |c|];
      }
    }
  }

  /** Critical alerts come first, and within each severity the alerts
      follow the check order heart rate, SpO2, blood pressure, temperature,
      respiration. */
  lemma GeneratedOrder(vitals: Option<Vitals>, thresholds: Option<seq<ThresholdEntry>>)
    ensures var r := Expected(vitals, thresholds);
            && (forall i, j :: 0 <= i < j < |r| && r[j].isCritical ==> r[i].isCritical)
            && (forall i, j :: 0 <= i < j < |r| && r[i].isCritical == r[j].isCritical ==>
                  r[i].kind.Some? && r[j].kind.Some? && Rank(r[i].kind.value) < Rank(r[j].kind.value))
  {
    if vitals.Some? && thresholds.Some? && thresholds.value != [] {
      var raised := Raised(vitals.value, thresholds.value, Kinds);
      if raised != [] {
        RaisedSorted(vitals.value, thresholds.value);
        ConcatOrder(Group(raised, true), Group(raised, false));
      }
    }
  }

  /** At most one alert per vital, and the normal item only ever alone. */
  lemma GeneratedOnePerVital(vitals: Option<Vitals>, thresholds: Option<seq<ThresholdEntry>>)
    ensures var r := Expected(vitals, thresholds);
            && (forall i, j :: 0 <= i < j < |r| ==> r[i].kind != r[j].kind)
            && (AllNormal in r <==> r == [AllNormal])
  {
    if vitals.Some? && thresholds.Some? && thresholds.value != [] {
      var v := vitals.value;
      var ts := thresholds.value;
      var raised := Raised(v, ts, Kinds);
      if raised != [] {
        GeneratedOrder(vitals, thresholds);
        RaisedSorted(v, ts);
        RaisedMembers(v, ts, Kinds);
        GroupMembers(raised, true);
        GroupMembers(raised, false);
        var r := Expected(vitals, thresholds);
        forall i, j | 0 <= i < j < |r| ensures r[i].kind != r[j].kind {
          assert r[i] in raised && r[j] in raised;
        }
        assert AllNormal !in raised;
      }
    }
  }

  // ---- determinePatientStatus ----

  /** An alert as the dashboard state holds it: from the database or generated. */
  datatype StatusAlert = StatusAlert(title: Option<string>, isCritical: bool, acknowledged: bool)

  datatype PatientStatus = Critical | Warning | Stable

  /** `(a.title || "").toLowerCase()` mentions "warning" or "alert". */
  predicate WarningTitle(a: StatusAlert)
  {
    var lower := ToLower(if a.title.Some? then a.title.value else "");
    Contains(lower, "warning") || Contains(lower, "alert")
  }

  /** `alerts.filter(a => !a.acknowledged)`. */
  function Unacknowledged(alerts: seq<StatusAlert>): (r: seq<StatusAlert>)
    ensures forall a :: a in r <==> a in alerts && !a.acknowledged
  {
    if alerts == [] then []
    else
      assert forall a :: a in alerts <==> a == alerts[0] || a in alerts[1..];
      if !alerts[0].acknowledged then [alerts[0]] + Unacknowledged(alerts[1..])
      else Unacknowledged(alerts[1..])
  }

  /** The threshold part: heart rate and SpO2 only, critical before warning. */
  function VitalsStatus(vitals: Option<Vitals>, thresholds: seq<ThresholdEntry>): PatientStatus
  {
    if vitals.Some? && |thresholds| > 0 then
      var v := vitals.value;
      if BreachOf(v, thresholds, HeartRate, CriticalLevel) || BreachOf(v, thresholds, SpO2, CriticalLevel) then Critical
      else if BreachOf(v, thresholds, HeartRate, WarningLevel) || BreachOf(v, thresholds, SpO2, WarningLevel) then Warning
      else Stable
    else Stable
  }

  /** `determinePatientStatus`: an unacknowledged critical alert gives
      "critical"; else an unacknowledged non-critical alert titled with
      "warning" or "alert" gives "warning"; else the heart rate and SpO2
      thresholds decide. */
  function DeterminePatientStatus(alerts: seq<StatusAlert>, vitals: Option<Vitals>, thresholds: seq<ThresholdEntry>): (r: PatientStatus)
    ensures (exists a :: a in alerts && !a.acknowledged && a.isCritical) ==> r == Critical
    ensures ((forall a :: a in alerts && !a.acknowledged ==> !a.isCritical)
             && (exists a :: a in alerts && !a.acknowledged && WarningTitle(a))) ==> r == Warning
    ensures (forall a :: a in alerts && !a.acknowledged ==> !a.isCritical && !WarningTitle(a)) ==> r == VitalsStatus(vitals, thresholds)
  {
    var unacknowledged := Unacknowledged(alerts);
    var hasCriticalAlerts := exists a :: a in unacknowledged && a.isCritical;
    var hasWarningAlerts := exists a :: a in unacknowledged && !a.isCritical && WarningTitle(a);
    if hasCriticalAlerts then Critical
    else if hasWarningAlerts then Warning
    else VitalsStatus(vitals, thresholds)
  }

  /** Acknowledged alerts play no part: two alert lists with the same
      unacknowledged alerts give the same status. */
  lemma AcknowledgedIgnored(a1: seq<StatusAlert>, a2: seq<StatusAlert>, vitals: Option<Vitals>, thresholds: seq<ThresholdEntry>)
    requires forall a :: a in a1 && !a.acknowledged <==> a in a2 && !a.acknowledged
    ensures DeterminePatientStatus(a1, vitals, thresholds) == DeterminePatientStatus(a2, vitals, thresholds)
  {
  }

  /** The dashboard's own alerts, as unacknowledged list items. */
  function AsStatusAlerts(s: seq<DashAlert>): (r: seq<StatusAlert>)
    ensures |r| == |s|
    ensures forall i :: 0 <= i < |s| ==> r[i] == StatusAlert(Some(Title(s[i])), s[i].isCritical, false)
  {
    if s == [] then [] else [StatusAlert(Some(Title(s[0])), s[0].isCritical, false)] + AsStatusAlerts(s[1..])
  }

  /** A title ending in " Warning" mentions "warning" once lower-cased. */
  lemma WarningTitleOfWarning(name: string)
    ensures WarningTitle(StatusAlert(Some(name + " Warning"), false, false))
  {
    var lower := ToLower(name);
    ToLowerAppend(name, " Warning");
    LowerWarning(" Warning");
    WarningAfter(lower);
    MentionsWarning(name + " Warning", lower + " warning");
  }

  lemma WarningAfter(prefix: string)
    ensures Contains(prefix + " warning", "warning")
  {
    ContainsPiece(prefix + " ", "warning", "");
    assert prefix + " " + "warning" + "" == prefix + " warning";
  }

  lemma MentionsWarning(t: string, lower: string)
    requires ToLower(t) == lower && Contains(lower, "warning")
    ensures WarningTitle(StatusAlert(Some(t), false, false))
  {
  }

  lemma LowerWarning(s: string)
    requires s == " Warning"
    ensures ToLower(s) == " warning"
  {
  }

  /** The normal item's title mentions neither "warning" nor "alert". */
  lemma NormalTitleIsQuiet(t: string)
    requires t == "All Vitals Normal"
    ensures !WarningTitle(StatusAlert(Some(t), false, false))
  {
    NormalLacks(t, 'w');
    NormalLacks(t, 'W');
    NormalLacks(t, 'e');
    NormalLacks(t, 'E');
    LowerMissing(t, 'w');
    LowerMissing(t, 'e');
    NotContained(ToLower(t), "warning", 0);
    NotContained(ToLower(t), "alert", 2);
  }

  lemma NormalLacks(t: string, c: char)
    requires t == "All Vitals Normal"
    requires c == 'w' || c == 'W' || c == 'e' || c == 'E'
    ensures c !in t
  {
  }

  /** The status list item of a generated alert. */
  lemma InStatusAlerts(s: seq<DashAlert>, x: DashAlert)
    requires x in s
    ensures StatusAlert(Some(Title(x)), x.isCritical, false) in AsStatusAlerts(s)
  {
    var i :| 0 <= i < |s| && s[i] == x;
    assert AsStatusAlerts(s)[i] == StatusAlert(Some(Title(x)), x.isCritical, false);
  }

  /** Fed its own generated alerts, the status is "critical" as soon as one
      vital breaches its critical entry. */
  lemma CriticalBreachGivesCritical(v: Vitals, thresholds: seq<ThresholdEntry>, k: VitalKind)
    requires thresholds != [] && BreachOf(v, thresholds, k, CriticalLevel)
    ensures DeterminePatientStatus(AsStatusAlerts(Expected(Some(v), Some(thresholds))), Some(v), thresholds) == Critical
  {
    var x := DashAlert(Some(k), true);
    InExpected(v, thresholds, x);
    InStatusAlerts(Expected(Some(v), Some(thresholds)), x);
  }

  /** With no critical breach, the generated list holds no critical alert. */
  lemma NoCriticalGenerated(v: Vitals, thresholds: seq<ThresholdEntry>)
    requires thresholds != [] && forall j :: !BreachOf(v, thresholds, j, CriticalLevel)
    ensures forall a :: a in AsStatusAlerts(Expected(Some(v), Some(thresholds))) ==> !a.isCritical
  {
    var r := Expected(Some(v), Some(thresholds));
    forall a | a in AsStatusAlerts(r) ensures !a.isCritical {
      var i :| 0 <= i < |AsStatusAlerts(r)| && AsStatusAlerts(r)[i] == a;
      GeneratedKinds(v, thresholds, r[i]);
      if r[i].kind.Some? {
        InExpected(v, thresholds, r[i]);
      }
    }
  }

  /** Fed its own generated alerts with no critical breach, the status is
      "warning" as soon as one vital breaches its warning entry. */
  lemma WarningBreachGivesWarning(v: Vitals, thresholds: seq<ThresholdEntry>, k: VitalKind)
    requires thresholds != [] && forall j :: !BreachOf(v, thresholds, j, CriticalLevel)
    requires BreachOf(v, thresholds, k, WarningLevel)
    ensures DeterminePatientStatus(AsStatusAlerts(Expected(Some(v), Some(thresholds))), Some(v), thresholds) == Warning
  {
    var x := DashAlert(Some(k), false);
    InExpected(v, thresholds, x);
    InStatusAlerts(Expected(Some(v), Some(thresholds)), x);
    NoCriticalGenerated(v, thresholds);
    WarningTitleOfWarning(Label(k));
  }

  /** A generated alert is "All Vitals Normal" or about a vital. */
  lemma GeneratedKinds(v: Vitals, thresholds: seq<ThresholdEntry>, x: DashAlert)
    requires thresholds != [] && x in Expected(Some(v), Some(thresholds))
    ensures x.kind.None? ==> x == AllNormal
  {
    var raised := Raised(v, thresholds, Kinds);
    RaisedMembers(v, thresholds, Kinds);
    if raised != [] {
      GroupPartition(raised);
      assert x in multiset(CriticalFirst(raised));
    }
  }

  /** With no breach at all, no check raises anything. */
  lemma NoBreachRaisesNothing(v: Vitals, thresholds: seq<ThresholdEntry>)
    requires forall j :: !BreachOf(v, thresholds, j, CriticalLevel) && !BreachOf(v, thresholds, j, WarningLevel)
    ensures Raised(v, thresholds, Kinds) == []
  {
    var raised := Raised(v, thresholds, Kinds);
    assert raised != [] ==> raised[0] in raised;
    RaisedMembers(v, thresholds, Kinds);
  }

  /** Fed its own generated alerts with no breach at all, the only item is
      "All Vitals Normal" and the status is "stable". */
  lemma NoBreachGivesStable(v: Vitals, thresholds: seq<ThresholdEntry>)
    requires thresholds != []
    requires forall j :: !BreachOf(v, thresholds, j, CriticalLevel) && !BreachOf(v, thresholds, j, WarningLevel)
    ensures Expected(Some(v), Some(thresholds)) == [AllNormal]
    ensures DeterminePatientStatus(AsStatusAlerts(Expected(Some(v), Some(thresholds))), Some(v), thresholds) == Stable
  {
    NoBreachRaisesNothing(v, thresholds);
    var items := AsStatusAlerts([AllNormal]);
    var t := Title(AllNormal);
    assert items == [StatusAlert(Some(t), false, false)];
    NormalTitleIsQuiet(t);
    assert VitalsStatus(Some(v), thresholds) == Stable;
  }
}

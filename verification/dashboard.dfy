/** The counters of the dashboard (`get_stats_data`). */
module Dashboard {
  import opened Wrappers
  import opened Seqs
  import opened Records
  import opened AlertViews
  import DataSource

  datatype Stats = Stats(
    totalPatients: nat,
    todayReports: nat,
    redAlerts: nat,
    yellowAlerts: nat,
    pendingAlerts: nat)

  /** A patient counts as reported today when its last report time (or "") contains a colon. */
  predicate ReportedToday(p: Patient)
  {
    Contains(p.lastReportTime.GetOr(""), ":")
  }

  predicate IsRed(a: Alert) { a.level == Some("red") }
  predicate IsYellow(a: Alert) { a.level == Some("yellow") }
  predicate IsPendingRed(a: Alert) { IsPending(a) && IsRed(a) }
  predicate IsPendingYellow(a: Alert) { IsPending(a) && IsYellow(a) }

  /** The dashboard counters for the given patient and alert lists. */
  function GetStats(patients: seq<Patient>, alerts: seq<Alert>): (s: Stats)
    ensures s.totalPatients == |patients|
    ensures s.todayReports == |Filter(patients, ReportedToday)| <= s.totalPatients
    ensures s.pendingAlerts == |PendingAlerts(alerts)|
    ensures s.redAlerts == |Filter(alerts, IsPendingRed)|
    ensures s.yellowAlerts == |Filter(alerts, IsPendingYellow)|
    ensures s.redAlerts + s.yellowAlerts <= s.pendingAlerts <= |alerts|
  {
    var pending := Filter(alerts, IsPending);
    FilterCompose(alerts, IsPending, IsRed, IsPendingRed);
    FilterCompose(alerts, IsPending, IsYellow, IsPendingYellow);
    FilterDisjointLength(pending, IsRed, IsYellow);
    Stats(
      |patients|,
      |Filter(patients, ReportedToday)|,
      |Filter(pending, IsRed)|,
      |Filter(pending, IsYellow)|,
      |pending|)
  }

  /** A patient without a report time, or whose time has no colon, is never counted as reported today. */
  lemma {:induction false} TodayReportsNeedColon(patients: seq<Patient>)
    ensures forall p :: p in Filter(patients, ReportedToday) ==>
              p.lastReportTime.Some? && exists i: nat :: OccursAt(p.lastReportTime.value, ":", i)
  {
    forall p | p in Filter(patients, ReportedToday)
      ensures p.lastReportTime.Some? && exists i: nat :: OccursAt(p.lastReportTime.value, ":", i)
    {
      ContainsIffOccurs(p.lastReportTime.GetOr(""), ":");
    }
  }

  /** `get_stats_data`: the counters over whichever lists the data source yields. */
  function StatsData(available: bool, patientFetch: DataSource.Fetch<Patient>,
                     alertFetch: DataSource.Fetch<Alert>): (s: Stats)
    ensures s.totalPatients >= 1
  {
    GetStats(DataSource.PatientsData(available, patientFetch), DataSource.AlertsData(available, alertFetch))
  }

  /** On the mock data the dashboard shows 2 patients, no report today, and one pending yellow alert. */
  lemma MockStats(patientFetch: DataSource.Fetch<Patient>, alertFetch: DataSource.Fetch<Alert>)
    ensures StatsData(false, patientFetch, alertFetch) == Stats(2, 0, 0, 1, 1)
  {
    var ps := DataSource.MockPatients;
    var als := DataSource.MockAlerts;
    assert !ReportedToday(ps[0]) && !ReportedToday(ps[1]);
    assert Filter(ps, ReportedToday) == [];
    assert Filter(als, IsPending) == als;
    assert Filter(als, IsRed) == [];
    assert Filter(als, IsYellow) == als;
  }
}

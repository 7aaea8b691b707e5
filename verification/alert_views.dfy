/**
 * The alert lists of the dashboard and of the alert page: the pending-alert
 * list and the three status tabs (pending, contacted, resolved).
 */
module AlertViews {
  import opened Wrappers
  import opened Seqs
  import opened Records
  import DataSource

  predicate IsPending(a: Alert) { a.status == Some("pending") }
  predicate IsContacted(a: Alert) { a.status == Some("contacted") }
  predicate IsResolved(a: Alert) { a.status == Some("resolved") }

  /** An alert that none of the three tabs shows: missing status or any other status text. */
  predicate HasOtherStatus(a: Alert) { !IsPending(a) && !IsContacted(a) && !IsResolved(a) }

  /** The pending alerts of `alerts`: exactly those whose status is "pending", every copy, in order. */
  function PendingAlerts(alerts: seq<Alert>): (r: seq<Alert>)
    ensures forall a :: a in r <==> a in alerts && a.status == Some("pending")
    ensures forall a: Alert :: a.status.None? ==> a !in r
    ensures forall a :: multiset(r)[a] == if IsPending(a) then multiset(alerts)[a] else 0
    ensures IsSubsequence(r, alerts)
  {
    FilterIsSubsequence(alerts, IsPending);
    forall a { FilterCount(alerts, IsPending, a); }
    Filter(alerts, IsPending)
  }

  /** `get_pending_alerts_data`: the pending alerts of whichever alert list the data source yields. */
  function PendingAlertsData(available: bool, fetch: DataSource.Fetch<Alert>): (r: seq<Alert>)
    ensures DataSource.Usable(available, fetch) ==> r == PendingAlerts(fetch.result.value)
    ensures !DataSource.Usable(available, fetch) ==> r == DataSource.MockAlerts
  {
    var alerts := DataSource.AlertsData(available, fetch);
    assert Filter(DataSource.MockAlerts, IsPending) == DataSource.MockAlerts;
    PendingAlerts(alerts)
  }

  /** The three tabs of the alert page. */
  datatype AlertTabs = AlertTabs(pending: seq<Alert>, contacted: seq<Alert>, resolved: seq<Alert>)

  /** Each status tab holds every alert of `all` with that status, in order; the rest are dropped. */
  lemma {:induction false} StatusSplitCount(all: seq<Alert>)
    ensures |Filter(all, IsPending)| + |Filter(all, IsContacted)| + |Filter(all, IsResolved)|
            + |Filter(all, HasOtherStatus)| == |all|
  {
    if all != [] {
      StatusSplitCount(all[1..]);
    }
  }

  /** The tab split of `render_alerts`. */
  function SplitByStatus(all: seq<Alert>): (t: AlertTabs)
    ensures t.pending == PendingAlerts(all)
    ensures forall a :: a in t.contacted <==> a in all && IsContacted(a)
    ensures forall a :: a in t.resolved <==> a in all && IsResolved(a)
    ensures IsSubsequence(t.contacted, all) && IsSubsequence(t.resolved, all)
    ensures forall a :: !(a in t.pending && a in t.contacted)
    ensures forall a :: !(a in t.pending && a in t.resolved)
    ensures forall a :: !(a in t.contacted && a in t.resolved)
    ensures |t.pending| + |t.contacted| + |t.resolved| + |Filter(all, HasOtherStatus)| == |all|
    ensures (forall a :: a in all ==> !HasOtherStatus(a)) ==>
              |t.pending| + |t.contacted| + |t.resolved| == |all|
  {
    FilterIsSubsequence(all, IsContacted);
    FilterIsSubsequence(all, IsResolved);
    StatusSplitCount(all);
    FilterEmpty(all, HasOtherStatus);
    AlertTabs(PendingAlerts(all), Filter(all, IsContacted), Filter(all, IsResolved))
  }
}

/**
 * The patient page: new patients still waiting for setup, the active
 * patients, and the name/phone search over the active list.
 */
module PatientViews {
  import opened Wrappers
  import opened Seqs
  import opened Records

  /** A new patient whose record is not set up yet: status "pending_setup" or surgery "待設定". */
  predicate NeedsSetup(p: Patient)
  {
    p.status == Some("pending_setup") || p.surgery.GetOr("") == "待設定"
  }

  predicate IsActive(p: Patient) { !NeedsSetup(p) }

  /** The patients waiting for setup, in list order. */
  function PendingSetup(patients: seq<Patient>): (r: seq<Patient>)
    ensures forall p :: p in r <==> p in patients && NeedsSetup(p)
    ensures IsSubsequence(r, patients)
  {
    FilterIsSubsequence(patients, NeedsSetup);
    Filter(patients, NeedsSetup)
  }

  /** The test `p not in excluded`, as a filter condition. */
  function NotIn(excluded: seq<Patient>): Patient -> bool
  {
    p => p !in excluded
  }

  /**
   * The active patients: those not in the pending-setup list, found by list
   * membership as the page does. They are exactly the patients that do not
   * need setup, in order, and with the pending-setup list they split the
   * patient list.
   */
  function ActivePatients(patients: seq<Patient>): (r: seq<Patient>)
    ensures r == Filter(patients, IsActive)
    ensures forall p :: p in r <==> p in patients && !NeedsSetup(p)
    ensures IsSubsequence(r, patients)
    ensures multiset(PendingSetup(patients)) + multiset(r) == multiset(patients)
    ensures |PendingSetup(patients)| + |r| == |patients|
  {
    var pending := PendingSetup(patients);
    FilterExt(patients, NotIn(pending), IsActive);
    FilterIsSubsequence(patients, IsActive);
    FilterPartition(patients, NeedsSetup, IsActive);
    Filter(patients, NotIn(pending))
  }

  /** The search box matches a patient when it occurs in the name or in the phone number. */
  predicate MatchesSearch(p: Patient, search: string)
  {
    Contains(p.name.GetOr(""), search) || Contains(p.phone.GetOr(""), search)
  }

  function Matching(search: string): Patient -> bool
  {
    p => MatchesSearch(p, search)
  }

  /** Every patient matches the empty search, so skipping the filter for it changes nothing. */
  lemma {:induction false} EmptySearchKeepsAll(patients: seq<Patient>)
    ensures Filter(patients, Matching("")) == patients
  {
    if patients != [] {
      EmptySearchKeepsAll(patients[1..]);
      assert MatchesSearch(patients[0], "");
      assert patients == [patients[0]] + patients[1..];
    }
  }

  /** The search of the patient list: an empty search keeps all, otherwise the matches in order. */
  function Search(active: seq<Patient>, search: string): (r: seq<Patient>)
    ensures search == "" ==> r == active
    ensures forall p :: p in r <==> p in active && MatchesSearch(p, search)
    ensures search != "" ==> forall p :: p in r ==>
              Contains(p.name.GetOr(""), search) || Contains(p.phone.GetOr(""), search)
    ensures IsSubsequence(r, active)
  {
    FilterIsSubsequence(active, Matching(search));
    EmptySearchKeepsAll(active);
    if search == "" then active else Filter(active, Matching(search))
  }

  /** The list the patient page shows for a given search text. */
  function PatientList(patients: seq<Patient>, search: string): (r: seq<Patient>)
    ensures forall p :: p in r <==> p in patients && !NeedsSetup(p) && MatchesSearch(p, search)
    ensures IsSubsequence(r, Filter(patients, IsActive))
  {
    Search(ActivePatients(patients), search)
  }
}

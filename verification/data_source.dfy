/**
 * Where the dashboard's patient and alert lists come from: the data manager
 * when it is importable and returns a non-empty list, otherwise built-in mock
 * data. The fetch itself is I/O, so its outcome is a parameter.
 */
module DataSource {
  import opened Wrappers
  import opened Records

  /** What calling the data manager's getter did: raised, or returned a list (or `None`). */
  datatype Fetch<T> = Raised | Returned(result: Option<seq<T>>)

  /** The fetched list is used only when the module loaded and the call returned a truthy list. */
  predicate Usable<T>(available: bool, fetch: Fetch<T>)
  {
    available && fetch.Returned? && fetch.result.Some? && fetch.result.value != []
  }

  /** The shared shape of `get_patients_data` and `get_alerts_data`. */
  function WithFallback<T>(available: bool, fetch: Fetch<T>, mock: seq<T>): (r: seq<T>)
    ensures Usable(available, fetch) ==> r == fetch.result.value
    ensures !Usable(available, fetch) ==> r == mock
    ensures mock != [] ==> r != []
  {
    if available then
      match fetch
      case Raised => mock
      case Returned(result) =>
        if result.Some? && result.value != [] then result.value else mock
    else
      mock
  }

  const MockPatients: seq<Patient> := [
    Patient(Some("P001"), Some("王大明"), Some(68), Some("男"), Some("Lobectomy"), Some("normal"),
            Some(14), Some("0912-345-678"), None),
    Patient(Some("P002"), Some("李小華"), Some(55), Some("女"), Some("Segmentectomy"), Some("warning"),
            Some(7), Some("0923-456-789"), None)
  ]

  const MockAlerts: seq<Alert> := [
    Alert("A001", Some("P001"), Some("王大明"), Some("yellow"), Some(5), Some(["疲勞"]),
          Some("10:30"), Some("pending"), Some("0912-345-678"))
  ]

  /** `get_patients_data`: never empty, and either the fetched list unchanged or the mock list. */
  function PatientsData(available: bool, fetch: Fetch<Patient>): (r: seq<Patient>)
    ensures r != []
    ensures Usable(available, fetch) ==> r == fetch.result.value
    ensures !Usable(available, fetch) ==> r == MockPatients
  {
    WithFallback(available, fetch, MockPatients)
  }

  /** `get_alerts_data`: never empty, and either the fetched list unchanged or the mock list. */
  function AlertsData(available: bool, fetch: Fetch<Alert>): (r: seq<Alert>)
    ensures r != []
    ensures Usable(available, fetch) ==> r == fetch.result.value
    ensures !Usable(available, fetch) ==> r == MockAlerts
  {
    WithFallback(available, fetch, MockAlerts)
  }
}

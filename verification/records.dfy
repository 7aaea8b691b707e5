/**
 * The dictionaries the dashboard reads, as records. Every key that the views
 * read with `dict.get` is an `Option`: a missing key is `None`.
 */
module Records {
  import opened Wrappers

  /** A patient as returned by the patient store or the mock list. */
  datatype Patient = Patient(
    id: Option<string>,
    name: Option<string>,
    age: Option<int>,
    gender: Option<string>,
    surgery: Option<string>,
    status: Option<string>,
    postOpDay: Option<int>,
    phone: Option<string>,
    lastReportTime: Option<string>)

  /** An alert raised for a patient; `id` is read by indexing, so it is always present. */
  datatype Alert = Alert(
    id: string,
    patientId: Option<string>,
    patientName: Option<string>,
    level: Option<string>,
    score: Option<int>,
    symptoms: Option<seq<string>>,
    timeDisplay: Option<string>,
    status: Option<string>,
    phone: Option<string>)

  /** An education material of the catalog (the value side of the catalog dictionary). */
  datatype Material = Material(
    category: Option<string>,
    title: Option<string>,
    icon: Option<string>,
    description: Option<string>)

  /** One `key: material` item of the catalog dictionary. */
  datatype CatalogEntry = CatalogEntry(key: string, material: Material)

  /** The value of a rule's `trigger_value`: a post-op day number or a symptom/treatment name. */
  datatype TriggerValue = Day(day: int) | Name(text: string)

  /** An automatic push rule of the education system; `id` is read by indexing. */
  datatype PushRule = PushRule(
    id: string,
    name: Option<string>,
    triggerType: Option<string>,
    triggerValue: Option<TriggerValue>,
    materials: Option<seq<string>>,
    enabled: Option<bool>)

  /** One entry of the education push history. */
  datatype PushRecord = PushRecord(
    id: Option<string>,
    patientName: Option<string>,
    materialTitle: Option<string>,
    pushType: Option<string>,
    pushedBy: Option<string>,
    pushedAt: Option<string>,
    status: Option<string>)
}

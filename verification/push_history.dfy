/**
 * The integer counters of the push-history tab. Each record gets a "read" or
 * "sent" badge and an "auto" or "manual" badge; the counters count them.
 */
module PushHistory {
  import opened Wrappers
  import opened Seqs
  import opened Records

  predicate IsRead(r: PushRecord) { r.status == Some("read") }
  /** Every record that is not read is shown with the "sent" badge. */
  predicate ShownAsSent(r: PushRecord) { !IsRead(r) }
  predicate IsAuto(r: PushRecord) { r.pushType == Some("auto") }
  /** Every record that is not automatic is shown with the "manual" badge. */
  predicate ShownAsManual(r: PushRecord) { !IsAuto(r) }

  datatype PushCounts = PushCounts(total: nat, read: nat, auto: nat)

  /**
   * The history counters: the total, the read records and the automatic
   * ones. The read and sent badges split the history, and so do the
   * automatic and manual badges.
   */
  function Counts(history: seq<PushRecord>): (c: PushCounts)
    ensures c.total == |history|
    ensures c.read == |Filter(history, IsRead)| && c.auto == |Filter(history, IsAuto)|
    ensures c.read + |Filter(history, ShownAsSent)| == c.total
    ensures c.auto + |Filter(history, ShownAsManual)| == c.total
    ensures c.read <= c.total && c.auto <= c.total
  {
    FilterPartition(history, IsRead, ShownAsSent);
    FilterPartition(history, IsAuto, ShownAsManual);
    PushCounts(|history|, |Filter(history, IsRead)|, |Filter(history, IsAuto)|)
  }
}

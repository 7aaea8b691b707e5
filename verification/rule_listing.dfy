/**
 * The automatic-rule tab of the education page: the post-op-day rules sorted
 * by their day, and the symptom and treatment rules in configuration order.
 */
module RuleListing {
  import opened Wrappers
  import opened Seqs
  import opened Records
  import opened StableSort

  predicate IsDayRule(r: PushRule) { r.triggerType == Some("post_op_day") }
  predicate IsSymptomRule(r: PushRule) { r.triggerType == Some("symptom") }
  predicate IsTreatmentRule(r: PushRule) { r.triggerType == Some("treatment") }

  /** A rule whose `trigger_value` is absent or a day number, so that it can be sorted with the others. */
  predicate HasDayValue(r: PushRule)
  {
    r.triggerValue.None? || r.triggerValue.value.Day?
  }

  /** The sort key of a day rule: its day, or 0 when `trigger_value` is missing. */
  function DayKey(r: PushRule): (d: int)
  {
    match r.triggerValue
    case Some(Day(d)) => d
    case _ => 0
  }

  /** The day rules of `rules`, in configuration order. */
  function DayRules(rules: seq<PushRule>): (r: seq<PushRule>)
    ensures forall x :: x in r <==> x in rules && x.triggerType == Some("post_op_day")
    ensures IsSubsequence(r, rules)
  {
    FilterIsSubsequence(rules, IsDayRule);
    Filter(rules, IsDayRule)
  }

  /**
   * The day-rule listing: a permutation of the day rules, ascending by day
   * (a missing day counting as 0), and rules with the same day in
   * configuration order.
   */
  function DayRuleListing(rules: seq<PushRule>): (r: seq<PushRule>)
    requires forall x :: x in rules && IsDayRule(x) ==> HasDayValue(x)
    ensures multiset(r) == multiset(DayRules(rules))
    ensures forall x :: x in r <==> x in rules && IsDayRule(x)
    ensures forall i, j :: 0 <= i < j < |r| ==> DayKey(r[i]) <= DayKey(r[j])
    ensures forall d :: WithKey(r, DayKey, d) == WithKey(DayRules(rules), DayKey, d)
  {
    var sorted := SortByKey(DayRules(rules), DayKey);
    assert forall x :: x in sorted <==> x in multiset(sorted);
    sorted
  }

  /** Any listing that is sorted by day and keeps configuration order within a day is this one. */
  lemma ListingIsTheStableSort(rules: seq<PushRule>, other: seq<PushRule>)
    requires forall x :: x in rules && IsDayRule(x) ==> HasDayValue(x)
    requires SortedBy(other, DayKey)
    requires forall d :: WithKey(other, DayKey, d) == WithKey(DayRules(rules), DayKey, d)
    ensures other == DayRuleListing(rules)
  {
    StableSortUnique(other, DayRuleListing(rules), DayKey);
  }

  /** The symptom rules, in configuration order. */
  function SymptomRules(rules: seq<PushRule>): (r: seq<PushRule>)
    ensures forall x :: x in r <==> x in rules && x.triggerType == Some("symptom")
    ensures IsSubsequence(r, rules)
  {
    FilterIsSubsequence(rules, IsSymptomRule);
    Filter(rules, IsSymptomRule)
  }

  /** The treatment rules, in configuration order. */
  function TreatmentRules(rules: seq<PushRule>): (r: seq<PushRule>)
    ensures forall x :: x in r <==> x in rules && x.triggerType == Some("treatment")
    ensures IsSubsequence(r, rules)
  {
    FilterIsSubsequence(rules, IsTreatmentRule);
    Filter(rules, IsTreatmentRule)
  }

  /** The three listings never share a rule and together show at most every rule once. */
  lemma {:induction false} ListingsDisjoint(rules: seq<PushRule>)
    ensures |DayRules(rules)| + |SymptomRules(rules)| + |TreatmentRules(rules)| <= |rules|
  {
    if rules != [] {
      ListingsDisjoint(rules[1..]);
    }
  }
}

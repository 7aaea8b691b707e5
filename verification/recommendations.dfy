/**
 * The "smart push" suggestions of the manual push tab: a step function from
 * the patient's post-operative day to an ordered list of materials.
 */
module Recommendations {
  import opened Wrappers
  import opened Records

  /** One suggestion: material key, button title and the reason shown under it. */
  datatype Recommendation = Recommendation(key: string, title: string, reason: string)

  /** The last day of each tier but the last; a day past all of them is in the long-term tier. */
  const TierEnds: seq<int> := [3, 7, 14]

  /** The material keys suggested in each tier, earliest tier first. */
  const TierKeys: seq<seq<string>> := [
    ["BREATHING_EXERCISE", "PAIN_MANAGEMENT", "EARLY_AMBULATION"],
    ["HOME_CARE", "WARNING_SIGNS", "WOUND_CARE"],
    ["FOLLOW_UP", "PHYSICAL_ACTIVITY", "NUTRITION"],
    ["EMOTIONAL_SUPPORT", "SMOKING_CESSATION"]
  ]

  /** How many of the tier ends `day` has passed. */
  function CountPassed(ends: seq<int>, day: int): (n: nat)
    ensures n <= |ends|
  {
    if ends == [] then 0
    else (if ends[0] < day then 1 else 0) + CountPassed(ends[1..], day)
  }

  /** The tier a post-op day falls in: 0 up to day 3, 1 up to day 7, 2 up to day 14, then 3. */
  function TierIndex(day: int): (t: nat)
    ensures t < |TierKeys|
  {
    CountPassed(TierEnds, day)
  }

  /** Counting passed tier ends gives the same tiers as the source's chain of `<=` tests. */
  lemma TierIndexSteps(day: int)
    ensures TierIndex(day) == if day <= 3 then 0 else if day <= 7 then 1 else if day <= 14 then 2 else 3
  {
    assert TierEnds[1..] == [7, 14] && [7, 14][1..] == [14] && [14][1..] == [];
    assert CountPassed([14], day) == if 14 < day then 1 else 0;
    assert CountPassed([7, 14], day) == (if 7 < day then 1 else 0) + CountPassed([14], day);
    assert CountPassed(TierEnds, day) == (if 3 < day then 1 else 0) + CountPassed([7, 14], day);
  }

  function Keys(rs: seq<Recommendation>): (ks: seq<string>)
    ensures |ks| == |rs|
    ensures forall i :: 0 <= i < |rs| ==> ks[i] == rs[i].key
  {
    if rs == [] then [] else [rs[0].key] + Keys(rs[1..])
  }

  /** No key appears twice (each suggestion is its own push button). */
  predicate Distinct(ks: seq<string>)
  {
    forall i, j :: 0 <= i < j < |ks| ==> ks[i] != ks[j]
  }

  /**
   * The suggestions for post-op day `day`: never empty, and exactly the keys
   * that the tier table lists for the tier of `day`, each once.
   */
  function Recommend(day: int): (r: seq<Recommendation>)
    ensures r != []
    ensures Keys(r) == TierKeys[TierIndex(day)]
    ensures day <= 3 ==> Keys(r) == ["BREATHING_EXERCISE", "PAIN_MANAGEMENT", "EARLY_AMBULATION"]
    ensures 3 < day <= 7 ==> Keys(r) == ["HOME_CARE", "WARNING_SIGNS", "WOUND_CARE"]
    ensures 7 < day <= 14 ==> Keys(r) == ["FOLLOW_UP", "PHYSICAL_ACTIVITY", "NUTRITION"]
    ensures 14 < day ==> Keys(r) == ["EMOTIONAL_SUPPORT", "SMOKING_CESSATION"]
    ensures Distinct(Keys(r))
  {
    TierIndexSteps(day);
    if day <= 3 then [
      Recommendation("BREATHING_EXERCISE", "呼吸運動訓練", "術後早期必備"),
      Recommendation("PAIN_MANAGEMENT", "疼痛控制指南", "術後疼痛管理"),
      Recommendation("EARLY_AMBULATION", "早期下床活動", "促進恢復")
    ]
    else if day <= 7 then [
      Recommendation("HOME_CARE", "居家照護指南", "即將出院"),
      Recommendation("WARNING_SIGNS", "警示徵象", "出院前必讀"),
      Recommendation("WOUND_CARE", "傷口照護", "居家換藥")
    ]
    else if day <= 14 then [
      Recommendation("FOLLOW_UP", "術後追蹤檢查", "回診準備"),
      Recommendation("PHYSICAL_ACTIVITY", "術後運動指南", "漸進式恢復"),
      Recommendation("NUTRITION", "營養指南", "促進癒合")
    ]
    else [
      Recommendation("EMOTIONAL_SUPPORT", "心理調適指南", "長期照護"),
      Recommendation("SMOKING_CESSATION", "戒菸指南", "預防復發")
    ]
  }

  /** The suggestions for a selected patient; a patient without a post-op day is treated as day 0. */
  function RecommendFor(p: Patient): (r: seq<Recommendation>)
    ensures r != []
    ensures p.postOpDay.None? ==> Keys(r) == TierKeys[0]
    ensures p.postOpDay.Some? ==> Keys(r) == TierKeys[TierIndex(p.postOpDay.value)]
  {
    Recommend(p.postOpDay.GetOr(0))
  }

  /** Passing more days never moves a patient back to an earlier tier. */
  lemma {:induction false} CountPassedMonotone(ends: seq<int>, d1: int, d2: int)
    requires d1 <= d2
    ensures CountPassed(ends, d1) <= CountPassed(ends, d2)
  {
    if ends != [] {
      CountPassedMonotone(ends[1..], d1, d2);
    }
  }

  /** Tiers only advance with the post-op day. */
  lemma TierMonotone(d1: int, d2: int)
    requires d1 <= d2
    ensures TierIndex(d1) <= TierIndex(d2)
  {
    CountPassedMonotone(TierEnds, d1, d2);
  }

  /** The tiers of the table share no key. */
  lemma TiersDisjoint(i: nat, j: nat, k: string)
    requires i < j < |TierKeys|
    requires k in TierKeys[i]
    ensures k !in TierKeys[j]
  {
    if i == 0 {
      assert k == "BREATHING_EXERCISE" || k == "PAIN_MANAGEMENT" || k == "EARLY_AMBULATION";
    } else if i == 1 {
      assert k == "HOME_CARE" || k == "WARNING_SIGNS" || k == "WOUND_CARE";
    } else {
      assert k == "FOLLOW_UP" || k == "PHYSICAL_ACTIVITY" || k == "NUTRITION";
    }
  }

  /** No material is suggested in two tiers: the same key on two days means the same suggestions. */
  lemma KeyBelongsToOneTier(d1: int, d2: int, k: string)
    requires k in Keys(Recommend(d1)) && k in Keys(Recommend(d2))
    ensures TierIndex(d1) == TierIndex(d2)
    ensures Recommend(d1) == Recommend(d2)
  {
    var t1, t2 := TierIndex(d1), TierIndex(d2);
    if t1 < t2 {
      TiersDisjoint(t1, t2, k);
    } else if t2 < t1 {
      TiersDisjoint(t2, t1, k);
    }
    TierIndexSteps(d1);
    TierIndexSteps(d2);
  }
}

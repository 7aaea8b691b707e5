# AI-CARE Lung admin dashboard: list rules of `app.py`

This project models the deterministic list processing of the admin dashboard
of AI-CARE Lung, a post-operative monitoring system for lung-surgery patients
(`app.py`). The page code is a Streamlit UI. The alert state changes and the
education pushes are calls into `data_manager` and `education_system`, and
neither module is part of this model. What remains, and what is modelled here,
are the rules that decide which records each view shows and what it counts:

* **Data source** (`DataSource`): a patient or alert list comes from the data
  manager when it is importable and returns a non-empty list. Otherwise the
  built-in mock list is used. The fetch is I/O, so its outcome is a parameter.
* **Alert views** (`AlertViews`, `Dashboard`): the pending-alert list, the
  dashboard counters, and the split into the pending, contacted and resolved tabs.
* **Patient views** (`PatientViews`): the split into "pending setup" and
  active patients, and the name/phone search.
* **Recommendations** (`Recommendations`): the post-op-day step function that
  proposes materials for a manual push.
* **Education catalog and rules** (`Catalog`, `RuleListing`, `StableSort`):
  the category grouping loop, the day-rule listing sorted by day, the symptom
  and treatment rule filters, and the category filter of the library tab.
* **Push history counters** (`PushHistory`).

Python dictionaries become datatypes whose fields are `Option`s, because the
code reads them with `dict.get` and a default. `Seqs.Filter` stands for a list
comprehension with a condition. `Seqs.Contains` stands for Python's substring
`in`. The grouping loop, which fills a dictionary of lists step by step, is a
method with a loop. It is proved against the functions `CategoryOrder` and
`Bucket`. The fallback helpers change no state and are called from pure
views, so they are functions.

`app.py` keeps the alerts in the order the data manager returns them, and so
does the model.

## Model

| member | source | states |
|---|---|---|
| `Seqs.Filter` | app.py:288 | a list comprehension keeps exactly the elements satisfying its condition and never grows the list |
| `Seqs.FilterIsSubsequence` | app.py:288 | a comprehension keeps the original order of what it keeps |
| `Seqs.FilterCount` | app.py:288 | every copy of a kept element stays, and no copy of a dropped one does |
| `Seqs.FilterPartition` | app.py:510-511 | a condition and its negation split a list: together they hold exactly its elements, as multisets and in length |
| `Seqs.ContainsIffOccurs` | app.py:524 | the substring test holds exactly when the needle occurs at some position of the text |
| `DataSource.WithFallback` | app.py:266-284 | the fetched list is used unchanged iff the module loaded and the call returned a non-empty list; otherwise the mock list is used |
| `DataSource.PatientsData` | app.py:266-274 | `get_patients_data` is never empty and is either the fetched list or `MOCK_PATIENTS` |
| `DataSource.AlertsData` | app.py:276-284 | `get_alerts_data` is never empty and is either the fetched list or `MOCK_ALERTS` |
| `AlertViews.PendingAlerts` | app.py:286-288 | exactly the alerts whose status is "pending", with every copy, in original order; an alert with no status is never included |
| `AlertViews.PendingAlertsData` | app.py:286-288 | on fetched data it is the pending filter; on mock data it is the one mock alert |
| `AlertViews.StatusSplitCount` | app.py:461-463 | the three tab lengths plus the number of alerts with any other status equal the number of alerts |
| `AlertViews.SplitByStatus` | app.py:461-463 | each tab holds exactly the alerts with its status, as an ordered subsequence; the tabs are pairwise disjoint; their lengths total at most the alert count, and exactly that count when every status is one of the three |
| `Dashboard.GetStats` | app.py:290-300 | `total_patients` is the patient count; `today_reports` is at most that; `red_alerts + yellow_alerts <= pending_alerts <= len(alerts)`; red and yellow counts are the pending alerts of that level |
| `Dashboard.TodayReportsNeedColon` | app.py:296 | only a patient with a last report time containing ":" is counted as reported today |
| `Dashboard.StatsData` | app.py:290-300 | `get_stats_data`, the counters over the data-source lists, always counts at least one patient |
| `Dashboard.MockStats` | app.py:254-261 | on the mock data the counters are 2 patients, 0 reports today, 0 red, 1 yellow, 1 pending |
| `PatientViews.PendingSetup` | app.py:510 | exactly the patients with status "pending_setup" or surgery "待設定", in order |
| `PatientViews.ActivePatients` | app.py:511 | the list-membership test selects exactly the patients that do not need setup, in order; with the pending-setup list it splits the patient list |
| `PatientViews.EmptySearchKeepsAll` | app.py:522-524 | every patient matches the empty search, so skipping the filter for it changes nothing |
| `PatientViews.Search` | app.py:522-524 | an empty search keeps the list; otherwise every kept patient's name or phone contains the search text, and every such patient is kept, in order |
| `PatientViews.PatientList` | app.py:510-524 | the shown list holds exactly the active patients matching the search, in order |
| `Recommendations.TierIndexSteps` | app.py:1040-1062 | counting the passed tier ends (3, 7, 14) gives the same tier as the chain of `<=` tests |
| `Recommendations.Recommend` | app.py:1040-1062 | for every day the suggestions are non-empty; days up to 3 give breathing exercise, pain management and early ambulation; days 4-7 home care, warning signs and wound care; days 8-14 follow-up, physical activity and nutrition; later days emotional support and smoking cessation; each key once, and the same as the tier table's row for the day |
| `Recommendations.RecommendFor` | app.py:1036-1062 | a patient without a post-op day gets the day-0 tier |
| `Recommendations.CountPassedMonotone` | app.py:1040-1062 | more days never pass fewer tier ends |
| `Recommendations.TierMonotone` | app.py:1040-1062 | the tier never moves back as the post-op day grows |
| `Recommendations.TiersDisjoint` | app.py:1040-1062 | no material key belongs to two tiers |
| `Recommendations.KeyBelongsToOneTier` | app.py:1040-1062 | a key suggested on two days means both days get the same suggestions |
| `StableSort.SortByKey` | app.py:1099 | the sort is ordered by key, a permutation of its input, and keeps input order among equal keys |
| `StableSort.StableSortUnique` | app.py:1099 | two arrangements sorted by key with the same order within every key are equal, so every stable sort gives this result |
| `RuleListing.DayRules` | app.py:1097 | exactly the rules with `trigger_type` "post_op_day", in configuration order |
| `RuleListing.DayRuleListing` | app.py:1097-1099 | a permutation of the day rules, ascending by `trigger_value` with 0 for a missing one, and rules with the same day kept in configuration order |
| `RuleListing.ListingIsTheStableSort` | app.py:1099 | any listing sorted by day that keeps configuration order within a day equals the model's listing |
| `RuleListing.SymptomRules` | app.py:1118 | exactly the rules with `trigger_type` "symptom", in order |
| `RuleListing.TreatmentRules` | app.py:1139 | exactly the rules with `trigger_type` "treatment", in order |
| `RuleListing.ListingsDisjoint` | app.py:1097-1139 | the three listings together show at most every rule once |
| `Catalog.CategoryOrderSpec` | app.py:967-972 | the dictionary's keys list each category once, and exactly the categories that have an entry |
| `Catalog.GroupByCategory` | app.py:967-972 | the loop's dictionary has the categories in first-seen order as keys; each bucket is exactly the entries of that category (a missing category counts as "其他") in catalog order, and no bucket is empty |
| `Catalog.EntryInExactlyOneBucket` | app.py:967-972 | every catalog entry lands in its own category's bucket and in no other |
| `Catalog.BucketSizesSum` | app.py:967-972 | the bucket sizes add up to the catalog size |
| `Catalog.CategorySet` | app.py:1256 | the library's category choices are exactly the grouping's categories |
| `Catalog.UncategorisedMaterialHidden` | app.py:1256-1261 | as written, a material with no category is offered under "其他" but is not shown when "其他" is chosen |
| `Catalog.LibraryView` | app.py:1256-1261 | corrected library filter: "全部" shows all; any other choice shows exactly the entries of that category, and a choice from the dropdown is never empty |
| `PushHistory.Counts` | app.py:1211-1249 | the total is the history length; the read and sent badges split the history, and so do the auto and manual badges, so read and auto counts are at most the total |

## Findings

| source | as written | input that shows it | evidently intended | confidence | as-written member | corrected member |
|---|---|---|---|---|---|---|
| app.py:1256-1261 | the dropdown defaults a missing category to "其他", but the filter compares the raw `material.get("category")`, which is `None` for such a material | a catalog whose only material has no `category`, with "其他" chosen: the list is empty | show the uncategorised materials under "其他", as the dropdown and the grouping at app.py:967-972 do | medium; not executed | `Catalog.LibraryViewAsWritten` (shown by `Catalog.UncategorisedMaterialHidden`) | `Catalog.LibraryView` |

## Left out

- Streamlit rendering, HTML/CSS, tabs, columns, buttons and session-state navigation: these are UI.
- Login and the credential check: this is authentication and session handling.
- The clinical data form and its floating-point BMI and date parsing.
- `save_patient_clinical_data`: this is persistence I/O.
- Alert status changes (`update_alert_status`) and education pushes (`education_manager.push_material`): these are calls into `data_manager` and `education_system`. Neither module is part of this model, so transition legality and push deduplication are not modelled.
- The alert thresholds are imported but never used in `app.py`, so there is no score classification to model.
- Display truncation (`alerts[:5]`, `resolved[:10]`, `history[:20]`): this only limits what is drawn.
- The "today" push count and the read-rate percentage: they depend on the clock and on floating point. Only the integer counts are modelled.
- Charts with hard-coded values and the export stub.
- The rule `enabled` checkbox and the material picker's selection state: these are UI state.
- Values of unexpected Python types are not modelled. Examples are a non-string status or name (where `in` would raise) and a non-string last report time passed through `str()`. Every field is an optional value of the type the views expect. A key that is present with the value `None` is modelled like a missing key, although `dict.get(key, default)` returns the stored `None`; the three places where that changes the outcome follow.
- Catalog.GroupByCategory: a material stored with `"category": None` is filed under the key `None` by the loop and offered as the choice `None` in the library tab; the model files it under "其他", like a material without the key.
- Recommendations.RecommendFor: a patient stored with `"post_op_day": None` makes `None <= 3` raise TypeError; the model gives such a patient the day-0 tier, like a patient without the key.
- RuleListing.DayRuleListing: a day rule stored with `"trigger_value": None` makes the sort raise TypeError when there is another day rule to compare it with; the model sorts it as day 0, like a rule without the key.
- Patient records carry only the fields the views read. The page's `p not in pending_setup` compares whole dictionaries, but `PatientViews.ActivePatients` proves that the outcome depends only on status and surgery.
- A grouped entry is a `(key, material)` pair. A material that carried its own `"key"` field would override the catalog key in `{"key": key, **material}`; that case is not modelled.
- RuleListing.DayRuleListing: requires every post-op-day rule's `trigger_value` to be a day number or missing. With a text value, Python's sort raises on mixed types or compares strings, and neither case is modelled.
- The fallback treats a `None` return like an empty list. A truthy non-list return is not modelled.

/** The daily activity log: the unit of each activity type, the record a submission
    inserts, the per-type totals and the average mood of the listed day. */
module ActivityLog {
  import opened Common
  import opened Records

  const MoodType: string := "mood"
  const DefaultMood: int := 3

  /** The ratings the mood buttons offer, lowest first. */
  const MoodValues: seq<int> := [1, 2, 3, 4, 5]

  predicate ValidRating(r: int) {
    1 <= r <= 5
  }

  /** `getUnit`: the four measured types have a unit; every other type has none. */
  function UnitOf(activityType: string): (r: string)
    ensures r == "jam" <==> activityType == "sleep"
    ensures r == "porsi" <==> activityType == "feeding"
    ensures r == "gelas" <==> activityType == "water"
    ensures r == "menit" <==> activityType == "screen_time"
    ensures r == "" <==> activityType !in {"sleep", "feeding", "water", "screen_time"}
  {
    match activityType
    case "sleep" => "jam"
    case "feeding" => "porsi"
    case "water" => "gelas"
    case "screen_time" => "menit"
    case _ => ""
  }

  /** A listed activity row. `value` is absent for mood rows and for amounts that did not
      parse; `moodRating` is absent for every other type. */
  datatype Activity = Activity(id: string, activityType: string, value: Option<real>,
                               moodRating: Option<int>, notes: string, activityDate: string)

  /** The row a submission inserts: a mood rating, or an amount with its unit. */
  datatype NewActivity =
    | MoodRecord(childId: ChildId, activityDate: string, notes: string, moodRating: int)
    | AmountRecord(childId: ChildId, activityType: string, activityDate: string, notes: string,
                   value: Option<real>, unit: string)

  /** The form and list state. */
  datatype LogState = LogState(
    activities: seq<Activity>,
    dialogOpen: bool,
    activityType: string,
    value: string,
    moodRating: int,
    notes: string,
    selectedDate: string)

  /** `handleSubmit`'s row. `parsed` is `parseFloat` of the value field (absent when it is
      not a number). */
  function RecordOf(st: LogState, childId: ChildId, parsed: Option<real>): (r: NewActivity)
    ensures r.childId == childId && r.activityDate == st.selectedDate && r.notes == st.notes
    ensures r.MoodRecord? <==> st.activityType == MoodType
    ensures r.MoodRecord? ==> r.moodRating == st.moodRating
    ensures r.AmountRecord? ==>
      r.activityType == st.activityType && r.value == parsed && r.unit == UnitOf(st.activityType)
  {
    if st.activityType == MoodType then MoodRecord(childId, st.selectedDate, st.notes, st.moodRating)
    else AmountRecord(childId, st.activityType, st.selectedDate, st.notes, parsed, UnitOf(st.activityType))
  }

  /** The listed row an inserted record reads back as (the child and the unit are not
      listed). */
  function StoredRow(n: NewActivity, id: string): Activity {
    match n
    case MoodRecord(_, date, notes, rating) => Activity(id, MoodType, None, Some(rating), notes, date)
    case AmountRecord(_, t, date, notes, v, _) => Activity(id, t, v, None, notes, date)
  }

  /** After the insert: on success the value, rating and notes reset, the dialog closes
      and the list is re-read (kept if that read fails); on failure nothing changes. */
  function AfterInsert(st: LogState, insertFails: bool, refetched: Option<seq<Activity>>): (r: LogState)
    ensures insertFails ==> r == st
    ensures !insertFails ==>
      && r.value == "" && r.moodRating == DefaultMood && r.notes == "" && !r.dialogOpen
      && r.activityType == st.activityType && r.selectedDate == st.selectedDate
      && r.activities == if refetched.Some? then refetched.value else st.activities
  {
    if insertFails then st
    else
      var reset := st.(value := "", moodRating := DefaultMood, notes := "", dialogOpen := false);
      if refetched.Some? then reset.(activities := refetched.value) else reset
  }

  /** Pressing a mood button. */
  function SelectMood(st: LogState, button: nat): (r: LogState)
    requires button < |MoodValues|
    ensures ValidRating(r.moodRating) && r == st.(moodRating := r.moodRating)
  {
    st.(moodRating := MoodValues[button])
  }

  /** The rating stays a valid button value through submissions, whatever their outcome. */
  lemma RatingStaysValid(st: LogState, insertFails: bool, refetched: Option<seq<Activity>>)
    requires ValidRating(st.moodRating)
    ensures ValidRating(AfterInsert(st, insertFails, refetched).moodRating)
    ensures ValidRating(DefaultMood) && DefaultMood in MoodValues
  {
  }

  /** The amount an activity adds to its type's total: `null` counts as 0. */
  function Amount(a: Activity): real {
    if a.value.Some? then a.value.value else 0.0
  }

  /** One `forEach` step of `getSummary`. */
  function SummaryStep(acc: map<string, real>, a: Activity): map<string, real> {
    if a.activityType == MoodType then acc
    else acc[a.activityType := (if a.activityType in acc then acc[a.activityType] else 0.0) + Amount(a)]
  }

  /** `getSummary`: the fold over the list in order. */
  function Summary(acts: seq<Activity>): map<string, real> {
    if |acts| == 0 then map[]
    else SummaryStep(Summary(acts[..|acts| - 1]), acts[|acts| - 1])
  }

  /** Reference definition: the total of one type's amounts. */
  function TypeTotal(acts: seq<Activity>, t: string): real {
    if |acts| == 0 then 0.0
    else (if acts[0].activityType == t then Amount(acts[0]) else 0.0) + TypeTotal(acts[1..], t)
  }

  lemma {:induction false} TypeTotalAppend(acts: seq<Activity>, a: Activity, t: string)
    ensures TypeTotal(acts + [a], t) == TypeTotal(acts, t) + (if a.activityType == t then Amount(a) else 0.0)
  {
    if |acts| > 0 {
      assert (acts + [a])[1..] == acts[1..] + [a];
      TypeTotalAppend(acts[1..], a, t);
    }
  }

  lemma {:induction false} TypeTotalAbsent(acts: seq<Activity>, t: string)
    requires forall i :: 0 <= i < |acts| ==> acts[i].activityType != t
    ensures TypeTotal(acts, t) == 0.0
  {
    if |acts| > 0 {
      TypeTotalAbsent(acts[1..], t);
    }
  }

  /** The summary has a key for each non-mood type that occurs, and nothing else, and its
      value is that type's total; mood entries never contribute. */
  lemma {:induction false} SummaryIsTypeTotals(acts: seq<Activity>)
    ensures forall t :: t in Summary(acts) <==> t != MoodType && exists i :: 0 <= i < |acts| && acts[i].activityType == t
    ensures forall t :: t in Summary(acts) ==> Summary(acts)[t] == TypeTotal(acts, t)
  {
    if |acts| > 0 {
      var init, a := acts[..|acts| - 1], acts[|acts| - 1];
      assert acts == init + [a];
      SummaryIsTypeTotals(init);
      forall t | t in Summary(acts)
        ensures Summary(acts)[t] == TypeTotal(acts, t)
      {
        TypeTotalAppend(init, a, t);
        if t !in Summary(init) {
          assert forall i :: 0 <= i < |init| ==> init[i].activityType != t;
          TypeTotalAbsent(init, t);
        }
      }
      forall t | t != MoodType && exists i :: 0 <= i < |acts| && acts[i].activityType == t
        ensures t in Summary(acts)
      {
        var i :| 0 <= i < |acts| && acts[i].activityType == t;
        if i < |init| {
          assert init[i].activityType == t;
        }
      }
    }
  }

  /** A submitted record, once listed, leaves the summary alone when it is a mood entry,
      and otherwise adds its parsed amount (0 when it did not parse) to its own type's
      total, leaving every other type's total as it was. */
  lemma SubmittedRecordInSummary(st: LogState, childId: ChildId, parsed: Option<real>,
                                 acts: seq<Activity>, id: string)
    ensures var all := acts + [StoredRow(RecordOf(st, childId, parsed), id)];
      && (st.activityType == MoodType ==> Summary(all) == Summary(acts))
      && (st.activityType != MoodType ==>
            && st.activityType in Summary(all)
            && Summary(all)[st.activityType]
               == TypeTotal(acts, st.activityType) + (if parsed.Some? then parsed.value else 0.0)
            && forall t :: t != st.activityType && t in Summary(acts) ==>
                 t in Summary(all) && Summary(all)[t] == Summary(acts)[t])
  {
    var a := StoredRow(RecordOf(st, childId, parsed), id);
    var all := acts + [a];
    assert all[..|all| - 1] == acts;
    assert Summary(all) == SummaryStep(Summary(acts), a);
    if st.activityType != MoodType {
      SummaryIsTypeTotals(all);
      TypeTotalAppend(acts, a, st.activityType);
      assert all[|acts|].activityType == st.activityType;
    }
  }

  /** Whether a mood rating is truthy: present and non-zero. */
  predicate RatedMood(a: Activity) {
    a.activityType == MoodType && a.moodRating.Some? && a.moodRating.value != 0
  }

  function MoodCount(acts: seq<Activity>): nat {
    if |acts| == 0 then 0
    else (if acts[0].activityType == MoodType then 1 else 0) + MoodCount(acts[1..])
  }

  function RatingSum(acts: seq<Activity>): int {
    if |acts| == 0 then 0
    else (if RatedMood(acts[0]) then acts[0].moodRating.value else 0) + RatingSum(acts[1..])
  }

  /** `avgMood`: the sum of truthy ratings over the number of all mood entries, and 0 when
      there are none (the division 0/0 is NaN, which `|| 0` turns into 0). */
  function AverageMood(acts: seq<Activity>): (r: real)
    ensures MoodCount(acts) == 0 ==> r == 0.0
    ensures MoodCount(acts) > 0 ==> r * MoodCount(acts) as real == RatingSum(acts) as real
  {
    if MoodCount(acts) == 0 then 0.0 else RatingSum(acts) as real / MoodCount(acts) as real
  }

  /** When every mood entry carries a button rating, the sum lies between one and five
      per entry. */
  lemma {:induction false} RatingSumBounds(acts: seq<Activity>)
    requires forall i :: 0 <= i < |acts| && acts[i].activityType == MoodType ==>
      acts[i].moodRating.Some? && ValidRating(acts[i].moodRating.value)
    ensures MoodCount(acts) <= RatingSum(acts) <= 5 * MoodCount(acts)
  {
    if |acts| > 0 {
      RatingSumBounds(acts[1..]);
    }
  }

  /** ... so the average is itself a rating between 1 and 5 whenever there is a mood entry. */
  lemma AverageMoodInRange(acts: seq<Activity>)
    requires forall i :: 0 <= i < |acts| && acts[i].activityType == MoodType ==>
      acts[i].moodRating.Some? && ValidRating(acts[i].moodRating.value)
    requires MoodCount(acts) > 0
    ensures 1.0 <= AverageMood(acts) <= 5.0
  {
    RatingSumBounds(acts);
    AverageWithinSumBounds(acts);
  }

  lemma AverageWithinSumBounds(acts: seq<Activity>)
    requires 0 < MoodCount(acts) <= RatingSum(acts) <= 5 * MoodCount(acts)
    ensures 1.0 <= AverageMood(acts) <= 5.0
  {
    QuotientBounds(AverageMood(acts), MoodCount(acts), RatingSum(acts));
  }

  /** A quotient of a sum that lies between one and five times the divisor. */
  lemma QuotientBounds(q: real, n: int, s: int)
    requires 0 < n <= s <= 5 * n && q * n as real == s as real
    ensures 1.0 <= q <= 5.0
  {
    var rn, rs := n as real, s as real;
    assert rn <= rs <= 5.0 * rn;
    if q < 1.0 {
      ProductMonotone(q, 1.0, rn);
    }
    if q > 5.0 {
      ProductMonotone(5.0, q, rn);
    }
  }

  lemma ProductMonotone(a: real, b: real, n: real)
    requires a < b && n > 0.0
    ensures a * n < b * n
  {
    assert (b - a) * n > 0.0;
  }
}

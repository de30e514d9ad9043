/** The dashboard page: the child's age in months shown under its name, the latest
    measurement handed to the assistant, and the refresh counter bumped after a
    measurement is added. */
module Dashboard {
  import opened Common
  import opened Records

  /** A date as `getFullYear`, `getMonth` (0 to 11) and `getDate` report it. */
  datatype Date = Date(year: int, month: int, day: int)

  predicate ValidDate(d: Date) {
    0 <= d.month < 12 && 1 <= d.day <= 31
  }

  /** Months elapsed since January of year zero; the day plays no part. */
  function MonthIndex(d: Date): int {
    d.year * 12 + d.month
  }

  /** `calculateAge`: whole calendar months between the birth month and this month. */
  function AgeInMonths(birth: Date, today: Date): (r: int)
    ensures r == MonthIndex(today) - MonthIndex(birth)
    ensures birth.year == today.year && birth.month == today.month ==> r == 0
  {
    (today.year - birth.year) * 12 + (today.month - birth.month)
  }

  /** The date `k` months after `d` (before it, for negative `k`), same day of month. */
  function AddMonths(d: Date, k: int): (r: Date)
    requires ValidDate(d)
    ensures ValidDate(r) && r.day == d.day
  {
    Date(d.year + (d.month + k) / 12, (d.month + k) % 12, d.day)
  }

  /** The age counts months exactly: `k` months after the birth month the age is `k`,
      whatever the day of month, and a birth date in the future gives a negative age. */
  lemma AgeCountsMonths(birth: Date, k: int, day: int)
    requires ValidDate(birth) && 1 <= day <= 31
    ensures AgeInMonths(birth, AddMonths(birth, k).(day := day)) == k
    ensures k < 0 ==> AgeInMonths(birth, AddMonths(birth, k)) < 0
  {
    var m := birth.month + k;
    assert (m / 12) * 12 + m % 12 == m;
  }

  /** Ages compose: the age at `c` is the age at `b` plus the months from `b` to `c`. */
  lemma AgeAdditive(a: Date, b: Date, c: Date)
    ensures AgeInMonths(a, c) == AgeInMonths(a, b) + AgeInMonths(b, c)
    ensures AgeInMonths(a, b) == -AgeInMonths(b, a)
  {
  }

  /** A growth measurement row; its date is a day number. */
  datatype Measurement = Measurement(id: string, childId: ChildId, measurementDate: int, height: real, weight: real)

  /** The row the query returns: this child's measurement with the greatest date (the
      earliest listed one among equal dates), or none when the child has no rows. */
  function Latest(ms: seq<Measurement>, c: ChildId): (r: Option<Measurement>)
    ensures r.None? <==> forall i :: 0 <= i < |ms| ==> ms[i].childId != c
    ensures r.Some? ==> r.value in ms && r.value.childId == c
    ensures r.Some? ==>
      forall i :: 0 <= i < |ms| && ms[i].childId == c ==> ms[i].measurementDate <= r.value.measurementDate
  {
    if |ms| == 0 then None
    else
      var rest := Latest(ms[1..], c);
      assert forall i :: 1 <= i < |ms| ==> ms[i] == ms[1..][i - 1];
      if ms[0].childId != c then rest
      else if rest.Some? && rest.value.measurementDate > ms[0].measurementDate then rest
      else Some(ms[0])
  }

  /** The page state this model covers. */
  datatype DashboardState = DashboardState(selected: Option<Child>, latest: Option<Measurement>, refreshKey: nat)

  /** `fetchLatestMeasurement`: with a child selected and a row found, that row is shown;
      with no child, no row or a store error, the previous value stays. */
  function FetchLatest(st: DashboardState, ms: seq<Measurement>, fetchFails: bool): (r: DashboardState)
    ensures r == st.(latest := r.latest)
    ensures st.selected.None? || fetchFails ==> r == st
    ensures st.selected.Some? && !fetchFails ==>
      r.latest == if Latest(ms, st.selected.value.id).Some? then Latest(ms, st.selected.value.id) else st.latest
  {
    if st.selected.None? || fetchFails then st
    else match Latest(ms, st.selected.value.id)
      case None => st
      case Some(m) => st.(latest := Some(m))
  }

  /** `onMeasurementAdded`: the dialog has stored `m`; the refresh key goes up by one, and
      the change of key re-runs the fetch. */
  function MeasurementAdded(st: DashboardState, ms: seq<Measurement>, m: Measurement,
                            fetchFails: bool): (r: (DashboardState, seq<Measurement>))
    ensures r.1 == ms + [m]
    ensures r.0.refreshKey == st.refreshKey + 1
    ensures r.0.selected == st.selected
  {
    var bumped := st.(refreshKey := st.refreshKey + 1);
    (FetchLatest(bumped, ms + [m], fetchFails), ms + [m])
  }

  /** A measurement newer than every other of the selected child is shown right after it
      is added (unless the re-fetch fails). */
  lemma NewestMeasurementShown(st: DashboardState, ms: seq<Measurement>, m: Measurement)
    requires st.selected.Some? && m.childId == st.selected.value.id
    requires forall i :: 0 <= i < |ms| && ms[i].childId == m.childId ==> ms[i].measurementDate < m.measurementDate
    ensures MeasurementAdded(st, ms, m, false).0.latest == Some(m)
  {
    var all := ms + [m];
    assert all[|ms|] == m;
  }
}

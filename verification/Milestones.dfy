/** The milestone tracker: toggling a milestone, seeding the five sample milestones, and
    grouping the list by category for display. */
module Milestones {
  import opened Common
  import opened Records

  datatype Milestone = Milestone(
    id: string,
    childId: ChildId,
    title: string,
    description: string,
    category: string,
    isAchieved: bool,
    achievedDate: Option<string>,
    ageRangeMonths: string)

  type MilestoneTable = seq<Milestone>

  /** The row update of `toggleMilestone`: the flag flips relative to the status the list
      showed, and the achieved date is today exactly when it becomes achieved. */
  function ToggledRow(m: Milestone, currentStatus: bool, today: string): Milestone {
    m.(isAchieved := !currentStatus, achievedDate := if !currentStatus then Some(today) else None)
  }

  /** `toggleMilestone`: the update applies to the rows with that id; the result says
      whether the celebration toast is shown. A store error changes nothing. */
  function Toggle(t: MilestoneTable, id: string, currentStatus: bool, today: string,
                  updateFails: bool): (r: (MilestoneTable, bool))
    ensures |r.0| == |t|
    ensures updateFails ==> r.0 == t
    ensures forall i :: 0 <= i < |t| && (t[i].id != id || updateFails) ==> r.0[i] == t[i]
    ensures forall i :: 0 <= i < |t| && t[i].id == id && !updateFails ==>
      && r.0[i].isAchieved == !currentStatus
      && (r.0[i].achievedDate == Some(today) <==> !currentStatus)
      && (currentStatus ==> r.0[i].achievedDate.None?)
      && r.0[i] == t[i].(isAchieved := r.0[i].isAchieved, achievedDate := r.0[i].achievedDate)
    ensures r.1 <==> !updateFails && !currentStatus
  {
    if updateFails then (t, false)
    else (seq(|t|, i requires 0 <= i < |t| => if t[i].id == id then ToggledRow(t[i], currentStatus, today) else t[i]),
          !currentStatus)
  }

  /** Toggling the shown status twice gives back the original flag, with no achieved date
      left behind when it started unachieved. */
  lemma ToggleTwice(t: MilestoneTable, i: nat, today: string, later: string)
    requires i < |t|
    ensures var once := Toggle(t, t[i].id, t[i].isAchieved, today, false).0;
      var twice := Toggle(once, t[i].id, once[i].isAchieved, later, false).0;
      && twice[i].isAchieved == t[i].isAchieved
      && (!t[i].isAchieved ==> twice[i].achievedDate.None?)
      && twice[i].title == t[i].title && twice[i].category == t[i].category
  {
  }

  /** A sample milestone before insertion. */
  datatype NewMilestone = NewMilestone(category: string, title: string, ageRangeMonths: string,
                                       childId: ChildId, description: string)

  /** The five samples: category, title and age range. */
  const Samples: seq<(string, string, string)> := [
    ("motor_gross", "Duduk tanpa bantuan", "6-8"),
    ("motor_fine", "Menggenggam benda kecil", "6-9"),
    ("language", "Mengucapkan kata pertama", "10-14"),
    ("cognitive", "Memahami instruksi sederhana", "12-18"),
    ("social", "Menunjukkan kasih sayang pada orang yang dikenal", "6-12")
  ]

  /** `addSampleMilestones`: nothing without a signed-in user; otherwise the five samples
      for this child with an empty description. */
  function SampleRows(user: Option<UserId>, childId: ChildId): (r: Option<seq<NewMilestone>>)
    ensures r.None? <==> user.None?
    ensures r.Some? ==> |r.value| == 5
    ensures r.Some? ==> forall i :: 0 <= i < 5 ==>
      && r.value[i].childId == childId && r.value[i].description == ""
      && (r.value[i].category, r.value[i].title, r.value[i].ageRangeMonths) == Samples[i]
  {
    if user.None? then None
    else Some(seq(|Samples|, i requires 0 <= i < |Samples| =>
                NewMilestone(Samples[i].0, Samples[i].1, Samples[i].2, childId, "")))
  }

  /** The samples cover five different categories, so seeding yields five groups. */
  lemma SampleCategoriesDistinct(user: UserId, childId: ChildId)
    ensures var rows := SampleRows(Some(user), childId).value;
      forall i, j :: 0 <= i < j < 5 ==> rows[i].category != rows[j].category
  {
  }

  /** The seed button is shown only for an empty list. */
  predicate OffersSeeding(ms: MilestoneTable) {
    |ms| == 0
  }

  /** One displayed group: a category and its milestones. */
  datatype Group = Group(category: string, items: seq<Milestone>)

  /** Where a category's group sits in the accumulator, if it has one. */
  function GroupIndex(gs: seq<Group>, c: string): (r: Option<nat>)
    ensures r.Some? ==> r.value < |gs| && gs[r.value].category == c
    ensures r.Some? ==> forall k :: 0 <= k < r.value ==> gs[k].category != c
    ensures r.None? ==> forall k :: 0 <= k < |gs| ==> gs[k].category != c
  {
    if |gs| == 0 then None
    else if gs[0].category == c then Some(0)
    else match GroupIndex(gs[1..], c)
      case None => None
      case Some(k) => Some(k + 1)
  }

  /** One step of the `reduce`: append to the category's group, creating it at the end
      when the category is new. */
  function AddToGroups(gs: seq<Group>, m: Milestone): seq<Group> {
    match GroupIndex(gs, m.category)
    case Some(i) => gs[i := Group(gs[i].category, gs[i].items + [m])]
    case None => gs + [Group(m.category, [m])]
  }

  /** `groupedMilestones` as `Object.entries` lists it. */
  function Grouped(ms: seq<Milestone>): seq<Group> {
    if |ms| == 0 then []
    else AddToGroups(Grouped(ms[..|ms| - 1]), ms[|ms| - 1])
  }

  /** Reference definition: the categories in order of first occurrence. */
  function Categories(ms: seq<Milestone>): (r: seq<string>)
    ensures forall i, j :: 0 <= i < j < |r| ==> r[i] != r[j]
    ensures forall c :: c in r <==> exists k :: 0 <= k < |ms| && ms[k].category == c
  {
    if |ms| == 0 then []
    else
      var init := ms[..|ms| - 1];
      var cs := Categories(init);
      assert forall k :: 0 <= k < |init| ==> init[k] == ms[k];
      if ms[|ms| - 1].category in cs then cs else cs + [ms[|ms| - 1].category]
  }

  function InCategory(c: string): Milestone -> bool {
    (m: Milestone) => m.category == c
  }

  /** Reference definition: one group per category, in first-occurrence order, holding
      that category's milestones in list order. */
  function GroupsSpec(ms: seq<Milestone>): seq<Group> {
    var cs := Categories(ms);
    seq(|cs|, i requires 0 <= i < |cs| => Group(cs[i], Filter(ms, InCategory(cs[i]))))
  }

  /** A category's milestones in a list extended by one. */
  lemma FilterExtend(ms: seq<Milestone>, m: Milestone, c: string)
    ensures Filter(ms + [m], InCategory(c)) == Filter(ms, InCategory(c)) + (if m.category == c then [m] else [])
  {
    FilterAppend(ms, [m], InCategory(c));
    assert [m][1..] == [];
  }

  /** A milestone of a category already present joins that category's group. */
  lemma {:induction false} AddToExistingGroup(ms: seq<Milestone>, m: Milestone)
    requires m.category in Categories(ms)
    ensures AddToGroups(GroupsSpec(ms), m) == GroupsSpec(ms + [m])
  {
    var all := ms + [m];
    assert all[..|all| - 1] == ms;
    var cs := Categories(ms);
    assert Categories(all) == cs;
    var gs := GroupsSpec(ms);
    var k :| 0 <= k < |cs| && cs[k] == m.category;
    assert gs[k].category == m.category;
    var i := GroupIndex(gs, m.category).value;
    var r := AddToGroups(gs, m);
    assert r == gs[i := Group(gs[i].category, gs[i].items + [m])];
    forall j | 0 <= j < |cs|
      ensures r[j] == GroupsSpec(all)[j]
    {
      FilterExtend(ms, m, cs[j]);
    }
  }

  /** A milestone of a new category opens a group of its own at the end. */
  lemma {:induction false} AddToNewGroup(ms: seq<Milestone>, m: Milestone)
    requires m.category !in Categories(ms)
    ensures AddToGroups(GroupsSpec(ms), m) == GroupsSpec(ms + [m])
  {
    var all := ms + [m];
    var cs := Categories(ms);
    var gs := GroupsSpec(ms);
    assert Categories(all) == cs + [m.category] by {
      assert all[..|all| - 1] == ms;
    }
    var r := AddToGroups(gs, m);
    assert r == gs + [Group(m.category, [m])] by {
      assert GroupIndex(gs, m.category).None?;
    }
    var spec := GroupsSpec(all);
    assert forall j :: 0 <= j < |cs| ==> r[j] == spec[j] by {
      forall j | 0 <= j < |cs|
        ensures r[j] == spec[j]
      {
        FilterExtend(ms, m, cs[j]);
      }
    }
    assert r[|cs|] == spec[|cs|] by {
      FilterExtend(ms, m, m.category);
      FilterNone(ms, InCategory(m.category));
    }
  }

  /** Adding one milestone to the reference grouping of a list gives the reference
      grouping of the longer list. */
  lemma AddToGroupsSpec(ms: seq<Milestone>, m: Milestone)
    ensures AddToGroups(GroupsSpec(ms), m) == GroupsSpec(ms + [m])
  {
    if m.category in Categories(ms) {
      AddToExistingGroup(ms, m);
    } else {
      AddToNewGroup(ms, m);
    }
  }

  /** The reduce builds exactly the reference grouping: each milestone lands in its own
      category's group, list order is kept inside a group, and groups appear in order of
      first occurrence. */
  lemma {:induction false} GroupedIsSpec(ms: seq<Milestone>)
    ensures Grouped(ms) == GroupsSpec(ms)
  {
    if |ms| > 0 {
      var init := ms[..|ms| - 1];
      GroupedIsSpec(init);
      AddToGroupsSpec(init, ms[|ms| - 1]);
      assert init + [ms[|ms| - 1]] == ms;
    }
  }

  /** Consequently every listed milestone is shown, in the group of its category only. */
  lemma EveryMilestoneShownOnce(ms: seq<Milestone>, k: nat)
    requires k < |ms|
    ensures exists i :: 0 <= i < |Grouped(ms)| && Grouped(ms)[i].category == ms[k].category
    ensures forall i :: 0 <= i < |Grouped(ms)| ==>
      (ms[k] in Grouped(ms)[i].items <==> Grouped(ms)[i].category == ms[k].category)
  {
    GroupedIsSpec(ms);
    var cs := Categories(ms);
    assert ms[k].category in cs;
    var i :| 0 <= i < |cs| && cs[i] == ms[k].category;
    assert Grouped(ms)[i].category == ms[k].category;
  }
}

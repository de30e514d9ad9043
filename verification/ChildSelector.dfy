/** The child picker in the header: loading the user's children newest first, the first
    child chosen automatically, adding a child, and choosing from the dropdown. */
module ChildSelector {
  import opened Common
  import opened Records
  import Ordering

  const DefaultGender: string := "male"
  const MissingFieldsMessage: string := "Please fill in all fields"
  const NotSignedInMessage: string := "Anda harus login terlebih dahulu"

  function CreatedAt(c: Child): int {
    c.createdAt
  }

  datatype SelectorState = SelectorState(
    children: seq<Child>,
    dialogOpen: bool,
    newName: string,
    newDob: string,
    newGender: string,
    loading: bool)

  /** `fetchChildren`. `rows` are the rows the store lets this user read; `selected` is
      the currently selected id. The result also gives the child auto-selected, if any. */
  function FetchChildren(st: SelectorState, rows: seq<Child>, selected: Option<ChildId>,
                         fetchFails: bool): (r: (SelectorState, Option<Child>))
    ensures fetchFails ==> r == (st, None)
    ensures !fetchFails ==> r.0 == st.(children := r.0.children)
    ensures !fetchFails ==> multiset(r.0.children) == multiset(rows)
    ensures !fetchFails ==> Ordering.SortedDesc(r.0.children, CreatedAt)
    ensures r.1.Some? <==> !fetchFails && |rows| > 0 && !Truthy(selected)
    ensures r.1.Some? ==> r.1.value == r.0.children[0]
  {
    if fetchFails then (st, None)
    else
      var sorted := Ordering.SortDesc(rows, CreatedAt);
      (st.(children := sorted), if |sorted| > 0 && !Truthy(selected) then Some(sorted[0]) else None)
  }

  /** A child created after every other row is first in the list. */
  lemma NewestFirst(rows: seq<Child>, c: Child)
    requires c in rows
    requires forall i :: 0 <= i < |rows| && rows[i] != c ==> rows[i].createdAt < c.createdAt
    ensures Ordering.SortDesc(rows, CreatedAt)[0] == c
  {
    var sorted := Ordering.SortDesc(rows, CreatedAt);
    assert c in multiset(sorted);
    var k :| 0 <= k < |sorted| && sorted[k] == c;
    assert sorted[0] in multiset(rows);
  }

  /** The outcome of "add": the state, the store's rows, the error shown, and the
      selections made, in the order they happen. */
  datatype AddOutcome = AddOutcome(state: SelectorState, rows: seq<Child>, error: Option<string>, selections: seq<Child>)

  /** `handleAddChild`. `newId` and `now` are the id and creation instant the store gives
      the row; the re-fetch starts before the new child is selected and, when it finds no
      child selected at the time of the click, selects the newest row afterwards. */
  function AddChild(st: SelectorState, rows: seq<Child>, user: Option<UserId>, selected: Option<ChildId>,
                    newId: ChildId, now: int, insertError: Option<string>, fetchFails: bool): (r: AddOutcome)
    ensures st.newName == "" || st.newDob == "" ==> r == AddOutcome(st, rows, Some(MissingFieldsMessage), [])
    ensures st.newName != "" && st.newDob != "" && user.None? ==>
      r == AddOutcome(st.(loading := false), rows, Some(NotSignedInMessage), [])
    ensures st.newName != "" && st.newDob != "" && user.Some? && insertError.Some? ==>
      r == AddOutcome(st.(loading := false), rows, insertError, [])
    ensures |r.rows| > |rows| <==> st.newName != "" && st.newDob != "" && user.Some? && insertError.None?
    ensures |r.rows| > |rows| ==>
      && r.rows == rows + [Child(newId, user.value, st.newName, st.newDob, st.newGender, now)]
      && r.error.None? && !r.state.loading && !r.state.dialogOpen
      && r.state.newName == "" && r.state.newDob == "" && r.state.newGender == DefaultGender
      && |r.selections| >= 1 && r.selections[0] == r.rows[|rows|]
  {
    if st.newName == "" || st.newDob == "" then AddOutcome(st, rows, Some(MissingFieldsMessage), [])
    else if user.None? then AddOutcome(st.(loading := false), rows, Some(NotSignedInMessage), [])
    else if insertError.Some? then AddOutcome(st.(loading := false), rows, insertError, [])
    else
      var row := Child(newId, user.value, st.newName, st.newDob, st.newGender, now);
      var rows' := rows + [row];
      var reset := st.(newName := "", newDob := "", newGender := DefaultGender, dialogOpen := false, loading := false);
      var (fetched, auto) := FetchChildren(reset, rows', selected, fetchFails);
      AddOutcome(fetched, rows', None, [row] + (if auto.Some? then [auto.value] else []))
  }

  /** Whichever selection comes last, the child just added ends up selected when it is
      the newest row. */
  lemma AddedChildEndsSelected(st: SelectorState, rows: seq<Child>, user: UserId, selected: Option<ChildId>,
                               newId: ChildId, now: int, fetchFails: bool)
    requires st.newName != "" && st.newDob != ""
    requires forall i :: 0 <= i < |rows| ==> rows[i].createdAt < now
    ensures var r := AddChild(st, rows, Some(user), selected, newId, now, None, fetchFails);
      r.selections[|r.selections| - 1] == r.rows[|rows|]
  {
    var row := Child(newId, user, st.newName, st.newDob, st.newGender, now);
    var rows' := rows + [row];
    assert rows'[|rows|] == row;
    NewestFirst(rows', row);
  }

  /** The dropdown's `children.find(c => c.id === value)`: the first listed child with
      that id; nothing is selected for an id not in the list. */
  function Choose(children: seq<Child>, value: ChildId): (r: Option<Child>)
    ensures r.None? <==> forall i :: 0 <= i < |children| ==> children[i].id != value
    ensures r.Some? ==> r.value in children && r.value.id == value
    ensures r.Some? ==> exists i :: 0 <= i < |children| && children[i] == r.value &&
                                   (forall j :: 0 <= j < i ==> children[j].id != value)
  {
    if |children| == 0 then None
    else if children[0].id == value then Some(children[0])
    else
      var rest := Choose(children[1..], value);
      assert forall i :: 1 <= i < |children| ==> children[i] == children[1..][i - 1];
      if rest.Some? then
        var k :| 0 <= k < |children[1..]| && children[1..][k] == rest.value &&
          forall j :: 0 <= j < k ==> children[1..][j].id != value;
        assert children[k + 1] == rest.value;
        rest
      else None
  }
}

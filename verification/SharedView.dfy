/** The doctor-facing page: the access-code form and `verifyAccess`, which looks a
    link up by token and code, rejects it when expired, and counts the access. */
module SharedView {
  import opened Common
  import opened Records
  import opened ShareLinks

  const InvalidLinkMessage: string := "Kode akses salah atau link tidak valid"
  const ExpiredMessage: string := "Link sudah kadaluarsa"

  /** The code field's `maxLength`, and the only length the verify button accepts. */
  const CodeLength: nat := 6

  /** The lookup filter: exact token, stored code equal to the upper-cased entry, link active. */
  predicate RowMatches(row: ShareLink, token: string, code: string) {
    row.shareToken == token && row.accessCode == ToUpper(code) && row.isActive
  }

  /** The rows the lookup query returns. */
  function Matches(t: Table, token: string, code: string): seq<ShareLink> {
    Filter(t, (row: ShareLink) => RowMatches(row, token, code))
  }

  /** `Granted` carries the joined child row (absent when the join found none). */
  datatype Verdict = Granted(child: Option<Child>) | Denied(message: string)

  /** The table after an attempt, and what the page shows. */
  datatype Attempt = Attempt(table: Table, verdict: Verdict)

  function JoinedChild(children: map<ChildId, Child>, c: ChildId): Option<Child> {
    if c in children then Some(children[c]) else None
  }

  /** One verification. `lookupFails` is a store error on the query; `.single()` also fails
      unless exactly one row matches. `updateFails` is a store error on the counter update,
      whose result the page never inspects. */
  function VerifyAccess(t: Table, children: map<ChildId, Child>, token: string, code: string,
                        now: int, lookupFails: bool, updateFails: bool): (r: Attempt)
    ensures r.verdict.Denied? ==> r.table == t
    ensures r.verdict == Denied(InvalidLinkMessage)
      <==> lookupFails || |Matches(t, token, code)| != 1
    ensures r.verdict == Denied(ExpiredMessage)
      <==> !lookupFails && |Matches(t, token, code)| == 1 && Matches(t, token, code)[0].expiresAt < now
    ensures r.verdict.Denied? || r.verdict.Granted?
    ensures |r.table| == |t|
    ensures forall i :: 0 <= i < |t| ==> r.table[i].id == t[i].id
  {
    var found := Matches(t, token, code);
    if lookupFails || |found| != 1 then Attempt(t, Denied(InvalidLinkMessage))
    else if found[0].expiresAt < now then Attempt(t, Denied(ExpiredMessage))
    else
      var link := found[0];
      var t' := if updateFails then t else RecordAccess(t, link.id, link.accessCount + 1, now);
      Attempt(t', Granted(JoinedChild(children, link.childId)))
  }

  /** A grant names exactly one active row whose token and code match and whose expiry is
      not before `now`; with unique ids, its counter is bumped by one and stamped, and
      every other row is untouched. */
  lemma GrantedOnlyForUniqueLiveRow(t: Table, children: map<ChildId, Child>, token: string,
                                    code: string, now: int, lookupFails: bool, updateFails: bool)
    returns (i: int)
    requires UniqueIds(t)
    requires VerifyAccess(t, children, token, code, now, lookupFails, updateFails).verdict.Granted?
    ensures 0 <= i < |t|
    ensures t[i].shareToken == token && t[i].accessCode == ToUpper(code) && t[i].isActive
    ensures forall j :: 0 <= j < |t| && j != i ==> !RowMatches(t[j], token, code)
    ensures now <= t[i].expiresAt
    ensures !lookupFails
    ensures VerifyAccess(t, children, token, code, now, lookupFails, updateFails).verdict
      == Granted(JoinedChild(children, t[i].childId))
    ensures VerifyAccess(t, children, token, code, now, lookupFails, updateFails).table
      == if updateFails then t
         else t[i := t[i].(accessCount := t[i].accessCount + 1, lastAccessedAt := Some(now))]
  {
    i := FilterSingleSource(t, (row: ShareLink) => RowMatches(row, token, code));
    BumpOnlyRow(t, i, now);
  }

  /** Bumping the row at `i` by id touches that row only, when ids are unique. */
  lemma BumpOnlyRow(t: Table, i: int, now: int)
    requires UniqueIds(t) && 0 <= i < |t|
    ensures RecordAccess(t, t[i].id, t[i].accessCount + 1, now)
      == t[i := t[i].(accessCount := t[i].accessCount + 1, lastAccessedAt := Some(now))]
  {
    var r := RecordAccess(t, t[i].id, t[i].accessCount + 1, now);
    var e := t[i := t[i].(accessCount := t[i].accessCount + 1, lastAccessedAt := Some(now))];
    assert forall j :: 0 <= j < |t| ==> r[j] == e[j];
  }

  /** Conversely, the one live matching row is always granted, even at the instant it
      expires, and the counter write follows the store's answer. */
  lemma UniqueLiveRowGranted(t: Table, children: map<ChildId, Child>, token: string,
                             code: string, now: int, updateFails: bool, i: int)
    requires UniqueIds(t) && 0 <= i < |t|
    requires RowMatches(t[i], token, code)
    requires forall j :: 0 <= j < |t| && j != i ==> !RowMatches(t[j], token, code)
    requires now <= t[i].expiresAt
    ensures VerifyAccess(t, children, token, code, now, false, updateFails)
      == Attempt(if updateFails then t
                 else t[i := t[i].(accessCount := t[i].accessCount + 1, lastAccessedAt := Some(now))],
                 Granted(JoinedChild(children, t[i].childId)))
  {
    FilterSingle(t, (row: ShareLink) => RowMatches(row, token, code), i);
    BumpOnlyRow(t, i, now);
  }

  /** Strict expiry: the one matching row past its expiry is refused as expired, and nothing is written. */
  lemma ExpiredRowDenied(t: Table, children: map<ChildId, Child>, token: string,
                         code: string, now: int, updateFails: bool, i: int)
    requires 0 <= i < |t|
    requires RowMatches(t[i], token, code)
    requires forall j :: 0 <= j < |t| && j != i ==> !RowMatches(t[j], token, code)
    requires t[i].expiresAt < now
    ensures VerifyAccess(t, children, token, code, now, false, updateFails) == Attempt(t, Denied(ExpiredMessage))
  {
    FilterSingle(t, (row: ShareLink) => RowMatches(row, token, code), i);
  }

  /** Credentials are checked before expiry: with no matching row (wrong token, wrong code
      or inactive link) the answer is the invalid-credentials message at every instant. */
  lemma NoMatchDenied(t: Table, children: map<ChildId, Child>, token: string,
                      code: string, now: int, lookupFails: bool, updateFails: bool)
    requires forall j :: 0 <= j < |t| ==> !RowMatches(t[j], token, code)
    ensures VerifyAccess(t, children, token, code, now, lookupFails, updateFails)
      == Attempt(t, Denied(InvalidLinkMessage))
  {
    FilterNone(t, (row: ShareLink) => RowMatches(row, token, code));
  }

  /** An inactive link is never the one granted, whatever the credentials. */
  lemma InactiveNeverGranted(t: Table, children: map<ChildId, Child>, token: string,
                             code: string, now: int, lookupFails: bool, updateFails: bool)
    requires forall j :: 0 <= j < |t| && t[j].shareToken == token ==> !t[j].isActive
    ensures VerifyAccess(t, children, token, code, now, lookupFails, updateFails)
      == Attempt(t, Denied(InvalidLinkMessage))
  {
    NoMatchDenied(t, children, token, code, now, lookupFails, updateFails);
  }

  /** The code is case-insensitive: entering it in any case is entering it upper-cased. */
  lemma CodeCaseInsensitive(t: Table, children: map<ChildId, Child>, token: string,
                            code: string, now: int, lookupFails: bool, updateFails: bool)
    ensures VerifyAccess(t, children, token, code, now, lookupFails, updateFails)
      == VerifyAccess(t, children, token, ToUpper(code), now, lookupFails, updateFails)
  {
    ToUpperIdempotent(code);
    FilterSamePredicate(t, (row: ShareLink) => RowMatches(row, token, code),
                        (row: ShareLink) => RowMatches(row, token, ToUpper(code)));
  }

  /** Whether the counter write succeeds never changes the page's verdict. */
  lemma VerdictIgnoresCounterWrite(t: Table, children: map<ChildId, Child>, token: string,
                                   code: string, now: int, lookupFails: bool)
    ensures VerifyAccess(t, children, token, code, now, lookupFails, true).verdict
      == VerifyAccess(t, children, token, code, now, lookupFails, false).verdict
  {
  }

  /** The page's state: the code field, whether access was granted, the child shown,
      the error line and the busy flag. */
  datatype ViewState = ViewState(
    accessCode: string,
    isVerified: bool,
    childData: Option<Child>,
    error: string,
    loading: bool)

  const InitialView: ViewState := ViewState("", false, None, "", false)

  /** Typing in the code field: at most `CodeLength` characters, upper-cased. */
  function TypeCode(st: ViewState, input: string): (r: ViewState)
    ensures |r.accessCode| <= CodeLength
    ensures IsUpper(r.accessCode)
    ensures |input| <= CodeLength ==> r.accessCode == ToUpper(input)
    ensures r == st.(accessCode := r.accessCode)
  {
    ToUpperIdempotent(if |input| <= CodeLength then input else input[..CodeLength]);
    st.(accessCode := ToUpper(if |input| <= CodeLength then input else input[..CodeLength]))
  }

  /** The verify button is enabled only when idle and the code has exactly six characters. */
  predicate CanVerify(st: ViewState) {
    !st.loading && |st.accessCode| == CodeLength
  }

  /** Pressing the button: the previous error is cleared, then either the child is shown
      or the failure's message is. */
  function Submit(st: ViewState, t: Table, children: map<ChildId, Child>, token: string,
                  now: int, lookupFails: bool, updateFails: bool): (r: (ViewState, Table))
    requires CanVerify(st)
    ensures !r.0.loading && r.0.accessCode == st.accessCode
    ensures r.0.error == "" <==> VerifyAccess(t, children, token, st.accessCode, now, lookupFails, updateFails).verdict.Granted?
    ensures r.0.error != "" ==> r.0.isVerified == st.isVerified && r.0.childData == st.childData && r.1 == t
    ensures r.0.error == "" ==> r.0.isVerified
  {
    var a := VerifyAccess(t, children, token, st.accessCode, now, lookupFails, updateFails);
    match a.verdict
    case Granted(child) => (st.(isVerified := true, childData := child, error := "", loading := false), a.table)
    case Denied(msg) => (st.(error := msg, loading := false), a.table)
  }
}

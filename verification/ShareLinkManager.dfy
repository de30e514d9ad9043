/** The parent's share-link panel: the list of one child's links, the creation dialog,
    copying a link to the clipboard and deleting a link. */
module ShareLinkManager {
  import opened Common
  import opened Records
  import opened ShareLinks
  import opened ShareLinkCreation
  import Ordering

  /** The panel's state: the fetched links, whether the dialog is open, the busy flag and
      the dialog's fields. */
  datatype ManagerState = ManagerState(
    links: seq<ShareLink>,
    open: bool,
    loading: bool,
    doctorName: string,
    doctorEmail: string,
    expiresInDays: int)

  /** A fresh panel: no links, dialog closed, empty doctor fields, expiry field at seven days. */
  const InitialPanel: ManagerState := ManagerState([], false, false, "", "", DefaultExpiryDays)

  /** `fetchShareLinks`: on success the list becomes this child's links, newest first;
      on a store error it is kept. */
  function FetchLinks(st: ManagerState, t: Table, c: ChildId, fetchFails: bool): (r: ManagerState)
    ensures r == st.(links := r.links)
    ensures fetchFails ==> r == st
    ensures !fetchFails ==> (forall x :: x in r.links <==> x in t && x.childId == c)
    ensures !fetchFails ==> Ordering.SortedDesc(r.links, CreatedAt)
  {
    if fetchFails then st else st.(links := ChildLinks(t, c))
  }

  /** `copyShareLink`: the clipboard text for a listed link. */
  function CopyShareLink(origin: string, token: string, code: string): string {
    ClipboardText(ShareUrl(origin, token), code)
  }

  /** The body the dialog sends: the typed fields as they are (empty strings included). */
  function RequestOf(st: ManagerState, c: ChildId): CreateRequest {
    CreateRequest(c, Some(st.doctorName), Some(st.doctorEmail), Some(st.expiresInDays))
  }

  /** The result of pressing "Buat Link": the new panel, the table, and what was copied. */
  datatype CreateStep = CreateStep(panel: ManagerState, table: Table, clipboard: Option<string>)

  /** `createShareLink`: call the creation function; on success copy link and code, close
      the dialog, clear the doctor fields (keeping the expiry) and re-fetch. */
  function CreateShareLink(st: ManagerState, c: ChildId, t: Table, user: Option<UserId>,
                           origin: string, id: LinkId, token: string, randomText: string,
                           now: int, insertError: Option<Thrown>, fetchFails: bool): (r: CreateStep)
    requires IsRandomText(randomText)
    ensures !r.panel.loading
    ensures r.clipboard.Some? <==> user.Some? && insertError.None?
    ensures r.clipboard.None? ==> r.table == t && r.panel == st.(loading := false)
    ensures r.clipboard.Some? ==>
      && !r.panel.open && r.panel.doctorName == "" && r.panel.doctorEmail == ""
      && r.panel.expiresInDays == st.expiresInDays
  {
    var (t', resp) := GenerateShareLink(t, user, RequestOf(st, c), origin, id, token, randomText, now, insertError);
    match resp
    case CreateFailed(_, _) => CreateStep(st.(loading := false), t', None)
    case Created(link, code, _) =>
      var closed := st.(open := false, doctorName := "", doctorEmail := "", loading := false);
      CreateStep(FetchLinks(closed, t', c, fetchFails), t', Some(ClipboardText(link, code)))
  }

  /** The text copied right after creation is the text the copy button later produces for
      the stored row, and (unless the re-fetch fails) the new row is in the list. */
  lemma CreatedCopyAgreesWithStoredRow(st: ManagerState, c: ChildId, t: Table, user: UserId,
                                       origin: string, id: LinkId, token: string,
                                       randomText: string, now: int, fetchFails: bool)
    requires IsRandomText(randomText)
    ensures var r := CreateShareLink(st, c, t, Some(user), origin, id, token, randomText, now, None, fetchFails);
      && |r.table| == |t| + 1
      && r.clipboard == Some(CopyShareLink(origin, r.table[|t|].shareToken, r.table[|t|].accessCode))
      && (!fetchFails ==> r.table[|t|] in r.panel.links)
  {
  }

  /** An emptied expiry field is sent as 0, which the function turns into seven days. */
  lemma ClearedExpiryMeansSevenDays(st: ManagerState, c: ChildId, t: Table, user: UserId,
                                    origin: string, id: LinkId, token: string,
                                    randomText: string, now: int)
    requires IsRandomText(randomText)
    requires st.expiresInDays == 0
    ensures GenerateShareLink(t, Some(user), RequestOf(st, c), origin, id, token, randomText, now, None).1.expiresAt
      == now + 7 * DayMillis
  {
  }

  /** `deleteShareLink`: on success the row with that id is gone and the list is re-fetched;
      on a store error nothing changes. */
  function DeleteShareLink(st: ManagerState, c: ChildId, t: Table, id: LinkId,
                           deleteFails: bool, fetchFails: bool): (r: (ManagerState, Table))
    ensures deleteFails ==> r == (st, t)
    ensures !deleteFails ==> forall x :: x in r.1 <==> x in t && x.id != id
    ensures !deleteFails && !fetchFails ==> forall x :: x in r.0.links ==> x.id != id && x.childId == c
    ensures r.0 == st.(links := r.0.links)
  {
    if deleteFails then (st, t)
    else
      var t' := DeleteById(t, id);
      (FetchLinks(st, t', c, fetchFails), t')
  }
}

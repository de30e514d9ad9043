/** The `share_links` table through which a parent lets a doctor view one child's
    data, and the texts built from a link (its URL and the clipboard message). */
module ShareLinks {
  import opened Common
  import opened Records
  import Ordering

  type LinkId = string

  /** Milliseconds in one calendar day. */
  const DayMillis: int := 86_400_000

  /** One row of `share_links`. Instants are milliseconds since the epoch. */
  datatype ShareLink = ShareLink(
    id: LinkId,
    childId: ChildId,
    shareToken: string,
    accessCode: string,
    expiresAt: int,
    isActive: bool,
    accessCount: int,
    lastAccessedAt: Option<int>,
    doctorName: Option<string>,
    doctorEmail: Option<string>,
    createdBy: UserId,
    createdAt: int)

  /** The rows of the table, in storage order. */
  type Table = seq<ShareLink>

  /** `id` is the primary key. */
  predicate UniqueIds(t: Table) {
    forall i, j :: 0 <= i < j < |t| ==> t[i].id != t[j].id
  }

  const SharedPath: string := "/shared/"

  /** The URL a doctor opens: the page origin, the shared-view route, the token. */
  function ShareUrl(origin: string, token: string): (url: string)
    ensures |url| == |origin| + |SharedPath| + |token|
    ensures url[..|origin|] == origin
    ensures url[|origin|..|origin| + |SharedPath|] == SharedPath
    ensures url[|origin| + |SharedPath|..] == token
  {
    origin + SharedPath + token
  }

  /** The token carried by a share URL of the given origin. */
  function TokenOfUrl(origin: string, url: string): string
    requires |origin| + |SharedPath| <= |url|
  {
    url[|origin| + |SharedPath|..]
  }

  /** The token is recovered from its URL, so different tokens give different URLs. */
  lemma TokenOfShareUrl(origin: string, token: string, other: string)
    ensures TokenOfUrl(origin, ShareUrl(origin, token)) == token
    ensures token != other ==> ShareUrl(origin, token) != ShareUrl(origin, other)
  {
  }

  /** The message put on the clipboard: the link on one line, the access code on the next. */
  function ClipboardText(link: string, code: string): string {
    "Link: " + link + "\nKode Akses: " + code
  }

  /** Sets the counter to `count` and stamps `now` on every row with id `id`; nothing else changes. */
  function RecordAccess(t: Table, id: LinkId, count: int, now: int): (r: Table)
    ensures |r| == |t|
    ensures forall i :: 0 <= i < |t| && t[i].id != id ==> r[i] == t[i]
    ensures forall i :: 0 <= i < |t| && t[i].id == id ==>
      r[i] == t[i].(accessCount := count, lastAccessedAt := Some(now))
  {
    seq(|t|, i requires 0 <= i < |t| =>
      if t[i].id == id then t[i].(accessCount := count, lastAccessedAt := Some(now)) else t[i])
  }

  /** `delete().eq('id', id)`: every row with another id stays, in order. */
  function DeleteById(t: Table, id: LinkId): (r: Table)
    ensures forall x :: x in r <==> x in t && x.id != id
    ensures |r| <= |t|
  {
    Filter(t, (row: ShareLink) => row.id != id)
  }

  function CreatedAt(row: ShareLink): int {
    row.createdAt
  }

  /** `select('*').eq('child_id', c).order('created_at', desc)`: one child's links, newest first. */
  function ChildLinks(t: Table, c: ChildId): (r: seq<ShareLink>)
    ensures forall x :: x in r <==> x in t && x.childId == c
    ensures Ordering.SortedDesc(r, CreatedAt)
    ensures multiset(r) == multiset(Filter(t, (row: ShareLink) => row.childId == c))
  {
    var mine := Filter(t, (row: ShareLink) => row.childId == c);
    var r := Ordering.SortDesc(mine, CreatedAt);
    assert forall x :: x in r <==> x in multiset(r);
    assert forall x :: x in mine <==> x in multiset(mine);
    r
  }
}

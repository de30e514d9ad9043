/** The `generate-share-link` function: an authenticated parent creates a link for a
    child with a fresh token, a short access code and an expiry some days ahead. */
module ShareLinkCreation {
  import opened Common
  import opened Records
  import opened ShareLinks
  import SharedView

  /** Days a link stays valid when the request names no (or a zero) number of days. */
  const DefaultExpiryDays: int := 7

  const UnauthorizedMessage: string := "Unauthorized"

  /** The message reported when the thrown value is not an `Error` instance. */
  const FallbackErrorMessage: string := "Terjadi kesalahan"

  /** The request body. `expiresInDays` is absent when the caller leaves it out. */
  datatype CreateRequest = CreateRequest(
    childId: ChildId,
    doctorName: Option<string>,
    doctorEmail: Option<string>,
    expiresInDays: Option<int>)

  /** What a failing store call throws: an `Error` instance with its message, or some other value. */
  datatype Thrown = ErrorInstance(message: string) | OtherValue

  datatype CreateResponse =
    | Created(shareLink: string, accessCode: string, expiresAt: int)
    | CreateFailed(status: int, error: string)

  /** `expiresInDays || 7`: a missing or zero count means the default. */
  function ExpiryDays(requested: Option<int>): (d: int)
    ensures requested.None? || requested == Some(0) ==> d == DefaultExpiryDays
    ensures requested.Some? && requested.value != 0 ==> d == requested.value
  {
    match requested
    case None => DefaultExpiryDays
    case Some(n) => if n == 0 then DefaultExpiryDays else n
  }

  function ErrorMessage(e: Thrown): string {
    match e
    case ErrorInstance(m) => m
    case OtherValue => FallbackErrorMessage
  }

  predicate IsBase36Digit(c: char) {
    '0' <= c <= '9' || 'a' <= c <= 'z'
  }

  /** A possible `Math.random().toString(36)`: "0", or "0." followed by base-36 digits. */
  predicate IsRandomText(s: string) {
    s == "0" || (2 <= |s| && s[0] == '0' && s[1] == '.' && forall i :: 2 <= i < |s| ==> IsBase36Digit(s[i]))
  }

  /** JavaScript's `s.substring(a, b)` for `0 <= a <= b`: both ends clamped to the length. */
  function JsSubstring(s: string, a: nat, b: nat): (r: string)
    requires a <= b
    ensures |r| <= b - a
  {
    var lo := if a < |s| then a else |s|;
    var hi := if b < |s| then b else |s|;
    s[lo..hi]
  }

  /** Upper-case base-36 digits. */
  predicate IsCodeText(s: string) {
    forall i :: 0 <= i < |s| ==> ('0' <= s[i] <= '9' || 'A' <= s[i] <= 'Z')
  }

  /** The code as the function computes it: characters 2 to 8 of the random text, upper-cased. */
  function AccessCodeAsWritten(randomText: string): (code: string)
    requires IsRandomText(randomText)
    ensures |code| <= SharedView.CodeLength
    ensures IsCodeText(code) && IsUpper(code)
  {
    ToUpper(JsSubstring(randomText, 2, 8))
  }

  function PadEnd(s: string, n: nat, fill: char): (r: string)
    ensures |r| == if |s| < n then n else |s|
    ensures r[..|s|] == s
    ensures forall i :: |s| <= i < |r| ==> r[i] == fill
  {
    if |s| < n then s + seq(n - |s|, _ => fill) else s
  }

  /** The corrected code: the as-written code padded with '0' to exactly six characters. */
  function AccessCode(randomText: string): (code: string)
    requires IsRandomText(randomText)
    ensures |code| == SharedView.CodeLength
    ensures IsCodeText(code) && IsUpper(code)
    ensures code[..|AccessCodeAsWritten(randomText)|] == AccessCodeAsWritten(randomText)
  {
    PadEnd(AccessCodeAsWritten(randomText), SharedView.CodeLength, '0')
  }

  /** A random draw of 0.5 renders as "0.i", so the code as written is the single letter "I". */
  lemma AsWrittenCodeCanBeShort()
    ensures IsRandomText("0.i")
    ensures AccessCodeAsWritten("0.i") == "I"
    ensures |AccessCodeAsWritten("0.i")| < SharedView.CodeLength
  {
  }

  /** Such a link can never be opened: the page only submits six-character codes, and no
      six-character entry upper-cases to a shorter stored code. */
  lemma ShortCodeNeverMatches(row: ShareLink, token: string, entered: string)
    requires |row.accessCode| != SharedView.CodeLength
    requires |entered| == SharedView.CodeLength
    ensures !SharedView.RowMatches(row, token, entered)
  {
  }

  /** With the corrected code, typing the code as shown makes the button usable and the
      row match (for an active link with that token). */
  lemma CorrectedCodeIsEnterable(randomText: string, row: ShareLink, st: SharedView.ViewState)
    requires IsRandomText(randomText)
    requires row.accessCode == AccessCode(randomText) && row.isActive
    requires !st.loading
    ensures SharedView.CanVerify(SharedView.TypeCode(st, row.accessCode))
    ensures SharedView.RowMatches(row, row.shareToken, SharedView.TypeCode(st, row.accessCode).accessCode)
  {
    ToUpperFixesUpper(row.accessCode);
  }

  /** The row the function inserts: active, never accessed, owned by the caller. */
  function NewRow(user: UserId, req: CreateRequest, id: LinkId, token: string, code: string,
                  expiresAt: int, now: int): ShareLink {
    ShareLink(id, req.childId, token, code, expiresAt, true, 0, None,
              req.doctorName, req.doctorEmail, user, now)
  }

  /** The insertion and the response, for an access code already generated. */
  function CreateLink(t: Table, user: Option<UserId>, req: CreateRequest, origin: string,
                      id: LinkId, token: string, code: string, now: int,
                      insertError: Option<Thrown>): (Table, CreateResponse) {
    match user
    case None => (t, CreateFailed(401, UnauthorizedMessage))
    case Some(u) =>
      var expiresAt := now + ExpiryDays(req.expiresInDays) * DayMillis;
      match insertError
      case Some(e) => (t, CreateFailed(500, ErrorMessage(e)))
      case None =>
        (t + [NewRow(u, req, id, token, code, expiresAt, now)],
         Created(ShareUrl(origin, token), code, expiresAt))
  }

  /** One call, as the function is written. `user` is what the auth collaborator resolves
      from the caller's header; `token` and `randomText` are the random generators'
      outputs; `insertError` is what a failing insert throws. The stored code is the
      as-written one, so it may be shorter than six characters. */
  function GenerateShareLink(t: Table, user: Option<UserId>, req: CreateRequest, origin: string,
                             id: LinkId, token: string, randomText: string, now: int,
                             insertError: Option<Thrown>): (r: (Table, CreateResponse))
    requires IsRandomText(randomText)
    ensures user.None? ==> r == (t, CreateFailed(401, UnauthorizedMessage))
    ensures user.Some? && insertError.Some? ==>
      r == (t, CreateFailed(500, ErrorMessage(insertError.value)))
    ensures r.1.Created? <==> user.Some? && insertError.None?
    ensures r.1.Created? ==>
      && |r.0| == |t| + 1 && r.0[..|t|] == t
      && r.0[|t|].id == id && r.0[|t|].childId == req.childId
      && r.0[|t|].shareToken == token && r.0[|t|].createdBy == user.value
      && r.0[|t|].doctorName == req.doctorName && r.0[|t|].doctorEmail == req.doctorEmail
      && r.0[|t|].isActive && r.0[|t|].accessCount == 0 && r.0[|t|].lastAccessedAt.None?
      && r.1.accessCode == r.0[|t|].accessCode && r.1.expiresAt == r.0[|t|].expiresAt
      && r.1.expiresAt == now + ExpiryDays(req.expiresInDays) * DayMillis
      && r.1.shareLink == ShareUrl(origin, token)
      && |r.1.accessCode| <= SharedView.CodeLength && IsUpper(r.1.accessCode)
  {
    CreateLink(t, user, req, origin, id, token, AccessCodeAsWritten(randomText), now, insertError)
  }

  /** The corrected function: the same outcome as written, except that a created link
      stores and returns the code padded to exactly six characters. */
  function GenerateShareLinkCorrected(t: Table, user: Option<UserId>, req: CreateRequest, origin: string,
                                      id: LinkId, token: string, randomText: string, now: int,
                                      insertError: Option<Thrown>): (r: (Table, CreateResponse))
    requires IsRandomText(randomText)
    ensures var w := GenerateShareLink(t, user, req, origin, id, token, randomText, now, insertError);
      && (r.1.Created? <==> w.1.Created?)
      && (!w.1.Created? ==> r == w)
      && (w.1.Created? ==>
           && |r.0| == |w.0| && r.0[..|t|] == t
           && r.0[|t|] == w.0[|t|].(accessCode := r.1.accessCode)
           && r.1 == w.1.(accessCode := r.1.accessCode)
           && |r.1.accessCode| == SharedView.CodeLength && IsUpper(r.1.accessCode)
           && r.1.accessCode[..|w.1.accessCode|] == w.1.accessCode)
  {
    CreateLink(t, user, req, origin, id, token, AccessCode(randomText), now, insertError)
  }

  /** The link created as written from the random text "0.i" carries the code "I" and can
      never be opened: every six-character entry is refused as invalid, at every instant. */
  lemma ShortLinkNeverOpens(t: Table, children: map<ChildId, Child>, user: UserId, req: CreateRequest,
                            origin: string, id: LinkId, token: string, now: int,
                            entered: string, later: int, lookupFails: bool, updateFails: bool)
    requires forall j :: 0 <= j < |t| ==> t[j].shareToken != token
    requires |entered| == SharedView.CodeLength
    ensures var created := GenerateShareLink(t, Some(user), req, origin, id, token, "0.i", now, None);
      && created.1.Created? && created.1.accessCode == "I"
      && SharedView.VerifyAccess(created.0, children, token, entered, later, lookupFails, updateFails)
         == SharedView.Attempt(created.0, SharedView.Denied(SharedView.InvalidLinkMessage))
  {
    AsWrittenCodeCanBeShort();
    var created := GenerateShareLink(t, Some(user), req, origin, id, token, "0.i", now, None);
    ShortCodeNeverMatches(created.0[|t|], token, entered);
    assert forall j :: 0 <= j < |created.0| ==> !SharedView.RowMatches(created.0[j], token, entered) by {
      forall j | 0 <= j < |created.0|
        ensures !SharedView.RowMatches(created.0[j], token, entered)
      {
        if j < |t| {
          assert created.0[j] == t[j];
        }
      }
    }
    SharedView.NoMatchDenied(created.0, children, token, entered, later, lookupFails, updateFails);
  }

  /** The link created by the corrected function opens: typing its code as shown enables
      the button, and the attempt is granted at any instant up to the expiry. */
  lemma CorrectedLinkOpens(t: Table, children: map<ChildId, Child>, user: UserId, req: CreateRequest,
                           origin: string, id: LinkId, token: string, randomText: string, now: int,
                           later: int, st: SharedView.ViewState)
    requires IsRandomText(randomText)
    requires UniqueIds(t) && forall j :: 0 <= j < |t| ==> t[j].id != id && t[j].shareToken != token
    requires later <= now + ExpiryDays(req.expiresInDays) * DayMillis
    requires !st.loading
    ensures var created := GenerateShareLinkCorrected(t, Some(user), req, origin, id, token, randomText, now, None);
      var typed := SharedView.TypeCode(st, created.1.accessCode);
      && SharedView.CanVerify(typed)
      && SharedView.VerifyAccess(created.0, children, token, typed.accessCode, later, false, false).verdict
         == SharedView.Granted(SharedView.JoinedChild(children, req.childId))
  {
    var created := GenerateShareLinkCorrected(t, Some(user), req, origin, id, token, randomText, now, None);
    var row := created.0[|t|];
    CorrectedCodeIsEnterable(randomText, row, st);
    var typed := SharedView.TypeCode(st, row.accessCode);
    assert UniqueIds(created.0) by {
      forall i, j | 0 <= i < j < |created.0|
        ensures created.0[i].id != created.0[j].id
      {
        if j < |t| {
          assert created.0[i] == t[i] && created.0[j] == t[j];
        } else {
          assert created.0[i] == t[i];
        }
      }
    }
    assert forall j :: 0 <= j < |created.0| && j != |t| ==> !SharedView.RowMatches(created.0[j], token, typed.accessCode) by {
      forall j | 0 <= j < |created.0| && j != |t|
        ensures !SharedView.RowMatches(created.0[j], token, typed.accessCode)
      {
        assert created.0[j] == t[j];
      }
    }
    SharedView.UniqueLiveRowGranted(created.0, children, token, typed.accessCode, later, false, |t|);
  }

  /** Creating a seven-day link from the random text "0.ab12cdxyz" stores one row with
      the code "AB12CD". */
  lemma SevenDayLinkCreated(user: UserId, c: ChildId, origin: string, id: LinkId, token: string, now: int)
    ensures GenerateShareLink([], Some(user), CreateRequest(c, None, None, Some(7)), origin, id, token, "0.ab12cdxyz", now, None)
      == ([NewRow(user, CreateRequest(c, None, None, Some(7)), id, token, "AB12CD", now + 7 * DayMillis, now)],
          Created(ShareUrl(origin, token), "AB12CD", now + 7 * DayMillis))
  {
    assert JsSubstring("0.ab12cdxyz", 2, 8) == "ab12cd";
    assert ToUpper("ab12cd") == "AB12CD";
  }

  /** A lone live row with code "AB12CD", expiring in seven days, opens twice and is
      refused as expired eight days later, with its counter left at 2. */
  lemma LoneRowLifecycle(children: map<ChildId, Child>, row: ShareLink, token: string, now: int)
    requires row.shareToken == token && row.accessCode == "AB12CD" && row.isActive
    requires row.accessCount == 0 && row.expiresAt == now + 7 * DayMillis
    ensures var a1 := SharedView.VerifyAccess([row], children, token, "ab12cd", now, false, false);
      && a1.verdict.Granted? && a1.table[0].accessCount == 1
      && var a2 := SharedView.VerifyAccess(a1.table, children, token, "AB12CD", now, false, false);
      && a2.verdict.Granted? && a2.table[0].accessCount == 2
      && var a3 := SharedView.VerifyAccess(a2.table, children, token, "AB12CD", now + 8 * DayMillis, false, false);
      && a3.verdict == SharedView.Denied(SharedView.ExpiredMessage) && a3.table[0].accessCount == 2
  {
    assert ToUpper("ab12cd") == "AB12CD";
    assert ToUpper("AB12CD") == "AB12CD";
    var t0 := [row];
    SharedView.UniqueLiveRowGranted(t0, children, token, "ab12cd", now, false, 0);
    var t1 := [row.(accessCount := 1, lastAccessedAt := Some(now))];
    assert SharedView.VerifyAccess(t0, children, token, "ab12cd", now, false, false).table == t1;
    SharedView.UniqueLiveRowGranted(t1, children, token, "AB12CD", now, false, 0);
    var t2 := [row.(accessCount := 2, lastAccessedAt := Some(now))];
    assert SharedView.VerifyAccess(t1, children, token, "AB12CD", now, false, false).table == t2;
    SharedView.ExpiredRowDenied(t2, children, token, "AB12CD", now + 8 * DayMillis, false, 0);
  }

  /** The lifecycle: a seven-day link with code "AB12CD" opens twice (the counter reaching
      1 then 2, even when typed in lower case) and, eight days later, is refused as
      expired with the counter left at 2. */
  lemma SevenDayLinkLifecycle(children: map<ChildId, Child>, user: UserId, c: ChildId,
                              origin: string, id: LinkId, token: string, now: int)
    ensures var created := GenerateShareLink([], Some(user), CreateRequest(c, None, None, Some(7)),
                                             origin, id, token, "0.ab12cdxyz", now, None);
      && created.1 == Created(ShareUrl(origin, token), "AB12CD", now + 7 * DayMillis)
      && var a1 := SharedView.VerifyAccess(created.0, children, token, "ab12cd", now, false, false);
      && a1.verdict.Granted? && a1.table[0].accessCount == 1
      && var a2 := SharedView.VerifyAccess(a1.table, children, token, "AB12CD", now, false, false);
      && a2.verdict.Granted? && a2.table[0].accessCount == 2
      && var a3 := SharedView.VerifyAccess(a2.table, children, token, "AB12CD", now + 8 * DayMillis, false, false);
      && a3.verdict == SharedView.Denied(SharedView.ExpiredMessage) && a3.table[0].accessCount == 2
  {
    SevenDayLinkCreated(user, c, origin, id, token, now);
    LoneRowLifecycle(children, NewRow(user, CreateRequest(c, None, None, Some(7)), id, token, "AB12CD",
                                      now + 7 * DayMillis, now), token, now);
  }
}

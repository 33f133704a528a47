/**
 The read side of the complaint API: GET /api/complaints (the caller's own rows)
 and GET /api/admin/complaints (every row), both filtered by the optional `status`
 and `search` query parameters and ordered newest first, and the two single-row
 fetches that also return the row's case updates, newest first.
 */
module Listing {
  import opened Wrappers
  import opened Text
  import opened Complaints

  /** The query string: `None` is an absent parameter. */
  datatype Query = Query(status: Option<string>, search: Option<string>)

  /** `status && status !== 'all'` adds `status = ?`; a NULL status equals nothing. */
  predicate StatusSelects(q: Query, c: Complaint) {
    !Truthy(q.status) || q.status.value == "all" || c.status == q.status
  }

  /** `field LIKE '%term%'`: SQLite's LIKE ignores the case of ASCII letters. */
  predicate Like(field: string, term: string) {
    Contains(Lower(field), Lower(term))
  }

  /** `search` adds `(vehicleNumber LIKE ? OR caseNumber LIKE ?)`. */
  predicate SearchSelects(q: Query, c: Complaint) {
    !Truthy(q.search) || Like(c.vehicleNumber, q.search.value) || Like(c.caseNumber, q.search.value)
  }

  /** Whether a row is listed: it belongs to `owner` (when the listing is a user's
      own) and passes both filters. */
  predicate Listed(owner: Option<int>, q: Query, c: Complaint) {
    (owner.None? || c.userId == owner.value) && StatusSelects(q, c) && SearchSelects(q, c)
  }

  /** The `WHERE` clause: the listed rows, in table order. */
  function Select(rows: seq<Complaint>, owner: Option<int>, q: Query): (r: seq<Complaint>)
    ensures forall c :: multiset(r)[c] == if Listed(owner, q, c) then multiset(rows)[c] else 0
    ensures forall i | 0 <= i < |r| :: Listed(owner, q, r[i])
  {
    if |rows| == 0 then []
    else
      var rest := Select(rows[1..], owner, q);
      assert rows == [rows[0]] + rows[1..];
      if Listed(owner, q, rows[0]) then [rows[0]] + rest else rest
  }

  /** Newest first by `key`; rows with equal keys may come in any order. */
  ghost predicate SortedDesc<T>(xs: seq<T>, key: T -> int) {
    forall i, j | 0 <= i < j < |xs| :: key(xs[i]) >= key(xs[j])
  }

  function InsertDesc<T(==)>(x: T, xs: seq<T>, key: T -> int): (r: seq<T>)
    requires SortedDesc(xs, key)
    ensures SortedDesc(r, key)
    ensures multiset(r) == multiset(xs) + multiset{x}
  {
    if |xs| == 0 || key(x) >= key(xs[0]) then [x] + xs
    else
      var rest := InsertDesc(x, xs[1..], key);
      HeadStaysFirst(x, xs, key, rest);
      assert xs == [xs[0]] + xs[1..];
      [xs[0]] + rest
  }

  /** The head of a sorted list stays in front of the tail with a later row inserted. */
  lemma HeadStaysFirst<T>(x: T, xs: seq<T>, key: T -> int, rest: seq<T>)
    requires SortedDesc(xs, key) && |xs| > 0 && key(x) < key(xs[0])
    requires SortedDesc(rest, key) && multiset(rest) == multiset(xs[1..]) + multiset{x}
    ensures SortedDesc([xs[0]] + rest, key)
  {
    forall k | 0 <= k < |rest|
      ensures key(xs[0]) >= key(rest[k])
    {
      assert rest[k] in multiset(rest);
      if rest[k] != x {
        assert rest[k] in multiset(xs[1..]);
        var j :| 0 <= j < |xs[1..]| && xs[1..][j] == rest[k];
        assert xs[j + 1] == rest[k];
      }
    }
    var r := [xs[0]] + rest;
    forall i, j | 0 <= i < j < |r|
      ensures key(r[i]) >= key(r[j])
    {
      if i == 0 {
        assert r[j] == rest[j - 1];
      } else {
        assert r[i] == rest[i - 1] && r[j] == rest[j - 1];
      }
    }
  }

  /** `ORDER BY createdAt DESC`: a reordering of the rows, newest first. */
  function SortDesc<T(==)>(xs: seq<T>, key: T -> int): (r: seq<T>)
    ensures SortedDesc(r, key)
    ensures multiset(r) == multiset(xs)
  {
    if |xs| == 0 then []
    else
      assert xs == [xs[0]] + xs[1..];
      InsertDesc(xs[0], SortDesc(xs[1..], key), key)
  }

  function CreatedAt(c: Complaint): int { c.createdAt }

  function NoteCreatedAt(u: CaseUpdate): int { u.createdAt }

  /** GET /api/complaints: the caller's rows that pass the filters, newest first.
      Every such row appears exactly as often as in the table, and no other row. */
  function ListOwn(store: Store, userId: int, q: Query): (r: seq<Complaint>)
    ensures SortedDesc(r, CreatedAt)
    ensures forall c :: multiset(r)[c] == if c.userId == userId && StatusSelects(q, c) && SearchSelects(q, c)
                                           then multiset(store.complaints)[c] else 0
  {
    SortDesc(Select(store.complaints, Some(userId), q), CreatedAt)
  }

  /** GET /api/admin/complaints: every row that passes the filters, newest first. */
  function ListAll(store: Store, q: Query): (r: seq<Complaint>)
    ensures SortedDesc(r, CreatedAt)
    ensures forall c :: multiset(r)[c] == if StatusSelects(q, c) && SearchSelects(q, c)
                                           then multiset(store.complaints)[c] else 0
  {
    SortDesc(Select(store.complaints, None, q), CreatedAt)
  }

  /** The user's listing is the admin listing restricted to the user's rows: the two
      routes apply the same filters. */
  lemma OwnIsAllRestricted(store: Store, userId: int, q: Query)
    ensures forall c :: multiset(ListOwn(store, userId, q))[c]
                        == if c.userId == userId then multiset(ListAll(store, q))[c] else 0
  {
  }

  /** Asking for 'all', or for no status, filters nothing by status. */
  lemma AllStatusIsNoFilter(store: Store, search: Option<string>)
    ensures multiset(ListAll(store, Query(Some("all"), search))) == multiset(ListAll(store, Query(None, search)))
  {
    var a := ListAll(store, Query(Some("all"), search));
    var b := ListAll(store, Query(None, search));
    assert forall c :: multiset(a)[c] == multiset(b)[c];
  }

  /** The answer of the single-row fetches. */
  datatype Fetched = NotFound | Found(complaint: Complaint, updates: seq<CaseUpdate>)

  const NotFoundError := "Complaint not found"

  /** The first row with the id (and, for a user, the owner), if any. */
  function FindRow(rows: seq<Complaint>, id: int, owner: Option<int>): (r: Option<Complaint>)
    ensures r.Some? ==> r.value in rows && r.value.id == id && (owner.None? || r.value.userId == owner.value)
    ensures r.None? <==> forall i | 0 <= i < |rows| :: rows[i].id != id || (owner.Some? && rows[i].userId != owner.value)
  {
    if |rows| == 0 then None
    else if rows[0].id == id && (owner.None? || rows[0].userId == owner.value) then Some(rows[0])
    else FindRow(rows[1..], id, owner)
  }

  /** The notes of one complaint, in table order. */
  function NotesOf(updates: seq<CaseUpdate>, id: int): (r: seq<CaseUpdate>)
    ensures forall u :: multiset(r)[u] == if u.complaintId == id then multiset(updates)[u] else 0
  {
    if |updates| == 0 then []
    else
      assert updates == [updates[0]] + updates[1..];
      if updates[0].complaintId == id then [updates[0]] + NotesOf(updates[1..], id) else NotesOf(updates[1..], id)
  }

  /** GET /api/complaints/:id (`owner` is the caller) and GET /api/admin/complaints/:id
      (`owner` is `None`): 404 unless a matching row exists, otherwise the row with
      all of its notes, newest first. */
  function Fetch(store: Store, id: int, owner: Option<int>): (r: Fetched)
    ensures r.NotFound? <==> FindRow(store.complaints, id, owner).None?
    ensures r.Found? ==> r.complaint in store.complaints && r.complaint.id == id
                         && (owner.None? || r.complaint.userId == owner.value)
    ensures r.Found? ==> SortedDesc(r.updates, NoteCreatedAt)
                         && forall u :: multiset(r.updates)[u] == if u.complaintId == id then multiset(store.updates)[u] else 0
  {
    match FindRow(store.complaints, id, owner)
    case None => NotFound
    case Some(c) => Found(c, SortDesc(NotesOf(store.updates, id), NoteCreatedAt))
  }

  /** In a well-formed store the fetched row is the only row with that id. */
  lemma FetchFindsTheRow(store: Store, id: int, owner: Option<int>, i: int)
    requires WellFormed(store)
    requires 0 <= i < |store.complaints| && store.complaints[i].id == id
    ensures owner.None? || owner.value == store.complaints[i].userId ==>
              Fetch(store, id, owner) == Found(store.complaints[i], Fetch(store, id, owner).updates)
    ensures owner.Some? && owner.value != store.complaints[i].userId ==> Fetch(store, id, owner).NotFound?
  {
    var r := FindRow(store.complaints, id, owner);
    if r.Some? {
      var j :| 0 <= j < |store.complaints| && store.complaints[j] == r.value;
      assert j == i;
    }
  }

  /** Searching for a row's own case number lists the row to its owner. */
  lemma CaseNumberSearchFindsRow(store: Store, i: int)
    requires 0 <= i < |store.complaints|
    ensures var row := store.complaints[i];
            row in ListOwn(store, row.userId, Query(None, Some(row.caseNumber)))
  {
    var row := store.complaints[i];
    ContainsInfix("", Lower(row.caseNumber), "");
    assert "" + Lower(row.caseNumber) + "" == Lower(row.caseNumber);
    assert multiset(store.complaints)[row] > 0;
  }

  /** A fetch that finds a row returns every note attached to its id. */
  lemma FetchReturnsNotes(store: Store, id: int, owner: Option<int>, j: int)
    requires 0 <= j < |store.updates| && store.updates[j].complaintId == id
    requires FindRow(store.complaints, id, owner).Some?
    ensures Fetch(store, id, owner).Found? && store.updates[j] in Fetch(store, id, owner).updates
  {
    assert multiset(store.updates)[store.updates[j]] > 0;
  }

  /** A complaint just filed can be found by its owner: searching for its case
      number lists it, and fetching its id returns it with the filing note. */
  lemma FiledComplaintIsTrackable(store: Store, userId: int, form: Form, files: seq<Uploads.Upload>, millis: nat, draw: real, clock: int)
    requires 0.0 <= draw < 1.0 && WellFormed(store)
    requires SubmitComplaint(store, userId, form, files, millis, draw, clock).Created?
    ensures var r := SubmitComplaint(store, userId, form, files, millis, draw, clock);
            && r.store.complaints[|r.store.complaints| - 1] in ListOwn(r.store, userId, Query(None, Some(r.caseNumber)))
            && Fetch(r.store, r.complaintId, Some(userId)).Found?
            && Fetch(r.store, r.complaintId, Some(userId)).complaint == r.store.complaints[|r.store.complaints| - 1]
            && r.store.updates[|r.store.updates| - 1] in Fetch(r.store, r.complaintId, Some(userId)).updates
  {
    var r := SubmitComplaint(store, userId, form, files, millis, draw, clock);
    SubmitPreservesWellFormed(store, userId, form, files, millis, draw, clock);
    var last := |r.store.complaints| - 1;
    CaseNumberSearchFindsRow(r.store, last);
    FetchFindsTheRow(r.store, r.complaintId, Some(userId), last);
    FetchReturnsNotes(r.store, r.complaintId, Some(userId), |r.store.updates| - 1);
  }
}

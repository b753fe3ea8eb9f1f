/** The `tracks` table as a value, and each SQL statement the store sends to it
    as a function from table to table.

    A row is filed under an identity that no statement can change and that is never
    used twice. The table's PRIMARY KEY and UNIQUE constraint are therefore facts to
    prove, and a row can be followed while its slug and its object key change. */
module Tracks {
  import opened Wrappers

  datatype Status = Pending | Ready | Failed

  /** What R2 reports about an object. */
  datatype Meta = Meta(contentType: string, sizeBytes: int)

  /** One row. Times are nanoseconds since the Unix epoch; NULL is `None`. */
  datatype Track = Track(
    slug: string,
    key: string,
    title: string,
    status: Status,
    contentType: Option<string>,
    sizeBytes: Option<int>,
    downloadable: bool,
    expiresAt: Option<int>,
    createdAt: int,
    readyAt: Option<int>,
    playCount: int,
    description: string)

  datatype Table = Table(rows: map<nat, Track>, next: nat)

  /** How a statement ended. `SqlError` covers a refused constraint and a database
      that did not answer. */
  datatype Reply = Done | NotFound | SqlError

  datatype Sql = Sql(table: Table, reply: Reply)

  const EMPTY := Table(map[], 0)

  ghost predicate HasSlug(t: Table, slug: string) {
    exists id :: id in t.rows && t.rows[id].slug == slug
  }

  ghost predicate HasKey(t: Table, key: string) {
    exists id :: id in t.rows && t.rows[id].key == key
  }

  ghost predicate SlugsUnique(t: Table) {
    forall i, j :: i in t.rows && j in t.rows && t.rows[i].slug == t.rows[j].slug ==> i == j
  }

  ghost predicate KeysUnique(t: Table) {
    forall i, j :: i in t.rows && j in t.rows && t.rows[i].key == t.rows[j].key ==> i == j
  }

  /** Both constraints hold, and identities not yet handed out are unused. */
  ghost predicate Valid(t: Table) {
    && SlugsUnique(t)
    && KeysUnique(t)
    && forall id :: id in t.rows ==> id < t.next
  }

  /** SELECT ... WHERE slug = ? */
  ghost function RowWithSlug(t: Table, slug: string): (r: Option<nat>)
    ensures r.None? <==> !HasSlug(t, slug)
    ensures r.Some? ==> r.value in t.rows && t.rows[r.value].slug == slug
  {
    if HasSlug(t, slug) then
      var id :| id in t.rows && t.rows[id].slug == slug;
      Some(id)
    else None
  }

  /** SELECT ... WHERE object_key = ? */
  ghost function RowWithKey(t: Table, key: string): (r: Option<nat>)
    ensures r.None? <==> !HasKey(t, key)
    ensures r.Some? ==> r.value in t.rows && t.rows[r.value].key == key
  {
    if HasKey(t, key) then
      var id :| id in t.rows && t.rows[id].key == key;
      Some(id)
    else None
  }

  /** What a SELECT of one row tells its caller. */
  datatype Lookup = Found(track: Track) | Missing | Unreachable

  ghost function SelectBySlug(t: Table, slug: string, up: bool): Lookup {
    if !up then Unreachable
    else match RowWithSlug(t, slug) case None => Missing case Some(id) => Found(t.rows[id])
  }

  ghost function SelectByKey(t: Table, key: string, up: bool): Lookup {
    if !up then Unreachable
    else match RowWithKey(t, key) case None => Missing case Some(id) => Found(t.rows[id])
  }

  // ---------------------------------------------------------------- INSERT

  /** The row of an upload that has been requested; unnamed columns take their defaults. */
  function PendingRow(slug: string, key: string, title: string, expiresAt: Option<int>,
                      downloadable: bool, description: string, now: int): Track
  {
    Track(slug, key, title, Pending, None, None, downloadable, expiresAt, now, None, 0, description)
  }

  /** The row of an object found in the bucket without a row of its own. */
  function DiscoveredRow(slug: string, key: string, title: string, now: int): Track {
    Track(slug, key, title, Pending, None, None, false, None, now, None, 0, "")
  }

  ghost predicate CanInsert(t: Table, r: Track) {
    !HasSlug(t, r.slug) && !HasKey(t, r.key)
  }

  function Inserted(t: Table, r: Track): Table {
    Table(t.rows[t.next := r], t.next + 1)
  }

  ghost function Insert(t: Table, r: Track, up: bool): Sql {
    if up && CanInsert(t, r) then Sql(Inserted(t, r), Done) else Sql(t, SqlError)
  }

  // ---------------------------------------------------------------- UPDATE

  /** The SET lists the store uses. */
  datatype SetClause =
    | ToReady(meta: Meta, at: int)
    | ToFailed
    | ToKey(key: string)
    | ToSlug(slug: string)
    | ToForm(title: string, expiresAt: Option<int>, downloadable: bool, description: string)
    | PlusOnePlay

  function Set(r: Track, c: SetClause): Track {
    match c
    case ToReady(m, at) => r.(status := Ready, contentType := Some(m.contentType),
                              sizeBytes := Some(m.sizeBytes), readyAt := Some(at))
    case ToFailed => r.(status := Failed)
    case ToKey(k) => r.(key := k, status := Pending)
    case ToSlug(s) => r.(slug := s)
    case ToForm(ti, ex, dl, de) => r.(title := ti, expiresAt := ex, downloadable := dl, description := de)
    case PlusOnePlay => r.(playCount := r.playCount + 1)
  }

  /** UPDATE tracks SET ... WHERE slug = ?, before any constraint is looked at: it
      rewrites every row that carries the slug. */
  function Updated(t: Table, slug: string, c: SetClause): Table {
    t.(rows := map id | id in t.rows :: if t.rows[id].slug == slug then Set(t.rows[id], c) else t.rows[id])
  }

  /** Another row already holds the value the statement would write. */
  ghost predicate Conflicts(t: Table, slug: string, c: SetClause) {
    match c
    case ToKey(k) => exists id :: id in t.rows && t.rows[id].slug != slug && t.rows[id].key == k
    case ToSlug(s) => s != slug && HasSlug(t, s)
    case _ => false
  }

  ghost function Update(t: Table, slug: string, c: SetClause, up: bool): Sql {
    if !up then Sql(t, SqlError)
    else if !HasSlug(t, slug) then Sql(t, NotFound)
    else if Conflicts(t, slug, c) then Sql(t, SqlError)
    else Sql(Updated(t, slug, c), Done)
  }

  // ---------------------------------------------------------------- DELETE

  function Deleted(t: Table, slug: string): Table {
    t.(rows := map id | id in t.rows && t.rows[id].slug != slug :: t.rows[id])
  }

  ghost function Delete(t: Table, slug: string, up: bool): Sql {
    if !up then Sql(t, SqlError)
    else if !HasSlug(t, slug) then Sql(t, NotFound)
    else Sql(Deleted(t, slug), Done)
  }

  // ---------------------------------------------------------------- properties

  lemma FoundBySlug(t: Table, id: nat)
    requires Valid(t) && id in t.rows
    ensures RowWithSlug(t, t.rows[id].slug) == Some(id)
  {
  }

  lemma FoundByKey(t: Table, id: nat)
    requires Valid(t) && id in t.rows
    ensures RowWithKey(t, t.rows[id].key) == Some(id)
  {
  }

  /** An INSERT is accepted exactly when both constraints survive it. */
  lemma InsertAcceptedIffValid(t: Table, r: Track)
    requires Valid(t)
    ensures CanInsert(t, r) <==> Valid(Inserted(t, r))
  {
    var t' := Inserted(t, r);
    if HasSlug(t, r.slug) {
      var id :| id in t.rows && t.rows[id].slug == r.slug;
      assert t'.rows[id].slug == t'.rows[t.next].slug && id != t.next;
    }
    if HasKey(t, r.key) {
      var id :| id in t.rows && t.rows[id].key == r.key;
      assert t'.rows[id].key == t'.rows[t.next].key && id != t.next;
    }
  }

  /** An UPDATE rewrites the row the slug names and no other. */
  lemma UpdatedIsOneRow(t: Table, id: nat, c: SetClause)
    requires Valid(t) && id in t.rows
    ensures Updated(t, t.rows[id].slug, c) == t.(rows := t.rows[id := Set(t.rows[id], c)])
  {
  }

  /** One row may be given new column values exactly when no other row holds them. */
  lemma ReplacedRowValidIff(t: Table, id: nat, r: Track)
    requires Valid(t) && id in t.rows
    ensures Valid(t.(rows := t.rows[id := r])) <==>
            forall j :: j in t.rows && j != id ==> t.rows[j].slug != r.slug && t.rows[j].key != r.key
  {
    var t' := t.(rows := t.rows[id := r]);
    assert t'.rows[id] == r;
    assert forall j :: j in t.rows && j != id ==> j in t'.rows && t'.rows[j] == t.rows[j];
  }

  /** An UPDATE of an existing row is refused exactly when it would break a constraint. */
  lemma UpdateRefusedIffInvalid(t: Table, slug: string, c: SetClause)
    requires Valid(t) && HasSlug(t, slug)
    ensures Conflicts(t, slug, c) <==> !Valid(Updated(t, slug, c))
  {
    var id := RowWithSlug(t, slug).value;
    UpdatedIsOneRow(t, id, c);
    ReplacedRowValidIff(t, id, Set(t.rows[id], c));
    assert forall j :: j in t.rows && j != id ==> t.rows[j].slug != slug && t.rows[j].key != t.rows[id].key;
  }

  /** No statement of the store can leave a table with a broken constraint, and a
      statement that reports failure leaves the table as it was. */
  lemma StatementsKeepConstraints(t: Table, slug: string, r: Track, c: SetClause, up: bool)
    requires Valid(t)
    ensures Valid(Insert(t, r, up).table)
    ensures Valid(Update(t, slug, c, up).table)
    ensures Valid(Delete(t, slug, up).table)
    ensures Insert(t, r, up).reply != Done ==> Insert(t, r, up).table == t
    ensures Update(t, slug, c, up).reply != Done ==> Update(t, slug, c, up).table == t
    ensures Delete(t, slug, up).reply != Done ==> Delete(t, slug, up).table == t
  {
    InsertAcceptedIffValid(t, r);
    if HasSlug(t, slug) {
      UpdateRefusedIffInvalid(t, slug, c);
    }
  }

  /** A successful UPDATE touches one row, the one the slug named, and keeps its identity. */
  lemma UpdateTouchesOneRow(t: Table, slug: string, c: SetClause, up: bool)
    requires Valid(t) && Update(t, slug, c, up).reply == Done
    ensures var id := RowWithSlug(t, slug).value;
            Update(t, slug, c, up).table == t.(rows := t.rows[id := Set(t.rows[id], c)])
  {
  }

  /** A successful DELETE removes one row, the one the slug named. */
  lemma DeleteRemovesOneRow(t: Table, slug: string, up: bool)
    requires Valid(t) && Delete(t, slug, up).reply == Done
    ensures var id := RowWithSlug(t, slug).value;
            Delete(t, slug, up).table == t.(rows := t.rows - {id})
  {
  }

  /** Rotating renames one row, resolves under the new slug to the same identity and
      no longer resolves under the old one. */
  lemma RotateMovesTheLink(t: Table, oldSlug: string, newSlug: string, up: bool)
    requires Valid(t) && oldSlug != newSlug && Update(t, oldSlug, ToSlug(newSlug), up).reply == Done
    ensures var t' := Update(t, oldSlug, ToSlug(newSlug), up).table;
            && RowWithSlug(t', oldSlug) == None
            && RowWithSlug(t', newSlug) == RowWithSlug(t, oldSlug)
            && forall id :: id in t.rows ==> id in t'.rows && t'.rows[id].(slug := "") == t.rows[id].(slug := "")
  {
    var id := RowWithSlug(t, oldSlug).value;
    UpdateTouchesOneRow(t, oldSlug, ToSlug(newSlug), up);
    StatementsKeepConstraints(t, oldSlug, t.rows[id], ToSlug(newSlug), up);
    var t' := Update(t, oldSlug, ToSlug(newSlug), up).table;
    assert t'.rows[id].slug == newSlug;
    FoundBySlug(t', id);
  }

  /** How each statement is answered: an INSERT only by the constraints, an UPDATE or a DELETE
      also by whether the row exists; nothing else about a row, its status for one, matters. */
  lemma StatementReplies(t: Table, slug: string, r: Track, c: SetClause, up: bool)
    ensures var reply := Insert(t, r, up).reply;
            && (reply == Done <==>
                  up && forall id :: id in t.rows ==> t.rows[id].slug != r.slug && t.rows[id].key != r.key)
            && (reply != Done ==> reply == SqlError)
    ensures var reply := Update(t, slug, c, up).reply;
            var named := exists id :: id in t.rows && t.rows[id].slug == slug;
            var taken := exists id :: id in t.rows && t.rows[id].slug != slug &&
                           ((c.ToKey? && t.rows[id].key == c.key) || (c.ToSlug? && t.rows[id].slug == c.slug));
            && (reply == Done <==> up && named && !taken)
            && (reply == NotFound <==> up && !named)
    ensures var reply := Delete(t, slug, up).reply;
            var named := exists id :: id in t.rows && t.rows[id].slug == slug;
            && (reply == Done <==> up && named)
            && (reply == NotFound <==> up && !named)
  {
    if c.ToSlug? && HasSlug(t, c.slug) && c.slug != slug {
      var id := RowWithSlug(t, c.slug).value;
      assert t.rows[id].slug != slug && t.rows[id].slug == c.slug;
    }
  }
}

/** The HTTP handlers that change the table or the bucket (web/upload.go, web/replace.go,
    web/admin.go, web/share.go), as functions of the two stores, the decoded request and
    the way each outside call went. */
module Handlers {
  import opened Wrappers
  import opened Tracks
  import opened R2
  import Names
  import Expiry

  /** The two stores a handler can reach. */
  datatype Site = Site(bucket: Bucket, table: Table)

  datatype Answer = Answer(site: Site, code: nat)

  const OK := 200
  const NO_CONTENT := 204
  const SEE_OTHER := 303
  const BAD_REQUEST := 400
  const NOT_FOUND := 404
  const SERVER_ERROR := 500

  /** How the outside calls of one request go: the lookup, the deletion of the object, the
      statement that changes the row, the presigning; the slug drawn; the clock. */
  datatype Calls = Calls(lookupUp: bool, removal: Removal, rowUp: bool, presignUp: bool, slug: string, now: int)

  datatype UploadRequest = UploadRequest(
    title: string, filename: string, days: Option<int>, downloadable: bool, description: string)

  /** The `expires_at` field: empty, a calendar day, or neither. */
  datatype DayField = NoDay | Day(n: int) | NotADay

  datatype EditForm = EditForm(title: string, day: DayField, downloadable: bool, description: string)

  function CodeOf(reply: Reply, success: nat): nat {
    match reply
    case Done => success
    case NotFound => NOT_FOUND
    case SqlError => SERVER_ERROR
  }

  function Emptied(bucket: Bucket, key: string, how: Removal): Bucket {
    if how == Refused then bucket else bucket - {key}
  }

  /** The row an upload request asks for. */
  function UploadRow(u: UploadRequest, c: Calls): Track {
    PendingRow(c.slug, Names.ObjectKey(c.slug, u.filename), Names.UploadTitle(u.title, u.filename, c.slug),
               Expiry.UploadExpiry(c.now, u.days), u.downloadable, u.description, c.now)
  }

  /** `handleUploadRequest`; a request that does not decode is `None`. */
  ghost function Upload(s: Site, req: Option<UploadRequest>, c: Calls): Answer {
    match req
    case None => Answer(s, BAD_REQUEST)
    case Some(u) =>
      var made := Insert(s.table, UploadRow(u, c), c.rowUp);
      Answer(s.(table := made.table), if made.reply == Done && c.presignUp then OK else SERVER_ERROR)
  }

  /** `handleDelete` */
  ghost function Delete(s: Site, slug: string, c: Calls): Answer {
    match SelectBySlug(s.table, slug, c.lookupUp)
    case Missing => Answer(s, NOT_FOUND)
    case Unreachable => Answer(s, SERVER_ERROR)
    case Found(track) =>
      var bucket := Emptied(s.bucket, track.key, c.removal);
      if c.removal != Removed then Answer(s.(bucket := bucket), SERVER_ERROR)
      else
        var gone := Tracks.Delete(s.table, slug, c.rowUp);
        Answer(Site(bucket, gone.table), if gone.reply == Done then SEE_OTHER else SERVER_ERROR)
  }

  /** `handleReplaceRequest` */
  ghost function Replace(s: Site, slug: string, filename: Option<string>, c: Calls): Answer {
    match filename
    case None => Answer(s, BAD_REQUEST)
    case Some(file) =>
      match SelectBySlug(s.table, slug, c.lookupUp)
      case Missing => Answer(s, NOT_FOUND)
      case Unreachable => Answer(s, SERVER_ERROR)
      case Found(track) =>
        var bucket := Emptied(s.bucket, track.key, c.removal);
        if c.removal != Removed then Answer(s.(bucket := bucket), SERVER_ERROR)
        else
          var moved := Update(s.table, slug, ToKey(Names.ObjectKey(slug, file)), c.rowUp);
          Answer(Site(bucket, moved.table), if moved.reply == Done && c.presignUp then OK else SERVER_ERROR)
  }

  /** `handleRotateSlug` */
  ghost function Rotate(s: Site, slug: string, c: Calls): Answer {
    var moved := Update(s.table, slug, ToSlug(c.slug), c.rowUp);
    Answer(s.(table := moved.table), CodeOf(moved.reply, SEE_OTHER))
  }

  function FormClause(f: EditForm): SetClause {
    var day := if f.day.Day? then Some(f.day.n) else None;
    ToForm(f.title, Expiry.SubmittedExpiry(day), f.downloadable, f.description)
  }

  /** `handleEditSubmit` */
  ghost function Edit(s: Site, slug: string, form: Option<EditForm>, c: Calls): Answer {
    if form.None? || form.value.day.NotADay? then Answer(s, BAD_REQUEST)
    else
      var saved := Update(s.table, slug, FormClause(form.value), c.rowUp);
      Answer(s.(table := saved.table), CodeOf(saved.reply, SEE_OTHER))
  }

  /** `lookupReadyTrack`, then the expiry check of the public routes. */
  datatype Visit = Shown(track: Track) | Lapsed(track: Track) | Absent | Broken

  ghost function VisitTrack(t: Table, slug: string, c: Calls): Visit {
    match SelectBySlug(t, slug, c.lookupUp)
    case Missing => Absent
    case Unreachable => Broken
    case Found(track) =>
      if track.status != Ready then Absent
      else if Expiry.Expired(track.expiresAt, c.now) then Lapsed(track)
      else Shown(track)
  }

  /** What a visitor of the share link gets; a track page names the attachment if the track
      may be downloaded. */
  datatype Page = NotFoundPage | ErrorPage | ExpiredPage | SharePage(track: Track, attachment: Option<string>)

  /** `handleShare`; `lower` is `strings.ToLower`. */
  ghost function Share(t: Table, slug: string, c: Calls, lower: string -> string): Page {
    match VisitTrack(t, slug, c)
    case Absent => NotFoundPage
    case Broken => ErrorPage
    case Lapsed(_) => ExpiredPage
    case Shown(track) =>
      if !c.presignUp then ErrorPage
      else SharePage(track, if track.downloadable then Some(Names.DownloadFilename(track.title, track.key, lower))
                            else None)
  }

  /** `handleTrackPlay` */
  ghost function Play(s: Site, slug: string, c: Calls): Answer {
    match VisitTrack(s.table, slug, c)
    case Absent => Answer(s, NOT_FOUND)
    case Lapsed(_) => Answer(s, NOT_FOUND)
    case Broken => Answer(s, SERVER_ERROR)
    case Shown(track) =>
      var counted := Update(s.table, track.slug, PlusOnePlay, c.rowUp);
      Answer(s.(table := counted.table), if counted.reply == Done then NO_CONTENT else SERVER_ERROR)
  }

  // ---------------------------------------------------------------- properties

  /** A successful upload request adds one row: pending, without plays, with the settings of
      the request, under a key that belongs to its slug alone. */
  lemma UploadOutcomes(s: Site, u: UploadRequest, c: Calls)
    requires Valid(s.table)
    ensures var a := Upload(s, Some(u), c);
            && a.site.bucket == s.bucket
            && (a.site.table == s.table || a.site.table == Inserted(s.table, UploadRow(u, c)))
            && (a.code == OK ==> a.site.table != s.table)
            && (a.site.table != s.table ==>
                  && Valid(a.site.table)
                  && var r := a.site.table.rows[s.table.next];
                     && r.slug == c.slug && r.status == Pending && r.playCount == 0
                     && r.downloadable == u.downloadable && r.description == u.description
                     && (u.title != "" ==> r.title == u.title)
                     && r.expiresAt == Expiry.UploadExpiry(c.now, u.days)
                     && (Names.Plain(c.slug) ==>
                           Names.SlugOf(r.key) == c.slug && Names.Ext(r.key) == Names.Ext(u.filename)))
  {
    InsertAcceptedIffValid(s.table, UploadRow(u, c));
    if Names.Plain(c.slug) {
      Names.KeyKeepsSlug(c.slug, u.filename);
      Names.KeyKeepsExtension(c.slug, u.filename);
    }
  }

  /** A submitted edit is answered with a redirect exactly when the form is good, the row
      exists and the database answers; then the form reads back from the row, with the day
      after the one chosen, and the link, the file, the count and both times are as they were. */
  lemma EditReadsBack(s: Site, slug: string, form: Option<EditForm>, c: Calls)
    requires Valid(s.table)
    ensures var a := Edit(s, slug, form, c);
            && (a.code == SEE_OTHER <==> form.Some? && !form.value.day.NotADay? && c.rowUp && HasSlug(s.table, slug))
            && (a.code != SEE_OTHER ==> a.site == s)
            && (a.code == SEE_OTHER ==>
                  var id, f := RowWithSlug(s.table, slug).value, form.value;
                  var r, r' := s.table.rows[id], a.site.table.rows[id];
                  && a.site == s.(table := s.table.(rows := s.table.rows[id := r']))
                  && r'.title == f.title && r'.downloadable == f.downloadable && r'.description == f.description
                  && Expiry.FormDay(r'.expiresAt) == (if f.day.Day? then Some(f.day.n + 1) else None)
                  && r'.slug == r.slug && r'.key == r.key && r'.status == r.status && r'.playCount == r.playCount
                  && r'.contentType == r.contentType && r'.sizeBytes == r.sizeBytes
                  && r'.createdAt == r.createdAt && r'.readyAt == r.readyAt)
  {
    if form.Some? && !form.value.day.NotADay? && c.rowUp && HasSlug(s.table, slug) {
      UpdateTouchesOneRow(s.table, slug, FormClause(form.value), c.rowUp);
    }
  }
}

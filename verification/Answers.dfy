/** What each handler answers, by status code, and what it changes: for every state of the
    stores and every way its outside calls can go. */
module Answers {
  import opened Wrappers
  import opened Tracks
  import opened R2
  import opened Handlers
  import Names
  import Expiry

  /** The row a slug names. */
  ghost function Named(s: Site, slug: string): Track
    requires HasSlug(s.table, slug)
  {
    s.table.rows[RowWithSlug(s.table, slug).value]
  }

  /** The bucket after a handler has looked its track up and asked for the object's deletion. */
  ghost function Cleared(s: Site, slug: string, c: Calls): Bucket {
    if c.lookupUp && HasSlug(s.table, slug) && c.removal != Refused then s.bucket - {Named(s, slug).key} else s.bucket
  }

  /** A delete is answered 303 exactly when the slug names a row, whatever its status, and
      every call is answered; then that row and its object are gone and nothing else. */
  lemma DeleteSucceedsIff(s: Site, slug: string, c: Calls)
    requires Valid(s.table)
    ensures var a := Handlers.Delete(s, slug, c);
            && (a.code == 303 <==> c.lookupUp && HasSlug(s.table, slug) && c.removal == Removed && c.rowUp)
            && (a.code == 404 <==> c.lookupUp && !HasSlug(s.table, slug))
            && a.code in {303, 404, 500}
            && a.site.bucket == Cleared(s, slug, c)
            && a.site.table == (if a.code != 303 then s.table
                                else s.table.(rows := s.table.rows - {RowWithSlug(s.table, slug).value}))
  {
    if HasSlug(s.table, slug) {
      DeleteRemovesOneRow(s.table, slug, true);
    }
  }

  /** Another row holds the key. */
  ghost predicate Taken(s: Site, slug: string, key: string) {
    exists id :: id in s.table.rows && s.table.rows[id].slug != slug && s.table.rows[id].key == key
  }

  /** A replace is answered 200 exactly when the request decodes, the slug names a row,
      whatever its status, no other row holds the new key and every call is answered; the row
      has moved by then, also when only the presigning failed. */
  lemma ReplaceAnswers(s: Site, slug: string, filename: Option<string>, c: Calls)
    requires Valid(s.table)
    ensures var a := Handlers.Replace(s, slug, filename, c);
            var found := filename.Some? && c.lookupUp && HasSlug(s.table, slug);
            var moved := found && c.removal == Removed && c.rowUp
                         && !Taken(s, slug, Names.ObjectKey(slug, filename.value));
            && (a.code == 400 <==> filename.None?)
            && (a.code == 404 <==> filename.Some? && c.lookupUp && !HasSlug(s.table, slug))
            && (a.code == 200 <==> moved && c.presignUp)
            && a.code in {200, 400, 404, 500}
            && a.site.bucket == (if filename.Some? then Cleared(s, slug, c) else s.bucket)
            && a.site.table == (if !moved then s.table
                                else s.table.(rows := s.table.rows[RowWithSlug(s.table, slug).value :=
                                       Named(s, slug).(key := Names.ObjectKey(slug, filename.value),
                                                       status := Pending)]))
  {
    if filename.Some? && HasSlug(s.table, slug) {
      var clause := ToKey(Names.ObjectKey(slug, filename.value));
      StatementReplies(s.table, slug, Named(s, slug), clause, c.rowUp);
      UpdatedIsOneRow(s.table, RowWithSlug(s.table, slug).value, clause);
    }
  }

  /** A rotate is answered 303 exactly when the slug names a row, whatever its status, the
      drawn slug names no other, and the database answers; then only the slug changes. */
  lemma RotateAnswers(s: Site, slug: string, c: Calls)
    requires Valid(s.table)
    ensures var a := Handlers.Rotate(s, slug, c);
            && (a.code == 303 <==>
                  c.rowUp && HasSlug(s.table, slug) && (c.slug == slug || !HasSlug(s.table, c.slug)))
            && (a.code == 404 <==> c.rowUp && !HasSlug(s.table, slug))
            && a.code in {303, 404, 500}
            && a.site.bucket == s.bucket
            && a.site.table == (if a.code != 303 then s.table
                                else s.table.(rows := s.table.rows[RowWithSlug(s.table, slug).value :=
                                       Named(s, slug).(slug := c.slug)]))
  {
    if HasSlug(s.table, slug) {
      UpdatedIsOneRow(s.table, RowWithSlug(s.table, slug).value, ToSlug(c.slug));
    }
  }

  /** An edit is answered 400 exactly for a bad form, and else 303 exactly when the slug names a
      row and the database answers; then the form's four columns are written: a chosen day
      as the midnight that ends it, no day as no expiry. */
  lemma EditAnswers(s: Site, slug: string, form: Option<EditForm>, c: Calls)
    requires Valid(s.table)
    ensures var a := Handlers.Edit(s, slug, form, c);
            var good := form.Some? && !form.value.day.NotADay?;
            && (a.code == 400 <==> !good)
            && (a.code == 404 <==> good && c.rowUp && !HasSlug(s.table, slug))
            && (a.code == 303 <==> good && c.rowUp && HasSlug(s.table, slug))
            && a.code in {303, 400, 404, 500}
            && a.site.bucket == s.bucket
            && a.site.table == (if a.code != 303 then s.table
                                else s.table.(rows := s.table.rows[RowWithSlug(s.table, slug).value :=
                                       Named(s, slug).(
                                         title := form.value.title,
                                         description := form.value.description,
                                         downloadable := form.value.downloadable,
                                         expiresAt := if form.value.day.NoDay? then None
                                                      else Some((form.value.day.n + 1) * 86_400_000_000_000))]))
  {
    if form.Some? && !form.value.day.NotADay? && HasSlug(s.table, slug) {
      UpdatedIsOneRow(s.table, RowWithSlug(s.table, slug).value, FormClause(form.value));
    }
  }

  /** An upload is answered 200 exactly when the request decodes, neither the drawn slug nor
      its key is in use and both calls are answered; the row is there by then, also when only
      the presigning failed. Its columns are given by value, the expiry up to 106751 days. */
  lemma UploadAnswers(s: Site, req: Option<UploadRequest>, c: Calls)
    requires Valid(s.table)
    ensures var a := Handlers.Upload(s, req, c);
            && (a.code == 400 <==> req.None?)
            && a.code in {200, 400, 500}
            && a.site.bucket == s.bucket
            && (req.None? ==> a.site == s)
            && (req.Some? ==>
                  var u, r := req.value, UploadRow(req.value, c);
                  var key := c.slug + Names.Ext(u.filename);
                  var made := c.rowUp && !HasSlug(s.table, c.slug) && !HasKey(s.table, key);
                  && (a.code == 200 <==> made && c.presignUp)
                  && a.site.table == (if !made then s.table
                                      else Table(s.table.rows[s.table.next := r], s.table.next + 1))
                  && r == Track(c.slug, key, r.title, Pending, None, None, u.downloadable,
                                r.expiresAt, c.now, None, 0, u.description)
                  && r.title == (if u.title != "" then u.title else if u.filename != "" then u.filename else c.slug)
                  && (u.days == None || u.days.value <= 0 ==> r.expiresAt == None)
                  && (u.days.Some? && 0 < u.days.value <= 106751 ==>
                        r.expiresAt == Some(c.now + u.days.value * 86_400_000_000_000)))
  {
    if req.Some? && req.value.days.Some? && 0 < req.value.days.value <= 106751 {
      Expiry.UploadExpiryExactIff(c.now, req.value.days.value);
    }
  }

  /** The row is shown: ready, and its expiry, if it has one, has not passed. */
  ghost predicate Open(s: Site, slug: string, now: int) {
    && HasSlug(s.table, slug) && Named(s, slug).status == Ready
    && (Named(s, slug).expiresAt.Some? ==> now <= Named(s, slug).expiresAt.value)
  }

  /** A play is answered 204 exactly for a track that is shown, with answered calls; 404
      exactly for one that is not shown, when the lookup is answered. */
  lemma PlayAnswers(s: Site, slug: string, c: Calls)
    requires Valid(s.table)
    ensures var a := Handlers.Play(s, slug, c);
            && (a.code == 204 <==> c.lookupUp && Open(s, slug, c.now) && c.rowUp)
            && (a.code == 404 <==> c.lookupUp && !Open(s, slug, c.now))
            && a.code in {204, 404, 500}
            && a.site == (if a.code != 204 then s
                          else s.(table := s.table.(rows := s.table.rows[RowWithSlug(s.table, slug).value :=
                                 Named(s, slug).(playCount := Named(s, slug).playCount + 1)])))
  {
    if HasSlug(s.table, slug) {
      UpdatedIsOneRow(s.table, RowWithSlug(s.table, slug).value, PlusOnePlay);
    }
  }

  /** The page a visitor gets, for every outcome of the calls; a downloadable track is offered
      under its title, with the key's extension where the title does not end in it. */
  lemma ShareAnswers(s: Site, slug: string, c: Calls, lower: string -> string)
    requires Valid(s.table)
    ensures var page := Handlers.Share(s.table, slug, c, lower);
            var ready := HasSlug(s.table, slug) && Named(s, slug).status == Ready;
            && (page.NotFoundPage? <==> c.lookupUp && !ready)
            && (page.ExpiredPage? <==> c.lookupUp && ready && !Open(s, slug, c.now))
            && (page.SharePage? <==> c.lookupUp && Open(s, slug, c.now) && c.presignUp)
            && (page.SharePage? ==>
                  && page.track == Named(s, slug)
                  && (page.attachment.Some? <==> page.track.downloadable)
                  && (page.attachment.Some? ==>
                        Names.IsDownloadName(page.attachment.value, page.track.title, page.track.key, lower)))
  {
    if HasSlug(s.table, slug) {
      Names.DownloadNameKeepsTitle(Named(s, slug).title, Named(s, slug).key, lower);
    }
  }
}

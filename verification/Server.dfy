/** `web.Server`: the handlers as methods on the store and the bucket client, in the order
    of the code's effects, with its early returns. */
module Server {
  import opened Wrappers
  import opened Tracks
  import opened R2
  import opened Handlers
  import Names
  import Expiry
  import Store

  class Server {
    const store: Store.Store
    const r2: R2.Client

    constructor (store: Store.Store, r2: R2.Client)
      ensures this.store == store && this.r2 == r2
    {
      this.store, this.r2 := store, r2;
    }

    function Now(): Site
      reads store, r2
    {
      Site(r2.objects, store.Contents())
    }

    method HandleUploadRequest(req: Option<UploadRequest>, c: Calls) returns (code: nat)
      requires store.Ok()
      modifies store
      ensures store.Ok() && Answer(Now(), code) == Upload(old(Now()), req, c)
    {
      if req.None? {
        return BAD_REQUEST;
      }
      var u := req.value;
      var slug := c.slug;
      var key := slug + Names.Ext(u.filename);
      var title := u.title;
      if title == "" {
        title := u.filename;
      }
      if title == "" {
        title := slug;
      }
      var expiresAt := None;
      if u.days.Some? && u.days.value > 0 {
        expiresAt := Expiry.UploadExpiry(c.now, u.days);
      }
      var made := store.CreatePending(slug, key, title, expiresAt, u.downloadable, u.description, c.rowUp, c.now);
      if made != Done || !c.presignUp {
        return SERVER_ERROR;
      }
      code := OK;
    }

    method HandleDelete(slug: string, c: Calls) returns (code: nat)
      requires store.Ok()
      modifies store, r2
      ensures store.Ok() && Answer(Now(), code) == Handlers.Delete(old(Now()), slug, c)
    {
      var looked := store.GetBySlug(slug, c.lookupUp);
      if looked.Missing? {
        return NOT_FOUND;
      }
      if looked.Unreachable? {
        return SERVER_ERROR;
      }
      var failed := r2.Delete(looked.track.key, c.removal);
      if failed {
        return SERVER_ERROR;
      }
      var gone := store.Delete(slug, c.rowUp);
      code := if gone == Done then SEE_OTHER else SERVER_ERROR;
    }

    method HandleReplaceRequest(slug: string, filename: Option<string>, c: Calls) returns (code: nat)
      requires store.Ok()
      modifies store, r2
      ensures store.Ok() && Answer(Now(), code) == Handlers.Replace(old(Now()), slug, filename, c)
    {
      if filename.None? {
        return BAD_REQUEST;
      }
      var looked := store.GetBySlug(slug, c.lookupUp);
      if looked.Missing? {
        return NOT_FOUND;
      }
      if looked.Unreachable? {
        return SERVER_ERROR;
      }
      var failed := r2.Delete(looked.track.key, c.removal);
      if failed {
        return SERVER_ERROR;
      }
      var newKey := slug + Names.Ext(filename.value);
      var moved := store.BeginReplace(slug, newKey, c.rowUp);
      if moved != Done || !c.presignUp {
        return SERVER_ERROR;
      }
      code := OK;
    }

    method HandleRotateSlug(slug: string, c: Calls) returns (code: nat)
      requires store.Ok()
      modifies store
      ensures store.Ok() && Answer(Now(), code) == Handlers.Rotate(old(Now()), slug, c)
    {
      var moved := store.RotateSlug(slug, c.slug, c.rowUp);
      code := CodeOf(moved, SEE_OTHER);
    }

    method HandleEditSubmit(slug: string, form: Option<EditForm>, c: Calls) returns (code: nat)
      requires store.Ok()
      modifies store
      ensures store.Ok() && Answer(Now(), code) == Handlers.Edit(old(Now()), slug, form, c)
    {
      if form.None? {
        return BAD_REQUEST;
      }
      var expiresAt := None;
      match form.value.day {
        case NotADay => return BAD_REQUEST;
        case NoDay =>
        case Day(n) =>
          var t := n * Expiry.DAY;
          t := t + 24 * Expiry.HOUR;
          expiresAt := Some(t);
      }
      var saved := store.UpdateTrack(slug, form.value.title, expiresAt, form.value.downloadable,
                                     form.value.description, c.rowUp);
      code := CodeOf(saved, SEE_OTHER);
    }

    method LookupReadyTrack(slug: string, c: Calls) returns (found: Option<Track>, code: nat)
      requires store.Ok()
      ensures match VisitTrack(store.Contents(), slug, c)
              case Absent => found == None && code == NOT_FOUND
              case Broken => found == None && code == SERVER_ERROR
              case Shown(track) => found == Some(track) && code == OK
              case Lapsed(track) => found == Some(track) && code == OK
    {
      var looked := store.GetBySlug(slug, c.lookupUp);
      if looked.Missing? {
        return None, NOT_FOUND;
      }
      if looked.Unreachable? {
        return None, SERVER_ERROR;
      }
      if looked.track.status != Ready {
        return None, NOT_FOUND;
      }
      return Some(looked.track), OK;
    }

    method HandleShare(slug: string, c: Calls, lower: string -> string) returns (page: Page)
      requires store.Ok()
      ensures page == Handlers.Share(store.Contents(), slug, c, lower)
    {
      var found, refused := LookupReadyTrack(slug, c);
      if found.None? {
        return if refused == NOT_FOUND then NotFoundPage else ErrorPage;
      }
      var track := found.value;
      if Expiry.Expired(track.expiresAt, c.now) {
        return ExpiredPage;
      }
      if !c.presignUp {
        return ErrorPage;
      }
      var attachment := None;
      if track.downloadable {
        attachment := Some(Names.DownloadFilename(track.title, track.key, lower));
      }
      page := SharePage(track, attachment);
    }

    method HandleTrackPlay(slug: string, c: Calls) returns (code: nat)
      requires store.Ok()
      modifies store
      ensures store.Ok() && Answer(Now(), code) == Handlers.Play(old(Now()), slug, c)
    {
      var found, refused := LookupReadyTrack(slug, c);
      if found.None? {
        return refused;
      }
      if Expiry.Expired(found.value.expiresAt, c.now) {
        return NOT_FOUND;
      }
      var counted := store.IncrementPlayCount(found.value.slug, c.rowUp);
      code := if counted == Done then NO_CONTENT else SERVER_ERROR;
    }
  }
}

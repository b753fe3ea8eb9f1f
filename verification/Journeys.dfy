/** One track across several handlers and the poller: what a delete, an edit and a replace
    mean for every later request and every later visitor. */
module Journeys {
  import opened Wrappers
  import opened Tracks
  import opened R2
  import opened Ingest
  import opened System
  import opened Histories
  import Names
  import Expiry
  import Handlers
  import Answers
  import Serving

  // ---------------------------------------------------------------- after a delete

  /** A well-formed request for the track `slug` whose calls are answered. */
  predicate AsksFor(a: Action, slug: string) {
    && (a.Delete? || a.Rotate? || a.Play? || (a.Replace? && a.filename.Some?)
        || (a.Edit? && a.form.Some? && !a.form.value.day.NotADay?))
    && a.slug == slug && a.calls.lookupUp && a.calls.rowUp
  }

  lemma UnknownSlugIsRefused(w: World, slug: string, a: Action)
    requires !HasSlug(w.table, slug) && AsksFor(a, slug)
    ensures AnswerOf(w, a).value == Handlers.Answer(Handlers.Site(w.bucket, w.table), Handlers.NOT_FOUND)
  {
  }

  lemma DeleteFreesSlug(w: World, slug: string, c: Handlers.Calls)
    requires Sound(w) && AnswerOf(w, Delete(slug, c)).value.code == Handlers.SEE_OTHER
    ensures var w1, id := Step(w, Delete(slug, c)), RowWithSlug(w.table, slug).value;
            && HasSlug(w.table, slug) && !HasSlug(w1.table, slug)
            && id !in w1.table.rows && w1.table.next == w.table.next
            && w.table.rows[id].key !in w1.bucket
  {
    Answers.DeleteSucceedsIff(Handlers.Site(w.bucket, w.table), slug, c);
  }

  /** Deletion is permanent. Once a delete has been answered with its redirect, the object is
      gone and the row is gone for good; in every later state every request for the old link
      is answered 404 and changes nothing, and visitors get the page for unknown links. */
  lemma DeletionIsPermanent(before: seq<Action>, slug: string, c: Handlers.Calls, after: seq<Action>,
                            a: Action, visit: Handlers.Calls, lower: string -> string)
    requires NeverRepeats(START, before + ([Delete(slug, c)] + after))
    requires AnswerOf(Exec(START, before), Delete(slug, c)).value.code == Handlers.SEE_OTHER
    requires AsksFor(a, slug) && visit.lookupUp
    ensures var w := Exec(START, before);
            var w1 := Step(w, Delete(slug, c));
            var w2 := Exec(w1, after);
            && HasSlug(w.table, slug)
            && var id := RowWithSlug(w.table, slug).value;
               && w.table.rows[id].key !in w1.bucket
               && id !in w2.table.rows
               && AnswerOf(w2, a).value == Handlers.Answer(Handlers.Site(w2.bucket, w2.table), Handlers.NOT_FOUND)
               && Handlers.Share(w2.table, slug, visit, lower).NotFoundPage?
  {
    var w, delete := Exec(START, before), Delete(slug, c);
    var w1 := Step(w, delete);
    ExecComposes(START, before, [delete] + after);
    assert ([delete] + after)[0] == delete && ([delete] + after)[1..] == after;
    RunIssues(START, before);
    StepIsSound(w, delete);
    DeleteFreesSlug(w, slug, c);
    var id := RowWithSlug(w.table, slug).value;
    assert w.table.rows[id].slug in w.issued;
    DeadSlugStaysDead(w1, after, slug);
    GoneForGood(w1, after, id);
    UnknownSlugIsRefused(Exec(w1, after), slug, a);
  }

  // ---------------------------------------------------------------- what visitors are offered

  /** A track as the admin meant it: its settings, and until when it is shown. */
  datatype Offer = Offer(title: string, until: Option<int>, downloadable: bool, description: string)

  /** Visitors of the link get that: the page exactly while the track is ready and its time has
      not passed, under its title and description; a download exactly if it is allowed, under
      the title, with the key's extension where the title does not end in it; and plays count
      exactly while the page is shown. */
  ghost predicate Reaches(w: World, link: string, o: Offer, visit: Handlers.Calls, lower: string -> string) {
    && HasSlug(w.table, link)
    && var page := Handlers.Share(w.table, link, visit, lower);
       var track := w.table.rows[RowWithSlug(w.table, link).value];
       && (page.NotFoundPage? <==> track.status != Ready)
       && (page.SharePage? <==> track.status == Ready && (o.until.Some? ==> visit.now <= o.until.value))
       && (page.SharePage? ==>
             && page.track == track && track.title == o.title && track.description == o.description
             && (page.attachment.Some? <==> o.downloadable)
             && (page.attachment.Some? ==> Names.IsDownloadName(page.attachment.value, o.title, track.key, lower)))
       && (AnswerOf(w, Play(link, visit)).value.code == 204 <==> page.SharePage?)
  }

  /** The row has these settings. */
  predicate HasSettings(r: Track, o: Offer) {
    r.title == o.title && r.expiresAt == o.until && r.downloadable == o.downloadable && r.description == o.description
  }

  lemma SettingsReach(w: World, id: nat, o: Offer, link: string, visit: Handlers.Calls, lower: string -> string)
    requires Sound(w) && RowWithSlug(w.table, link) == Some(id) && HasSettings(w.table.rows[id], o)
    requires visit.lookupUp && visit.presignUp && visit.rowUp
    ensures Reaches(w, link, o, visit, lower)
  {
    Answers.ShareAnswers(Handlers.Site(w.bucket, w.table), link, visit, lower);
    Answers.PlayAnswers(Handlers.Site(w.bucket, w.table), link, visit);
  }

  /** Over every run without an edit. */
  lemma SettingsLast(w1: World, id: nat, o: Offer, after: seq<Action>,
                     link: string, visit: Handlers.Calls, lower: string -> string)
    requires Sound(w1) && id in w1.table.rows && HasSettings(w1.table.rows[id], o)
    requires forall i :: 0 <= i < |after| ==> !after[i].Edit?
    requires RowWithSlug(Exec(w1, after).table, link) == Some(id)
    requires visit.lookupUp && visit.presignUp && visit.rowUp
    ensures Reaches(Exec(w1, after), link, o, visit, lower)
  {
    RunIsSound(w1, after);
    SettingsChangeOnlyByEdit(w1, after, id);
    SettingsReach(Exec(w1, after), id, o, link, visit, lower);
  }

  // ---------------------------------------------------------------- after an edit

  /** What a form asks for: a chosen day means until the midnight that ends it. */
  function FormOffer(f: Handlers.EditForm): Offer {
    Offer(f.title, if f.day.Day? then Some((f.day.n + 1) * 86_400_000_000_000) else None, f.downloadable, f.description)
  }

  lemma EditSetsRow(w: World, slug: string, f: Handlers.EditForm, c: Handlers.Calls)
    requires Sound(w) && AnswerOf(w, Edit(slug, Some(f), c)).value.code == 303
    ensures HasSlug(w.table, slug)
    ensures var id, w1 := RowWithSlug(w.table, slug).value, Step(w, Edit(slug, Some(f), c));
            id in w1.table.rows && HasSettings(w1.table.rows[id], FormOffer(f))
  {
    Answers.EditAnswers(Handlers.Site(w.bucket, w.table), slug, Some(f), c);
  }

  /** What an admin saves is what visitors get, after an answered edit and any run without
      another, and wherever the run has taken the link. */
  lemma EditReachesVisitors(before: seq<Action>, slug: string, f: Handlers.EditForm, c: Handlers.Calls,
                            after: seq<Action>, link: string, visit: Handlers.Calls, lower: string -> string)
    requires AnswerOf(Exec(START, before), Edit(slug, Some(f), c)).value.code == 303
    requires forall i :: 0 <= i < |after| ==> !after[i].Edit?
    requires var w := Exec(START, before);
             RowWithSlug(Exec(Step(w, Edit(slug, Some(f), c)), after).table, link) ==
             RowWithSlug(w.table, slug)
    requires visit.lookupUp && visit.presignUp && visit.rowUp
    ensures Reaches(Exec(Step(Exec(START, before), Edit(slug, Some(f), c)), after), link, FormOffer(f), visit, lower)
  {
    var w, edit := Exec(START, before), Edit(slug, Some(f), c);
    RunIsSound(START, before);
    StepIsSound(w, edit);
    EditSetsRow(w, slug, f, c);
    SettingsLast(Step(w, edit), RowWithSlug(w.table, slug).value, FormOffer(f), after, link, visit, lower);
  }

  // ---------------------------------------------------------------- after an upload

  /** What an upload asks for: the typed title, else the file's name, else the slug; so many
      days from now, or for ever. Beyond 106751 days the 64-bit product wraps around. */
  function UploadOffer(u: Handlers.UploadRequest, c: Handlers.Calls): Offer {
    Offer(if u.title != "" then u.title else if u.filename != "" then u.filename else c.slug,
          if u.days == None || u.days.value <= 0 then None
          else if u.days.value <= 106751 then Some(c.now + u.days.value * 86_400_000_000_000)
          else Expiry.UploadExpiry(c.now, u.days),
          u.downloadable, u.description)
  }

  lemma UploadSetsRow(w: World, u: Handlers.UploadRequest, c: Handlers.Calls)
    requires Sound(w) && AnswerOf(w, Upload(Some(u), c)).value.code == 200
    ensures var w1 := Step(w, Upload(Some(u), c));
            w.table.next in w1.table.rows && HasSettings(w1.table.rows[w.table.next], UploadOffer(u, c))
  {
    Answers.UploadAnswers(Handlers.Site(w.bucket, w.table), Some(u), c);
  }

  /** What an admin asks for when uploading is what visitors get once the track is ready, after
      any run without an edit, and wherever the run has taken the link: among other things,
      with a number of days it is shown for exactly so many times 24 hours, and without one
      it never expires. */
  lemma UploadReachesVisitors(before: seq<Action>, u: Handlers.UploadRequest, c: Handlers.Calls,
                              after: seq<Action>, link: string, visit: Handlers.Calls, lower: string -> string)
    requires AnswerOf(Exec(START, before), Upload(Some(u), c)).value.code == 200
    requires forall i :: 0 <= i < |after| ==> !after[i].Edit?
    requires var w := Exec(START, before);
             RowWithSlug(Exec(Step(w, Upload(Some(u), c)), after).table, link) == Some(w.table.next)
    requires visit.lookupUp && visit.presignUp && visit.rowUp
    ensures Reaches(Exec(Step(Exec(START, before), Upload(Some(u), c)), after), link, UploadOffer(u, c), visit, lower)
  {
    var w, upload := Exec(START, before), Upload(Some(u), c);
    RunIsSound(START, before);
    StepIsSound(w, upload);
    UploadSetsRow(w, u, c);
    SettingsLast(Step(w, upload), w.table.next, UploadOffer(u, c), after, link, visit, lower);
  }

  // ---------------------------------------------------------------- after a discovery

  lemma DiscoveryMakesTrack(w: World, m: nat, how: WriteKind, key: string, e: Env)
    requires Sound(w) && !HasKey(w.table, key) && key in w.bucket
    requires m in w.queue && m !in w.handled && w.queue[m] == Event(Announced(how), key)
    requires AllUp(e) && !HasSlug(w.table, e.slug)
    ensures var w1, id, meta := Step(w, Handle(m, e)), w.table.next, w.bucket[key];
            && m in w1.handled && id in w1.table.rows && w1.bucket == w.bucket
            && w1.table.rows[id] == Track(e.slug, key, Names.Base(key), Ready, Some(meta.contentType),
                                          Some(meta.sizeBytes), false, None, e.now, Some(e.now), 0, "")
            && Serving.Served(w1, id)
  {
    ThreeActionsAreIngested(w.bucket, w.table, w.queue[m], e);
    IngestOfNewKey(w.bucket, w.table, key, e);
  }

  /** A file dropped into the bucket is shared at once and for good: after an answered event
      for a key that no row has, announced by any kind of write, and over every run without
      an edit that leaves the track alone, its page is shown at every time under the last
      element of its key, without a download, and plays count. */
  lemma DiscoveredTrackIsShared(before: seq<Action>, m: nat, how: WriteKind, key: string, e: Env,
                                after: seq<Action>, link: string, visit: Handlers.Calls, lower: string -> string)
    requires var w := Exec(START, before);
             && !HasKey(w.table, key) && key in w.bucket
             && m in w.queue && m !in w.handled && w.queue[m] == Event(Announced(how), key)
             && AllUp(e) && !HasSlug(w.table, e.slug)
             && Serving.LeftAlone(Step(w, Handle(m, e)), after, w.table.next)
             && RowWithSlug(Exec(Step(w, Handle(m, e)), after).table, link) == Some(w.table.next)
    requires forall i :: 0 <= i < |after| ==> !after[i].Edit?
    requires visit.lookupUp && visit.presignUp && visit.rowUp
    ensures var w2 := Exec(Step(Exec(START, before), Handle(m, e)), after);
            var page := Handlers.Share(w2.table, link, visit, lower);
            && page.SharePage? && page.attachment == None
            && page.track.title == Names.Base(key) && page.track.key == key
            && AnswerOf(w2, Play(link, visit)).value.code == 204
  {
    var w, handle := Exec(START, before), Handle(m, e);
    RunIsSound(START, before);
    StepIsSound(w, handle);
    DiscoveryMakesTrack(w, m, how, key, e);
    var w1, id := Step(w, handle), w.table.next;
    Serving.LeftAloneStaysServed(w1, after, id);
    SettingsLast(w1, id, Offer(Names.Base(key), None, false, ""), after, link, visit, lower);
  }

  // ---------------------------------------------------------------- after a replace

  lemma ReplaceMovesRow(w: World, slug: string, file: string, c: Handlers.Calls)
    requires Sound(w) && AnswerOf(w, Replace(slug, Some(file), c)).value.code == Handlers.OK
    ensures HasSlug(w.table, slug)
    ensures var id, w1 := RowWithSlug(w.table, slug).value, Step(w, Replace(slug, Some(file), c));
            w1.table == w.table.(rows := w.table.rows[id :=
              w.table.rows[id].(key := Names.ObjectKey(slug, file), status := Pending)])
  {
    Answers.ReplaceAnswers(Handlers.Site(w.bucket, w.table), slug, Some(file), c);
  }

  /** Until it is written again the track is hidden. */
  lemma ReplacedTrackIsHidden(w: World, slug: string, file: string, c: Handlers.Calls,
                              visit: Handlers.Calls, lower: string -> string)
    requires Sound(w) && AnswerOf(w, Replace(slug, Some(file), c)).value.code == Handlers.OK && visit.lookupUp
    ensures Handlers.Share(Step(w, Replace(slug, Some(file), c)).table, slug, visit, lower).NotFoundPage?
  {
    var w1 := Step(w, Replace(slug, Some(file), c));
    StepIsSound(w, Replace(slug, Some(file), c));
    ReplaceMovesRow(w, slug, file, c);
    FoundBySlug(w1.table, RowWithSlug(w.table, slug).value);
    Answers.ShareAnswers(Handlers.Site(w1.bucket, w1.table), slug, visit, lower);
  }

  /** Handling an answered event for a row's key. */
  lemma EventSettlesRow(w: World, id: nat, m: nat, e: Env)
    requires Sound(w) && id in w.table.rows && w.table.rows[id].key in w.bucket
    requires m in w.queue && m !in w.handled && Creates(w.queue[m], w.table.rows[id].key)
    requires AllUp(e) && !HasSlug(w.table, e.slug)
    ensures var w' := Step(w, Handle(m, e));
            && id in w'.table.rows && m in w'.handled && Valid(w'.table)
            && w'.table.rows[id] == Set(w.table.rows[id], ToReady(w.bucket[w.table.rows[id].key], e.now))
  {
    var key := w.table.rows[id].key;
    StepIsSound(w, Handle(m, e));
    FoundByKey(w.table, id);
    AnsweredIngestSettles(w.bucket, w.table, key, e);
  }

  lemma ReplacedRowLasts(w1: World, id: nat, r: Track, key: string, between: seq<Action>)
    requires Sound(w1) && id in w1.table.rows && w1.table.rows[id] == r.(key := key, status := Pending)
    requires forall i :: 0 <= i < |between| ==> !between[i].Edit? && !between[i].Replace?
    requires id in Exec(w1, between).table.rows
    ensures var w2 := Exec(w1, between);
            && Sound(w2)
            && SameSettings(r, w2.table.rows[id])
            && w2.table.rows[id].key == key
            && w2.table.rows[id].playCount == r.playCount + PlaysCounted(w1, between, id)
  {
    RunIsSound(w1, between);
    SettingsChangeOnlyByEdit(w1, between, id);
    CountsFrom(w1, between, id);
  }

  /** A replaced track comes back as itself. After an answered replace its page is gone; once
      the new key has been written and an event for it is handled with every call answered,
      whatever else has happened to the track but an edit or another replace, its link shows
      the new file, under the old settings, with the plays it had and those counted since. */
  lemma ReplacedTrackComesBack(before: seq<Action>, slug: string, file: string, c: Handlers.Calls,
                               between: seq<Action>, m: nat, e: Env,
                               link: string, visit: Handlers.Calls, lower: string -> string)
    requires AnswerOf(Exec(START, before), Replace(slug, Some(file), c)).value.code == Handlers.OK
    requires forall i :: 0 <= i < |between| ==> !between[i].Edit? && !between[i].Replace?
    requires var w, key := Exec(START, before), Names.ObjectKey(slug, file);
             var w2 := Exec(Step(w, Replace(slug, Some(file), c)), between);
             && RowWithSlug(w2.table, link) == RowWithSlug(w.table, slug)
             && key in w2.bucket
             && m in w2.queue && m !in w2.handled && Creates(w2.queue[m], key)
             && AllUp(e) && !HasSlug(w2.table, e.slug)
    requires visit.lookupUp && visit.presignUp
    ensures var w := Exec(START, before);
            var w1 := Step(w, Replace(slug, Some(file), c));
            var w2 := Exec(w1, between);
            var t := Step(w2, Handle(m, e)).table;
            && HasSlug(w.table, slug)
            && Handlers.Share(w1.table, slug, visit, lower).NotFoundPage?
            && RowWithSlug(t, link) == RowWithSlug(w.table, slug)
            && var id := RowWithSlug(t, link).value;
               && t.rows[id].key == Names.ObjectKey(slug, file)
               && Confirmed(t.rows[id], w2.bucket[t.rows[id].key])
               && SameSettings(w.table.rows[id], t.rows[id])
               && t.rows[id].playCount == w.table.rows[id].playCount + PlaysCounted(w1, between, id)
               && var page := Handlers.Share(t, link, visit, lower);
                  if Expiry.Expired(w.table.rows[id].expiresAt, visit.now) then page.ExpiredPage?
                  else page.SharePage? && page.track == t.rows[id]
  {
    var w := Exec(START, before);
    RunIsSound(START, before);
    ReplaceMovesRow(w, slug, file, c);
    ReplacedTrackIsHidden(w, slug, file, c, visit, lower);
    var id, w1 := RowWithSlug(w.table, slug).value, Step(w, Replace(slug, Some(file), c));
    StepIsSound(w, Replace(slug, Some(file), c));
    ReplacedRowLasts(w1, id, w.table.rows[id], Names.ObjectKey(slug, file), between);
    var w2 := Exec(w1, between);
    EventSettlesRow(w2, id, m, e);
    var t := Step(w2, Handle(m, e)).table;
    FoundBySlug(t, id);
    Answers.ShareAnswers(Handlers.Site(w2.bucket, t), link, visit, lower);
  }
}

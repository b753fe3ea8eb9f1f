/** How long a track is served: what takes a ready track with its object away from visitors,
    and what does not. */
module Serving {
  import opened Wrappers
  import opened Tracks
  import opened R2
  import opened Ingest
  import opened System
  import Expiry
  import Handlers
  import Answers

  /** The track is ready and its object is in the bucket. */
  ghost predicate Served(w: World, id: nat) {
    id in w.table.rows && w.table.rows[id].status == Ready && w.table.rows[id].key in w.bucket
  }

  /** A delete or a replace that reaches the track's object. */
  ghost predicate TakesObject(w: World, a: Action, id: nat) {
    && (a.Delete? || (a.Replace? && a.filename.Some?))
    && a.calls.lookupUp && a.calls.removal != Refused
    && RowWithSlug(w.table, a.slug) == Some(id)
  }

  /** An event for the track's key is handled, the Head is not answered and MarkFailed is. */
  ghost predicate MissesObject(w: World, a: Action, id: nat)
    requires id in w.table.rows
  {
    && a.Handle? && a.id in w.queue && a.id !in w.handled && Creates(w.queue[a.id], w.table.rows[id].key)
    && a.env.lookupUp && !a.env.headUp && a.env.markUp
  }

  /** What ingest of the key makes of the track's row. */
  lemma IngestOfServed(w: World, id: nat, e: Env)
    requires Sound(w) && Served(w, id)
    ensures var r, row := IngestObject(w.bucket, w.table, w.table.rows[id].key, e), w.table.rows[id];
            && id in r.table.rows && r.table.rows[id].key == row.key
            && r.table.rows[id].status == (if e.lookupUp && !e.headUp && e.markUp then Failed else Ready)
            && (!e.headUp ==> !r.handled)
  {
    FoundByKey(w.table, id);
    if e.lookupUp {
      assert HasSlug(w.table, w.table.rows[id].slug);
      ConfirmChangesOneRow(w.bucket, w.table, id, e);
      UpdatedIsOneRow(w.table, id, ToFailed);
    }
  }

  lemma HandleServedIff(w: World, a: Action, id: nat)
    requires Sound(w) && Served(w, id) && a.Handle?
    ensures Served(Step(w, a), id) <==> !MissesObject(w, a, id)
    ensures id in Step(w, a).table.rows && Step(w, a).table.rows[id].key == w.table.rows[id].key
  {
    if a.id in w.queue && a.id !in w.handled && IsCreate(w.queue[a.id]) {
      IngestStaysWithinKey(w.bucket, w.table, w.queue[a.id].key, a.env);
      if w.queue[a.id].key == w.table.rows[id].key {
        IngestOfServed(w, id, a.env);
      }
    }
  }

  lemma DeleteServedIff(w: World, a: Action, id: nat)
    requires Sound(w) && Served(w, id) && a.Delete?
    ensures Served(Step(w, a), id) <==> !TakesObject(w, a, id)
    ensures Served(Step(w, a), id) ==> Step(w, a).table.rows[id].key == w.table.rows[id].key
  {
    Answers.DeleteSucceedsIff(Handlers.Site(w.bucket, w.table), a.slug, a.calls);
  }

  lemma ReplaceServedIff(w: World, a: Action, id: nat)
    requires Sound(w) && Served(w, id) && a.Replace?
    ensures Served(Step(w, a), id) <==> !TakesObject(w, a, id)
    ensures Served(Step(w, a), id) ==> Step(w, a).table.rows[id].key == w.table.rows[id].key
  {
    Answers.ReplaceAnswers(Handlers.Site(w.bucket, w.table), a.slug, a.filename, a.calls);
  }

  lemma FilesKeptServes(w: World, w': World, id: nat)
    requires Served(w, id) && FilesKept(w.table, w'.table) && w.bucket.Keys <= w'.bucket.Keys
    ensures Served(w', id) && w'.table.rows[id].key == w.table.rows[id].key
  {
  }

  lemma EditServes(w: World, a: Action, id: nat)
    requires Sound(w) && Served(w, id) && a.Edit?
    ensures Served(Step(w, a), id) && Step(w, a).table.rows[id].key == w.table.rows[id].key
  {
    if a.form.Some? {
      UpdateKeepsFiles(w.table, a.slug, Handlers.FormClause(a.form.value), a.calls.rowUp);
    }
    FilesKeptServes(w, Step(w, a), id);
  }

  lemma RotateServes(w: World, a: Action, id: nat)
    requires Sound(w) && Served(w, id) && a.Rotate?
    ensures Served(Step(w, a), id) && Step(w, a).table.rows[id].key == w.table.rows[id].key
  {
    UpdateKeepsFiles(w.table, a.slug, ToSlug(a.calls.slug), a.calls.rowUp);
    FilesKeptServes(w, Step(w, a), id);
  }

  lemma PlayServes(w: World, a: Action, id: nat)
    requires Sound(w) && Served(w, id) && a.Play?
    ensures Served(Step(w, a), id) && Step(w, a).table.rows[id].key == w.table.rows[id].key
  {
    Answers.PlayAnswers(Handlers.Site(w.bucket, w.table), a.slug, a.calls);
  }

  lemma UploadServes(w: World, a: Action, id: nat)
    requires Sound(w) && Served(w, id) && a.Upload?
    ensures Served(Step(w, a), id) && Step(w, a).table.rows[id].key == w.table.rows[id].key
  {
    if a.req.Some? {
      InsertKeepsFiles(w.table, Handlers.UploadRow(a.req.value, a.calls), a.calls.rowUp);
    }
    FilesKeptServes(w, Step(w, a), id);
  }

  /** A served track stays served by a step exactly when the step is neither a delete or a
      replace that reaches its object, nor the handling of an event for its key whose Head is
      not answered while MarkFailed is. */
  lemma StepServesIff(w: World, a: Action, id: nat)
    requires Sound(w) && Served(w, id)
    ensures Served(Step(w, a), id) <==> !TakesObject(w, a, id) && !MissesObject(w, a, id)
    ensures Served(Step(w, a), id) ==> Step(w, a).table.rows[id].key == w.table.rows[id].key
  {
    match a
    case Handle(_, _) => HandleServedIff(w, a, id);
    case Delete(_, _) => DeleteServedIff(w, a, id);
    case Replace(_, _, _) => ReplaceServedIff(w, a, id);
    case Edit(_, _, _) => EditServes(w, a, id);
    case Rotate(_, _) => RotateServes(w, a, id);
    case Play(_, _) => PlayServes(w, a, id);
    case Upload(_, _) => UploadServes(w, a, id);
    case _ => FilesKeptServes(w, Step(w, a), id);
  }

  /** A miss turns the track to failed although its object is there; the event stays
      announced, and handling it again with the lookup, Head and MarkReady answered makes
      the track ready with the object's metadata. */
  lemma MissIsMended(w: World, miss: Action, id: nat, e: Env)
    requires Sound(w) && Served(w, id) && MissesObject(w, miss, id)
    requires e.lookupUp && e.headUp && e.markUp
    ensures var w1 := Step(w, miss);
            var w2 := Step(w1, Handle(miss.id, e));
            && id in w1.table.rows && w1.table.rows[id].status == Failed
            && w1.table.rows[id].key == w.table.rows[id].key && w1.bucket == w.bucket
            && Awaited(w1, w.table.rows[id].key)
            && Served(w2, id) && Confirmed(w2.table.rows[id], w.bucket[w.table.rows[id].key])
  {
    var key, w1 := w.table.rows[id].key, Step(w, miss);
    StepIsSound(w, miss);
    IngestOfServed(w, id, miss.env);
    assert Creates(w1.queue[miss.id], key) && miss.id !in w1.handled;
    FoundByKey(w1.table, id);
    ConfirmChangesOneRow(w1.bucket, w1.table, id, e);
  }

  /** No step of the run takes the track's object or misses it. */
  ghost predicate LeftAlone(w: World, run: seq<Action>, id: nat)
    decreases |run|
  {
    run != [] ==>
      && !TakesObject(w, run[0], id)
      && (id in w.table.rows ==> !MissesObject(w, run[0], id))
      && LeftAlone(Step(w, run[0]), run[1..], id)
  }

  lemma {:induction false} LeftAloneStaysServed(w: World, run: seq<Action>, id: nat)
    requires Sound(w) && Served(w, id) && LeftAlone(w, run, id)
    ensures Sound(Exec(w, run)) && Served(Exec(w, run), id)
    ensures Exec(w, run).table.rows[id].key == w.table.rows[id].key
    decreases |run|
  {
    if run != [] {
      StepIsSound(w, run[0]);
      StepServesIff(w, run[0], id);
      LeftAloneStaysServed(Step(w, run[0]), run[1..], id);
    }
  }

  /** A served track stays served over every run that leaves it alone, with any failure of any
      other call: it keeps its key and its object, and whoever follows its link sees its page
      until it expires. */
  lemma ServedUntilTaken(before: seq<Action>, after: seq<Action>, id: nat,
                         link: string, visit: Handlers.Calls, lower: string -> string)
    requires Served(Exec(START, before), id) && LeftAlone(Exec(START, before), after, id)
    requires RowWithSlug(Exec(Exec(START, before), after).table, link) == Some(id)
    requires visit.lookupUp && visit.presignUp
    ensures var w2 := Exec(Exec(START, before), after);
            && Served(w2, id)
            && w2.table.rows[id].key == Exec(START, before).table.rows[id].key
            && var page := Handlers.Share(w2.table, link, visit, lower);
               if Expiry.Expired(w2.table.rows[id].expiresAt, visit.now) then page.ExpiredPage?
               else page.SharePage? && page.track == w2.table.rows[id]
  {
    RunIsSound(START, before);
    LeftAloneStaysServed(Exec(START, before), after, id);
    var w2 := Exec(Exec(START, before), after);
    Answers.ShareAnswers(Handlers.Site(w2.bucket, w2.table), link, visit, lower);
  }
}

/** Properties of whole runs of the system that concern one row or one slug: links,
    counts, settings, keys; and one poll as a run. */
module Histories {
  import opened Wrappers
  import opened Tracks
  import opened R2
  import opened Ingest
  import opened System
  import Names
  import Handlers
  import Answers
  import Disposition
  import Draining

  // ---------------------------------------------------------------- what one step can do to a row

  /** The columns only the admin's edit form writes, and those fixed at creation. */
  ghost predicate SameSettings(r: Track, r': Track) {
    && r'.title == r.title && r'.expiresAt == r.expiresAt && r'.downloadable == r.downloadable
    && r'.description == r.description && r'.createdAt == r.createdAt
  }

  /** One 204 answered to a play request for the row `id`. */
  ghost function Counted(w: World, a: Action, id: nat): nat {
    if && a.Play? && AnswerOf(w, a).value.code == Handlers.NO_CONTENT
       && RowWithSlug(w.table, a.slug) == Some(id)
    then 1 else 0
  }

  /** How a step changes the table: rows keep their settings unless edited and their key
      unless replaced, counts grow by the plays counted, a new row gets the next identity
      and no plays, and every slug in the table was there before or was drawn by the step. */
  ghost predicate TableStep(w: World, a: Action, t': Table) {
    var t := w.table;
    && t.next <= t'.next
    && (forall id :: id in t'.rows && id in t.rows ==>
          && t'.rows[id].playCount == t.rows[id].playCount + Counted(w, a, id)
          && (!a.Edit? ==> SameSettings(t.rows[id], t'.rows[id]))
          && (!a.Replace? ==> t'.rows[id].key == t.rows[id].key)
          && (t'.rows[id].slug == t.rows[id].slug || t'.rows[id].slug in Drawn(w, a)))
    && (forall id :: id in t'.rows && id !in t.rows ==>
          && (a.Handle? || a.Upload?)
          && id >= t.next && t'.rows[id].playCount == 0 && t'.rows[id].slug in Drawn(w, a))
  }

  lemma MintedHasNoPlays(bucket: Bucket, t: Table, key: string, e: Env)
    requires Valid(t)
    ensures var t' := IngestObject(bucket, t, key, e).table;
            forall id :: id in t'.rows && id !in t.rows ==> t'.rows[id].playCount == 0 && e.lookupUp
  {
    if e.lookupUp && !HasKey(t, key) {
      var r := DiscoveredRow(e.slug, key, Names.Base(key), e.now);
      if e.insertUp && CanInsert(t, r) {
        InsertAcceptedIffValid(t, r);
        ConfirmChangesOneRow(bucket, Inserted(t, r), t.next, e);
      }
    } else {
      IngestStaysWithinKey(bucket, t, key, e);
    }
  }

  lemma HandleTableStep(w: World, a: Action)
    requires Sound(w) && a.Handle?
    ensures TableStep(w, a, Step(w, a).table)
  {
    if a.id in w.queue && a.id !in w.handled && IsCreate(w.queue[a.id]) {
      IngestStaysWithinKey(w.bucket, w.table, w.queue[a.id].key, a.env);
      MintedHasNoPlays(w.bucket, w.table, w.queue[a.id].key, a.env);
    }
  }

  lemma UpdateTableStep(t: Table, slug: string, c: SetClause, up: bool)
    requires Valid(t)
    ensures var t' := Update(t, slug, c, up).table;
            && t'.next == t.next && t'.rows.Keys == t.rows.Keys
            && forall id :: id in t.rows ==>
                 t'.rows[id] == t.rows[id] || (t.rows[id].slug == slug && t'.rows[id] == Set(t.rows[id], c))
  {
  }

  lemma UpdateIsTableStep(w: World, a: Action, slug: string, c: SetClause, up: bool)
    requires Sound(w) && !a.Play?
    requires (c.ToKey? && a.Replace?) || (c.ToSlug? && c.slug in Drawn(w, a)) || (c.ToForm? && a.Edit?)
    ensures TableStep(w, a, Update(w.table, slug, c, up).table)
  {
    UpdateTableStep(w.table, slug, c, up);
  }

  lemma ReplaceTableStep(w: World, a: Action)
    requires Sound(w) && a.Replace?
    ensures TableStep(w, a, Step(w, a).table)
  {
    if a.filename.Some? {
      var clause := ToKey(Names.ObjectKey(a.slug, a.filename.value));
      UpdateIsTableStep(w, a, a.slug, clause, a.calls.rowUp);
      assert Step(w, a).table == w.table || Step(w, a).table == Update(w.table, a.slug, clause, a.calls.rowUp).table;
    }
  }

  lemma RotateTableStep(w: World, a: Action)
    requires Sound(w) && a.Rotate?
    ensures TableStep(w, a, Step(w, a).table)
  {
    assert a.calls.slug in Drawn(w, a);
    UpdateIsTableStep(w, a, a.slug, ToSlug(a.calls.slug), a.calls.rowUp);
  }

  lemma EditTableStep(w: World, a: Action)
    requires Sound(w) && a.Edit?
    ensures TableStep(w, a, Step(w, a).table)
  {
    if a.form.Some? {
      UpdateIsTableStep(w, a, a.slug, Handlers.FormClause(a.form.value), a.calls.rowUp);
    }
  }

  lemma PlayTableStep(w: World, a: Action)
    requires Sound(w) && a.Play?
    ensures TableStep(w, a, Step(w, a).table)
  {
    Answers.PlayAnswers(Handlers.Site(w.bucket, w.table), a.slug, a.calls);
  }

  lemma UploadTableStep(w: World, a: Action)
    requires Sound(w) && a.Upload?
    ensures TableStep(w, a, Step(w, a).table)
  {
    if a.req.Some? {
      assert a.calls.slug in Drawn(w, a);
    }
  }

  lemma DeleteTableStep(w: World, a: Action)
    requires Sound(w) && a.Delete?
    ensures TableStep(w, a, Step(w, a).table)
  {
    assert Step(w, a).table == w.table || Step(w, a).table == Deleted(w.table, a.slug);
  }

  lemma StepTable(w: World, a: Action)
    requires Sound(w)
    ensures TableStep(w, a, Step(w, a).table)
  {
    match a
    case Handle(_, _) => HandleTableStep(w, a);
    case Play(_, _) => PlayTableStep(w, a);
    case Put(_, _, _) =>
    case Enqueue(_) =>
    case Ack(_) =>
    case Delete(_, _) => DeleteTableStep(w, a);
    case Upload(_, _) => UploadTableStep(w, a);
    case Replace(_, _, _) => ReplaceTableStep(w, a);
    case Rotate(_, _) => RotateTableStep(w, a);
    case Edit(_, _, _) => EditTableStep(w, a);
  }

  // ---------------------------------------------------------------- play counts

  /** The 204s answered for the row `id` over a run. */
  ghost function PlaysCounted(w: World, run: seq<Action>, id: nat): nat
    decreases |run|
  {
    if run == [] then 0 else Counted(w, run[0], id) + PlaysCounted(Step(w, run[0]), run[1..], id)
  }

  /** A row that is gone stays gone: identities are not reused. */
  lemma {:induction false} GoneForGood(w: World, run: seq<Action>, id: nat)
    requires Sound(w) && id !in w.table.rows && id < w.table.next
    ensures id !in Exec(w, run).table.rows
    decreases |run|
  {
    if run != [] {
      StepIsSound(w, run[0]);
      StepTable(w, run[0]);
      GoneForGood(Step(w, run[0]), run[1..], id);
    }
  }

  lemma {:induction false} CountsFrom(w: World, run: seq<Action>, id: nat)
    requires Sound(w) && id in Exec(w, run).table.rows
    ensures Exec(w, run).table.rows[id].playCount ==
            (if id in w.table.rows then w.table.rows[id].playCount else 0) + PlaysCounted(w, run, id)
    decreases |run|
  {
    if run != [] {
      var w1 := Step(w, run[0]);
      StepIsSound(w, run[0]);
      StepTable(w, run[0]);
      if id in w.table.rows && id !in w1.table.rows {
        GoneForGood(w1, run[1..], id);
      }
      CountsFrom(w1, run[1..], id);
    }
  }

  /** A track's play count is the number of play requests answered 204 for it since the
      start, through every rotation, replacement, edit, ingest and failed request. */
  lemma PlayCountsAreExact(run: seq<Action>, id: nat)
    requires id in Exec(START, run).table.rows
    ensures Exec(START, run).table.rows[id].playCount == PlaysCounted(START, run, id)
  {
    CountsFrom(START, run, id);
  }

  /** Only the edit form changes a track's title, expiry, download flag and description, and
      only a replace changes its object key. */
  lemma {:induction false} SettingsChangeOnlyByEdit(w: World, run: seq<Action>, id: nat)
    requires Sound(w) && id in w.table.rows && id in Exec(w, run).table.rows
    ensures (forall i :: 0 <= i < |run| ==> !run[i].Edit?) ==>
              SameSettings(w.table.rows[id], Exec(w, run).table.rows[id])
    ensures (forall i :: 0 <= i < |run| ==> !run[i].Replace?) ==>
              Exec(w, run).table.rows[id].key == w.table.rows[id].key
    decreases |run|
  {
    if run != [] {
      var w1 := Step(w, run[0]);
      StepIsSound(w, run[0]);
      StepTable(w, run[0]);
      if id !in w1.table.rows {
        GoneForGood(w1, run[1..], id);
      }
      SettingsChangeOnlyByEdit(w1, run[1..], id);
      assert forall i :: 0 <= i < |run[1..]| ==> run[1..][i] == run[i + 1];
    }
  }

  lemma UploadAddsRow(w: World, u: Handlers.UploadRequest, c: Handlers.Calls)
    requires AnswerOf(w, Upload(Some(u), c)).value.code == Handlers.OK
    ensures Step(w, Upload(Some(u), c)).table == Inserted(w.table, Handlers.UploadRow(u, c))
  {
  }

  /** The row an upload adds keeps its title, key and download flag. */
  lemma UploadedRowLasts(w: World, u: Handlers.UploadRequest, c: Handlers.Calls, w1: World, after: seq<Action>)
    requires Sound(w) && w1.table == Inserted(w.table, Handlers.UploadRow(u, c)) && Sound(w1)
    requires forall i :: 0 <= i < |after| ==> !after[i].Edit? && !after[i].Replace?
    requires w.table.next in Exec(w1, after).table.rows
    ensures var r := Exec(w1, after).table.rows[w.table.next];
            var r0 := Handlers.UploadRow(u, c);
            r.title == r0.title && r.key == r0.key && r.downloadable == r0.downloadable
  {
    SettingsChangeOnlyByEdit(w1, after, w.table.next);
  }

  lemma OfferedName(t: Table, id: nat, slug: string, name: string,
                    link: string, visit: Handlers.Calls, lower: string -> string)
    requires RowWithSlug(t, link) == Some(id) && Handlers.Share(t, link, visit, lower).SharePage?
    requires t.rows[id].title == Names.UploadTitle("", name, slug) && t.rows[id].key == Names.ObjectKey(slug, name)
    requires name != "" && Names.Plain(slug) && Names.LowersAroundDot(lower)
    ensures Handlers.Share(t, link, visit, lower).attachment == if t.rows[id].downloadable then Some(name) else None
  {
    Names.UntitledUploadKeepsItsName(slug, name, lower);
  }

  /** A file uploaded without a title, and neither edited nor replaced since, is offered for
      download under exactly the name it was uploaded with, wherever the run has taken its
      link; and the header that carries the name gives its bytes back. */
  lemma UploadIsDownloadedUnderItsName(
    before: seq<Action>, u: Handlers.UploadRequest, name: Disposition.GoString, c: Handlers.Calls,
    after: seq<Action>, link: string, visit: Handlers.Calls, lower: string -> string)
    requires u.title == "" && u.filename == name != "" && Names.Plain(c.slug) && Names.LowersAroundDot(lower)
    requires AnswerOf(Exec(START, before), Upload(Some(u), c)).value.code == Handlers.OK
    requires forall i :: 0 <= i < |after| ==> !after[i].Edit? && !after[i].Replace?
    requires var t := Exec(Step(Exec(START, before), Upload(Some(u), c)), after).table;
             && RowWithSlug(t, link) == Some(Exec(START, before).table.next)
             && Handlers.Share(t, link, visit, lower).SharePage?
    ensures var t := Exec(Step(Exec(START, before), Upload(Some(u), c)), after).table;
            && Handlers.Share(t, link, visit, lower).attachment == (if u.downloadable then Some(name) else None)
            && var extended := "UTF-8''" + Disposition.PathEscape(name);
               && Disposition.ReadValue(Disposition.ContentDisposition(name)) ==
                  Some(Disposition.Value("attachment", [Disposition.Param("filename", Disposition.Sanitised(name)),
                                                        Disposition.Param("filename*", extended)]))
               && Disposition.ReadExtended(extended) == Some(("UTF-8", "", name))
  {
    var w := Exec(START, before);
    var w1 := Step(w, Upload(Some(u), c));
    RunIsSound(START, before);
    StepIsSound(w, Upload(Some(u), c));
    UploadAddsRow(w, u, c);
    UploadedRowLasts(w, u, c, w1, after);
    OfferedName(Exec(w1, after).table, w.table.next, c.slug, name, link, visit, lower);
    Disposition.DispositionRecovers(name);
  }

  // ---------------------------------------------------------------- links

  /** Every slug in the table was drawn at some time. */
  ghost predicate SlugsIssued(w: World) {
    forall id :: id in w.table.rows ==> w.table.rows[id].slug in w.issued
  }

  lemma StepIssues(w: World, a: Action)
    requires Sound(w) && SlugsIssued(w)
    ensures SlugsIssued(Step(w, a)) && w.issued <= Step(w, a).issued
  {
    StepTable(w, a);
  }

  lemma {:induction false} RunIssues(w: World, run: seq<Action>)
    requires Sound(w) && SlugsIssued(w)
    ensures Sound(Exec(w, run)) && SlugsIssued(Exec(w, run)) && w.issued <= Exec(w, run).issued
    decreases |run|
  {
    if run != [] {
      StepIsSound(w, run[0]);
      StepIssues(w, run[0]);
      RunIssues(Step(w, run[0]), run[1..]);
    }
  }

  /** A slug that was drawn and names no row never names a row again. */
  lemma {:induction false} DeadSlugStaysDead(w: World, run: seq<Action>, slug: string)
    requires Sound(w) && slug in w.issued && !HasSlug(w.table, slug)
    requires NeverRepeats(w, run)
    ensures !HasSlug(Exec(w, run).table, slug)
    decreases |run|
  {
    if run != [] {
      var w1 := Step(w, run[0]);
      StepIsSound(w, run[0]);
      StepTable(w, run[0]);
      DeadSlugStaysDead(w1, run[1..], slug);
    }
  }

  lemma {:induction false} ExecComposes(w: World, a: seq<Action>, b: seq<Action>)
    ensures Exec(w, a + b) == Exec(Exec(w, a), b)
    ensures NeverRepeats(w, a + b) ==> NeverRepeats(w, a) && NeverRepeats(Exec(w, a), b)
    decreases |a|
  {
    if a == [] {
      assert a + b == b;
    } else {
      assert (a + b)[1..] == a[1..] + b;
      ExecComposes(Step(w, a[0]), a[1..], b);
    }
  }

  /** Rotation is permanent. Once a rotate has succeeded, the old link is unknown in every
      later state, to every visitor, and the track goes on under its identity: the step
      itself changed nothing of it but the slug. */
  lemma RotationIsPermanent(before: seq<Action>, slug: string, c: Handlers.Calls, after: seq<Action>,
                            visit: Handlers.Calls)
    requires var run := before + ([Rotate(slug, c)] + after);
             NeverRepeats(START, run)
    requires AnswerOf(Exec(START, before), Rotate(slug, c)).value.code == Handlers.SEE_OTHER
    ensures var w := Exec(START, before);
            var w1 := Step(w, Rotate(slug, c));
            var w2 := Exec(START, before + ([Rotate(slug, c)] + after));
            && HasSlug(w.table, slug)
            && (forall id :: id in w.table.rows ==>
                  id in w1.table.rows && w1.table.rows[id].(slug := "") == w.table.rows[id].(slug := ""))
            && RowWithSlug(w1.table, c.slug) == RowWithSlug(w.table, slug)
            && w2 == Exec(w1, after)
            && !HasSlug(w2.table, slug)
            && (visit.lookupUp ==> Handlers.VisitTrack(w2.table, slug, visit).Absent?)
  {
    var a := Rotate(slug, c);
    var w := Exec(START, before);
    ExecComposes(START, before, [a] + after);
    assert ([a] + after)[0] == a && ([a] + after)[1..] == after;
    RunIssues(START, before);
    StepIsSound(w, a);
    assert c.slug in Drawn(w, a);
    assert slug in w.issued && slug != c.slug by {
      var id := RowWithSlug(w.table, slug).value;
      assert w.table.rows[id].slug == slug;
    }
    RotateMovesTheLink(w.table, slug, c.slug, c.rowUp);
    DeadSlugStaysDead(Step(w, a), after, slug);
  }

  // ---------------------------------------------------------------- keys

  /** A key that was made from a drawn slug, by an upload or a replace. */
  ghost predicate MadeFrom(key: string, issued: set<string>) {
    Names.SlugOf(key) in issued
  }

  /** The run's clients write only keys the application made, and slugs have no dot or slash. */
  ghost predicate AppKeysOnly(w: World, run: seq<Action>)
    decreases |run|
  {
    run != [] ==>
      && (forall slug :: slug in Drawn(w, run[0]) ==> Names.Plain(slug))
      && (run[0].Put? ==> MadeFrom(run[0].key, w.issued))
      && (run[0].Enqueue? && IsCreate(run[0].body) ==> MadeFrom(run[0].body.key, w.issued))
      && AppKeysOnly(Step(w, run[0]), run[1..])
  }

  ghost predicate KeysMade(w: World) {
    && (forall slug :: slug in w.issued ==> Names.Plain(slug))
    && (forall k :: k in w.bucket ==> MadeFrom(k, w.issued))
    && (forall id :: id in w.queue && IsCreate(w.queue[id]) ==> MadeFrom(w.queue[id].key, w.issued))
    && (forall id :: id in w.table.rows ==> MadeFrom(w.table.rows[id].key, w.issued))
  }

  /** Every key in the table after the step is made from a drawn slug. */
  ghost predicate RowKeysMade(t: Table, issued: set<string>) {
    forall id :: id in t.rows ==> MadeFrom(t.rows[id].key, issued)
  }

  lemma HandleMakesNoKey(w: World, a: Action)
    requires Sound(w) && KeysMade(w) && a.Handle?
    ensures RowKeysMade(Step(w, a).table, w.issued)
  {
    if a.id in w.queue && a.id !in w.handled && IsCreate(w.queue[a.id]) {
      IngestStaysWithinKey(w.bucket, w.table, w.queue[a.id].key, a.env);
    }
  }

  lemma ReplaceMakesItsKey(w: World, a: Action)
    requires Sound(w) && SlugsIssued(w) && KeysMade(w) && a.Replace?
    ensures RowKeysMade(Step(w, a).table, w.issued)
  {
    if a.filename.Some? {
      UpdateTableStep(w.table, a.slug, ToKey(Names.ObjectKey(a.slug, a.filename.value)), a.calls.rowUp);
      if HasSlug(w.table, a.slug) {
        Names.KeyKeepsSlug(a.slug, a.filename.value);
      }
    }
  }

  lemma UploadMakesItsKey(w: World, a: Action)
    requires Sound(w) && KeysMade(w) && AppKeysOnly(w, [a]) && a.Upload?
    ensures RowKeysMade(Step(w, a).table, Step(w, a).issued)
  {
    if a.req.Some? {
      assert a.calls.slug in Drawn(w, a);
      Names.KeyKeepsSlug(a.calls.slug, a.req.value.filename);
    }
  }

  lemma StepMakesRowKeys(w: World, a: Action)
    requires Sound(w) && SlugsIssued(w) && KeysMade(w) && AppKeysOnly(w, [a])
    ensures RowKeysMade(Step(w, a).table, Step(w, a).issued)
  {
    match a
    case Handle(_, _) => HandleMakesNoKey(w, a);
    case Upload(_, _) => UploadMakesItsKey(w, a);
    case Replace(_, _, _) => ReplaceMakesItsKey(w, a);
    case _ => OthersMakeNoKey(w, a);
  }

  lemma OthersMakeNoKey(w: World, a: Action)
    requires Sound(w) && KeysMade(w) && !a.Handle? && !a.Upload? && !a.Replace?
    ensures RowKeysMade(Step(w, a).table, w.issued)
  {
    StepTable(w, a);
  }

  lemma StepKeepsKeysMade(w: World, a: Action)
    requires Sound(w) && SlugsIssued(w) && KeysMade(w) && AppKeysOnly(w, [a])
    ensures KeysMade(Step(w, a))
  {
    StepMakesRowKeys(w, a);
    var w' := Step(w, a);
    assert w'.issued <= w.issued + Drawn(w, a);
    assert forall k :: k in w'.bucket ==> k in w.bucket || (a.Put? && k == a.key);
    assert forall id :: id in w'.queue && id in w.queue && id != w.nextMessage ==> w'.queue[id] == w.queue[id];
  }

  lemma {:induction false} RunKeepsKeysMade(w: World, run: seq<Action>)
    requires Sound(w) && SlugsIssued(w) && KeysMade(w) && AppKeysOnly(w, run)
    ensures KeysMade(Exec(w, run))
    decreases |run|
  {
    if run != [] {
      assert AppKeysOnly(w, [run[0]]);
      StepIsSound(w, run[0]);
      StepIssues(w, run[0]);
      StepKeepsKeysMade(w, run[0]);
      RunKeepsKeysMade(Step(w, run[0]), run[1..]);
    }
  }

  /** As long as clients write only keys the application made, the key of a new upload is
      new to the bucket, to the queue and to the table, and its INSERT is not refused. */
  lemma FreshUploadCollidesWithNothing(run: seq<Action>, u: Handlers.UploadRequest, c: Handlers.Calls)
    requires AppKeysOnly(START, run) && c.slug !in Exec(START, run).issued && Names.Plain(c.slug)
    ensures var w, key := Exec(START, run), Names.ObjectKey(c.slug, u.filename);
            && key !in w.bucket
            && !HasKey(w.table, key)
            && (forall id :: id in w.queue ==> !Creates(w.queue[id], key))
            && (c.rowUp && c.presignUp ==> AnswerOf(w, Upload(Some(u), c)).value.code == Handlers.OK)
  {
    RunIssues(START, run);
    RunKeepsKeysMade(START, run);
    Names.KeyKeepsSlug(c.slug, u.filename);
  }

  // ---------------------------------------------------------------- the poll loop is a run

  /** The steps that handle a batch. */
  function HandleAll(ds: seq<Delivery>): seq<Action> {
    if ds == [] then [] else HandleAll(ds[..|ds| - 1]) + [Handle(ds[|ds| - 1].msg.lease, ds[|ds| - 1].env)]
  }

  /** A batch the queue can hand out: different messages, none of them handled yet. */
  ghost predicate Pulled(w: World, ds: seq<Delivery>) {
    && (forall i :: 0 <= i < |ds| ==>
          && ds[i].msg.lease in w.queue && ds[i].msg.lease !in w.handled
          && w.queue[ds[i].msg.lease] == ds[i].msg.body)
    && (forall i, j :: 0 <= i < j < |ds| ==> ds[i].msg.lease != ds[j].msg.lease)
  }

  ghost function HandledSet(bucket: Bucket, t: Table, ds: seq<Delivery>): set<nat> {
    set i | 0 <= i < |ds| && HandledAt(bucket, t, ds, i) :: ds[i].msg.lease
  }

  lemma HandledAtPrefix(bucket: Bucket, t: Table, ds: seq<Delivery>, n: nat, i: nat)
    requires i < n <= |ds|
    ensures HandledAt(bucket, t, ds[..n], i) == HandledAt(bucket, t, ds, i)
  {
    assert ds[..n][..i] == ds[..i];
  }

  lemma HandledSetHas(bucket: Bucket, t: Table, ds: seq<Delivery>, i: nat)
    requires i < |ds| && HandledAt(bucket, t, ds, i)
    ensures ds[i].msg.lease in HandledSet(bucket, t, ds)
  {
  }

  lemma HandledSetStep(bucket: Bucket, t: Table, ds: seq<Delivery>)
    requires ds != []
    ensures var n := |ds| - 1;
            HandledSet(bucket, t, ds) ==
            HandledSet(bucket, t, ds[..n]) + if HandledAt(bucket, t, ds, n) then {ds[n].msg.lease} else {}
  {
    var n := |ds| - 1;
    forall id | id in HandledSet(bucket, t, ds[..n])
      ensures id in HandledSet(bucket, t, ds)
    {
      var i :| 0 <= i < |ds[..n]| && HandledAt(bucket, t, ds[..n], i) && ds[..n][i].msg.lease == id;
      HandledAtPrefix(bucket, t, ds, n, i);
      HandledSetHas(bucket, t, ds, i);
    }
    forall id | id in HandledSet(bucket, t, ds)
      ensures id in HandledSet(bucket, t, ds[..n]) || (HandledAt(bucket, t, ds, n) && id == ds[n].msg.lease)
    {
      var i :| 0 <= i < |ds| && HandledAt(bucket, t, ds, i) && ds[i].msg.lease == id;
      if i < n {
        HandledAtPrefix(bucket, t, ds, n, i);
        HandledSetHas(bucket, t, ds[..n], i);
      }
    }
    if HandledAt(bucket, t, ds, n) {
      HandledSetHas(bucket, t, ds, n);
    }
  }

  lemma HandledSetIsWithin(bucket: Bucket, t: Table, ds: seq<Delivery>, id: nat)
    requires forall i :: 0 <= i < |ds| ==> ds[i].msg.lease != id
    ensures id !in HandledSet(bucket, t, ds)
  {
  }

  /** The loop of `pollOnce` over a batch is a run of this machine: it ends in the same table
      and collects the same messages to acknowledge. */
  lemma {:induction false} PollLoopIsARun(w: World, ds: seq<Delivery>)
    requires Pulled(w, ds)
    ensures var w' := Exec(w, HandleAll(ds));
            && w'.table == After(w.bucket, w.table, ds)
            && w'.bucket == w.bucket && w'.queue == w.queue
            && w'.handled == w.handled + HandledSet(w.bucket, w.table, ds)
  {
    if ds == [] {
      assert HandledSet(w.bucket, w.table, ds) == {};
    } else {
      var n := |ds| - 1;
      var d, w1 := ds[n], Exec(w, HandleAll(ds[..n]));
      assert forall i :: 0 <= i < n ==> ds[..n][i] == ds[i];
      PollLoopIsARun(w, ds[..n]);
      var a := Handle(d.msg.lease, d.env);
      ExecComposes(w, HandleAll(ds[..n]), [a]);
      assert Exec(w1, [a]) == Step(w1, a);
      HandledSetStep(w.bucket, w.table, ds);
      HandledSetIsWithin(w.bucket, w.table, ds[..n], d.msg.lease);
    }
  }

  /** One poll as a run: the batch, then the acknowledgement, which may be lost. */
  function PollRun(w: World, ds: seq<Delivery>, ackUp: bool): seq<Action> {
    HandleAll(ds) + [Ack(if ackUp then w.queue.Keys else {})]
  }

  lemma LeasesAreHandledSet(bucket: Bucket, t: Table, ds: seq<Delivery>)
    ensures forall id :: id in Draining.HandledLeases(bucket, t, ds) <==> id in HandledSet(bucket, t, ds)
  {
    var leases, ps := Draining.HandledLeases(bucket, t, ds), HandledPositions(bucket, t, ds, |ds|);
    forall id | id in HandledSet(bucket, t, ds)
      ensures id in leases
    {
      var i :| 0 <= i < |ds| && HandledAt(bucket, t, ds, i) && ds[i].msg.lease == id;
      var j :| 0 <= j < |ps| && ps[j] == i;
      assert leases[j] == id;
    }
    forall id | id in leases
      ensures id in HandledSet(bucket, t, ds)
    {
      var j :| 0 <= j < |leases| && leases[j] == id;
      assert HandledAt(bucket, t, ds, ps[j]) && ds[ps[j]].msg.lease == id;
    }
  }

  /** What the method `pollOnce` does to the table and the queue is what this machine does. */
  lemma PollIsARun(w: World, ds: seq<Delivery>, ackUp: bool)
    requires Pulled(w, ds) && w.handled == {}
    ensures var w' := Exec(w, PollRun(w, ds, ackUp));
            && Draining.Side(w'.table, w'.queue) ==
               Draining.Poll(w.bucket, Draining.Side(w.table, w.queue), ds, ackUp)
            && w'.handled == {} && w'.bucket == w.bucket
  {
    var a := Ack(if ackUp then w.queue.Keys else {});
    PollLoopIsARun(w, ds);
    ExecComposes(w, HandleAll(ds), [a]);
    var w1 := Exec(w, HandleAll(ds));
    assert Exec(w1, [a]) == Step(w1, a);
    LeasesAreHandledSet(w.bucket, w.table, ds);
    DroppedIsWithout(w.queue, HandledSet(w.bucket, w.table, ds), Draining.HandledLeases(w.bucket, w.table, ds), ackUp);
  }

  lemma DroppedIsWithout(q: map<nat, Body>, handled: set<nat>, leases: seq<nat>, ackUp: bool)
    requires forall id :: id in leases <==> id in handled
    ensures q - ((if ackUp then q.Keys else {}) * handled) == if ackUp then Draining.Without(q, leases) else q
  {
  }
}

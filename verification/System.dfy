/** The whole application as a state machine: the bucket, the queue, the poller's list of
    handled messages and the table, changed by clients, the queue, the poller and the
    HTTP handlers. Each request, and each message of a poll, is one step here; every
    outside call in it may fail. Module Interleaving cuts the steps finer. */
module System {
  import opened Wrappers
  import opened Tracks
  import opened R2
  import opened Ingest
  import Names
  import Handlers

  datatype World = World(
    bucket: Bucket,
    queue: map<nat, Body>,    // messages not acknowledged
    handled: set<nat>,        // messages the poller will acknowledge at the end of its poll
    table: Table,
    issued: set<string>,      // every slug drawn so far
    nextMessage: nat)

  const START := World(map[], map[], {}, EMPTY, {}, 0)

  datatype Action =
    | Put(key: string, meta: Meta, how: WriteKind)    // a client writes an object, R2 announces it
    | Enqueue(body: Body)                             // any other message, a duplicate or a stray one included
    | Handle(id: nat, env: Env)                       // the poller handles a message
    | Ack(dropped: set<nat>)                          // the poll ends; the queue drops what the call reached
    | Upload(req: Option<Handlers.UploadRequest>, calls: Handlers.Calls)
    | Replace(slug: string, filename: Option<string>, calls: Handlers.Calls)
    | Delete(slug: string, calls: Handlers.Calls)
    | Rotate(slug: string, calls: Handlers.Calls)
    | Edit(slug: string, form: Option<Handlers.EditForm>, calls: Handlers.Calls)
    | Play(slug: string, calls: Handlers.Calls)

  /** The answer of the handler a step runs, if it runs one. */
  ghost function AnswerOf(w: World, a: Action): Option<Handlers.Answer> {
    var site := Handlers.Site(w.bucket, w.table);
    match a
    case Upload(req, c) => Some(Handlers.Upload(site, req, c))
    case Replace(slug, file, c) => Some(Handlers.Replace(site, slug, file, c))
    case Delete(slug, c) => Some(Handlers.Delete(site, slug, c))
    case Rotate(slug, c) => Some(Handlers.Rotate(site, slug, c))
    case Edit(slug, form, c) => Some(Handlers.Edit(site, slug, form, c))
    case Play(slug, c) => Some(Handlers.Play(site, slug, c))
    case _ => None
  }

  /** The slug a step draws from `idgen`, if it draws one. */
  ghost function Drawn(w: World, a: Action): set<string> {
    match a
    case Handle(id, e) =>
      if && id in w.queue && id !in w.handled && IsCreate(w.queue[id])
         && e.lookupUp && !HasKey(w.table, w.queue[id].key)
      then {e.slug} else {}
    case Upload(req, c) => if req.Some? then {c.slug} else {}
    case Rotate(_, c) => {c.slug}
    case _ => {}
  }

  ghost function Step(w: World, a: Action): World {
    var w' := w.(issued := w.issued + Drawn(w, a));
    match a
    case Put(key, meta, how) =>
      w'.(bucket := w.bucket[key := meta],
          queue := w.queue[w.nextMessage := Event(Announced(how), key)], nextMessage := w.nextMessage + 1)
    case Enqueue(body) => w'.(queue := w.queue[w.nextMessage := body], nextMessage := w.nextMessage + 1)
    case Handle(id, e) =>
      if id !in w.queue || id in w.handled then w
      else
        var r := HandleMessage(w.bucket, w.table, w.queue[id], e);
        w'.(table := r.table, handled := if r.handled then w.handled + {id} else w.handled)
    case Ack(dropped) => w'.(queue := w.queue - (dropped * w.handled), handled := {})
    case _ =>
      var site := AnswerOf(w, a).value.site;
      w'.(bucket := site.bucket, table := site.table)
  }

  /** The state a run reaches. */
  ghost function Exec(w: World, run: seq<Action>): World
    decreases |run|
  {
    if run == [] then w else Exec(Step(w, run[0]), run[1..])
  }

  /** `idgen` never repeats a slug in this run. */
  ghost predicate NeverRepeats(w: World, run: seq<Action>)
    decreases |run|
  {
    run != [] ==> Drawn(w, run[0]) !! w.issued && NeverRepeats(Step(w, run[0]), run[1..])
  }

  /** History: the keys whose object a delete or a replace removed before failing to change
      the row, and that nobody has written since. */
  ghost function Marked(w: World, broken: set<string>, a: Action): set<string> {
    match a
    case Put(key, _, _) => broken - {key}
    case Delete(slug, c) =>
      (match SelectBySlug(w.table, slug, c.lookupUp)
       case Found(track) =>
         if c.removal == Refused then broken
         else if c.removal == Removed && c.rowUp then broken - {track.key}
         else broken + {track.key}
       case _ => broken)
    case Replace(slug, Some(file), c) =>
      (match SelectBySlug(w.table, slug, c.lookupUp)
       case Found(track) =>
         if c.removal == Refused then broken
         else if && c.removal == Removed
                 && Update(w.table, slug, ToKey(Names.ObjectKey(slug, file)), c.rowUp).reply == Done
         then broken - {track.key}
         else broken + {track.key}
       case _ => broken)
    case _ => broken
  }

  ghost function BrokenAfter(w: World, broken: set<string>, run: seq<Action>): set<string>
    decreases |run|
  {
    if run == [] then broken else BrokenAfter(Step(w, run[0]), Marked(w, broken, run[0]), run[1..])
  }

  // ---------------------------------------------------------------- the constraints

  ghost predicate Sound(w: World) {
    && Valid(w.table)
    && (forall id :: id in w.queue || id in w.handled ==> id < w.nextMessage)
  }

  lemma HandleIsSound(w: World, a: Action)
    requires Sound(w) && a.Handle?
    ensures Sound(Step(w, a))
  {
    if a.id in w.queue {
      HandleKeepsConstraints(w.bucket, w.table, w.queue[a.id], a.env);
    }
  }

  lemma UploadIsSound(w: World, a: Action)
    requires Sound(w) && a.Upload?
    ensures Sound(Step(w, a))
  {
    if a.req.Some? {
      var r := Handlers.UploadRow(a.req.value, a.calls);
      StatementsKeepConstraints(w.table, a.calls.slug, r, ToFailed, a.calls.rowUp);
    }
  }

  lemma ReplaceIsSound(w: World, a: Action)
    requires Sound(w) && a.Replace?
    ensures Sound(Step(w, a))
  {
    if a.filename.Some? {
      var clause := ToKey(Names.ObjectKey(a.slug, a.filename.value));
      StatementsKeepConstraints(w.table, a.slug, DiscoveredRow("", "", "", 0), clause, a.calls.rowUp);
    }
  }

  lemma EditIsSound(w: World, a: Action)
    requires Sound(w) && a.Edit?
    ensures Sound(Step(w, a))
  {
    if a.form.Some? {
      var clause := Handlers.FormClause(a.form.value);
      StatementsKeepConstraints(w.table, a.slug, DiscoveredRow("", "", "", 0), clause, a.calls.rowUp);
    }
  }

  lemma DeleteIsSound(w: World, a: Action)
    requires Sound(w) && a.Delete?
    ensures Sound(Step(w, a))
  {
    StatementsKeepConstraints(w.table, a.slug, DiscoveredRow("", "", "", 0), ToFailed, a.calls.rowUp);
  }

  lemma UpdateIsSound(w: World, a: Action)
    requires Sound(w) && (a.Rotate? || a.Play?)
    ensures Sound(Step(w, a))
  {
    var clause := if a.Rotate? then ToSlug(a.calls.slug) else PlusOnePlay;
    StatementsKeepConstraints(w.table, a.slug, DiscoveredRow("", "", "", 0), clause, a.calls.rowUp);
  }

  lemma RequestIsSound(w: World, a: Action)
    requires Sound(w) && AnswerOf(w, a).Some?
    ensures Sound(Step(w, a))
  {
    if a.Upload? {
      UploadIsSound(w, a);
    } else if a.Replace? {
      ReplaceIsSound(w, a);
    } else if a.Delete? {
      DeleteIsSound(w, a);
    } else if a.Edit? {
      EditIsSound(w, a);
    } else {
      UpdateIsSound(w, a);
    }
  }

  lemma StepIsSound(w: World, a: Action)
    requires Sound(w)
    ensures Sound(Step(w, a))
  {
    if a.Handle? {
      HandleIsSound(w, a);
    } else if AnswerOf(w, a).Some? {
      RequestIsSound(w, a);
    }
  }

  lemma {:induction false} RunIsSound(w: World, run: seq<Action>)
    requires Sound(w)
    ensures Sound(Exec(w, run))
    decreases |run|
  {
    if run != [] {
      StepIsSound(w, run[0]);
      RunIsSound(Step(w, run[0]), run[1..]);
    }
  }

  /** In every reachable state no two rows share a slug and no two rows share an object key. */
  lemma ConstraintsAlwaysHold(run: seq<Action>)
    ensures SlugsUnique(Exec(START, run).table) && KeysUnique(Exec(START, run).table)
  {
    RunIsSound(START, run);
  }

  // ---------------------------------------------------------------- bucket, queue and table agree

  /** An unacknowledged create event for `key` is still to be handled. */
  ghost predicate Awaited(w: World, key: string) {
    exists id :: id in w.queue && id !in w.handled && Creates(w.queue[id], key)
  }

  /** A ready row for `key` stores this metadata. */
  ghost predicate HasConfirmed(t: Table, key: string, m: Meta) {
    exists id :: id in t.rows && t.rows[id].key == key && Confirmed(t.rows[id], m)
  }

  /** The invariant: every object has a confirmed row or a create event still to be handled;
      a ready row has its object unless a handler broke it; broken keys belong to rows
      without an object. */
  ghost predicate Agree(w: World, broken: set<string>) {
    && (forall k :: k in w.bucket ==> Awaited(w, k) || HasConfirmed(w.table, k, w.bucket[k]))
    && (forall id :: id in w.table.rows && w.table.rows[id].status == Ready ==>
          w.table.rows[id].key in w.bucket || w.table.rows[id].key in broken)
    && (forall k :: k in broken ==> k !in w.bucket && HasKey(w.table, k))
  }

  /** Every row of `t` is in `t'` with the columns that concern its file unchanged. */
  ghost predicate FilesKept(t: Table, t': Table) {
    forall id :: id in t.rows ==>
      && id in t'.rows
      && t'.rows[id].key == t.rows[id].key
      && t'.rows[id].status == t.rows[id].status
      && t'.rows[id].contentType == t.rows[id].contentType
      && t'.rows[id].sizeBytes == t.rows[id].sizeBytes
  }

  /** No row is ready in `t'` that is not in `t`. */
  ghost predicate NoNewReady(t: Table, t': Table) {
    forall id :: id in t'.rows && t'.rows[id].status == Ready ==>
      id in t.rows && t.rows[id].status == Ready && t.rows[id].key == t'.rows[id].key
  }

  /** Steps that change neither the bucket nor what rows say about their files. */
  lemma FileColumnsKeepAgreement(w: World, broken: set<string>, w': World)
    requires Agree(w, broken)
    requires w'.bucket == w.bucket && w'.queue == w.queue && w'.handled == w.handled
    requires FilesKept(w.table, w'.table) && NoNewReady(w.table, w'.table)
    ensures Agree(w', broken)
  {
  }

  lemma UpdateKeepsFiles(t: Table, slug: string, c: SetClause, up: bool)
    requires Valid(t) && (c.ToSlug? || c.ToForm? || c.PlusOnePlay?)
    ensures FilesKept(t, Update(t, slug, c, up).table) && NoNewReady(t, Update(t, slug, c, up).table)
  {
  }

  lemma InsertKeepsFiles(t: Table, r: Track, up: bool)
    requires Valid(t) && r.status == Pending
    ensures FilesKept(t, Insert(t, r, up).table) && NoNewReady(t, Insert(t, r, up).table)
  {
  }

  lemma UploadKeepsAgreement(w: World, broken: set<string>, a: Action)
    requires Sound(w) && Agree(w, broken) && a.Upload?
    ensures Agree(Step(w, a), broken)
  {
    if a.req.Some? {
      InsertKeepsFiles(w.table, Handlers.UploadRow(a.req.value, a.calls), a.calls.rowUp);
    }
    FileColumnsKeepAgreement(w, broken, Step(w, a));
  }

  lemma RotateKeepsAgreement(w: World, broken: set<string>, a: Action)
    requires Sound(w) && Agree(w, broken) && a.Rotate?
    ensures Agree(Step(w, a), broken)
  {
    UpdateKeepsFiles(w.table, a.slug, ToSlug(a.calls.slug), a.calls.rowUp);
    FileColumnsKeepAgreement(w, broken, Step(w, a));
  }

  lemma EditKeepsAgreement(w: World, broken: set<string>, a: Action)
    requires Sound(w) && Agree(w, broken) && a.Edit?
    ensures Agree(Step(w, a), broken)
  {
    if a.form.Some? {
      UpdateKeepsFiles(w.table, a.slug, Handlers.FormClause(a.form.value), a.calls.rowUp);
    }
    FileColumnsKeepAgreement(w, broken, Step(w, a));
  }

  lemma PlayKeepsAgreement(w: World, broken: set<string>, a: Action)
    requires Sound(w) && Agree(w, broken) && a.Play?
    ensures Agree(Step(w, a), broken)
  {
    UpdateKeepsFiles(w.table, a.slug, PlusOnePlay, a.calls.rowUp);
    PlayChanges(w, a);
    FileColumnsKeepAgreement(w, broken, Step(w, a));
  }

  lemma PlayChanges(w: World, a: Action)
    requires a.Play?
    ensures var w' := Step(w, a);
            && w'.bucket == w.bucket && w'.queue == w.queue && w'.handled == w.handled
            && (w'.table == w.table || w'.table == Update(w.table, a.slug, PlusOnePlay, a.calls.rowUp).table)
  {
  }

  lemma PutKeepsAgreement(w: World, broken: set<string>, a: Action)
    requires Sound(w) && Agree(w, broken) && a.Put?
    ensures Agree(Step(w, a), broken - {a.key})
  {
    var w' := Step(w, a);
    assert Creates(w'.queue[w.nextMessage], a.key) && w.nextMessage !in w'.handled;
    forall k | k in w'.bucket
      ensures Awaited(w', k) || HasConfirmed(w'.table, k, w'.bucket[k])
    {
      if k == a.key {
        assert Awaited(w', k);
      } else if Awaited(w, k) {
        var id :| id in w.queue && id !in w.handled && Creates(w.queue[id], k);
        assert id in w'.queue && id !in w'.handled && Creates(w'.queue[id], k);
      }
    }
  }

  lemma QueueStepsKeepAgreement(w: World, broken: set<string>, a: Action)
    requires Sound(w) && Agree(w, broken) && (a.Enqueue? || a.Ack?)
    ensures Agree(Step(w, a), broken)
  {
    var w' := Step(w, a);
    forall k | Awaited(w, k)
      ensures Awaited(w', k)
    {
      var id :| id in w.queue && id !in w.handled && Creates(w.queue[id], k);
      assert id in w'.queue && id !in w'.handled && Creates(w'.queue[id], k);
    }
  }

  /** A handled create event for an existing object leaves a ready row with the object's
      metadata; ingest makes no row ready whose object is missing. */
  lemma IngestOutcome(bucket: Bucket, t: Table, key: string, e: Env)
    requires Valid(t)
    ensures var r := IngestObject(bucket, t, key, e);
            && (r.handled && key in bucket ==> HasConfirmed(r.table, key, bucket[key]))
            && (forall id :: id in r.table.rows && r.table.rows[id].status == Ready ==>
                  || r.table.rows[id].key in bucket
                  || (id in t.rows && t.rows[id].status == Ready && t.rows[id].key == r.table.rows[id].key))
  {
    if e.lookupUp {
      match RowWithKey(t, key)
      case Some(id) =>
        ConfirmOutcome(bucket, t, id, e);
      case None =>
        var r := DiscoveredRow(e.slug, key, Names.Base(key), e.now);
        if e.insertUp && CanInsert(t, r) {
          InsertAcceptedIffValid(t, r);
          ConfirmOutcome(bucket, Inserted(t, r), t.next, e);
        }
    }
  }

  lemma ConfirmOutcome(bucket: Bucket, t: Table, id: nat, e: Env)
    requires Valid(t) && id in t.rows
    ensures var r := Confirm(bucket, t, t.rows[id].key, t.rows[id].slug, e);
            var key := t.rows[id].key;
            && (r.handled && key in bucket ==> HasConfirmed(r.table, key, bucket[key]))
            && r.table == t.(rows := t.rows[id := r.table.rows[id]])
            && r.table.rows[id].key == key
            && (r.table.rows[id].status == Ready ==> key in bucket || t.rows[id].status == Ready)
  {
    ConfirmChangesOneRow(bucket, t, id, e);
    var r := Confirm(bucket, t, t.rows[id].key, t.rows[id].slug, e);
    assert HasSlug(t, t.rows[id].slug);
    if r.handled && t.rows[id].key in bucket {
      assert Confirmed(r.table.rows[id], bucket[t.rows[id].key]);
    }
  }

  lemma HandleKeepsAgreement(w: World, broken: set<string>, a: Action)
    requires Sound(w) && Agree(w, broken) && a.Handle?
    requires a.id in w.queue && a.id !in w.handled && IsCreate(w.queue[a.id])
    ensures Agree(Step(w, a), broken)
  {
    var w', key := Step(w, a), w.queue[a.id].key;
    IngestStaysWithinKey(w.bucket, w.table, key, a.env);
    IngestOutcome(w.bucket, w.table, key, a.env);
    forall k | k in w'.bucket
      ensures Awaited(w', k) || HasConfirmed(w'.table, k, w'.bucket[k])
    {
      if k == key {
        assert a.id !in w'.handled ==> Creates(w'.queue[a.id], k);
      } else if Awaited(w, k) {
        var id :| id in w.queue && id !in w.handled && Creates(w.queue[id], k);
        assert id in w'.queue && id !in w'.handled && Creates(w'.queue[id], k);
      } else {
        var id :| id in w.table.rows && w.table.rows[id].key == k && Confirmed(w.table.rows[id], w.bucket[k]);
        assert w'.table.rows[id] == w.table.rows[id];
      }
    }
    forall k | k in broken
      ensures HasKey(w'.table, k)
    {
      var id :| id in w.table.rows && w.table.rows[id].key == k;
      assert w'.table.rows[id].key == k;
    }
  }

  /** After the removal of row `id`'s object, with every other row left as it was, every
      remaining object is still accounted for. */
  lemma RemovalAccountsForObjects(w: World, broken: set<string>, w': World, id: nat)
    requires Sound(w) && Agree(w, broken) && id in w.table.rows
    requires w'.queue == w.queue && w'.handled == w.handled
    requires w'.bucket == w.bucket - {w.table.rows[id].key}
    requires forall j :: j in w.table.rows && j != id ==> j in w'.table.rows && w'.table.rows[j] == w.table.rows[j]
    ensures forall k :: k in w'.bucket ==> Awaited(w', k) || HasConfirmed(w'.table, k, w'.bucket[k])
    ensures forall k :: k in broken && k != w.table.rows[id].key ==> HasKey(w'.table, k)
  {
  }

  /** The object is gone and the row was not changed: the key is marked. */
  lemma LeftBroken(w: World, broken: set<string>, w': World, id: nat)
    requires Sound(w) && Agree(w, broken) && id in w.table.rows
    requires w'.queue == w.queue && w'.handled == w.handled && w'.table == w.table
    requires w'.bucket == w.bucket - {w.table.rows[id].key}
    ensures Agree(w', broken + {w.table.rows[id].key})
  {
  }

  /** The object is gone and so is the row, or it waits for another object. */
  lemma RemovedOrWaiting(w: World, broken: set<string>, w': World, id: nat)
    requires Sound(w) && Agree(w, broken) && id in w.table.rows
    requires w'.queue == w.queue && w'.handled == w.handled
    requires w'.bucket == w.bucket - {w.table.rows[id].key}
    requires forall j :: j in w.table.rows && j != id ==> j in w'.table.rows && w'.table.rows[j] == w.table.rows[j]
    requires forall j :: j in w'.table.rows ==> j in w.table.rows
    requires id in w'.table.rows ==> w'.table.rows[id].status == Pending
    ensures Agree(w', broken - {w.table.rows[id].key})
  {
    RemovalAccountsForObjects(w, broken, w', id);
    forall j | j in w'.table.rows && w'.table.rows[j].status == Ready
      ensures w'.table.rows[j].key in w'.bucket || w'.table.rows[j].key in broken - {w.table.rows[id].key}
    {
      assert j != id && w.table.rows[j] == w'.table.rows[j];
      assert w.table.rows[j].key != w.table.rows[id].key;
    }
  }

  lemma DeleteKeepsAgreement(w: World, broken: set<string>, a: Action)
    requires Sound(w) && Agree(w, broken) && a.Delete?
    ensures Agree(Step(w, a), Marked(w, broken, a))
  {
    var c, w' := a.calls, Step(w, a);
    if c.lookupUp && HasSlug(w.table, a.slug) && c.removal != Refused {
      var id := RowWithSlug(w.table, a.slug).value;
      if c.removal == Removed && c.rowUp {
        DeleteRemovesOneRow(w.table, a.slug, c.rowUp);
        RemovedOrWaiting(w, broken, w', id);
      } else {
        LeftBroken(w, broken, w', id);
      }
    } else {
      FileColumnsKeepAgreement(w, broken, w');
    }
  }

  lemma ReplaceKeepsAgreement(w: World, broken: set<string>, a: Action)
    requires Sound(w) && Agree(w, broken) && a.Replace?
    ensures Agree(Step(w, a), Marked(w, broken, a))
  {
    var c, w' := a.calls, Step(w, a);
    if a.filename.Some? && c.lookupUp && HasSlug(w.table, a.slug) && c.removal != Refused {
      var id := RowWithSlug(w.table, a.slug).value;
      var clause := ToKey(Names.ObjectKey(a.slug, a.filename.value));
      if c.removal == Removed && Update(w.table, a.slug, clause, c.rowUp).reply == Done {
        UpdateTouchesOneRow(w.table, a.slug, clause, c.rowUp);
        RemovedOrWaiting(w, broken, w', id);
      } else {
        LeftBroken(w, broken, w', id);
      }
    } else {
      FileColumnsKeepAgreement(w, broken, w');
    }
  }

  /** Every step keeps the agreement of the three stores, whatever fails in it. */
  lemma StepKeepsAgreement(w: World, broken: set<string>, a: Action)
    requires Sound(w) && Agree(w, broken)
    ensures Agree(Step(w, a), Marked(w, broken, a))
  {
    match a
    case Put(_, _, _) => PutKeepsAgreement(w, broken, a);
    case Enqueue(_) => QueueStepsKeepAgreement(w, broken, a);
    case Ack(_) => QueueStepsKeepAgreement(w, broken, a);
    case Handle(id, _) =>
      if id in w.queue && id !in w.handled {
        if IsCreate(w.queue[id]) {
          HandleKeepsAgreement(w, broken, a);
        } else {
          OtherMessageKeepsAgreement(w, broken, a);
        }
      }
    case Upload(_, _) => UploadKeepsAgreement(w, broken, a);
    case Rotate(_, _) => RotateKeepsAgreement(w, broken, a);
    case Edit(_, _, _) => EditKeepsAgreement(w, broken, a);
    case Play(_, _) => PlayKeepsAgreement(w, broken, a);
    case Delete(_, _) => DeleteKeepsAgreement(w, broken, a);
    case Replace(_, _, _) => ReplaceKeepsAgreement(w, broken, a);
  }

  lemma OtherMessageKeepsAgreement(w: World, broken: set<string>, a: Action)
    requires Sound(w) && Agree(w, broken) && a.Handle?
    requires a.id in w.queue && a.id !in w.handled && !IsCreate(w.queue[a.id])
    ensures Agree(Step(w, a), broken)
  {
  }

  lemma {:induction false} RunKeepsAgreement(w: World, broken: set<string>, run: seq<Action>)
    requires Sound(w) && Agree(w, broken)
    ensures Sound(Exec(w, run)) && Agree(Exec(w, run), BrokenAfter(w, broken, run))
    decreases |run|
  {
    if run != [] {
      StepIsSound(w, run[0]);
      StepKeepsAgreement(w, broken, run[0]);
      RunKeepsAgreement(Step(w, run[0]), Marked(w, broken, run[0]), run[1..]);
    }
  }

  // ---------------------------------------------------------------- what follows for every run

  /** The objects are exactly the files of the ready rows, those of broken keys excepted; each
      object has one row, ready and with the object's metadata; a row that is not ready has
      no object. */
  ghost predicate StoresAgree(w: World, broken: set<string>) {
    && w.bucket.Keys ==
         (set id | id in w.table.rows && w.table.rows[id].status == Ready :: w.table.rows[id].key) - broken
    && (forall k :: k in w.bucket ==>
          exists id :: id in w.table.rows && w.table.rows[id].key == k && Confirmed(w.table.rows[id], w.bucket[k])
                       && forall j :: j in w.table.rows && w.table.rows[j].key == k ==> j == id)
    && (forall id :: id in w.table.rows && w.table.rows[id].status != Ready ==> w.table.rows[id].key !in w.bucket)
  }

  lemma AgreeWhenDrained(w: World, broken: set<string>)
    requires Sound(w) && Agree(w, broken) && forall k :: !Awaited(w, k)
    ensures StoresAgree(w, broken)
  {
    forall k | k in w.bucket
      ensures exists id :: id in w.table.rows && w.table.rows[id].key == k && Confirmed(w.table.rows[id], w.bucket[k])
                           && forall j :: j in w.table.rows && w.table.rows[j].key == k ==> j == id
    {
      var id :| id in w.table.rows && w.table.rows[id].key == k && Confirmed(w.table.rows[id], w.bucket[k]);
    }
  }

  /** After any run that leaves no create event to handle the three stores agree. */
  lemma DrainedStoresAgree(run: seq<Action>)
    requires forall k :: !Awaited(Exec(START, run), k)
    ensures StoresAgree(Exec(START, run), BrokenAfter(START, {}, run))
  {
    RunKeepsAgreement(START, {}, run);
    AgreeWhenDrained(Exec(START, run), BrokenAfter(START, {}, run));
  }

  /** In every reachable state, an object whose row is pending or failed, or is missing
      altogether, has a create event still to be handled. */
  lemma NoWorkIsLost(run: seq<Action>, key: string)
    requires var w := Exec(START, run);
             && key in w.bucket
             && forall id :: id in w.table.rows && w.table.rows[id].key == key ==> w.table.rows[id].status != Ready
    ensures Awaited(Exec(START, run), key)
  {
    RunKeepsAgreement(START, {}, run);
  }

  /** In every reachable state, a ready row whose key no handler broke has its object; and
      the row stores the object's content type and size unless a newer write of the key is
      announced and still to be handled. */
  lemma ReadyMeansPresent(run: seq<Action>, id: nat)
    requires var w := Exec(START, run);
             id in w.table.rows && w.table.rows[id].status == Ready
    ensures var w, broken := Exec(START, run), BrokenAfter(START, {}, run);
            var key := w.table.rows[id].key;
            && (key in w.bucket <==> key !in broken)
            && (key in w.bucket ==> Awaited(w, key) || Confirmed(w.table.rows[id], w.bucket[key]))
  {
    RunKeepsAgreement(START, {}, run);
    var w := Exec(START, run);
    var key := w.table.rows[id].key;
    if key in w.bucket && !Awaited(w, key) {
      var j :| j in w.table.rows && w.table.rows[j].key == key && Confirmed(w.table.rows[j], w.bucket[key]);
      assert j == id;
    }
  }
}

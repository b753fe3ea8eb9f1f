/** What bucket, queue and table owe each other when calls interleave: the two halves of the
    agreement of module System, each under the condition it needs besides fresh slugs and
    requests for different tracks, and what a single call breaks where it is not met. */
module FineAgreement {
  import opened Wrappers
  import opened Tracks
  import opened R2
  import opened Ingest
  import opened System
  import opened Histories
  import opened Interleaving
  import Names
  import Handlers

  /** The poller has read a slug and has not used it yet. */
  predicate HoldsSlug(p: PollerAt) {
    p.Heading? || p.Marking?
  }

  // ---------------------------------------------------------------- a ready row has its object

  /** How the statement that ends a delete or a replace is answered. */
  ghost function RowReply(f: Fine, request: nat, up: bool): Reply
    requires AtRow(f, request)
  {
    ChangedRow(f.world.table, f.requests[request].slug, f.requests[request].change, up).reply
  }

  /** A replace moves the row the poller is busy with to a key that has no object, and the
      poller may still mark it ready: Head has found an object, or will be asked about
      another key. */
  ghost predicate RepointsHeldRow(f: Fine, a: FineAction) {
    && a.Proceed? && AtRow(f, a.request) && HoldsSlug(f.poller)
    && var p, q := f.poller, f.requests[a.request];
       && q.slug == p.slug && q.change.RepointRow? && RowReply(f, a.request, a.up) == Done
       && q.change.newKey !in f.world.bucket
       && (if p.Marking? then p.verdict.There? else q.change.newKey != p.key)
  }

  ghost predicate NoHeldRowMoves(f: Fine, run: seq<FineAction>)
    decreases |run|
  {
    run != [] ==> !RepointsHeldRow(f, run[0]) && NoHeldRowMoves(FineStep(f, run[0]), run[1..])
  }

  /** A request has stopped short of changing the row of `key`. */
  ghost function Abandoned(w: World, broken: set<string>, key: string): set<string> {
    if key in w.bucket then broken else broken + {key}
  }

  /** The keys that requests in flight have emptied and whose rows they have still to change. */
  ghost function Emptied(f: Fine): set<string> {
    set q | q in f.requests && AtRow(f, q) && f.requests[q].key !in f.world.bucket :: f.requests[q].key
  }

  /** History: the keys whose object a delete or a replace removed before it stopped, by a
      lost reply, a failed statement or a restart, and that nobody has written since. */
  ghost function FineMarked(f: Fine, broken: set<string>, a: FineAction): set<string> {
    match a
    case Statement(Put(key, _, _)) => broken - {key}
    case Proceed(request, removal, up) =>
      if request !in f.requests then broken
      else if f.requests[request].RemovingObject? then
        if removal == ReplyLost then broken + {f.requests[request].key} else broken
      else if RowReply(f, request, up) == Done then broken - {f.requests[request].key}
      else Abandoned(f.world, broken, f.requests[request].key)
    case Restart => broken + Emptied(f)
    case _ => broken
  }

  ghost function FineBrokenAfter(f: Fine, broken: set<string>, run: seq<FineAction>): set<string>
    decreases |run|
  {
    if run == [] then broken else FineBrokenAfter(FineStep(f, run[0]), FineMarked(f, broken, run[0]), run[1..])
  }

  /** A request in flight has emptied `key` and is about to change its row. */
  ghost predicate BeingChanged(f: Fine, key: string) {
    exists q :: AtRow(f, q) && f.requests[q].key == key
  }

  /** The object of `key` is there, or it is known why it is not. */
  ghost predicate Excused(f: Fine, broken: set<string>, key: string) {
    key in f.world.bucket || key in broken || BeingChanged(f, key)
  }

  /** A row the poller's last call would reach. */
  ghost predicate MayBecomeReady(f: Fine, broken: set<string>, key: string)
    requires HoldsSlug(f.poller)
  {
    || Excused(f, broken, key)
    || (if f.poller.Marking? then !f.poller.verdict.There? else key == f.poller.key)
  }

  /** The invariant: ready rows are excused, and so is the row the poller may make ready;
      broken keys belong to rows without an object. */
  ghost predicate ReadyKept(f: Fine, broken: set<string>) {
    var t := f.world.table;
    && (forall id :: id in t.rows && t.rows[id].status == Ready ==> Excused(f, broken, t.rows[id].key))
    && (forall k :: k in broken ==> k !in f.world.bucket && HasKey(t, k))
    && (HoldsSlug(f.poller) ==> forall id :: id in t.rows && t.rows[id].slug == f.poller.slug ==>
          MayBecomeReady(f, broken, t.rows[id].key))
  }

  lemma ExcusedKept(f: Fine, broken: set<string>, f': Fine, broken': set<string>)
    requires f.world.bucket.Keys <= f'.world.bucket.Keys && f'.requests == f.requests
    requires forall k :: k in broken ==> k in broken' || k in f'.world.bucket
    ensures forall k :: Excused(f, broken, k) ==> Excused(f', broken', k)
  {
    forall k | Excused(f, broken, k)
      ensures Excused(f', broken', k)
    {
      if BeingChanged(f, k) {
        var q :| AtRow(f, q) && f.requests[q].key == k;
        assert AtRow(f', q);
      }
    }
  }

  /** Steps that leave the bucket, the requests in flight and the rows' file columns alone. */
  lemma QuietKeepsReady(f: Fine, broken: set<string>, f': Fine)
    requires FineSound(f) && ReadyKept(f, broken)
    requires f'.world.bucket == f.world.bucket && f'.requests == f.requests && f'.poller == f.poller
    requires NoNewReady(f.world.table, f'.world.table) && Calm(f.world, f'.world)
    ensures ReadyKept(f', broken)
  {
    ExcusedKept(f, broken, f', broken);
    CalmKeepsKeys(f.world, f'.world);
  }

  lemma PutKeepsReady(f: Fine, broken: set<string>, a: FineAction)
    requires FineSound(f) && ReadyKept(f, broken) && a.Statement? && a.a.Put?
    ensures ReadyKept(FineStep(f, a), FineMarked(f, broken, a))
  {
    ExcusedKept(f, broken, FineStep(f, a), FineMarked(f, broken, a));
  }

  lemma StatementKeepsReady(f: Fine, broken: set<string>, a: Action)
    requires FineSound(f) && ReadyKept(f, broken) && FineDrawn(f, Statement(a)) !! f.world.issued
    ensures ReadyKept(FineStep(f, Statement(a)), FineMarked(f, broken, Statement(a)))
  {
    if a.Put? {
      PutKeepsReady(f, broken, Statement(a));
    } else if OneCall(a) {
      StatementIsCalm(f.world, a);
      StatementAddsNoReady(f.world, a);
      if !(a.Ack? && !f.poller.Idle?) {
        QuietKeepsReady(f, broken, FineStep(f, Statement(a)));
      }
    }
  }

  lemma StatementAddsNoReady(w: World, a: Action)
    requires Sound(w) && OneCall(a)
    ensures NoNewReady(w.table, Step(w, a).table) && FilesKept(w.table, Step(w, a).table)
  {
    if a.Upload? && a.req.Some? {
      InsertKeepsFiles(w.table, Handlers.UploadRow(a.req.value, a.calls), a.calls.rowUp);
    } else if a.Rotate? {
      UpdateKeepsFiles(w.table, a.slug, ToSlug(a.calls.slug), a.calls.rowUp);
    } else if a.Edit? && a.form.Some? {
      UpdateKeepsFiles(w.table, a.slug, Handlers.FormClause(a.form.value), a.calls.rowUp);
    }
  }

  lemma MintKeepsReady(f: Fine, broken: set<string>, e: Env)
    requires FineSound(f) && ReadyKept(f, broken) && f.poller.Minting? && e.slug !in f.world.issued
    ensures ReadyKept(PollerStep(f, e), broken)
  {
    var w, f' := f.world, PollerStep(f, e);
    var r := DiscoveredRow(e.slug, f.poller.key, Names.Base(f.poller.key), e.now);
    InsertKeepsFiles(w.table, r, e.insertUp);
    ExcusedKept(f, broken, f', broken);
    CalmKeepsKeys(w, f'.world);
  }

  lemma MarkKeepsReady(f: Fine, broken: set<string>, e: Env)
    requires FineSound(f) && ReadyKept(f, broken) && f.poller.Marking?
    ensures ReadyKept(PollerStep(f, e), broken)
  {
    var p, f' := f.poller, PollerStep(f, e);
    MarkIsCalm(f.world, p.slug, PollerClause(p, e), e.markUp);
    UpdateTableStep(f.world.table, p.slug, PollerClause(p, e), e.markUp);
    ExcusedKept(f, broken, f', broken);
    CalmKeepsKeys(f.world, f.world.(table := f'.world.table));
  }

  lemma LookKeepsReady(f: Fine, broken: set<string>, e: Env)
    requires FineSound(f) && ReadyKept(f, broken) && !f.poller.Marking? && !f.poller.Minting?
    ensures ReadyKept(PollerStep(f, e), broken)
  {
    ExcusedKept(f, broken, PollerStep(f, e), broken);
  }

  /** The statement that ends a request leaves every row alone but the one with its key. */
  lemma OtherRowsStay(f: Fine, request: nat, up: bool)
    requires FineSound(f) && Apart(f) && AtRow(f, request)
    ensures var t, t', q := f.world.table, RequestStep(f, request, Removed, up).world.table, f.requests[request];
            && (forall id :: id in t.rows && t.rows[id].key != q.key ==> id in t'.rows && t'.rows[id] == t.rows[id])
            && (forall id :: id in t'.rows ==>
                  && id in t.rows && t'.rows[id].slug == t.rows[id].slug
                  && (t'.rows[id] == t.rows[id] || t'.rows[id].status == Pending))
  {
    var q := f.requests[request];
    if q.change.RepointRow? {
      UpdateTableStep(f.world.table, q.slug, ToKey(q.change.newKey), up);
    }
  }

  /** When it takes effect, the row with the request's key is gone or has been moved. */
  lemma RowOfKeyChanged(f: Fine, request: nat, up: bool)
    requires FineSound(f) && Apart(f) && AtRow(f, request) && RowReply(f, request, up) == Done
    ensures var t, t', q := f.world.table, RequestStep(f, request, Removed, up).world.table, f.requests[request];
            && q.row in t.rows && t.rows[q.row].slug == q.slug && t.rows[q.row].key == q.key
            && (forall id :: id in t'.rows && id != q.row ==> t'.rows[id] == t.rows[id] && t.rows[id].key != q.key)
            && (q.row in t'.rows ==>
                  q.change.RepointRow? && t'.rows[q.row] == Set(t.rows[q.row], ToKey(q.change.newKey)))
  {
    var t, q := f.world.table, f.requests[request];
    assert RowWithSlug(t, q.slug) == Some(q.row);
    OtherRowsStay(f, request, up);
    if q.change.RepointRow? {
      UpdatedIsOneRow(t, q.row, ToKey(q.change.newKey));
    }
  }

  /** Afterwards no ready row has the key. */
  lemma KeyUnconfirmed(f: Fine, request: nat, up: bool)
    requires FineSound(f) && Apart(f) && AtRow(f, request) && RowReply(f, request, up) == Done
    ensures var t' := RequestStep(f, request, Removed, up).world.table;
            forall id :: id in t'.rows && t'.rows[id].key == f.requests[request].key ==> t'.rows[id].status == Pending
  {
    RowOfKeyChanged(f, request, up);
  }

  /** What was excused for another key is still. */
  lemma OthersStayExcused(f: Fine, broken: set<string>, request: nat, up: bool)
    requires AtRow(f, request)
    ensures var key := f.requests[request].key;
            forall k :: k != key && Excused(f, broken, k) ==>
              Excused(RequestStep(f, request, Removed, up), broken - {key}, k)
  {
    var key, f' := f.requests[request].key, RequestStep(f, request, Removed, up);
    forall k | k != key && Excused(f, broken, k)
      ensures Excused(f', broken - {key}, k)
    {
      if BeingChanged(f, k) {
        var q :| AtRow(f, q) && f.requests[q].key == k;
        assert q != request && AtRow(f', q);
      }
    }
  }

  lemma ReadyRowsStayExcused(f: Fine, broken: set<string>, request: nat, up: bool)
    requires FineSound(f) && Apart(f) && ReadyKept(f, broken)
    requires AtRow(f, request) && RowReply(f, request, up) == Done
    ensures var f', broken' := RequestStep(f, request, Removed, up), broken - {f.requests[request].key};
            forall id :: id in f'.world.table.rows && f'.world.table.rows[id].status == Ready ==>
              Excused(f', broken', f'.world.table.rows[id].key)
  {
    RowOfKeyChanged(f, request, up);
    OthersStayExcused(f, broken, request, up);
  }

  lemma BrokenKeysKept(f: Fine, broken: set<string>, request: nat, up: bool)
    requires FineSound(f) && Apart(f) && ReadyKept(f, broken) && AtRow(f, request)
    ensures var f' := RequestStep(f, request, Removed, up);
            forall k :: k in broken - {f.requests[request].key} ==> k !in f'.world.bucket && HasKey(f'.world.table, k)
  {
    var t, f' := f.world.table, RequestStep(f, request, Removed, up);
    OtherRowsStay(f, request, up);
    forall k | k in broken - {f.requests[request].key}
      ensures HasKey(f'.world.table, k)
    {
      var id :| id in t.rows && t.rows[id].key == k;
      assert f'.world.table.rows[id].key == k;
    }
  }

  lemma HeldRowStaysExcused(f: Fine, broken: set<string>, request: nat, up: bool, id: nat)
    requires FineSound(f) && Apart(f) && ReadyKept(f, broken) && HoldsSlug(f.poller)
    requires AtRow(f, request) && RowReply(f, request, up) == Done
    requires !RepointsHeldRow(f, Proceed(request, Removed, up))
    requires id in RequestStep(f, request, Removed, up).world.table.rows
    requires RequestStep(f, request, Removed, up).world.table.rows[id].slug == f.poller.slug
    ensures var f' := RequestStep(f, request, Removed, up);
            MayBecomeReady(f', broken - {f.requests[request].key}, f'.world.table.rows[id].key)
  {
    RowOfKeyChanged(f, request, up);
    OthersStayExcused(f, broken, request, up);
  }

  lemma RowChangeKeepsReady(f: Fine, broken: set<string>, request: nat, up: bool)
    requires FineSound(f) && Apart(f) && ReadyKept(f, broken)
    requires AtRow(f, request) && RowReply(f, request, up) == Done
    requires !RepointsHeldRow(f, Proceed(request, Removed, up))
    ensures ReadyKept(RequestStep(f, request, Removed, up), broken - {f.requests[request].key})
  {
    var f', broken' := RequestStep(f, request, Removed, up), broken - {f.requests[request].key};
    ReadyRowsStayExcused(f, broken, request, up);
    BrokenKeysKept(f, broken, request, up);
    if HoldsSlug(f.poller) {
      forall id | id in f'.world.table.rows && f'.world.table.rows[id].slug == f.poller.slug
        ensures MayBecomeReady(f', broken', f'.world.table.rows[id].key)
      {
        HeldRowStaysExcused(f, broken, request, up, id);
      }
    }
  }

  lemma RefusedStaysExcused(f: Fine, broken: set<string>, request: nat, up: bool)
    requires AtRow(f, request) && RowReply(f, request, up) != Done
    ensures var f' := RequestStep(f, request, Removed, up);
            var broken' := Abandoned(f.world, broken, f.requests[request].key);
            f'.world == f.world && forall k :: Excused(f, broken, k) ==> Excused(f', broken', k)
  {
    var key, f' := f.requests[request].key, RequestStep(f, request, Removed, up);
    OthersStayExcused(f, broken, request, up);
    assert forall k :: Excused(f', broken - {key}, k) ==> Excused(f', Abandoned(f.world, broken, key), k);
    assert Excused(f', Abandoned(f.world, broken, key), key);
  }

  lemma RefusedKeepsReady(f: Fine, broken: set<string>, request: nat, up: bool)
    requires FineSound(f) && Apart(f) && ReadyKept(f, broken)
    requires AtRow(f, request) && RowReply(f, request, up) != Done
    ensures ReadyKept(RequestStep(f, request, Removed, up), Abandoned(f.world, broken, f.requests[request].key))
  {
    RefusedStaysExcused(f, broken, request, up);
    assert HasKey(f.world.table, f.requests[request].key);
  }

  lemma RemovalStaysExcused(f: Fine, broken: set<string>, request: nat, removal: Removal, up: bool)
    requires request in f.requests && !AtRow(f, request)
    ensures var f' := RequestStep(f, request, removal, up);
            var broken' := FineMarked(f, broken, Proceed(request, removal, up));
            f'.world.table == f.world.table && forall k :: Excused(f, broken, k) ==> Excused(f', broken', k)
  {
    var key, f' := f.requests[request].key, RequestStep(f, request, removal, up);
    var broken' := FineMarked(f, broken, Proceed(request, removal, up));
    forall k | Excused(f, broken, k)
      ensures Excused(f', broken', k)
    {
      if BeingChanged(f, k) {
        var q :| AtRow(f, q) && f.requests[q].key == k;
        assert q != request && AtRow(f', q);
      } else if k == key && removal == Removed {
        assert AtRow(f', request);
      }
    }
  }

  lemma RemovalKeepsReady(f: Fine, broken: set<string>, request: nat, removal: Removal, up: bool)
    requires FineSound(f) && Apart(f) && ReadyKept(f, broken) && request in f.requests && !AtRow(f, request)
    ensures ReadyKept(RequestStep(f, request, removal, up), FineMarked(f, broken, Proceed(request, removal, up)))
  {
    RemovalStaysExcused(f, broken, request, removal, up);
    assert HasKey(f.world.table, f.requests[request].key);
  }

  lemma RequestKeepsReady(f: Fine, broken: set<string>, request: nat, removal: Removal, up: bool)
    requires FineSound(f) && Apart(f) && ReadyKept(f, broken)
    requires !RepointsHeldRow(f, Proceed(request, removal, up))
    ensures ReadyKept(RequestStep(f, request, removal, up), FineMarked(f, broken, Proceed(request, removal, up)))
  {
    if AtRow(f, request) {
      if RowReply(f, request, up) == Done {
        RowChangeKeepsReady(f, broken, request, up);
      } else {
        RefusedKeepsReady(f, broken, request, up);
      }
    } else if request in f.requests {
      RemovalKeepsReady(f, broken, request, removal, up);
    }
  }

  lemma BeginKeepsReady(f: Fine, broken: set<string>, request: nat, slug: string, up: bool, change: RowChange)
    requires ReadyKept(f, broken)
    ensures ReadyKept(BeginStep(f, request, slug, up, change), broken)
  {
    var f' := BeginStep(f, request, slug, up, change);
    forall k | Excused(f, broken, k)
      ensures Excused(f', broken, k)
    {
      if BeingChanged(f, k) {
        var q :| AtRow(f, q) && f.requests[q].key == k;
        assert AtRow(f', q);
      }
    }
  }

  lemma RestartKeepsReady(f: Fine, broken: set<string>)
    requires FineSound(f) && Apart(f) && ReadyKept(f, broken)
    ensures ReadyKept(FineStep(f, Restart), broken + Emptied(f))
  {
    var f' := FineStep(f, Restart);
    forall k | Excused(f, broken, k)
      ensures Excused(f', broken + Emptied(f), k)
    {
      if BeingChanged(f, k) {
        var q :| AtRow(f, q) && f.requests[q].key == k;
      }
    }
    forall k | k in Emptied(f)
      ensures HasKey(f.world.table, k)
    {
      var q :| q in f.requests && AtRow(f, q) && f.requests[q].key == k;
      assert f.world.table.rows[f.requests[q].row].key == k;
    }
  }

  lemma CountKeepsReady(f: Fine, broken: set<string>, request: nat, up: bool)
    requires FineSound(f) && ReadyKept(f, broken)
    ensures ReadyKept(FineStep(f, CountPlay(request, up)), broken)
  {
    if request in f.plays {
      MarkIsCalm(f.world, f.plays[request].slug, PlusOnePlay, up);
      UpdateKeepsFiles(f.world.table, f.plays[request].slug, PlusOnePlay, up);
      QuietKeepsReady(f, broken, FineStep(f, CountPlay(request, up)));
    }
  }

  lemma PollerKeepsReady(f: Fine, broken: set<string>, e: Env)
    requires FineSound(f) && ReadyKept(f, broken) && FineDrawn(f, Advance(e)) !! f.world.issued
    ensures ReadyKept(PollerStep(f, e), broken)
  {
    if f.poller.Marking? {
      MarkKeepsReady(f, broken, e);
    } else if f.poller.Minting? {
      MintKeepsReady(f, broken, e);
    } else {
      LookKeepsReady(f, broken, e);
    }
  }

  /** Calls that mark no key. */
  lemma OtherCallKeepsReady(f: Fine, broken: set<string>, a: FineAction)
    requires FineSound(f) && ReadyKept(f, broken) && FineDrawn(f, a) !! f.world.issued
    requires !a.Statement? && !a.Proceed? && !a.Restart?
    ensures ReadyKept(FineStep(f, a), broken)
  {
    if a.Advance? {
      PollerKeepsReady(f, broken, a.env);
    } else if a.CountPlay? {
      CountKeepsReady(f, broken, a.request, a.up);
    } else if a.BeginDelete? {
      BeginKeepsReady(f, broken, a.request, a.slug, a.up, DropRow);
    } else if a.BeginReplace? {
      BeginKeepsReady(f, broken, a.request, a.slug, a.up, RepointRow(Names.ObjectKey(a.slug, a.filename)));
    } else {
      ExcusedKept(f, broken, FineStep(f, a), broken);
    }
  }

  lemma FineStepKeepsReady(f: Fine, broken: set<string>, a: FineAction)
    requires FineSound(f) && Apart(f) && ReadyKept(f, broken)
    requires FineDrawn(f, a) !! f.world.issued && !RepointsHeldRow(f, a)
    ensures ReadyKept(FineStep(f, a), FineMarked(f, broken, a))
  {
    if a.Proceed? {
      RequestKeepsReady(f, broken, a.request, a.removal, a.up);
    } else if a.Statement? {
      StatementKeepsReady(f, broken, a.a);
    } else if a.Restart? {
      RestartKeepsReady(f, broken);
    } else {
      OtherCallKeepsReady(f, broken, a);
    }
  }

  lemma {:induction false} FineRunKeepsReady(f: Fine, broken: set<string>, run: seq<FineAction>)
    requires FineSound(f) && Apart(f) && ReadyKept(f, broken)
    requires FreshSlugsOnly(f, run) && NoOverlap(f, run) && NoHeldRowMoves(f, run)
    ensures ReadyKept(FineExec(f, run), FineBrokenAfter(f, broken, run))
    decreases |run|
  {
    if run != [] {
      FineStepSound(f, run[0]);
      FineStepKeepsApart(f, run[0]);
      FineStepKeepsReady(f, broken, run[0]);
      FineRunKeepsReady(FineStep(f, run[0]), FineMarked(f, broken, run[0]), run[1..]);
    }
  }

  /** Under every interleaving of requests for different tracks in which no replace moves the
      row the poller may still make ready to a key without an object, with any failure and
      any restart: a ready row has its object, or its key is marked broken, or a request in
      flight is about to change the row of that key. No broken key has an object. */
  lemma FineReadyMeansPresent(run: seq<FineAction>, id: nat)
    requires FreshSlugsOnly(FINE_START, run) && NoOverlap(FINE_START, run) && NoHeldRowMoves(FINE_START, run)
    requires var w := FineExec(FINE_START, run).world;
             id in w.table.rows && w.table.rows[id].status == Ready
    ensures var f, broken := FineExec(FINE_START, run), FineBrokenAfter(FINE_START, {}, run);
            var key := f.world.table.rows[id].key;
            && (key in broken ==> key !in f.world.bucket)
            && (key !in f.world.bucket ==> key in broken || BeingChanged(f, key))
  {
    FineRunKeepsReady(FINE_START, {}, run);
  }

  // ---------------------------------------------------------------- no work is lost

  /** The poller's last call may be the one that confirms the object. */
  predicate MayConfirm(p: PollerAt) {
    p.Heading? || (p.Marking? && p.verdict.There?)
  }

  /** A rotate takes the slug from the row the poller may be about to confirm. */
  ghost predicate RotatesHeldSlug(f: Fine, a: FineAction) {
    && a.Statement? && a.a.Rotate? && MayConfirm(f.poller) && a.a.slug == f.poller.slug
    && Update(f.world.table, a.a.slug, ToSlug(a.a.calls.slug), a.a.calls.rowUp).reply == Done
  }

  ghost predicate WorkIsSafe(f: Fine, run: seq<FineAction>)
    decreases |run|
  {
    run != [] ==>
      && !WritesRemovedKey(f, run[0]) && !RotatesHeldSlug(f, run[0])
      && WorkIsSafe(FineStep(f, run[0]), run[1..])
  }

  /** The object of `key` is announced and not handled, or its row is ready with its metadata. */
  ghost predicate Accounted(w: World, key: string)
    requires key in w.bucket
  {
    Awaited(w, key) || HasConfirmed(w.table, key, w.bucket[key])
  }

  ghost predicate AllAccounted(w: World) {
    forall k :: k in w.bucket ==> Accounted(w, k)
  }

  /** The row the poller read is still there, with the key and the slug read. */
  ghost predicate RowHeld(f: Fine)
    requires HoldsSlug(f.poller)
  {
    var t, p := f.world.table, f.poller;
    p.row in t.rows && t.rows[p.row].slug == p.slug && t.rows[p.row].key == p.key
  }

  /** Unless another event is left for its key, the poller's last call confirms the object,
      reaching the row with what Head has seen, or leaves its event for retry. */
  ghost predicate WillConfirm(f: Fine) {
    var w, p := f.world, f.poller;
    HoldsSlug(p) && p.key in w.bucket && !AwaitedBesides(w, p.key, p.id) ==>
      && (p.Marking? ==> p.verdict.Unclear? || p.verdict == There(w.bucket[p.key]))
      && (MayConfirm(p) ==> RowHeld(f))
  }

  /** The poller's last call takes no ready row of another key. */
  ghost predicate SparesOthers(f: Fine) {
    var t, p := f.world.table, f.poller;
    HoldsSlug(p) ==> forall id :: id in t.rows && t.rows[id].slug == p.slug && t.rows[id].key != p.key ==>
                       t.rows[id].status != Ready
  }

  ghost predicate WorkKept(f: Fine) {
    && AllAccounted(f.world)
    && WillConfirm(f)
    && SparesOthers(f)
    && (forall q :: AtRow(f, q) ==> f.requests[q].key !in f.world.bucket)
  }

  /** Rows keep their key, status and metadata, the row to be confirmed its slug; no old slug
      comes back; no event goes or is newly handled; no object is new. */
  ghost predicate Undisturbed(f: Fine, f': Fine) {
    var w, w' := f.world, f'.world;
    && Calm(w, w') && FilesKept(w.table, w'.table) && NoNewReady(w.table, w'.table)
    && w'.bucket == w.bucket
    && (forall id :: id in w.queue && id !in w.handled ==>
          id in w'.queue && id !in w'.handled && w'.queue[id] == w.queue[id])
    && (MayConfirm(f.poller) ==> forall id :: id in w.table.rows && w.table.rows[id].slug == f.poller.slug ==>
          w'.table.rows[id].slug == f.poller.slug)
  }

  lemma UndisturbedKeepsAccounts(w: World, w': World)
    requires AllAccounted(w) && w'.bucket == w.bucket && FilesKept(w.table, w'.table)
    requires forall id :: id in w.queue && id !in w.handled ==>
               id in w'.queue && id !in w'.handled && w'.queue[id] == w.queue[id]
    ensures AllAccounted(w')
  {
    forall k | k in w'.bucket
      ensures Accounted(w', k)
    {
      if Awaited(w, k) {
        var id :| id in w.queue && id !in w.handled && Creates(w.queue[id], k);
        assert id in w'.queue && id !in w'.handled && Creates(w'.queue[id], k);
      } else {
        var id :| id in w.table.rows && w.table.rows[id].key == k && Confirmed(w.table.rows[id], w.bucket[k]);
        assert w'.table.rows[id].key == k && Confirmed(w'.table.rows[id], w.bucket[k]);
      }
    }
  }

  lemma BesidesKept(w: World, w': World, key: string, id: nat)
    requires forall m :: m in w.queue && m !in w.handled ==>
               m in w'.queue && m !in w'.handled && w'.queue[m] == w.queue[m]
    ensures AwaitedBesides(w, key, id) ==> AwaitedBesides(w', key, id)
  {
    if AwaitedBesides(w, key, id) {
      var m :| m != id && m in w.queue && m !in w.handled && Creates(w.queue[m], key);
      assert m in w'.queue && m !in w'.handled && Creates(w'.queue[m], key);
    }
  }

  lemma UndisturbedKeepsWork(f: Fine, f': Fine)
    requires FineSound(f) && WorkKept(f) && Undisturbed(f, f')
    requires f'.poller == f.poller && f'.requests == f.requests
    ensures WorkKept(f')
  {
    UndisturbedKeepsAccounts(f.world, f'.world);
    assert forall q :: AtRow(f', q) ==> AtRow(f, q);
    if HoldsSlug(f.poller) {
      BesidesKept(f.world, f'.world, f.poller.key, f.poller.id);
      assert SparesOthers(f');
    }
  }

  lemma PutKeepsWork(f: Fine, a: FineAction)
    requires FineSound(f) && WorkKept(f) && !WritesRemovedKey(f, a)
    requires a.Statement? && a.a.Put?
    ensures WorkKept(FineStep(f, a))
  {
    var w, f', key := f.world, FineStep(f, a), a.a.key;
    var w', added := f'.world, w.nextMessage;
    assert added in w'.queue && added !in w'.handled && Creates(w'.queue[added], key);
    forall k | k in w'.bucket
      ensures Accounted(w', k)
    {
      if k != key && Awaited(w, k) {
        var id :| id in w.queue && id !in w.handled && Creates(w.queue[id], k);
        assert id in w'.queue && id !in w'.handled && Creates(w'.queue[id], k);
      }
    }
    if HoldsSlug(f.poller) {
      BesidesKept(w, w', f.poller.key, f.poller.id);
      assert f.poller.id != added;
      assert f.poller.key == key ==> AwaitedBesides(w', key, f.poller.id);
    }
  }

  lemma RotateSparesHeldRow(f: Fine, a: Action)
    requires FineSound(f) && a.Rotate? && !RotatesHeldSlug(f, Statement(a))
    requires FineDrawn(f, Statement(a)) !! f.world.issued
    ensures Undisturbed(f, FineStep(f, Statement(a)))
  {
    StatementIsCalm(f.world, a);
    StatementAddsNoReady(f.world, a);
    UpdateTableStep(f.world.table, a.slug, ToSlug(a.calls.slug), a.calls.rowUp);
  }

  lemma EditSparesHeldRow(f: Fine, a: Action)
    requires FineSound(f) && a.Edit?
    ensures Undisturbed(f, FineStep(f, Statement(a)))
  {
    StatementIsCalm(f.world, a);
    StatementAddsNoReady(f.world, a);
    if a.form.Some? {
      UpdateKeepsSlugs(f.world.table, a.slug, Handlers.FormClause(a.form.value), a.calls.rowUp);
    }
  }

  lemma UploadSparesHeldRow(f: Fine, a: Action)
    requires FineSound(f) && a.Upload? && FineDrawn(f, Statement(a)) !! f.world.issued
    ensures Undisturbed(f, FineStep(f, Statement(a)))
  {
    StatementIsCalm(f.world, a);
    StatementAddsNoReady(f.world, a);
  }

  lemma StatementKeepsWork(f: Fine, a: Action)
    requires FineSound(f) && WorkKept(f) && FineDrawn(f, Statement(a)) !! f.world.issued
    requires !WritesRemovedKey(f, Statement(a)) && !RotatesHeldSlug(f, Statement(a))
    ensures WorkKept(FineStep(f, Statement(a)))
  {
    var f' := FineStep(f, Statement(a));
    if a.Put? {
      PutKeepsWork(f, Statement(a));
    } else if OneCall(a) && f' != f {
      if a.Rotate? {
        RotateSparesHeldRow(f, a);
      } else if a.Edit? {
        EditSparesHeldRow(f, a);
      } else if a.Upload? {
        UploadSparesHeldRow(f, a);
      }
      UndisturbedKeepsWork(f, f');
    }
  }

  /** The poller's last call. */
  lemma MarkKeepsWork(f: Fine, e: Env)
    requires FineSound(f) && WorkKept(f) && f.poller.Marking?
    ensures WorkKept(PollerStep(f, e))
  {
    var w, p, w' := f.world, f.poller, PollerStep(f, e).world;
    var clause := if p.verdict.There? then ToReady(p.verdict.meta, e.now) else ToFailed;
    UpdateTableStep(w.table, p.slug, clause, e.markUp);
    forall k | k in w'.bucket
      ensures Accounted(w', k)
    {
      if k == p.key {
        MarkAccountsForKey(f, e);
      } else if Awaited(w, k) {
        var id :| id in w.queue && id !in w.handled && Creates(w.queue[id], k);
        assert id != p.id && id !in w'.handled && Creates(w'.queue[id], k);
      } else {
        var id :| id in w.table.rows && w.table.rows[id].key == k && Confirmed(w.table.rows[id], w.bucket[k]);
        assert w.table.rows[id].slug != p.slug && w'.table.rows[id] == w.table.rows[id];
      }
    }
  }

  lemma MarkAccountsForKey(f: Fine, e: Env)
    requires FineSound(f) && WorkKept(f) && f.poller.Marking? && f.poller.key in f.world.bucket
    ensures Accounted(PollerStep(f, e).world, f.poller.key)
  {
    var w, p, w' := f.world, f.poller, PollerStep(f, e).world;
    if AwaitedBesides(w, p.key, p.id) {
      var m :| m != p.id && m in w.queue && m !in w.handled && Creates(w.queue[m], p.key);
      assert m in w'.queue && m !in w'.handled && Creates(w'.queue[m], p.key);
    } else if p.id in w'.handled {
      assert HasSlug(w.table, p.slug);
      UpdatedIsOneRow(w.table, p.row, ToReady(p.verdict.meta, e.now));
      assert w'.table.rows[p.row].key == p.key && Confirmed(w'.table.rows[p.row], p.verdict.meta);
    } else {
      assert Creates(w'.queue[p.id], p.key);
    }
  }

  lemma MintKeepsWork(f: Fine, e: Env)
    requires FineSound(f) && WorkKept(f) && f.poller.Minting? && e.slug !in f.world.issued
    ensures WorkKept(PollerStep(f, e))
  {
    var w, f' := f.world, PollerStep(f, e);
    InsertKeepsFiles(w.table, DiscoveredRow(e.slug, f.poller.key, Names.Base(f.poller.key), e.now), e.insertUp);
    UndisturbedKeepsAccounts(w, f'.world);
  }

  lemma LookKeepsWork(f: Fine, e: Env)
    requires FineSound(f) && WorkKept(f) && !f.poller.Marking? && !f.poller.Minting?
    ensures WorkKept(PollerStep(f, e))
  {
    var f' := PollerStep(f, e);
    assert f'.world == f.world;
    if HoldsSlug(f'.poller) {
      assert f'.poller.key in f.world.bucket && !AwaitedBesides(f.world, f'.poller.key, f'.poller.id) ==> RowHeld(f');
    }
  }

  lemma RowChangeKeepsWork(f: Fine, request: nat, up: bool)
    requires FineSound(f) && Apart(f) && WorkKept(f) && AtRow(f, request)
    ensures WorkKept(RequestStep(f, request, Removed, up))
  {
    var w, f' := f.world, RequestStep(f, request, Removed, up);
    OtherRowsStay(f, request, up);
    OtherRowsStayAccounted(f, request, up);
    forall k | k in f'.world.bucket
      ensures Accounted(f'.world, k)
    {
      assert k != f.requests[request].key;
    }
    assert forall q :: AtRow(f', q) ==> AtRow(f, q);
    if HoldsSlug(f.poller) {
      BesidesKept(w, f'.world, f.poller.key, f.poller.id);
    }
  }

  /** Objects of other keys stay accounted for. */
  lemma OtherRowsStayAccounted(f: Fine, request: nat, up: bool)
    requires FineSound(f) && Apart(f) && AllAccounted(f.world) && AtRow(f, request)
    ensures var w' := RequestStep(f, request, Removed, up).world;
            forall k :: k in w'.bucket && k != f.requests[request].key ==> Accounted(w', k)
  {
    var w, w' := f.world, RequestStep(f, request, Removed, up).world;
    OtherRowsStay(f, request, up);
    forall k | k in w'.bucket && k != f.requests[request].key
      ensures Accounted(w', k)
    {
      if Awaited(w, k) {
        var id :| id in w.queue && id !in w.handled && Creates(w.queue[id], k);
        assert id in w'.queue && id !in w'.handled && Creates(w'.queue[id], k);
      } else {
        var id :| id in w.table.rows && w.table.rows[id].key == k && Confirmed(w.table.rows[id], w.bucket[k]);
        assert w'.table.rows[id] == w.table.rows[id];
      }
    }
  }

  lemma RemovalKeepsWork(f: Fine, request: nat, removal: Removal, up: bool)
    requires FineSound(f) && WorkKept(f) && !AtRow(f, request)
    ensures WorkKept(RequestStep(f, request, removal, up))
  {
    var w, f' := f.world, RequestStep(f, request, removal, up);
    forall k | k in f'.world.bucket
      ensures Accounted(f'.world, k)
    {
      assert Accounted(w, k);
    }
    assert forall q :: AtRow(f', q) ==> AtRow(f, q) || q == request;
    if HoldsSlug(f.poller) {
      BesidesKept(w, f'.world, f.poller.key, f.poller.id);
    }
  }

  lemma BeginKeepsWork(f: Fine, request: nat, slug: string, up: bool, change: RowChange)
    requires WorkKept(f)
    ensures WorkKept(BeginStep(f, request, slug, up, change))
  {
    assert forall q :: AtRow(BeginStep(f, request, slug, up, change), q) ==> AtRow(f, q);
  }

  lemma BeginPlayKeepsWork(f: Fine, request: nat, slug: string, c: Handlers.Calls)
    requires WorkKept(f)
    ensures WorkKept(FineStep(f, BeginPlay(request, slug, c)))
  {
    assert forall q :: AtRow(FineStep(f, BeginPlay(request, slug, c)), q) ==> AtRow(f, q);
  }

  lemma CountKeepsWork(f: Fine, request: nat, up: bool)
    requires FineSound(f) && WorkKept(f)
    ensures WorkKept(FineStep(f, CountPlay(request, up)))
  {
    if request in f.plays {
      var slug := f.plays[request].slug;
      MarkIsCalm(f.world, slug, PlusOnePlay, up);
      UpdateKeepsFiles(f.world.table, slug, PlusOnePlay, up);
      UpdateKeepsSlugs(f.world.table, slug, PlusOnePlay, up);
      UndisturbedKeepsWork(f, FineStep(f, CountPlay(request, up)));
    }
  }

  lemma FetchKeepsWork(f: Fine, id: nat)
    requires FineSound(f) && WorkKept(f)
    ensures WorkKept(FineStep(f, Fetch(id)))
  {
    var w, w' := f.world, FineStep(f, Fetch(id)).world;
    forall k | k in w'.bucket
      ensures Accounted(w', k)
    {
      if Awaited(w, k) {
        var m :| m in w.queue && m !in w.handled && Creates(w.queue[m], k);
        assert m in w'.queue && m !in w'.handled && Creates(w'.queue[m], k);
      }
    }
  }

  lemma FineStepKeepsWork(f: Fine, a: FineAction)
    requires FineSound(f) && Apart(f) && WorkKept(f) && FineDrawn(f, a) !! f.world.issued
    requires !WritesRemovedKey(f, a) && !RotatesHeldSlug(f, a)
    ensures WorkKept(FineStep(f, a))
  {
    match a
    case Fetch(id) => FetchKeepsWork(f, id);
    case Advance(e) =>
      if f.poller.Marking? {
        MarkKeepsWork(f, e);
      } else if f.poller.Minting? {
        MintKeepsWork(f, e);
      } else {
        LookKeepsWork(f, e);
      }
    case BeginDelete(request, slug, up) => BeginKeepsWork(f, request, slug, up, DropRow);
    case BeginReplace(request, slug, file, up) =>
      BeginKeepsWork(f, request, slug, up, RepointRow(Names.ObjectKey(slug, file)));
    case Proceed(request, removal, up) =>
      if AtRow(f, request) {
        RowChangeKeepsWork(f, request, up);
      } else {
        RemovalKeepsWork(f, request, removal, up);
      }
    case Statement(s) => StatementKeepsWork(f, s);
    case CountPlay(request, up) => CountKeepsWork(f, request, up);
    case BeginPlay(request, slug, c) => BeginPlayKeepsWork(f, request, slug, c);
    case Restart => UndisturbedKeepsAccounts(f.world, FineStep(f, a).world);
  }

  lemma {:induction false} FineRunKeepsWork(f: Fine, run: seq<FineAction>)
    requires FineSound(f) && Apart(f) && WorkKept(f)
    requires FreshSlugsOnly(f, run) && NoOverlap(f, run) && WorkIsSafe(f, run)
    ensures WorkKept(FineExec(f, run))
    decreases |run|
  {
    if run != [] {
      FineStepSound(f, run[0]);
      FineStepKeepsApart(f, run[0]);
      FineStepKeepsWork(f, run[0]);
      FineRunKeepsWork(FineStep(f, run[0]), run[1..]);
    }
  }

  /** Under every interleaving of requests for different tracks in which no rotate takes the
      slug from the row the poller may be about to confirm and nobody writes a key between
      its removal and the change of its row, with any failure and any restart: every object
      has a create event still to be handled, or a ready row with its own metadata.
      Replacements and deletions may fall anywhere. */
  lemma FineNoWorkIsLost(run: seq<FineAction>, key: string)
    requires FreshSlugsOnly(FINE_START, run) && NoOverlap(FINE_START, run) && WorkIsSafe(FINE_START, run)
    requires key in FineExec(FINE_START, run).world.bucket
    ensures var w := FineExec(FINE_START, run).world;
            Awaited(w, key) || HasConfirmed(w.table, key, w.bucket[key])
  {
    FineRunKeepsWork(FINE_START, run);
  }

  // ---------------------------------------------------------------- both halves together

  /** What an interleaved run owes when no request is between its removal and its row. */
  lemma FineAgrees(run: seq<FineAction>)
    requires FreshSlugsOnly(FINE_START, run) && NoOverlap(FINE_START, run)
    requires NoHeldRowMoves(FINE_START, run) && WorkIsSafe(FINE_START, run)
    requires forall q :: !AtRow(FineExec(FINE_START, run), q)
    ensures var f := FineExec(FINE_START, run);
            Sound(f.world) && Agree(f.world, FineBrokenAfter(FINE_START, {}, run))
  {
    FineRunSound(FINE_START, run);
    FineRunKeepsReady(FINE_START, {}, run);
    FineRunKeepsWork(FINE_START, run);
  }

  /** Under both conditions, when no create event is left to handle and no request is about to
      change its row, the three stores agree, however the calls were interleaved. */
  lemma InterleavedStoresAgree(run: seq<FineAction>)
    requires FreshSlugsOnly(FINE_START, run) && NoOverlap(FINE_START, run)
    requires NoHeldRowMoves(FINE_START, run) && WorkIsSafe(FINE_START, run)
    requires var f := FineExec(FINE_START, run);
             (forall k :: !Awaited(f.world, k)) && forall q :: !AtRow(f, q)
    ensures StoresAgree(FineExec(FINE_START, run).world, FineBrokenAfter(FINE_START, {}, run))
  {
    FineAgrees(run);
    AgreeWhenDrained(FineExec(FINE_START, run).world, FineBrokenAfter(FINE_START, {}, run));
  }

  // ---------------------------------------------------------------- what breaks it

  /** The poller makes the rest of its calls with its message, all answered. */
  ghost function Finished(f: Fine, e: Env): Fine
    requires HoldsSlug(f.poller)
  {
    if f.poller.Heading? then PollerStep(PollerStep(f, e), e) else PollerStep(f, e)
  }

  /** A rotate of the slug the poller holds, followed by the poller's remaining calls, leaves
      the object unaccounted for exactly when no other event was left for its key and no
      ready row had its metadata already: the confirmation misses, and its event counts as
      handled. */
  lemma RotateLosesWorkIff(f: Fine, c: Handlers.Calls, e: Env)
    requires FineSound(f) && HoldsSlug(f.poller) && f.poller.key in f.world.bucket
    requires f.poller.Marking? ==> !f.poller.verdict.Unclear?
    requires HasSlug(f.world.table, f.poller.slug) && c.rowUp && c.slug !in f.world.issued
    requires e.headUp && e.markUp
    ensures var p, w := f.poller, f.world;
            var w' := Finished(FineStep(f, Statement(Rotate(p.slug, c))), e).world;
            && w'.bucket == w.bucket
            && (!Accounted(w', p.key) <==>
                  !AwaitedBesides(w, p.key, p.id) && !HasConfirmed(w.table, p.key, w.bucket[p.key]))
  {
    var p, w := f.poller, f.world;
    var rotate := Rotate(p.slug, c);
    var f1 := FineStep(f, Statement(rotate));
    RotateFreesSlug(w, p.slug, c);
    FinishMisses(f1, e);
    ConfirmedKept(w.table, f1.world.table, p.key, w.bucket[p.key]);
    OthersAwaited(w, Finished(f1, e).world, p.key, p.id);
  }

  /** The slug names no row any more: the poller's remaining calls change no row, and its
      event counts as handled. */
  lemma FinishMisses(f: Fine, e: Env)
    requires HoldsSlug(f.poller) && f.poller.key in f.world.bucket && !HasSlug(f.world.table, f.poller.slug)
    requires f.poller.Marking? ==> !f.poller.verdict.Unclear?
    requires e.headUp && e.markUp
    ensures Finished(f, e).world == f.world.(handled := f.world.handled + {f.poller.id})
  {
  }

  lemma OthersAwaited(w: World, w': World, key: string, id: nat)
    requires w'.queue == w.queue && w'.handled == w.handled + {id}
    ensures Awaited(w', key) <==> AwaitedBesides(w, key, id)
  {
    if Awaited(w', key) {
      var m :| m in w'.queue && m !in w'.handled && Creates(w'.queue[m], key);
      assert m != id && m in w.queue && m !in w.handled;
    }
    if AwaitedBesides(w, key, id) {
      var m :| m != id && m in w.queue && m !in w.handled && Creates(w.queue[m], key);
      assert m in w'.queue && m !in w'.handled && Creates(w'.queue[m], key);
    }
  }

  lemma RotateFreesSlug(w: World, slug: string, c: Handlers.Calls)
    requires Sound(w) && SlugsIssued(w) && HasSlug(w.table, slug) && c.rowUp && c.slug !in w.issued
    ensures var t' := Step(w, Rotate(slug, c)).table;
            && !HasSlug(t', slug)
            && FilesKept(w.table, t') && t'.rows.Keys == w.table.rows.Keys
  {
    var id := RowWithSlug(w.table, slug).value;
    assert w.table.rows[id].slug in w.issued;
    assert !HasSlug(w.table, c.slug);
    RotateMovesTheLink(w.table, slug, c.slug, c.rowUp);
    UpdateKeepsFiles(w.table, slug, ToSlug(c.slug), c.rowUp);
    UpdateTableStep(w.table, slug, ToSlug(c.slug), c.rowUp);
  }

  lemma ConfirmedKept(t: Table, t': Table, key: string, m: Meta)
    requires FilesKept(t, t') && t'.rows.Keys == t.rows.Keys
    ensures HasConfirmed(t', key, m) <==> HasConfirmed(t, key, m)
  {
    if HasConfirmed(t, key, m) {
      var id :| id in t.rows && t.rows[id].key == key && Confirmed(t.rows[id], m);
      assert t'.rows[id].key == key && Confirmed(t'.rows[id], m);
    }
  }

  /** Where every object is accounted for, the statement that ends a delete or a replace
      leaves one unaccounted for exactly when it takes effect, the key of the row it changes
      has an object (written again, or by an overlapping request) and no event of that write
      is left. */
  lemma RowChangeLosesWorkIff(f: Fine, request: nat, up: bool)
    requires FineSound(f) && AllAccounted(f.world) && AtRow(f, request)
    ensures AllAccounted(RequestStep(f, request, Removed, up).world) <==>
              || RowReply(f, request, up) != Done
              || var t := f.world.table;
                 var key := t.rows[RowWithSlug(t, f.requests[request].slug).value].key;
                 key !in f.world.bucket || Awaited(f.world, key)
  {
    var w, w' := f.world, RequestStep(f, request, Removed, up).world;
    if RowReply(f, request, up) == Done {
      var row := RowWithSlug(w.table, f.requests[request].slug).value;
      NamedRowChanged(f, request, up);
      forall k | k in w.bucket && k != w.table.rows[row].key
        ensures Accounted(w', k)
      {
        if Awaited(w, k) {
          var id :| id in w.queue && id !in w.handled && Creates(w.queue[id], k);
          assert id in w'.queue && id !in w'.handled && Creates(w'.queue[id], k);
        } else {
          var id :| id in w.table.rows && w.table.rows[id].key == k && Confirmed(w.table.rows[id], w.bucket[k]);
          assert w'.table.rows[id] == w.table.rows[id];
        }
      }
      var key := w.table.rows[row].key;
      assert key in w.bucket ==> (Accounted(w', key) <==> Awaited(w, key));
    } else {
      assert w'.table == w.table;
    }
  }

  /** The statement changes the row its slug names and no other; afterwards no ready row has
      that row's key. */
  lemma NamedRowChanged(f: Fine, request: nat, up: bool)
    requires FineSound(f) && AtRow(f, request) && RowReply(f, request, up) == Done
    ensures var t, t' := f.world.table, RequestStep(f, request, Removed, up).world.table;
            var row := RowWithSlug(t, f.requests[request].slug).value;
            && (forall id :: id in t.rows && id != row ==> id in t'.rows && t'.rows[id] == t.rows[id])
            && (forall id :: id in t'.rows && t'.rows[id].key == t.rows[row].key ==> t'.rows[id].status == Pending)
  {
    var t, q := f.world.table, f.requests[request];
    if q.change.RepointRow? {
      UpdatedIsOneRow(t, RowWithSlug(t, q.slug).value, ToKey(q.change.newKey));
    }
  }

  /** What a replace of the row the poller is busy with breaks: once its UPDATE has taken
      effect and the poller has made its remaining calls, all answered, the row is ready
      without an object exactly when the new key has none and the poller has found the old
      object, or finds it because the old key has been written again. */
  lemma RepointBreaksIff(f: Fine, request: nat, e: Env)
    requires FineSound(f) && HoldsSlug(f.poller) && AtRow(f, request)
    requires var q := f.requests[request];
             q.change.RepointRow? && q.slug == f.poller.slug && RowReply(f, request, true) == Done
    requires e.headUp && e.markUp
    ensures var p, q, w := f.poller, f.requests[request], f.world;
            var row := RowWithSlug(w.table, p.slug).value;
            var w' := Finished(RequestStep(f, request, Removed, true), e).world;
            && row in w'.table.rows && w'.table.rows[row].key == q.change.newKey && w'.bucket == w.bucket
            && (w'.table.rows[row].status == Ready && q.change.newKey !in w'.bucket <==>
                  && q.change.newKey !in w.bucket
                  && (if p.Marking? then p.verdict.There? else p.key in w.bucket))
  {
    var t, newKey := f.world.table, f.requests[request].change.newKey;
    var row, f1 := RowWithSlug(t, f.poller.slug).value, RequestStep(f, request, Removed, true);
    UpdatedIsOneRow(t, row, ToKey(newKey));
    RowChangeSound(f, request, true);
    assert f1.world.table.rows[row].slug == f.poller.slug;
    FinishMarks(f1, row, e);
  }

  /** The poller's remaining calls, all answered, mark the row its slug names. */
  lemma FinishMarks(f: Fine, row: nat, e: Env)
    requires FineSound(f) && HoldsSlug(f.poller) && e.headUp && e.markUp
    requires row in f.world.table.rows && f.world.table.rows[row].slug == f.poller.slug
    ensures var p, t, w' := f.poller, f.world.table, Finished(f, e).world;
            && w'.bucket == f.world.bucket && row in w'.table.rows
            && w'.table.rows[row].key == t.rows[row].key
            && w'.table.rows[row].status ==
                 if (if p.Marking? then p.verdict.There? else p.key in f.world.bucket) then Ready else Failed
  {
    var p := if f.poller.Marking? then f.poller else PollerStep(f, e).poller;
    assert HasSlug(f.world.table, p.slug);
    UpdatedIsOneRow(f.world.table, row, PollerClause(p, e));
  }
}

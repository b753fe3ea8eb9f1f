/** What the code does not promise: runs from the empty system in which a promise one
    might expect fails, next to the conditions under which it holds. */
module Limits {
  import opened Wrappers
  import opened Tracks
  import opened R2
  import opened Ingest
  import opened System
  import opened Interleaving
  import opened FineAgreement
  import Names
  import Handlers
  import Answers

  // ---------------------------------------------------------------- stale events

  /** A create event adds a row exactly when no row has its key; the row is made before the
      object is looked for, so an event whose object is gone leaves a failed track behind. */
  lemma EventAddsRowIff(bucket: Bucket, t: Table, key: string, e: Env)
    requires Valid(t) && AllUp(e) && !HasSlug(t, e.slug)
    ensures var t' := IngestObject(bucket, t, key, e).table;
            && (t'.rows.Keys != t.rows.Keys <==> !HasKey(t, key))
            && (!HasKey(t, key) ==>
                  && t'.rows.Keys == t.rows.Keys + {t.next}
                  && t'.rows[t.next].title == Names.Base(key)
                  && (t'.rows[t.next].status == Failed <==> key !in bucket))
  {
    var t' := IngestObject(bucket, t, key, e).table;
    IngestStaysWithinKey(bucket, t, key, e);
    AnsweredIngestSettles(bucket, t, key, e);
    assert t.next !in t.rows;
    if HasKey(t, key) {
      assert t'.rows.Keys == t.rows.Keys;
    } else {
      assert t'.rows.Keys == t.rows.Keys + {t.next};
    }
  }

  // ---------------------------------------------------------------- runs, step by step

  ghost predicate Reaches(f: Fine, run: seq<FineAction>, g: Fine) {
    FreshSlugsOnly(f, run) && FineExec(f, run) == g
  }

  lemma Prepend(f: Fine, a: FineAction, rest: seq<FineAction>, g: Fine)
    requires Reaches(FineStep(f, a), rest, g) && FineDrawn(f, a) !! f.world.issued
    ensures Reaches(f, [a] + rest, g)
    ensures NoWriteInFlight(FineStep(f, a), rest) && !WritesLeavingKey(f, a) ==> NoWriteInFlight(f, [a] + rest)
  {
  }

  const META := Meta("audio/mpeg", 1)

  /** Every call is answered; `slug` is drawn. */
  function Calls(slug: string): Handlers.Calls {
    Handlers.Calls(true, Removed, true, true, slug, 0)
  }

  function Answering(slug: string): Env {
    Env(true, true, true, true, slug, 0)
  }

  function UploadOf(slug: string, file: string): Action {
    Upload(Some(Handlers.UploadRequest("title", file, None, false, "")), Calls(slug))
  }

  function RowOf(slug: string, file: string): Track {
    PendingRow(slug, Names.ObjectKey(slug, file), "title", None, false, "", 0)
  }

  /** One upload has been requested and nothing else has happened. */
  function Requested(slug: string, file: string): World {
    World(map[], map[], {}, Table(map[0 := RowOf(slug, file)], 1), {slug}, 0)
  }

  /** Then the file was written. */
  function Written(slug: string, file: string): World {
    var key := Names.ObjectKey(slug, file);
    Requested(slug, file).(bucket := map[key := META], queue := map[0 := Event("PutObject", key)], nextMessage := 1)
  }

  lemma UploadIsRequested(slug: string, file: string)
    ensures FineStep(FINE_START, Statement(UploadOf(slug, file))) == Quiet(Requested(slug, file))
  {
  }

  lemma PutIsWritten(slug: string, file: string)
    ensures FineStep(Quiet(Requested(slug, file)),
                     Statement(Put(Names.ObjectKey(slug, file), META, Single))) ==
            Quiet(Written(slug, file))
  {
  }

  lemma OnlyRow(slug: string, file: string)
    ensures Valid(Requested(slug, file).table)
    ensures RowWithSlug(Requested(slug, file).table, slug) == Some(0)
    ensures RowWithKey(Requested(slug, file).table, Names.ObjectKey(slug, file)) == Some(0)
  {
    var t := Requested(slug, file).table;
    assert t.rows[0].slug == slug && t.rows[0].key == Names.ObjectKey(slug, file);
  }

  /** An upload, its write, and the poller up to its Head. */
  function HeadingRun(slug: string, file: string, rest: seq<FineAction>): seq<FineAction> {
    [Statement(UploadOf(slug, file))]
    + ([Statement(Put(Names.ObjectKey(slug, file), META, Single))]
       + ([Fetch(0)] + ([Advance(Answering(slug))] + rest)))
  }

  function HeadingAt(slug: string, file: string): Fine {
    Quiet(Written(slug, file)).(poller := Heading(0, Names.ObjectKey(slug, file), slug, 0))
  }

  lemma ReachHeading(slug: string, file: string, rest: seq<FineAction>, g: Fine)
    requires Reaches(HeadingAt(slug, file), rest, g)
    ensures Reaches(FINE_START, HeadingRun(slug, file, rest), g)
    ensures NoWriteInFlight(HeadingAt(slug, file), rest) ==> NoWriteInFlight(FINE_START, HeadingRun(slug, file, rest))
  {
    var key, e := Names.ObjectKey(slug, file), Answering(slug);
    OnlyRow(slug, file);
    UploadIsRequested(slug, file);
    PutIsWritten(slug, file);
    var f2 := Quiet(Written(slug, file));
    var f3 := FineStep(f2, Fetch(0));
    assert f3 == f2.(poller := Looking(0, key));
    assert FineStep(f3, Advance(e)) == HeadingAt(slug, file);
    Prepend(f3, Advance(e), rest, g);
    Prepend(f2, Fetch(0), [Advance(e)] + rest, g);
    var put := Statement(Put(key, META, Single));
    Prepend(Quiet(Requested(slug, file)), put, [Fetch(0)] + ([Advance(e)] + rest), g);
    Prepend(FINE_START, Statement(UploadOf(slug, file)), [put] + ([Fetch(0)] + ([Advance(e)] + rest)), g);
  }

  /** The same up to the call that marks the row ready. */
  function ConfirmingRun(slug: string, file: string, rest: seq<FineAction>): seq<FineAction> {
    HeadingRun(slug, file, [Advance(Answering(slug))] + rest)
  }

  function Confirming(slug: string, file: string): Fine {
    Quiet(Written(slug, file)).(poller := Marking(0, Names.ObjectKey(slug, file), slug, 0, There(META)))
  }

  lemma ReachConfirming(slug: string, file: string, rest: seq<FineAction>, g: Fine)
    requires Reaches(Confirming(slug, file), rest, g)
    ensures Reaches(FINE_START, ConfirmingRun(slug, file, rest), g)
    ensures NoWriteInFlight(Confirming(slug, file), rest) ==>
              NoWriteInFlight(FINE_START, ConfirmingRun(slug, file, rest))
  {
    var f, e := HeadingAt(slug, file), Answering(slug);
    assert FineStep(f, Advance(e)) == Confirming(slug, file);
    Prepend(f, Advance(e), rest, g);
    ReachHeading(slug, file, [Advance(e)] + rest, g);
  }

  // ---------------------------------------------------------------- a replace during confirmation

  /** The replace has removed the object and repointed the row. */
  function Repointed(slug: string, file: string, file2: string): World {
    Written(slug, file).(
      bucket := map[], table := Table(map[0 := RowOf(slug, file).(key := Names.ObjectKey(slug, file2))], 1))
  }

  /** The calls of a replace, whatever the poller is doing meanwhile. */
  lemma ReplaceByCalls(slug: string, file: string, file2: string, p: PollerAt, rest: seq<FineAction>, g: Fine)
    requires Reaches(Quiet(Repointed(slug, file, file2)).(poller := p), rest, g)
    requires NoWriteInFlight(Quiet(Repointed(slug, file, file2)).(poller := p), rest)
    ensures var f := Quiet(Written(slug, file)).(poller := p);
            var calls := [BeginReplace(0, slug, file2, true)]
                         + ([Proceed(0, Removed, true)] + ([Proceed(0, Removed, true)] + rest));
            Reaches(f, calls, g) && NoWriteInFlight(f, calls)
  {
    var key, key2 := Names.ObjectKey(slug, file), Names.ObjectKey(slug, file2);
    var f0, proceed := Quiet(Written(slug, file)).(poller := p), Proceed(0, Removed, true);
    OnlyRow(slug, file);
    var f1 := f0.(requests := map[0 := RemovingObject(slug, key, 0, RepointRow(key2))]);
    assert FineStep(f0, BeginReplace(0, slug, file2, true)) == f1;
    var f2 := Fine(f0.world.(bucket := map[]), p, map[0 := ChangingRow(slug, key, 0, RepointRow(key2))], map[]);
    assert FineStep(f1, proceed) == f2 by {
      assert f0.world.bucket - {key} == map[];
    }
    UpdatedIsOneRow(f0.world.table, 0, ToKey(key2));
    assert f0.world.table.rows[0 := RowOf(slug, file).(key := key2)] == map[0 := RowOf(slug, file).(key := key2)];
    assert FineStep(f2, proceed) == Quiet(Repointed(slug, file, file2)).(poller := p);
    Prepend(f2, proceed, rest, g);
    Prepend(f1, proceed, [proceed] + rest, g);
    Prepend(f0, BeginReplace(0, slug, file2, true), [proceed] + ([proceed] + rest), g);
  }

  lemma LateConfirmation(slug: string, file: string, file2: string)
    ensures var f := Quiet(Repointed(slug, file, file2)).(poller := Confirming(slug, file).poller);
            var w := PollerStep(f, Answering(slug)).world;
            && 0 in w.table.rows && w.table.rows[0].status == Ready
            && w.table.rows[0].key == Names.ObjectKey(slug, file2)
            && w.bucket == map[] && forall k :: !Awaited(w, k)
  {
  }

  /** A replace that runs between Head and MarkReady, by a file of any kind, leaves a ready
      row without an object: the slug still matches, so the confirmation of the old object
      lands on a key that waits to be written. Every call was answered. */
  lemma ReplaceDuringConfirmation(slug: string, file: string, file2: string)
    ensures var run := ConfirmingRun(slug, file,
              [BeginReplace(0, slug, file2, true)] + ([Proceed(0, Removed, true)] + ([Proceed(0, Removed, true)]
              + ([Advance(Answering(slug))] + []))));
            && FreshSlugsOnly(FINE_START, run) && NoWriteInFlight(FINE_START, run)
            && FineExec(FINE_START, run).requests == map[]
            && var w := FineExec(FINE_START, run).world;
               && 0 in w.table.rows && w.table.rows[0].status == Ready
               && w.table.rows[0].key == Names.ObjectKey(slug, file2)
               && w.bucket == map[] && forall k :: !Awaited(w, k)
  {
    var e, f := Answering(slug), Quiet(Repointed(slug, file, file2)).(poller := Confirming(slug, file).poller);
    var g := PollerStep(f, e);
    LateConfirmation(slug, file, file2);
    Prepend(f, Advance(e), [], g);
    ReplaceByCalls(slug, file, file2, f.poller, [Advance(e)] + [], g);
    ReachConfirming(slug, file, [BeginReplace(0, slug, file2, true)] + ([Proceed(0, Removed, true)]
                                + ([Proceed(0, Removed, true)] + ([Advance(e)] + []))), g);
  }

  /** The old key has been written again after the replace, and Head has found it. */
  function FoundAgain(slug: string, file: string, file2: string): Fine {
    var key := Names.ObjectKey(slug, file);
    Quiet(Repointed(slug, file, file2).(
      bucket := map[key := META], nextMessage := 2,
      queue := map[0 := Event("PutObject", key), 1 := Event("PutObject", key)])).(
        poller := Marking(0, key, slug, 0, There(META)))
  }

  /** The write, Head and MarkReady. */
  lemma FindAgain(slug: string, file: string, file2: string)
    requires Names.Ext(file) != Names.Ext(file2)
    ensures var f := Quiet(Repointed(slug, file, file2)).(poller := HeadingAt(slug, file).poller);
            var e, put := Answering(slug), Statement(Put(Names.ObjectKey(slug, file), META, Single));
            var g := PollerStep(FoundAgain(slug, file, file2), e);
            && Reaches(f, [put] + ([Advance(e)] + ([Advance(e)] + [])), g)
            && NoWriteInFlight(f, [put] + ([Advance(e)] + ([Advance(e)] + [])))
            && 0 in g.world.table.rows && g.world.table.rows[0].status == Ready
            && g.world.table.rows[0].key == Names.ObjectKey(slug, file2)
            && Names.ObjectKey(slug, file2) !in g.world.bucket
  {
    var key, e := Names.ObjectKey(slug, file), Answering(slug);
    var f := Quiet(Repointed(slug, file, file2)).(poller := HeadingAt(slug, file).poller);
    var put := Statement(Put(key, META, Single));
    var f2 := FoundAgain(slug, file, file2);
    var f1 := f2.(poller := f.poller);
    KeysDiffer(slug, file, file2);
    assert FineStep(f, put) == f1;
    assert FineStep(f1, Advance(e)) == f2;
    Prepend(f2, Advance(e), [], PollerStep(f2, e));
    Prepend(f1, Advance(e), [Advance(e)] + [], PollerStep(f2, e));
    Prepend(f, put, [Advance(e)] + ([Advance(e)] + []), PollerStep(f2, e));
  }

  /** A replace by another kind of file that runs before Head does the same when the old key
      is written again in between. */
  lemma ReplaceBeforeHead(slug: string, file: string, file2: string)
    requires Names.Ext(file) != Names.Ext(file2)
    ensures exists run: seq<FineAction> ::
              && FreshSlugsOnly(FINE_START, run) && NoWriteInFlight(FINE_START, run)
              && FineExec(FINE_START, run).requests == map[]
              && var w := FineExec(FINE_START, run).world;
                 && 0 in w.table.rows && w.table.rows[0].status == Ready
                 && w.table.rows[0].key == Names.ObjectKey(slug, file2)
                 && Names.ObjectKey(slug, file2) !in w.bucket
  {
    var e, put := Answering(slug), Statement(Put(Names.ObjectKey(slug, file), META, Single));
    var g := PollerStep(FoundAgain(slug, file, file2), e);
    FindAgain(slug, file, file2);
    var rest := [put] + ([Advance(e)] + ([Advance(e)] + []));
    ReplaceByCalls(slug, file, file2, HeadingAt(slug, file).poller, rest, g);
    var calls := [BeginReplace(0, slug, file2, true)]
                 + ([Proceed(0, Removed, true)] + ([Proceed(0, Removed, true)] + rest));
    ReachHeading(slug, file, calls, g);
    var run := HeadingRun(slug, file, calls);
    assert FreshSlugsOnly(FINE_START, run) && FineExec(FINE_START, run) == g;
  }

  // ---------------------------------------------------------------- a rotate during confirmation

  /** A rotate that runs there makes the confirmation miss: the row stays pending although
      its object is in the bucket, and no create event is left to handle. */
  lemma RotateDuringConfirmation(slug: string, slug2: string, file: string)
    requires slug != slug2
    ensures var run := ConfirmingRun(slug, file,
              [Statement(Rotate(slug, Calls(slug2)))] + ([Advance(Answering(slug))] + []));
            && FreshSlugsOnly(FINE_START, run) && NoWriteInFlight(FINE_START, run)
            && var w, key := FineExec(FINE_START, run).world, Names.ObjectKey(slug, file);
               && 0 in w.table.rows && w.table.rows[0].key == key && w.table.rows[0].status == Pending
               && key in w.bucket && !Awaited(w, key)
  {
    var key, e := Names.ObjectKey(slug, file), Answering(slug);
    OnlyRow(slug, file);
    var f0 := Confirming(slug, file);
    var rotate := Statement(Rotate(slug, Calls(slug2)));
    var f1 := FineStep(f0, rotate);
    UpdatedIsOneRow(f0.world.table, 0, ToSlug(slug2));
    assert f1.world.table == Updated(f0.world.table, slug, ToSlug(slug2));
    assert f1.world.table.rows[0] == RowOf(slug, file).(slug := slug2);
    assert !HasSlug(f1.world.table, slug);
    var f2 := FineStep(f1, Advance(e));
    assert f2.world.table == f1.world.table;
    Prepend(f1, Advance(e), [], f2);
    Prepend(f0, rotate, [Advance(e)] + [], f2);
    ReachConfirming(slug, file, [rotate] + ([Advance(e)] + []), f2);
  }

  // ---------------------------------------------------------------- a write during a delete or a replace

  /** A delete or a replace of the track, its lookup answered. */
  predicate BeginsOn(begin: FineAction, slug: string) {
    (begin.BeginDelete? || begin.BeginReplace?) && begin.request == 0 && begin.slug == slug && begin.up
  }

  function ChangeOf(begin: FineAction): RowChange {
    if begin.BeginReplace? then RepointRow(Names.ObjectKey(begin.slug, begin.filename)) else DropRow
  }

  /** The request has removed the object, the key has been written again, the poller is idle. */
  function WrittenMeanwhile(slug: string, file: string, change: RowChange): Fine {
    Fine(Written(slug, file), Idle, map[0 := ChangingRow(slug, Names.ObjectKey(slug, file), 0, change)], map[])
  }

  /** The new event has been handled; the request still has the row to change. */
  function IngestedMeanwhile(slug: string, file: string, change: RowChange): Fine {
    var w := Written(slug, file);
    WrittenMeanwhile(slug, file, change).(world := w.(
      handled := {0}, table := w.table.(rows := w.table.rows[0 := Set(RowOf(slug, file), ToReady(META, 0))])))
  }

  lemma ReachWrittenMeanwhile(slug: string, file: string, begin: FineAction, rest: seq<FineAction>, g: Fine)
    requires BeginsOn(begin, slug) && Reaches(WrittenMeanwhile(slug, file, ChangeOf(begin)), rest, g)
    ensures exists run :: Reaches(FINE_START, run, g)
  {
    var key, change := Names.ObjectKey(slug, file), ChangeOf(begin);
    var upload, put := Statement(UploadOf(slug, file)), Statement(Put(key, META, Single));
    OnlyRow(slug, file);
    UploadIsRequested(slug, file);
    PutIsWritten(slug, file);
    var f1 := Quiet(Requested(slug, file));
    var f2 := f1.(requests := map[0 := RemovingObject(slug, key, 0, change)]);
    var f3 := f1.(requests := map[0 := ChangingRow(slug, key, 0, change)]);
    assert FineStep(f1, begin) == f2;
    assert f1.world.bucket - {key} == map[];
    assert FineStep(f2, Proceed(0, Removed, true)) == f3;
    Prepend(f3, put, rest, g);
    Prepend(f2, Proceed(0, Removed, true), [put] + rest, g);
    Prepend(f1, begin, [Proceed(0, Removed, true)] + ([put] + rest), g);
    Prepend(FINE_START, upload, [begin] + ([Proceed(0, Removed, true)] + ([put] + rest)), g);
  }

  lemma IngestMeanwhile(slug: string, file: string, change: RowChange, rest: seq<FineAction>, g: Fine)
    requires Reaches(IngestedMeanwhile(slug, file, change), rest, g)
    ensures var e := Answering(slug);
            Reaches(WrittenMeanwhile(slug, file, change),
                    [Fetch(0)] + ([Advance(e)] + ([Advance(e)] + ([Advance(e)] + rest))), g)
  {
    var key, e, f := Names.ObjectKey(slug, file), Answering(slug), WrittenMeanwhile(slug, file, change);
    OnlyRow(slug, file);
    var f1, f2 := f.(poller := Looking(0, key)), f.(poller := Heading(0, key, slug, 0));
    var f3 := f.(poller := Marking(0, key, slug, 0, There(META)));
    assert FineStep(f, Fetch(0)) == f1 && FineStep(f1, Advance(e)) == f2 && FineStep(f2, Advance(e)) == f3;
    UpdatedIsOneRow(f.world.table, 0, ToReady(META, 0));
    assert {} + {0} == {0};
    assert FineStep(f3, Advance(e)) == IngestedMeanwhile(slug, file, change);
    Prepend(f3, Advance(e), rest, g);
    Prepend(f2, Advance(e), [Advance(e)] + rest, g);
    Prepend(f1, Advance(e), [Advance(e)] + ([Advance(e)] + rest), g);
    Prepend(f, Fetch(0), [Advance(e)] + ([Advance(e)] + ([Advance(e)] + rest)), g);
  }

  /** The request's last call, from that state, ends a run from the start. */
  lemma ReachChanged(slug: string, file: string, begin: FineAction)
    requires BeginsOn(begin, slug)
    ensures exists run ::
              Reaches(FINE_START, run, RequestStep(IngestedMeanwhile(slug, file, ChangeOf(begin)), 0, Removed, true))
  {
    var f, e := IngestedMeanwhile(slug, file, ChangeOf(begin)), Answering(slug);
    var g := RequestStep(f, 0, Removed, true);
    Prepend(f, Proceed(0, Removed, true), [], g);
    var rest := [Proceed(0, Removed, true)] + [];
    IngestMeanwhile(slug, file, ChangeOf(begin), rest, g);
    ReachWrittenMeanwhile(slug, file, begin, [Fetch(0)] + ([Advance(e)] + ([Advance(e)] + ([Advance(e)] + rest))), g);
  }

  /** Why the main result of module Interleaving excludes writes in flight: a file written
      after a delete has removed the object, and ingested before it drops the row, is left
      in the bucket with no row and no event. */
  lemma WriteDuringDelete(slug: string, file: string)
    ensures exists run: seq<FineAction> ::
              && FreshSlugsOnly(FINE_START, run)
              && var w, key := FineExec(FINE_START, run).world, Names.ObjectKey(slug, file);
                 key in w.bucket && !HasKey(w.table, key) && !Awaited(w, key)
  {
    var f := IngestedMeanwhile(slug, file, DropRow);
    ReachChanged(slug, file, BeginDelete(0, slug, true));
    var run :| Reaches(FINE_START, run, RequestStep(f, 0, Removed, true));
    assert f.world.table.rows[0].slug == slug;
    assert RequestStep(f, 0, Removed, true).world.table.rows == map[];
  }

  /** The last call of the replace: the row waits for the new key. */
  lemma ReplacedMeanwhile(slug: string, file: string, file2: string)
    ensures var key2 := Names.ObjectKey(slug, file2);
            var f := IngestedMeanwhile(slug, file, RepointRow(key2));
            RequestStep(f, 0, Removed, true).world ==
            f.world.(table := Table(map[0 := f.world.table.rows[0].(key := key2, status := Pending)], 1))
  {
    var key2 := Names.ObjectKey(slug, file2);
    var f := IngestedMeanwhile(slug, file, RepointRow(key2));
    assert f.world.table.rows[0].slug == slug;
    UpdatedIsOneRow(f.world.table, 0, ToKey(key2));
    assert f.world.table.rows[0 := Set(f.world.table.rows[0], ToKey(key2))] ==
           map[0 := f.world.table.rows[0].(key := key2, status := Pending)];
  }

  /** The same in a replace. The file written is left without an event and unconfirmed; when
      the replacement is of another kind, it is left without a row as well. */
  lemma WriteDuringReplace(slug: string, file: string, file2: string)
    ensures exists run: seq<FineAction> ::
              && FreshSlugsOnly(FINE_START, run)
              && var w, key := FineExec(FINE_START, run).world, Names.ObjectKey(slug, file);
                 && key in w.bucket && !Awaited(w, key) && !HasConfirmed(w.table, key, w.bucket[key])
                 && (Names.Ext(file) != Names.Ext(file2) ==> !HasKey(w.table, key))
  {
    var f := IngestedMeanwhile(slug, file, RepointRow(Names.ObjectKey(slug, file2)));
    ReachChanged(slug, file, BeginReplace(0, slug, file2, true));
    ReplacedMeanwhile(slug, file, file2);
    var run :| Reaches(FINE_START, run, RequestStep(f, 0, Removed, true));
    if Names.Ext(file) != Names.Ext(file2) {
      KeysDiffer(slug, file, file2);
    }
  }

  /** The key of the row a request is about to change. */
  ghost function KeyAtStake(f: Fine, request: nat): string
    requires AtRow(f, request) && HasSlug(f.world.table, f.requests[request].slug)
  {
    f.world.table.rows[RowWithSlug(f.world.table, f.requests[request].slug).value].key
  }

  /** Where no object is orphaned, dropping a row orphans one exactly when the DELETE takes
      effect, the key of that row has an object and no create event for it is left to handle. */
  lemma DropOrphansIff(f: Fine, request: nat, up: bool)
    requires FineSound(f) && NoOrphan(f.world) && AtRow(f, request) && f.requests[request].change.DropRow?
    ensures NoOrphan(RequestStep(f, request, Removed, up).world) <==>
              || Tracks.Delete(f.world.table, f.requests[request].slug, up).reply != Done
              || KeyAtStake(f, request) !in f.world.bucket
              || Awaited(f.world, KeyAtStake(f, request))
  {
    OrphansIff(f, request, up);
  }

  /** Moving a row to another key does so under the same conditions; moving it to the key it
      has does not. */
  lemma RepointOrphansIff(f: Fine, request: nat, up: bool)
    requires FineSound(f) && NoOrphan(f.world) && AtRow(f, request) && f.requests[request].change.RepointRow?
    ensures var q := f.requests[request];
            NoOrphan(RequestStep(f, request, Removed, up).world) <==>
              || Update(f.world.table, q.slug, ToKey(q.change.newKey), up).reply != Done
              || q.change.newKey == KeyAtStake(f, request)
              || KeyAtStake(f, request) !in f.world.bucket
              || Awaited(f.world, KeyAtStake(f, request))
  {
    OrphansIff(f, request, up);
  }

  lemma OrphansIff(f: Fine, request: nat, up: bool)
    requires FineSound(f) && NoOrphan(f.world) && AtRow(f, request)
    ensures NoOrphan(RequestStep(f, request, Removed, up).world) <==>
              || RowReply(f, request, up) != Done
              || f.requests[request].change == RepointRow(KeyAtStake(f, request))
              || KeyAtStake(f, request) !in f.world.bucket
              || Awaited(f.world, KeyAtStake(f, request))
  {
    var w, w' := f.world, RequestStep(f, request, Removed, up).world;
    forall k
      ensures Awaited(w', k) <==> Awaited(w, k)
    {
      AwaitedKept(w, w', k);
    }
    if RowReply(f, request, up) != Done {
      assert w'.table == w.table;
    } else {
      KeysAfterChange(f, request, up);
    }
  }

  /** The keys of the table after the statement: the one at stake is gone unless the row was
      moved to the key it has; all others are still there. */
  lemma KeysAfterChange(f: Fine, request: nat, up: bool)
    requires FineSound(f) && AtRow(f, request) && RowReply(f, request, up) == Done
    ensures var t, t' := f.world.table, RequestStep(f, request, Removed, up).world.table;
            var key := KeyAtStake(f, request);
            && (forall k :: HasKey(t, k) && k != key ==> HasKey(t', k))
            && (HasKey(t', key) <==> f.requests[request].change == RepointRow(key))
  {
    var t, t', q := f.world.table, RequestStep(f, request, Removed, up).world.table, f.requests[request];
    var row := RowWithSlug(t, q.slug).value;
    if q.change.RepointRow? {
      UpdatedIsOneRow(t, row, ToKey(q.change.newKey));
      assert t'.rows[row].key == q.change.newKey;
    } else {
      DeleteRemovesOneRow(t, q.slug, up);
    }
    forall k | HasKey(t, k) && k != t.rows[row].key
      ensures HasKey(t', k)
    {
      var id :| id in t.rows && t.rows[id].key == k;
      assert t'.rows[id].key == k;
    }
  }

  lemma AwaitedKept(w: World, w': World, key: string)
    requires w'.queue == w.queue && w'.handled == w.handled
    ensures Awaited(w', key) <==> Awaited(w, key)
  {
  }

  // ---------------------------------------------------------------- a delete over a replace

  /** A delete has removed the object and a replace of the same track has begun. */
  function BothInFlight(slug: string, file: string, file2: string, replacing: bool): Fine {
    var key, key2 := Names.ObjectKey(slug, file), Names.ObjectKey(slug, file2);
    var change := RepointRow(key2);
    Quiet(Requested(slug, file)).(requests := map[
      0 := ChangingRow(slug, key, 0, DropRow),
      1 := if replacing then ChangingRow(slug, key, 0, change) else RemovingObject(slug, key, 0, change)])
  }

  /** The replace has finished and its file has been written; the delete has not moved. */
  function WrittenOver(slug: string, file: string, file2: string): Fine {
    var key2 := Names.ObjectKey(slug, file2);
    Fine(World(map[key2 := META], map[0 := Event("PutObject", key2)], {},
               Table(map[0 := RowOf(slug, file).(key := key2)], 1), {slug}, 1),
         Idle, map[0 := ChangingRow(slug, Names.ObjectKey(slug, file), 0, DropRow)], map[])
  }

  /** The new file has been confirmed as well. */
  function ConfirmedOver(slug: string, file: string, file2: string): Fine {
    var f := WrittenOver(slug, file, file2);
    f.(world := f.world.(
      handled := {0}, table := Table(map[0 := Set(f.world.table.rows[0], ToReady(META, 0))], 1)))
  }

  lemma ConfirmOver(slug: string, file: string, file2: string, rest: seq<FineAction>, g: Fine)
    requires Reaches(ConfirmedOver(slug, file, file2), rest, g)
    requires NoWriteInFlight(ConfirmedOver(slug, file, file2), rest)
    ensures var e, f := Answering(slug), WrittenOver(slug, file, file2);
            var calls := [Fetch(0)] + ([Advance(e)] + ([Advance(e)] + ([Advance(e)] + rest)));
            Reaches(f, calls, g) && NoWriteInFlight(f, calls)
  {
    var e, f, key2 := Answering(slug), WrittenOver(slug, file, file2), Names.ObjectKey(slug, file2);
    var t := f.world.table;
    assert t.rows[0].slug == slug && t.rows[0].key == key2 && Valid(t);
    FoundByKey(t, 0);
    var f1, f2 := f.(poller := Looking(0, key2)), f.(poller := Heading(0, key2, slug, 0));
    var f3 := f.(poller := Marking(0, key2, slug, 0, There(META)));
    assert FineStep(f, Fetch(0)) == f1 && FineStep(f1, Advance(e)) == f2 && FineStep(f2, Advance(e)) == f3;
    UpdatedIsOneRow(t, 0, ToReady(META, 0));
    assert t.rows[0 := Set(t.rows[0], ToReady(META, 0))] == ConfirmedOver(slug, file, file2).world.table.rows;
    assert {} + {0} == {0};
    assert FineStep(f3, Advance(e)) == ConfirmedOver(slug, file, file2);
    Prepend(f3, Advance(e), rest, g);
    Prepend(f2, Advance(e), [Advance(e)] + rest, g);
    Prepend(f1, Advance(e), [Advance(e)] + ([Advance(e)] + rest), g);
    Prepend(f, Fetch(0), [Advance(e)] + ([Advance(e)] + ([Advance(e)] + rest)), g);
  }

  /** The replace's calls and the write of its file, under the delete. */
  lemma ReplaceUnderDelete(slug: string, file: string, file2: string, rest: seq<FineAction>, g: Fine)
    requires Names.Ext(file) != Names.Ext(file2)
    requires Reaches(WrittenOver(slug, file, file2), rest, g) && NoWriteInFlight(WrittenOver(slug, file, file2), rest)
    ensures var f := BothInFlight(slug, file, file2, false);
            var calls := [Proceed(1, Removed, true)] + ([Proceed(1, Removed, true)]
                         + ([Statement(Put(Names.ObjectKey(slug, file2), META, Single))] + rest));
            Reaches(f, calls, g) && NoWriteInFlight(f, calls)
  {
    var key2, proceed := Names.ObjectKey(slug, file2), Proceed(1, Removed, true);
    var put := Statement(Put(key2, META, Single));
    var f, f1 := BothInFlight(slug, file, file2, false), BothInFlight(slug, file, file2, true);
    OnlyRow(slug, file);
    KeysDiffer(slug, file, file2);
    assert FineStep(f, proceed) == f1 by {
      assert f.world.bucket - {Names.ObjectKey(slug, file)} == map[];
      assert f.requests[1 := f1.requests[1]] == f1.requests;
    }
    var t := f1.world.table;
    UpdatedIsOneRow(t, 0, ToKey(key2));
    assert t.rows[0 := RowOf(slug, file).(key := key2)] == map[0 := RowOf(slug, file).(key := key2)];
    var f2 := FineStep(f1, proceed);
    assert f2.requests == WrittenOver(slug, file, file2).requests;
    assert FineStep(f2, put) == WrittenOver(slug, file, file2);
    Prepend(f2, put, rest, g);
    Prepend(f1, proceed, [put] + rest, g);
    Prepend(f, proceed, [proceed] + ([put] + rest), g);
  }

  /** From the start to both requests in flight. */
  lemma ReachBoth(slug: string, file: string, file2: string, rest: seq<FineAction>, g: Fine)
    requires Reaches(BothInFlight(slug, file, file2, false), rest, g)
    requires NoWriteInFlight(BothInFlight(slug, file, file2, false), rest)
    ensures exists run :: Reaches(FINE_START, run, g) && NoWriteInFlight(FINE_START, run)
  {
    var key, key2 := Names.ObjectKey(slug, file), Names.ObjectKey(slug, file2);
    OnlyRow(slug, file);
    UploadIsRequested(slug, file);
    var f1 := Quiet(Requested(slug, file));
    var f2 := f1.(requests := map[0 := RemovingObject(slug, key, 0, DropRow)]);
    var f3 := f1.(requests := map[0 := ChangingRow(slug, key, 0, DropRow)]);
    var delete, proceed := BeginDelete(0, slug, true), Proceed(0, Removed, true);
    var replace := BeginReplace(1, slug, file2, true);
    assert FineStep(f1, delete) == f2;
    assert f1.world.bucket - {key} == map[];
    assert FineStep(f2, proceed) == f3;
    assert FineStep(f3, replace) == BothInFlight(slug, file, file2, false);
    Prepend(f3, replace, rest, g);
    Prepend(f2, proceed, [replace] + rest, g);
    Prepend(f1, delete, [proceed] + ([replace] + rest), g);
    Prepend(FINE_START, Statement(UploadOf(slug, file)), [delete] + ([proceed] + ([replace] + rest)), g);
  }

  /** Why the results about interleaved runs ask that requests for one track do not overlap: a
      delete that began before a replace drops the row after the new file is confirmed, and
      leaves that file in the bucket with no row and no event. No key was written between its
      removal and its row's change, and every call was answered. */
  lemma DeleteOverReplace(slug: string, file: string, file2: string)
    requires Names.Ext(file) != Names.Ext(file2)
    ensures exists run: seq<FineAction> ::
              && FreshSlugsOnly(FINE_START, run) && NoWriteInFlight(FINE_START, run)
              && var w, key2 := FineExec(FINE_START, run).world, Names.ObjectKey(slug, file2);
                 key2 in w.bucket && !HasKey(w.table, key2) && !Awaited(w, key2)
  {
    var f, e, proceed := ConfirmedOver(slug, file, file2), Answering(slug), Proceed(1, Removed, true);
    var g := FineStep(f, Proceed(0, Removed, true));
    var put := Statement(Put(Names.ObjectKey(slug, file2), META, Single));
    assert f.world.table.rows[0].slug == slug;
    assert g.world.table.rows == map[];
    var last := [Proceed(0, Removed, true)] + [];
    Prepend(f, Proceed(0, Removed, true), [], g);
    ConfirmOver(slug, file, file2, last, g);
    var ingest := [Fetch(0)] + ([Advance(e)] + ([Advance(e)] + ([Advance(e)] + last)));
    ReplaceUnderDelete(slug, file, file2, ingest, g);
    ReachBoth(slug, file, file2, [proceed] + ([proceed] + ([put] + ingest)), g);
    var run :| Reaches(FINE_START, run, g) && NoWriteInFlight(FINE_START, run);
  }

  /** The delete has looked the track up; the replace has finished; the first key has been
      written after that, and the poller is where `p` says. */
  function Rediscovering(slug: string, file: string, file2: string, p: PollerAt): Fine {
    var key, key2 := Names.ObjectKey(slug, file), Names.ObjectKey(slug, file2);
    Fine(World(map[key := META], map[0 := Event("PutObject", key)], {},
               Table(map[0 := RowOf(slug, file).(key := key2)], 1), {slug}, 1),
         p, map[0 := RemovingObject(slug, key, 0, DropRow)], map[])
  }

  function FoundRow(slug2: string, key: string): Track {
    DiscoveredRow(slug2, key, Names.Base(key), 0)
  }

  /** The poller has made a second row for the first key, and is where `p` says. */
  function Rediscovered(slug: string, slug2: string, file: string, file2: string, p: PollerAt): Fine {
    var f := Rediscovering(slug, file, file2, p);
    f.(world := f.world.(
      table := Inserted(f.world.table, FoundRow(slug2, Names.ObjectKey(slug, file))), issued := {slug, slug2}))
  }

  /** It has confirmed that row; the delete has not moved. */
  function ReadyAgain(slug: string, slug2: string, file: string, file2: string): Fine {
    var f, r := Rediscovered(slug, slug2, file, file2, Idle), FoundRow(slug2, Names.ObjectKey(slug, file));
    f.(world := f.world.(
      handled := {0}, table := f.world.table.(rows := f.world.table.rows[1 := Set(r, ToReady(META, 0))])))
  }

  /** The INSERT is accepted: the two rows share neither slug nor key. */
  lemma RediscoveredIsValid(slug: string, slug2: string, file: string, file2: string)
    requires slug != slug2 && Names.Ext(file) != Names.Ext(file2)
    ensures var t := Rediscovering(slug, file, file2, Idle).world.table;
            var made := FoundRow(slug2, Names.ObjectKey(slug, file));
            !HasKey(t, made.key) && CanInsert(t, made) && Valid(Inserted(t, made))
  {
    var t, made := Rediscovering(slug, file, file2, Idle).world.table, FoundRow(slug2, Names.ObjectKey(slug, file));
    KeysDiffer(slug, file, file2);
    assert Valid(t) && CanInsert(t, made);
    InsertAcceptedIffValid(t, made);
  }

  /** Head and MarkReady for the new row. */
  lemma ConfirmNewRow(slug: string, slug2: string, file: string, file2: string, rest: seq<FineAction>, g: Fine)
    requires slug != slug2 && Names.Ext(file) != Names.Ext(file2)
    requires Reaches(ReadyAgain(slug, slug2, file, file2), rest, g)
    ensures var e, key := Answering(slug2), Names.ObjectKey(slug, file);
            Reaches(Rediscovered(slug, slug2, file, file2, Heading(0, key, slug2, 1)),
                    [Advance(e)] + ([Advance(e)] + rest), g)
  {
    var key, e := Names.ObjectKey(slug, file), Answering(slug2);
    var f3 := Rediscovered(slug, slug2, file, file2, Heading(0, key, slug2, 1));
    var f4 := f3.(poller := Marking(0, key, slug2, 1, There(META)));
    RediscoveredIsValid(slug, slug2, file, file2);
    assert FineStep(f3, Advance(e)) == f4;
    assert f4.world.table.rows[1] == FoundRow(slug2, key);
    UpdatedIsOneRow(f4.world.table, 1, ToReady(META, 0));
    assert HasSlug(f4.world.table, slug2) && {} + {0} == {0};
    assert FineStep(f4, Advance(e)) == ReadyAgain(slug, slug2, file, file2);
    Prepend(f4, Advance(e), rest, g);
    Prepend(f3, Advance(e), [Advance(e)] + rest, g);
  }

  /** From the lookup to MarkReady. */
  lemma DiscoverByCalls(slug: string, slug2: string, file: string, file2: string, rest: seq<FineAction>, g: Fine)
    requires slug != slug2 && Names.Ext(file) != Names.Ext(file2)
    requires Reaches(ReadyAgain(slug, slug2, file, file2), rest, g)
    ensures var e := Answering(slug2);
            Reaches(Rediscovering(slug, file, file2, Idle),
                    [Fetch(0)] + ([Advance(e)] + ([Advance(e)] + ([Advance(e)] + ([Advance(e)] + rest)))), g)
  {
    var key, e, f := Names.ObjectKey(slug, file), Answering(slug2), Rediscovering(slug, file, file2, Idle);
    var f1, f2 := f.(poller := Looking(0, key)), f.(poller := Minting(0, key));
    var f3 := Rediscovered(slug, slug2, file, file2, Heading(0, key, slug2, 1));
    RediscoveredIsValid(slug, slug2, file, file2);
    ConfirmNewRow(slug, slug2, file, file2, rest, g);
    assert {slug} + {slug2} == {slug, slug2};
    assert FineStep(f, Fetch(0)) == f1 && FineStep(f1, Advance(e)) == f2 && FineStep(f2, Advance(e)) == f3;
    Prepend(f2, Advance(e), [Advance(e)] + ([Advance(e)] + rest), g);
    Prepend(f1, Advance(e), [Advance(e)] + ([Advance(e)] + ([Advance(e)] + rest)), g);
    Prepend(f, Fetch(0), [Advance(e)] + ([Advance(e)] + ([Advance(e)] + ([Advance(e)] + rest))), g);
  }

  /** The delete and the replace have both looked the track up. */
  function BothLooked(slug: string, file: string, file2: string): Fine {
    var key, key2 := Names.ObjectKey(slug, file), Names.ObjectKey(slug, file2);
    Quiet(Requested(slug, file)).(requests := map[
      0 := RemovingObject(slug, key, 0, DropRow), 1 := RemovingObject(slug, key, 0, RepointRow(key2))])
  }

  /** The rest of the replace, and the write. */
  lemma ReplaceThenWrite(slug: string, file: string, file2: string, rest: seq<FineAction>, g: Fine)
    requires Reaches(Rediscovering(slug, file, file2, Idle), rest, g)
    ensures var proceed := Proceed(1, Removed, true);
            var put := Statement(Put(Names.ObjectKey(slug, file), META, Single));
            Reaches(BothLooked(slug, file, file2), [proceed] + ([proceed] + ([put] + rest)), g)
  {
    var key, key2, proceed := Names.ObjectKey(slug, file), Names.ObjectKey(slug, file2), Proceed(1, Removed, true);
    var f2, put := BothLooked(slug, file, file2), Statement(Put(key, META, Single));
    var drop := RemovingObject(slug, key, 0, DropRow);
    var f3 := f2.(requests := map[0 := drop, 1 := ChangingRow(slug, key, 0, RepointRow(key2))]);
    var f4 := FineStep(f3, proceed);
    OnlyRow(slug, file);
    assert FineStep(f2, proceed) == f3 by {
      assert f2.world.bucket - {key} == map[] && f2.requests[1 := f3.requests[1]] == f3.requests;
    }
    UpdatedIsOneRow(f3.world.table, 0, ToKey(key2));
    assert f3.world.table.rows[0 := RowOf(slug, file).(key := key2)] == map[0 := RowOf(slug, file).(key := key2)];
    assert f4.requests == map[0 := drop];
    assert FineStep(f4, put) == Rediscovering(slug, file, file2, Idle);
    Prepend(f4, put, rest, g);
    Prepend(f3, proceed, [put] + rest, g);
    Prepend(f2, proceed, [proceed] + ([put] + rest), g);
  }

  lemma BothLook(slug: string, file: string, file2: string)
    ensures var key := Names.ObjectKey(slug, file);
            var f1 := Quiet(Requested(slug, file)).(requests := map[0 := RemovingObject(slug, key, 0, DropRow)]);
            && FineStep(Quiet(Requested(slug, file)), BeginDelete(0, slug, true)) == f1
            && FineStep(f1, BeginReplace(1, slug, file2, true)) == BothLooked(slug, file, file2)
  {
    OnlyRow(slug, file);
  }

  /** From the start: the delete's lookup, the whole replace, the write. */
  lemma ReachRediscovering(slug: string, file: string, file2: string, rest: seq<FineAction>, g: Fine)
    requires Reaches(Rediscovering(slug, file, file2, Idle), rest, g)
    ensures exists run :: Reaches(FINE_START, run, g)
  {
    var key, key2 := Names.ObjectKey(slug, file), Names.ObjectKey(slug, file2);
    var delete, replace := BeginDelete(0, slug, true), BeginReplace(1, slug, file2, true);
    var proceed, put := Proceed(1, Removed, true), Statement(Put(key, META, Single));
    BothLook(slug, file, file2);
    UploadIsRequested(slug, file);
    ReplaceThenWrite(slug, file, file2, rest, g);
    var f0 := Quiet(Requested(slug, file));
    var f1 := FineStep(f0, delete);
    var finish := [proceed] + ([proceed] + ([put] + rest));
    Prepend(f1, replace, finish, g);
    Prepend(f0, delete, [replace] + finish, g);
    Prepend(FINE_START, Statement(UploadOf(slug, file)), [delete] + ([replace] + finish), g);
  }

  /** The same overlap can break another track: the delete still holds the key the replace has
      given up; when that key is written again and has become a track of its own, the delete
      removes that track's object and drops the other row. Every call was answered. */
  lemma DeleteBreaksOtherTrack(slug: string, slug2: string, file: string, file2: string)
    requires slug != slug2 && Names.Ext(file) != Names.Ext(file2)
    ensures exists run: seq<FineAction> ::
              && FreshSlugsOnly(FINE_START, run)
              && FineExec(FINE_START, run).requests == map[]
              && var w := FineExec(FINE_START, run).world;
                 && 1 in w.table.rows && w.table.rows[1].status == Ready && w.table.rows[1].key !in w.bucket
  {
    var key, e, proceed := Names.ObjectKey(slug, file), Answering(slug2), Proceed(0, Removed, true);
    var f := ReadyAgain(slug, slug2, file, file2);
    var f1 := FineStep(f, proceed);
    assert f1.requests == map[0 := ChangingRow(slug, key, 0, DropRow)];
    var g := FineStep(f1, proceed);
    assert g.requests == map[];
    assert f1.world.table.rows[0].slug == slug && f1.world.table.rows[1].slug == slug2;
    assert 1 in g.world.table.rows && g.world.table.rows[1] == f.world.table.rows[1];
    Prepend(f1, proceed, [], g);
    Prepend(f, proceed, [proceed] + [], g);
    var rest := [proceed] + ([proceed] + []);
    DiscoverByCalls(slug, slug2, file, file2, rest, g);
    ReachRediscovering(slug, file, file2,
      [Fetch(0)] + ([Advance(e)] + ([Advance(e)] + ([Advance(e)] + ([Advance(e)] + rest)))), g);
    var run :| Reaches(FINE_START, run, g);
  }

  // ---------------------------------------------------------------- a track that fails with its file in place

  /** The upload has been ingested; its event is not acknowledged. */
  function IngestedOnce(slug: string, file: string, status: Status): World {
    var w := Written(slug, file);
    w.(table := w.table.(rows := map[0 := Set(RowOf(slug, file), ToReady(META, 0)).(status := status)]))
  }

  lemma IngestOnce(slug: string, file: string)
    ensures var a := Handle(0, Answering(slug));
            && Step(Written(slug, file), a) == IngestedOnce(slug, file, Ready).(handled := {0})
            && Drawn(Written(slug, file), a) == {}
  {
    var w := Written(slug, file);
    OnlyRow(slug, file);
    UpdatedIsOneRow(w.table, 0, ToReady(META, 0));
    assert w.table.rows[0 := Set(RowOf(slug, file), ToReady(META, 0))] == IngestedOnce(slug, file, Ready).table.rows;
    assert {} + {0} == {0} && w.issued + {} == w.issued;
  }

  lemma MissAgain(slug: string, file: string)
    ensures var w, a := IngestedOnce(slug, file, Ready), Handle(0, Answering(slug).(headUp := false));
            Step(w, a) == IngestedOnce(slug, file, Failed) && Drawn(w, a) == {}
  {
    var w := IngestedOnce(slug, file, Ready);
    assert w.table.rows[0].slug == slug && w.table.rows[0].key == Names.ObjectKey(slug, file) && Valid(w.table);
    FoundByKey(w.table, 0);
    UpdatedIsOneRow(w.table, 0, ToFailed);
    assert w.table.rows[0 := w.table.rows[0].(status := Failed)] == IngestedOnce(slug, file, Failed).table.rows;
    assert w.issued + {} == w.issued;
  }

  /** A ready track can fail although its file is there: its event is delivered again after a
      lost acknowledgement, and this time Head is not answered. Visitors get the page for
      unknown links until the next delivery. */
  lemma HeadOutageHidesTrack(slug: string, file: string, visit: Handlers.Calls, lower: string -> string)
    requires visit.lookupUp
    ensures var e := Answering(slug);
            var run := [UploadOf(slug, file)] + ([Put(Names.ObjectKey(slug, file), META, Single)]
                       + ([Handle(0, e)] + ([Ack({})] + ([Handle(0, e.(headUp := false))] + []))));
            && NeverRepeats(START, run)
            && var w := Exec(START, run);
               && 0 in w.table.rows && w.table.rows[0].status == Failed && w.table.rows[0].key in w.bucket
               && Handlers.Share(w.table, slug, visit, lower).NotFoundPage?
               && Awaited(w, w.table.rows[0].key)
  {
    var e := Answering(slug);
    var miss := Handle(0, e.(headUp := false));
    var w1, w := IngestedOnce(slug, file, Ready), IngestedOnce(slug, file, Failed);
    IngestOnce(slug, file);
    MissAgain(slug, file);
    assert Step(w1.(handled := {0}), Ack({})) == w1 by {
      assert w1.queue - ({} * {0}) == w1.queue && w1.issued + {} == w1.issued;
    }
    PrependAction(w1, miss, []);
    PrependAction(w1.(handled := {0}), Ack({}), [miss] + []);
    PrependAction(Written(slug, file), Handle(0, e), [Ack({})] + ([miss] + []));
    ReachWritten(slug, file, [Handle(0, e)] + ([Ack({})] + ([miss] + [])));
    assert w.table.rows[0].slug == slug && Valid(w.table);
    FoundBySlug(w.table, 0);
    assert Creates(w.queue[0], w.table.rows[0].key) && 0 !in w.handled;
  }

  // ---------------------------------------------------------------- a replace that cannot finish

  lemma PrependAction(w: World, a: Action, rest: seq<Action>)
    requires NeverRepeats(Step(w, a), rest) && Drawn(w, a) !! w.issued
    ensures NeverRepeats(w, [a] + rest)
    ensures Exec(w, [a] + rest) == Exec(Step(w, a), rest)
  {
  }

  /** The upload's event is handled only after a replace: it mints a failed row for the key
      the track has left. */
  function MintingRun(slug: string, slug2: string, file: string, file2: string, rest: seq<Action>): seq<Action> {
    [UploadOf(slug, file)]
    + ([Put(Names.ObjectKey(slug, file), META, Single)]
       + ([Replace(slug, Some(file2), Calls(slug))] + ([Handle(0, Answering(slug2))] + rest)))
  }

  function Minted(slug: string, slug2: string, file: string, file2: string): World {
    var key := Names.ObjectKey(slug, file);
    World(map[], map[0 := Event("PutObject", key)], {0},
          Table(map[0 := RowOf(slug, file).(key := Names.ObjectKey(slug, file2)),
                    1 := DiscoveredRow(slug2, key, Names.Base(key), 0).(status := Failed)], 2),
          {slug, slug2}, 1)
  }

  /** The upload's track after its file has been replaced by one of another kind. */
  function Replaced(slug: string, file: string, file2: string): World {
    var key := Names.ObjectKey(slug, file);
    World(map[], map[0 := Event("PutObject", key)], {},
          Table(map[0 := RowOf(slug, file).(key := Names.ObjectKey(slug, file2))], 1), {slug}, 1)
  }

  lemma KeysDiffer(slug: string, file: string, file2: string)
    requires Names.Ext(file) != Names.Ext(file2)
    ensures Names.ObjectKey(slug, file) != Names.ObjectKey(slug, file2)
  {
    assert Names.ObjectKey(slug, file)[|slug|..] == Names.Ext(file);
    assert Names.ObjectKey(slug, file2)[|slug|..] == Names.Ext(file2);
  }

  lemma ReplaceStep(slug: string, file: string, file2: string)
    requires Names.Ext(file) != Names.Ext(file2)
    ensures Step(Written(slug, file), Replace(slug, Some(file2), Calls(slug))) == Replaced(slug, file, file2)
  {
    var w, key2 := Written(slug, file), Names.ObjectKey(slug, file2);
    OnlyRow(slug, file);
    UpdatedIsOneRow(w.table, 0, ToKey(key2));
    var w' := Step(w, Replace(slug, Some(file2), Calls(slug)));
    assert w'.bucket == map[];
    assert w'.table.rows == map[0 := RowOf(slug, file).(key := key2)];
    assert w'.issued == {slug};
  }

  /** The INSERT is accepted, and MarkFailed changes the new row. */
  lemma MintedRows(slug: string, slug2: string, file: string, file2: string)
    requires slug != slug2 && Names.Ext(file) != Names.Ext(file2)
    ensures var t, key := Replaced(slug, file, file2).table, Names.ObjectKey(slug, file);
            var made := DiscoveredRow(slug2, key, Names.Base(key), 0);
            && Valid(t) && CanInsert(t, made) && HasSlug(Inserted(t, made), slug2)
            && Updated(Inserted(t, made), slug2, ToFailed) == Minted(slug, slug2, file, file2).table
  {
    var t, key := Replaced(slug, file, file2).table, Names.ObjectKey(slug, file);
    var made := DiscoveredRow(slug2, key, Names.Base(key), 0);
    KeysDiffer(slug, file, file2);
    assert Valid(t) && CanInsert(t, made);
    InsertAcceptedIffValid(t, made);
    var t1 := Inserted(t, made);
    assert t1.rows[1] == made;
    UpdatedIsOneRow(t1, 1, ToFailed);
    assert t1.rows[1 := made.(status := Failed)] == Minted(slug, slug2, file, file2).table.rows;
  }

  lemma MintedTable(slug: string, slug2: string, file: string, file2: string)
    requires slug != slug2 && Names.Ext(file) != Names.Ext(file2)
    ensures var w, key := Replaced(slug, file, file2), Names.ObjectKey(slug, file);
            && !HasKey(w.table, key)
            && IngestObject(w.bucket, w.table, key, Answering(slug2)) ==
               Ingested(Minted(slug, slug2, file, file2).table, true)
  {
    MintedRows(slug, slug2, file, file2);
  }

  lemma MintStep(slug: string, slug2: string, file: string, file2: string)
    requires slug != slug2 && Names.Ext(file) != Names.Ext(file2)
    ensures Step(Replaced(slug, file, file2), Handle(0, Answering(slug2))) == Minted(slug, slug2, file, file2)
    ensures Drawn(Replaced(slug, file, file2), Handle(0, Answering(slug2))) == {slug2}
  {
    MintedTable(slug, slug2, file, file2);
    assert {} + {0} == {0} && {slug} + {slug2} == {slug, slug2};
  }

  lemma ReachWritten(slug: string, file: string, rest: seq<Action>)
    requires NeverRepeats(Written(slug, file), rest)
    ensures var run := [UploadOf(slug, file)] + ([Put(Names.ObjectKey(slug, file), META, Single)] + rest);
            NeverRepeats(START, run) && Exec(START, run) == Exec(Written(slug, file), rest)
  {
    var put := Put(Names.ObjectKey(slug, file), META, Single);
    UploadIsRequested(slug, file);
    PutIsWritten(slug, file);
    PrependAction(Requested(slug, file), put, rest);
    PrependAction(START, UploadOf(slug, file), [put] + rest);
  }

  lemma ReachMinted(slug: string, slug2: string, file: string, file2: string, rest: seq<Action>)
    requires slug != slug2 && Names.Ext(file) != Names.Ext(file2)
    requires NeverRepeats(Minted(slug, slug2, file, file2), rest)
    ensures var run := MintingRun(slug, slug2, file, file2, rest);
            && NeverRepeats(START, run)
            && Exec(START, run) == Exec(Minted(slug, slug2, file, file2), rest)
  {
    var replace, handle := Replace(slug, Some(file2), Calls(slug)), Handle(0, Answering(slug2));
    ReplaceStep(slug, file, file2);
    MintStep(slug, slug2, file, file2);
    PrependAction(Replaced(slug, file, file2), handle, rest);
    PrependAction(Written(slug, file), replace, [handle] + rest);
    ReachWritten(slug, file, [replace] + ([handle] + rest));
  }

  /** The replacement has been written and confirmed. */
  function ReplacementConfirmed(slug: string, slug2: string, file: string, file2: string): World {
    var key2 := Names.ObjectKey(slug, file2);
    var w := Minted(slug, slug2, file, file2);
    w.(bucket := map[key2 := META],
       queue := w.queue[1 := Event("PutObject", key2)],
       handled := {0, 1},
       table := w.table.(rows := w.table.rows[0 := Set(w.table.rows[0], ToReady(META, 0))]),
       nextMessage := 2)
  }

  /** The replacement has been written. */
  function ReplacementWritten(slug: string, slug2: string, file: string, file2: string): World {
    var key2 := Names.ObjectKey(slug, file2);
    var w := Minted(slug, slug2, file, file2);
    w.(bucket := map[key2 := META], queue := w.queue[1 := Event("PutObject", key2)], nextMessage := 2)
  }

  lemma WriteStep(slug: string, slug2: string, file: string, file2: string)
    ensures Step(Minted(slug, slug2, file, file2), Put(Names.ObjectKey(slug, file2), META, Single)) ==
            ReplacementWritten(slug, slug2, file, file2)
  {
  }

  lemma ConfirmedTable(slug: string, slug2: string, file: string, file2: string)
    requires slug != slug2 && Names.Ext(file) != Names.Ext(file2)
    ensures var w, key2 := ReplacementWritten(slug, slug2, file, file2), Names.ObjectKey(slug, file2);
            && HasKey(w.table, key2)
            && IngestObject(w.bucket, w.table, key2, Answering(slug)) ==
               Ingested(ReplacementConfirmed(slug, slug2, file, file2).table, true)
  {
    var t := ReplacementWritten(slug, slug2, file, file2).table;
    KeysDiffer(slug, file, file2);
    assert Valid(t);
    FoundByKey(t, 0);
    UpdatedIsOneRow(t, 0, ToReady(META, 0));
    FoundBySlug(t, 0);
  }

  lemma ConfirmStep(slug: string, slug2: string, file: string, file2: string)
    requires slug != slug2 && Names.Ext(file) != Names.Ext(file2)
    ensures var w, a := ReplacementWritten(slug, slug2, file, file2), Handle(1, Answering(slug));
            Step(w, a) == ReplacementConfirmed(slug, slug2, file, file2) && Drawn(w, a) == {}
  {
    ConfirmedTable(slug, slug2, file, file2);
    assert {0} + {1} == {0, 1};
    assert {slug, slug2} + {} == {slug, slug2};
  }

  lemma ReachReplacementConfirmed(slug: string, slug2: string, file: string, file2: string)
    requires slug != slug2 && Names.Ext(file) != Names.Ext(file2)
    ensures exists run: seq<Action> ::
              NeverRepeats(START, run) && Exec(START, run) == ReplacementConfirmed(slug, slug2, file, file2)
  {
    var put, handle := Put(Names.ObjectKey(slug, file2), META, Single), Handle(1, Answering(slug));
    WriteStep(slug, slug2, file, file2);
    ConfirmStep(slug, slug2, file, file2);
    PrependAction(ReplacementWritten(slug, slug2, file, file2), handle, []);
    PrependAction(Minted(slug, slug2, file, file2), put, [handle] + []);
    ReachMinted(slug, slug2, file, file2, [put] + ([handle] + []));
  }

  /** That state is reached. From there a replace with the first kind of file removes the
      track's object and then fails on the UNIQUE constraint, with every call answered:
      the ready track is broken. */
  lemma ReplaceHitsMintedRow(slug: string, slug2: string, file: string, file2: string)
    requires slug != slug2 && Names.Ext(file) != Names.Ext(file2)
    ensures exists run: seq<Action> ::
              NeverRepeats(START, run) && Exec(START, run) == ReplacementConfirmed(slug, slug2, file, file2)
    ensures var w, last := ReplacementConfirmed(slug, slug2, file, file2), Replace(slug, Some(file), Calls(slug));
            && w.table.rows[0].slug == slug && w.table.rows[0].status == Ready && w.table.rows[0].key in w.bucket
            && AnswerOf(w, last).value.code == Handlers.SERVER_ERROR
            && Step(w, last).table == w.table
            && w.table.rows[0].key !in Step(w, last).bucket
  {
    ReachReplacementConfirmed(slug, slug2, file, file2);
    ReplaceFromReplacementConfirmed(slug, slug2, file, file2);
  }

  lemma ReplaceFromReplacementConfirmed(slug: string, slug2: string, file: string, file2: string)
    requires slug != slug2 && Names.Ext(file) != Names.Ext(file2)
    ensures var w, last := ReplacementConfirmed(slug, slug2, file, file2), Replace(slug, Some(file), Calls(slug));
            && w.table.rows[0].slug == slug && w.table.rows[0].status == Ready && w.table.rows[0].key in w.bucket
            && AnswerOf(w, last).value.code == Handlers.SERVER_ERROR
            && Step(w, last).table == w.table
            && w.table.rows[0].key !in Step(w, last).bucket
  {
    var w := ReplacementConfirmed(slug, slug2, file, file2);
    ConfirmedRows(slug, slug2, file, file2);
    Answers.ReplaceAnswers(Handlers.Site(w.bucket, w.table), slug, Some(file), Calls(slug));
  }

  /** The track's row has the second key, another row the first. */
  lemma ConfirmedRows(slug: string, slug2: string, file: string, file2: string)
    requires slug != slug2 && Names.Ext(file) != Names.Ext(file2)
    ensures var w, key, key2 := ReplacementConfirmed(slug, slug2, file, file2), Names.ObjectKey(slug, file),
                                Names.ObjectKey(slug, file2);
            && Valid(w.table) && RowWithSlug(w.table, slug) == Some(0) && HasKey(w.table, key)
            && w.table.rows[0].slug == slug && w.table.rows[0].status == Ready
            && w.table.rows[0].key == key2 != key && key2 in w.bucket
  {
    var t := ReplacementConfirmed(slug, slug2, file, file2).table;
    KeysDiffer(slug, file, file2);
    assert Valid(t);
    FoundBySlug(t, 0);
    assert t.rows[1].key == Names.ObjectKey(slug, file);
  }
}

/** The same system cut at every outside call. The poller and any number of delete, replace
    and play requests advance one call at a time and interleave with each other, with
    clients' writes and with the requests that consist of a single statement.

    Three assumptions are needed for the main result, and stated with it: `idgen` never
    repeats a slug; no two delete or replace requests for the same track overlap; and no
    client writes a key between the moment a delete, or a replace by another kind of file,
    has removed its object and the moment it changes the row. */
module Interleaving {
  import opened Wrappers
  import opened Tracks
  import opened R2
  import opened Ingest
  import opened System
  import opened Histories
  import Names
  import Handlers

  /** What Head said. */
  datatype Verdict = There(meta: Meta) | Gone | Unclear

  /** The next call of the poller. `row` is the identity of the row it looked up or made. */
  datatype PollerAt =
    | Idle
    | Looking(id: nat, key: string)
    | Minting(id: nat, key: string)
    | Heading(id: nat, key: string, slug: string, row: nat)
    | Marking(id: nat, key: string, slug: string, row: nat, verdict: Verdict)

  /** The next call of a delete or replace request in flight, with what its lookup found. */
  datatype RequestAt =
    | RemovingObject(slug: string, key: string, row: nat, change: RowChange)
    | ChangingRow(slug: string, key: string, row: nat, change: RowChange)

  datatype RowChange = DropRow | RepointRow(newKey: string)

  /** A play request between its lookup and its UPDATE: the link asked for, the row found. */
  datatype Beacon = Beacon(slug: string, row: nat)

  datatype Fine = Fine(world: World, poller: PollerAt, requests: map<nat, RequestAt>, plays: map<nat, Beacon>)

  /** Nothing but the stores: what a state is between polls, with no request in flight. */
  function Quiet(w: World): Fine {
    Fine(w, Idle, map[], map[])
  }

  const FINE_START := Quiet(START)

  datatype FineAction =
    | Fetch(id: nat)                                        // the poller turns to a message
    | Advance(env: Env)                                     // the poller makes its next call
    | BeginDelete(request: nat, slug: string, up: bool)     // a delete request looks up its track
    | BeginReplace(request: nat, slug: string, filename: string, up: bool)
    | Proceed(request: nat, removal: Removal, up: bool)     // that request makes its next call
    | Statement(a: Action)                                  // a client's write, or a one-statement request
    | BeginPlay(request: nat, slug: string, calls: Handlers.Calls)  // a play request looks up its track
    | CountPlay(request: nat, up: bool)                     // that request's UPDATE
    | Restart                                               // the process starts again

  /** The steps of module System that are a single call here as well. */
  predicate OneCall(a: Action) {
    a.Put? || a.Enqueue? || a.Ack? || a.Upload? || a.Rotate? || a.Edit?
  }

  ghost function FineDrawn(f: Fine, a: FineAction): set<string> {
    if a.Statement? && OneCall(a.a) then Drawn(f.world, a.a)
    else if a.Advance? && f.poller.Minting? then {a.env.slug}
    else {}
  }

  /** MarkReady with what Head said, or MarkFailed. */
  function PollerClause(p: PollerAt, e: Env): SetClause
    requires p.Marking?
  {
    if p.verdict.There? then ToReady(p.verdict.meta, e.now) else ToFailed
  }

  ghost function PollerStep(f: Fine, e: Env): Fine {
    var w := f.world;
    match f.poller
    case Idle => f
    case Looking(id, key) =>
      if !e.lookupUp then f.(poller := Idle)
      else (match RowWithKey(w.table, key)
            case None => f.(poller := Minting(id, key))
            case Some(row) => f.(poller := Heading(id, key, w.table.rows[row].slug, row)))
    case Minting(id, key) =>
      var made := Insert(w.table, DiscoveredRow(e.slug, key, Names.Base(key), e.now), e.insertUp);
      f.(world := w.(table := made.table, issued := w.issued + {e.slug}),
         poller := if made.reply == Done then Heading(id, key, e.slug, w.table.next) else Idle)
    case Heading(id, key, slug, row) =>
      f.(poller := Marking(id, key, slug, row,
        if !e.headUp then Unclear else if key in w.bucket then There(w.bucket[key]) else Gone))
    case Marking(id, key, slug, row, verdict) =>
      var handled := verdict.Gone? || (verdict.There? && e.markUp);
      f.(world := w.(table := Update(w.table, slug, PollerClause(f.poller, e), e.markUp).table,
                     handled := if handled then w.handled + {id} else w.handled),
         poller := Idle)
  }

  ghost function RequestStep(f: Fine, request: nat, removal: Removal, up: bool): Fine {
    var w := f.world;
    if request !in f.requests then f
    else match f.requests[request]
      case RemovingObject(slug, key, row, change) =>
        f.(world := w.(bucket := Handlers.Emptied(w.bucket, key, removal)),
           requests := if removal == Removed then f.requests[request := ChangingRow(slug, key, row, change)]
                       else f.requests - {request})
      case ChangingRow(slug, key, row, change) =>
        f.(world := w.(table := ChangedRow(w.table, slug, change, up).table), requests := f.requests - {request})
  }

  /** The statement that ends a delete or a replace. */
  ghost function ChangedRow(t: Table, slug: string, change: RowChange, up: bool): Sql {
    if change.DropRow? then Tracks.Delete(t, slug, up) else Update(t, slug, ToKey(change.newKey), up)
  }

  ghost function BeginStep(f: Fine, request: nat, slug: string, up: bool, change: RowChange): Fine {
    if request in f.requests || !up then f
    else match RowWithSlug(f.world.table, slug)
      case None => f
      case Some(row) =>
        f.(requests := f.requests[request := RemovingObject(slug, f.world.table.rows[row].key, row, change)])
  }

  ghost function FineStep(f: Fine, a: FineAction): Fine {
    var w := f.world;
    match a
    case Fetch(id) =>
      if !f.poller.Idle? || id !in w.queue || id in w.handled || w.queue[id].Malformed? then f
      else if !IsCreate(w.queue[id]) then f.(world := w.(handled := w.handled + {id}))
      else f.(poller := Looking(id, w.queue[id].key))
    case Advance(e) => PollerStep(f, e)
    case BeginDelete(request, slug, up) => BeginStep(f, request, slug, up, DropRow)
    case BeginReplace(request, slug, file, up) =>
      BeginStep(f, request, slug, up, RepointRow(Names.ObjectKey(slug, file)))
    case Proceed(request, removal, up) => RequestStep(f, request, removal, up)
    case Statement(s) =>
      if !OneCall(s) || (s.Ack? && !f.poller.Idle?) then f else f.(world := Step(w, s))
    case BeginPlay(request, slug, c) =>
      if request in f.plays || !Handlers.VisitTrack(w.table, slug, c).Shown? then f
      else f.(plays := f.plays[request := Beacon(slug, RowWithSlug(w.table, slug).value)])
    case CountPlay(request, up) =>
      if request !in f.plays then f
      else f.(world := w.(table := Update(w.table, f.plays[request].slug, PlusOnePlay, up).table),
              plays := f.plays - {request})
    case Restart => Quiet(w.(handled := {}))
  }

  ghost function FineExec(f: Fine, run: seq<FineAction>): Fine
    decreases |run|
  {
    if run == [] then f else FineExec(FineStep(f, run[0]), run[1..])
  }

  /** The request has removed its object and is about to change the row. */
  predicate AtRow(f: Fine, request: nat) {
    request in f.requests && f.requests[request].ChangingRow?
  }

  /** A client writes a key whose object a request in flight has just removed. */
  predicate WritesRemovedKey(f: Fine, a: FineAction) {
    && a.Statement? && a.a.Put?
    && exists q :: q in f.requests && AtRow(f, q) && f.requests[q].key == a.a.key
  }

  /** The same, and the request is about to take the key from its row. */
  predicate WritesLeavingKey(f: Fine, a: FineAction) {
    && a.Statement? && a.a.Put?
    && exists q :: q in f.requests && AtRow(f, q) && f.requests[q].key == a.a.key
                   && f.requests[q].change != RepointRow(a.a.key)
  }

  /** A delete or replace finds a row that another one in flight has found. */
  ghost predicate Overlaps(f: Fine, a: FineAction) {
    && (a.BeginDelete? || a.BeginReplace?) && a.up
    && exists q :: q in f.requests && RowWithSlug(f.world.table, a.slug) == Some(f.requests[q].row)
  }

  ghost predicate FreshSlugsOnly(f: Fine, run: seq<FineAction>)
    decreases |run|
  {
    run != [] ==> FineDrawn(f, run[0]) !! f.world.issued && FreshSlugsOnly(FineStep(f, run[0]), run[1..])
  }

  ghost predicate NoOverlap(f: Fine, run: seq<FineAction>)
    decreases |run|
  {
    run != [] ==> !Overlaps(f, run[0]) && NoOverlap(FineStep(f, run[0]), run[1..])
  }

  ghost predicate NoWriteInFlight(f: Fine, run: seq<FineAction>)
    decreases |run|
  {
    run != [] ==> !WritesLeavingKey(f, run[0]) && NoWriteInFlight(FineStep(f, run[0]), run[1..])
  }

  // ---------------------------------------------------------------- who a slug read earlier means

  /** A slug that was read from row `row` names that row or none. */
  ghost predicate Means(w: World, slug: string, row: nat) {
    && slug in w.issued
    && row < w.table.next
    && forall id :: id in w.table.rows && w.table.rows[id].slug == slug ==> id == row
  }

  /** What the poller and the requests in flight remember about rows. */
  ghost predicate SlugsRemembered(f: Fine) {
    && (f.poller.Heading? || f.poller.Marking? ==> Means(f.world, f.poller.slug, f.poller.row))
    && (forall q :: q in f.requests ==> Means(f.world, f.requests[q].slug, f.requests[q].row))
    && (forall r :: r in f.plays ==> Means(f.world, f.plays[r].slug, f.plays[r].row))
  }

  /** The message the poller is at is still in the queue and not counted as handled. */
  ghost predicate EventHeld(f: Fine) {
    !f.poller.Idle? ==>
      && f.poller.id in f.world.queue && f.poller.id !in f.world.handled
      && Creates(f.world.queue[f.poller.id], f.poller.key)
  }

  ghost predicate FineSound(f: Fine) {
    Sound(f.world) && SlugsIssued(f.world) && SlugsRemembered(f) && EventHeld(f)
  }

  /** A change of the table in which no row loses its key or gets an old slug. */
  ghost predicate Calm(w: World, w': World) {
    var t, t' := w.table, w'.table;
    && t.next <= t'.next && w.issued <= w'.issued
    && (forall id :: id in t.rows ==> id in t'.rows && t'.rows[id].key == t.rows[id].key)
    && (forall id :: id in t.rows ==> t'.rows[id].slug == t.rows[id].slug || t'.rows[id].slug !in w.issued)
    && (forall id :: id in t'.rows && id !in t.rows ==> id >= t.next && t'.rows[id].slug !in w.issued)
  }

  lemma CalmKeepsMemory(f: Fine, f': Fine)
    requires FineSound(f) && Calm(f.world, f'.world)
    requires f'.poller == f.poller && f'.requests == f.requests
    requires forall r :: r in f'.plays ==> r in f.plays && f'.plays[r] == f.plays[r]
    ensures SlugsRemembered(f')
  {
  }

  lemma RotateIsCalm(w: World, a: Action)
    requires Sound(w) && a.Rotate? && Drawn(w, a) !! w.issued
    ensures Calm(w, Step(w, a))
  {
    assert a.calls.slug in Drawn(w, a);
    UpdateTableStep(w.table, a.slug, ToSlug(a.calls.slug), a.calls.rowUp);
  }

  lemma EditIsCalm(w: World, a: Action)
    requires Sound(w) && a.Edit?
    ensures Calm(w, Step(w, a))
  {
    if a.form.Some? {
      UpdateTableStep(w.table, a.slug, Handlers.FormClause(a.form.value), a.calls.rowUp);
    }
  }

  lemma UploadIsCalm(w: World, a: Action)
    requires Sound(w) && a.Upload? && Drawn(w, a) !! w.issued
    ensures Calm(w, Step(w, a))
  {
    if a.req.Some? {
      assert a.calls.slug in Drawn(w, a);
    }
  }

  lemma StatementIsCalm(w: World, a: Action)
    requires Sound(w) && OneCall(a) && Drawn(w, a) !! w.issued
    ensures Calm(w, Step(w, a))
  {
    match a
    case Upload(_, _) => UploadIsCalm(w, a);
    case Rotate(_, _) => RotateIsCalm(w, a);
    case Edit(_, _, _) => EditIsCalm(w, a);
    case _ =>
  }

  lemma MarkIsCalm(w: World, slug: string, c: SetClause, up: bool)
    requires Sound(w) && (c.ToReady? || c.ToFailed? || c.PlusOnePlay?)
    ensures Calm(w, w.(table := Update(w.table, slug, c, up).table))
    ensures Valid(Update(w.table, slug, c, up).table)
  {
    StatementsKeepConstraints(w.table, slug, DiscoveredRow("", "", "", 0), c, up);
    UpdateTableStep(w.table, slug, c, up);
  }

  lemma PollerStepSound(f: Fine, e: Env)
    requires FineSound(f) && FineDrawn(f, Advance(e)) !! f.world.issued
    ensures FineSound(PollerStep(f, e))
  {
    var w, f' := f.world, PollerStep(f, e);
    match f.poller
    case Idle =>
    case Looking(id, key) =>
      if HasKey(w.table, key) {
        assert w.table.rows[RowWithKey(w.table, key).value].slug in w.issued;
      }
    case Minting(id, key) =>
      var r := DiscoveredRow(e.slug, key, Names.Base(key), e.now);
      StatementsKeepConstraints(w.table, e.slug, r, ToFailed, e.insertUp);
      CalmKeepsMemory(f, f'.(poller := f.poller));
    case Heading(_, _, _, _) =>
    case Marking(id, key, slug, row, verdict) =>
      MarkStepSound(f, e);
  }

  lemma MarkStepSound(f: Fine, e: Env)
    requires FineSound(f) && f.poller.Marking?
    ensures FineSound(PollerStep(f, e))
  {
    var w, p, f' := f.world, f.poller, PollerStep(f, e);
    MarkIsCalm(w, p.slug, PollerClause(p, e), e.markUp);
    CalmKeepsMemory(f, f'.(poller := f.poller));
  }

  lemma DropSound(f: Fine, request: nat, up: bool)
    requires FineSound(f) && AtRow(f, request) && f.requests[request].change.DropRow?
    ensures FineSound(RequestStep(f, request, Removed, up))
  {
    StatementsKeepConstraints(f.world.table, f.requests[request].slug, DiscoveredRow("", "", "", 0), ToFailed, up);
  }

  /** The slugs of all rows are as they were. */
  ghost predicate SameSlugs(t: Table, t': Table) {
    && t'.next == t.next && t'.rows.Keys == t.rows.Keys
    && forall id :: id in t.rows ==> t'.rows[id].slug == t.rows[id].slug
  }

  lemma SameSlugsKeepSound(f: Fine, t': Table, request: nat)
    requires FineSound(f) && SameSlugs(f.world.table, t') && Valid(t')
    ensures FineSound(f.(world := f.world.(table := t'), requests := f.requests - {request}))
  {
  }

  lemma RepointSound(f: Fine, request: nat, up: bool)
    requires FineSound(f) && AtRow(f, request) && f.requests[request].change.RepointRow?
    ensures FineSound(RequestStep(f, request, Removed, up))
  {
    var t, q := f.world.table, f.requests[request];
    StatementsKeepConstraints(t, q.slug, DiscoveredRow("", "", "", 0), ToKey(q.change.newKey), up);
    UpdateTableStep(t, q.slug, ToKey(q.change.newKey), up);
    SameSlugsKeepSound(f, RequestStep(f, request, Removed, up).world.table, request);
  }

  lemma RowChangeSound(f: Fine, request: nat, up: bool)
    requires FineSound(f) && AtRow(f, request)
    ensures FineSound(RequestStep(f, request, Removed, up))
  {
    if f.requests[request].change.DropRow? {
      DropSound(f, request, up);
    } else {
      RepointSound(f, request, up);
    }
  }

  lemma BeginSound(f: Fine, request: nat, slug: string, up: bool, change: RowChange)
    requires FineSound(f)
    ensures FineSound(BeginStep(f, request, slug, up, change))
  {
    if HasSlug(f.world.table, slug) {
      FoundBySlug(f.world.table, RowWithSlug(f.world.table, slug).value);
    }
  }

  lemma StatementSound(f: Fine, a: Action)
    requires FineSound(f) && FineDrawn(f, Statement(a)) !! f.world.issued
    ensures FineSound(FineStep(f, Statement(a)))
  {
    if OneCall(a) {
      StatementIsCalm(f.world, a);
      StepIsSound(f.world, a);
      StepIssues(f.world, a);
      CalmKeepsMemory(f, f.(world := Step(f.world, a)));
    }
  }

  lemma BeginPlaySound(f: Fine, request: nat, slug: string, c: Handlers.Calls)
    requires FineSound(f)
    ensures FineSound(FineStep(f, BeginPlay(request, slug, c)))
  {
    if HasSlug(f.world.table, slug) {
      FoundBySlug(f.world.table, RowWithSlug(f.world.table, slug).value);
    }
  }

  lemma CountSound(f: Fine, request: nat, up: bool)
    requires FineSound(f)
    ensures FineSound(FineStep(f, CountPlay(request, up)))
  {
    if request in f.plays {
      MarkIsCalm(f.world, f.plays[request].slug, PlusOnePlay, up);
      UpdateTableStep(f.world.table, f.plays[request].slug, PlusOnePlay, up);
      CalmKeepsMemory(f, FineStep(f, CountPlay(request, up)));
    }
  }

  lemma FineStepSound(f: Fine, a: FineAction)
    requires FineSound(f) && FineDrawn(f, a) !! f.world.issued
    ensures FineSound(FineStep(f, a))
  {
    match a
    case Fetch(id) =>
    case Advance(e) => PollerStepSound(f, e);
    case BeginDelete(request, slug, up) => BeginSound(f, request, slug, up, DropRow);
    case BeginReplace(request, slug, file, up) =>
      BeginSound(f, request, slug, up, RepointRow(Names.ObjectKey(slug, file)));
    case Proceed(request, removal, up) =>
      if AtRow(f, request) {
        RowChangeSound(f, request, up);
      }
    case Statement(s) => StatementSound(f, s);
    case BeginPlay(request, slug, c) => BeginPlaySound(f, request, slug, c);
    case CountPlay(request, up) => CountSound(f, request, up);
    case Restart =>
  }

  lemma {:induction false} FineRunSound(f: Fine, run: seq<FineAction>)
    requires FineSound(f) && FreshSlugsOnly(f, run)
    ensures FineSound(FineExec(f, run))
    decreases |run|
  {
    if run != [] {
      FineStepSound(f, run[0]);
      FineRunSound(FineStep(f, run[0]), run[1..]);
    }
  }

  /** Only a rotate changes slugs. */
  lemma UpdateKeepsSlugs(t: Table, slug: string, c: SetClause, up: bool)
    requires !c.ToSlug?
    ensures var t' := Update(t, slug, c, up).table;
            && t'.rows.Keys == t.rows.Keys
            && (forall id :: id in t.rows ==> t'.rows[id].slug == t.rows[id].slug)
            && (forall s :: HasSlug(t', s) ==> HasSlug(t, s))
  {
    var t' := Update(t, slug, c, up).table;
    forall s | HasSlug(t', s)
      ensures HasSlug(t, s)
    {
      var id :| id in t'.rows && t'.rows[id].slug == s;
      assert t.rows[id].slug == s;
    }
  }

  lemma StepRevivesNoSlug(f: Fine, a: FineAction, slug: string)
    requires FineSound(f) && FineDrawn(f, a) !! f.world.issued
    requires slug in f.world.issued && !HasSlug(f.world.table, slug)
    ensures slug in FineStep(f, a).world.issued && !HasSlug(FineStep(f, a).world.table, slug)
  {
    var t := f.world.table;
    match a
    case Advance(e) =>
      if f.poller.Marking? {
        var p := f.poller;
        UpdateKeepsSlugs(t, p.slug, PollerClause(p, e), e.markUp);
      }
    case Proceed(request, removal, up) =>
      if AtRow(f, request) && f.requests[request].change.RepointRow? {
        UpdateKeepsSlugs(t, f.requests[request].slug, ToKey(f.requests[request].change.newKey), up);
      }
    case Statement(s) =>
      if OneCall(s) {
        StatementIsCalm(f.world, s);
      }
    case CountPlay(request, up) =>
      if request in f.plays {
        UpdateKeepsSlugs(t, f.plays[request].slug, PlusOnePlay, up);
      }
    case _ =>
  }

  /** Rotation is permanent under every interleaving too: a slug that was drawn and names no
      row never names one again, also when a request that still holds it is in flight. */
  lemma {:induction false} NoSlugRevives(f: Fine, run: seq<FineAction>, slug: string)
    requires FineSound(f) && FreshSlugsOnly(f, run)
    requires slug in f.world.issued && !HasSlug(f.world.table, slug)
    ensures !HasSlug(FineExec(f, run).world.table, slug)
    decreases |run|
  {
    if run != [] {
      FineStepSound(f, run[0]);
      StepRevivesNoSlug(f, run[0], slug);
      NoSlugRevives(FineStep(f, run[0]), run[1..], slug);
    }
  }

  /** A restart forgets which messages were handled, and no message with it: nothing can be
      acknowledged before it has been handled again, and the poller turns to every queued
      create event once more. */
  lemma RestartLosesNoMessage(f: Fine, id: nat, dropped: set<nat>)
    requires id in f.world.queue
    ensures var f1 := FineStep(f, Restart);
            && f1.world.queue == f.world.queue
            && FineStep(f1, Statement(Ack(dropped))).world.queue == f.world.queue
            && (IsCreate(f.world.queue[id]) ==> FineStep(f1, Fetch(id)).poller == Looking(id, f.world.queue[id].key))
  {
    assert f.world.queue - (dropped * {}) == f.world.queue;
  }

  /** Under every interleaving, a MarkReady or MarkFailed that uses a slug read earlier
      changes the row that was looked up then, or no row: rotations, replacements and
      deletions in between cannot send it to another track. Of that row it changes only
      the columns ingest owns. */
  lemma StaleWritesAreSafe(run: seq<FineAction>, e: Env)
    requires FreshSlugsOnly(FINE_START, run) && FineExec(FINE_START, run).poller.Marking?
    ensures var f := FineExec(FINE_START, run);
            var t, t' := f.world.table, PollerStep(f, e).world.table;
            && t'.rows.Keys == t.rows.Keys
            && (forall id :: id in t.rows && id != f.poller.row ==> t'.rows[id] == t.rows[id])
            && (f.poller.row in t.rows ==> SameIdentity(t.rows[f.poller.row], t'.rows[f.poller.row]))
  {
    FineRunSound(FINE_START, run);
    var f := FineExec(FINE_START, run);
    var p := f.poller;
    UpdateTableStep(f.world.table, p.slug, PollerClause(p, e), e.markUp);
  }

  /** When a confirmation lands: after an answered MarkReady the key that was asked about has
      a ready row with what Head said exactly when the row that was looked up still has that
      key and that slug, or the key had such a row already. A replace by another kind of
      file changes the key, a rotate changes the slug; the message counts as handled all the
      same. Whether the object is still there is the next lemma's matter. */
  lemma ConfirmationLandsIff(run: seq<FineAction>, e: Env)
    requires FreshSlugsOnly(FINE_START, run) && e.markUp
    requires var p := FineExec(FINE_START, run).poller;
             p.Marking? && p.verdict.There?
    ensures var f := FineExec(FINE_START, run);
            var p, t, w' := f.poller, f.world.table, PollerStep(f, e).world;
            && p.id in w'.handled
            && (HasConfirmed(w'.table, p.key, p.verdict.meta) <==>
                  || (p.row in t.rows && t.rows[p.row].key == p.key && t.rows[p.row].slug == p.slug)
                  || HasConfirmed(t, p.key, p.verdict.meta))
  {
    FineRunSound(FINE_START, run);
    var f := FineExec(FINE_START, run);
    var p, t, t' := f.poller, f.world.table, PollerStep(f, e).world.table;
    UpdateTableStep(t, p.slug, ToReady(p.verdict.meta, e.now), e.markUp);
    if HasConfirmed(t', p.key, p.verdict.meta) {
      var id :| id in t'.rows && t'.rows[id].key == p.key && Confirmed(t'.rows[id], p.verdict.meta);
      assert t'.rows[id] == t.rows[id] || id == p.row;
    }
    if HasConfirmed(t, p.key, p.verdict.meta) {
      var id :| id in t.rows && t.rows[id].key == p.key && Confirmed(t.rows[id], p.verdict.meta);
      assert t'.rows[id].key == p.key && Confirmed(t'.rows[id], p.verdict.meta);
    }
    if p.row in t.rows && t.rows[p.row].key == p.key && t.rows[p.row].slug == p.slug {
      assert HasSlug(t, p.slug);
      assert t'.rows[p.row].key == p.key && Confirmed(t'.rows[p.row], p.verdict.meta);
    }
  }

  /** The ready rows that have no object. */
  ghost function ReadyWithoutObject(w: World): set<nat> {
    set id | id in w.table.rows && w.table.rows[id].status == Ready && w.table.rows[id].key !in w.bucket
  }

  /** What an answered MarkReady can break: it adds to the ready rows without an object the
      row that now carries the slug it was told, exactly when that row's key has no object,
      and no other row. */
  lemma ConfirmationBreaksIff(f: Fine, e: Env)
    requires FineSound(f) && f.poller.Marking? && f.poller.verdict.There? && e.markUp
    ensures var t := f.world.table;
            ReadyWithoutObject(PollerStep(f, e).world) ==
            ReadyWithoutObject(f.world) +
              if HasSlug(t, f.poller.slug) && t.rows[RowWithSlug(t, f.poller.slug).value].key !in f.world.bucket
              then {RowWithSlug(t, f.poller.slug).value} else {}
  {
    var t, p := f.world.table, f.poller;
    if HasSlug(t, p.slug) {
      MarkedRow(f, RowWithSlug(t, p.slug).value, e);
    } else {
      assert PollerStep(f, e).world.table == t;
    }
  }

  lemma MarkedRow(f: Fine, row: nat, e: Env)
    requires FineSound(f) && f.poller.Marking? && f.poller.verdict.There? && e.markUp
    requires row in f.world.table.rows && f.world.table.rows[row].slug == f.poller.slug
    ensures var t, p := f.world.table, f.poller;
            PollerStep(f, e).world.table ==
            t.(rows := t.rows[row := Set(t.rows[row], ToReady(p.verdict.meta, e.now))])
  {
    assert HasSlug(f.world.table, f.poller.slug);
    UpdatedIsOneRow(f.world.table, row, ToReady(f.poller.verdict.meta, e.now));
  }

  // ---------------------------------------------------------------- requests for different tracks

  /** Requests in flight are for different rows, and each row still has the key that was read. */
  ghost predicate Apart(f: Fine) {
    && (forall q :: q in f.requests ==>
          && f.requests[q].row in f.world.table.rows
          && f.world.table.rows[f.requests[q].row].key == f.requests[q].key)
    && (forall q, r :: q in f.requests && r in f.requests && f.requests[q].row == f.requests[r].row ==> q == r)
  }

  lemma CalmKeepsApart(f: Fine, f': Fine)
    requires Apart(f) && Calm(f.world, f'.world) && f'.requests == f.requests
    ensures Apart(f')
  {
  }

  lemma RequestKeepsApart(f: Fine, request: nat, removal: Removal, up: bool)
    requires FineSound(f) && Apart(f)
    ensures Apart(RequestStep(f, request, removal, up))
  {
    if AtRow(f, request) && f.requests[request].change.RepointRow? {
      UpdateTableStep(f.world.table, f.requests[request].slug, ToKey(f.requests[request].change.newKey), up);
    }
  }

  lemma MarkKeepsApart(f: Fine, e: Env)
    requires FineSound(f) && Apart(f) && f.poller.Marking?
    ensures Apart(PollerStep(f, e))
  {
    MarkIsCalm(f.world, f.poller.slug, PollerClause(f.poller, e), e.markUp);
    CalmKeepsApart(f, PollerStep(f, e));
  }

  lemma PollerKeepsApart(f: Fine, e: Env)
    requires FineSound(f) && Apart(f)
    ensures Apart(PollerStep(f, e))
  {
    if f.poller.Marking? {
      MarkKeepsApart(f, e);
    }
  }

  lemma StatementKeepsApart(f: Fine, a: Action)
    requires FineSound(f) && Apart(f) && FineDrawn(f, Statement(a)) !! f.world.issued
    ensures Apart(FineStep(f, Statement(a)))
  {
    if OneCall(a) {
      StatementIsCalm(f.world, a);
      CalmKeepsApart(f, f.(world := Step(f.world, a)));
    }
  }

  lemma CountKeepsApart(f: Fine, request: nat, up: bool)
    requires FineSound(f) && Apart(f)
    ensures Apart(FineStep(f, CountPlay(request, up)))
  {
    if request in f.plays {
      MarkIsCalm(f.world, f.plays[request].slug, PlusOnePlay, up);
      CalmKeepsApart(f, FineStep(f, CountPlay(request, up)));
    }
  }

  lemma BeginKeepsApart(f: Fine, a: FineAction)
    requires Apart(f) && (a.BeginDelete? || a.BeginReplace?) && !Overlaps(f, a)
    ensures Apart(FineStep(f, a))
  {
  }

  lemma FineStepKeepsApart(f: Fine, a: FineAction)
    requires FineSound(f) && Apart(f) && FineDrawn(f, a) !! f.world.issued && !Overlaps(f, a)
    ensures Apart(FineStep(f, a))
  {
    if a.Advance? {
      PollerKeepsApart(f, a.env);
    } else if a.Proceed? {
      RequestKeepsApart(f, a.request, a.removal, a.up);
    } else if a.Statement? {
      StatementKeepsApart(f, a.a);
    } else if a.CountPlay? {
      CountKeepsApart(f, a.request, a.up);
    } else if a.BeginDelete? || a.BeginReplace? {
      BeginKeepsApart(f, a);
    }
  }

  // ---------------------------------------------------------------- no object is lost

  /** Every object has a row with its key, or a create event still to be handled. */
  ghost predicate NoOrphan(w: World) {
    forall k :: k in w.bucket ==> HasKey(w.table, k) || Awaited(w, k)
  }

  /** Another create event than `id` for `key` is still to be handled. */
  ghost predicate AwaitedBesides(w: World, key: string, id: nat) {
    exists m :: m != id && m in w.queue && m !in w.handled && Creates(w.queue[m], key)
  }

  /** Once the poller has found or made a row, it may finish with its event: if the key has
      an object, the row is there or another event is. */
  ghost predicate MayFinish(f: Fine) {
    (f.poller.Heading? || f.poller.Marking?) && f.poller.key in f.world.bucket ==>
      HasKey(f.world.table, f.poller.key) || AwaitedBesides(f.world, f.poller.key, f.poller.id)
  }

  /** Before a request in flight takes its key from the row, the object is gone. */
  ghost predicate ObjectGoneFirst(f: Fine) {
    forall q :: AtRow(f, q) && f.requests[q].change != RepointRow(f.requests[q].key) ==>
      f.requests[q].key !in f.world.bucket
  }

  ghost predicate Kept(f: Fine) {
    FineSound(f) && Apart(f) && NoOrphan(f.world) && MayFinish(f) && ObjectGoneFirst(f)
  }

  /** No new object, no event gone or newly handled, and no object's row gone. */
  ghost predicate LosesNothing(w: World, w': World) {
    && w'.bucket.Keys <= w.bucket.Keys
    && (forall id :: id in w.queue && id !in w.handled ==>
          id in w'.queue && id !in w'.handled && w'.queue[id] == w.queue[id])
    && (forall k :: k in w'.bucket && HasKey(w.table, k) ==> HasKey(w'.table, k))
  }

  lemma LosesNothingKeeps(f: Fine, f': Fine)
    requires NoOrphan(f.world) && MayFinish(f) && LosesNothing(f.world, f'.world)
    ensures NoOrphan(f'.world)
    ensures f'.poller == f.poller || f'.poller.Idle? || f'.poller.Looking? ==> MayFinish(f')
  {
  }

  lemma CalmKeepsKeys(w: World, w': World)
    requires Calm(w, w')
    ensures forall k :: HasKey(w.table, k) ==> HasKey(w'.table, k)
  {
  }

  /** A client's write announces itself, also to a poller that is busy with the same key. */
  lemma PutKept(f: Fine, a: FineAction)
    requires Kept(f) && a.Statement? && a.a.Put? && !WritesLeavingKey(f, a)
    requires FineSound(FineStep(f, a)) && Apart(FineStep(f, a))
    ensures Kept(FineStep(f, a))
  {
    var w, w', key := f.world, FineStep(f, a).world, a.a.key;
    var added := w.nextMessage;
    assert added in w'.queue && added !in w'.handled && Creates(w'.queue[added], key);
    forall k | k in w'.bucket
      ensures HasKey(w'.table, k) || Awaited(w', k)
    {
      if k != key && !HasKey(w.table, k) {
        var id :| id in w.queue && id !in w.handled && Creates(w.queue[id], k);
        assert id in w'.queue && id !in w'.handled && Creates(w'.queue[id], k);
      }
    }
    if f.poller.Heading? || f.poller.Marking? {
      assert f.poller.id != added;
      if f.poller.key != key && f.poller.key in w.bucket && !HasKey(w.table, f.poller.key) {
        var m :| m != f.poller.id && m in w.queue && m !in w.handled && Creates(w.queue[m], f.poller.key);
        assert m in w'.queue && m !in w'.handled && Creates(w'.queue[m], f.poller.key);
      }
    }
  }

  /** The poller may count its event as handled. */
  lemma FinishKept(f: Fine, e: Env)
    requires Kept(f) && f.poller.Marking? && FineSound(PollerStep(f, e)) && Apart(PollerStep(f, e))
    ensures Kept(PollerStep(f, e))
  {
    var w, p, f' := f.world, f.poller, PollerStep(f, e);
    var w' := f'.world;
    var t' := w.(table := w'.table);
    MarkIsCalm(w, p.slug, PollerClause(p, e), e.markUp);
    CalmKeepsKeys(w, t');
    forall k | k in w'.bucket
      ensures HasKey(w'.table, k) || Awaited(w', k)
    {
      if !HasKey(w.table, k) {
        if k == p.key {
          var m :| m != p.id && m in w.queue && m !in w.handled && Creates(w.queue[m], k);
          assert m in w'.queue && m !in w'.handled && Creates(w'.queue[m], k);
        } else {
          var m :| m in w.queue && m !in w.handled && Creates(w.queue[m], k);
          assert m != p.id;
          assert m in w'.queue && m !in w'.handled && Creates(w'.queue[m], k);
        }
      }
    }
  }

  lemma MintKept(f: Fine, e: Env)
    requires Kept(f) && f.poller.Minting? && FineSound(PollerStep(f, e)) && Apart(PollerStep(f, e))
    requires FineDrawn(f, Advance(e)) !! f.world.issued
    ensures Kept(PollerStep(f, e))
  {
    var f' := PollerStep(f, e);
    assert Calm(f.world, f'.world);
    CalmKeepsKeys(f.world, f'.world);
    LosesNothingKeeps(f, f'.(poller := Idle));
    if f'.poller.Heading? {
      assert f'.world.table.rows[f.world.table.next].key == f.poller.key;
    }
  }

  lemma PollerKept(f: Fine, e: Env)
    requires Kept(f) && FineSound(PollerStep(f, e)) && Apart(PollerStep(f, e))
    requires FineDrawn(f, Advance(e)) !! f.world.issued
    ensures Kept(PollerStep(f, e))
  {
    if f.poller.Minting? {
      MintKept(f, e);
    } else if f.poller.Marking? {
      FinishKept(f, e);
    } else {
      assert PollerStep(f, e).world == f.world;
    }
  }

  lemma OtherKeysStay(f: Fine, request: nat, up: bool)
    requires FineSound(f) && Apart(f) && AtRow(f, request)
    ensures var q := f.requests[request];
            forall k :: HasKey(f.world.table, k) && (k != q.key || q.change == RepointRow(k)) ==>
              HasKey(RequestStep(f, request, Removed, up).world.table, k)
  {
    var t, q, t' := f.world.table, f.requests[request], RequestStep(f, request, Removed, up).world.table;
    if q.change.RepointRow? {
      UpdateTableStep(t, q.slug, ToKey(q.change.newKey), up);
    }
    forall k | HasKey(t, k) && (k != q.key || q.change == RepointRow(k))
      ensures HasKey(t', k)
    {
      var id :| id in t.rows && t.rows[id].key == k;
      assert id in t'.rows && t'.rows[id].key == k;
    }
  }

  lemma RowChangeKept(f: Fine, request: nat, up: bool)
    requires Kept(f) && AtRow(f, request)
    ensures LosesNothing(f.world, RequestStep(f, request, Removed, up).world)
  {
    OtherKeysStay(f, request, up);
  }

  lemma RemovalKept(f: Fine, request: nat, removal: Removal, up: bool)
    requires !AtRow(f, request)
    ensures LosesNothing(f.world, RequestStep(f, request, removal, up).world)
  {
    assert RequestStep(f, request, removal, up).world.table == f.world.table;
  }

  lemma RequestKeepsGone(f: Fine, request: nat, removal: Removal, up: bool)
    requires ObjectGoneFirst(f)
    ensures ObjectGoneFirst(RequestStep(f, request, removal, up))
  {
    var f' := RequestStep(f, request, removal, up);
    forall q | AtRow(f', q) && f'.requests[q].change != RepointRow(f'.requests[q].key)
      ensures f'.requests[q].key !in f'.world.bucket
    {
      assert AtRow(f, q) || q == request;
    }
  }

  /** Each single call of a delete or a replace keeps every object accounted for. */
  lemma RequestKept(f: Fine, request: nat, removal: Removal, up: bool)
    requires Kept(f) && FineSound(RequestStep(f, request, removal, up))
    ensures Kept(RequestStep(f, request, removal, up))
  {
    var f' := RequestStep(f, request, removal, up);
    RequestKeepsApart(f, request, removal, up);
    RequestKeepsGone(f, request, removal, up);
    if AtRow(f, request) {
      RowChangeKept(f, request, up);
    } else {
      RemovalKept(f, request, removal, up);
    }
    LosesNothingKeeps(f, f');
  }

  /** Calls that lose nothing and bring no request to its row. */
  lemma StillKept(f: Fine, f': Fine)
    requires Kept(f) && FineSound(f') && Apart(f') && LosesNothing(f.world, f'.world)
    requires f'.poller == f.poller || f'.poller.Idle? || f'.poller.Looking?
    requires forall q :: AtRow(f', q) ==> AtRow(f, q) && f'.requests[q] == f.requests[q]
    ensures Kept(f')
  {
    LosesNothingKeeps(f, f');
  }

  lemma BeginKept(f: Fine, a: FineAction)
    requires Kept(f) && (a.BeginDelete? || a.BeginReplace? || a.BeginPlay?)
    requires FineSound(FineStep(f, a)) && Apart(FineStep(f, a))
    ensures Kept(FineStep(f, a))
  {
    BeginChanges(f, a);
    StillKept(f, FineStep(f, a));
  }

  /** The first call of a request changes no store and brings no request to its row. */
  lemma BeginChanges(f: Fine, a: FineAction)
    requires a.BeginDelete? || a.BeginReplace? || a.BeginPlay?
    ensures var f' := FineStep(f, a);
            && f'.world == f.world && f'.poller == f.poller
            && forall q :: AtRow(f', q) ==> AtRow(f, q) && f'.requests[q] == f.requests[q]
  {
  }

  lemma FineStepKept(f: Fine, a: FineAction)
    requires Kept(f) && FineDrawn(f, a) !! f.world.issued && !WritesLeavingKey(f, a) && !Overlaps(f, a)
    ensures Kept(FineStep(f, a))
  {
    FineStepSound(f, a);
    FineStepKeepsApart(f, a);
    if a.Fetch? {
      FetchKept(f, a.id);
    } else if a.Advance? {
      PollerKept(f, a.env);
    } else if a.Proceed? {
      RequestKept(f, a.request, a.removal, a.up);
    } else if a.Statement? {
      if a.a.Put? {
        PutKept(f, a);
      } else {
        StatementKept(f, a.a);
      }
    } else if a.CountPlay? {
      CountKept(f, a.request, a.up);
    } else if a.Restart? {
      LosesNothingKeeps(f, FineStep(f, a));
    } else {
      BeginKept(f, a);
    }
  }

  lemma CountKept(f: Fine, request: nat, up: bool)
    requires Kept(f) && FineSound(FineStep(f, CountPlay(request, up))) && Apart(FineStep(f, CountPlay(request, up)))
    ensures Kept(FineStep(f, CountPlay(request, up)))
  {
    var f' := FineStep(f, CountPlay(request, up));
    if request in f.plays {
      MarkIsCalm(f.world, f.plays[request].slug, PlusOnePlay, up);
      CalmKeepsKeys(f.world, f'.world);
    }
    StillKept(f, f');
  }

  lemma StatementKept(f: Fine, a: Action)
    requires Kept(f) && FineSound(FineStep(f, Statement(a))) && Apart(FineStep(f, Statement(a)))
    requires FineDrawn(f, Statement(a)) !! f.world.issued && !a.Put?
    ensures Kept(FineStep(f, Statement(a)))
  {
    if OneCall(a) {
      StatementLosesNothing(f.world, a);
      StillKept(f, FineStep(f, Statement(a)));
    }
  }

  lemma StatementLosesNothing(w: World, a: Action)
    requires Sound(w) && OneCall(a) && Drawn(w, a) !! w.issued && !a.Put?
    ensures LosesNothing(w, Step(w, a))
  {
    StatementIsCalm(w, a);
    CalmKeepsKeys(w, Step(w, a));
  }

  lemma FetchKept(f: Fine, id: nat)
    requires Kept(f) && FineSound(FineStep(f, Fetch(id)))
    ensures Kept(FineStep(f, Fetch(id)))
  {
    FetchOrphansNothing(f, id);
    assert forall q :: AtRow(FineStep(f, Fetch(id)), q) ==> AtRow(f, q);
  }

  lemma FetchOrphansNothing(f: Fine, id: nat)
    requires NoOrphan(f.world)
    ensures NoOrphan(FineStep(f, Fetch(id)).world)
  {
    var w, w' := f.world, FineStep(f, Fetch(id)).world;
    forall k | k in w'.bucket
      ensures HasKey(w'.table, k) || Awaited(w', k)
    {
      if !HasKey(w.table, k) {
        var m :| m in w.queue && m !in w.handled && Creates(w.queue[m], k);
        assert m in w'.queue && m !in w'.handled && Creates(w'.queue[m], k);
      }
    }
  }

  lemma {:induction false} FineRunKept(f: Fine, run: seq<FineAction>)
    requires Kept(f) && FreshSlugsOnly(f, run) && NoOverlap(f, run) && NoWriteInFlight(f, run)
    ensures Kept(FineExec(f, run))
    decreases |run|
  {
    if run != [] {
      FineStepKept(f, run[0]);
      FineRunKept(FineStep(f, run[0]), run[1..]);
    }
  }

  /** Under every interleaving within the three assumptions, with any failure of any call and
      any restart, every object has a row with its key or a create event not yet counted as
      handled: no file ends up in the bucket unknown to the application. */
  lemma NoObjectIsOrphaned(run: seq<FineAction>, key: string)
    requires FreshSlugsOnly(FINE_START, run) && NoOverlap(FINE_START, run) && NoWriteInFlight(FINE_START, run)
    requires key in FineExec(FINE_START, run).world.bucket
    ensures var w := FineExec(FINE_START, run).world;
            HasKey(w.table, key) || Awaited(w, key)
  {
    FineRunKept(FINE_START, run);
  }
}

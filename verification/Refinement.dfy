/** The two granularities describe one program: every run of module System, with its
    whole requests and whole messages, is a run of module Interleaving in which each of
    them makes its calls without interruption; and such a run keeps the rules under which
    the results about interleaved runs hold. */
module Refinement {
  import opened Tracks
  import opened R2
  import opened Ingest
  import opened System
  import opened Interleaving
  import opened FineAgreement
  import Names
  import Handlers

  lemma {:induction false} FineExecComposes(f: Fine, a: seq<FineAction>, b: seq<FineAction>)
    ensures FineExec(f, a + b) == FineExec(FineExec(f, a), b)
    decreases |a|
  {
    if a == [] {
      assert a + b == b;
    } else {
      assert (a + b)[1..] == a[1..] + b;
      FineExecComposes(FineStep(f, a[0]), a[1..], b);
    }
  }

  lemma FirstStep(f: Fine, a: FineAction, rest: seq<FineAction>)
    ensures FineExec(f, [a] + rest) == FineExec(FineStep(f, a), rest)
  {
  }

  function Advances(e: Env, n: nat): seq<FineAction> {
    if n == 0 then [] else [Advance(e)] + Advances(e, n - 1)
  }

  /** The calls the poller makes, one after the other. */
  ghost function AdvancedBy(f: Fine, e: Env, n: nat): Fine
    decreases n
  {
    if n == 0 then f else AdvancedBy(PollerStep(f, e), e, n - 1)
  }

  lemma {:induction false} AdvancesRun(f: Fine, e: Env, n: nat)
    ensures FineExec(f, Advances(e, n)) == AdvancedBy(f, e, n)
    decreases n
  {
    if n > 0 {
      FirstStep(f, Advance(e), Advances(e, n - 1));
      AdvancesRun(PollerStep(f, e), e, n - 1);
    }
  }

  lemma {:induction false} IdleStays(f: Fine, e: Env, n: nat)
    requires f.poller.Idle?
    ensures AdvancedBy(f, e, n) == f
    decreases n
  {
    if n > 0 {
      IdleStays(f, e, n - 1);
    }
  }

  /** From Head on: two calls, and the result of `Confirm`. */
  lemma ConfirmByCalls(f: Fine, e: Env, n: nat)
    requires f.poller.Heading? && n >= 2
    ensures var w, p := f.world, f.poller;
            var r := Confirm(w.bucket, w.table, p.key, p.slug, e);
            AdvancedBy(f, e, n) ==
            f.(world := w.(table := r.table, handled := if r.handled then w.handled + {p.id} else w.handled),
               poller := Idle)
  {
    var f1 := PollerStep(f, e);
    var f2 := PollerStep(f1, e);
    IdleStays(f2, e, n - 2);
    assert AdvancedBy(f1, e, n - 1) == AdvancedBy(f2, e, n - 2);
  }

  /** `ingestObject` by its calls: lookup, INSERT if need be, Head, MarkReady or MarkFailed;
      whatever other requests are in flight, as long as they do not move. */
  lemma IngestByCalls(f: Fine, e: Env)
    requires f.poller.Looking?
    ensures var w, id, key := f.world, f.poller.id, f.poller.key;
            var r := IngestObject(w.bucket, w.table, key, e);
            var drawn := if e.lookupUp && !HasKey(w.table, key) then {e.slug} else {};
            AdvancedBy(f, e, 4) ==
            f.(world := w.(table := r.table, issued := w.issued + drawn,
                           handled := if r.handled then w.handled + {id} else w.handled),
               poller := Idle)
  {
    var w := f.world;
    assert w.issued + {} == w.issued;
    var f1 := PollerStep(f, e);
    assert AdvancedBy(f, e, 4) == AdvancedBy(f1, e, 3);
    if f1.poller.Idle? {
      IdleStays(f1, e, 3);
    } else if f1.poller.Heading? {
      ConfirmByCalls(f1, e, 3);
    } else {
      var f2 := PollerStep(f1, e);
      assert AdvancedBy(f1, e, 3) == AdvancedBy(f2, e, 2);
      if f2.poller.Heading? {
        ConfirmByCalls(f2, e, 2);
      } else {
        IdleStays(f2, e, 2);
      }
    }
  }

  /** The calls of one step of module System. */
  ghost function CallsOf(w: World, a: Action): seq<FineAction> {
    match a
    case Handle(id, e) => if id in w.queue && id !in w.handled then [Fetch(id)] + Advances(e, 4) else []
    case Delete(slug, c) =>
      [BeginDelete(0, slug, c.lookupUp), Proceed(0, c.removal, c.rowUp), Proceed(0, c.removal, c.rowUp)]
    case Replace(slug, file, c) =>
      if file.None? then []
      else
        [BeginReplace(0, slug, file.value, c.lookupUp), Proceed(0, c.removal, c.rowUp), Proceed(0, c.removal, c.rowUp)]
    case Play(slug, c) => [BeginPlay(0, slug, c), CountPlay(0, c.rowUp)]
    case _ => [Statement(a)]
  }

  ghost function CallsOfRun(w: World, run: seq<Action>): seq<FineAction>
    decreases |run|
  {
    if run == [] then [] else CallsOf(w, run[0]) + CallsOfRun(Step(w, run[0]), run[1..])
  }

  lemma MessageByCalls(w: World, id: nat, e: Env)
    requires id in w.queue && id !in w.handled
    ensures FineExec(Quiet(w), [Fetch(id)] + Advances(e, 4)) ==
            Quiet(Step(w, Handle(id, e)))
  {
    var f := Quiet(w);
    var f1 := FineStep(f, Fetch(id));
    FirstStep(f, Fetch(id), Advances(e, 4));
    AdvancesRun(f1, e, 4);
    assert w.issued + {} == w.issued;
    if IsCreate(w.queue[id]) {
      IngestByCalls(f1, e);
    } else {
      IdleStays(f1, e, 4);
    }
  }

  lemma ThreeCalls(f: Fine, a: FineAction, b: FineAction, c: FineAction)
    ensures FineExec(f, [a, b, c]) == FineStep(FineStep(FineStep(f, a), b), c)
  {
    assert [a, b, c] == [a] + ([b] + ([c] + []));
    FirstStep(f, a, [b] + ([c] + []));
    FirstStep(FineStep(f, a), b, [c] + []);
    FirstStep(FineStep(FineStep(f, a), b), c, []);
  }

  /** Begin, removal, row change: where one of them ends the request, the rest are not made. */
  lemma CallsOfRequest(f: Fine, slug: string, change: RowChange, c: Handlers.Calls)
    requires f.requests == map[]
    ensures var f1 := BeginStep(f, 0, slug, c.lookupUp, change);
            var f3 := RequestStep(RequestStep(f1, 0, c.removal, c.rowUp), 0, c.removal, c.rowUp);
            && f3.poller == f.poller && f3.requests == map[] && f3.plays == f.plays
            && f3.world == match SelectBySlug(f.world.table, slug, c.lookupUp)
                           case Found(track) =>
                             var changed := ChangedRow(f.world.table, slug, change, c.rowUp).table;
                             f.world.(bucket := Handlers.Emptied(f.world.bucket, track.key, c.removal),
                                      table := if c.removal == Removed then changed else f.world.table)
                           case _ => f.world
  {
    var f1 := BeginStep(f, 0, slug, c.lookupUp, change);
    if f1 != f {
      var f2 := RequestStep(f1, 0, c.removal, c.rowUp);
      var f3 := RequestStep(f2, 0, c.removal, c.rowUp);
      assert f3.requests == map[];
    }
  }

  lemma DeleteByCalls(w: World, a: Action)
    requires a.Delete?
    ensures FineExec(Quiet(w), CallsOf(w, a)) == Quiet(Step(w, a))
  {
    var f, c := Quiet(w), a.calls;
    ThreeCalls(f, BeginDelete(0, a.slug, c.lookupUp), Proceed(0, c.removal, c.rowUp), Proceed(0, c.removal, c.rowUp));
    CallsOfRequest(f, a.slug, DropRow, c);
    assert w.issued + {} == w.issued;
  }

  lemma ReplaceByCalls(w: World, a: Action)
    requires a.Replace? && a.filename.Some?
    ensures FineExec(Quiet(w), CallsOf(w, a)) == Quiet(Step(w, a))
  {
    var f, c, file := Quiet(w), a.calls, a.filename.value;
    ThreeCalls(f, BeginReplace(0, a.slug, file, c.lookupUp), Proceed(0, c.removal, c.rowUp),
               Proceed(0, c.removal, c.rowUp));
    CallsOfRequest(f, a.slug, RepointRow(Names.ObjectKey(a.slug, file)), c);
    assert w.issued + {} == w.issued;
  }

  lemma RequestByCalls(w: World, a: Action)
    requires a.Delete? || (a.Replace? && a.filename.Some?)
    ensures FineExec(Quiet(w), CallsOf(w, a)) == Quiet(Step(w, a))
  {
    if a.Delete? {
      DeleteByCalls(w, a);
    } else {
      ReplaceByCalls(w, a);
    }
  }

  lemma PlayByCalls(w: World, slug: string, c: Handlers.Calls)
    ensures FineExec(Quiet(w), [BeginPlay(0, slug, c), CountPlay(0, c.rowUp)]) ==
            Quiet(Step(w, Play(slug, c)))
  {
    var f := Quiet(w);
    var begin, count := BeginPlay(0, slug, c), CountPlay(0, c.rowUp);
    assert [begin, count] == [begin] + ([count] + []);
    FirstStep(f, begin, [count] + []);
    FirstStep(FineStep(f, begin), count, []);
    assert w.issued + {} == w.issued;
    if Handlers.VisitTrack(w.table, slug, c).Shown? {
      var b := Beacon(slug, RowWithSlug(w.table, slug).value);
      assert map[0 := b] - {0} == map[];
    }
  }

  lemma StepByCalls(w: World, a: Action)
    ensures FineExec(Quiet(w), CallsOf(w, a)) == Quiet(Step(w, a))
  {
    var f := Quiet(w);
    assert w.issued + {} == w.issued;
    match a
    case Handle(id, e) =>
      if id in w.queue && id !in w.handled {
        MessageByCalls(w, id, e);
      }
    case Delete(_, _) => RequestByCalls(w, a);
    case Replace(_, file, _) =>
      if file.Some? {
        RequestByCalls(w, a);
      }
    case Play(slug, c) =>
      PlayByCalls(w, slug, c);
    case _ =>
      FirstStep(f, Statement(a), []);
      assert [Statement(a)] + [] == [Statement(a)];
  }

  /** Every run of whole requests and whole messages is reached by its calls. */
  lemma {:induction false} RunByCalls(w: World, run: seq<Action>)
    ensures FineExec(Quiet(w), CallsOfRun(w, run)) == Quiet(Exec(w, run))
    decreases |run|
  {
    if run != [] {
      StepByCalls(w, run[0]);
      FineExecComposes(Quiet(w), CallsOf(w, run[0]), CallsOfRun(Step(w, run[0]), run[1..]));
      RunByCalls(Step(w, run[0]), run[1..]);
    }
  }

  // ---------------------------------------------------------------- the rules of interleaved runs

  /** A call that none of the results about interleaved runs excludes. */
  ghost predicate OrderlyCall(f: Fine, a: FineAction) {
    && FineDrawn(f, a) !! f.world.issued
    && !Overlaps(f, a)
    && !WritesRemovedKey(f, a) && !WritesLeavingKey(f, a)
    && !RepointsHeldRow(f, a) && !RotatesHeldSlug(f, a)
  }

  ghost predicate Orderly(f: Fine, run: seq<FineAction>)
    decreases |run|
  {
    run != [] ==> OrderlyCall(f, run[0]) && Orderly(FineStep(f, run[0]), run[1..])
  }

  lemma {:induction false} OrderlyMeetsRules(f: Fine, run: seq<FineAction>)
    requires Orderly(f, run)
    ensures FreshSlugsOnly(f, run) && NoOverlap(f, run) && NoWriteInFlight(f, run)
    ensures NoHeldRowMoves(f, run) && WorkIsSafe(f, run)
    decreases |run|
  {
    if run != [] {
      OrderlyMeetsRules(FineStep(f, run[0]), run[1..]);
    }
  }

  lemma {:induction false} OrderlyComposes(f: Fine, a: seq<FineAction>, b: seq<FineAction>)
    requires Orderly(f, a) && Orderly(FineExec(f, a), b)
    ensures Orderly(f, a + b)
    decreases |a|
  {
    if a == [] {
      assert a + b == b;
    } else {
      assert (a + b)[1..] == a[1..] + b;
      OrderlyComposes(FineStep(f, a[0]), a[1..], b);
    }
  }

  lemma {:induction false} AdvancesAreOrderly(f: Fine, e: Env, n: nat)
    requires f.poller.Minting? || (f.poller.Looking? && e.lookupUp && !HasKey(f.world.table, f.poller.key)) ==>
               e.slug !in f.world.issued
    ensures Orderly(f, Advances(e, n))
    decreases n
  {
    if n > 0 {
      assert Advances(e, n)[0] == Advance(e) && Advances(e, n)[1..] == Advances(e, n - 1);
      AdvancesAreOrderly(PollerStep(f, e), e, n - 1);
    }
  }

  lemma MessageIsOrderly(w: World, id: nat, e: Env)
    requires id in w.queue && id !in w.handled && Drawn(w, Handle(id, e)) !! w.issued
    ensures Orderly(Quiet(w), [Fetch(id)] + Advances(e, 4))
  {
    var f1 := FineStep(Quiet(w), Fetch(id));
    if f1.poller.Looking? && e.lookupUp && !HasKey(w.table, f1.poller.key) {
      assert e.slug in Drawn(w, Handle(id, e));
    }
    AdvancesAreOrderly(f1, e, 4);
    assert Orderly(Quiet(w), [Fetch(id)]);
    OrderlyComposes(Quiet(w), [Fetch(id)], Advances(e, 4));
  }

  lemma ThreeOrderly(f: Fine, a: FineAction, b: FineAction, c: FineAction)
    requires OrderlyCall(f, a) && OrderlyCall(FineStep(f, a), b) && OrderlyCall(FineStep(FineStep(f, a), b), c)
    ensures Orderly(f, [a, b, c])
  {
    assert [a, b, c][1..] == [b, c] && [b, c][1..] == [c];
    assert Orderly(FineStep(FineStep(f, a), b), [c]);
    assert Orderly(FineStep(f, a), [b, c]);
  }

  lemma RequestIsOrderly(w: World, a: Action)
    requires a.Delete? || (a.Replace? && a.filename.Some?)
    ensures Orderly(Quiet(w), CallsOf(w, a))
  {
    var begin := if a.Delete? then BeginDelete(0, a.slug, a.calls.lookupUp)
                 else BeginReplace(0, a.slug, a.filename.value, a.calls.lookupUp);
    var proceed := Proceed(0, a.calls.removal, a.calls.rowUp);
    ThreeOrderly(Quiet(w), begin, proceed, proceed);
  }

  lemma PlayIsOrderly(w: World, slug: string, c: Handlers.Calls)
    ensures Orderly(Quiet(w), [BeginPlay(0, slug, c), CountPlay(0, c.rowUp)])
  {
    var begin, count := BeginPlay(0, slug, c), CountPlay(0, c.rowUp);
    assert [begin, count][1..] == [count];
    assert Orderly(FineStep(Quiet(w), begin), [count]);
  }

  lemma CallsAreOrderly(w: World, a: Action)
    requires Drawn(w, a) !! w.issued
    ensures Orderly(Quiet(w), CallsOf(w, a))
  {
    if a.Handle? {
      if a.id in w.queue && a.id !in w.handled {
        MessageIsOrderly(w, a.id, a.env);
      }
    } else if a.Delete? || (a.Replace? && a.filename.Some?) {
      RequestIsOrderly(w, a);
    } else if a.Play? {
      PlayIsOrderly(w, a.slug, a.calls);
    }
  }

  lemma {:induction false} RunCallsAreOrderly(w: World, run: seq<Action>)
    requires NeverRepeats(w, run)
    ensures Orderly(Quiet(w), CallsOfRun(w, run))
    decreases |run|
  {
    if run != [] {
      CallsAreOrderly(w, run[0]);
      StepByCalls(w, run[0]);
      RunCallsAreOrderly(Step(w, run[0]), run[1..]);
      OrderlyComposes(Quiet(w), CallsOf(w, run[0]), CallsOfRun(Step(w, run[0]), run[1..]));
    }
  }

  /** Where the coarse run draws no slug twice, its calls keep every rule the results about
      interleaved runs ask for: those results hold of every coarse run. */
  lemma CoarseRunsMeetTheRules(run: seq<Action>)
    requires NeverRepeats(START, run)
    ensures var calls := CallsOfRun(START, run);
            && FreshSlugsOnly(FINE_START, calls) && NoOverlap(FINE_START, calls)
            && NoWriteInFlight(FINE_START, calls)
            && NoHeldRowMoves(FINE_START, calls) && WorkIsSafe(FINE_START, calls)
            && FineExec(FINE_START, calls) == Quiet(Exec(START, run))
  {
    RunCallsAreOrderly(START, run);
    OrderlyMeetsRules(FINE_START, CallsOfRun(START, run));
    RunByCalls(START, run);
  }
}

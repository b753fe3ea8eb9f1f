/** Play counts when calls interleave: a play request looks its track up in one call and
    counts it in another, and rotations, edits, deletions and other plays may fall between. */
module PlayCounts {
  import opened Wrappers
  import opened Tracks
  import opened Ingest
  import opened Histories
  import opened Interleaving

  /** One 204 answered to a play request whose lookup found the row `id`. */
  ghost function FineCounted(f: Fine, a: FineAction, id: nat): nat {
    if && a.CountPlay? && a.request in f.plays && f.plays[a.request].row == id
       && Update(f.world.table, f.plays[a.request].slug, PlusOnePlay, a.up).reply == Done
    then 1 else 0
  }

  ghost function FinePlaysCounted(f: Fine, run: seq<FineAction>, id: nat): nat
    decreases |run|
  {
    if run == [] then 0 else FineCounted(f, run[0], id) + FinePlaysCounted(FineStep(f, run[0]), run[1..], id)
  }

  /** How a call changes counts: by the 204s answered; a new row has a new identity and none. */
  ghost predicate CountStep(f: Fine, a: FineAction, t': Table) {
    var t := f.world.table;
    && t.next <= t'.next
    && (forall id :: id in t'.rows && id in t.rows ==>
          t'.rows[id].playCount == t.rows[id].playCount + FineCounted(f, a, id))
    && (forall id :: id in t'.rows && id !in t.rows ==> id >= t.next && t'.rows[id].playCount == 0)
  }

  lemma PollerCountStep(f: Fine, e: Env)
    requires FineSound(f)
    ensures CountStep(f, Advance(e), PollerStep(f, e).world.table)
  {
    if f.poller.Marking? {
      var p := f.poller;
      UpdateTableStep(f.world.table, p.slug, PollerClause(p, e), e.markUp);
    }
  }

  lemma RequestCountStep(f: Fine, a: FineAction)
    requires FineSound(f) && a.Proceed?
    ensures CountStep(f, a, FineStep(f, a).world.table)
  {
    if AtRow(f, a.request) && f.requests[a.request].change.RepointRow? {
      UpdateTableStep(f.world.table, f.requests[a.request].slug, ToKey(f.requests[a.request].change.newKey), a.up);
    }
  }

  /** The UPDATE reaches the row that was looked up, or no row. */
  lemma PlayCountStep(f: Fine, a: FineAction)
    requires FineSound(f) && a.CountPlay?
    ensures CountStep(f, a, FineStep(f, a).world.table)
  {
    if a.request in f.plays {
      var t, b := f.world.table, f.plays[a.request];
      if Update(t, b.slug, PlusOnePlay, a.up).reply == Done {
        assert RowWithSlug(t, b.slug) == Some(b.row);
        UpdatedIsOneRow(t, b.row, PlusOnePlay);
      }
    }
  }

  lemma FineCountStep(f: Fine, a: FineAction)
    requires FineSound(f)
    ensures CountStep(f, a, FineStep(f, a).world.table)
  {
    match a
    case Advance(e) => PollerCountStep(f, e);
    case Proceed(_, _, _) => RequestCountStep(f, a);
    case Statement(s) => StepTable(f.world, s);
    case CountPlay(_, _) => PlayCountStep(f, a);
    case _ =>
  }

  lemma {:induction false} FineGoneForGood(f: Fine, run: seq<FineAction>, id: nat)
    requires FineSound(f) && FreshSlugsOnly(f, run)
    requires id !in f.world.table.rows && id < f.world.table.next
    ensures id !in FineExec(f, run).world.table.rows
    decreases |run|
  {
    if run != [] {
      FineStepSound(f, run[0]);
      FineCountStep(f, run[0]);
      FineGoneForGood(FineStep(f, run[0]), run[1..], id);
    }
  }

  /** The count of one row, before and after a call; 0 where there is no row. */
  ghost function CountOf(f: Fine, id: nat): int {
    if id in f.world.table.rows then f.world.table.rows[id].playCount else 0
  }

  lemma CountOfStep(f: Fine, a: FineAction, id: nat)
    requires FineSound(f) && id in FineStep(f, a).world.table.rows
    ensures CountOf(FineStep(f, a), id) == CountOf(f, id) + FineCounted(f, a, id)
  {
    FineCountStep(f, a);
  }

  lemma GoneAtOnce(f: Fine, run: seq<FineAction>, id: nat)
    requires FineSound(f) && FreshSlugsOnly(f, run) && run != []
    requires id in f.world.table.rows && id !in FineStep(f, run[0]).world.table.rows
    ensures id !in FineExec(f, run).world.table.rows
  {
    FineStepSound(f, run[0]);
    FineCountStep(f, run[0]);
    FineGoneForGood(FineStep(f, run[0]), run[1..], id);
  }

  /** A row that is not there now but at the end is made on the way; no 204 counts for it before. */
  lemma NotYetCounted(f: Fine, a: FineAction, id: nat)
    requires FineSound(f) && id !in f.world.table.rows
    ensures FineCounted(f, a, id) == 0
  {
  }

  lemma {:induction false} FineCountsFrom(f: Fine, run: seq<FineAction>, id: nat)
    requires FineSound(f) && FreshSlugsOnly(f, run) && id in FineExec(f, run).world.table.rows
    ensures CountOf(FineExec(f, run), id) == CountOf(f, id) + FinePlaysCounted(f, run, id)
    decreases |run|
  {
    if run != [] {
      FineStepSound(f, run[0]);
      if id in FineStep(f, run[0]).world.table.rows {
        CountOfStep(f, run[0], id);
      } else if id in f.world.table.rows {
        GoneAtOnce(f, run, id);
      } else {
        NotYetCounted(f, run[0], id);
      }
      FineCountsFrom(FineStep(f, run[0]), run[1..], id);
    }
  }

  /** Under every interleaving of any number of play requests with everything else, a track's
      count is the number of 204s answered to requests whose lookup found that track: a play
      whose link is rotated or whose track is deleted before its UPDATE counts for nobody. */
  lemma FinePlayCountsAreExact(run: seq<FineAction>, id: nat)
    requires FreshSlugsOnly(FINE_START, run) && id in FineExec(FINE_START, run).world.table.rows
    ensures FineExec(FINE_START, run).world.table.rows[id].playCount == FinePlaysCounted(FINE_START, run, id)
  {
    FineCountsFrom(FINE_START, run, id);
  }
}

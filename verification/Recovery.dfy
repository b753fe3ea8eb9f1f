/** From any state, however it came about, clean polls bring the three stores together. */
module Recovery {
  import opened System
  import opened Histories
  import opened Ingest
  import opened Draining
  import opened Interleaving
  import opened FineAgreement

  /** The polls of `rounds`, one after the other, each acknowledged. */
  ghost function PollRuns(w: World, rounds: seq<seq<Delivery>>): seq<Action>
    decreases |rounds|
  {
    if rounds == [] then []
    else PollRun(w, rounds[0], true) + PollRuns(Exec(w, PollRun(w, rounds[0], true)), rounds[1..])
  }

  /** Polls are steps that handle and acknowledge messages, nothing else. */
  predicate OnlyPolls(run: seq<Action>) {
    forall i :: 0 <= i < |run| ==> run[i].Handle? || run[i].Ack?
  }

  lemma {:induction false} HandleAllPolls(ds: seq<Delivery>)
    ensures OnlyPolls(HandleAll(ds))
  {
    if ds != [] {
      HandleAllPolls(ds[..|ds| - 1]);
    }
  }

  /** A run of clean polls does to table and queue what the polls do, and no more. */
  lemma {:induction false} PollsAreARun(w: World, rounds: seq<seq<Delivery>>)
    requires w.handled == {} && CleanPolls(w.bucket, Side(w.table, w.queue), rounds)
    ensures var w' := Exec(w, PollRuns(w, rounds));
            && Side(w'.table, w'.queue) == PollAll(w.bucket, Side(w.table, w.queue), rounds)
            && w'.handled == {} && w'.bucket == w.bucket
    ensures OnlyPolls(PollRuns(w, rounds))
    decreases |rounds|
  {
    if rounds != [] {
      var first := PollRun(w, rounds[0], true);
      var w1 := Exec(w, first);
      PollIsARun(w, rounds[0], true);
      PollsAreARun(w1, rounds[1..]);
      ExecComposes(w, first, PollRuns(w1, rounds[1..]));
      HandleAllPolls(rounds[0]);
    }
  }

  lemma {:induction false} PollsBreakNothing(w: World, broken: set<string>, run: seq<Action>)
    requires OnlyPolls(run)
    ensures BrokenAfter(w, broken, run) == broken
    decreases |run|
  {
    if run != [] {
      PollsBreakNothing(Step(w, run[0]), broken, run[1..]);
    }
  }

  /** Between polls, where the stores agree up to what is announced, n well-formed messages
      take ceil(n / 10) clean polls; then the queue is empty and the stores agree. */
  lemma PollsReconcile(w: World, broken: set<string>, rounds: seq<seq<Delivery>>)
    requires Sound(w) && Agree(w, broken) && w.handled == {} && WellFormed(w.queue)
    requires CleanPolls(w.bucket, Side(w.table, w.queue), rounds)
    requires |rounds| >= (|w.queue| + 9) / 10
    ensures var w' := Exec(w, PollRuns(w, rounds));
            w'.queue == map[] && w'.bucket == w.bucket && StoresAgree(w', broken)
  {
    var polls := PollRuns(w, rounds);
    PollsAreARun(w, rounds);
    QueueDrains(w.bucket, Side(w.table, w.queue), rounds);
    RunKeepsAgreement(w, broken, polls);
    PollsBreakNothing(w, broken, polls);
    AgreeWhenDrained(Exec(w, polls), broken);
  }

  /** Recovery: from every state a run can reach between two polls, whatever failed in it, n
      well-formed messages take ceil(n / 10) clean polls; then the queue is empty and the
      objects are the files of the ready rows, apart from the keys that were broken before. */
  lemma CleanPollsReconcile(run: seq<Action>, rounds: seq<seq<Delivery>>)
    requires var w := Exec(START, run);
             && w.handled == {} && WellFormed(w.queue)
             && CleanPolls(w.bucket, Side(w.table, w.queue), rounds)
             && |rounds| >= (|w.queue| + 9) / 10
    ensures var w := Exec(START, run);
            var w' := Exec(w, PollRuns(w, rounds));
            && w'.queue == map[] && w'.bucket == w.bucket
            && StoresAgree(w', BrokenAfter(START, {}, run))
  {
    RunKeepsAgreement(START, {}, run);
    PollsReconcile(Exec(START, run), BrokenAfter(START, {}, run), rounds);
  }

  /** The same after an interleaved run, between two polls, when no request is about to change
      its row: the marks of the interleaved run are the only ones. */
  lemma CleanPollsReconcileInterleaved(run: seq<FineAction>, rounds: seq<seq<Delivery>>)
    requires FreshSlugsOnly(FINE_START, run) && NoOverlap(FINE_START, run)
    requires NoHeldRowMoves(FINE_START, run) && WorkIsSafe(FINE_START, run)
    requires var f := FineExec(FINE_START, run);
             && f.poller.Idle? && (forall q :: !AtRow(f, q))
             && f.world.handled == {} && WellFormed(f.world.queue)
             && CleanPolls(f.world.bucket, Side(f.world.table, f.world.queue), rounds)
             && |rounds| >= (|f.world.queue| + 9) / 10
    ensures var w := FineExec(FINE_START, run).world;
            var w' := Exec(w, PollRuns(w, rounds));
            && w'.queue == map[] && w'.bucket == w.bucket
            && StoresAgree(w', FineBrokenAfter(FINE_START, {}, run))
  {
    FineAgrees(run);
    PollsReconcile(FineExec(FINE_START, run).world, FineBrokenAfter(FINE_START, {}, run), rounds);
  }
}

/** The pull consumer's loop against the queue: what a poll acknowledges, and how many
    polls empty the queue. */
module Draining {
  import opened Tracks
  import opened R2
  import opened Ingest
  import opened Convergence

  const BATCH_SIZE := 10

  /** The unacknowledged messages by lease. */
  type Queue = map<nat, Body>

  /** The leases of the messages handled without error, in the order of the batch. */
  ghost function HandledLeases(bucket: Bucket, t: Table, ds: seq<Delivery>): seq<nat> {
    var ps := HandledPositions(bucket, t, ds, |ds|);
    seq(|ps|, j requires 0 <= j < |ps| => ds[ps[j]].msg.lease)
  }

  function Without(q: Queue, leases: seq<nat>): Queue {
    map id | id in q && id !in leases :: q[id]
  }

  datatype Side = Side(table: Table, queue: Queue)

  /** `pollOnce` on a batch, given whether the acknowledgement arrives. */
  ghost function Poll(bucket: Bucket, s: Side, ds: seq<Delivery>, ackUp: bool): Side {
    Side(After(bucket, s.table, ds), if ackUp then Without(s.queue, HandledLeases(bucket, s.table, ds)) else s.queue)
  }

  function Min(a: int, b: int): int {
    if a < b then a else b
  }

  /** A full pull: ten different messages of the queue, or all of them. */
  ghost predicate FullPull(q: Queue, ds: seq<Delivery>) {
    && |ds| == Min(BATCH_SIZE, |q|)
    && (forall i :: 0 <= i < |ds| ==> ds[i].msg.lease in q && q[ds[i].msg.lease] == ds[i].msg.body)
    && (forall i, j :: 0 <= i < j < |ds| ==> ds[i].msg.lease != ds[j].msg.lease)
  }

  ghost predicate WellFormed(q: Queue) {
    forall id :: id in q ==> !q[id].Malformed?
  }

  /** Every poll pulls a full batch, every call is answered, slugs are new. */
  ghost predicate CleanPolls(bucket: Bucket, s: Side, rounds: seq<seq<Delivery>>)
    decreases |rounds|
  {
    rounds != [] ==>
      && FullPull(s.queue, rounds[0])
      && Answered(rounds[0])
      && FreshSlugs(s.table, rounds[0])
      && CleanPolls(bucket, Poll(bucket, s, rounds[0], true), rounds[1..])
  }

  ghost function PollAll(bucket: Bucket, s: Side, rounds: seq<seq<Delivery>>): Side
    decreases |rounds|
  {
    if rounds == [] then s else PollAll(bucket, Poll(bucket, s, rounds[0], true), rounds[1..])
  }

  ghost function LeaseSet(ds: seq<Delivery>): set<nat> {
    set i | 0 <= i < |ds| :: ds[i].msg.lease
  }

  lemma {:induction false} LeaseCount(ds: seq<Delivery>)
    requires forall i, j :: 0 <= i < j < |ds| ==> ds[i].msg.lease != ds[j].msg.lease
    ensures |LeaseSet(ds)| == |ds|
  {
    if ds == [] {
      assert LeaseSet(ds) == {};
    } else {
      var n := |ds| - 1;
      assert forall i :: 0 <= i < n ==> ds[..n][i] == ds[i];
      LeaseCount(ds[..n]);
      assert LeaseSet(ds) == LeaseSet(ds[..n]) + {ds[n].msg.lease};
      assert ds[n].msg.lease !in LeaseSet(ds[..n]);
    }
  }

  /** A message whose calls are answered is handled, so an answered batch is acknowledged whole. */
  lemma AnsweredBatchIsHandled(bucket: Bucket, t: Table, ds: seq<Delivery>, i: nat)
    requires Valid(t) && Answered(ds) && FreshSlugs(t, ds)
    requires i < |ds| && !ds[i].msg.body.Malformed?
    ensures HandledAt(bucket, t, ds, i)
  {
    AfterIsValid(bucket, t, ds[..i]);
    var first := ds[..i + 1];
    assert first[..i] == ds[..i];
    NextSlugIsFresh(bucket, t, first);
    if IsCreate(ds[i].msg.body) {
      AnsweredIngestSettles(bucket, After(bucket, t, ds[..i]), ds[i].msg.body.key, ds[i].env);
    }
  }

  lemma WholeBatchAcked(bucket: Bucket, t: Table, ds: seq<Delivery>)
    requires Valid(t) && Answered(ds) && FreshSlugs(t, ds)
    requires forall i :: 0 <= i < |ds| ==> !ds[i].msg.body.Malformed?
    ensures forall id :: id in HandledLeases(bucket, t, ds) <==> id in LeaseSet(ds)
  {
    var leases, ps := HandledLeases(bucket, t, ds), HandledPositions(bucket, t, ds, |ds|);
    forall i | 0 <= i < |ds|
      ensures ds[i].msg.lease in leases
    {
      AnsweredBatchIsHandled(bucket, t, ds, i);
      var j :| 0 <= j < |ps| && ps[j] == i;
      assert leases[j] == ds[i].msg.lease;
    }
    forall id | id in leases
      ensures id in LeaseSet(ds)
    {
      var j :| 0 <= j < |leases| && leases[j] == id;
      assert ds[ps[j]].msg.lease == id;
    }
  }

  lemma WithoutCount(q: Queue, leases: seq<nat>, gone: set<nat>)
    requires gone <= q.Keys && forall id :: id in leases <==> id in gone
    ensures |Without(q, leases)| == |q| - |gone|
  {
    assert Without(q, leases).Keys == q.Keys - gone;
  }

  lemma FullPullEmptiesBatch(bucket: Bucket, s: Side, ds: seq<Delivery>)
    requires Valid(s.table) && WellFormed(s.queue)
    requires FullPull(s.queue, ds) && Answered(ds) && FreshSlugs(s.table, ds)
    ensures var s' := Poll(bucket, s, ds, true);
            Valid(s'.table) && WellFormed(s'.queue) && |s'.queue| == |s.queue| - |ds|
  {
    AfterIsValid(bucket, s.table, ds);
    WholeBatchAcked(bucket, s.table, ds);
    LeaseCount(ds);
    WithoutCount(s.queue, HandledLeases(bucket, s.table, ds), LeaseSet(ds));
  }

  /** n messages are gone after exactly ceil(n / 10) polls: before that some are left. */
  lemma {:induction false} QueueDrains(bucket: Bucket, s: Side, rounds: seq<seq<Delivery>>)
    requires Valid(s.table) && WellFormed(s.queue) && CleanPolls(bucket, s, rounds)
    ensures var left := PollAll(bucket, s, rounds).queue;
            && |left| == (if |s.queue| > 10 * |rounds| then |s.queue| - 10 * |rounds| else 0)
            && (left == map[] <==> |rounds| >= (|s.queue| + 9) / 10)
    decreases |rounds|
  {
    if rounds != [] {
      FullPullEmptiesBatch(bucket, s, rounds[0]);
      QueueDrains(bucket, Poll(bucket, s, rounds[0], true), rounds[1..]);
    }
    var left := PollAll(bucket, s, rounds).queue;
    assert left == map[] <==> |left| == 0;
  }
}

/** The objects of package ingest: the queue client, and the poller with its store and
    bucket client. */
module Poller {
  import opened Wrappers
  import opened Tracks
  import opened R2
  import opened Ingest
  import opened Draining
  import Names
  import Store

  /** How the acknowledgement ends for the caller: done, not carried out, or carried out with
      the reply lost. */
  datatype AckCall = AckDone | AckRefused | AckReplyLost

  /** The queue behind its pull-consumer client. */
  class QueueClient {
    var unacked: Queue

    method Ack(leases: seq<nat>, how: AckCall) returns (failed: bool)
      modifies this
      ensures unacked == if how == AckRefused then old(unacked) else Without(old(unacked), leases)
      ensures failed <==> leases != [] && how != AckDone
    {
      if |leases| == 0 {
        assert Without(unacked, leases) == unacked;
        return false;
      }
      if how != AckRefused {
        var i := 0;
        while i < |leases|
          invariant 0 <= i <= |leases|
          invariant unacked == Without(old(unacked), leases[..i])
        {
          assert leases[..i + 1] == leases[..i] + [leases[i]];
          unacked := unacked - {leases[i]};
          i := i + 1;
        }
        assert leases[..i] == leases;
      }
      failed := how != AckDone;
    }
  }

  class Poller {
    const queue: QueueClient
    const store: Store.Store
    const r2: R2.Client

    constructor (queue: QueueClient, store: Store.Store, r2: R2.Client)
      ensures this.queue == queue && this.store == store && this.r2 == r2
    {
      this.queue, this.store, this.r2 := queue, store, r2;
    }

    /** One poll. `pulled` is what the pull returns, `None` if it fails. `acks` are the
        leases sent to be acknowledged; with none, no call is made. */
    method PollOnce(pulled: Option<seq<Delivery>>, how: AckCall) returns (failed: bool, acks: seq<nat>)
      requires store.Ok()
      modifies store, queue
      ensures store.Ok()
      ensures pulled.None? ==> failed && acks == []
      ensures pulled.None? ==> store.Contents() == old(store.Contents()) && queue.unacked == old(queue.unacked)
      ensures pulled.Some? ==>
                && acks == HandledLeases(r2.objects, old(store.Contents()), pulled.value)
                && Side(store.Contents(), queue.unacked) ==
                   Poll(r2.objects, Side(old(store.Contents()), old(queue.unacked)), pulled.value, how != AckRefused)
                && failed == (acks != [] && how != AckDone)
    {
      acks := [];
      if pulled.None? {
        return true, [];
      }
      var batch := pulled.value;
      ghost var t, b := store.Contents(), r2.objects;
      var i := 0;
      while i < |batch|
        invariant 0 <= i <= |batch|
        invariant store.Ok() && store.Contents() == After(b, t, batch[..i])
        invariant queue.unacked == old(queue.unacked)
        invariant |acks| == |HandledPositions(b, t, batch, i)|
        invariant forall j :: 0 <= j < |acks| ==> acks[j] == batch[HandledPositions(b, t, batch, i)[j]].msg.lease
      {
        var failedMessage := HandleMessage(batch[i].msg, batch[i].env);
        assert batch[..i + 1][..i] == batch[..i];
        assert failedMessage == !HandledAt(b, t, batch, i);
        if !failedMessage {
          acks := acks + [batch[i].msg.lease];
        }
        i := i + 1;
      }
      assert batch[..i] == batch;
      assert acks == HandledLeases(b, t, batch);
      failed := false;
      if |acks| > 0 {
        failed := queue.Ack(acks, how);
      } else {
        assert Without(queue.unacked, acks) == queue.unacked;
      }
    }

    method HandleMessage(msg: Message, env: Env) returns (failed: bool)
      requires store.Ok()
      modifies store
      ensures store.Ok()
      ensures Ingested(store.Contents(), !failed) ==
              Ingest.HandleMessage(r2.objects, old(store.Contents()), msg.body, env)
    {
      if msg.body.Malformed? {
        return true;
      }
      if !IsCreate(msg.body) {
        return false;
      }
      failed := IngestObject(msg.body.key, env);
    }

    method IngestObject(key: string, env: Env) returns (failed: bool)
      requires store.Ok()
      modifies store
      ensures store.Ok()
      ensures Ingested(store.Contents(), !failed) ==
              Ingest.IngestObject(r2.objects, old(store.Contents()), key, env)
    {
      var looked := store.GetByObjectKey(key, env.lookupUp);
      if looked.Unreachable? {
        return true;
      }
      var slug;
      if looked.Missing? {
        slug := env.slug;
        var made := store.CreateFromDiscovery(slug, key, Names.Base(key), env.insertUp, env.now);
        if made != Done {
          return true;
        }
      } else {
        slug := looked.track.slug;
      }
      var head := r2.Head(key, env.headUp);
      match head
      case NoObject =>
        var _ := store.MarkFailed(slug, env.markUp);
        return false;
      case NoAnswer =>
        var _ := store.MarkFailed(slug, env.markUp);
        return true;
      case Object(meta) =>
        failed := store.MarkReady(slug, meta, env.markUp, env.now);
    }
  }
}

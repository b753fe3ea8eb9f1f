/** Lists of messages: the order, the repetition and the batching of create events do not
    matter, a failed acknowledgement costs nothing, and one failing message does not hold
    up the others. */
module Convergence {
  import opened Wrappers
  import opened Tracks
  import opened R2
  import opened Ingest
  import Names

  // ---------------------------------------------------------------- order and repetition

  ghost function Keys(t: Table): set<string> {
    set id | id in t.rows :: t.rows[id].key
  }

  /** A row without what a discovery draws at random and without the clock readings. */
  function Shown(r: Track): Track {
    r.(slug := "", createdAt := 0, readyAt := None)
  }

  /** The table by object key. */
  ghost function View(t: Table): map<string, Track> {
    map k | k in Keys(t) && HasKey(t, k) :: Shown(t.rows[RowWithKey(t, k).value])
  }

  /** The keys a list of messages announces. */
  ghost function EventKeys(ds: seq<Delivery>): set<string> {
    set i | 0 <= i < |ds| && IsCreate(ds[i].msg.body) :: ds[i].msg.body.key
  }

  ghost function SettledEntry(r: Track, bucket: Bucket): Track {
    Shown(ConfirmedRow(r, bucket, 0))
  }

  ghost function EntryFor(v: map<string, Track>, k: string): Track {
    if k in v then v[k] else DiscoveredRow("", k, Names.Base(k), 0)
  }

  /** What a set of announced keys should make of a view: every announced key has an entry
      that says what the bucket says, all other entries are as before. */
  ghost function Settle(v: map<string, Track>, keys: set<string>, bucket: Bucket): map<string, Track> {
    map k | k in v.Keys + keys :: if k in keys then SettledEntry(EntryFor(v, k), bucket) else EntryFor(v, k)
  }

  ghost predicate FreshSlugs(t: Table, ds: seq<Delivery>) {
    && (forall i :: 0 <= i < |ds| ==> !HasSlug(t, ds[i].env.slug))
    && (forall i, j :: 0 <= i < j < |ds| ==> ds[i].env.slug != ds[j].env.slug)
  }

  ghost predicate Answered(ds: seq<Delivery>) {
    forall i :: 0 <= i < |ds| ==> AllUp(ds[i].env)
  }

  lemma ViewAt(t: Table, id: nat)
    requires Valid(t) && id in t.rows
    ensures t.rows[id].key in View(t) && View(t)[t.rows[id].key] == Shown(t.rows[id])
  {
  }

  lemma ViewKeys(t: Table)
    ensures View(t).Keys == Keys(t)
    ensures forall k :: k in Keys(t) <==> HasKey(t, k)
  {
  }

  /** A change confined to one key leaves every other entry of the view alone. */
  lemma ViewElsewhere(t: Table, t': Table, key: string, slug: string, k: string)
    requires Valid(t) && Valid(t') && OnlyKeyChanged(t, t', key, slug) && k != key
    ensures k in View(t') <==> k in View(t)
    ensures k in View(t) ==> View(t')[k] == View(t)[k]
  {
    ViewKeys(t);
    ViewKeys(t');
    if HasKey(t, k) {
      var id := RowWithKey(t, k).value;
      ViewAt(t, id);
      ViewAt(t', id);
    }
    if HasKey(t', k) {
      var id := RowWithKey(t', k).value;
      assert id in t.rows;
      assert t.rows[id].key == k;
    }
  }

  lemma EqualToSettled(v': map<string, Track>, v: map<string, Track>, key: string, bucket: Bucket)
    requires key in v' && v'[key] == SettledEntry(EntryFor(v, key), bucket)
    requires forall k :: k != key ==> (k in v' <==> k in v) && (k in v ==> v'[k] == v[k])
    ensures v' == Settle(v, {key}, bucket)
  {
    assert v'.Keys == Settle(v, {key}, bucket).Keys;
  }

  /** Which identity, slug or clock a row has does not change what it settles to. */
  lemma SettlesAlike(r: Track, r0: Track, bucket: Bucket, now: int)
    requires Shown(r) == Shown(r0)
    ensures Shown(ConfirmedRow(r, bucket, now)) == SettledEntry(Shown(r0), bucket)
  {
  }

  lemma ViewOfIngest(bucket: Bucket, t: Table, key: string, e: Env)
    requires Valid(t) && AllUp(e) && !HasSlug(t, e.slug)
    ensures View(IngestObject(bucket, t, key, e).table) == Settle(View(t), {key}, bucket)
  {
    var t' := IngestObject(bucket, t, key, e).table;
    HandleKeepsConstraints(bucket, t, Event("PutObject", key), e);
    IngestStaysWithinKey(bucket, t, key, e);
    AnsweredIngestSettles(bucket, t, key, e);
    ViewKeys(t);
    ViewKeys(t');
    ViewAt(t', RowWithKey(t', key).value);
    if HasKey(t, key) {
      ViewAt(t, RowWithKey(t, key).value);
      SettlesAlike(t.rows[RowWithKey(t, key).value], t.rows[RowWithKey(t, key).value], bucket, e.now);
    } else {
      var name := Names.Base(key);
      SettlesAlike(DiscoveredRow(e.slug, key, name, e.now), DiscoveredRow("", key, name, 0), bucket, e.now);
    }
    forall k | k != key
      ensures k in View(t') <==> k in View(t)
      ensures k in View(t) ==> View(t')[k] == View(t)[k]
    {
      ViewElsewhere(t, t', key, e.slug, k);
    }
    EqualToSettled(View(t'), View(t), key, bucket);
  }

  lemma SettledEntryTwice(r: Track, bucket: Bucket)
    ensures SettledEntry(SettledEntry(r, bucket), bucket) == SettledEntry(r, bucket)
  {
  }

  lemma SettleAgain(v: map<string, Track>, keys: set<string>, key: string, bucket: Bucket)
    ensures Settle(Settle(v, keys, bucket), {key}, bucket) == Settle(v, keys + {key}, bucket)
  {
    var once := Settle(v, keys, bucket);
    var a, b := Settle(once, {key}, bucket), Settle(v, keys + {key}, bucket);
    assert a.Keys == b.Keys;
    forall k | k in b
      ensures a[k] == b[k]
    {
      SettledEntryTwice(EntryFor(v, k), bucket);
      assert k in once ==> EntryFor(once, k) == once[k];
    }
  }

  lemma ViewEntries(t: Table)
    ensures forall k :: k in View(t) ==> View(t)[k].key == k && View(t)[k] == Shown(View(t)[k])
  {
  }

  lemma {:induction false} SlugsAfter(bucket: Bucket, t: Table, ds: seq<Delivery>, slug: string)
    requires Valid(t) && HasSlug(After(bucket, t, ds), slug)
    ensures HasSlug(t, slug) || exists i :: 0 <= i < |ds| && ds[i].env.slug == slug
  {
    if ds != [] {
      var n := |ds| - 1;
      var t1 := After(bucket, t, ds[..n]);
      AfterIsValid(bucket, t, ds[..n]);
      if IsCreate(ds[n].msg.body) {
        IngestStaysWithinKey(bucket, t1, ds[n].msg.body.key, ds[n].env);
      }
      var t2 := After(bucket, t, ds);
      var id :| id in t2.rows && t2.rows[id].slug == slug;
      if id in t1.rows {
        assert t1.rows[id].slug == slug;
        SlugsAfter(bucket, t, ds[..n], slug);
        if !HasSlug(t, slug) {
          var i :| 0 <= i < |ds[..n]| && ds[..n][i].env.slug == slug;
          assert ds[i].env.slug == slug;
        }
      } else {
        assert ds[n].env.slug == slug;
      }
    }
  }

  lemma NextSlugIsFresh(bucket: Bucket, t: Table, ds: seq<Delivery>)
    requires Valid(t) && FreshSlugs(t, ds) && ds != []
    ensures !HasSlug(After(bucket, t, ds[..|ds| - 1]), ds[|ds| - 1].env.slug)
    ensures FreshSlugs(t, ds[..|ds| - 1])
  {
    var n := |ds| - 1;
    assert forall i :: 0 <= i < n ==> ds[..n][i] == ds[i];
    if HasSlug(After(bucket, t, ds[..n]), ds[n].env.slug) {
      SlugsAfter(bucket, t, ds[..n], ds[n].env.slug);
    }
  }

  lemma EventKeysStep(ds: seq<Delivery>)
    requires ds != []
    ensures var body := ds[|ds| - 1].msg.body;
            EventKeys(ds) == EventKeys(ds[..|ds| - 1]) + if IsCreate(body) then {body.key} else {}
  {
  }

  lemma ViewStep(bucket: Bucket, t: Table, body: Body, e: Env, v: map<string, Track>, keys: set<string>)
    requires Valid(t) && AllUp(e) && !HasSlug(t, e.slug) && View(t) == Settle(v, keys, bucket)
    ensures View(HandleMessage(bucket, t, body, e).table) ==
            Settle(v, keys + if IsCreate(body) then {body.key} else {}, bucket)
  {
    if IsCreate(body) {
      ViewOfIngest(bucket, t, body.key, e);
      SettleAgain(v, keys, body.key, bucket);
    } else {
      assert keys + {} == keys;
    }
  }

  /** The view after any list of answered messages depends on the set of announced keys only. */
  lemma {:induction false} ViewAfter(bucket: Bucket, t: Table, ds: seq<Delivery>)
    requires Valid(t) && FreshSlugs(t, ds) && Answered(ds)
    ensures View(After(bucket, t, ds)) == Settle(View(t), EventKeys(ds), bucket)
  {
    if ds == [] {
      assert EventKeys(ds) == {};
      assert Settle(View(t), {}, bucket) == View(t);
    } else {
      var n := |ds| - 1;
      NextSlugIsFresh(bucket, t, ds);
      ViewAfter(bucket, t, ds[..n]);
      AfterIsValid(bucket, t, ds[..n]);
      EventKeysStep(ds);
      ViewStep(bucket, After(bucket, t, ds[..n]), ds[n].msg.body, ds[n].env, View(t), EventKeys(ds[..n]));
    }
  }

  /** Rows that were there keep their slug, title, settings, count and creation time. */
  lemma {:induction false} RowsSurvive(bucket: Bucket, t: Table, ds: seq<Delivery>)
    requires Valid(t)
    ensures var t' := After(bucket, t, ds);
            forall id :: id in t.rows ==> id in t'.rows && SameIdentity(t.rows[id], t'.rows[id])
  {
    if ds != [] {
      var n := |ds| - 1;
      RowsSurvive(bucket, t, ds[..n]);
      AfterIsValid(bucket, t, ds[..n]);
      if IsCreate(ds[n].msg.body) {
        IngestStaysWithinKey(bucket, After(bucket, t, ds[..n]), ds[n].msg.body.key, ds[n].env);
      }
    }
  }

  /** Two lists of messages that announce the same keys, in any order, with any repetition
      and mixed with anything that is not a create event, lead to the same table up to the
      slugs drawn for discovered files and the clock. */
  lemma OrderAndRepetitionDoNotMatter(bucket: Bucket, t: Table, ds1: seq<Delivery>, ds2: seq<Delivery>)
    requires Valid(t) && EventKeys(ds1) == EventKeys(ds2)
    requires FreshSlugs(t, ds1) && Answered(ds1)
    requires FreshSlugs(t, ds2) && Answered(ds2)
    ensures View(After(bucket, t, ds1)) == View(After(bucket, t, ds2))
    ensures forall id :: id in t.rows ==>
              && id in After(bucket, t, ds1).rows && id in After(bucket, t, ds2).rows
              && SameIdentity(After(bucket, t, ds1).rows[id], After(bucket, t, ds2).rows[id])
  {
    ViewAfter(bucket, t, ds1);
    ViewAfter(bucket, t, ds2);
    RowsSurvive(bucket, t, ds1);
    RowsSurvive(bucket, t, ds2);
  }

  /** Cutting a list into batches makes no difference at all, faults or not. */
  lemma {:induction false} BatchesCompose(bucket: Bucket, t: Table, a: seq<Delivery>, b: seq<Delivery>)
    ensures After(bucket, t, a + b) == After(bucket, After(bucket, t, a), b)
  {
    if b == [] {
      assert a + b == a;
    } else {
      var n := |b| - 1;
      assert (a + b)[..|a + b| - 1] == a + b[..n];
      BatchesCompose(bucket, t, a, b[..n]);
    }
  }

  // ---------------------------------------------------------------- redelivery

  ghost predicate SameUpToReadyAt(t: Table, t': Table) {
    && t'.next == t.next
    && t'.rows.Keys == t.rows.Keys
    && forall id :: id in t.rows ==> t'.rows[id].(readyAt := None) == t.rows[id].(readyAt := None)
  }

  ghost predicate KeySettled(bucket: Bucket, t: Table, key: string) {
    exists id :: id in t.rows && t.rows[id].key == key && Settled(t.rows[id], bucket)
  }

  lemma SettledStays(bucket: Bucket, t: Table, t': Table, key: string)
    requires SameUpToReadyAt(t, t') && KeySettled(bucket, t, key)
    ensures KeySettled(bucket, t', key)
  {
  }

  lemma IngestOfSettledKey(bucket: Bucket, t: Table, key: string, e: Env)
    requires Valid(t) && AllUp(e) && KeySettled(bucket, t, key)
    ensures SameUpToReadyAt(t, IngestObject(bucket, t, key, e).table)
    ensures IngestObject(bucket, t, key, e).handled
  {
    var id :| id in t.rows && t.rows[id].key == key && Settled(t.rows[id], bucket);
    FoundByKey(t, id);
    ConfirmChangesOneRow(bucket, t, id, e);
  }

  /** Messages about settled keys change nothing but clock readings, and are handled. */
  lemma {:induction false} SettledKeysAreStable(bucket: Bucket, t: Table, ds: seq<Delivery>)
    requires Valid(t) && Answered(ds)
    requires forall k :: k in EventKeys(ds) ==> KeySettled(bucket, t, k)
    ensures SameUpToReadyAt(t, After(bucket, t, ds))
  {
    if ds != [] {
      var n := |ds| - 1;
      EventKeysStep(ds);
      SettledKeysAreStable(bucket, t, ds[..n]);
      AfterIsValid(bucket, t, ds[..n]);
      var body := ds[n].msg.body;
      if IsCreate(body) {
        SettledStays(bucket, t, After(bucket, t, ds[..n]), body.key);
        IngestOfSettledKey(bucket, After(bucket, t, ds[..n]), body.key, ds[n].env);
      }
    }
  }

  lemma AnsweredKeysAreSettled(bucket: Bucket, t: Table, ds: seq<Delivery>, key: string)
    requires Valid(t) && FreshSlugs(t, ds) && Answered(ds) && key in EventKeys(ds)
    ensures KeySettled(bucket, After(bucket, t, ds), key)
  {
    var t' := After(bucket, t, ds);
    ViewAfter(bucket, t, ds);
    AfterIsValid(bucket, t, ds);
    ViewEntries(t);
    ViewKeys(t');
    assert key in View(t') && HasKey(t', key);
    var id := RowWithKey(t', key).value;
    ViewAt(t', id);
    var e := View(t')[key];
    assert e == SettledEntry(
      if key in View(t) then View(t)[key] else DiscoveredRow("", key, Names.Base(key), 0), bucket);
    var r := t'.rows[id];
    assert r.status == e.status && r.contentType == e.contentType && r.sizeBytes == e.sizeBytes;
    assert Settled(t'.rows[id], bucket);
  }

  /** When the acknowledgement of a batch is lost, the batch, or any part of it, in any
      order, comes again: the table ends as if the acknowledgement had arrived, up to
      `ready_at`. The second time around the slugs drawn are not used. */
  lemma RedeliveryChangesNothing(bucket: Bucket, t: Table, batch: seq<Delivery>, again: seq<Delivery>)
    requires Valid(t) && FreshSlugs(t, batch) && Answered(batch) && Answered(again)
    requires EventKeys(again) <= EventKeys(batch)
    ensures SameUpToReadyAt(After(bucket, t, batch), After(bucket, t, batch + again))
  {
    forall k | k in EventKeys(again)
      ensures KeySettled(bucket, After(bucket, t, batch), k)
    {
      AnsweredKeysAreSettled(bucket, t, batch, k);
    }
    AfterIsValid(bucket, t, batch);
    SettledKeysAreStable(bucket, After(bucket, t, batch), again);
    BatchesCompose(bucket, t, batch, again);
  }

  // ---------------------------------------------------------------- a failing message

  lemma {:induction false} LaterMessagesKeepKey(bucket: Bucket, t: Table, ds: seq<Delivery>, key: string)
    requires Valid(t) && KeySettled(bucket, t, key) && key !in EventKeys(ds)
    ensures KeySettled(bucket, After(bucket, t, ds), key)
  {
    if ds != [] {
      var n := |ds| - 1;
      EventKeysStep(ds);
      LaterMessagesKeepKey(bucket, t, ds[..n], key);
      AfterIsValid(bucket, t, ds[..n]);
      if IsCreate(ds[n].msg.body) {
        var t1 := After(bucket, t, ds[..n]);
        IngestStaysWithinKey(bucket, t1, ds[n].msg.body.key, ds[n].env);
        var id :| id in t1.rows && t1.rows[id].key == key && Settled(t1.rows[id], bucket);
        assert After(bucket, t, ds).rows[id] == t1.rows[id];
      }
    }
  }

  /** Other messages of a batch may fail in any way, before or after: a create event whose
      own calls are answered is handled, and its key is settled at the end of the batch,
      unless a later message is about the same key. */
  lemma FailuresStayLocal(bucket: Bucket, t: Table, ds: seq<Delivery>, i: nat)
    requires Valid(t) && FreshSlugs(t, ds)
    requires i < |ds| && IsCreate(ds[i].msg.body) && AllUp(ds[i].env)
    requires ds[i].msg.body.key !in EventKeys(ds[i + 1..])
    ensures HandledAt(bucket, t, ds, i)
    ensures KeySettled(bucket, After(bucket, t, ds), ds[i].msg.body.key)
  {
    var before, first, key := After(bucket, t, ds[..i]), ds[..i + 1], ds[i].msg.body.key;
    assert first[..i] == ds[..i] && ds == first + ds[i + 1..];
    AfterIsValid(bucket, t, ds[..i]);
    NextSlugIsFresh(bucket, t, first);
    AnsweredIngestSettles(bucket, before, key, ds[i].env);
    var t1 := After(bucket, t, first);
    AfterIsValid(bucket, t, first);
    assert KeySettled(bucket, t1, key);
    LaterMessagesKeepKey(bucket, t1, ds[i + 1..], key);
    BatchesCompose(bucket, t, first, ds[i + 1..]);
  }
}

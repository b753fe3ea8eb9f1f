/** What the poller does with a message (ingest/poller.go, ingest/r2event.go), as a
    function of the table, the bucket and the way each outside call went. */
module Ingest {
  import opened Wrappers
  import opened Tracks
  import opened R2
  import Names

  /** A message body after JSON decoding. */
  datatype Body = Malformed | Event(action: string, key: string)

  /** A pulled message. */
  datatype Message = Message(lease: nat, body: Body)

  const CREATE_ACTIONS := {"PutObject", "CopyObject", "CompleteMultipartUpload"}

  predicate IsCreate(body: Body) {
    body.Event? && body.action in CREATE_ACTIONS
  }

  predicate Creates(body: Body, key: string) {
    IsCreate(body) && body.key == key
  }

  /** How the outside calls made for one message go: whether each is answered, the slug
      `idgen` would draw, and the database clock. */
  datatype Env = Env(lookupUp: bool, insertUp: bool, headUp: bool, markUp: bool, slug: string, now: int)

  /** A message together with what happens while it is handled. */
  datatype Delivery = Delivery(msg: Message, env: Env)

  datatype Ingested = Ingested(table: Table, handled: bool)

  predicate AllUp(e: Env) {
    e.lookupUp && e.insertUp && e.headUp && e.markUp
  }

  /** From the row's slug on: Head, then MarkReady or MarkFailed. A failing MarkFailed is
      ignored, a failing MarkReady is not; a missing object still counts as handled. */
  ghost function Confirm(bucket: Bucket, t: Table, key: string, slug: string, e: Env): Ingested {
    if !e.headUp then Ingested(Update(t, slug, ToFailed, e.markUp).table, false)
    else if key !in bucket then Ingested(Update(t, slug, ToFailed, e.markUp).table, true)
    else Ingested(Update(t, slug, ToReady(bucket[key], e.now), e.markUp).table, e.markUp)
  }

  /** `ingestObject` */
  ghost function IngestObject(bucket: Bucket, t: Table, key: string, e: Env): Ingested {
    if !e.lookupUp then Ingested(t, false)
    else match RowWithKey(t, key)
      case Some(id) => Confirm(bucket, t, key, t.rows[id].slug, e)
      case None =>
        var made := Insert(t, DiscoveredRow(e.slug, key, Names.Base(key), e.now), e.insertUp);
        if made.reply != Done then Ingested(t, false)
        else Confirm(bucket, made.table, key, e.slug, e)
  }

  /** `handleMessage` */
  ghost function HandleMessage(bucket: Bucket, t: Table, body: Body, e: Env): Ingested {
    if body.Malformed? then Ingested(t, false)
    else if !IsCreate(body) then Ingested(t, true)
    else IngestObject(bucket, t, body.key, e)
  }

  /** The table after a list of messages has been handled one after the other. */
  ghost function After(bucket: Bucket, t: Table, ds: seq<Delivery>): Table {
    if ds == [] then t
    else
      var last := ds[|ds| - 1];
      HandleMessage(bucket, After(bucket, t, ds[..|ds| - 1]), last.msg.body, last.env).table
  }

  /** Whether the i-th message is handled without error. */
  ghost predicate HandledAt(bucket: Bucket, t: Table, ds: seq<Delivery>, i: nat)
    requires i < |ds|
  {
    HandleMessage(bucket, After(bucket, t, ds[..i]), ds[i].msg.body, ds[i].env).handled
  }

  /** The positions of the messages handled without error, in order. */
  ghost function HandledPositions(bucket: Bucket, t: Table, ds: seq<Delivery>, n: nat): (ps: seq<nat>)
    requires n <= |ds|
    ensures forall j :: 0 <= j < |ps| ==> ps[j] < n && HandledAt(bucket, t, ds, ps[j])
    ensures forall j, k :: 0 <= j < k < |ps| ==> ps[j] < ps[k]
    ensures forall i :: 0 <= i < n && HandledAt(bucket, t, ds, i) ==> i in ps
  {
    if n == 0 then []
    else
      HandledPositions(bucket, t, ds, n - 1) + if HandledAt(bucket, t, ds, n - 1) then [n - 1] else []
  }

  // ---------------------------------------------------------------- one message

  lemma {:induction false} AfterIsValid(bucket: Bucket, t: Table, ds: seq<Delivery>)
    requires Valid(t)
    ensures Valid(After(bucket, t, ds))
  {
    if ds != [] {
      var last := ds[|ds| - 1];
      AfterIsValid(bucket, t, ds[..|ds| - 1]);
      HandleKeepsConstraints(bucket, After(bucket, t, ds[..|ds| - 1]), last.msg.body, last.env);
    }
  }

  lemma ConfirmKeepsConstraints(bucket: Bucket, t: Table, key: string, slug: string, e: Env)
    requires Valid(t)
    ensures Valid(Confirm(bucket, t, key, slug, e).table)
  {
    var any := DiscoveredRow(slug, key, "", e.now);
    StatementsKeepConstraints(t, slug, any, ToFailed, e.markUp);
    if key in bucket {
      StatementsKeepConstraints(t, slug, any, ToReady(bucket[key], e.now), e.markUp);
    }
  }

  lemma HandleKeepsConstraints(bucket: Bucket, t: Table, body: Body, e: Env)
    requires Valid(t)
    ensures Valid(HandleMessage(bucket, t, body, e).table)
  {
    if IsCreate(body) && e.lookupUp {
      match RowWithKey(t, body.key)
      case Some(id) =>
        ConfirmKeepsConstraints(bucket, t, body.key, t.rows[id].slug, e);
      case None =>
        var r := DiscoveredRow(e.slug, body.key, Names.Base(body.key), e.now);
        StatementsKeepConstraints(t, e.slug, r, ToFailed, e.insertUp);
        ConfirmKeepsConstraints(bucket, Insert(t, r, e.insertUp).table, body.key, e.slug, e);
    }
  }

  /** The row for `key` says what the bucket says: ready with the object's metadata, or
      failed because there is no object. */
  ghost predicate Settled(r: Track, bucket: Bucket) {
    if r.key in bucket then Confirmed(r, bucket[r.key]) else r.status == Failed
  }

  ghost predicate Confirmed(r: Track, m: Meta) {
    r.status == Ready && r.contentType == Some(m.contentType) && r.sizeBytes == Some(m.sizeBytes)
  }

  /** The columns ingest never writes in a row that exists. */
  ghost predicate SameIdentity(r: Track, r': Track) {
    r' == r.(status := r'.status, contentType := r'.contentType, sizeBytes := r'.sizeBytes, readyAt := r'.readyAt)
  }

  /** Ingest of one key: other keys' rows are untouched, an existing row keeps its identity
      columns, and at most one row appears, for this key and under the slug drawn. */
  ghost predicate OnlyKeyChanged(t: Table, t': Table, key: string, slug: string) {
    && t.next <= t'.next <= t.next + 1
    && (forall id :: id in t.rows ==> id in t'.rows && SameIdentity(t.rows[id], t'.rows[id]))
    && (forall id :: id in t.rows && t.rows[id].key != key ==> t'.rows[id] == t.rows[id])
    && (forall id :: id in t'.rows && id !in t.rows ==>
          id == t.next && t'.rows[id].key == key && t'.rows[id].slug == slug && !HasKey(t, key))
  }

  /** The row a fully answered ingest leaves for `key`. */
  ghost function ConfirmedRow(r: Track, bucket: Bucket, now: int): Track {
    if r.key in bucket then Set(r, ToReady(bucket[r.key], now)) else Set(r, ToFailed)
  }

  lemma ConfirmChangesOneRow(bucket: Bucket, t: Table, id: nat, e: Env)
    requires Valid(t) && id in t.rows
    ensures var t' := Confirm(bucket, t, t.rows[id].key, t.rows[id].slug, e).table;
            && t' == t.(rows := t.rows[id := t'.rows[id]])
            && SameIdentity(t.rows[id], t'.rows[id])
            && (e.headUp && e.markUp ==> t'.rows[id] == ConfirmedRow(t.rows[id], bucket, e.now))
  {
    var r := t.rows[id];
    assert HasSlug(t, r.slug);
    UpdatedIsOneRow(t, id, ToFailed);
    if r.key in bucket {
      UpdatedIsOneRow(t, id, ToReady(bucket[r.key], e.now));
    }
  }

  lemma MintedStaysWithinKey(bucket: Bucket, t: Table, r: Track, e: Env)
    requires Valid(t) && CanInsert(t, r)
    ensures OnlyKeyChanged(t, Confirm(bucket, Inserted(t, r), r.key, r.slug, e).table, r.key, r.slug)
  {
    var t1 := Inserted(t, r);
    InsertAcceptedIffValid(t, r);
    ConfirmChangesOneRow(bucket, t1, t.next, e);
    var t' := Confirm(bucket, t1, r.key, r.slug, e).table;
    assert t' == Table(t.rows[t.next := t'.rows[t.next]], t.next + 1);
    assert t'.rows[t.next].slug == r.slug && t'.rows[t.next].key == r.key;
  }

  /** Whatever fails on the way, ingest of a key stays within that key. */
  lemma IngestStaysWithinKey(bucket: Bucket, t: Table, key: string, e: Env)
    requires Valid(t)
    ensures OnlyKeyChanged(t, IngestObject(bucket, t, key, e).table, key, e.slug)
  {
    if e.lookupUp {
      match RowWithKey(t, key)
      case Some(id) =>
        ConfirmChangesOneRow(bucket, t, id, e);
      case None =>
        var r := DiscoveredRow(e.slug, key, Names.Base(key), e.now);
        if e.insertUp && CanInsert(t, r) {
          MintedStaysWithinKey(bucket, t, r, e);
        }
    }
  }

  /** When every call is answered and the slug is new, the message is handled and the row
      for its key is settled, whether or not it existed before. */
  lemma AnsweredIngestSettles(bucket: Bucket, t: Table, key: string, e: Env)
    requires Valid(t) && AllUp(e) && !HasSlug(t, e.slug)
    ensures var r := IngestObject(bucket, t, key, e);
            && r.handled
            && HasKey(r.table, key)
            && var id := RowWithKey(r.table, key).value;
               && Settled(r.table.rows[id], bucket)
               && id == (if HasKey(t, key) then RowWithKey(t, key).value else t.next)
               && r.table.rows[id] == ConfirmedRow(
                    if HasKey(t, key) then t.rows[id] else DiscoveredRow(e.slug, key, Names.Base(key), e.now),
                    bucket, e.now)
  {
    var t' := IngestObject(bucket, t, key, e).table;
    assert Valid(t') by {
      var body := Event("PutObject", key);
      HandleKeepsConstraints(bucket, t, body, e);
    }
    match RowWithKey(t, key)
    case Some(id) =>
      ConfirmChangesOneRow(bucket, t, id, e);
      FoundByKey(t', id);
    case None =>
      var r := DiscoveredRow(e.slug, key, Names.Base(key), e.now);
      InsertAcceptedIffValid(t, r);
      ConfirmChangesOneRow(bucket, Inserted(t, r), t.next, e);
      FoundByKey(t', t.next);
  }

  /** Which messages are ingested. With every call answered, an event of one of the three
      actions under which R2 announces a write settles its key; an event of any other action
      counts as handled and a malformed body does not, and neither changes the table,
      whatever calls are answered. */
  lemma ThreeActionsAreIngested(bucket: Bucket, t: Table, body: Body, e: Env)
    requires Valid(t) && !HasSlug(t, e.slug)
    ensures var r := HandleMessage(bucket, t, body, e);
            match body
            case Malformed => r == Ingested(t, false)
            case Event(action, key) =>
              if action == "PutObject" || action == "CopyObject" || action == "CompleteMultipartUpload" then
                AllUp(e) ==> r.handled && HasKey(r.table, key)
                             && Settled(r.table.rows[RowWithKey(r.table, key).value], bucket)
              else r == Ingested(t, true)
  {
    if IsCreate(body) && AllUp(e) {
      AnsweredIngestSettles(bucket, t, body.key, e);
    }
  }

  /** What a row becomes at the end of ingest, when MarkReady or MarkFailed is answered. */
  ghost predicate Marked(r: Track, r': Track, bucket: Bucket, e: Env) {
    if e.headUp && r.key in bucket then
      && r'.status == Ready && r'.readyAt == Some(e.now)
      && r'.contentType == Some(bucket[r.key].contentType) && r'.sizeBytes == Some(bucket[r.key].sizeBytes)
      && SameIdentity(r, r')
    else r' == r.(status := Failed)
  }

  /** Ingest of a key that has a row, call by call: which failures leave the event for retry,
      and what is written. A confirmation writes the clock; a failure changes the status only. */
  lemma IngestOfKnownKey(bucket: Bucket, t: Table, key: string, e: Env, id: nat)
    requires Valid(t) && id in t.rows && t.rows[id].key == key
    ensures var r := IngestObject(bucket, t, key, e);
            && (r.handled <==> e.lookupUp && e.headUp && (key in bucket ==> e.markUp))
            && id in r.table.rows && r.table == t.(rows := t.rows[id := r.table.rows[id]])
            && (if e.lookupUp && e.markUp then Marked(t.rows[id], r.table.rows[id], bucket, e)
                else r.table == t)
  {
    FoundByKey(t, id);
    assert HasSlug(t, t.rows[id].slug);
    ConfirmChangesOneRow(bucket, t, id, e);
    UpdatedIsOneRow(t, id, ToFailed);
  }

  /** Ingest of a key without a row. The row it makes is given by value: the drawn slug, the
      key, its last element as title, no expiry, no download, no description, no plays. */
  lemma IngestOfNewKey(bucket: Bucket, t: Table, key: string, e: Env)
    requires Valid(t) && !HasKey(t, key)
    ensures var r := IngestObject(bucket, t, key, e);
            var made := Track(e.slug, key, Names.Base(key), Pending, None, None, false, None, e.now, None, 0, "");
            if !e.lookupUp || !e.insertUp || HasSlug(t, e.slug) then r == Ingested(t, false)
            else
              && (r.handled <==> e.headUp && (key in bucket ==> e.markUp))
              && t.next in r.table.rows && r.table == Table(t.rows[t.next := r.table.rows[t.next]], t.next + 1)
              && (if e.markUp then Marked(made, r.table.rows[t.next], bucket, e)
                  else r.table.rows[t.next] == made)
  {
    var made := DiscoveredRow(e.slug, key, Names.Base(key), e.now);
    if e.lookupUp && e.insertUp && !HasSlug(t, e.slug) {
      InsertAcceptedIffValid(t, made);
      var t1 := Inserted(t, made);
      assert t1.rows[t.next] == made && HasSlug(t1, e.slug);
      ConfirmChangesOneRow(bucket, t1, t.next, e);
      UpdatedIsOneRow(t1, t.next, ToFailed);
    }
  }
}

/** `store.Store`: the object through which every handler and the poller change the
    table. Each method finds its row by a scan and changes that row in place; its
    contract is the set-at-a-time meaning of the SQL statement in module Tracks.

    `up` says whether the database answered, `now` is its clock. */
module Store {
  import opened Wrappers
  import opened Tracks

  class Store {
    var rows: map<nat, Track>
    var next: nat

    function Contents(): Table
      reads this
    {
      Table(rows, next)
    }

    ghost predicate Ok()
      reads this
    {
      Valid(Contents())
    }

    constructor ()
      ensures Contents() == EMPTY && Ok()
    {
      rows, next := map[], 0;
    }

    /** The WHERE clause: a scan for the row that carries `slug`. */
    method ScanSlug(slug: string) returns (found: Option<nat>)
      requires Ok()
      ensures found == RowWithSlug(Contents(), slug)
    {
      var todo := rows.Keys;
      while todo != {}
        invariant todo <= rows.Keys
        invariant forall id :: id in rows && id !in todo ==> rows[id].slug != slug
        decreases todo
      {
        var id :| id in todo;
        if rows[id].slug == slug {
          FoundBySlug(Contents(), id);
          return Some(id);
        }
        todo := todo - {id};
      }
      found := None;
    }

    method ScanKey(key: string) returns (found: Option<nat>)
      requires Ok()
      ensures found == RowWithKey(Contents(), key)
    {
      var todo := rows.Keys;
      while todo != {}
        invariant todo <= rows.Keys
        invariant forall id :: id in rows && id !in todo ==> rows[id].key != key
        decreases todo
      {
        var id :| id in todo;
        if rows[id].key == key {
          FoundByKey(Contents(), id);
          return Some(id);
        }
        todo := todo - {id};
      }
      found := None;
    }

    method Insert(r: Track, up: bool) returns (reply: Reply)
      requires Ok()
      modifies this
      ensures Ok()
      ensures Sql(Contents(), reply) == Tracks.Insert(old(Contents()), r, up)
    {
      InsertAcceptedIffValid(Contents(), r);
      var bySlug := ScanSlug(r.slug);
      var byKey := ScanKey(r.key);
      if !up || bySlug.Some? || byKey.Some? {
        return SqlError;
      }
      rows, next := rows[next := r], next + 1;
      reply := Done;
    }

    method CreatePending(slug: string, key: string, title: string, expiresAt: Option<int>,
                         downloadable: bool, description: string, up: bool, now: int) returns (reply: Reply)
      requires Ok()
      modifies this
      ensures Ok()
      ensures Sql(Contents(), reply) ==
              Tracks.Insert(old(Contents()),
                            PendingRow(slug, key, title, expiresAt, downloadable, description, now), up)
    {
      reply := Insert(PendingRow(slug, key, title, expiresAt, downloadable, description, now), up);
    }

    method CreateFromDiscovery(slug: string, key: string, title: string, up: bool, now: int) returns (reply: Reply)
      requires Ok()
      modifies this
      ensures Ok()
      ensures Sql(Contents(), reply) == Tracks.Insert(old(Contents()), DiscoveredRow(slug, key, title, now), up)
    {
      reply := Insert(DiscoveredRow(slug, key, title, now), up);
    }

    method GetByObjectKey(key: string, up: bool) returns (r: Lookup)
      requires Ok()
      ensures r == SelectByKey(Contents(), key, up)
    {
      if !up {
        return Unreachable;
      }
      var found := ScanKey(key);
      r := if found.Some? then Found(rows[found.value]) else Missing;
    }

    method GetBySlug(slug: string, up: bool) returns (r: Lookup)
      requires Ok()
      ensures r == SelectBySlug(Contents(), slug, up)
    {
      if !up {
        return Unreachable;
      }
      var found := ScanSlug(slug);
      r := if found.Some? then Found(rows[found.value]) else Missing;
    }

    /** An UPDATE none of whose columns is under a constraint. */
    method SetColumns(slug: string, c: SetClause, up: bool) returns (reply: Reply)
      requires Ok() && !c.ToKey? && !c.ToSlug?
      modifies this
      ensures Ok()
      ensures Sql(Contents(), reply) == Update(old(Contents()), slug, c, up)
    {
      ghost var before := Contents();
      if !up {
        return SqlError;
      }
      var found := ScanSlug(slug);
      if found.None? {
        return NotFound;
      }
      UpdateRefusedIffInvalid(before, slug, c);
      UpdatedIsOneRow(before, found.value, c);
      rows := rows[found.value := Set(rows[found.value], c)];
      reply := Done;
    }

    /** The code looks only at the error, so a slug that names no row counts as done. */
    method MarkReady(slug: string, meta: Meta, up: bool, now: int) returns (failed: bool)
      requires Ok()
      modifies this
      ensures Ok()
      ensures Contents() == Update(old(Contents()), slug, ToReady(meta, now), up).table
      ensures failed == !up
    {
      var reply := SetColumns(slug, ToReady(meta, now), up);
      failed := reply == SqlError;
    }

    method MarkFailed(slug: string, up: bool) returns (failed: bool)
      requires Ok()
      modifies this
      ensures Ok()
      ensures Contents() == Update(old(Contents()), slug, ToFailed, up).table
      ensures failed == !up
    {
      var reply := SetColumns(slug, ToFailed, up);
      failed := reply == SqlError;
    }

    method UpdateTrack(slug: string, title: string, expiresAt: Option<int>, downloadable: bool,
                       description: string, up: bool) returns (reply: Reply)
      requires Ok()
      modifies this
      ensures Ok()
      ensures Sql(Contents(), reply) ==
              Update(old(Contents()), slug, ToForm(title, expiresAt, downloadable, description), up)
    {
      reply := SetColumns(slug, ToForm(title, expiresAt, downloadable, description), up);
    }

    method IncrementPlayCount(slug: string, up: bool) returns (reply: Reply)
      requires Ok()
      modifies this
      ensures Ok()
      ensures Sql(Contents(), reply) == Update(old(Contents()), slug, PlusOnePlay, up)
    {
      reply := SetColumns(slug, PlusOnePlay, up);
    }

    method BeginReplace(slug: string, newKey: string, up: bool) returns (reply: Reply)
      requires Ok()
      modifies this
      ensures Ok()
      ensures Sql(Contents(), reply) == Update(old(Contents()), slug, ToKey(newKey), up)
    {
      ghost var before := Contents();
      if !up {
        return SqlError;
      }
      var found := ScanSlug(slug);
      if found.None? {
        return NotFound;
      }
      var holder := ScanKey(newKey);
      UpdateRefusedIffInvalid(before, slug, ToKey(newKey));
      if holder.Some? && holder != found {
        assert before.rows[holder.value].slug != slug;
        return SqlError;
      }
      UpdatedIsOneRow(before, found.value, ToKey(newKey));
      rows := rows[found.value := Set(rows[found.value], ToKey(newKey))];
      reply := Done;
    }

    method RotateSlug(oldSlug: string, newSlug: string, up: bool) returns (reply: Reply)
      requires Ok()
      modifies this
      ensures Ok()
      ensures Sql(Contents(), reply) == Update(old(Contents()), oldSlug, ToSlug(newSlug), up)
    {
      ghost var before := Contents();
      if !up {
        return SqlError;
      }
      var found := ScanSlug(oldSlug);
      if found.None? {
        return NotFound;
      }
      var holder := ScanSlug(newSlug);
      UpdateRefusedIffInvalid(before, oldSlug, ToSlug(newSlug));
      if holder.Some? && holder != found {
        return SqlError;
      }
      UpdatedIsOneRow(before, found.value, ToSlug(newSlug));
      rows := rows[found.value := Set(rows[found.value], ToSlug(newSlug))];
      reply := Done;
    }

    method Delete(slug: string, up: bool) returns (reply: Reply)
      requires Ok()
      modifies this
      ensures Ok()
      ensures Sql(Contents(), reply) == Tracks.Delete(old(Contents()), slug, up)
    {
      ghost var before := Contents();
      if !up {
        return SqlError;
      }
      var found := ScanSlug(slug);
      if found.None? {
        return NotFound;
      }
      rows := rows - {found.value};
      DeleteRemovesOneRow(before, slug, up);
      reply := Done;
    }
  }
}

/** The in-memory "never add again" set of add_engine.py, over the tables it caches. */
module BlockedCache {
  import opened Common
  import opened Database

  /** A Python set: callers may hold the very object the cache holds. */
  class IdSet {
    var elems: set<int>

    constructor (s: set<int>)
      ensures elems == s
    {
      elems := s;
    }

    method Add(uid: int)
      modifies this
      ensures elems == old(elems) + {uid}
    {
      elems := elems + {uid};
    }
  }

  const BLOCKED_CACHE_TTL: real := 120.0

  class Cache {
    const db: Database
    var ids: IdSet?
    var ts: real

    /** Whatever is cached is the truth: everybody ever added, and everybody on the do-not-add list. */
    ghost predicate Truthful()
      reads this, db, ids
    {
      ids != null ==> ids.elems == db.Value().Blocked()
    }

    constructor (db: Database)
      ensures Truthful() && this.db == db && ids == null
    {
      this.db := db;
      ids, ts := null, 0.0;
    }

    /**
     * The blocked ids, read again when there is no cached set or it is over two minutes old.  The caller
     * gets the cached object itself, except when that is empty: then it gets a new set of its own.
     */
    method GetBlockedIds(now: real) returns (r: IdSet)
      requires Truthful()
      modifies this
      ensures Truthful()
      ensures r.elems == db.Value().Blocked()
      ensures if db.Value().Blocked() == {} then fresh(r) && r != ids else r == ids
      ensures if old(ids) != null && now - old(ts) <= 120.0 then ids == old(ids) && ts == old(ts)
              else fresh(ids) && ts == now
    {
      if ids == null || now - ts > BLOCKED_CACHE_TTL {
        var s := db.GetBlockedUserIds();
        ids := new IdSet(s);
        ts := now;
      }
      if ids.elems != {} {
        r := ids;
      } else {
        r := new IdSet({});
      }
    }

    method Invalidate()
      modifies this
      ensures ids == null && Truthful()
    {
      ids, ts := null, 0.0;
    }

    method MarkAddedLocal(uid: int)
      modifies ids
      ensures ids != null ==> ids.elems == old(ids.elems) + {uid}
    {
      if ids != null {
        ids.Add(uid);
      }
    }

    /** mark_user_as_added of bot.py: the row in the history, then the cached set. */
    method MarkUserAsAdded(group: int, uid: int, phone: string)
      requires ids != null ==> db.Value().Blocked() <= ids.elems <= db.Value().Blocked() + {uid}
      modifies db, ids
      ensures Truthful()
      ensures db.Value() == Do(old(db.Value()), OpMarkAdded(group, uid, phone))
      ensures db.Value().Blocked() == old(db.Value().Blocked()) + {uid}
      ensures ids != null ==> ids.elems == old(ids.elems) + {uid}
    {
      MarkAddedIds(db.Value(), group, uid, phone);
      db.MarkAdded(group, uid, phone);
      MarkAddedLocal(uid);
    }

    /** The do-not-add row, the scraped row, and no cached set any more, whatever it held. */
    method NeverAddAgain(uid: int, reason: string)
      modifies this, db
      ensures ids == null && Truthful()
      ensures db.Value() == Do(old(db.Value()), OpNeverAddAgain(uid, reason))
      ensures db.Value().Blocked() == old(db.Value().Blocked()) + {uid}
    {
      db.AddDoNotAdd(uid, reason);
      var _ := db.DeleteUser(uid);
      Invalidate();
    }

    /** A worker books a join (or "already in"): its own set first, which may be the cached one, then the rest. */
    method BookAdded(held: IdSet, group: int, uid: int, phone: string)
      requires Truthful()
      modifies held, db, ids
      ensures Truthful()
      ensures held.elems == old(held.elems) + {uid}
      ensures db.Value() == Do(old(db.Value()), OpMarkAdded(group, uid, phone))
      ensures db.Value().Blocked() == old(db.Value().Blocked()) + {uid}
    {
      held.Add(uid);
      MarkUserAsAdded(group, uid, phone);
    }

    /** A worker books a refusal: its own set, which may be the cached one, keeps the id when the cache is dropped. */
    method BookRefused(held: IdSet, uid: int, reason: string)
      modifies this, held, db
      ensures ids == null && Truthful()
      ensures held.elems == old(held.elems) + {uid}
      ensures db.Value() == Do(old(db.Value()), OpNeverAddAgain(uid, reason))
      ensures db.Value().Blocked() == old(db.Value().Blocked()) + {uid}
    {
      held.Add(uid);
      NeverAddAgain(uid, reason);
    }

    // -------------------------------------------------------------- histories

    /** One call; helds are the sets that the runs opened so far hold, and answer is what Get returns. */
    method ServeOne(helds: seq<IdSet>, c: Call) returns (helds': seq<IdSet>, answer: seq<set<int>>)
      requires Truthful()
      modifies this, helds, db, ids
      ensures Truthful()
      ensures db.Value() == DoCall(old(db.Value()), c)
      ensures answer == if c.Get? then [old(db.Value()).Blocked()] else []
      ensures ids == null || ids == old(ids) || fresh(ids)
      ensures forall k :: 0 <= k < |helds'| ==> helds'[k] in helds || fresh(helds'[k])
    {
      helds', answer := helds, [];
      match c {
        case Get(now) =>
          var r := GetBlockedIds(now);
          answer := [r.elems];
        case OpenRun(now) =>
          Invalidate();
          var held := GetBlockedIds(now);
          helds' := helds + [held];
        case RunAdded(run, group, uid, phone) =>
          var held := HeldBy(helds, run);
          BookAdded(held, group, uid, phone);
        case RunRefused(run, uid, reason) =>
          var held := HeldBy(helds, run);
          BookRefused(held, uid, reason);
        case Mark(group, uid, phone) => MarkUserAsAdded(group, uid, phone);
        case Never(uid, reason) => NeverAddAgain(uid, reason);
        case Restart =>
          db.Restart();
          Invalidate();
          helds' := [];
        case _ => ChangeScraped(c);
      }
    }

    /** The set of the given run; a run that was opened before this history began has one nobody else knows. */
    method HeldBy(helds: seq<IdSet>, run: nat) returns (held: IdSet)
      ensures held in helds || fresh(held)
    {
      if run < |helds| {
        held := helds[run];
      } else {
        held := new IdSet({});
      }
    }

    /** The calls that only touch the scraped table leave the blocked ids, and so the cache, as they are. */
    method ChangeScraped(c: Call)
      requires Truthful() && (c.Save? || c.BulkSave? || c.Purge? || c.PurgeListed? || c.Delete?)
      modifies db
      ensures Truthful() && db.Value() == DoCall(old(db.Value()), c)
    {
      match c {
        case Save(uid, row) =>
          SavesAdmitOnlyUnblocked(db.Value(), OpSave(uid, row));
          db.SaveUser(uid, row);
        case BulkSave(users, statements) =>
          SavesAdmitOnlyUnblocked(db.Value(), OpBulkSave(users, statements));
          db.BulkSaveUsers(users, statements);
        case Purge => db.PurgeAddedUsers();
        case PurgeListed => db.PurgeDoNotAddUsers();
        case Delete(uids) => db.DeleteUsersBulk(uids);
      }
    }

    /** Any history of calls gets the answers of Truths, which asks the tables afresh every time. */
    method Serve(calls: seq<Call>) returns (answers: seq<set<int>>)
      requires Truthful()
      modifies this, db, ids
      ensures Truthful()
      ensures answers == Truths(old(db.Value()), calls)
      ensures db.Value() == AfterCalls(old(db.Value()), calls)
    {
      answers := [];
      var helds: seq<IdSet> := [];
      ghost var truths, end := Truths(db.Value(), calls), AfterCalls(db.Value(), calls);
      var i := 0;
      while i < |calls|
        invariant 0 <= i <= |calls|
        invariant Truthful()
        invariant forall k :: 0 <= k < |helds| ==> fresh(helds[k])
        invariant ids == null || ids == old(ids) || fresh(ids)
        invariant answers + Truths(db.Value(), calls[i..]) == truths
        invariant AfterCalls(db.Value(), calls[i..]) == end
      {
        assert calls[i..][0] == calls[i] && calls[i..][1..] == calls[i + 1..];
        Regroup(answers, if calls[i].Get? then [db.Value().Blocked()] else [],
                Truths(DoCall(db.Value(), calls[i]), calls[i + 1..]));
        var answer;
        helds, answer := ServeOne(helds, calls[i]);
        answers := answers + answer;
        i := i + 1;
      }
      assert calls[i..] == [];
    }
  }

  /**
   * What callers do: ask, open another run, book outcomes inside any open run and outside, change the
   * scraped table, and start the process again.
   */
  datatype Call =
    | Get(now: real)
    | OpenRun(now: real)
    | Mark(group: int, uid: int, phone: string)
    | Never(uid: int, reason: string)
    | RunAdded(run: nat, group: int, uid: int, phone: string)
    | RunRefused(run: nat, uid: int, reason: string)
    | Save(uid: int, row: Row)
    | BulkSave(users: seq<(int, Row)>, statements: nat)
    | Purge
    | PurgeListed
    | Delete(uids: set<int>)
    | Restart

  function DoCall(t: Tables, c: Call): Tables {
    match c
    case Get(_) => t
    case OpenRun(_) => t
    case Mark(group, uid, phone) => Do(t, OpMarkAdded(group, uid, phone))
    case RunAdded(_, group, uid, phone) => Do(t, OpMarkAdded(group, uid, phone))
    case Never(uid, reason) => Do(t, OpNeverAddAgain(uid, reason))
    case RunRefused(_, uid, reason) => Do(t, OpNeverAddAgain(uid, reason))
    case Save(uid, row) => Do(t, OpSave(uid, row))
    case BulkSave(users, statements) => Do(t, OpBulkSave(users, statements))
    case Purge => Do(t, OpPurgeAdded)
    case PurgeListed => Do(t, OpPurgeDoNotAdd)
    case Delete(uids) => Do(t, OpDelete(uids))
    case Restart => Do(t, OpRestart)
  }

  function AfterCalls(t: Tables, calls: seq<Call>): Tables
    decreases |calls|
  {
    if calls == [] then t else AfterCalls(DoCall(t, calls[0]), calls[1..])
  }

  /** The answers an uncached implementation would give. */
  function Truths(t: Tables, calls: seq<Call>): seq<set<int>>
    decreases |calls|
  {
    if calls == [] then []
    else (if calls[0].Get? then [t.Blocked()] else []) + Truths(DoCall(t, calls[0]), calls[1..])
  }
}

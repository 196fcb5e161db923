/** The writer's connection: one table and its index, changed in place (src/store/schema.rs, retention.rs, writer.rs). */
module Storage {
  import opened Basics
  import opened Records
  import opened Table
  import opened Retention

  class Database {
    var logs: Rows
    var fts: set<Posting>
    var hasIndex: bool           // whether logs_fts has been created
    var saved: Option<Db>        // what an open transaction would roll back to

    constructor (logs: Rows, fts: set<Posting>, hasIndex: bool)
      ensures Value() == Db(logs, fts) && this.hasIndex == hasIndex && saved == None
    {
      this.logs, this.fts, this.hasIndex, this.saved := logs, fts, hasIndex, None;
    }

    function Value(): Db
      reads this
    {
      Db(logs, fts)
    }

    method Begin(ok: bool)
      requires saved.None?
      modifies this
      ensures Value() == old(Value()) && saved == if ok then Some(Value()) else None
    {
      if ok { saved := Some(Db(logs, fts)); }
    }

    /** INSERT OR REPLACE INTO logs, with the insert trigger but no delete trigger for a replaced row. */
    method InsertOrReplace(r: LogRecord)
      modifies this
      ensures logs == old(logs)[r.id := r] && fts == old(fts) + {Posting(r.id, r.message, r.name)}
      ensures Value() == Insert(old(Value()), r) && saved == old(saved)
    {
      logs := logs[r.id := r];
      fts := fts + {Post(r)};
    }

    /** Ends the transaction; one that is not committed rolls back when it is dropped. */
    method End(commit: bool)
      requires saved.Some?
      modifies this
      ensures saved == None
      ensures Value() == if commit then old(Value()) else old(saved).value
    {
      if !commit { logs, fts := saved.value.logs, saved.value.fts; }
      saved := None;
    }

    /** DELETE with the delete trigger for each row. */
    method DeleteRows(doomed: set<int>)
      modifies this
      ensures logs == old(logs) - doomed
      ensures fts == old(fts) - set id | id in old(logs) && id in doomed ::
                                  Posting(old(logs)[id].id, old(logs)[id].message, old(logs)[id].name)
      ensures Value() == Delete(old(Value()), doomed) && saved == old(saved)
    {
      fts := fts - set id | id in logs && id in doomed :: Post(logs[id]);
      logs := logs - doomed;
    }

    /** COALESCE(MAX(id), 0). */
    method TopId() returns (m: int)
      ensures m == MaxId(logs)
    {
      if top :| top in logs && forall id | id in logs :: id <= top {
        m := top;
      } else {
        if MaxId(logs) in logs { assert false; }
        m := 0;
      }
    }

    /** WHERE id > after ORDER BY id LIMIT limit: walks up from the cursor until the page is full. */
    method ReadSince(after: int, limit: nat) returns (page: seq<LogRecord>)
      requires Keyed(logs)
      ensures page == SinceId(logs, after, limit)
    {
      ghost var wanted := ScanAbove(logs, after, limit);
      page := [];
      var cursor := after;
      while |page| < limit
        invariant |page| <= |wanted| && |page| <= limit && page == wanted[..|page|]
        invariant cursor == CursorAt(wanted, after, |page|)
      {
        if id :| id in logs && IsNextId(logs, cursor, id) {
          NextRow(logs, after, wanted, |page|, id);
          page := page + [logs[id]];
          cursor := id;
        } else {
          NoNextRow(logs, after, wanted, |page|);
          break;
        }
      }
    }

    /**
     * The retention sweep: an age cap, then a row cap. `cutoff` is None when no age is configured;
     * `agedOk` and `cappedOk` say whether each delete succeeds; a failed one is only logged.
     */
    method Sweep(cutoff: Option<int>, maxRows: int, agedOk: bool, cappedOk: bool)
      modifies this
      ensures Value() == Prune(old(Value()), if agedOk then cutoff else None, if cappedOk then maxRows else 0)
      ensures forall id :: id in logs <==>
                && id in old(logs) && (agedOk && cutoff.Some? ==> old(logs)[id].ts >= cutoff.value)
                && (cappedOk && maxRows > 0 ==>
                      forall j | j in old(logs) && (agedOk && cutoff.Some? ==> old(logs)[j].ts >= cutoff.value) ::
                        id > j - maxRows)
      ensures forall id | id in logs :: logs[id] == old(logs)[id]
      ensures saved == old(saved)
    {
      ghost var before := Value();
      if cutoff.Some? {
        if agedOk { DeleteRows(Older(logs, cutoff.value)); }
      }
      if maxRows > 0 {
        if cappedOk {
          var doomed := set id | id in logs && exists j | j in logs :: id <= j - maxRows;
          assert doomed == OverCap(logs, maxRows);
          DeleteRows(doomed);
        }
      }
      SweptRows(before, cutoff, maxRows, agedOk, cappedOk);
    }

    /** Creates the index, and fills it once if the database predates it. */
    method BuildFts()
      modifies this
      ensures hasIndex && logs == old(logs) && saved == old(saved)
      ensures fts == if old(hasIndex) then old(fts) else set id | id in logs :: Posting(logs[id].id, logs[id].message, logs[id].name)
      ensures Value() == if old(hasIndex) then old(Value()) else Rebuild(old(Value()))
      ensures Agrees(Value()) <==> old(hasIndex ==> Agrees(Value()))
    {
      var existed := hasIndex;
      if !existed { fts := {}; }
      hasIndex := true;
      if !existed {
        if |logs| > 0 {
          fts := set id | id in logs :: Post(logs[id]);
        }
      }
    }
  }

  /** A failed delete is as good as disabled, so `PruneKeeps` says which rows survive. */
  lemma SweptRows(db: Db, cutoff: Option<int>, maxRows: int, agedOk: bool, cappedOk: bool)
    ensures var kept := Prune(db, if agedOk then cutoff else None, if cappedOk then maxRows else 0).logs;
      && (forall id :: id in kept <==>
            && id in db.logs && (agedOk && cutoff.Some? ==> db.logs[id].ts >= cutoff.value)
            && (cappedOk && maxRows > 0 ==>
                  forall j | j in db.logs && (agedOk && cutoff.Some? ==> db.logs[j].ts >= cutoff.value) :: id > j - maxRows))
      && (forall id | id in kept :: kept[id] == db.logs[id])
  {
    forall id {
      PruneKeeps(db, if agedOk then cutoff else None, if cappedOk then maxRows else 0, id);
    }
    PruneOnlyRemoves(db, if agedOk then cutoff else None, if cappedOk then maxRows else 0);
  }
}

/** The retention sweep (src/store/retention.rs): an age cap, then a row cap. */
module Retention {
  import opened Basics
  import opened Table

  function Older(logs: Rows, cutoff: int): set<int> {
    set id | id in logs && logs[id].ts < cutoff
  }

  ghost function OverCap(logs: Rows, maxRows: int): set<int> {
    set id | id in logs && id <= MaxId(logs) - maxRows
  }

  /** A disabled or failed age sweep is `None`; a disabled or failed row cap is 0. */
  ghost function Prune(db: Db, cutoff: Option<int>, maxRows: int): Db {
    var aged := if cutoff.Some? then Delete(db, Older(db.logs, cutoff.value)) else db;
    if maxRows > 0 then Delete(aged, OverCap(aged.logs, maxRows)) else aged
  }

  lemma PruneOnlyRemoves(db: Db, cutoff: Option<int>, maxRows: int)
    ensures forall id | id in Prune(db, cutoff, maxRows).logs ::
              id in db.logs && Prune(db, cutoff, maxRows).logs[id] == db.logs[id]
  {
  }

  lemma PruneAgrees(db: Db, cutoff: Option<int>, maxRows: int)
    requires Keyed(db.logs) && Agrees(db)
    ensures Keyed(Prune(db, cutoff, maxRows).logs) && Agrees(Prune(db, cutoff, maxRows))
  {
    var aged := if cutoff.Some? then Delete(db, Older(db.logs, cutoff.value)) else db;
    if cutoff.Some? { DeleteAgrees(db, Older(db.logs, cutoff.value)); }
    if maxRows > 0 { DeleteAgrees(aged, OverCap(aged.logs, maxRows)); }
  }

  /** Fewer than `n + 1` integers fit in a span of `n`. */
  lemma {:induction false} SpanBound(s: set<int>, top: int, n: nat)
    requires forall x | x in s :: top - n < x <= top
    ensures |s| <= n
    decreases n
  {
    if n == 0 {
      assert s == {};
    } else {
      var lower := s - {top};
      SpanBound(lower, top - 1, n - 1);
      assert |s| <= |lower| + 1 by { if top in s { assert s == lower + {top}; } else { assert s == lower; } }
    }
  }

  /** What a sweep keeps: exactly the young enough rows within `maxRows` ids of the newest of them. */
  lemma PruneKeeps(db: Db, cutoff: Option<int>, maxRows: int, id: int)
    ensures id in Prune(db, cutoff, maxRows).logs <==>
              && id in db.logs && (cutoff.Some? ==> db.logs[id].ts >= cutoff.value)
              && (maxRows > 0 ==>
                    forall j | j in db.logs && (cutoff.Some? ==> db.logs[j].ts >= cutoff.value) :: id > j - maxRows)
  {
    var aged := if cutoff.Some? then Delete(db, Older(db.logs, cutoff.value)) else db;
    assert forall j :: j in aged.logs <==> j in db.logs && (cutoff.Some? ==> db.logs[j].ts >= cutoff.value);
    if id in aged.logs {
      assert MaxId(aged.logs) in aged.logs;
    }
  }

  /** After a sweep with a row cap the ids span at most `maxRows`, so there are at most that many rows. */
  lemma PruneCaps(db: Db, cutoff: Option<int>, maxRows: int)
    requires maxRows > 0
    ensures var kept := Prune(db, cutoff, maxRows).logs;
      && |kept| <= maxRows
      && forall i, j | i in kept && j in kept :: i - j < maxRows
  {
    var kept := Prune(db, cutoff, maxRows).logs;
    forall i, j | i in kept && j in kept ensures i - j < maxRows {
      PruneKeeps(db, cutoff, maxRows, j);
      PruneKeeps(db, cutoff, maxRows, i);
    }
    var top := MaxId(kept);
    forall x | x in kept.Keys ensures top - maxRows < x <= top {}
    SpanBound(kept.Keys, top, maxRows);
    assert |kept| == |kept.Keys|;
  }

  /** The row cap alone never removes the newest row, so MAX(id) survives it. */
  lemma CapKeepsTop(db: Db, maxRows: int)
    requires maxRows > 0
    ensures MaxId(Prune(db, None, maxRows).logs) == MaxId(db.logs)
  {
    var kept := Prune(db, None, maxRows).logs;
    if exists x :: x in db.logs {
      var top := MaxId(db.logs);
      PruneKeeps(db, None, maxRows, top);
      assert top in kept && MaxId(kept) in kept && MaxId(kept) in db.logs;
    }
  }
}

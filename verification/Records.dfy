/** The log line and the arithmetic of its identifiers. */
module Records {
  import opened Basics

  /** A stored log line (src/model.rs). `context` holds the encoded JSON object. */
  datatype LogRecord = LogRecord(
    id: int,
    ts: int,
    name: string,
    level: nat,
    message: string,
    deviceId: Option<int>,
    context: Option<string>)

  ghost function Ids(rs: seq<LogRecord>): set<int> {
    set r | r in rs :: r.id
  }

  /** Ids grow strictly along the sequence. */
  ghost predicate Ascending(rs: seq<LogRecord>) {
    forall i, j :: 0 <= i < j < |rs| ==> rs[i].id < rs[j].id
  }

  ghost predicate Descending(rs: seq<LogRecord>) {
    forall i, j :: 0 <= i < j < |rs| ==> rs[i].id > rs[j].id
  }

  ghost predicate DistinctIds(rs: seq<LogRecord>) {
    forall i, j :: 0 <= i < j < |rs| ==> rs[i].id != rs[j].id
  }

  lemma SameId(rs: seq<LogRecord>, a: LogRecord, b: LogRecord)
    requires DistinctIds(rs) && a in rs && b in rs && a.id == b.id
    ensures a == b
  {
    var i, j :| 0 <= i < |rs| && 0 <= j < |rs| && rs[i] == a && rs[j] == b;
    assert i == j;
  }
}
